/**
 The part of `fnmatch.fnmatch` that the configured skip patterns use: `*`
 stands for any run of characters and every other character stands for
 itself. The whole name must match (fnmatch anchors at both ends); on POSIX
 the comparison is case-sensitive.
 */
module Glob {
  import opened Strings

  function GlobMatch(name: string, pattern: string): bool
    decreases |name| + |pattern|
  {
    if pattern == [] then name == []
    else if pattern[0] == '*' then
      GlobMatch(name, pattern[1..]) || (name != [] && GlobMatch(name[1..], pattern))
    else
      name != [] && name[0] == pattern[0] && GlobMatch(name[1..], pattern[1..])
  }

  /** A pattern made of literal characters only. */
  predicate IsLiteral(pattern: string) {
    '*' !in pattern
  }

  /** A pattern `*` followed by literal characters. */
  predicate IsStarSuffix(pattern: string) {
    pattern != [] && pattern[0] == '*' && '*' !in pattern[1..]
  }

  /** A pattern without `*` matches exactly the name it spells. */
  lemma {:induction false} LiteralMatch(name: string, pattern: string)
    requires '*' !in pattern
    ensures GlobMatch(name, pattern) <==> name == pattern
  {
    if pattern != [] && name != [] {
      assert '*' !in pattern[1..];
      LiteralMatch(name[1..], pattern[1..]);
      assert name == [name[0]] + name[1..];
      assert pattern == [pattern[0]] + pattern[1..];
    }
  }

  /** A pattern `*` followed by a literal matches exactly the names that end
      with that literal (`*.pyc`, `*~`). */
  lemma {:induction false} StarSuffixMatch(name: string, suffix: string)
    requires '*' !in suffix
    ensures GlobMatch(name, "*" + suffix) <==> EndsWith(name, suffix)
  {
    var pattern := "*" + suffix;
    assert pattern[1..] == suffix;
    LiteralMatch(name, suffix);
    if name != [] {
      StarSuffixMatch(name[1..], suffix);
      assert EndsWith(name, suffix) <==> name == suffix || EndsWith(name[1..], suffix) by {
        if |suffix| < |name| {
          assert name[|name| - |suffix|..] == name[1..][|name| - 1 - |suffix|..];
        }
      }
    }
  }

  /** A name without '/' never matches a literal pattern that contains one. */
  lemma SlashPatternNeverMatches(name: string, pattern: string)
    requires '*' !in pattern && '/' in pattern && '/' !in name
    ensures !GlobMatch(name, pattern)
  {
    LiteralMatch(name, pattern);
  }

  /** What matching a pattern of either shape means for a name. */
  lemma MatchShapes(name: string, pattern: string)
    ensures IsLiteral(pattern) ==> (GlobMatch(name, pattern) <==> name == pattern)
    ensures IsStarSuffix(pattern) ==> (GlobMatch(name, pattern) <==> EndsWith(name, pattern[1..]))
  {
    if IsLiteral(pattern) {
      LiteralMatch(name, pattern);
    } else if IsStarSuffix(pattern) {
      assert pattern == "*" + pattern[1..];
      StarSuffixMatch(name, pattern[1..]);
    }
  }
}
