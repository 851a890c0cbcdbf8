/**
 `filter_files` and its inner `should_keep` (aider-cli.py): drop directory
 entries that start with a skip-dir string, and other entries whose basename
 starts with '.' or matches a skip pattern.
 */
module Filter {
  import opened Strings
  import opened Paths
  import opened Glob
  import opened Collections

  /** The loop over `skip_dirs`: does `path` start with one of them? The test
      is a literal prefix, not a glob. */
  function StartsWithAny(path: string, prefixes: seq<string>): (r: bool)
    ensures r <==> exists i :: 0 <= i < |prefixes| && StartsWith(path, prefixes[i])
  {
    if prefixes == [] then false
    else StartsWith(path, prefixes[0]) || StartsWithAny(path, prefixes[1..])
  }

  /** The loop over `skip_patterns`: does `name` match one of them? */
  function MatchesAny(name: string, patterns: seq<string>): (r: bool)
    ensures r <==> exists i :: 0 <= i < |patterns| && GlobMatch(name, patterns[i])
  {
    if patterns == [] then false
    else GlobMatch(name, patterns[0]) || MatchesAny(name, patterns[1..])
  }

  /** `should_keep(file)`. A directory entry is judged by its prefix alone;
      the dot-name and pattern tests apply to other entries only. */
  function ShouldKeep(file: string, skipPatterns: seq<string>, skipDirs: seq<string>): (keep: bool)
    ensures IsDir(file) ==>
      (keep <==> forall i :: 0 <= i < |skipDirs| ==> !StartsWith(file, skipDirs[i]))
    ensures !IsDir(file) ==>
      (keep <==> !StartsWith(Basename(file), ".")
                 && forall i :: 0 <= i < |skipPatterns| ==> !GlobMatch(Basename(file), skipPatterns[i]))
  {
    if IsDir(file) then !StartsWithAny(file, skipDirs)
    else if StartsWith(Basename(file), ".") then false
    else !MatchesAny(Basename(file), skipPatterns)
  }

  /** `[f for f in files if should_keep(f)]` */
  function FilterFiles(files: seq<string>, skipPatterns: seq<string>, skipDirs: seq<string>): seq<string> {
    if files == [] then []
    else
      (if ShouldKeep(files[0], skipPatterns, skipDirs) then [files[0]] else [])
      + FilterFiles(files[1..], skipPatterns, skipDirs)
  }

  /** Every kept entry occurs as often as in the input; every dropped one not
      at all. */
  lemma {:induction false} FilterCounts(files: seq<string>, skipPatterns: seq<string>, skipDirs: seq<string>, f: string)
    ensures multiset(FilterFiles(files, skipPatterns, skipDirs))[f]
         == if ShouldKeep(f, skipPatterns, skipDirs) then multiset(files)[f] else 0
  {
    if files != [] {
      var rest := FilterFiles(files[1..], skipPatterns, skipDirs);
      FilterCounts(files[1..], skipPatterns, skipDirs, f);
      assert files == [files[0]] + files[1..];
      assert multiset(files) == multiset{files[0]} + multiset(files[1..]);
      if ShouldKeep(files[0], skipPatterns, skipDirs) {
        assert FilterFiles(files, skipPatterns, skipDirs) == [files[0]] + rest;
        assert multiset([files[0]] + rest) == multiset{files[0]} + multiset(rest);
      } else {
        assert FilterFiles(files, skipPatterns, skipDirs) == rest;
      }
    }
  }

  /** An entry survives the filter exactly when it is in the input and
      `should_keep` accepts it. */
  lemma FilterMembership(files: seq<string>, skipPatterns: seq<string>, skipDirs: seq<string>, f: string)
    ensures f in FilterFiles(files, skipPatterns, skipDirs) <==> f in files && ShouldKeep(f, skipPatterns, skipDirs)
  {
    FilterCounts(files, skipPatterns, skipDirs, f);
    assert f in files <==> multiset(files)[f] > 0;
    assert f in FilterFiles(files, skipPatterns, skipDirs)
       <==> multiset(FilterFiles(files, skipPatterns, skipDirs))[f] > 0;
  }

  /** Filtering only removes entries: what is left is a subsequence of the
      input, in the input's order. */
  lemma {:induction false} FilterIsSubsequence(files: seq<string>, skipPatterns: seq<string>, skipDirs: seq<string>)
    ensures IsSubsequence(FilterFiles(files, skipPatterns, skipDirs), files)
  {
    if files != [] {
      var kept := FilterFiles(files, skipPatterns, skipDirs);
      var rest := FilterFiles(files[1..], skipPatterns, skipDirs);
      FilterIsSubsequence(files[1..], skipPatterns, skipDirs);
      if ShouldKeep(files[0], skipPatterns, skipDirs) {
        assert kept == [files[0]] + rest;
        assert kept[1..] == rest;
      } else {
        assert kept == rest;
        if kept != [] {
          assert IsSubsequence(kept, files[1..]);
        }
      }
    }
  }

  /** Filtering an already filtered list changes nothing. */
  lemma {:induction false} FilterIdempotent(files: seq<string>, skipPatterns: seq<string>, skipDirs: seq<string>)
    ensures FilterFiles(FilterFiles(files, skipPatterns, skipDirs), skipPatterns, skipDirs)
         == FilterFiles(files, skipPatterns, skipDirs)
  {
    if files != [] {
      var kept := FilterFiles(files, skipPatterns, skipDirs);
      var rest := FilterFiles(files[1..], skipPatterns, skipDirs);
      FilterIdempotent(files[1..], skipPatterns, skipDirs);
      if ShouldKeep(files[0], skipPatterns, skipDirs) {
        assert kept == [files[0]] + rest;
        assert kept[0] == files[0] && kept[1..] == rest;
        assert FilterFiles(kept, skipPatterns, skipDirs) == [files[0]] + FilterFiles(rest, skipPatterns, skipDirs);
      } else {
        assert kept == rest;
      }
    }
  }

  lemma FilterUnfold(files: seq<string>, skipPatterns: seq<string>, skipDirs: seq<string>)
    requires files != []
    ensures FilterFiles(files, skipPatterns, skipDirs)
         == (if ShouldKeep(files[0], skipPatterns, skipDirs) then [files[0]] else [])
            + FilterFiles(files[1..], skipPatterns, skipDirs)
  {
  }

  lemma FilterUnfoldAppend(a: seq<string>, b: seq<string>, skipPatterns: seq<string>, skipDirs: seq<string>)
    requires a != []
    ensures FilterFiles(a + b, skipPatterns, skipDirs)
         == (if ShouldKeep(a[0], skipPatterns, skipDirs) then [a[0]] else [])
            + FilterFiles(a[1..] + b, skipPatterns, skipDirs)
  {
    assert (a + b)[0] == a[0];
    assert (a + b)[1..] == a[1..] + b;
    FilterUnfold(a + b, skipPatterns, skipDirs);
  }

  /** The filter works entry by entry, so it distributes over concatenation. */
  lemma {:induction false} FilterAppend(a: seq<string>, b: seq<string>, skipPatterns: seq<string>, skipDirs: seq<string>)
    ensures FilterFiles(a + b, skipPatterns, skipDirs)
         == FilterFiles(a, skipPatterns, skipDirs) + FilterFiles(b, skipPatterns, skipDirs)
  {
    if a == [] {
      assert a + b == b;
    } else {
      FilterAppend(a[1..], b, skipPatterns, skipDirs);
      FilterUnfoldAppend(a, b, skipPatterns, skipDirs);
      FilterUnfold(a, skipPatterns, skipDirs);
      ConcatRegroup(FilterFiles(a + b, skipPatterns, skipDirs),
              if ShouldKeep(a[0], skipPatterns, skipDirs) then [a[0]] else [],
              FilterFiles(a[1..] + b, skipPatterns, skipDirs),
              FilterFiles(a, skipPatterns, skipDirs),
              FilterFiles(a[1..], skipPatterns, skipDirs),
              FilterFiles(b, skipPatterns, skipDirs));
    }
  }

  /** For the pattern shapes the skip list uses, a kept non-directory entry
      is named after none of the literal patterns and ends with none of the
      `*`-suffixes. */
  lemma KeptFileAvoidsPatterns(f: string, skipPatterns: seq<string>, skipDirs: seq<string>)
    requires !IsDir(f) && ShouldKeep(f, skipPatterns, skipDirs)
    ensures !StartsWith(Basename(f), ".")
    ensures forall i :: 0 <= i < |skipPatterns| && IsLiteral(skipPatterns[i]) ==> Basename(f) != skipPatterns[i]
    ensures forall i :: 0 <= i < |skipPatterns| && IsStarSuffix(skipPatterns[i])
              ==> !EndsWith(Basename(f), skipPatterns[i][1..])
  {
    var name := Basename(f);
    forall i | 0 <= i < |skipPatterns|
      ensures IsLiteral(skipPatterns[i]) ==> name != skipPatterns[i]
      ensures IsStarSuffix(skipPatterns[i]) ==> !EndsWith(name, skipPatterns[i][1..])
    {
      MatchShapes(name, skipPatterns[i]);
    }
  }
}
