/**
 Repository paths as the picker handles them: plain strings relative to the
 repository root, a trailing '/' marking a directory entry. The functions
 here are the pieces of Python's `str.split('/')`, `''.join(...)` and
 `os.path.basename` that the tool uses.
 */
module Paths {
  import opened Strings

  /** An entry that ends with '/' names a directory. */
  predicate IsDir(path: string) {
    EndsWith(path, "/")
  }

  /** `s.split('/')`: the segments between slashes, empty ones included. */
  function Split(s: string): (parts: seq<string>)
    ensures |parts| >= 1
    ensures forall k :: 0 <= k < |parts| ==> '/' !in parts[k]
    ensures |parts| > 1 <==> '/' in s
    decreases |s|
  {
    if s == [] then [""]
    else
      var rest := Split(s[1..]);
      assert s == [s[0]] + s[1..];
      if s[0] == '/' then [""] + rest
      else [[s[0]] + rest[0]] + rest[1..]
  }

  /** `''.join(p + '/' for p in parts)` */
  function PrefixJoin(parts: seq<string>): string {
    if parts == [] then "" else parts[0] + "/" + PrefixJoin(parts[1..])
  }

  /** The directory part of a path: every segment but the last, each
      followed by '/'. */
  function ParentPrefix(path: string): string {
    var parts := Split(path);
    PrefixJoin(parts[..|parts| - 1])
  }

  /** The last '/'-separated segment of a path, `path.split('/')[-1]`. */
  function LastPart(path: string): string {
    var parts := Split(path);
    parts[|parts| - 1]
  }

  /** The index of the last '/', or -1: `s.rfind('/')`. */
  function LastSlash(s: string): (i: int)
    ensures -1 <= i < |s|
    ensures 0 <= i ==> s[i] == '/'
    ensures forall k :: i < k < |s| ==> s[k] != '/'
  {
    if s == [] then -1
    else if s[|s| - 1] == '/' then |s| - 1
    else LastSlash(s[..|s| - 1])
  }

  /** `os.path.basename(path)` on POSIX: the text after the last '/'. */
  function Basename(path: string): (b: string)
    ensures '/' !in b
    ensures EndsWith(path, b)
    ensures |b| < |path| ==> path[|path| - |b| - 1] == '/'
  {
    path[LastSlash(path) + 1..]
  }

  lemma {:induction false} PrefixJoinEndsWithSlash(parts: seq<string>)
    requires parts != []
    ensures IsDir(PrefixJoin(parts))
  {
    if parts[1..] != [] {
      PrefixJoinEndsWithSlash(parts[1..]);
    }
  }

  /** Splitting and joining again gives the path back: the segments before
      the last, each with its '/', followed by the last segment. */
  lemma {:induction false} SplitRoundTrip(s: string)
    ensures ParentPrefix(s) + LastPart(s) == s
  {
    if s != [] {
      SplitRoundTrip(s[1..]);
      var rest := Split(s[1..]);
      var parts := Split(s);
      var m := |rest|;
      assert s == [s[0]] + s[1..];
      if s[0] == '/' {
        assert parts == [""] + rest;
        assert parts[..|parts| - 1] == [""] + rest[..m - 1];
      } else if m == 1 {
        assert parts == [[s[0]] + rest[0]];
        assert parts[..|parts| - 1] == [];
      } else {
        assert parts == [[s[0]] + rest[0]] + rest[1..];
        assert parts[..|parts| - 1] == [[s[0]] + rest[0]] + rest[1..m - 1];
        assert rest[..m - 1] == [rest[0]] + rest[1..m - 1];
        calc {
          PrefixJoin(parts[..|parts| - 1]);
          [s[0]] + rest[0] + "/" + PrefixJoin(rest[1..m - 1]);
          [s[0]] + (rest[0] + "/" + PrefixJoin(rest[1..m - 1]));
          [s[0]] + PrefixJoin(rest[..m - 1]);
        }
      }
    }
  }

  /** The last segment of `split('/')` is exactly what `os.path.basename`
      returns. */
  lemma BasenameIsLastPart(path: string)
    ensures Basename(path) == LastPart(path)
  {
    SplitRoundTrip(path);
    var pre := ParentPrefix(path);
    var last := LastPart(path);
    var i := LastSlash(path);
    var parts := Split(path);
    assert last == parts[|parts| - 1];
    if pre == [] {
      assert last == path;
      assert '/' !in path;
      assert i == -1;
    } else {
      PrefixJoinEndsWithSlash(parts[..|parts| - 1]);
      assert path[|pre| - 1] == pre[|pre| - 1] == '/';
      assert i == |pre| - 1;
      assert path[i + 1..] == last;
    }
  }

  /** A directory entry's last segment is empty and its parent prefix is the
      entry itself. */
  lemma DirParts(path: string)
    requires IsDir(path)
    ensures LastPart(path) == "" && ParentPrefix(path) == path
  {
    BasenameIsLastPart(path);
    SplitRoundTrip(path);
    assert LastSlash(path) == |path| - 1;
  }

  /** The first segment of a path containing '/', with a '/' appended, is a
      prefix of that path. */
  lemma FirstSegmentIsPrefix(path: string)
    requires '/' in path
    ensures IsDir(Split(path)[0] + "/")
    ensures StartsWith(path, Split(path)[0] + "/")
  {
    SplitRoundTrip(path);
    var parts := Split(path);
    var init := parts[..|parts| - 1];
    var head := parts[0] + "/";
    assert PrefixJoin(init) == head + PrefixJoin(init[1..]);
    PrefixStartsWith(head, PrefixJoin(init[1..]) + LastPart(path));
  }

  lemma PrefixStartsWith(a: string, b: string)
    ensures StartsWith(a + b, a)
  {
    assert (a + b)[..|a|] == a;
  }
}
