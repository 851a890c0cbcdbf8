/**
 The listing half of `get_git_files` (aider-cli.py): given the lines that
 `git ls-files` printed, add one `"<first segment>/"` entry per top-level
 directory, then order everything with directory entries first and each
 group compared case-insensitively. The `git` call itself is the `files`
 parameter.
 */
module Listing {
  import opened Strings
  import opened Paths
  import opened Collections

  /** The set `top_dirs` that the loop builds. */
  ghost function TopDirs(files: seq<string>): set<string> {
    set f | f in files && '/' in f :: Split(f)[0] + "/"
  }

  /** Python's `<` on the key `(not x.endswith('/'), x.lower())`. */
  predicate ListingLt(a: string, b: string) {
    || (IsDir(a) && !IsDir(b))
    || (IsDir(a) == IsDir(b) && StrLt(Lower(a), Lower(b)))
  }

  predicate ListingLe(a: string, b: string) {
    !ListingLt(b, a)
  }

  lemma ListingLeIsTotalPreorder()
    ensures TotalPreorder(ListingLe)
  {
    forall a, b
      ensures ListingLe(a, b) || ListingLe(b, a)
    {
      StrNotLtIsLe(Lower(a), Lower(b));
      StrNotLtIsLe(Lower(b), Lower(a));
    }
    forall a, b, c | ListingLe(a, b) && ListingLe(b, c)
      ensures ListingLe(a, c)
    {
      StrNotLtIsLe(Lower(a), Lower(b));
      StrNotLtIsLe(Lower(b), Lower(c));
      StrNotLtIsLe(Lower(a), Lower(c));
      if IsDir(a) == IsDir(b) == IsDir(c) {
        StrLeTransitive(Lower(a), Lower(b), Lower(c));
      }
    }
  }

  lemma TopDirsAppend(files: seq<string>, f: string)
    ensures TopDirs(files + [f]) == TopDirs(files) + (if '/' in f then {Split(f)[0] + "/"} else {})
  {
    forall g | g in files + [f]
      ensures g in files || g == f
    {
    }
  }

  /** Cutting a path right after a slash-free first segment gives that
      segment as the first element of `split('/')`. */
  lemma {:induction false} SplitFirstSegment(dir: string, rest: string)
    requires '/' !in dir
    ensures Split(dir + "/" + rest)[0] == dir
  {
    var s := dir + "/" + rest;
    if dir != [] {
      assert s[1..] == dir[1..] + "/" + rest;
      assert '/' !in dir[1..];
      SplitFirstSegment(dir[1..], rest);
      assert dir == [dir[0]] + dir[1..];
    }
  }

  /** A top-level directory entry is exactly a string with one '/', at its
      end, that some listed path starts with. */
  lemma TopDirsMeaning(files: seq<string>, d: string)
    ensures d in TopDirs(files) <==>
      && IsDir(d)
      && '/' !in d[..|d| - 1]
      && exists f :: f in files && StartsWith(f, d)
  {
    if d in TopDirs(files) {
      var f :| f in files && '/' in f && d == Split(f)[0] + "/";
      FirstSegmentIsPrefix(f);
      assert d[..|d| - 1] == Split(f)[0];
    }
    if IsDir(d) && '/' !in d[..|d| - 1] && exists f :: f in files && StartsWith(f, d) {
      var f :| f in files && StartsWith(f, d);
      var dir := d[..|d| - 1];
      assert d == dir + "/";
      assert f == dir + "/" + f[|d|..];
      SplitFirstSegment(dir, f[|d|..]);
      assert f[|d| - 1] == '/';
    }
  }

  /** The body of `get_git_files` after the `git` call. */
  method ListEntries(files: seq<string>) returns (entries: seq<string>)
    ensures multiset(entries) == multiset(files) + multiset(TopDirs(files))
    ensures forall d :: d in TopDirs(files) ==> multiset(entries)[d] == multiset(files)[d] + 1
    ensures forall i, j :: 0 <= i < j < |entries| && IsDir(entries[j]) ==> IsDir(entries[i])
    ensures forall i, j :: 0 <= i < j < |entries| && IsDir(entries[i]) == IsDir(entries[j])
              ==> StrLe(Lower(entries[i]), Lower(entries[j]))
  {
    var topDirs: set<string> := {};
    for i := 0 to |files|
      invariant topDirs == TopDirs(files[..i])
    {
      var parts := Split(files[i]);
      assert files[..i + 1] == files[..i] + [files[i]];
      TopDirsAppend(files[..i], files[i]);
      if |parts| > 1 {
        topDirs := topDirs + {parts[0] + "/"};
      }
    }
    assert files[..|files|] == files;
    var dirList := SetToSeq(topDirs);
    ListingLeIsTotalPreorder();
    SortBySorted(dirList + files, ListingLe);
    entries := SortBy(dirList + files, ListingLe);
    forall i, j | 0 <= i < j < |entries| && IsDir(entries[i]) == IsDir(entries[j])
      ensures StrLe(Lower(entries[i]), Lower(entries[j]))
    {
      assert ListingLe(entries[i], entries[j]);
      StrNotLtIsLe(Lower(entries[i]), Lower(entries[j]));
    }
  }
}
