/**
 `sort_files` (aider-cli.py): Python's stable `sorted` under the key
 `file_key(f) = (len(parts), not is_dir, parent prefix, last part lowered)`
 where `parts = f.split('/')`. Because a directory entry `"b/"` splits into
 `["b", ""]`, it has as many segments as its children and one more than a
 top-level file: `"a.py"` sorts before `"b/"`, which sorts before `"b/x.py"`.
 */
module Sorter {
  import opened Strings
  import opened Paths
  import opened Collections

  /** The tuple `file_key` returns. */
  datatype FileKey = FileKey(segments: nat, notDir: bool, parent: string, last: string)

  /** `file_key(file)` */
  function KeyOf(file: string): FileKey {
    FileKey(|Split(file)|, !IsDir(file), ParentPrefix(file), Lower(LastPart(file)))
  }

  /** Python's `<` on the key tuples: field by field, `False < True`. */
  predicate KeyLt(a: FileKey, b: FileKey) {
    || a.segments < b.segments
    || (a.segments == b.segments && !a.notDir && b.notDir)
    || (a.segments == b.segments && a.notDir == b.notDir && StrLt(a.parent, b.parent))
    || (a.segments == b.segments && a.notDir == b.notDir && a.parent == b.parent && StrLt(a.last, b.last))
  }

  /** `sorted` compares keys with `<` only; `a` may stay ahead of `b` when
      the key of `b` is not smaller. */
  predicate PathLe(a: string, b: string) {
    !KeyLt(KeyOf(b), KeyOf(a))
  }

  /** What the key says about a path: its segment count, whether it is a
      directory, and a parent prefix and last segment that rebuild it. */
  lemma KeyOfParts(file: string)
    ensures KeyOf(file).segments > 1 <==> '/' in file
    ensures KeyOf(file).notDir <==> !IsDir(file)
    ensures KeyOf(file).parent + LastPart(file) == file
    ensures KeyOf(file).last == Lower(Basename(file))
    ensures IsDir(file) ==> KeyOf(file).parent == file && KeyOf(file).last == ""
  {
    SplitRoundTrip(file);
    BasenameIsLastPart(file);
    if IsDir(file) {
      DirParts(file);
    }
  }

  lemma KeyLtAsymmetric(a: FileKey, b: FileKey)
    requires KeyLt(a, b)
    ensures !KeyLt(b, a)
  {
    if StrLt(b.parent, a.parent) && StrLt(a.parent, b.parent) {
      StrLeAntisymmetric(a.parent, b.parent);
    }
    if StrLt(b.last, a.last) && StrLt(a.last, b.last) {
      StrLeAntisymmetric(a.last, b.last);
    }
  }

  lemma KeyNotLtTransitive(a: FileKey, b: FileKey, c: FileKey)
    requires !KeyLt(b, a) && !KeyLt(c, b)
    ensures !KeyLt(c, a)
  {
    StrNotLtIsLe(a.parent, b.parent);
    StrNotLtIsLe(b.parent, c.parent);
    StrNotLtIsLe(a.parent, c.parent);
    StrNotLtIsLe(a.last, b.last);
    StrNotLtIsLe(b.last, c.last);
    StrNotLtIsLe(a.last, c.last);
    if a.segments == b.segments == c.segments && a.notDir == b.notDir == c.notDir {
      if StrLe(a.parent, b.parent) && StrLe(b.parent, c.parent) {
        StrLeTransitive(a.parent, b.parent, c.parent);
        if a.parent == c.parent {
          StrLeAntisymmetric(a.parent, b.parent);
          if StrLe(a.last, b.last) && StrLe(b.last, c.last) {
            StrLeTransitive(a.last, b.last, c.last);
          }
        }
      }
    }
  }

  /** The key order is total and transitive, so sorting by it is well
      defined. */
  lemma PathLeIsTotalPreorder()
    ensures TotalPreorder(PathLe)
  {
    forall a, b
      ensures PathLe(a, b) || PathLe(b, a)
    {
      if KeyLt(KeyOf(a), KeyOf(b)) {
        KeyLtAsymmetric(KeyOf(a), KeyOf(b));
      }
    }
    forall a, b, c | PathLe(a, b) && PathLe(b, c)
      ensures PathLe(a, c)
    {
      KeyNotLtTransitive(KeyOf(a), KeyOf(b), KeyOf(c));
    }
  }

  /** `sort_files(files)`: a reordering of the input, ordered by the key. */
  function SortFiles(files: seq<string>): (sorted: seq<string>)
    ensures multiset(sorted) == multiset(files)
    ensures SortedBy(sorted, PathLe)
  {
    PathLeIsTotalPreorder();
    SortBySorted(files, PathLe);
    SortBy(files, PathLe)
  }

  /** In the sorted list an entry with fewer segments never follows one with
      more; among entries with as many segments a directory never follows a
      non-directory; among directories, or among files, under one parent the
      lowered last segments ascend. */
  lemma SortFilesOrder(files: seq<string>, i: int, j: int)
    requires 0 <= i < j < |SortFiles(files)|
    ensures var s := SortFiles(files);
      && |Split(s[i])| <= |Split(s[j])|
      && (|Split(s[i])| == |Split(s[j])| && IsDir(s[j]) ==> IsDir(s[i]))
      && (|Split(s[i])| == |Split(s[j])| && IsDir(s[i]) == IsDir(s[j])
          ==> StrLe(ParentPrefix(s[i]), ParentPrefix(s[j])))
      && (|Split(s[i])| == |Split(s[j])| && IsDir(s[i]) == IsDir(s[j]) && ParentPrefix(s[i]) == ParentPrefix(s[j])
          ==> StrLe(Lower(LastPart(s[i])), Lower(LastPart(s[j]))))
  {
    var s := SortFiles(files);
    assert PathLe(s[i], s[j]);
    StrNotLtIsLe(ParentPrefix(s[i]), ParentPrefix(s[j]));
    StrNotLtIsLe(Lower(LastPart(s[i])), Lower(LastPart(s[j])));
  }

  /** Sorting a sorted list returns it unchanged. */
  lemma SortFilesIdempotent(files: seq<string>)
    ensures SortFiles(SortFiles(files)) == SortFiles(files)
  {
    SortBySortedInput(SortFiles(files), PathLe);
  }

  /** Entries whose keys are equal (such as "A.py" and "a.py" in one
      directory) keep their input order. */
  lemma SortFilesStable(files: seq<string>, c: string)
    ensures WithKeyOf(c, SortFiles(files), PathLe) == WithKeyOf(c, files, PathLe)
  {
    PathLeIsTotalPreorder();
    SortByStable(files, c, PathLe);
  }

  /** A top-level file comes before a directory entry, which comes before
      its own files: `["b/", "a.py"]` sorts to `["a.py", "b/"]`. */
  lemma DirectoryEntryPlacement()
    ensures KeyLt(KeyOf("a.py"), KeyOf("b/"))
    ensures KeyLt(KeyOf("b/"), KeyOf("b/x.py"))
    ensures SortFiles(["b/", "a.py"]) == ["a.py", "b/"]
  {
    assert '/' !in "a.py";
    assert |Split("a.py")| == 1;
    assert "/"[1..] == "";
    assert Split("/") == ["", ""];
    assert "b/"[1..] == "/";
    assert |Split("b/")| == 2;
    assert "b/x.py"[1..] == "/x.py";
    assert "/x.py"[1..] == "x.py";
    assert |Split("x.py")| == 1;
    assert |Split("b/x.py")| == 2;
    assert IsDir("b/") by {
      assert "b/"[1..] == "/";
    }
    assert !IsDir("b/x.py");
    KeyLtAsymmetric(KeyOf("a.py"), KeyOf("b/"));
    assert SortBy(["a.py"], PathLe) == ["a.py"];
  }
}
