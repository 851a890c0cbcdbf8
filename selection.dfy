/**
 The last step of `interactive_file_selection` (aider-cli.py): the relative
 paths gathered from the selector are returned as `sorted(set(...))`. The
 selector, the filesystem walk and the path arithmetic before that step are
 not part of this model.
 */
module Selection {
  import opened Strings
  import opened Collections

  /** `sorted(set(files))` */
  method DedupSorted(files: seq<string>) returns (unique: seq<string>)
    ensures forall f :: f in unique <==> f in files
    ensures forall i, j :: 0 <= i < j < |unique| ==> StrLt(unique[i], unique[j])
  {
    var distinct := set f | f in files;
    var xs := SetToSeq(distinct);
    assert TotalPreorder(StrLe) by {
      forall a, b
        ensures StrLe(a, b) || StrLe(b, a)
      {
        StrLeTotal(a, b);
      }
      forall a, b, c | StrLe(a, b) && StrLe(b, c)
        ensures StrLe(a, c)
      {
        StrLeTransitive(a, b, c);
      }
    }
    SortBySorted(xs, StrLe);
    unique := SortBy(xs, StrLe);
    assert multiset(unique) == multiset(distinct);
    forall f
      ensures f in unique <==> f in files
    {
      assert f in unique <==> f in multiset(unique);
    }
    forall i, j | 0 <= i < j < |unique|
      ensures StrLt(unique[i], unique[j])
    {
      DistinctPositions(unique, i, j);
    }
  }
}
