/**
 Sequence facts shared by the components: subsequences, turning a set into a
 list (Python's `list(some_set)`, whose order is the set's iteration order),
 and `sorted(..., key=...)` modelled as a stable insertion sort that takes
 the key order as a function value `le` ("the key of a is <= the key of b").
 */
module Collections {

  /** `sub` is `s` with some elements left out, the rest in their order. */
  ghost predicate IsSubsequence(sub: seq<string>, s: seq<string>)
    decreases |s|
  {
    if sub == [] then true
    else if s == [] then false
    else (sub[0] == s[0] && IsSubsequence(sub[1..], s[1..])) || IsSubsequence(sub, s[1..])
  }

  /** `list(items)`: every element of the set once, in an order the model
      leaves open (Python's hash order). */
  method SetToSeq(items: set<string>) returns (xs: seq<string>)
    ensures multiset(xs) == multiset(items)
  {
    xs := [];
    var rest := items;
    while rest != {}
      invariant rest <= items
      invariant multiset(xs) + multiset(rest) == multiset(items)
      decreases |rest|
    {
      var x :| x in rest;
      assert multiset(rest) == multiset(rest - {x}) + multiset{x};
      xs := xs + [x];
      rest := rest - {x};
    }
  }

  /** `le` is the `<=` of a sort key: total and transitive. */
  ghost predicate TotalPreorder(le: (string, string) -> bool) {
    && (forall a, b :: le(a, b) || le(b, a))
    && (forall a, b, c :: le(a, b) && le(b, c) ==> le(a, c))
  }

  /** Every element is `le` every element after it. */
  ghost predicate SortedBy(s: seq<string>, le: (string, string) -> bool) {
    forall i, j :: 0 <= i < j < |s| ==> le(s[i], s[j])
  }

  /** Equal keys: each is `le` the other. */
  predicate SameKey(a: string, b: string, le: (string, string) -> bool) {
    le(a, b) && le(b, a)
  }

  /** The elements of `s` whose key equals that of `x`, in their order. */
  function WithKeyOf(x: string, s: seq<string>, le: (string, string) -> bool): seq<string> {
    if s == [] then []
    else (if SameKey(s[0], x, le) then [s[0]] else []) + WithKeyOf(x, s[1..], le)
  }

  /** Put `x` in front of the first element whose key is not smaller. */
  function Insert(x: string, s: seq<string>, le: (string, string) -> bool): (r: seq<string>)
    ensures multiset(r) == multiset(s) + multiset{x}
    ensures |r| == |s| + 1
  {
    if s == [] then [x]
    else if le(x, s[0]) then [x] + s
    else
      assert s == [s[0]] + s[1..];
      [s[0]] + Insert(x, s[1..], le)
  }

  /** `sorted(s, key=...)`, with `le` the order of the keys. */
  function SortBy(s: seq<string>, le: (string, string) -> bool): (r: seq<string>)
    ensures multiset(r) == multiset(s)
    ensures |r| == |s|
  {
    if s == [] then []
    else
      assert s == [s[0]] + s[1..];
      Insert(s[0], SortBy(s[1..], le), le)
  }

  lemma {:induction false} InsertSorted(x: string, s: seq<string>, le: (string, string) -> bool)
    requires TotalPreorder(le)
    requires SortedBy(s, le)
    ensures SortedBy(Insert(x, s, le), le)
  {
    if s != [] && !le(x, s[0]) {
      var t := Insert(x, s[1..], le);
      InsertSorted(x, s[1..], le);
      forall y | y in t
        ensures le(s[0], y)
      {
        assert y in multiset(t);
        if y != x {
          assert y in multiset(s[1..]);
          var k :| 0 <= k < |s[1..]| && s[1..][k] == y;
          assert s[k + 1] == y;
        }
      }
      var r := [s[0]] + t;
      forall i, j | 0 <= i < j < |r|
        ensures le(r[i], r[j])
      {
        if i == 0 {
          assert r[j] == t[j - 1];
        } else {
          assert r[i] == t[i - 1] && r[j] == t[j - 1];
        }
      }
    }
  }

  /** The sort's output is ordered by the key. */
  lemma {:induction false} SortBySorted(s: seq<string>, le: (string, string) -> bool)
    requires TotalPreorder(le)
    ensures SortedBy(SortBy(s, le), le)
  {
    if s != [] {
      SortBySorted(s[1..], le);
      InsertSorted(s[0], SortBy(s[1..], le), le);
    }
  }

  /** A list already ordered by the key comes back unchanged, so sorting
      twice is sorting once. */
  lemma {:induction false} SortBySortedInput(s: seq<string>, le: (string, string) -> bool)
    requires SortedBy(s, le)
    ensures SortBy(s, le) == s
  {
    if s != [] {
      SortBySortedInput(s[1..], le);
      assert s == [s[0]] + s[1..];
    }
  }

  lemma {:induction false} InsertStable(x: string, s: seq<string>, c: string, le: (string, string) -> bool)
    requires TotalPreorder(le)
    ensures WithKeyOf(c, Insert(x, s, le), le)
         == (if SameKey(x, c, le) then [x] else []) + WithKeyOf(c, s, le)
  {
    if s != [] {
      if le(x, s[0]) {
        assert Insert(x, s, le) == [x] + s;
        assert ([x] + s)[1..] == s;
      } else {
        InsertStable(x, s[1..], c, le);
        var r := Insert(x, s, le);
        assert r == [s[0]] + Insert(x, s[1..], le);
        assert r[1..] == Insert(x, s[1..], le);
      }
    }
  }

  /** The sort is stable: elements with equal keys keep their input order,
      as Python's `sorted` promises. */
  lemma {:induction false} SortByStable(s: seq<string>, c: string, le: (string, string) -> bool)
    requires TotalPreorder(le)
    ensures WithKeyOf(c, SortBy(s, le), le) == WithKeyOf(c, s, le)
  {
    if s != [] {
      SortByStable(s[1..], c, le);
      InsertStable(s[0], SortBy(s[1..], le), c, le);
    }
  }

  /** In a list holding each element at most once, two positions hold two
      different elements. */
  lemma DistinctPositions(s: seq<string>, i: int, j: int)
    requires forall x :: multiset(s)[x] <= 1
    requires 0 <= i < j < |s|
    ensures s[i] != s[j]
  {
    assert s == s[..j] + s[j..];
    assert multiset(s) == multiset(s[..j]) + multiset(s[j..]);
    assert s[i] in multiset(s[..j]);
    assert s[j] in multiset(s[j..]);
    assert multiset(s)[s[i]] <= 1;
    assert multiset(s)[s[j]] >= multiset(s[..j])[s[j]] + 1;
  }

  /** Regrouping a concatenation: `head + (x + y)` is `(head + x) + y`. */
  lemma ConcatRegroup(whole: seq<string>, head: seq<string>, tail: seq<string>, left: seq<string>, x: seq<string>, y: seq<string>)
    requires whole == head + tail && tail == x + y && left == head + x
    ensures whole == left + y
  {
  }
}
