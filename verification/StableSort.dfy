/**
 Python's `list.sort(key=..., reverse=True)`: descending, and stable, so that entries
 with equal keys keep their original order.
 */
module StableSort {

  ghost predicate Descending<T>(xs: seq<T>, key: T -> real) {
    forall i, j | 0 <= i < j < |xs| :: key(xs[i]) >= key(xs[j])
  }

  function Filter<T>(xs: seq<T>, p: T -> bool): seq<T> {
    if xs == [] then []
    else if p(xs[0]) then [xs[0]] + Filter(xs[1..], p)
    else Filter(xs[1..], p)
  }

  lemma {:induction false} FilterFacts<T(!new)>(xs: seq<T>, p: T -> bool)
    ensures |Filter(xs, p)| <= |xs|
    ensures forall x :: x in Filter(xs, p) <==> x in xs && p(x)
  {
    if xs != [] {
      FilterFacts(xs[1..], p);
    }
  }

  function Insert<T>(x: T, ys: seq<T>, key: T -> real): seq<T> {
    if ys == [] || key(ys[0]) <= key(x) then [x] + ys
    else [ys[0]] + Insert(x, ys[1..], key)
  }

  function SortDesc<T>(xs: seq<T>, key: T -> real): seq<T> {
    if xs == [] then [] else Insert(xs[0], SortDesc(xs[1..], key), key)
  }

  lemma {:induction false} InsertBag<T>(x: T, ys: seq<T>, key: T -> real)
    ensures multiset(Insert(x, ys, key)) == multiset{x} + multiset(ys)
    ensures |Insert(x, ys, key)| == |ys| + 1
  {
    if ys == [] || key(ys[0]) <= key(x) {
    } else {
      assert ys == [ys[0]] + ys[1..];
      InsertBag(x, ys[1..], key);
    }
  }

  lemma PrependDescending<T>(y: T, ys: seq<T>, key: T -> real)
    requires Descending(ys, key) && forall z | z in ys :: key(y) >= key(z)
    ensures Descending([y] + ys, key)
  {}

  lemma {:induction false} InsertDescending<T>(x: T, ys: seq<T>, key: T -> real)
    requires Descending(ys, key)
    ensures Descending(Insert(x, ys, key), key)
  {
    if ys != [] {
      if key(ys[0]) <= key(x) {
        PrependDescending(x, ys, key);
      } else {
        var rest := Insert(x, ys[1..], key);
        InsertDescending(x, ys[1..], key);
        InsertBag(x, ys[1..], key);
        forall y | y in rest ensures key(ys[0]) >= key(y) {
          assert y in multiset(rest);
        }
        PrependDescending(ys[0], rest, key);
      }
    }
  }

  lemma InsertFacts<T>(x: T, ys: seq<T>, key: T -> real)
    ensures multiset(Insert(x, ys, key)) == multiset{x} + multiset(ys)
    ensures |Insert(x, ys, key)| == |ys| + 1
    ensures Descending(ys, key) ==> Descending(Insert(x, ys, key), key)
  {
    hide Insert, Descending;
    InsertBag(x, ys, key);
    if Descending(ys, key) {
      InsertDescending(x, ys, key);
    }
  }

  /** The result is a rearrangement of the input, in descending order of key. */
  lemma {:induction false} SortFacts<T>(xs: seq<T>, key: T -> real)
    ensures Descending(SortDesc(xs, key), key)
    ensures multiset(SortDesc(xs, key)) == multiset(xs)
    ensures |SortDesc(xs, key)| == |xs|
    ensures forall x :: x in SortDesc(xs, key) <==> x in xs
  {
    if xs != [] {
      assert xs == [xs[0]] + xs[1..];
      SortFacts(xs[1..], key);
      InsertFacts(xs[0], SortDesc(xs[1..], key), key);
    }
    forall x ensures x in SortDesc(xs, key) <==> x in xs {
      assert x in SortDesc(xs, key) <==> x in multiset(SortDesc(xs, key));
    }
  }

  lemma {:induction false} FilterInsert<T(!new)>(x: T, ys: seq<T>, key: T -> real, p: T -> bool)
    requires Descending(ys, key)
    ensures Filter(Insert(x, ys, key), p) == if p(x) then Insert(x, Filter(ys, p), key) else Filter(ys, p)
  {
    if ys == [] || key(ys[0]) <= key(x) {
      assert ([x] + ys)[1..] == ys;
      var f := Filter(ys, p);
      FilterFacts(ys, p);
      if f != [] {
        assert f[0] in ys;
      }
    } else {
      FilterInsert(x, ys[1..], key, p);
      var rest := Insert(x, ys[1..], key);
      assert ([ys[0]] + rest)[1..] == rest;
      assert p(ys[0]) ==> Filter(ys, p) == [ys[0]] + Filter(ys[1..], p);
      assert p(ys[0]) ==> Filter(ys, p)[1..] == Filter(ys[1..], p);
    }
  }

  /** Sorting commutes with keeping a sub-list: the order chosen for one group of entries never
      depends on the entries outside it. With p a test for one key this is stability. */
  lemma {:induction false} FilterSort<T(!new)>(xs: seq<T>, key: T -> real, p: T -> bool)
    ensures Filter(SortDesc(xs, key), p) == SortDesc(Filter(xs, p), key)
  {
    if xs != [] {
      FilterSort(xs[1..], key, p);
      SortFacts(xs[1..], key);
      FilterInsert(xs[0], SortDesc(xs[1..], key), key, p);
      var f := Filter(xs[1..], p);
      assert ([xs[0]] + f)[1..] == f;
    }
  }

  /** A list already in order is left alone. */
  lemma {:induction false} SortSorted<T>(xs: seq<T>, key: T -> real)
    requires Descending(xs, key)
    ensures SortDesc(xs, key) == xs
  {
    if xs != [] {
      SortSorted(xs[1..], key);
    }
  }

  lemma {:induction false} SortHeadIs<T>(xs: seq<T>, key: T -> real, i: nat)
    requires i < |xs|
    requires forall j | 0 <= j < i :: key(xs[j]) < key(xs[i])
    requires forall j | i < j < |xs| :: key(xs[j]) <= key(xs[i])
    ensures SortDesc(xs, key) != [] && SortDesc(xs, key)[0] == xs[i]
  {
    if i > 0 {
      SortHeadIs(xs[1..], key, i - 1);
    } else if |xs| > 1 {
      var next := FirstBestFacts(xs[1..], key);
      SortHeadIs(xs[1..], key, next);
      assert xs[1..][next] == xs[next + 1];
    }
  }

  lemma {:induction false} FilterAll<T>(xs: seq<T>, p: T -> bool)
    ensures (forall x | x in xs :: p(x)) ==> Filter(xs, p) == xs
    ensures (forall x | x in xs :: !p(x)) ==> Filter(xs, p) == []
  {
    if xs != [] {
      FilterAll(xs[1..], p);
    }
  }

  lemma {:induction false} FilterConcat<T>(xs: seq<T>, ys: seq<T>, p: T -> bool)
    ensures Filter(xs + ys, p) == Filter(xs, p) + Filter(ys, p)
  {
    if xs == [] {
      assert xs + ys == ys;
    } else {
      assert (xs + ys)[1..] == xs[1..] + ys;
      FilterConcat(xs[1..], ys, p);
    }
  }

  lemma {:induction false} FilterAt<T>(xs: seq<T>, i: nat, p: T -> bool)
    requires i < |xs| && p(xs[i])
    ensures |Filter(xs[..i], p)| < |Filter(xs, p)| && Filter(xs, p)[|Filter(xs[..i], p)|] == xs[i]
  {
    if i > 0 {
      FilterAt(xs[1..], i - 1, p);
      assert xs[..i][1..] == xs[1..][..i - 1];
    }
  }

  /** Replacing an element by one that is kept just the same replaces it in the filtered list, or changes nothing. */
  lemma {:induction false} FilterUpdate<T>(xs: seq<T>, i: nat, y: T, p: T -> bool)
    requires i < |xs| && p(y) == p(xs[i])
    ensures p(y) ==> |Filter(xs[..i], p)| < |Filter(xs, p)|
    ensures Filter(xs[i := y], p) == if p(y) then Filter(xs, p)[|Filter(xs[..i], p)| := y] else Filter(xs, p)
  {
    if i == 0 {
      assert xs[i := y][1..] == xs[1..];
    } else {
      FilterUpdate(xs[1..], i - 1, y, p);
      assert xs[i := y][1..] == xs[1..][i - 1 := y] && xs[..i][1..] == xs[1..][..i - 1];
    }
  }

  /** Python's max(xs, key=...): the first of the largest. */
  function FirstBest<T>(xs: seq<T>, key: T -> real): T
    requires xs != []
  {
    if |xs| == 1 then xs[0]
    else
      var best := FirstBest(xs[..|xs| - 1], key);
      if key(xs[|xs| - 1]) > key(best) then xs[|xs| - 1] else best
  }

  lemma {:induction false} FirstBestFacts<T>(xs: seq<T>, key: T -> real) returns (i: nat)
    requires xs != []
    ensures i < |xs| && FirstBest(xs, key) == xs[i]
    ensures forall j | 0 <= j < i :: key(xs[j]) < key(xs[i])
    ensures forall j | i < j < |xs| :: key(xs[j]) <= key(xs[i])
  {
    i := 0;
    if |xs| > 1 {
      i := FirstBestFacts(xs[..|xs| - 1], key);
      if key(xs[|xs| - 1]) > key(xs[i]) {
        i := |xs| - 1;
      }
    }
  }

  lemma FirstBestIs<T>(xs: seq<T>, key: T -> real, i: nat)
    requires i < |xs|
    requires forall j | 0 <= j < i :: key(xs[j]) < key(xs[i])
    requires forall j | i < j < |xs| :: key(xs[j]) <= key(xs[i])
    ensures FirstBest(xs, key) == xs[i]
  {
    var i' := FirstBestFacts(xs, key);
  }

  /** The head of the sorted list is what max would pick. */
  lemma SortHead<T>(xs: seq<T>, key: T -> real)
    requires xs != []
    ensures SortDesc(xs, key) != [] && SortDesc(xs, key)[0] == FirstBest(xs, key)
  {
    var i := FirstBestFacts(xs, key);
    SortHeadIs(xs, key, i);
  }

  /** The first of the largest among the elements that pass a test, at its place among all. */
  lemma {:induction false} FilterFirstBest<T>(xs: seq<T>, p: T -> bool, key: T -> real) returns (i: nat)
    requires Filter(xs, p) != []
    ensures i < |xs| && p(xs[i]) && FirstBest(Filter(xs, p), key) == xs[i]
    ensures forall j | 0 <= j < i && p(xs[j]) :: key(xs[j]) < key(xs[i])
    ensures forall j | i < j < |xs| && p(xs[j]) :: key(xs[j]) <= key(xs[i])
  {
    var n := |xs| - 1;
    var before := Filter(xs[..n], p);
    assert xs == xs[..n] + [xs[n]];
    FilterConcat(xs[..n], [xs[n]], p);
    assert Filter(xs, p) == before + if p(xs[n]) then [xs[n]] else [];
    if before == [] {
      i := n;
      FilterNothing(xs[..n], p);
      assert Filter(xs, p) == [xs[n]];
    } else {
      i := FilterFirstBest(xs[..n], p, key);
      if p(xs[n]) {
        FirstBestSnoc(before, xs[n], key);
        if key(xs[n]) > key(xs[i]) {
          i := n;
        }
      } else {
        assert Filter(xs, p) == before;
      }
    }
  }

  lemma FirstBestSnoc<T>(xs: seq<T>, x: T, key: T -> real)
    requires xs != []
    ensures FirstBest(xs + [x], key) == if key(x) > key(FirstBest(xs, key)) then x else FirstBest(xs, key)
  {
    assert (xs + [x])[..|xs|] == xs;
  }

  lemma {:induction false} FilterNothing<T>(xs: seq<T>, p: T -> bool)
    requires Filter(xs, p) == []
    ensures forall j | 0 <= j < |xs| :: !p(xs[j])
  {
    if xs != [] {
      FilterNothing(xs[1..], p);
    }
  }
}
