/** Sequence operations the dashboard builds its views from: JavaScript's
    `Array.prototype.filter`, `slice(0, n)`, and the first-insertion order in
    which `[...new Set(xs)]` (and `Object.keys` of an object filled key by key)
    lists distinct values. */
module Collections {

  predicate NoDuplicates<T(==)>(s: seq<T>) {
    forall i, j :: 0 <= i < j < |s| ==> s[i] != s[j]
  }

  /** `xs.filter(p)`: the elements of `xs` that satisfy `p`, in their order. */
  function Filter<T(!new)>(p: T -> bool, xs: seq<T>): (r: seq<T>)
    ensures |r| <= |xs|
  {
    if xs == [] then []
    else
      var init := xs[..|xs| - 1];
      assert xs == init + [xs[|xs| - 1]];
      Filter(p, init) + (if p(xs[|xs| - 1]) then [xs[|xs| - 1]] else [])
  }

  /** The filter keeps exactly the elements that satisfy `p`. */
  lemma {:induction false} FilterMembers<T(!new)>(p: T -> bool, xs: seq<T>)
    ensures forall x :: x in Filter(p, xs) <==> x in xs && p(x)
  {
    if xs != [] {
      var init, last := xs[..|xs| - 1], xs[|xs| - 1];
      assert xs == init + [last];
      FilterMembers(p, init);
    }
  }

  lemma FilterSnoc<T(!new)>(p: T -> bool, xs: seq<T>, x: T)
    ensures Filter(p, xs + [x]) == Filter(p, xs) + (if p(x) then [x] else [])
  {
    assert (xs + [x])[..|xs|] == xs;
  }

  lemma {:induction false} FilterAppend<T(!new)>(p: T -> bool, xs: seq<T>, ys: seq<T>)
    ensures Filter(p, xs + ys) == Filter(p, xs) + Filter(p, ys)
    decreases |ys|
  {
    if ys == [] {
      assert xs + ys == xs;
    } else {
      var init, last := ys[..|ys| - 1], ys[|ys| - 1];
      var tail := if p(last) then [last] else [];
      assert ys == init + [last];
      calc {
        Filter(p, xs + ys);
        { assert xs + ys == (xs + init) + [last]; }
        Filter(p, (xs + init) + [last]);
        { FilterSnoc(p, xs + init, last); }
        Filter(p, xs + init) + tail;
        { FilterAppend(p, xs, init); }
        Filter(p, xs) + Filter(p, init) + tail;
        { FilterSnoc(p, init, last); }
        Filter(p, xs) + Filter(p, ys);
      }
    }
  }

  /** `xs.slice(0, n)` for a non-negative `n`. */
  function Take<T>(xs: seq<T>, n: nat): seq<T> {
    if |xs| <= n then xs else xs[..n]
  }

  /** The position of the first occurrence of `x` in `xs`. */
  function FirstIndex<T(==)>(xs: seq<T>, x: T): (k: nat)
    requires x in xs
    ensures k < |xs| && xs[k] == x && x !in xs[..k]
  {
    if xs[0] == x then 0
    else
      var k := 1 + FirstIndex(xs[1..], x);
      assert xs[..k] == [xs[0]] + xs[1..][..k - 1];
      k
  }

  lemma FirstIndexSnoc<T>(xs: seq<T>, y: T, x: T)
    requires x in xs
    ensures FirstIndex(xs + [y], x) == FirstIndex(xs, x)
  {
    if xs[0] != x {
      assert (xs + [y])[1..] == xs[1..] + [y];
      FirstIndexSnoc(xs[1..], y, x);
    }
  }

  /** `[...new Set(xs)]`: every value of `xs` once, in the order in which it
      first occurs. */
  function Distinct<T(==,!new)>(xs: seq<T>): (r: seq<T>)
    ensures NoDuplicates(r)
    ensures forall x :: x in r <==> x in xs
    ensures |r| <= |xs|
  {
    if xs == [] then []
    else
      var init, last := xs[..|xs| - 1], xs[|xs| - 1];
      assert xs == init + [last];
      var seen := Distinct(init);
      if last in seen then seen else seen + [last]
  }

  lemma DistinctSnoc<T(!new)>(xs: seq<T>, x: T)
    ensures Distinct(xs + [x]) == if x in Distinct(xs) then Distinct(xs) else Distinct(xs) + [x]
  {
    assert (xs + [x])[..|xs|] == xs;
  }

  /** The distinct values come out in the order of their first occurrences. */
  lemma {:induction false} DistinctKeepsFirstOccurrenceOrder<T(!new)>(xs: seq<T>)
    ensures forall i, j :: 0 <= i < j < |Distinct(xs)| ==>
              FirstIndex(xs, Distinct(xs)[i]) < FirstIndex(xs, Distinct(xs)[j])
  {
    if xs != [] {
      var init, last := xs[..|xs| - 1], xs[|xs| - 1];
      assert xs == init + [last];
      DistinctKeepsFirstOccurrenceOrder(init);
      var seen := Distinct(init);
      forall x | x in init
        ensures FirstIndex(xs, x) == FirstIndex(init, x)
      {
        FirstIndexSnoc(init, last, x);
      }
      if last !in seen {
        assert FirstIndex(xs, last) == |xs| - 1;
      }
    }
  }

  /** `r` lists values of `xs` in the order of their first occurrences in `xs`. */
  ghost predicate InFirstOccurrenceOrder<T(!new)>(xs: seq<T>, r: seq<T>)
    requires forall x :: x in r ==> x in xs
  {
    forall i, j :: 0 <= i < j < |r| ==> FirstIndex(xs, r[i]) < FirstIndex(xs, r[j])
  }

  /** The three properties of `Distinct` determine it: any duplicate-free
      sequence with the same values, listed in first-occurrence order, is it. */
  lemma {:induction false} DistinctIsUnique<T(!new)>(xs: seq<T>, r: seq<T>)
    requires NoDuplicates(r)
    requires forall x :: x in r <==> x in xs
    requires InFirstOccurrenceOrder(xs, r)
    ensures r == Distinct(xs)
  {
    DistinctKeepsFirstOccurrenceOrder(xs);
    var d := Distinct(xs);
    assert InFirstOccurrenceOrder(xs, d);
    SameValuesSameLength(r, d);
    var k := 0;
    while k < |r|
      invariant 0 <= k <= |r| && r[..k] == d[..k]
    {
      MismatchImpossible(xs, r, d, k);
      assert r[..k + 1] == r[..k] + [r[k]];
      assert d[..k + 1] == d[..k] + [d[k]];
      k := k + 1;
    }
    assert r == r[..k] && d == d[..k];
  }

  lemma SameValuesSameLength<T>(r: seq<T>, d: seq<T>)
    requires NoDuplicates(r) && NoDuplicates(d)
    requires forall x :: x in r <==> x in d
    ensures |r| == |d|
  {
    NoDuplicatesCardinality(r);
    NoDuplicatesCardinality(d);
    assert (set x | x in r) == (set x | x in d);
  }

  lemma {:induction false} NoDuplicatesCardinality<T>(s: seq<T>)
    requires NoDuplicates(s)
    ensures |set x | x in s| == |s|
  {
    if s != [] {
      var init, last := s[..|s| - 1], s[|s| - 1];
      assert s == init + [last];
      NoDuplicatesCardinality(init);
      assert (set x | x in s) == (set x | x in init) + {last};
    }
  }

  lemma MismatchImpossible<T(!new)>(xs: seq<T>, r: seq<T>, d: seq<T>, k: nat)
    requires NoDuplicates(r) && NoDuplicates(d)
    requires forall x :: x in r <==> x in xs
    requires forall x :: x in d <==> x in xs
    requires InFirstOccurrenceOrder(xs, r) && InFirstOccurrenceOrder(xs, d)
    requires k < |r| && k < |d| && r[..k] == d[..k]
    ensures r[k] == d[k]
  {
    var a, b := r[k], d[k];
    if a != b {
      assert b in d;
      var kb :| 0 <= kb < |r| && r[kb] == b;
      assert a in r;
      var ka :| 0 <= ka < |d| && d[ka] == a;
    }
  }

  /** Cutting a filtered sequence after `n` elements gives the filter of some
      leading part of the input. */
  lemma {:induction false} TakeOfFilterIsFilterOfPrefix<T(!new)>(p: T -> bool, xs: seq<T>, n: nat)
    ensures exists m :: 0 <= m <= |xs| && Take(Filter(p, xs), n) == Filter(p, xs[..m])
    decreases |xs|
  {
    if |Filter(p, xs)| <= n {
      assert xs[..|xs|] == xs;
    } else {
      var init, last := xs[..|xs| - 1], xs[|xs| - 1];
      assert xs == init + [last];
      FilterSnoc(p, init, last);
      TakeOfFilterIsFilterOfPrefix(p, init, n);
      var m :| 0 <= m <= |init| && Take(Filter(p, init), n) == Filter(p, init[..m]);
      assert init[..m] == xs[..m];
      assert Filter(p, xs)[..n] == Filter(p, init)[..n];
    }
  }
}
