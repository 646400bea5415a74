/** The order in which the performance bar chart lists solvers
    (src/main.js `createSolverPerformanceChart`): the per-solver averages
    sorted by ascending average time with `Array.prototype.sort`, which is
    stable, under the comparator `a.avgTime - b.avgTime`. */
module BarChart {
  import opened Collections
  import opened Results
  import opened AverageTime

  predicate SortedByAverage(s: seq<SolverAverage>) {
    forall i, j :: 0 <= i < j < |s| ==> s[i].avgTime <= s[j].avgTime
  }

  /** Places `x` after every element whose average does not exceed its own,
      so that equal averages keep their relative order. */
  function Insert(s: seq<SolverAverage>, x: SolverAverage): (r: seq<SolverAverage>)
    requires SortedByAverage(s)
    ensures SortedByAverage(r)
    ensures multiset(r) == multiset(s) + multiset{x}
    ensures r[0] == x || (s != [] && r[0] == s[0])
  {
    if s == [] then [x]
    else if s[0].avgTime <= x.avgTime then
      var rest := Insert(s[1..], x);
      assert s == [s[0]] + s[1..];
      SortedCons(s[0], rest);
      [s[0]] + rest
    else
      SortedCons(x, s);
      [x] + s
  }

  lemma SortedCons(a: SolverAverage, t: seq<SolverAverage>)
    requires SortedByAverage(t) && (t == [] || a.avgTime <= t[0].avgTime)
    ensures SortedByAverage([a] + t)
  {
    var u := [a] + t;
    forall i, j | 0 <= i < j < |u| ensures u[i].avgTime <= u[j].avgTime {
      assert u[j] == t[j - 1];
      if i > 0 {
        assert u[i] == t[i - 1];
      }
    }
  }

  /** The comparator sort: each element in turn is inserted into the sorted
      prefix before it. */
  function SortByAverage(s: seq<SolverAverage>): (r: seq<SolverAverage>)
    ensures SortedByAverage(r)
    ensures multiset(r) == multiset(s)
  {
    if s == [] then []
    else
      var init, last := s[..|s| - 1], s[|s| - 1];
      assert s == init + [last];
      Insert(SortByAverage(init), last)
  }

  /** The entries whose average is exactly `v`. */
  function WithAverage(v: real): SolverAverage -> bool {
    (a: SolverAverage) => a.avgTime == v
  }

  lemma FilterSingleton(p: SolverAverage -> bool, x: SolverAverage)
    ensures Filter(p, [x]) == if p(x) then [x] else []
  {
    FilterSnoc(p, [], x);
    assert [] + [x] == [x];
  }

  lemma {:induction false} InsertKeepsTies(s: seq<SolverAverage>, x: SolverAverage, v: real)
    requires SortedByAverage(s)
    ensures Filter(WithAverage(v), Insert(s, x)) == Filter(WithAverage(v), s) + Filter(WithAverage(v), [x])
  {
    if s == [] {
      assert Filter(WithAverage(v), s) == [];
    } else if s[0].avgTime <= x.avgTime {
      InsertKeepsTies(s[1..], x, v);
      InsertBehindKeepsTies(s, x, v);
    } else {
      InsertInFrontKeepsTies(s, x, v);
    }
  }

  lemma InsertBehindKeepsTies(s: seq<SolverAverage>, x: SolverAverage, v: real)
    requires SortedByAverage(s) && s != [] && s[0].avgTime <= x.avgTime
    requires Filter(WithAverage(v), Insert(s[1..], x)) == Filter(WithAverage(v), s[1..]) + Filter(WithAverage(v), [x])
    ensures Filter(WithAverage(v), Insert(s, x)) == Filter(WithAverage(v), s) + Filter(WithAverage(v), [x])
  {
    InsertBehind(s, x);
    FilterConsShift(WithAverage(v), s[0], s[1..], Insert(s[1..], x), Filter(WithAverage(v), [x]));
  }

  lemma InsertBehind(s: seq<SolverAverage>, x: SolverAverage)
    requires SortedByAverage(s) && s != [] && s[0].avgTime <= x.avgTime
    ensures s == [s[0]] + s[1..]
    ensures Insert(s, x) == [s[0]] + Insert(s[1..], x)
  {
  }

  /** Putting the same element in front of two sequences keeps a relation
      between their filters. */
  lemma FilterConsShift<T(!new)>(p: T -> bool, a: T, ys: seq<T>, zs: seq<T>, extra: seq<T>)
    requires Filter(p, zs) == Filter(p, ys) + extra
    ensures Filter(p, [a] + zs) == Filter(p, [a] + ys) + extra
  {
    var front, mid := Filter(p, [a]), Filter(p, ys);
    FilterAppend(p, [a], zs);
    FilterAppend(p, [a], ys);
    AppendAssoc(front, mid, extra);
  }

  lemma AppendAssoc<T>(a: seq<T>, b: seq<T>, c: seq<T>)
    ensures a + (b + c) == (a + b) + c
  {
  }

  lemma InsertInFrontKeepsTies(s: seq<SolverAverage>, x: SolverAverage, v: real)
    requires SortedByAverage(s) && s != [] && s[0].avgTime > x.avgTime
    ensures Filter(WithAverage(v), Insert(s, x)) == Filter(WithAverage(v), s) + Filter(WithAverage(v), [x])
  {
    var p := WithAverage(v);
    assert Insert(s, x) == [x] + s;
    FilterAppend(p, [x], s);
    FilterSingleton(p, x);
    if x.avgTime == v {
      AllAboveFilteredOut(s, v);
    }
  }

  lemma {:induction false} AllAboveFilteredOut(s: seq<SolverAverage>, v: real)
    requires forall k :: 0 <= k < |s| ==> s[k].avgTime > v
    ensures Filter(WithAverage(v), s) == []
  {
    if s != [] {
      var init := s[..|s| - 1];
      assert s == init + [s[|s| - 1]];
      FilterSnoc(WithAverage(v), init, s[|s| - 1]);
      AllAboveFilteredOut(init, v);
    }
  }

  /** Stability: the entries that share one average come out in the order in
      which they went in. */
  lemma {:induction false} SortByAverageIsStable(s: seq<SolverAverage>, v: real)
    ensures Filter(WithAverage(v), SortByAverage(s)) == Filter(WithAverage(v), s)
  {
    if s != [] {
      var init, last := s[..|s| - 1], s[|s| - 1];
      assert s == init + [last];
      SortByAverageIsStable(init, v);
      InsertKeepsTies(SortByAverage(init), last, v);
      FilterAppend(WithAverage(v), init, [last]);
    }
  }

  /** The bars of the chart, left to right. */
  function PerformanceBars(data: seq<Record>): seq<SolverAverage> {
    SortByAverage(AverageTimes(data))
  }

  /** The bars are the per-solver averages, each once, in ascending order of
      average time; solvers with equal averages keep the order in which the
      aggregator listed them. */
  lemma PerformanceBarsOrder(data: seq<Record>)
    ensures SortedByAverage(PerformanceBars(data))
    ensures multiset(PerformanceBars(data)) == multiset(AverageTimes(data))
    ensures forall v :: Filter(WithAverage(v), PerformanceBars(data)) == Filter(WithAverage(v), AverageTimes(data))
    ensures forall b :: b in PerformanceBars(data) <==> b in AverageTimes(data)
  {
    var bars := PerformanceBars(data);
    forall v ensures Filter(WithAverage(v), bars) == Filter(WithAverage(v), AverageTimes(data)) {
      SortByAverageIsStable(AverageTimes(data), v);
    }
    forall b ensures b in bars <==> b in AverageTimes(data) {
      assert b in bars <==> b in multiset(bars);
      assert b in AverageTimes(data) <==> b in multiset(AverageTimes(data));
    }
  }
}
