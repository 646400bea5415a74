/** The average-time aggregator (src/main.js `getAverageTimeBySolver`): per
    solver, the sum and the number of its qualifying times, then their mean. */
module AverageTime {
  import opened Collections
  import opened Results

  datatype SolverAverage = SolverAverage(solver: string, avgTime: real)

  /** What `solverTimes[solver]` holds: the sum of `solver`'s qualifying times. */
  function TimeSum(data: seq<Record>, solver: string): real {
    if data == [] then 0.0
    else
      var last := data[|data| - 1];
      TimeSum(data[..|data| - 1], solver)
        + (if last.name == solver && Qualifies(last) then last.time.value else 0.0)
  }

  /** What `solverCounts[solver]` holds: the number of `solver`'s qualifying records. */
  function TimeCount(data: seq<Record>, solver: string): nat {
    if data == [] then 0
    else
      var last := data[|data| - 1];
      TimeCount(data[..|data| - 1], solver) + (if last.name == solver && Qualifies(last) then 1 else 0)
  }

  lemma TimeSnoc(data: seq<Record>, r: Record, solver: string)
    ensures TimeSum(data + [r], solver)
            == TimeSum(data, solver) + (if r.name == solver && Qualifies(r) then r.time.value else 0.0)
    ensures TimeCount(data + [r], solver)
            == TimeCount(data, solver) + (if r.name == solver && Qualifies(r) then 1 else 0)
  {
    assert (data + [r])[..|data|] == data;
  }

  /** A solver has a positive count exactly when one of its records qualifies. */
  lemma {:induction false} TimeCountPositive(data: seq<Record>, solver: string)
    ensures TimeCount(data, solver) > 0 <==> exists r :: r in data && r.name == solver && Qualifies(r)
  {
    if data != [] {
      var init, last := data[..|data| - 1], data[|data| - 1];
      assert data == init + [last];
      TimeCountPositive(init, solver);
    }
  }

  lemma {:induction false} NoCountNoSum(data: seq<Record>, solver: string)
    ensures TimeCount(data, solver) == 0 ==> TimeSum(data, solver) == 0.0
  {
    if data != [] {
      NoCountNoSum(data[..|data| - 1], solver);
    }
  }

  /** `Object.keys(solverTimes)`: a solver's key is created by its first
      qualifying record, so the keys come in that order. */
  function QualifyingSolvers(data: seq<Record>): seq<string> {
    if data == [] then []
    else
      var earlier, last := QualifyingSolvers(data[..|data| - 1]), data[|data| - 1];
      if Qualifies(last) && last.name !in earlier then earlier + [last.name] else earlier
  }

  lemma QualifyingSolversSnoc(data: seq<Record>, r: Record)
    ensures QualifyingSolvers(data + [r])
            == if Qualifies(r) && r.name !in QualifyingSolvers(data)
               then QualifyingSolvers(data) + [r.name] else QualifyingSolvers(data)
  {
    assert (data + [r])[..|data|] == data;
  }

  /** The keys are exactly the solvers with a positive count. */
  lemma {:induction false} QualifyingSolversHaveCounts(data: seq<Record>)
    ensures forall s :: s in QualifyingSolvers(data) <==> TimeCount(data, s) > 0
  {
    if data != [] {
      QualifyingSolversHaveCounts(data[..|data| - 1]);
    }
  }

  /** The keys are the distinct names of the qualifying records, in the order
      in which those names first occur. */
  lemma {:induction false} QualifyingSolversAreDistinctNames(data: seq<Record>)
    ensures QualifyingSolvers(data) == Distinct(Names(Filter(Qualifies, data)))
  {
    if data != [] {
      var init, last := data[..|data| - 1], data[|data| - 1];
      assert data == init + [last];
      QualifyingSolversAreDistinctNames(init);
      var before := Filter(Qualifies, init);
      FilterSnoc(Qualifies, init, last);
      if Qualifies(last) {
        NamesSnoc(before, last);
        DistinctSnoc(Names(before), last.name);
      } else {
        assert Filter(Qualifies, data) == before;
      }
    }
  }

  /** The value `getAverageTimeBySolver` returns: one entry per qualifying
      solver, holding the mean of its qualifying times. */
  function AverageTimes(data: seq<Record>): seq<SolverAverage> {
    QualifyingSolversHaveCounts(data);
    var solvers := QualifyingSolvers(data);
    seq(|solvers|, k requires 0 <= k < |solvers| =>
      SolverAverage(solvers[k], TimeSum(data, solvers[k]) / TimeCount(data, solvers[k]) as real))
  }

  /** The state of the two dictionaries after the records of `seen`:
      `keys` lists `Object.keys(solverTimes)` in insertion order. */
  ghost predicate Accumulated(seen: seq<Record>, keys: seq<string>,
                              solverTimes: map<string, real>, solverCounts: map<string, nat>)
  {
    && keys == QualifyingSolvers(seen)
    && (forall s :: s in solverTimes <==> s in keys)
    && (forall s :: s in solverCounts <==> s in keys)
    && (forall s :: s in solverTimes ==>
          solverTimes[s] == TimeSum(seen, s) && solverCounts[s] == TimeCount(seen, s))
  }

  /** The step `data.forEach` takes for one record `d`. */
  lemma AccumulateStep(seen: seq<Record>, d: Record, keys: seq<string>,
                       solverTimes: map<string, real>, solverCounts: map<string, nat>)
    requires Accumulated(seen, keys, solverTimes, solverCounts)
    ensures !Qualifies(d) ==> Accumulated(seen + [d], keys, solverTimes, solverCounts)
    ensures Qualifies(d) ==>
      var solver := d.name;
      Accumulated(seen + [d],
        if solver !in solverTimes then keys + [solver] else keys,
        solverTimes[solver := (if solver in solverTimes then solverTimes[solver] else 0.0) + d.time.value],
        solverCounts[solver := (if solver in solverCounts then solverCounts[solver] else 0) + 1])
  {
    QualifyingSolversSnoc(seen, d);
    if d.name !in solverTimes {
      QualifyingSolversHaveCounts(seen);
      NoCountNoSum(seen, d.name);
    }
    if Qualifies(d) {
      AccumulateAdd(seen, d, solverTimes, solverCounts);
    } else {
      AccumulateSkip(seen, d, solverTimes, solverCounts);
    }
  }

  /** A record that does not qualify changes no sum and no count. */
  lemma AccumulateSkip(seen: seq<Record>, d: Record, solverTimes: map<string, real>, solverCounts: map<string, nat>)
    requires !Qualifies(d)
    requires forall s :: s in solverTimes ==>
               s in solverCounts && solverTimes[s] == TimeSum(seen, s) && solverCounts[s] == TimeCount(seen, s)
    ensures forall s :: s in solverTimes ==>
              solverTimes[s] == TimeSum(seen + [d], s) && solverCounts[s] == TimeCount(seen + [d], s)
  {
    forall s ensures TimeSum(seen + [d], s) == TimeSum(seen, s) && TimeCount(seen + [d], s) == TimeCount(seen, s) {
      TimeSnoc(seen, d, s);
    }
  }

  /** A qualifying record adds to the sum and count of its own solver and
      of no other. */
  lemma AccumulateAdd(seen: seq<Record>, d: Record, solverTimes: map<string, real>, solverCounts: map<string, nat>)
    requires Qualifies(d)
    requires forall s :: s in solverTimes <==> s in solverCounts
    requires forall s :: s in solverTimes ==>
               solverTimes[s] == TimeSum(seen, s) && solverCounts[s] == TimeCount(seen, s)
    requires d.name !in solverTimes ==> TimeSum(seen, d.name) == 0.0 && TimeCount(seen, d.name) == 0
    ensures var solver := d.name;
      var times := solverTimes[solver := (if solver in solverTimes then solverTimes[solver] else 0.0) + d.time.value];
      var counts := solverCounts[solver := (if solver in solverCounts then solverCounts[solver] else 0) + 1];
      forall s :: s in times ==> times[s] == TimeSum(seen + [d], s) && counts[s] == TimeCount(seen + [d], s)
  {
    forall s | s != d.name
      ensures TimeSum(seen + [d], s) == TimeSum(seen, s) && TimeCount(seen + [d], s) == TimeCount(seen, s)
    {
      TimeSnoc(seen, d, s);
    }
    TimeSnoc(seen, d, d.name);
  }

  /** `getAverageTimeBySolver`: one pass that fills `solverTimes` and
      `solverCounts`, then the projection over `Object.keys(solverTimes)`. */
  method AverageTimeBySolver(data: seq<Record>) returns (averages: seq<SolverAverage>)
    ensures averages == AverageTimes(data)
  {
    var solverTimes: map<string, real> := map[];
    var solverCounts: map<string, nat> := map[];
    var keys: seq<string> := [];  // Object.keys(solverTimes), in insertion order
    var i := 0;
    while i < |data|
      invariant 0 <= i <= |data|
      invariant Accumulated(data[..i], keys, solverTimes, solverCounts)
    {
      var d := data[i];
      assert data[..i + 1] == data[..i] + [d];
      AccumulateStep(data[..i], d, keys, solverTimes, solverCounts);
      var solver := d.name;
      var time := d.time;
      if time.Some? && time.value < Threshold {
        if solver !in solverTimes {
          keys := keys + [solver];
        }
        solverTimes := solverTimes[solver := (if solver in solverTimes then solverTimes[solver] else 0.0) + time.value];
        solverCounts := solverCounts[solver := (if solver in solverCounts then solverCounts[solver] else 0) + 1];
      }
      i := i + 1;
    }
    assert data[..i] == data;
    QualifyingSolversHaveCounts(data);
    averages := seq(|keys|, k requires 0 <= k < |keys| =>
      SolverAverage(keys[k], solverTimes[keys[k]] / solverCounts[keys[k]] as real));
  }

  /** The solver column of an aggregate. */
  function SolverColumn(averages: seq<SolverAverage>): (ss: seq<string>)
    ensures |ss| == |averages| && forall k :: 0 <= k < |averages| ==> ss[k] == averages[k].solver
  {
    seq(|averages|, k requires 0 <= k < |averages| => averages[k].solver)
  }

  /** Each solver with a qualifying record is listed exactly once, the others
      not at all, in the order in which their names first occur among the
      qualifying records. */
  lemma AverageTimesListing(data: seq<Record>)
    ensures SolverColumn(AverageTimes(data)) == Distinct(Names(Filter(Qualifies, data)))
    ensures NoDuplicates(SolverColumn(AverageTimes(data)))
    ensures forall s :: s in SolverColumn(AverageTimes(data)) <==>
              exists r :: r in data && r.name == s && Qualifies(r)
  {
    QualifyingSolversAreDistinctNames(data);
    QualifyingSolversHaveCounts(data);
    forall s {
      TimeCountPositive(data, s);
    }
  }

  /** Bounds on the qualifying times of a solver bound its sum. */
  lemma TimeSumBounds(data: seq<Record>, solver: string, lo: real, hi: real)
    requires forall r :: r in data && r.name == solver && Qualifies(r) ==> lo <= r.time.value <= hi
    ensures lo * TimeCount(data, solver) as real <= TimeSum(data, solver)
    ensures TimeSum(data, solver) <= hi * TimeCount(data, solver) as real
  {
    TimeSumAtLeast(data, solver, lo);
    TimeSumAtMost(data, solver, hi);
  }

  /** The sum of `t - base` over the qualifying times `t` of `solver`. */
  function Excess(data: seq<Record>, solver: string, base: real): real {
    if data == [] then 0.0
    else
      var last := data[|data| - 1];
      Excess(data[..|data| - 1], solver, base)
        + (if last.name == solver && Qualifies(last) then last.time.value - base else 0.0)
  }

  lemma {:induction false} TimeSumShift(data: seq<Record>, solver: string, base: real)
    ensures TimeSum(data, solver) == base * TimeCount(data, solver) as real + Excess(data, solver, base)
  {
    if data != [] {
      var init := data[..|data| - 1];
      TimeSumShift(init, solver, base);
      ScaleStep(base, TimeCount(init, solver) as real);
    }
  }

  lemma ScaleStep(x: real, c: real)
    ensures x * (c + 1.0) == x * c + x
  {
  }

  lemma {:induction false} ExcessSign(data: seq<Record>, solver: string, base: real)
    ensures (forall r :: r in data && r.name == solver && Qualifies(r) ==> base <= r.time.value) ==>
              Excess(data, solver, base) >= 0.0
    ensures (forall r :: r in data && r.name == solver && Qualifies(r) ==> r.time.value <= base) ==>
              Excess(data, solver, base) <= 0.0
  {
    if data != [] {
      var init, last := data[..|data| - 1], data[|data| - 1];
      assert forall r :: r in init ==> r in data;
      assert last in data;
      ExcessSign(init, solver, base);
    }
  }

  lemma TimeSumAtLeast(data: seq<Record>, solver: string, lo: real)
    requires forall r :: r in data && r.name == solver && Qualifies(r) ==> lo <= r.time.value
    ensures lo * TimeCount(data, solver) as real <= TimeSum(data, solver)
  {
    TimeSumShift(data, solver, lo);
    ExcessSign(data, solver, lo);
  }

  lemma TimeSumAtMost(data: seq<Record>, solver: string, hi: real)
    requires forall r :: r in data && r.name == solver && Qualifies(r) ==> r.time.value <= hi
    ensures TimeSum(data, solver) <= hi * TimeCount(data, solver) as real
  {
    TimeSumShift(data, solver, hi);
    ExcessSign(data, solver, hi);
  }

  /** Every qualifying time is below the threshold, and so is their sum
      divided by their number. */
  lemma {:induction false} TimeSumBelowThreshold(data: seq<Record>, solver: string)
    ensures TimeCount(data, solver) > 0 ==> TimeSum(data, solver) < Threshold * TimeCount(data, solver) as real
  {
    if data != [] {
      var init, last := data[..|data| - 1], data[|data| - 1];
      TimeSumBelowThreshold(init, solver);
      NoCountNoSum(init, solver);
      var c := TimeCount(init, solver) as real;
      assert Threshold * (c + 1.0) == Threshold * c + Threshold;
    }
  }

  /** The mean of a solver's qualifying times lies between the smallest and
      the largest of them, and below the threshold. */
  lemma SolverMeanBounds(data: seq<Record>, solver: string, lo: real, hi: real)
    requires forall r :: r in data && r.name == solver && Qualifies(r) ==> lo <= r.time.value <= hi
    ensures TimeCount(data, solver) > 0 ==>
              lo <= TimeSum(data, solver) / TimeCount(data, solver) as real <= hi
    ensures TimeCount(data, solver) > 0 ==>
              TimeSum(data, solver) / TimeCount(data, solver) as real < Threshold
  {
    if TimeCount(data, solver) > 0 {
      MeanInRange(data, solver, lo, hi);
      MeanBelowThreshold(data, solver);
    }
  }

  lemma MeanInRange(data: seq<Record>, solver: string, lo: real, hi: real)
    requires forall r :: r in data && r.name == solver && Qualifies(r) ==> lo <= r.time.value <= hi
    requires TimeCount(data, solver) > 0
    ensures lo <= TimeSum(data, solver) / TimeCount(data, solver) as real <= hi
  {
    var sum, count := TimeSum(data, solver), TimeCount(data, solver) as real;
    TimeSumBounds(data, solver, lo, hi);
    MeanBounds(sum, count, lo, hi);
  }

  lemma MeanBelowThreshold(data: seq<Record>, solver: string)
    requires TimeCount(data, solver) > 0
    ensures TimeSum(data, solver) / TimeCount(data, solver) as real < Threshold
  {
    TimeSumBelowThreshold(data, solver);
    MeanBelow(TimeSum(data, solver), TimeCount(data, solver) as real, Threshold);
  }

  /** Each average lies between the smallest and the largest qualifying time
      of its solver, and below the threshold. */
  lemma AverageTimeBounds(data: seq<Record>, k: nat, lo: real, hi: real)
    requires k < |AverageTimes(data)|
    requires forall r :: r in data && r.name == AverageTimes(data)[k].solver && Qualifies(r) ==>
               lo <= r.time.value <= hi
    ensures lo <= AverageTimes(data)[k].avgTime <= hi
    ensures AverageTimes(data)[k].avgTime < Threshold
  {
    QualifyingSolversHaveCounts(data);
    SolverMeanBounds(data, AverageTimes(data)[k].solver, lo, hi);
  }

  /** Every average the aggregator lists is below the threshold. */
  lemma AverageTimeBelowThreshold(data: seq<Record>, k: nat)
    requires k < |AverageTimes(data)|
    ensures AverageTimes(data)[k].avgTime < Threshold
  {
    QualifyingSolversHaveCounts(data);
    MeanBelowThreshold(data, AverageTimes(data)[k].solver);
  }

  lemma MeanBelow(sum: real, count: real, hi: real)
    requires count > 0.0 && sum < hi * count
    ensures sum / count < hi
  {
    var q := sum / count;
    assert q * count == sum;
  }

  lemma MeanBounds(sum: real, count: real, lo: real, hi: real)
    requires count > 0.0 && lo * count <= sum
    ensures lo <= sum / count
    ensures sum <= hi * count ==> sum / count <= hi
    ensures sum < hi * count ==> sum / count < hi
  {
    assert sum / count * count == sum;
  }

  lemma {:induction false} TimeAppend(xs: seq<Record>, ys: seq<Record>, solver: string)
    ensures TimeSum(xs + ys, solver) == TimeSum(xs, solver) + TimeSum(ys, solver)
    ensures TimeCount(xs + ys, solver) == TimeCount(xs, solver) + TimeCount(ys, solver)
    decreases |ys|
  {
    if ys == [] {
      assert xs + ys == xs;
    } else {
      var init, last := ys[..|ys| - 1], ys[|ys| - 1];
      assert ys == init + [last];
      assert xs + ys == (xs + init) + [last];
      TimeAppend(xs, init, solver);
      TimeSnoc(xs + init, last, solver);
      TimeSnoc(init, last, solver);
    }
  }

  /** A record whose time is unparseable or at least the threshold adds to
      neither the sum nor the count of its solver, and leaves the aggregate
      as it is. */
  lemma ExcludedRecordAddsNothing(before: seq<Record>, r: Record, after: seq<Record>)
    requires !Qualifies(r)
    ensures forall s :: TimeSum(before + [r] + after, s) == TimeSum(before + after, s)
    ensures forall s :: TimeCount(before + [r] + after, s) == TimeCount(before + after, s)
    ensures AverageTimes(before + [r] + after) == AverageTimes(before + after)
  {
    var with, without := before + [r] + after, before + after;
    forall s
      ensures TimeSum(with, s) == TimeSum(without, s)
      ensures TimeCount(with, s) == TimeCount(without, s)
    {
      ExcludedRecordAddsNothingTo(before, r, after, s);
    }
    ExcludedRecordKeepsKeys(before, r, after);
  }

  lemma ExcludedRecordAddsNothingTo(before: seq<Record>, r: Record, after: seq<Record>, s: string)
    requires !Qualifies(r)
    ensures TimeSum(before + [r] + after, s) == TimeSum(before + after, s)
    ensures TimeCount(before + [r] + after, s) == TimeCount(before + after, s)
  {
    TimeAppend(before + [r], after, s);
    TimeSnoc(before, r, s);
    TimeAppend(before, after, s);
  }

  lemma ExcludedRecordKeepsKeys(before: seq<Record>, r: Record, after: seq<Record>)
    requires !Qualifies(r)
    ensures QualifyingSolvers(before + [r] + after) == QualifyingSolvers(before + after)
  {
    FilterAppend(Qualifies, before + [r], after);
    FilterSnoc(Qualifies, before, r);
    assert Filter(Qualifies, before + [r]) == Filter(Qualifies, before);
    FilterAppend(Qualifies, before, after);
    QualifyingSolversAreDistinctNames(before + [r] + after);
    QualifyingSolversAreDistinctNames(before + after);
  }
}
