/** The success-rate aggregator (src/main.js `getSuccessRateBySolver`): per
    solver, a tally of its records by status plus a total, then the share of
    SAT, UNSAT and UNKNOWN among them as percentages. */
module SuccessRate {
  import opened Collections
  import opened Results
  import opened StatusTally

  /** The four properties of `solverStats[solver]` that are read later.
      A status outside these keys creates another property, which nothing
      reads and which is not kept here. */
  datatype Stats = Stats(sat: nat, unsat: nat, unknown: nat, total: nat)

  datatype SolverRate = SolverRate(solver: string, sat: real, unsat: real, unknown: real)

  const NewStats: Stats := Stats(0, 0, 0, 0)

  /** `solverStats[solver][d.status]++; solverStats[solver].total++`.
      A record whose status is the string "total" bumps `total` twice. */
  function Tally(st: Stats, status: string): Stats {
    var bumped :=
      if status == "SAT" then st.(sat := st.sat + 1)
      else if status == "UNSAT" then st.(unsat := st.unsat + 1)
      else if status == "UNKNOWN" then st.(unknown := st.unknown + 1)
      else if status == "total" then st.(total := st.total + 1)
      else st;
    bumped.(total := bumped.total + 1)
  }

  /** The tally of `solver` after a pass over `data`. */
  function StatsOf(data: seq<Record>, solver: string): Stats {
    if data == [] then NewStats
    else
      var earlier, last := StatsOf(data[..|data| - 1], solver), data[|data| - 1];
      if last.name == solver then Tally(earlier, last.status) else earlier
  }

  lemma StatsOfSnoc(data: seq<Record>, r: Record, solver: string)
    ensures StatsOf(data + [r], solver) == if r.name == solver then Tally(StatsOf(data, solver), r.status) else StatsOf(data, solver)
  {
    assert (data + [r])[..|data|] == data;
  }

  /** The number of `solver`'s records. */
  function RecordCount(data: seq<Record>, solver: string): nat {
    if data == [] then 0
    else RecordCount(data[..|data| - 1], solver) + (if data[|data| - 1].name == solver then 1 else 0)
  }

  /** The number of `solver`'s records whose status is `status`. */
  function SolverStatusCount(data: seq<Record>, solver: string, status: string): nat {
    if data == [] then 0
    else
      var last := data[|data| - 1];
      SolverStatusCount(data[..|data| - 1], solver, status)
        + (if last.name == solver && last.status == status then 1 else 0)
  }

  /** What the tally of a solver holds: one bucket per known status, and a
      total equal to its number of records, plus one more for each record
      whose status is the string "total". */
  lemma {:induction false} StatsOfCounts(data: seq<Record>, solver: string)
    ensures StatsOf(data, solver).sat == SolverStatusCount(data, solver, "SAT")
    ensures StatsOf(data, solver).unsat == SolverStatusCount(data, solver, "UNSAT")
    ensures StatsOf(data, solver).unknown == SolverStatusCount(data, solver, "UNKNOWN")
    ensures StatsOf(data, solver).total == RecordCount(data, solver) + SolverStatusCount(data, solver, "total")
  {
    if data != [] {
      StatsOfCounts(data[..|data| - 1], solver);
    }
  }

  /** Every solver that occurs in the data has a total of at least one. */
  lemma {:induction false} StatsOfTotalPositive(data: seq<Record>, solver: string)
    ensures StatsOf(data, solver).total >= RecordCount(data, solver)
    ensures solver in Names(data) ==> StatsOf(data, solver).total >= 1
  {
    StatsOfCounts(data, solver);
    RecordCountPositive(data, solver);
  }

  lemma {:induction false} RecordCountPositive(data: seq<Record>, solver: string)
    ensures solver in Names(data) ==> RecordCount(data, solver) >= 1
  {
    if data != [] {
      var init, last := data[..|data| - 1], data[|data| - 1];
      assert data == init + [last];
      NamesSnoc(init, last);
      RecordCountPositive(init, solver);
    }
  }

  /** The three buckets never exceed the total, and fill it exactly when
      every record of the solver has a known status. */
  lemma {:induction false} StatsOfKnownShare(data: seq<Record>, solver: string)
    ensures var st := StatsOf(data, solver);
      st.sat + st.unsat + st.unknown <= st.total
    ensures var st := StatsOf(data, solver);
      st.sat + st.unsat + st.unknown == st.total <==>
      forall r :: r in data && r.name == solver ==> r.status in KnownStatuses
  {
    if data != [] {
      var init, last := data[..|data| - 1], data[|data| - 1];
      assert data == init + [last];
      assert forall r :: r in data <==> r in init || r == last;
      StatsOfKnownShare(init, solver);
    }
  }

  /** `(count / total) * 100` for each of the three statuses. */
  function Rate(solver: string, st: Stats): SolverRate
    requires st.total > 0
  {
    var t := st.total as real;
    SolverRate(solver, Share(st.sat as real, t), Share(st.unsat as real, t), Share(st.unknown as real, t))
  }

  /** The three percentages of one tally lie in [0, 100]; they add up to 100
      exactly when the three buckets fill the total, and to less otherwise. */
  lemma RatePercentages(solver: string, st: Stats)
    requires st.total > 0 && st.sat + st.unsat + st.unknown <= st.total
    ensures var r := Rate(solver, st);
      && 0.0 <= r.sat <= 100.0 && 0.0 <= r.unsat <= 100.0 && 0.0 <= r.unknown <= 100.0
    ensures var r := Rate(solver, st);
      r.sat + r.unsat + r.unknown == 100.0 <==> st.sat + st.unsat + st.unknown == st.total
    ensures var r := Rate(solver, st);
      r.sat + r.unsat + r.unknown <= 100.0
  {
    var t := st.total as real;
    var a, b, c := st.sat as real, st.unsat as real, st.unknown as real;
    ShareBounds(a, t);
    ShareBounds(b, t);
    ShareBounds(c, t);
    ShareAdd(a, b, t);
    ShareAdd(a + b, c, t);
    ShareBounds(a + b + c, t);
    ShareIsWhole(a + b + c, t);
  }

  /** `(x / t) * 100` */
  function Share(x: real, t: real): real
    requires t > 0.0
  {
    (x / t) * 100.0
  }

  lemma ShareAdd(x: real, y: real, t: real)
    requires t > 0.0
    ensures Share(x, t) + Share(y, t) == Share(x + y, t)
  {
    var p, q := x / t, y / t;
    assert p * t == x && q * t == y;
    assert (p + q) * t == x + y;
    assert (x + y) / t == p + q;
  }

  lemma ShareBounds(x: real, t: real)
    requires 0.0 <= x <= t && t > 0.0
    ensures 0.0 <= Share(x, t) <= 100.0
  {
    var p := x / t;
    assert p * t == x;
    assert p <= 1.0;
  }

  lemma ShareIsWhole(x: real, t: real)
    requires t > 0.0
    ensures Share(x, t) == 100.0 <==> x == t
  {
    var p := x / t;
    assert p * t == x;
  }

  /** The value `getSuccessRateBySolver` returns. */
  function SuccessRates(data: seq<Record>): seq<SolverRate> {
    var solvers := DistinctNames(data);
    seq(|solvers|, k requires 0 <= k < |solvers| =>
      StatsOfTotalPositive(data, solvers[k]);
      Rate(solvers[k], StatsOf(data, solvers[k])))
  }

  /** The state of `solverStats` after the records of `seen`; `keys` lists
      `Object.keys(solverStats)` in insertion order. */
  ghost predicate Tallied(seen: seq<Record>, keys: seq<string>, solverStats: map<string, Stats>) {
    && keys == DistinctNames(seen)
    && (forall s :: s in solverStats <==> s in keys)
    && (forall s :: s in solverStats ==> solverStats[s] == StatsOf(seen, s))
  }

  /** A solver without records has an untouched tally. */
  lemma {:induction false} AbsentSolverStats(data: seq<Record>, solver: string)
    requires solver !in Names(data)
    ensures StatsOf(data, solver) == NewStats
  {
    if data != [] {
      var init, last := data[..|data| - 1], data[|data| - 1];
      assert data == init + [last];
      NamesSnoc(init, last);
      AbsentSolverStats(init, solver);
    }
  }

  /** The step `data.forEach` takes for one record `d`. */
  lemma TallyStep(seen: seq<Record>, d: Record, keys: seq<string>, solverStats: map<string, Stats>)
    requires Tallied(seen, keys, solverStats)
    ensures var solver := d.name;
      Tallied(seen + [d],
        if solver !in solverStats then keys + [solver] else keys,
        solverStats[solver := Tally(if solver !in solverStats then NewStats else solverStats[solver], d.status)])
  {
    var solver := d.name;
    TallyKeys(seen, d, keys, solverStats);
    if solver !in solverStats {
      AbsentSolverStats(seen, solver);
    }
    TallyValues(seen, d, solverStats, if solver !in solverStats then NewStats else solverStats[solver]);
  }

  /** A record adds its solver to the keys when the solver is new. */
  lemma TallyKeys(seen: seq<Record>, d: Record, keys: seq<string>, solverStats: map<string, Stats>)
    requires keys == DistinctNames(seen)
    requires forall s :: s in solverStats <==> s in keys
    ensures d.name !in solverStats ==> d.name !in Names(seen)
    ensures DistinctNames(seen + [d]) == if d.name !in solverStats then keys + [d.name] else keys
  {
    NamesSnoc(seen, d);
    DistinctSnoc(Names(seen), d.name);
  }

  /** A record updates the tally of its own solver and of no other. */
  lemma TallyValues(seen: seq<Record>, d: Record, solverStats: map<string, Stats>, current: Stats)
    requires forall s :: s in solverStats ==> solverStats[s] == StatsOf(seen, s)
    requires current == StatsOf(seen, d.name)
    ensures var updated := solverStats[d.name := Tally(current, d.status)];
      forall s :: s in updated ==> updated[s] == StatsOf(seen + [d], s)
  {
    forall s ensures StatsOf(seen + [d], s) == if d.name == s then Tally(StatsOf(seen, s), d.status) else StatsOf(seen, s) {
      StatsOfSnoc(seen, d, s);
    }
  }

  /** `getSuccessRateBySolver`: one pass that fills `solverStats`, then the
      projection over `Object.keys(solverStats)`. */
  method SuccessRateBySolver(data: seq<Record>) returns (rates: seq<SolverRate>)
    ensures rates == SuccessRates(data)
  {
    var solverStats: map<string, Stats> := map[];
    var keys: seq<string> := [];  // Object.keys(solverStats), in insertion order
    var i := 0;
    while i < |data|
      invariant 0 <= i <= |data|
      invariant Tallied(data[..i], keys, solverStats)
    {
      var d := data[i];
      assert data[..i + 1] == data[..i] + [d];
      TallyStep(data[..i], d, keys, solverStats);
      var solver := d.name;
      if solver !in solverStats {
        solverStats := solverStats[solver := NewStats];
        keys := keys + [solver];
      }
      solverStats := solverStats[solver := Tally(solverStats[solver], d.status)];
      i := i + 1;
    }
    assert data[..i] == data;
    TalliedRates(data, keys, solverStats);
    rates := seq(|keys|, k requires 0 <= k < |keys| => Rate(keys[k], solverStats[keys[k]]));
  }

  /** The projection over the finished dictionary is `SuccessRates`. */
  lemma TalliedRates(data: seq<Record>, keys: seq<string>, solverStats: map<string, Stats>)
    requires Tallied(data, keys, solverStats)
    ensures forall s :: s in keys ==> s in solverStats && solverStats[s].total > 0
    ensures seq(|keys|, k requires 0 <= k < |keys| => Rate(keys[k], solverStats[keys[k]])) == SuccessRates(data)
  {
    forall s | s in keys ensures solverStats[s].total > 0 {
      StatsOfTotalPositive(data, s);
    }
    var rates := seq(|keys|, k requires 0 <= k < |keys| => Rate(keys[k], solverStats[keys[k]]));
    assert forall k :: 0 <= k < |rates| ==> rates[k] == SuccessRates(data)[k];
  }

  /** What `getSuccessRateBySolver` reports: every solver of the data once,
      in the order of first appearance; for each, the share of its records
      with each known status over a total of at least one; the shares lie in
      [0, 100] and add up to 100 exactly when all of that solver's records
      carry a known status. */
  lemma {:induction false} SuccessRatesMeaning(data: seq<Record>)
    ensures var rates := SuccessRates(data);
      && |rates| == |DistinctNames(data)|
      && NoDuplicates(DistinctNames(data))
      && (forall s :: s in DistinctNames(data) <==> exists r :: r in data && r.name == s)
    ensures var rates := SuccessRates(data);
      forall k :: 0 <= k < |rates| ==>
        var s, st := rates[k].solver, StatsOf(data, rates[k].solver);
        && s == DistinctNames(data)[k]
        && st.total == RecordCount(data, s) + SolverStatusCount(data, s, "total") >= 1
        && rates[k].sat == (SolverStatusCount(data, s, "SAT") as real / st.total as real) * 100.0
        && rates[k].unsat == (SolverStatusCount(data, s, "UNSAT") as real / st.total as real) * 100.0
        && rates[k].unknown == (SolverStatusCount(data, s, "UNKNOWN") as real / st.total as real) * 100.0
        && 0.0 <= rates[k].sat <= 100.0 && 0.0 <= rates[k].unsat <= 100.0 && 0.0 <= rates[k].unknown <= 100.0
        && rates[k].sat + rates[k].unsat + rates[k].unknown <= 100.0
        && (rates[k].sat + rates[k].unsat + rates[k].unknown == 100.0 <==>
            forall r :: r in data && r.name == s ==> r.status in KnownStatuses)
  {
    var rates := SuccessRates(data);
    forall s ensures s in Names(data) <==> exists r :: r in data && r.name == s {
      if s in Names(data) {
        var k :| 0 <= k < |data| && Names(data)[k] == s;
        assert data[k] in data;
      }
    }
    forall k | 0 <= k < |rates|
      ensures var s, st := rates[k].solver, StatsOf(data, rates[k].solver);
        && s == DistinctNames(data)[k]
        && st.total == RecordCount(data, s) + SolverStatusCount(data, s, "total") >= 1
        && rates[k].sat == (SolverStatusCount(data, s, "SAT") as real / st.total as real) * 100.0
        && rates[k].unsat == (SolverStatusCount(data, s, "UNSAT") as real / st.total as real) * 100.0
        && rates[k].unknown == (SolverStatusCount(data, s, "UNKNOWN") as real / st.total as real) * 100.0
        && 0.0 <= rates[k].sat <= 100.0 && 0.0 <= rates[k].unsat <= 100.0 && 0.0 <= rates[k].unknown <= 100.0
        && rates[k].sat + rates[k].unsat + rates[k].unknown <= 100.0
        && (rates[k].sat + rates[k].unsat + rates[k].unknown == 100.0 <==>
            forall r :: r in data && r.name == s ==> r.status in KnownStatuses)
    {
      var s := DistinctNames(data)[k];
      StatsOfCounts(data, s);
      StatsOfTotalPositive(data, s);
      StatsOfKnownShare(data, s);
      RatePercentages(s, StatsOf(data, s));
    }
  }
}
