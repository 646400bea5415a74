/** The family radar chart (src/main.js `createFamilyRadarChart`): for four
    fixed solvers and the first six families, a score of 100 minus one
    hundredth of the mean time, where a missing pair counts as 10000, drawn
    no lower than 0. */
module Radar {
  import opened Collections
  import opened Results
  import opened SolverFamily

  const TopSolvers: seq<string> := ["Picat", "CoSoCo", "Choco", "ACE"]

  /** At most this many families get an axis. */
  const RadarFamilyCap: nat := 6

  /** The mean time a pair without any qualifying record is given. */
  const MissingTime: real := 10000.0

  /** `families` */
  function RadarFamilies(data: seq<Record>): seq<string> {
    LeadingFamilies(data, RadarFamilyCap)
  }

  /** `avgTime`: the cell mean, or the penalty when the pair has no record. */
  function CellTime(data: seq<Record>, solver: string, family: string): real {
    match CellMean(data, solver, family)
    case Some(m) => m
    case None => MissingTime
  }

  /** `100 - avgTime / 100`, the value stored in `solverFamilyAvg`. */
  function RawScore(avgTime: real): real {
    100.0 - avgTime / 100.0
  }

  /** `Math.max(0, x)` */
  function AtLeastZero(x: real): (y: real)
    ensures y >= 0.0 && y >= x && (y == x || y == 0.0)
  {
    if x < 0.0 then 0.0 else x
  }

  /** The value plotted for one solver on one family axis. */
  function RadarScore(data: seq<Record>, solver: string, family: string): real {
    AtLeastZero(RawScore(CellTime(data, solver, family)))
  }

  /** A pair without a qualifying record scores 0; every other pair scores
      exactly `100 - mean / 100`, which is positive, so a score is positive
      exactly when the pair has a record. With non-negative times no score
      passes 100, the top of the radial axis. */
  lemma RadarScoreMeaning(data: seq<Record>, solver: string, family: string)
    ensures CellMean(data, solver, family).None? ==> RadarScore(data, solver, family) == 0.0
    ensures CellMean(data, solver, family).Some? ==>
              RadarScore(data, solver, family) == 100.0 - CellMean(data, solver, family).value / 100.0
    ensures RadarScore(data, solver, family) > 0.0 <==>
              exists r :: r in data && r.name == solver && r.family == family && Qualifies(r)
    ensures (forall r :: r in data && r.name == solver && r.family == family && Qualifies(r) ==> r.time.value >= 0.0) ==>
              0.0 <= RadarScore(data, solver, family) <= 100.0
  {
    CellMeanBelowThreshold(data, solver, family);
    if forall r :: r in data && r.name == solver && r.family == family && Qualifies(r) ==> r.time.value >= 0.0 {
      CellMeanBounds(data, solver, family, 0.0, Threshold);
    }
  }

  /** `solverFamilyAvg[solver]` once filled: one score per family. */
  ghost predicate ScoreRow(data: seq<Record>, solver: string, families: seq<string>, row: map<string, real>) {
    && (forall f :: f in row <==> f in families)
    && (forall f :: f in row ==> row[f] == RawScore(CellTime(data, solver, f)))
  }

  lemma ScoreRowGrows(data: seq<Record>, solver: string, families: seq<string>, j: nat, row: map<string, real>)
    requires j < |families|
    requires forall f :: f in row <==> f in families[..j]
    requires forall f :: f in row ==> row[f] == RawScore(CellTime(data, solver, f))
    ensures var grown := row[families[j] := RawScore(CellTime(data, solver, families[j]))];
      && (forall f :: f in grown <==> f in families[..j + 1])
      && (forall f :: f in grown ==> grown[f] == RawScore(CellTime(data, solver, f)))
  {
    assert families[..j + 1] == families[..j] + [families[j]];
  }

  /** Builds `solverFamilyAvg` for the top solvers and the leading families,
      then the plotted `datasets`, one series per top solver. */
  method FamilyRadar(data: seq<Record>)
    returns (families: seq<string>, solverFamilyAvg: map<string, map<string, real>>, datasets: seq<seq<real>>)
    ensures families == RadarFamilies(data)
    ensures forall s :: s in solverFamilyAvg <==> s in TopSolvers
    ensures forall s :: s in solverFamilyAvg ==> ScoreRow(data, s, families, solverFamilyAvg[s])
    ensures |datasets| == |TopSolvers|
    ensures forall i :: 0 <= i < |datasets| ==>
              |datasets[i]| == |families| &&
              forall j :: 0 <= j < |families| ==> datasets[i][j] == RadarScore(data, TopSolvers[i], families[j])
  {
    families := RadarFamilies(data);
    solverFamilyAvg := map[];
    var i := 0;
    while i < |TopSolvers|
      invariant 0 <= i <= |TopSolvers|
      invariant forall s :: s in solverFamilyAvg <==> s in TopSolvers[..i]
      invariant forall s :: s in solverFamilyAvg ==> ScoreRow(data, s, families, solverFamilyAvg[s])
    {
      var solver := TopSolvers[i];
      var row: map<string, real> := map[];  // solverFamilyAvg[solver] = {}
      var j := 0;
      while j < |families|
        invariant 0 <= j <= |families|
        invariant forall f :: f in row <==> f in families[..j]
        invariant forall f :: f in row ==> row[f] == RawScore(CellTime(data, solver, f))
      {
        var family := families[j];
        var avgTime := CellTime(data, solver, family);
        ScoreRowGrows(data, solver, families, j, row);
        row := row[family := RawScore(avgTime)];
        j := j + 1;
      }
      assert families[..j] == families;
      assert ScoreRow(data, solver, families, row);
      solverFamilyAvg := solverFamilyAvg[solver := row];
      assert TopSolvers[..i + 1] == TopSolvers[..i] + [solver];
      i := i + 1;
    }
    assert TopSolvers[..i] == TopSolvers;
    PlottedScores(data, families, solverFamilyAvg);
    datasets := seq(|TopSolvers|, i requires 0 <= i < |TopSolvers| =>
      seq(|families|, j requires 0 <= j < |families| =>
        AtLeastZero(solverFamilyAvg[TopSolvers[i]][families[j]])));
  }

  /** `families.map(f => Math.max(0, solverFamilyAvg[solver][f]))` plots the
      radar scores. */
  lemma PlottedScores(data: seq<Record>, families: seq<string>, solverFamilyAvg: map<string, map<string, real>>)
    requires forall s :: s in solverFamilyAvg <==> s in TopSolvers
    requires forall s :: s in solverFamilyAvg ==> ScoreRow(data, s, families, solverFamilyAvg[s])
    ensures forall i, j :: 0 <= i < |TopSolvers| && 0 <= j < |families| ==>
              TopSolvers[i] in solverFamilyAvg && families[j] in solverFamilyAvg[TopSolvers[i]] &&
              AtLeastZero(solverFamilyAvg[TopSolvers[i]][families[j]]) == RadarScore(data, TopSolvers[i], families[j])
  {
  }
}
