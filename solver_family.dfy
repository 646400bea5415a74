/** The per-(solver, family) mean time shared by the radar chart
    (src/main.js `createFamilyRadarChart`) and the heatmap
    (src/main.js `createSolverFamilyHeatmap`), and the leading families both
    take. The nested passes that build the two views are `Radar.FamilyRadar`
    and `Heatmap.SolverFamilyHeatmap`. */
module SolverFamily {
  import opened Collections
  import opened Results
  import opened AverageTime

  /** `d.name === solver && d.family === family && parseFloat(d.time) < 10000` */
  function InCell(solver: string, family: string): Record -> bool {
    (r: Record) => r.name == solver && r.family == family && Qualifies(r)
  }

  /** `filtered`: the qualifying records of one solver on one family. */
  function CellRecords(data: seq<Record>, solver: string, family: string): (rs: seq<Record>)
    ensures forall k :: 0 <= k < |rs| ==> InCell(solver, family)(rs[k])
  {
    FilterMembers(InCell(solver, family), data);
    var rs := Filter(InCell(solver, family), data);
    assert forall k :: 0 <= k < |rs| ==> rs[k] in rs;
    rs
  }

  /** `filtered.reduce((sum, d) => sum + parseFloat(d.time), 0)` */
  function TimeTotal(rs: seq<Record>): real
    requires forall k :: 0 <= k < |rs| ==> rs[k].time.Some?
  {
    if rs == [] then 0.0
    else TimeTotal(rs[..|rs| - 1]) + rs[|rs| - 1].time.value
  }

  /** The mean qualifying time of `solver` on `family`, or `None` (the
      heatmap's `null`) when there is no such record. */
  function CellMean(data: seq<Record>, solver: string, family: string): (m: Option<real>)
    ensures m.None? <==> !exists r :: r in data && r.name == solver && r.family == family && Qualifies(r)
  {
    var filtered := CellRecords(data, solver, family);
    FilterMembers(InCell(solver, family), data);
    if |filtered| > 0 then
      Some(TimeTotal(filtered) / |filtered| as real)
    else
      assert filtered == [];
      None
  }

  /** The records of one family, `data.filter(d => d.family === family)`. */
  function OfFamily(family: string): Record -> bool {
    (r: Record) => r.family == family
  }

  /** A cell's sum and count are the per-solver sum and count that
      `getAverageTimeBySolver` keeps, taken over the records of that family. */
  lemma {:induction false} CellTotals(data: seq<Record>, solver: string, family: string)
    ensures var rs := CellRecords(data, solver, family);
      && TimeTotal(rs) == TimeSum(Filter(OfFamily(family), data), solver)
      && |rs| == TimeCount(Filter(OfFamily(family), data), solver)
  {
    if data != [] {
      var init, last := data[..|data| - 1], data[|data| - 1];
      assert data == init + [last];
      CellTotals(init, solver, family);
      CellTotalsStep(init, last, solver, family);
    }
  }

  lemma CellTotalsStep(init: seq<Record>, last: Record, solver: string, family: string)
    requires var rs := CellRecords(init, solver, family);
      && TimeTotal(rs) == TimeSum(Filter(OfFamily(family), init), solver)
      && |rs| == TimeCount(Filter(OfFamily(family), init), solver)
    ensures var rs := CellRecords(init + [last], solver, family);
      && TimeTotal(rs) == TimeSum(Filter(OfFamily(family), init + [last]), solver)
      && |rs| == TimeCount(Filter(OfFamily(family), init + [last]), solver)
  {
    var p, q := InCell(solver, family), OfFamily(family);
    var fam := Filter(q, init);
    CellRecordsSnoc(init, last, solver, family);
    FilterSnoc(q, init, last);
    if q(last) {
      assert Filter(q, init + [last]) == fam + [last];
      TimeSnoc(fam, last, solver);
    } else {
      assert Filter(q, init + [last]) == fam;
    }
  }

  lemma CellRecordsSnoc(init: seq<Record>, last: Record, solver: string, family: string)
    ensures var cells, rs := CellRecords(init, solver, family), CellRecords(init + [last], solver, family);
      && |rs| == |cells| + (if InCell(solver, family)(last) then 1 else 0)
      && TimeTotal(rs) == TimeTotal(cells) + (if InCell(solver, family)(last) then last.time.value else 0.0)
  {
    var cells := CellRecords(init, solver, family);
    FilterSnoc(InCell(solver, family), init, last);
    if InCell(solver, family)(last) {
      assert CellRecords(init + [last], solver, family) == cells + [last];
      TimeTotalSnoc(cells, last);
    } else {
      assert CellRecords(init + [last], solver, family) == cells;
    }
  }

  lemma TimeTotalSnoc(rs: seq<Record>, r: Record)
    requires forall k :: 0 <= k < |rs| ==> rs[k].time.Some?
    requires r.time.Some?
    ensures TimeTotal(rs + [r]) == TimeTotal(rs) + r.time.value
  {
    assert (rs + [r])[..|rs|] == rs;
  }

  /** The cell mean is the average time of the solver over the records of
      the family alone. */
  lemma CellMeanIsFamilyAverage(data: seq<Record>, solver: string, family: string)
    ensures var fam := Filter(OfFamily(family), data);
      CellMean(data, solver, family) ==
        if TimeCount(fam, solver) > 0
        then Some(TimeSum(fam, solver) / TimeCount(fam, solver) as real)
        else None
  {
    CellTotals(data, solver, family);
  }

  /** A cell mean lies between the smallest and the largest of the times it
      averages. */
  lemma CellMeanBounds(data: seq<Record>, solver: string, family: string, lo: real, hi: real)
    requires forall r :: r in data && r.name == solver && r.family == family && Qualifies(r) ==>
               lo <= r.time.value <= hi
    ensures CellMean(data, solver, family).Some? ==>
              lo <= CellMean(data, solver, family).value <= hi
  {
    CellMeanIsFamilyAverage(data, solver, family);
    FamilyTimesBounded(data, solver, family, lo, hi);
    SolverMeanBounds(Filter(OfFamily(family), data), solver, lo, hi);
  }

  lemma FamilyTimesBounded(data: seq<Record>, solver: string, family: string, lo: real, hi: real)
    requires forall r :: r in data && r.name == solver && r.family == family && Qualifies(r) ==>
               lo <= r.time.value <= hi
    ensures forall r :: r in Filter(OfFamily(family), data) && r.name == solver && Qualifies(r) ==>
              lo <= r.time.value <= hi
  {
    FilterMembers(OfFamily(family), data);
  }

  /** A cell mean is below the threshold. */
  lemma CellMeanBelowThreshold(data: seq<Record>, solver: string, family: string)
    ensures CellMean(data, solver, family).Some? ==> CellMean(data, solver, family).value < Threshold
  {
    var fam := Filter(OfFamily(family), data);
    CellMeanIsFamilyAverage(data, solver, family);
    var count := TimeCount(fam, solver);
    if count > 0 {
      TimeSumBelowThreshold(fam, solver);
      MeanBelow(TimeSum(fam, solver), count as real, Threshold);
    }
  }

  /** `[...new Set(data.map(d => d.family))].slice(0, n)`: the first `n`
      distinct families, in the order in which they first occur. */
  function LeadingFamilies(data: seq<Record>, n: nat): (fs: seq<string>)
    ensures NoDuplicates(fs)
    ensures |fs| == if |Distinct(Families(data))| <= n then |Distinct(Families(data))| else n
    ensures fs == Distinct(Families(data))[..|fs|]
    ensures forall f :: f in fs ==> exists r :: r in data && r.family == f
  {
    var all := Distinct(Families(data));
    var fs := Take(all, n);
    assert forall f :: f in fs ==> f in all;
    assert forall f :: f in Families(data) ==> exists r :: r in data && r.family == f by {
      forall f | f in Families(data) ensures exists r :: r in data && r.family == f {
        var k :| 0 <= k < |data| && Families(data)[k] == f;
        assert data[k] in data;
      }
    }
    fs
  }

  /** The leading families come in the order of their first records. */
  lemma LeadingFamiliesInFirstOccurrenceOrder(data: seq<Record>, n: nat)
    ensures forall i, j :: 0 <= i < j < |LeadingFamilies(data, n)| ==>
      FirstIndex(Families(data), LeadingFamilies(data, n)[i]) <
      FirstIndex(Families(data), LeadingFamilies(data, n)[j])
  {
    DistinctKeepsFirstOccurrenceOrder(Families(data));
    var d, fs := Distinct(Families(data)), LeadingFamilies(data, n);
    assert forall k :: 0 <= k < |fs| ==> fs[k] == d[k];
  }
}
