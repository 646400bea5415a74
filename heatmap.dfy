/** The solver-by-family heatmap (src/main.js `createSolverFamilyHeatmap`):
    one cell per solver of the data and per family among the first eight,
    pushed row by row, holding the cell mean or `null`. */
module Heatmap {
  import opened Collections
  import opened Results
  import opened SolverFamily

  /** At most this many families get a column. */
  const HeatmapFamilyCap: nat := 8

  /** `{ solver, family, value: avgTime }`, with `None` for `null`. */
  datatype HeatCell = HeatCell(solver: string, family: string, value: Option<real>)

  /** `families` */
  function HeatmapFamilies(data: seq<Record>): seq<string> {
    LeadingFamilies(data, HeatmapFamilyCap)
  }

  /** The cells pushed for one solver, one per family in order. */
  function Row(data: seq<Record>, solver: string, families: seq<string>): seq<HeatCell> {
    seq(|families|, j requires 0 <= j < |families| => HeatCell(solver, families[j], CellMean(data, solver, families[j])))
  }

  /** The cells pushed for the solvers in order, row after row. */
  function Grid(data: seq<Record>, solvers: seq<string>, families: seq<string>): seq<HeatCell> {
    if solvers == [] then []
    else Grid(data, solvers[..|solvers| - 1], families) + Row(data, solvers[|solvers| - 1], families)
  }

  /** The grid has one cell per (solver, family) pair, solver-major: the
      cell of solver `i` and family `j` sits at `i * |families| + j` and
      holds that pair's cell mean, `null` exactly when the solver has no
      qualifying record on the family. */
  lemma GridLayout(data: seq<Record>, solvers: seq<string>, families: seq<string>)
    ensures |Grid(data, solvers, families)| == |solvers| * |families|
    ensures forall i, j :: 0 <= i < |solvers| && 0 <= j < |families| ==> CellAt(data, solvers, families, i, j)
  {
    GridLength(data, solvers, families);
    forall i, j | 0 <= i < |solvers| && 0 <= j < |families|
      ensures CellAt(data, solvers, families, i, j)
    {
      GridCell(data, solvers, families, i, j);
    }
  }

  /** The grid holds the cell of solver `i` and family `j` at `i * |families| + j`. */
  ghost predicate CellAt(data: seq<Record>, solvers: seq<string>, families: seq<string>, i: nat, j: nat)
    requires i < |solvers| && j < |families|
  {
    && i * |families| + j < |Grid(data, solvers, families)|
    && Grid(data, solvers, families)[i * |families| + j] ==
       HeatCell(solvers[i], families[j], CellMean(data, solvers[i], families[j]))
  }

  lemma {:induction false} GridLength(data: seq<Record>, solvers: seq<string>, families: seq<string>)
    ensures |Grid(data, solvers, families)| == |solvers| * |families|
  {
    if solvers != [] {
      var n, w := |solvers|, |families|;
      GridLength(data, solvers[..n - 1], families);
      RowMajorStep(n, w);
    }
  }

  lemma {:induction false} GridCell(data: seq<Record>, solvers: seq<string>, families: seq<string>, i: nat, j: nat)
    requires i < |solvers| && j < |families|
    ensures i * |families| + j < |Grid(data, solvers, families)|
    ensures Grid(data, solvers, families)[i * |families| + j] ==
            HeatCell(solvers[i], families[j], CellMean(data, solvers[i], families[j]))
  {
    var n, w := |solvers|, |families|;
    var init := solvers[..n - 1];
    GridLength(data, init, families);
    RowMajorStep(n, w);
    if i < n - 1 {
      GridCell(data, init, families, i, j);
      RowMajorBound(i, j, n - 1, w);
    } else {
      assert i * w == (n - 1) * w;
    }
  }

  lemma RowMajorStep(n: nat, w: nat)
    requires n > 0
    ensures (n - 1) * w + w == n * w
  {
  }

  lemma RowMajorBound(i: nat, j: nat, n: nat, w: nat)
    requires i < n && j < w
    ensures i * w + j < n * w
  {
    assert (i + 1) * w <= n * w;
  }

  /** Builds `heatmapData` with two nested loops, pushing one cell per
      family for each solver. */
  method SolverFamilyHeatmap(data: seq<Record>)
    returns (solvers: seq<string>, families: seq<string>, heatmapData: seq<HeatCell>)
    ensures solvers == DistinctNames(data)
    ensures families == HeatmapFamilies(data)
    ensures heatmapData == Grid(data, solvers, families)
  {
    solvers := DistinctNames(data);  // src/main.js:374
    families := HeatmapFamilies(data);
    heatmapData := [];
    var i := 0;
    while i < |solvers|
      invariant 0 <= i <= |solvers|
      invariant heatmapData == Grid(data, solvers[..i], families)
    {
      var solver := solvers[i];
      var j := 0;
      while j < |families|
        invariant 0 <= j <= |families|
        invariant heatmapData == Grid(data, solvers[..i], families) + Row(data, solver, families)[..j]
      {
        var family := families[j];
        var avgTime := CellMean(data, solver, family);
        RowPrefixSnoc(data, solver, families, j);
        heatmapData := heatmapData + [HeatCell(solver, family, avgTime)];
        j := j + 1;
      }
      GridSnoc(data, solvers, families, i);
      i := i + 1;
    }
    assert solvers[..i] == solvers;
  }

  lemma RowPrefixSnoc(data: seq<Record>, solver: string, families: seq<string>, j: nat)
    requires j < |families|
    ensures Row(data, solver, families)[..j + 1] ==
            Row(data, solver, families)[..j] + [HeatCell(solver, families[j], CellMean(data, solver, families[j]))]
  {
  }

  lemma GridSnoc(data: seq<Record>, solvers: seq<string>, families: seq<string>, i: nat)
    requires i < |solvers|
    ensures Grid(data, solvers[..i + 1], families) ==
            Grid(data, solvers[..i], families) + Row(data, solvers[i], families)[..|families|]
  {
    assert solvers[..i + 1][..i] == solvers[..i];
    assert Row(data, solvers[i], families)[..|families|] == Row(data, solvers[i], families);
  }

  /** The axes of the heatmap: every solver of the data once, in the order
      of first appearance, against the first eight distinct families, one
      cell per pair (laid out as `GridLayout` states). */
  lemma HeatmapAxes(data: seq<Record>)
    ensures NoDuplicates(DistinctNames(data))
    ensures forall s :: s in DistinctNames(data) <==> exists r :: r in data && r.name == s
    ensures |HeatmapFamilies(data)| ==
              if |Distinct(Families(data))| <= HeatmapFamilyCap then |Distinct(Families(data))| else HeatmapFamilyCap
    ensures |Grid(data, DistinctNames(data), HeatmapFamilies(data))| ==
              |DistinctNames(data)| * |HeatmapFamilies(data)|
  {
    GridLength(data, DistinctNames(data), HeatmapFamilies(data));
    forall s ensures s in Names(data) <==> exists r :: r in data && r.name == s {
      if s in Names(data) {
        var k :| 0 <= k < |data| && Names(data)[k] == s;
        assert data[k] in data;
      }
    }
  }
}
