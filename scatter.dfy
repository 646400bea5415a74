/** The points of the complexity-versus-time scatter plot
    (src/main.js `createComplexityTimeChart`): the records that finished
    under the threshold and have a positive number of variables, cut after
    the first 500, and the solvers that colour them. */
module Scatter {
  import opened Collections
  import opened Results

  /** At most this many points are drawn. */
  const PointCap: nat := 500

  /** `parseFloat(d.time) < 10000 && parseFloat(d.nb_variables) > 0` */
  predicate Plottable(r: Record) {
    Qualifies(r) && r.nbVariables.Some? && r.nbVariables.value > 0.0
  }

  /** `filteredData` */
  function ScatterPoints(data: seq<Record>): (points: seq<Record>)
    ensures |points| <= PointCap
    ensures forall k :: 0 <= k < |points| ==> Plottable(points[k])
  {
    FilterMembers(Plottable, data);
    Take(Filter(Plottable, data), PointCap)
  }

  /** The points are every plottable record of some leading part of the
      data, in their order; when there are at most 500 plottable records,
      that leading part is all of the data. */
  lemma ScatterPointsArePrefixOfPlottable(data: seq<Record>)
    ensures exists m :: 0 <= m <= |data| && ScatterPoints(data) == Filter(Plottable, data[..m])
    ensures |Filter(Plottable, data)| <= PointCap ==> ScatterPoints(data) == Filter(Plottable, data)
    ensures |Filter(Plottable, data)| > PointCap ==> |ScatterPoints(data)| == PointCap
    ensures forall r :: r in ScatterPoints(data) ==> r in data
  {
    TakeOfFilterIsFilterOfPrefix(Plottable, data, PointCap);
    FilterMembers(Plottable, data);
  }

  /** `solvers`: the legend and colour domain. */
  function ScatterSolvers(data: seq<Record>): (solvers: seq<string>)
    ensures NoDuplicates(solvers)
    ensures forall s :: s in solvers <==> exists r :: r in ScatterPoints(data) && r.name == s
  {
    var points := ScatterPoints(data);
    var names := Names(points);
    assert forall s :: s in names <==> exists r :: r in points && r.name == s by {
      forall s | s in names ensures exists r :: r in points && r.name == s {
        var k :| 0 <= k < |names| && names[k] == s;
        assert points[k] in points;
      }
    }
    Distinct(names)
  }

  /** The legend lists the point solvers in the order of their first points. */
  lemma ScatterSolversInFirstPointOrder(data: seq<Record>)
    ensures forall i, j :: 0 <= i < j < |ScatterSolvers(data)| ==>
      FirstIndex(Names(ScatterPoints(data)), ScatterSolvers(data)[i]) <
      FirstIndex(Names(ScatterPoints(data)), ScatterSolvers(data)[j])
  {
    DistinctKeepsFirstOccurrenceOrder(Names(ScatterPoints(data)));
  }
}
