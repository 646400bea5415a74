/** The result records of the dashboard and the accessor that extracts them
    from the loaded JSON document (src/main.js `getValidResults`). */
module Results {
  import opened Collections

  datatype Option<T> = None | Some(value: T)

  /** One solver run on one problem instance. `time` and `nbVariables` hold
      what `parseFloat` makes of the JSON strings `time` and `nb_variables`;
      `None` stands for NaN, which every comparison answers with false. */
  datatype Record = Record(
    name: string,
    family: string,
    status: string,
    time: Option<real>,
    nbVariables: Option<real>)

  /** One section of the JSON document: its `type` tag and its `data`. */
  datatype Section = Section(kind: string, data: seq<Record>)

  /** Times at or above this value count as "did not finish". */
  const Threshold: real := 10000.0

  /** `parseFloat(d.time) < 10000`: false for NaN and for slow runs. */
  predicate Qualifies(r: Record) {
    r.time.Some? && r.time.value < Threshold
  }

  /** `data.map(d => d.name)` */
  function Names(rs: seq<Record>): (ns: seq<string>)
    ensures |ns| == |rs| && forall k :: 0 <= k < |rs| ==> ns[k] == rs[k].name
  {
    seq(|rs|, k requires 0 <= k < |rs| => rs[k].name)
  }

  /** `data.map(d => d.family)` */
  function Families(rs: seq<Record>): (fs: seq<string>)
    ensures |fs| == |rs| && forall k :: 0 <= k < |rs| ==> fs[k] == rs[k].family
  {
    seq(|rs|, k requires 0 <= k < |rs| => rs[k].family)
  }

  /** `[...new Set(data.map(d => d.name))]`: every solver of the data once,
      in the order of its first record. This is also the order in which an
      object filled by solver name receives its keys. */
  function DistinctNames(rs: seq<Record>): seq<string> {
    Distinct(Names(rs))
  }

  lemma NamesSnoc(rs: seq<Record>, r: Record)
    ensures Names(rs + [r]) == Names(rs) + [r.name]
  {
  }

  /** True when no section before index `i` is tagged "table". */
  predicate NoTableBefore(doc: seq<Section>, i: nat)
    requires i <= |doc|
  {
    forall j :: 0 <= j < i ==> doc[j].kind != "table"
  }

  /** `getValidResults`: the `data` of the first section whose `type` is
      "table", or the empty sequence when there is none. */
  function ValidResults(doc: seq<Section>): (r: seq<Record>)
    ensures NoTableBefore(doc, |doc|) ==> r == []
    ensures forall i :: 0 <= i < |doc| && doc[i].kind == "table" && NoTableBefore(doc, i) ==>
              r == doc[i].data
  {
    if doc == [] then []
    else if doc[0].kind == "table" then doc[0].data
    else
      var rest := ValidResults(doc[1..]);
      assert forall i :: 1 <= i <= |doc| && NoTableBefore(doc, i) ==> NoTableBefore(doc[1..], i - 1);
      rest
  }
}
