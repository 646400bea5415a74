/** The status-count aggregator (src/main.js `getStatusCounts`): a dictionary
    with exactly the keys SAT, UNSAT and UNKNOWN, each counting the records
    with that status. */
module StatusTally {
  import opened Collections
  import opened Results

  const KnownStatuses: set<string> := {"SAT", "UNSAT", "UNKNOWN"}

  /** `counts.hasOwnProperty(d.status)` on the initial dictionary. */
  predicate HasKnownStatus(r: Record) {
    r.status in KnownStatuses
  }

  /** The number of records whose status is exactly `status`. */
  function CountStatus(data: seq<Record>, status: string): nat {
    if data == [] then 0
    else
      CountStatus(data[..|data| - 1], status) + (if data[|data| - 1].status == status then 1 else 0)
  }

  lemma CountStatusSnoc(data: seq<Record>, r: Record, status: string)
    ensures CountStatus(data + [r], status) == CountStatus(data, status) + (if r.status == status then 1 else 0)
  {
    assert (data + [r])[..|data|] == data;
  }

  /** The three buckets together count the records with a known status;
      records with any other status are in none of them. */
  lemma {:induction false} KnownBucketsCountKnownRecords(data: seq<Record>)
    ensures CountStatus(data, "SAT") + CountStatus(data, "UNSAT") + CountStatus(data, "UNKNOWN")
            == |Filter(HasKnownStatus, data)|
  {
    if data != [] {
      var init, last := data[..|data| - 1], data[|data| - 1];
      assert data == init + [last];
      KnownBucketsCountKnownRecords(init);
      FilterSnoc(HasKnownStatus, init, last);
    }
  }

  /** `getStatusCounts` */
  method StatusCounts(data: seq<Record>) returns (counts: map<string, nat>)
    ensures counts.Keys == KnownStatuses
    ensures forall s :: s in counts ==> counts[s] == CountStatus(data, s)
    ensures counts["SAT"] + counts["UNSAT"] + counts["UNKNOWN"] == |Filter(HasKnownStatus, data)|
  {
    counts := map["SAT" := 0, "UNSAT" := 0, "UNKNOWN" := 0];
    var i := 0;
    while i < |data|
      invariant 0 <= i <= |data|
      invariant counts.Keys == KnownStatuses
      invariant forall s :: s in counts ==> counts[s] == CountStatus(data[..i], s)
    {
      var d := data[i];
      assert data[..i + 1] == data[..i] + [d];
      forall s ensures CountStatus(data[..i + 1], s) == CountStatus(data[..i], s) + (if d.status == s then 1 else 0) {
        CountStatusSnoc(data[..i], d, s);
      }
      if d.status in counts {
        counts := counts[d.status := counts[d.status] + 1];
      }
      i := i + 1;
    }
    assert data[..i] == data;
    KnownBucketsCountKnownRecords(data);
  }
}
