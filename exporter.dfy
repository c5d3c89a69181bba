// The incident exporter: joins each feature row with its predicted severity
// code into one structured record, in the table's order.

module Exporter {
  import opened IncidentFeatures
  import opened SeverityTier

  /** One exported incident: its position in the table, its features, and its
      predicted tier as a name and as an ordinal code. */
  datatype IncidentRecord = IncidentRecord(
    id: int,
    numAlerts: int,
    attackDurationSec: real,
    numTargets: int,
    severity: string,
    severityScore: int)

  /** The name and the code of a record are a pair of the fixed table. */
  predicate ConsistentPair(r: IncidentRecord)
  {
    r.severityScore in SeverityMap && SeverityMap[r.severityScore] == r.severity
  }

  /** Only the pairs (0, "Low"), (1, "Medium") and (2, "High") are consistent. */
  lemma ConsistentPairsAreTiers(r: IncidentRecord)
    ensures ConsistentPair(r) <==>
              (r.severityScore == 0 && r.severity == "Low") ||
              (r.severityScore == 1 && r.severity == "Medium") ||
              (r.severityScore == 2 && r.severity == "High")
    ensures ConsistentPair(r) ==>
              FromOrdinal(r.severityScore).Some? && Name(FromOrdinal(r.severityScore).value) == r.severity
  {
  }

  /** The record for row `i` with features `f` and predicted code `p`. */
  function RecordOf(i: nat, f: Features, p: int): (r: IncidentRecord)
    requires p in SeverityMap
    ensures ConsistentPair(r)
  {
    IncidentRecord(i, f.alerts, f.duration, f.targets, SeverityMap[p], p)
  }

  /** The record of row `i` mirrors row `i`: same position, same features,
      the predicted code as its score. */
  predicate Mirrors(r: IncidentRecord, i: nat, f: Features, p: int)
  {
    r.id == i && r.numAlerts == f.alerts && r.attackDurationSec == f.duration &&
    r.numTargets == f.targets && r.severityScore == p
  }

  /** The ids of an export, in order. */
  function Ids(incidents: seq<IncidentRecord>): (ids: seq<int>)
    ensures |ids| == |incidents|
    ensures forall i :: 0 <= i < |incidents| ==> ids[i] == incidents[i].id
  {
    if incidents == [] then [] else [incidents[0].id] + Ids(incidents[1..])
  }

  /** The export loop: one record per row of `X`, in row order. The predicted
      code of every row must be a key of the table (the lookup fails otherwise). */
  method ExportIncidents(X: seq<Features>, yPred: seq<int>) returns (incidents: seq<IncidentRecord>)
    requires |yPred| == |X|
    requires forall i :: 0 <= i < |yPred| ==> yPred[i] in SeverityMap
    ensures |incidents| == |X|
    ensures forall i :: 0 <= i < |X| ==> incidents[i] == RecordOf(i, X[i], yPred[i])
    ensures forall i :: 0 <= i < |X| ==> Mirrors(incidents[i], i, X[i], yPred[i])
    ensures forall i :: 0 <= i < |X| ==> ConsistentPair(incidents[i])
    ensures Ids(incidents) == seq(|X|, k => k)
  {
    incidents := [];
    for i := 0 to |X|
      invariant |incidents| == i
      invariant forall k :: 0 <= k < i ==> incidents[k] == RecordOf(k, X[k], yPred[k])
    {
      incidents := incidents + [RecordOf(i, X[i], yPred[i])];
    }
    IdsAreRange(incidents);
  }

  /** Records whose ids are their positions carry exactly the ids 0 .. n-1:
      in increasing order, without gaps and without duplicates. */
  lemma IdsAreRange(incidents: seq<IncidentRecord>)
    requires forall i :: 0 <= i < |incidents| ==> incidents[i].id == i
    ensures Ids(incidents) == seq(|incidents|, k => k)
    ensures forall i, j :: 0 <= i < j < |incidents| ==> incidents[i].id < incidents[j].id
    ensures forall k :: k in Ids(incidents) <==> 0 <= k < |incidents|
  {
    var ids := Ids(incidents);
    forall k | 0 <= k < |incidents| ensures k in ids {
      assert ids[k] == k;
    }
  }
}
