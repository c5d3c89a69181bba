// The script from labeling to export. Feature generation, the train/test
// split and the random forest are outside the model: the table, the random
// stream of the labeling pass and the forest's predictions are inputs.

module Pipeline {
  import opened IncidentFeatures
  import opened SeverityTier
  import opened Labeler
  import opened Exporter

  /** Label the table, then export it with the classifier's predictions.
      The forest only predicts classes it was trained on, and its training
      labels are a subset of `y`; so every prediction is one of the labels. */
  method Run(X: seq<Features>, stream: nat -> bool, yPred: seq<int>)
    returns (y: seq<int>, incidents: seq<IncidentRecord>)
    requires |yPred| == |X|
    requires forall i :: 0 <= i < |yPred| ==> yPred[i] in Labels(X, stream)
    ensures y == Labels(X, stream)
    ensures |y| == |X| && |incidents| == |X|
    ensures forall i :: 0 <= i < |X| ==> (y[i] == Ordinal(High) <==> Exceeds(X[i]))
    ensures forall i :: 0 <= i < |X| ==> Mirrors(incidents[i], i, X[i], yPred[i])
    ensures forall i :: 0 <= i < |X| ==> ConsistentPair(incidents[i]) && incidents[i].severityScore in y
    ensures Ids(incidents) == seq(|X|, k => k)
  {
    y := LabelIncidents(X, stream);
    forall i | 0 <= i < |yPred| ensures yPred[i] in SeverityMap {
      var j :| 0 <= j < |y| && y[j] == yPred[i];
    }
    incidents := ExportIncidents(X, yPred);
  }
}
