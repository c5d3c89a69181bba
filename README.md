# Cyber incident severity labeling and export, in Dafny

This project models the part of the cyber-incident classifier script that carries logic. The script builds a synthetic table of incidents, each with three features: alert count, attack duration in seconds, and number of targets. It gives each incident a ground-truth severity label, trains a random forest on those labels, and exports one JSON record per incident with the forest's predicted severity.

The model covers two passes of that script:

- **Labeling** (`Labeler.LabelIncidents`). An incident is High (code 2) when it has more than 7 alerts, lasts more than 400 seconds, or has more than 7 targets. Every other incident is Low (0) or Medium (1), picked by a random draw.
  - The random generator is a parameter `stream: nat -> bool`. `stream(k)` is the k-th draw of the labeling pass; `true` picks Medium.
  - A row over the threshold consumes no draw. Every other row takes the next one. This keeps the source's order of random draws.
  - The method is proved equal to the specification function `Labels`. The lemmas about `Labels` say:
    - there is one label per row, in row order;
    - the label is High exactly when the row is over the threshold, whatever the stream;
    - a row under the threshold is Low or Medium;
    - every label is a key of the severity table;
    - under the threshold, the label is Medium exactly when the row's draw is true;
    - the number of draws used is the number of rows under the threshold;
    - each row under the threshold uses its own draw, later rows use later draws, and no draw is skipped.
- **Export** (`Exporter.ExportIncidents`). Record *i* has:
  - `id = i`;
  - the three features of row *i*, unchanged;
  - `severity_score` set to the prediction for row *i*;
  - `severity` set to the table's name for that score.

  The method's postconditions say:
  - there is one record per row;
  - the ids are exactly `0 .. n-1`, in increasing order;
  - name and score always form a pair of the fixed table `{0: "Low", 1: "Medium", 2: "High"}`.

`Pipeline.Run` connects the two passes. Its precondition stands in for the classifier: each prediction must be one of the computed labels, because a random forest predicts only classes it saw in training, and its training labels are a subset of the labels. From this, `Run` proves that every table lookup in the export succeeds.

Severity is the datatype `SeverityTier.Severity` with an ordinal code and a name. `SeverityTier.SeverityMap` is the exporter's literal table, and a lemma proves it agrees with the datatype.

Modelling choices:
- `numpy.column_stack` stores the table as floats, so the script compares and casts float values. Alerts and targets are always whole numbers, so the model stores them as `int`, and the script's casts `int(alerts)` and `int(targets)` do nothing to them.
- The duration is a `real`. It is only compared with 400 and copied into the record, so floating-point rounding never matters.

## Model

| member | source | states |
|---|---|---|
| SeverityTier.Ordinal | cyber_incident_vis/cyber_incidents_classifier.py:18 | each tier's code is 0, 1 or 2, and decoding the code gives the tier back |
| SeverityTier.FromOrdinal | cyber_incident_vis/cyber_incidents_classifier.py:18 | a code decodes to a tier exactly when it is 0, 1 or 2 |
| SeverityTier.FromOrdinalInverse | cyber_incident_vis/cyber_incidents_classifier.py:18 | encoding a decoded code gives the same code back |
| SeverityTier.SeverityMapIsTierNaming | cyber_incident_vis/cyber_incidents_classifier.py:38 | the keys of `severity_map` are exactly the tier codes, and each code's entry is its tier's name |
| SeverityTier.NameInjective | cyber_incident_vis/cyber_incidents_classifier.py:38 | two tiers with the same name are the same tier |
| Labeler.ExceedsOnGeneratedRow | cyber_incident_vis/cyber_incidents_classifier.py:22 | on a generated row (targets from `randint(1, 10)` at line 15, so 1 to 9), the threshold means at least 8 alerts, more than 400 seconds, or 8 or 9 targets |
| Labeler.Drawn | cyber_incident_vis/cyber_incidents_classifier.py:25 | the fallback draw is always Low (0) or Medium (1), and it is Medium exactly when the draw is true |
| Labeler.DrawsUsed | cyber_incident_vis/cyber_incidents_classifier.py:21-25 | labeling a table uses at most one draw per row |
| Labeler.DrawsUsedCountsUnderThreshold | cyber_incident_vis/cyber_incidents_classifier.py:22-25 | the draw count equals the number of rows under the threshold: a row over the threshold takes no draw, and every other row takes exactly one |
| Labeler.DrawsAllUsed | cyber_incident_vis/cyber_incidents_classifier.py:24-25 | every draw number below the draw count is taken by some row under the threshold; with `DrawsAreFreshPerRow`, each draw is used exactly once |
| Labeler.FallbackFollowsDraw | cyber_incident_vis/cyber_incidents_classifier.py:24-25 | a row under the threshold is labelled Medium exactly when its draw is true, and Low exactly when it is false |
| Labeler.Labels | cyber_incident_vis/cyber_incidents_classifier.py:20-25 | the label sequence has one entry per feature row |
| Labeler.LabelsPrefix | cyber_incident_vis/cyber_incidents_classifier.py:20-25 | labels are built in row order: labeling the first k rows gives the first k labels |
| Labeler.LabelAt | cyber_incident_vis/cyber_incidents_classifier.py:21-25 | row i's label is High if the row is over the threshold, and otherwise the draw numbered by the count of earlier rows under the threshold |
| Labeler.LabelsHighIffExceeds | cyber_incident_vis/cyber_incidents_classifier.py:22-25 | a label is High if and only if its row is over the threshold; a row under the threshold is Low or Medium; every label is a key of the severity table |
| Labeler.LabelsOfExceedingRowsIgnoreStream | cyber_incident_vis/cyber_incidents_classifier.py:22-23 | a row over the threshold gets the same label under any random stream |
| Labeler.DrawsUsedMonotone | cyber_incident_vis/cyber_incidents_classifier.py:24-25 | the draw count never decreases along the table, and it grows across every row under the threshold |
| Labeler.DrawsAreFreshPerRow | cyber_incident_vis/cyber_incidents_classifier.py:25 | two rows under the threshold use different draws, and the later row uses the later draw |
| Labeler.LabelIncidents | cyber_incident_vis/cyber_incidents_classifier.py:20-27 | the loop computes `Labels`: one label per row, High exactly on rows over the threshold, every label a key of the table |
| Exporter.ConsistentPairsAreTiers | cyber_incident_vis/cyber_incidents_classifier.py:38 | a name and score are consistent exactly for (0, "Low"), (1, "Medium") and (2, "High"), and the name is then the tier's name |
| Exporter.RecordOf | cyber_incident_vis/cyber_incidents_classifier.py:42-49 | a record built from a valid prediction has a consistent name and score |
| Exporter.Ids | cyber_incident_vis/cyber_incidents_classifier.py:43 | the id sequence has one entry per record, and entry i is record i's id |
| Exporter.IdsAreRange | cyber_incident_vis/cyber_incidents_classifier.py:41-43 | when each record's id is its position, the ids are 0 .. n-1, strictly increasing, and the ids present are exactly 0 .. n-1 |
| Exporter.ExportIncidents | cyber_incident_vis/cyber_incidents_classifier.py:40-49 | one record per row; record i has id i, row i's features unchanged, prediction i as its score, and that score's name from the table; the ids are 0 .. n-1 |
| Pipeline.Run | cyber_incident_vis/cyber_incidents_classifier.py:20-49 | labeling, then exporting predictions drawn from the labels: every lookup succeeds; one label and one record per row; High labels exactly on rows over the threshold; record i has id i, row i's features and prediction i with a consistent name; the ids are 0 .. n-1 |

## Left out

- Feature generation (lines 8-16): it uses numpy's Poisson, exponential and integer samplers. The table is an input. `IncidentFeatures.ValidFeatures` states what the generator guarantees: alerts >= 0, duration >= 0, and 1 <= targets <= 9.
- The global seed and the reproducibility it gives: this is a property of numpy's generator, which is not part of this model. The labeling pass takes its random draws as the explicit `stream` parameter.
- The 0.6 / 0.4 probabilities of the fallback draw: they are not a property a verifier can state. The model only fixes which outcome each draw value gives.
- `train_test_split` and the random forest's `fit` and `predict` (lines 30-35): these are library calls that are not part of this model. The predictions are an input. `Pipeline.Run` requires each prediction to be one of the labels, which is what the forest guarantees. The split's partition property is not modelled.
- `y = np.array(y)` (line 27) only converts a list to an array. The model keeps the labels as a sequence.
- JSON serialisation, writing `incidents.json`, and the confirmation message (lines 52-55): these are I/O.
- `main.js` (a D3 browser chart) and `smart_chute/app.py` (a Flask endpoint returning random readings) are not part of this model. Both are UI and web plumbing with no logic to verify.
