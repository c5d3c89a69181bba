// The feature table of the incident data set: one row per incident.

module IncidentFeatures {

  /** One row of the feature table: number of alerts, attack duration in
      seconds, number of targets. */
  datatype Features = Features(alerts: int, duration: real, targets: int)

  /** What the generator guarantees of every row: a non-negative (Poisson)
      alert count, a non-negative (exponential) duration, and a target count
      drawn uniformly from 1 to 9, the upper bound of the draw being exclusive. */
  predicate ValidFeatures(f: Features)
  {
    f.alerts >= 0 && f.duration >= 0.0 && 1 <= f.targets <= 9
  }
}
