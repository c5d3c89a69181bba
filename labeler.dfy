// The ground-truth severity labeler: a threshold rule (High) with a random Low/Medium fallback.

module Labeler {
  import opened IncidentFeatures
  import opened SeverityTier

  /** The labeling threshold: too many alerts, too long an attack, or too many targets. */
  predicate Exceeds(f: Features)
  {
    f.alerts > 7 || f.duration > 400.0 || f.targets > 7
  }

  /** On a row the generator can produce, `targets > 7` means 8 or 9 targets. */
  lemma ExceedsOnGeneratedRow(f: Features)
    requires ValidFeatures(f)
    ensures Exceeds(f) <==> f.alerts >= 8 || f.duration > 400.0 || f.targets == 8 || f.targets == 9
  {
  }

  /** The fallback draw `choice([0, 1])`: the oracle's answer picks Medium (true)
      or Low (false). */
  function Drawn(pick: bool): (k: int)
    ensures k == Ordinal(Low) || k == Ordinal(Medium)
    ensures k == Ordinal(Medium) <==> pick
  {
    if pick then Ordinal(Medium) else Ordinal(Low)
  }

  /** The number of random draws labeling `rows` consumes: one per row that
      does not exceed the threshold. */
  function DrawsUsed(rows: seq<Features>): (n: nat)
    ensures n <= |rows|
  {
    if rows == [] then 0
    else DrawsUsed(rows[..|rows| - 1]) + (if Exceeds(rows[|rows| - 1]) then 0 else 1)
  }

  /** The rows of `rows` that do not exceed the threshold, by position. */
  function UnderThreshold(rows: seq<Features>): set<int>
  {
    set i | 0 <= i < |rows| && !Exceeds(rows[i])
  }

  /** The draw count is the number of rows under the threshold: rows over the
      threshold take no draw, every other row takes exactly one. */
  lemma {:induction false} DrawsUsedCountsUnderThreshold(rows: seq<Features>)
    ensures DrawsUsed(rows) == |UnderThreshold(rows)|
  {
    if rows != [] {
      var n := |rows| - 1;
      var init := rows[..n];
      DrawsUsedCountsUnderThreshold(init);
      assert UnderThreshold(rows) == UnderThreshold(init) + (if Exceeds(rows[n]) then {} else {n}) by {
        forall i | 0 <= i < n ensures init[i] == rows[i] { }
      }
      assert n !in UnderThreshold(init);
    }
  }

  /** Every draw below the draw count is taken by some row under the threshold:
      with DrawsAreFreshPerRow, draws 0 .. DrawsUsed(rows)-1 are each used once. */
  lemma {:induction false} DrawsAllUsed(rows: seq<Features>, k: nat)
    requires k < DrawsUsed(rows)
    ensures exists i :: 0 <= i < |rows| && !Exceeds(rows[i]) && DrawsUsed(rows[..i]) == k
  {
    var n := |rows| - 1;
    var init := rows[..n];
    assert rows[..n] == init;
    if k < DrawsUsed(init) {
      DrawsAllUsed(init, k);
      var i :| 0 <= i < |init| && !Exceeds(init[i]) && DrawsUsed(init[..i]) == k;
      assert init[..i] == rows[..i];
      assert rows[i] == init[i];
    } else {
      assert !Exceeds(rows[n]) && DrawsUsed(rows[..n]) == k;
    }
  }

  /** The label sequence the loop builds for `rows`, where `stream(k)` is the
      k-th random draw of the labeling pass. A row that exceeds the threshold
      is High and consumes no draw; any other row takes the next draw. */
  function Labels(rows: seq<Features>, stream: nat -> bool): (y: seq<int>)
    ensures |y| == |rows|
  {
    if rows == [] then []
    else
      var init := rows[..|rows| - 1];
      var last := rows[|rows| - 1];
      Labels(init, stream) + [if Exceeds(last) then Ordinal(High) else Drawn(stream(DrawsUsed(init)))]
  }

  /** Labeling a prefix of the table gives the prefix of the labels: a row's
      label does not depend on the rows after it. */
  lemma {:induction false} LabelsPrefix(rows: seq<Features>, stream: nat -> bool, k: nat)
    requires k <= |rows|
    ensures Labels(rows[..k], stream) == Labels(rows, stream)[..k]
  {
    if k < |rows| {
      var init := rows[..|rows| - 1];
      assert init[..k] == rows[..k];
      LabelsPrefix(init, stream, k);
    } else {
      assert rows[..k] == rows;
    }
  }

  /** The label of row `i`: High when it exceeds the threshold, otherwise the
      draw numbered by the count of non-exceeding rows before it. */
  lemma {:induction false} LabelAt(rows: seq<Features>, stream: nat -> bool, i: nat)
    requires i < |rows|
    ensures Labels(rows, stream)[i]
            == if Exceeds(rows[i]) then Ordinal(High) else Drawn(stream(DrawsUsed(rows[..i])))
  {
    LabelsPrefix(rows, stream, i + 1);
    var pre := rows[..i + 1];
    assert pre[..|pre| - 1] == rows[..i];
    assert Labels(pre, stream)[i] == Labels(rows, stream)[i];
  }

  /** Under the threshold, the draw decides the label: Medium exactly when the
      row's draw is true, Low otherwise. */
  lemma FallbackFollowsDraw(rows: seq<Features>, stream: nat -> bool, i: nat)
    requires i < |rows| && !Exceeds(rows[i])
    ensures Labels(rows, stream)[i] == Ordinal(Medium) <==> stream(DrawsUsed(rows[..i]))
    ensures Labels(rows, stream)[i] == Ordinal(Low) <==> !stream(DrawsUsed(rows[..i]))
  {
    LabelAt(rows, stream, i);
  }

  /** A row is labelled High exactly when it exceeds the threshold, whatever
      the random stream; every label is Low, Medium or High. */
  lemma LabelsHighIffExceeds(rows: seq<Features>, stream: nat -> bool)
    ensures forall i :: 0 <= i < |rows| ==> (Labels(rows, stream)[i] == Ordinal(High) <==> Exceeds(rows[i]))
    ensures forall i :: 0 <= i < |rows| && !Exceeds(rows[i]) ==>
              Labels(rows, stream)[i] == Ordinal(Low) || Labels(rows, stream)[i] == Ordinal(Medium)
    ensures forall i :: 0 <= i < |rows| ==> Labels(rows, stream)[i] in SeverityMap
  {
    forall i | 0 <= i < |rows|
      ensures Labels(rows, stream)[i] == Ordinal(High) <==> Exceeds(rows[i])
      ensures !Exceeds(rows[i]) ==>
                Labels(rows, stream)[i] == Ordinal(Low) || Labels(rows, stream)[i] == Ordinal(Medium)
      ensures Labels(rows, stream)[i] in SeverityMap
    {
      LabelAt(rows, stream, i);
    }
  }

  /** Labels of rows that exceed the threshold do not depend on the stream:
      two streams give the same labels at every such row. */
  lemma LabelsOfExceedingRowsIgnoreStream(rows: seq<Features>, s1: nat -> bool, s2: nat -> bool, i: nat)
    requires i < |rows| && Exceeds(rows[i])
    ensures Labels(rows, s1)[i] == Labels(rows, s2)[i]
  {
    LabelAt(rows, s1, i);
    LabelAt(rows, s2, i);
  }

  /** The draw count grows by one across every non-exceeding row. */
  lemma {:induction false} DrawsUsedMonotone(rows: seq<Features>, i: nat, j: nat)
    requires i <= j <= |rows|
    ensures DrawsUsed(rows[..i]) <= DrawsUsed(rows[..j])
    ensures i < j && !Exceeds(rows[i]) ==> DrawsUsed(rows[..i]) < DrawsUsed(rows[..j])
    decreases j - i
  {
    if i < j {
      DrawsUsedMonotone(rows, i, j - 1);
      var pre := rows[..j];
      assert pre[..|pre| - 1] == rows[..j - 1];
      if i == j - 1 {
        assert rows[..j][j - 1] == rows[i];
      }
    }
  }

  /** Each non-exceeding row takes its own draw: two such rows never share a
      draw, and later rows take later draws. */
  lemma DrawsAreFreshPerRow(rows: seq<Features>, i: nat, j: nat)
    requires i < j < |rows| && !Exceeds(rows[i]) && !Exceeds(rows[j])
    ensures DrawsUsed(rows[..i]) < DrawsUsed(rows[..j])
  {
    DrawsUsedMonotone(rows, i, j);
  }

  /** The labeling loop: one label per row, in row order, appended to `y`. */
  method LabelIncidents(X: seq<Features>, stream: nat -> bool) returns (y: seq<int>)
    ensures y == Labels(X, stream)
    ensures |y| == |X|
    ensures forall i :: 0 <= i < |X| ==> (y[i] == Ordinal(High) <==> Exceeds(X[i]))
    ensures forall i :: 0 <= i < |X| ==> y[i] in SeverityMap
  {
    y := [];
    var draws := 0;
    for i := 0 to |X|
      invariant y == Labels(X[..i], stream)
      invariant draws == DrawsUsed(X[..i])
    {
      assert X[..i + 1][..i] == X[..i];
      if Exceeds(X[i]) {
        y := y + [Ordinal(High)];
      } else {
        y := y + [Drawn(stream(draws))];
        draws := draws + 1;
      }
    }
    assert X[..|X|] == X;
    LabelsHighIffExceeds(X, stream);
  }
}
