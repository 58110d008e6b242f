// Lining anomaly results up with the sonified cells
// (models/anomaly_detection.py:95-172). The detector itself is not modelled:
// its per-embedding decision scores and its predictions (-1 for an outlier,
// 1 for an inlier) are inputs. The loop walks the cells of a transect in the
// order of its geometry file, gives each cell as many embeddings as 0.96 s
// frames on a 0.5 s hop fit in its audio, and consumes scores and flags
// through a cursor that never runs past the end of the score array.
module AnomalyDetection {
  import opened Wrappers
  import opened Numeric
  import opened TransectIndex

  /** `vggish_frame_length_s`. */
  const FrameLengthS: real := 0.96

  /** `vggish_hop_length_s`. */
  const HopLengthS: real := 0.5

  /** `anomaly_flags = (anomaly_predictions == -1)`. */
  function Flags(predictions: seq<int>): (flags: seq<bool>)
    ensures |flags| == |predictions|
    ensures forall k :: 0 <= k < |flags| ==> (flags[k] <==> predictions[k] == -1)
  {
    seq(|predictions|, k requires 0 <= k < |predictions| => predictions[k] == -1)
  }

  /** `(audio_end_ms - audio_start_ms) / 1000.0`. */
  function CellDurationS(g: CellGeom): real {
    (g.audioEndMs - g.audioStartMs) / 1000.0
  }

  /** Lines 138-145: `int(np.floor((d - 0.96) / 0.5) + 1)`, with a negative count raised to 0. */
  function EmbeddingCount(durationS: real): (n: nat) {
    var count := ((durationS - FrameLengthS) / HopLengthS).Floor + 1;
    if count < 0 then 0 else count
  }

  /**
   * The count is the number of frames that fit: frame `k` starts at `k * 0.5`
   * seconds and ends 0.96 seconds later, and it is counted exactly when it
   * ends within the cell.
   */
  lemma EmbeddingCountFrames(durationS: real, k: nat)
    ensures k < EmbeddingCount(durationS) <==> k as real * HopLengthS + FrameLengthS <= durationS
  {
    var x := (durationS - FrameLengthS) / HopLengthS;
    assert x * HopLengthS == durationS - FrameLengthS;
    if k as real <= x {
      assert k <= x.Floor;
    } else {
      assert x.Floor < k;
    }
  }

  /** A six-second cell, as the sonifier writes them, gets eleven embeddings. */
  lemma SixSecondCell()
    ensures EmbeddingCount(6.0) == 11
  {
    assert (6.0 - FrameLengthS) / HopLengthS == 10.08;
  }

  /** A cell shorter than one frame gets none. */
  lemma EmbeddingCountZero(durationS: real)
    ensures EmbeddingCount(durationS) == 0 <==> durationS < FrameLengthS
  {
    EmbeddingCountFrames(durationS, 0);
  }

  /** The cursor before cell `i`: each cell advances it by its count, never past `len`. */
  function Cursor(geoms: seq<CellGeom>, i: nat, len: nat): (c: nat)
    requires i <= |geoms|
    ensures c <= len
  {
    if i == 0 then 0 else MinInt(Cursor(geoms, i - 1, len) + EmbeddingCount(CellDurationS(geoms[i - 1])), len)
  }

  /** The embeddings owed to the first `i` cells, ignoring the end of the array. */
  function CountsBefore(geoms: seq<CellGeom>, i: nat): nat
    requires i <= |geoms|
  {
    if i == 0 then 0 else CountsBefore(geoms, i - 1) + EmbeddingCount(CellDurationS(geoms[i - 1]))
  }

  /** The cursor is the running total of the counts, cut at the length of the score array. */
  lemma {:induction false} CursorIsClampedTotal(geoms: seq<CellGeom>, i: nat, len: nat)
    requires i <= |geoms|
    ensures Cursor(geoms, i, len) == MinInt(CountsBefore(geoms, i), len)
  {
    if i > 0 {
      CursorIsClampedTotal(geoms, i - 1, len);
    }
  }

  /** The cursor never moves back. */
  lemma {:induction false} CursorMonotone(geoms: seq<CellGeom>, i: nat, j: nat, len: nat)
    requires i <= j <= |geoms|
    ensures Cursor(geoms, i, len) <= Cursor(geoms, j, len)
    decreases j - i
  {
    if i < j {
      CursorMonotone(geoms, i, j - 1, len);
    }
  }

  /** Once the scores are used up, every later cell gets an empty slice. */
  lemma {:induction false} CursorExhausted(geoms: seq<CellGeom>, i: nat, j: nat, len: nat)
    requires i <= j <= |geoms| && Cursor(geoms, i, len) == len
    ensures Cursor(geoms, j, len) == len
    decreases j - i
  {
    if i < j {
      CursorExhausted(geoms, i, j - 1, len);
    }
  }

  /** Some flag of the slice `[lo, hi)` is set. */
  predicate AnyFlag(flags: seq<bool>, lo: nat, hi: nat)
    requires lo <= hi <= |flags|
  {
    exists k :: lo <= k < hi && flags[k]
  }

  function Sum(s: seq<real>): real
    decreases |s|
  {
    if s == [] then 0.0 else s[0] + Sum(s[1..])
  }

  /** `np.mean` of a non-empty slice. */
  function Mean(s: seq<real>): real
    requires |s| > 0
  {
    Sum(s) / |s| as real
  }

  /** One entry of `transect_anomaly_data`. */
  datatype AnomalyRecord = AnomalyRecord(cellId: nat, geom: CellGeom, isAnomalous: bool, meanScore: real)

  /** Lines 146-171: the record of cell `i` given its slice `[lo, hi)` of the scores and flags. */
  function CellRecord(i: nat, g: CellGeom, scores: seq<real>, flags: seq<bool>, lo: nat, hi: nat): (r: AnomalyRecord)
    requires lo <= hi <= |scores| == |flags|
    ensures r.cellId == i && r.geom == g
    ensures r.isAnomalous <==> exists k :: lo <= k < hi && flags[k]
    ensures lo == hi ==> r.meanScore == 0.0
  {
    var isAnomalous := if hi > lo then AnyFlag(flags, lo, hi) else false;
    var meanScore := if hi > lo then Mean(scores[lo..hi]) else 0.0;
    AnomalyRecord(i, g, isAnomalous, meanScore)
  }

  /** The record the loop builds for cell `i`. */
  function RecordAt(geoms: seq<CellGeom>, scores: seq<real>, flags: seq<bool>, i: nat): AnomalyRecord
    requires i < |geoms| && |scores| == |flags|
  {
    CursorMonotone(geoms, i, i + 1, |scores|);
    CellRecord(i, geoms[i], scores, flags, Cursor(geoms, i, |scores|), Cursor(geoms, i + 1, |scores|))
  }

  /** Lines 133-172: the cursor loop over the cells of one transect. */
  method AlignCells(geoms: seq<CellGeom>, scores: seq<real>, flags: seq<bool>) returns (records: seq<AnomalyRecord>)
    requires |scores| == |flags|
    ensures |records| == |geoms|
    ensures forall i :: 0 <= i < |geoms| ==> records[i] == RecordAt(geoms, scores, flags, i)
  {
    records := [];
    var current := 0;
    var i := 0;
    while i < |geoms|
      invariant i <= |geoms|
      invariant current == Cursor(geoms, i, |scores|)
      invariant |records| == i
      invariant forall k :: 0 <= k < i ==> records[k] == RecordAt(geoms, scores, flags, k)
    {
      var count := EmbeddingCount(CellDurationS(geoms[i]));
      var end := MinInt(current + count, |scores|);
      var isAnomalous := if end > current then AnyFlag(flags, current, end) else false;
      var meanScore := if end > current then Mean(scores[current..end]) else 0.0;
      records := records + [AnomalyRecord(i, geoms[i], isAnomalous, meanScore)];
      current := end;
      i := i + 1;
    }
  }

  /**
   * Lines 95-110 and 133-172 for one transect: no embeddings means the
   * transect is skipped; otherwise the predictions become flags and the
   * cells are aligned.
   */
  method DetectTransect(geoms: seq<CellGeom>, scores: seq<real>, predictions: seq<int>)
    returns (result: Option<seq<AnomalyRecord>>)
    requires |scores| == |predictions|
    ensures result.None? <==> |scores| == 0
    ensures result.Some? ==> |result.value| == |geoms|
    ensures result.Some? ==>
      forall i :: 0 <= i < |geoms| ==> result.value[i] == RecordAt(geoms, scores, Flags(predictions), i)
  {
    if |scores| == 0 {
      return None;
    }
    var records := AlignCells(geoms, scores, Flags(predictions));
    result := Some(records);
  }

  /**
   * A cell is anomalous exactly when some embedding in its slice was
   * predicted an outlier, and its slice is the one the running totals of
   * the counts give, cut at the end of the scores.
   */
  lemma AnomalousIffOutlierInSlice(geoms: seq<CellGeom>, scores: seq<real>, predictions: seq<int>, i: nat)
    requires i < |geoms| && |scores| == |predictions|
    ensures var r := RecordAt(geoms, scores, Flags(predictions), i);
      var lo, hi := MinInt(CountsBefore(geoms, i), |scores|), MinInt(CountsBefore(geoms, i + 1), |scores|);
      r.cellId == i && r.geom == geoms[i] &&
      (r.isAnomalous <==> exists k :: lo <= k < hi && predictions[k] == -1)
  {
    CursorIsClampedTotal(geoms, i, |scores|);
    CursorIsClampedTotal(geoms, i + 1, |scores|);
  }

  /** The slices of consecutive cells meet, so together the first `j` cells cover `[0, Cursor(j))` without overlap. */
  lemma SlicesConsecutive(geoms: seq<CellGeom>, len: nat, i: nat)
    requires i < |geoms|
    ensures Cursor(geoms, i, len) <= Cursor(geoms, i + 1, len)
    ensures Cursor(geoms, i + 1, len) - Cursor(geoms, i, len) <= EmbeddingCount(CellDurationS(geoms[i]))
  {
  }

  lemma {:induction false} SumWithin(s: seq<real>, lo: real, hi: real)
    requires forall k :: 0 <= k < |s| ==> lo <= s[k] <= hi
    ensures |s| as real * lo <= Sum(s) <= |s| as real * hi
    decreases |s|
  {
    if s != [] {
      assert forall k :: 0 <= k < |s[1..]| ==> s[1..][k] == s[k + 1];
      SumWithin(s[1..], lo, hi);
      var n := |s[1..]| as real;
      assert (n + 1.0) * lo == n * lo + lo;
      assert (n + 1.0) * hi == n * hi + hi;
    }
  }

  /** A cell's mean score lies between the smallest and the largest score of the transect. */
  lemma MeanScoreWithin(geoms: seq<CellGeom>, scores: seq<real>, flags: seq<bool>, i: nat, lo: real, hi: real)
    requires i < |geoms| && |scores| == |flags| && lo <= 0.0 <= hi
    requires forall k :: 0 <= k < |scores| ==> lo <= scores[k] <= hi
    ensures lo <= RecordAt(geoms, scores, flags, i).meanScore <= hi
  {
    var a, b := Cursor(geoms, i, |scores|), Cursor(geoms, i + 1, |scores|);
    CursorMonotone(geoms, i, i + 1, |scores|);
    if b > a {
      var s := scores[a..b];
      assert forall k :: 0 <= k < |s| ==> s[k] == scores[a + k];
      SumWithin(s, lo, hi);
      QuotientWithin(Sum(s), |s| as real, lo, hi);
    }
  }
}
