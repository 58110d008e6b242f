// How each sonified cell is drawn on the interactive map
// (models/map_visualization.py:92-184): the cell's motif record is found by a
// linear search over the transect's results, and the cell's colour is chosen
// by successive reassignment: blue by default, orange when the record flags
// an anomaly, red when that anomaly also matched a motif. The tooltip names
// the cell's state. Map tiles, the popup's HTML and the coordinate transform
// are not modelled; whether the transform succeeds for a cell is an input.
module MapVisualization {
  import opened Wrappers
  import opened AnomalyDetection
  import opened MotifLibrary
  import opened MotifRecognition

  /** The default fill and outline colour of a normal cell. */
  const Blue: string := "#3186cc"

  /** The colour of an anomalous cell without a matched motif. */
  const Orange: string := "orange"

  /** The colour of an anomalous cell that matched a motif. */
  const Red: string := "red"

  /** The first result whose `cell_id` is `cellIdx`, or None. */
  function FirstWithId(results: seq<MotifRecord>, cellIdx: nat): Option<MotifRecord>
    decreases |results|
  {
    if results == [] then None
    else if results[0].cellId == cellIdx then Some(results[0])
    else FirstWithId(results[1..], cellIdx)
  }

  /**
   * The search finds nothing exactly when no result carries the index, and
   * otherwise it returns the earliest result that does.
   */
  lemma {:induction false} FirstWithIdIsFirst(results: seq<MotifRecord>, cellIdx: nat)
    ensures FirstWithId(results, cellIdx).None? <==> forall k :: 0 <= k < |results| ==> results[k].cellId != cellIdx
    ensures FirstWithId(results, cellIdx).Some? ==>
      exists k :: 0 <= k < |results| && results[k] == FirstWithId(results, cellIdx).value &&
        results[k].cellId == cellIdx && forall j :: 0 <= j < k ==> results[j].cellId != cellIdx
    decreases |results|
  {
    if results != [] {
      FirstWithIdIsFirst(results[1..], cellIdx);
      assert forall k :: 1 <= k < |results| ==> results[k] == results[1..][k - 1];
      if results[0].cellId != cellIdx && FirstWithId(results[1..], cellIdx).Some? {
        var k :| 0 <= k < |results[1..]| && results[1..][k] == FirstWithId(results[1..], cellIdx).value &&
          results[1..][k].cellId == cellIdx && forall j :: 0 <= j < k ==> results[1..][j].cellId != cellIdx;
        assert results[k + 1] == FirstWithId(results, cellIdx).value;
      }
    }
  }

  /** Lines 92-97: `get_motif_info_for_cell_notebook`, a loop that returns at the first hit. */
  method GetMotifInfo(cellIdx: nat, results: seq<MotifRecord>) returns (info: Option<MotifRecord>)
    ensures info == FirstWithId(results, cellIdx)
  {
    var i := 0;
    while i < |results|
      invariant i <= |results|
      invariant FirstWithId(results, cellIdx) == FirstWithId(results[i..], cellIdx)
    {
      assert results[i..][1..] == results[i + 1..];
      if results[i].cellId == cellIdx {
        return Some(results[i]);
      }
      i := i + 1;
    }
    return None;
  }

  /** Line 148: `cell_motif_info and cell_motif_info.get('is_anomalous_flag', False)`; no record counts as normal. */
  predicate Anomalous(info: Option<MotifRecord>) {
    info.Some? && info.value.isAnomalous
  }

  /** Line 149: the same for `is_motif_matched`. */
  predicate Matched(info: Option<MotifRecord>) {
    info.Some? && info.value.isMatched
  }

  /** A cell's outline colour, fill colour and the state its tooltip names. */
  datatype CellStyle = CellStyle(color: string, fillColor: string, state: string)

  /** Lines 155-169 and 180: the colour chosen by reassignment and the tooltip's state word. */
  method StyleCell(info: Option<MotifRecord>) returns (style: CellStyle)
    ensures style.color == style.fillColor
    ensures style.fillColor == Blue <==> !Anomalous(info)
    ensures style.fillColor == Orange <==> Anomalous(info) && !Matched(info)
    ensures style.fillColor == Red <==> Anomalous(info) && Matched(info)
    ensures style.state == (if Anomalous(info) then "Anomaly" else "Normal")
  {
    var isAnomalous := info.Some? && info.value.isAnomalous;
    var isMotifMatched := info.Some? && info.value.isMatched;
    var fillColor := Blue;
    var color := Blue;
    if isAnomalous {
      fillColor := Orange;
      color := Orange;
      if isMotifMatched {
        fillColor := Red;
        color := Red;
      }
    }
    style := CellStyle(color, fillColor, if isAnomalous then "Anomaly" else "Normal");
  }

  /** The style of a cell, as a value for stating properties of the whole map. */
  function StyleOf(info: Option<MotifRecord>): (style: CellStyle)
    ensures style.color == style.fillColor
    ensures style.fillColor == Blue <==> !Anomalous(info)
    ensures style.fillColor == Orange <==> Anomalous(info) && !Matched(info)
    ensures style.fillColor == Red <==> Anomalous(info) && Matched(info)
    ensures style.state == (if Anomalous(info) then "Anomaly" else "Normal")
  {
    var c := if !Anomalous(info) then Blue else if Matched(info) then Red else Orange;
    CellStyle(c, c, if Anomalous(info) then "Anomaly" else "Normal")
  }

  /**
   * Lines 163-165 format the similarity with `:.4f`, which raises for a
   * missing (`None`) score; the exception skips the cell.
   */
  predicate Drawable(info: Option<MotifRecord>) {
    !(Anomalous(info) && Matched(info) && info.value.similarity.None?)
  }

  /**
   * Lines 140-184: one rectangle per cell of the metadata, in order; a cell
   * whose coordinate transform fails, or whose popup cannot be formatted, is
   * skipped (None).
   */
  method DrawCells(cellCount: nat, results: seq<MotifRecord>, transformOk: seq<bool>)
    returns (drawn: seq<Option<CellStyle>>)
    requires |transformOk| == cellCount
    ensures |drawn| == cellCount
    ensures forall i :: 0 <= i < cellCount ==>
      drawn[i] == (if transformOk[i] && Drawable(FirstWithId(results, i)) then Some(StyleOf(FirstWithId(results, i))) else None)
  {
    drawn := [];
    var i := 0;
    while i < cellCount
      invariant i <= cellCount && |drawn| == i
      invariant forall k :: 0 <= k < i ==>
        drawn[k] == (if transformOk[k] && Drawable(FirstWithId(results, k)) then Some(StyleOf(FirstWithId(results, k))) else None)
    {
      var shape: Option<CellStyle> := None;
      if transformOk[i] {
        var info := GetMotifInfo(i, results);
        if Drawable(info) {
          var style := StyleCell(info);
          shape := Some(style);
        }
      }
      drawn := drawn + [shape];
      i := i + 1;
    }
  }

  /**
   * A record written by the motif stage is drawn whenever its transform
   * works: a matched anomaly always has a similarity score.
   */
  lemma RecognizedRecordDrawable(a: AnomalyRecord, best: Match)
    ensures Drawable(Some(RecordOf(a, best)))
  {
  }

  /** Two first hits for one index are the same position. */
  lemma FirstHitUnique(results: seq<MotifRecord>, i: nat, k: nat, k': nat)
    requires k < |results| && results[k].cellId == i && forall j :: 0 <= j < k ==> results[j].cellId != i
    requires k' < |results| && results[k'].cellId == i && forall j :: 0 <= j < k' ==> results[j].cellId != i
    ensures k == k'
  {
  }

  /** A cell is red exactly when the first record with its index is an anomaly that matched a motif. */
  lemma RedIffMatchedAnomaly(results: seq<MotifRecord>, i: nat)
    ensures StyleOf(FirstWithId(results, i)).fillColor == Red <==>
      exists k :: 0 <= k < |results| && results[k].cellId == i && results[k].isAnomalous && results[k].isMatched &&
        forall j :: 0 <= j < k ==> results[j].cellId != i
  {
    FirstWithIdIsFirst(results, i);
    var info := FirstWithId(results, i);
    if info.Some? {
      var k :| 0 <= k < |results| && results[k] == info.value &&
        results[k].cellId == i && forall j :: 0 <= j < k ==> results[j].cellId != i;
      forall k': nat | k' < |results| && results[k'].cellId == i && forall j :: 0 <= j < k' ==> results[j].cellId != i
        ensures results[k'] == info.value
      {
        FirstHitUnique(results, i, k, k');
      }
    }
  }
}
