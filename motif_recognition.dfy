// Signature recognition (models/motif_recognition.py): the known motif
// segments of the archaeological transects are cut out of their embedding
// arrays into a library, and every anomalous cell's embeddings are compared
// with every motif of the library, the closest one counting as a match when
// its distance is below 75. `fastdtw` and the Euclidean distance are
// parameters; the files a transect needs are present or not (`Option`).
module MotifRecognition {
  import opened Wrappers
  import opened Numeric
  import opened NumpyArrays
  import opened TransectIndex
  import opened AnomalyDetection
  import opened MotifLibrary

  /** `DTW_SIMILARITY_THRESHOLD`. */
  const SimilarityThreshold: real := 75.0

  /** `vggish_frame_length_s / 2`: an embedding is taken as centred half a frame after its start. */
  const HalfFrameS: real := 0.48

  // ----- Time range to embedding indices (lines 64-104) -----

  /** `int((t - 0.48) / 0.5)`, the embedding index of a time in milliseconds, truncated toward zero. */
  function IndexAt(ms: real): int {
    Trunc((ms / 1000.0 - HalfFrameS) / HopLengthS)
  }

  /** `max(0, int((start_s - 0.48) / 0.5))`. */
  function StartIndex(startMs: real): (i: nat) {
    MaxInt(0, IndexAt(startMs))
  }

  /**
   * The rows `embeddings_array[start:end]` that lines 77-104 return, for an
   * array of `n` rows; an empty range stands for `np.array([])`.
   */
  function EmbeddingRange(n: nat, startMs: real, endMs: real, totalMs: real): (r: Span)
    ensures r.lo <= r.hi <= n
    ensures r.lo == r.hi <==> n == 0 || totalMs == 0.0 || StartIndex(startMs) >= n
    ensures r.lo < r.hi ==> r.lo == StartIndex(startMs)
    ensures r.lo < r.hi ==> r.hi == MaxInt(r.lo + 1, MinInt(n, IndexAt(endMs) + 1))
  {
    if n == 0 || totalMs == 0.0 then Span(0, 0)
    else
      var startIdx := StartIndex(startMs);
      var endIdx := MinInt(n, IndexAt(endMs) + 1);
      if startIdx >= n then Span(0, 0)
      else if endIdx <= startIdx then Span(startIdx, startIdx + 1)
      else Span(startIdx, endIdx)
  }

  /** `get_vggish_embeddings_for_time_range`. */
  function EmbeddingsForTimeRange(embeddings: Embeddings, startMs: real, endMs: real, totalMs: real): (r: Embeddings)
    ensures var sp := EmbeddingRange(|embeddings|, startMs, endMs, totalMs);
      r == embeddings[sp.lo..sp.hi]
  {
    var sp := EmbeddingRange(|embeddings|, startMs, endMs, totalMs);
    embeddings[sp.lo..sp.hi]
  }

  lemma TruncBetween(x: real, n: int)
    requires 0 <= n && n as real <= x < n as real + 1.0
    ensures Trunc(x) == n
  {
  }

  /**
   * Cell `k` of a sonified transect (6000 ms each, starting at `6000 * k`)
   * is given embeddings `[12k - 1, 12k + 12)`, and cell 0 `[0, 12)`, when
   * the array is long enough.
   */
  lemma SonifiedCellRange(n: nat, k: nat, totalMs: real)
    requires totalMs != 0.0 && n >= 12 * k + 12
    ensures var sp := EmbeddingRange(n, 6000.0 * k as real, 6000.0 * (k + 1) as real, totalMs);
      sp == Span(if k == 0 then 0 else 12 * k - 1, 12 * k + 12)
  {
    var s := 6000.0 * k as real;
    var e := 6000.0 * (k + 1) as real;
    assert (e / 1000.0 - HalfFrameS) / HopLengthS == 12.0 * k as real + 11.04;
    TruncBetween(12.0 * k as real + 11.04, 12 * k + 11);
    if k == 0 {
      assert (s / 1000.0 - HalfFrameS) / HopLengthS == -0.96;
    } else {
      assert (s / 1000.0 - HalfFrameS) / HopLengthS == 12.0 * k as real - 0.96;
      TruncBetween(12.0 * k as real - 0.96, 12 * k - 1);
    }
  }

  /** A range that is not empty holds at least one embedding and lies inside the array. */
  lemma RangeWithinArray(n: nat, startMs: real, endMs: real, totalMs: real)
    requires n > 0 && totalMs != 0.0 && StartIndex(startMs) < n
    ensures var sp := EmbeddingRange(n, startMs, endMs, totalMs);
      sp.lo == StartIndex(startMs) && sp.lo + 1 <= sp.hi <= n
  {
  }

  /** Lines 129-132 and 175: the last cell's `audio_end_ms`, or 0 with no cells. */
  function TotalDurationMs(geoms: seq<CellGeom>): real {
    if geoms == [] then 0.0 else geoms[|geoms| - 1].audioEndMs
  }

  // ----- The motif library (lines 107-148) -----

  /** One entry of `ARCHAEOLOGICAL_MOTIFS_DEFINITIONS` with its transect's embeddings and geometry, if both files exist. */
  datatype MotifSource = MotifSource(motifType: string, startMs: real, endMs: real,
                                     files: Option<(Embeddings, seq<CellGeom>)>)

  /** The segment one definition contributes (empty when its files are missing). */
  function SegmentOf(src: MotifSource): Embeddings {
    match src.files
    case None => []
    case Some(f) => EmbeddingsForTimeRange(f.0, src.startMs, src.endMs, TotalDurationMs(f.1))
  }

  /** Lines 111-144 for one definition: a non-empty segment is appended under its type. */
  function Contribute(lib: Library, src: MotifSource): Library {
    var m := SegmentOf(src);
    if |m| > 0 then AddMotif(lib, src.motifType, m) else lib
  }

  /** The library after the definitions `sources`, in order. */
  function LibraryOf(sources: seq<MotifSource>): Library
    decreases |sources|
  {
    if sources == [] then [] else Contribute(LibraryOf(sources[..|sources| - 1]), sources[|sources| - 1])
  }

  /** The non-empty segments of type `t`, in definition order: what the library should file under `t`. */
  function MotifsOfType(sources: seq<MotifSource>, t: string): seq<Embeddings>
    decreases |sources|
  {
    if sources == [] then []
    else
      var last := sources[|sources| - 1];
      var m := SegmentOf(last);
      MotifsOfType(sources[..|sources| - 1], t) + (if last.motifType == t && |m| > 0 then [m] else [])
  }

  /** The library is a dictionary, and it files every non-empty segment under its type, in order. */
  lemma {:induction false} LibraryGroupsByType(sources: seq<MotifSource>, t: string)
    ensures KeysUnique(LibraryOf(sources))
    ensures Lookup(LibraryOf(sources), t) == MotifsOfType(sources, t)
    decreases |sources|
  {
    if sources != [] {
      var pre := sources[..|sources| - 1];
      var last := sources[|sources| - 1];
      LibraryGroupsByType(pre, t);
      var m := SegmentOf(last);
      if |m| > 0 {
        AddMotifKeepsUnique(LibraryOf(pre), last.motifType, m);
        AddMotifLookup(LibraryOf(pre), last.motifType, m, t);
      }
    }
  }

  /** Lines 109-148: the library, or `None` where the script stops because no motif could be loaded. */
  method BuildLibrary(sources: seq<MotifSource>) returns (lib: Option<Library>)
    ensures lib.None? <==> LibraryOf(sources) == []
    ensures lib.Some? ==> lib.value == LibraryOf(sources)
  {
    var library: Library := [];
    var i := 0;
    while i < |sources|
      invariant i <= |sources|
      invariant library == LibraryOf(sources[..i])
    {
      var src := sources[i];
      assert sources[..i + 1][..i] == sources[..i];
      if src.files.Some? {
        var f := src.files.value;
        var motifEmbeddings := EmbeddingsForTimeRange(f.0, src.startMs, src.endMs, TotalDurationMs(f.1));
        if |motifEmbeddings| > 0 {
          library := AddMotif(library, src.motifType, motifEmbeddings);
        }
      }
      i := i + 1;
    }
    assert sources[..i] == sources;
    if library == [] {
      return None;
    }
    lib := Some(library);
  }

  // ----- Matching one anomalous cell (lines 188-216) -----

  /** Lines 204-212: DTW for two sequences of more than one embedding, Euclidean for two single ones, else `inf`. */
  function SegmentDistance(seg: Embeddings, motif: Embeddings,
                           fastdtw: (Embeddings, Embeddings) -> real,
                           euclidean: (Embedding, Embedding) -> real): (d: Extended)
    ensures d.Finite? <==> (|seg| > 1 && |motif| > 1) || (|seg| == 1 && |motif| == 1)
  {
    if |seg| > 1 && |motif| > 1 then Finite(fastdtw(seg, motif))
    else if |seg| == 1 && |motif| == 1 then Finite(euclidean(seg[0], motif[0]))
    else Infinity
  }

  /** The comparisons one motif list yields; empty motifs are skipped (line 199). */
  function RowCandidates(t: string, seg: Embeddings, motifs: seq<Embeddings>,
                         fastdtw: (Embeddings, Embeddings) -> real,
                         euclidean: (Embedding, Embedding) -> real): seq<(string, Extended)>
    decreases |motifs|
  {
    if motifs == [] then []
    else
      var m := motifs[|motifs| - 1];
      RowCandidates(t, seg, motifs[..|motifs| - 1], fastdtw, euclidean)
        + (if |m| == 0 then [] else [(t, SegmentDistance(seg, m, fastdtw, euclidean))])
  }

  /** Every comparison, in library order. */
  function Candidates(seg: Embeddings, lib: Library,
                      fastdtw: (Embeddings, Embeddings) -> real,
                      euclidean: (Embedding, Embedding) -> real): seq<(string, Extended)>
    decreases |lib|
  {
    if lib == [] then []
    else
      var e := lib[|lib| - 1];
      Candidates(seg, lib[..|lib| - 1], fastdtw, euclidean) + RowCandidates(e.motifType, seg, e.motifs, fastdtw, euclidean)
  }

  /** The best match before any comparison (lines 193-194). */
  const Unmatched: Match := Match("Unknown", Infinity)

  /** What lines 193-216 leave in `best_match_motif_type` and `best_match_dtw_distance`. */
  function BestMatchOf(seg: Embeddings, lib: Library,
                       fastdtw: (Embeddings, Embeddings) -> real,
                       euclidean: (Embedding, Embedding) -> real): Match
  {
    if |seg| > 0 then FirstMin(Unmatched, Candidates(seg, lib, fastdtw, euclidean)) else Unmatched
  }

  /** Lines 193-216: the loop over every motif of every type. */
  method BestMatch(seg: Embeddings, lib: Library,
                   fastdtw: (Embeddings, Embeddings) -> real,
                   euclidean: (Embedding, Embedding) -> real) returns (best: Match)
    ensures best == BestMatchOf(seg, lib, fastdtw, euclidean)
  {
    best := Unmatched;
    if |seg| == 0 {
      return;
    }
    var i := 0;
    while i < |lib|
      invariant i <= |lib|
      invariant best == FirstMin(Unmatched, Candidates(seg, lib[..i], fastdtw, euclidean))
    {
      var e := lib[i];
      ghost var before := Candidates(seg, lib[..i], fastdtw, euclidean);
      var j := 0;
      assert before + RowCandidates(e.motifType, seg, e.motifs[..0], fastdtw, euclidean) == before;
      while j < |e.motifs|
        invariant j <= |e.motifs|
        invariant best == FirstMin(Unmatched, before + RowCandidates(e.motifType, seg, e.motifs[..j], fastdtw, euclidean))
      {
        var single := e.motifs[j];
        ghost var row := RowCandidates(e.motifType, seg, e.motifs[..j], fastdtw, euclidean);
        assert e.motifs[..j + 1][..j] == e.motifs[..j];
        if |single| > 0 {
          var distance := SegmentDistance(seg, single, fastdtw, euclidean);
          assert before + RowCandidates(e.motifType, seg, e.motifs[..j + 1], fastdtw, euclidean)
            == (before + row) + [(e.motifType, distance)];
          FirstMinSnoc(Unmatched, before + row, (e.motifType, distance));
          if distance.Below(best.distance) {
            best := Match(e.motifType, distance);
          }
        } else {
          assert before + RowCandidates(e.motifType, seg, e.motifs[..j + 1], fastdtw, euclidean) == before + row;
        }
        j := j + 1;
      }
      assert e.motifs[..j] == e.motifs;
      assert lib[..i + 1][..i] == lib[..i];
      i := i + 1;
    }
    assert lib[..i] == lib;
  }

  // ----- Result records (lines 179-250) -----

  /** One entry of `motif_matching_results_for_transect`. */
  datatype MotifRecord = MotifRecord(cellId: nat, geom: CellGeom, isAnomalous: bool, meanScore: real,
                                     matchedType: string, similarity: Option<real>, isMatched: bool)

  /** Lines 219-250: the record of one anomaly record, given the best match found for it. */
  function RecordOf(a: AnomalyRecord, best: Match): (r: MotifRecord)
    ensures r.cellId == a.cellId && r.geom == a.geom && r.meanScore == a.meanScore
    ensures r.isAnomalous == a.isAnomalous && (r.isMatched ==> r.isAnomalous)
    ensures !a.isAnomalous ==> r.matchedType == "Not_Anomalous" && r.similarity == None && !r.isMatched
    ensures a.isAnomalous ==> (r.isMatched <==> best.distance.Below(Finite(SimilarityThreshold)))
    ensures a.isAnomalous ==> (r.similarity.None? <==> best.distance == Infinity)
    ensures a.isAnomalous ==> r.matchedType == (if r.isMatched then best.motifType else "No_Match")
  {
    if a.isAnomalous then
      var isMatched := best.distance.Below(Finite(SimilarityThreshold));
      MotifRecord(a.cellId, a.geom, true, a.meanScore,
                  if isMatched then best.motifType else "No_Match",
                  if best.distance.Finite? then Some(best.distance.value) else None,
                  isMatched)
    else
      MotifRecord(a.cellId, a.geom, false, a.meanScore, "Not_Anomalous", None, false)
  }

  /** The embeddings of an anomaly record's audio interval. */
  function CellSegment(a: AnomalyRecord, embeddings: Embeddings, totalMs: real): Embeddings {
    EmbeddingsForTimeRange(embeddings, a.geom.audioStartMs, a.geom.audioEndMs, totalMs)
  }

  /** Lines 157-250 for one transect whose files all exist. */
  method RecognizeTransect(anomalies: seq<AnomalyRecord>, embeddings: Embeddings, geoms: seq<CellGeom>, lib: Library,
                           fastdtw: (Embeddings, Embeddings) -> real,
                           euclidean: (Embedding, Embedding) -> real) returns (results: seq<MotifRecord>)
    ensures |results| == |anomalies|
    ensures forall i :: 0 <= i < |anomalies| ==>
      results[i] == RecordOf(anomalies[i],
        BestMatchOf(CellSegment(anomalies[i], embeddings, TotalDurationMs(geoms)), lib, fastdtw, euclidean))
  {
    var totalMs := TotalDurationMs(geoms);
    results := [];
    var i := 0;
    while i < |anomalies|
      invariant i <= |anomalies|
      invariant |results| == i
      invariant forall k :: 0 <= k < i ==>
        results[k] == RecordOf(anomalies[k],
          BestMatchOf(CellSegment(anomalies[k], embeddings, totalMs), lib, fastdtw, euclidean))
    {
      var a := anomalies[i];
      var best := Unmatched;
      if a.isAnomalous {
        var seg := CellSegment(a, embeddings, totalMs);
        best := BestMatch(seg, lib, fastdtw, euclidean);
      }
      results := results + [RecordOf(a, best)];
      i := i + 1;
    }
  }

  /**
   * An anomalous cell is matched exactly when its segment is not empty and
   * some motif of the library lies closer than 75; a cell that is not
   * anomalous never is.
   */
  lemma MatchedIffSomeMotifClose(a: AnomalyRecord, seg: Embeddings, lib: Library,
                                 fastdtw: (Embeddings, Embeddings) -> real,
                                 euclidean: (Embedding, Embedding) -> real)
    ensures var cs := Candidates(seg, lib, fastdtw, euclidean);
      RecordOf(a, BestMatchOf(seg, lib, fastdtw, euclidean)).isMatched <==>
        a.isAnomalous && |seg| > 0 && exists k :: 0 <= k < |cs| && cs[k].1.Below(Finite(SimilarityThreshold))
  {
    BelowThresholdIffSome("Unknown", Candidates(seg, lib, fastdtw, euclidean), SimilarityThreshold);
  }

  /** A matched cell's type is that of comparison `k`, the first one at the minimum distance. */
  lemma MatchedTypeIsNearest(a: AnomalyRecord, seg: Embeddings, lib: Library,
                             fastdtw: (Embeddings, Embeddings) -> real,
                             euclidean: (Embedding, Embedding) -> real) returns (k: nat)
    requires RecordOf(a, BestMatchOf(seg, lib, fastdtw, euclidean)).isMatched
    ensures var r := RecordOf(a, BestMatchOf(seg, lib, fastdtw, euclidean));
      FirstNearest(Candidates(seg, lib, fastdtw, euclidean), k) && r.similarity.Some? &&
      Candidates(seg, lib, fastdtw, euclidean)[k] == (r.matchedType, Finite(r.similarity.value))
  {
    var cs := Candidates(seg, lib, fastdtw, euclidean);
    var best := BestMatchOf(seg, lib, fastdtw, euclidean);
    assert |seg| > 0 && best == FirstMin(Unmatched, cs);
    assert best.distance.Below(Finite(SimilarityThreshold));
    k := FirstMinReachesCandidate(Unmatched, cs);
  }
}
