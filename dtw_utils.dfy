// The standalone matching helpers (utils/dtw_utils.py). The DTW distance
// itself (`fastdtw` with a Euclidean point metric) is not modelled; it is a
// parameter returning a finite distance for two non-empty sequences.
module DtwUtils {
  import opened Numeric
  import opened MotifLibrary

  /** The default `threshold` of `motif_match`. */
  const DefaultThreshold: real := 75.0

  /** The type reported when nothing beats `inf`. */
  const NoMatch: string := "No_Match"

  /** Lines 5-10: `inf` when either sequence is empty, else the DTW distance. */
  function DtwDistance(seq1: Embeddings, seq2: Embeddings, fastdtw: (Embeddings, Embeddings) -> real): (d: Extended)
    ensures d == Infinity <==> |seq1| == 0 || |seq2| == 0
    ensures d.Finite? ==> d.value == fastdtw(seq1, seq2)
  {
    if |seq1| == 0 || |seq2| == 0 then Infinity else Finite(fastdtw(seq1, seq2))
  }

  /** The candidates `motif_match` visits for one motif list: each motif with its distance. */
  function RowCandidates(t: string, candidate: Embeddings, motifs: seq<Embeddings>,
                         fastdtw: (Embeddings, Embeddings) -> real): (cs: seq<(string, Extended)>)
    ensures |cs| == |motifs|
    ensures forall k :: 0 <= k < |cs| ==> cs[k] == (t, DtwDistance(candidate, motifs[k], fastdtw))
    decreases |motifs|
  {
    if motifs == [] then []
    else
      RowCandidates(t, candidate, motifs[..|motifs| - 1], fastdtw)
        + [(t, DtwDistance(candidate, motifs[|motifs| - 1], fastdtw))]
  }

  /** Every motif of every type, in dictionary order then list order. */
  function Candidates(candidate: Embeddings, lib: Library, fastdtw: (Embeddings, Embeddings) -> real): seq<(string, Extended)>
    decreases |lib|
  {
    if lib == [] then []
    else
      var e := lib[|lib| - 1];
      Candidates(candidate, lib[..|lib| - 1], fastdtw) + RowCandidates(e.motifType, candidate, e.motifs, fastdtw)
  }

  /** The result of `motif_match`. */
  datatype MatchResult = MatchResult(motifType: string, distance: Extended, isMatch: bool)

  /** Lines 15-19: the inner loop over one type's motifs, continuing the search from `best`. */
  method ScanMotifs(best: Match, ghost before: seq<(string, Extended)>, t: string, candidate: Embeddings,
                    motifs: seq<Embeddings>, fastdtw: (Embeddings, Embeddings) -> real)
    returns (out: Match)
    requires best == FirstMin(Match(NoMatch, Infinity), before)
    ensures out == FirstMin(Match(NoMatch, Infinity), before + RowCandidates(t, candidate, motifs, fastdtw))
  {
    out := best;
    var j := 0;
    assert before + RowCandidates(t, candidate, motifs[..0], fastdtw) == before;
    while j < |motifs|
      invariant j <= |motifs|
      invariant out == FirstMin(Match(NoMatch, Infinity), before + RowCandidates(t, candidate, motifs[..j], fastdtw))
    {
      var dist := DtwDistance(candidate, motifs[j], fastdtw);
      ghost var row := RowCandidates(t, candidate, motifs[..j], fastdtw);
      assert motifs[..j + 1][..j] == motifs[..j];
      assert before + RowCandidates(t, candidate, motifs[..j + 1], fastdtw) == (before + row) + [(t, dist)];
      FirstMinSnoc(Match(NoMatch, Infinity), before + row, (t, dist));
      if dist.Below(out.distance) {
        out := Match(t, dist);
      }
      j := j + 1;
    }
    assert motifs[..j] == motifs;
  }

  /** Lines 12-21: the double loop keeping the best entry, then the threshold test. */
  method MotifMatch(candidate: Embeddings, lib: Library, threshold: real, fastdtw: (Embeddings, Embeddings) -> real)
    returns (result: MatchResult)
    ensures Match(result.motifType, result.distance) == FirstMin(Match(NoMatch, Infinity), Candidates(candidate, lib, fastdtw))
    ensures result.isMatch <==> result.distance.Below(Finite(threshold))
  {
    var best := Match(NoMatch, Infinity);
    var i := 0;
    while i < |lib|
      invariant i <= |lib|
      invariant best == FirstMin(Match(NoMatch, Infinity), Candidates(candidate, lib[..i], fastdtw))
    {
      var e := lib[i];
      best := ScanMotifs(best, Candidates(candidate, lib[..i], fastdtw), e.motifType, candidate, e.motifs, fastdtw);
      assert lib[..i + 1][..i] == lib[..i];
      i := i + 1;
    }
    assert lib[..i] == lib;
    result := MatchResult(best.motifType, best.distance, best.distance.Below(Finite(threshold)));
  }

  /** `is_match` holds exactly when some motif is closer than the threshold. */
  lemma IsMatchIffSomeClose(candidate: Embeddings, lib: Library, threshold: real, fastdtw: (Embeddings, Embeddings) -> real)
    ensures var cs := Candidates(candidate, lib, fastdtw);
      FirstMin(Match(NoMatch, Infinity), cs).distance.Below(Finite(threshold)) <==>
        exists k :: 0 <= k < |cs| && cs[k].1.Below(Finite(threshold))
  {
    BelowThresholdIffSome(NoMatch, Candidates(candidate, lib, fastdtw), threshold);
  }

  lemma {:induction false} CandidatesOfEmpty(candidate: Embeddings, lib: Library, fastdtw: (Embeddings, Embeddings) -> real)
    requires |candidate| == 0
    ensures forall k :: 0 <= k < |Candidates(candidate, lib, fastdtw)| ==> Candidates(candidate, lib, fastdtw)[k].1 == Infinity
    decreases |lib|
  {
    if lib != [] {
      var e := lib[|lib| - 1];
      var pre: seq<(string, Extended)> := Candidates(candidate, lib[..|lib| - 1], fastdtw);
      var row: seq<(string, Extended)> := RowCandidates(e.motifType, candidate, e.motifs, fastdtw);
      CandidatesOfEmpty(candidate, lib[..|lib| - 1], fastdtw);
      assert Candidates(candidate, lib, fastdtw) == pre + row;
      forall k | 0 <= k < |pre + row|
        ensures (pre + row)[k].1 == Infinity
      {
        if k >= |pre| {
          assert (pre + row)[k] == row[k - |pre|];
        } else {
          assert (pre + row)[k] == pre[k];
        }
      }
    }
  }

  /** An empty candidate matches nothing: `No_Match` at distance `inf`. */
  lemma EmptyCandidateNoMatch(candidate: Embeddings, lib: Library, fastdtw: (Embeddings, Embeddings) -> real)
    requires |candidate| == 0
    ensures FirstMin(Match(NoMatch, Infinity), Candidates(candidate, lib, fastdtw)) == Match(NoMatch, Infinity)
  {
    CandidatesOfEmpty(candidate, lib, fastdtw);
    NoFiniteKeepsInit(NoMatch, Candidates(candidate, lib, fastdtw));
  }
}
