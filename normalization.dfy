// The final pass over a transect's concatenated audio
// (models/sonification.py:1175-1222): a first streaming pass finds the peak
// magnitude block by block, a factor is chosen from it, and a second
// streaming pass writes every block scaled by that factor. When the transect
// has no chunks, or concatenation fails, a silent file as long as the
// transect's audio is written instead.
module Normalization {
  import opened Wrappers
  import opened Numeric
  import opened NumpyArrays
  import opened SonifierConstants

  /** `block_size`: the number of samples per block in both passes. */
  const BlockSize: nat := 4096

  /** The peak below which a track counts as silent. */
  const SilenceThreshold: real := 0.000001

  /** The peak a normalized track is scaled to. */
  const TargetPeak: real := 0.95

  /** The largest magnitude among the samples, 0.0 for none. */
  function MaxAbs(s: seq<real>): (m: real)
    ensures m >= 0.0
    decreases |s|
  {
    if s == [] then 0.0 else Max(Abs(s[0]), MaxAbs(s[1..]))
  }

  /** `MaxAbs` is the maximum: it bounds every sample's magnitude and some sample reaches it. */
  lemma {:induction false} MaxAbsIsMax(s: seq<real>)
    ensures forall k :: 0 <= k < |s| ==> Abs(s[k]) <= MaxAbs(s)
    ensures |s| > 0 ==> exists k :: 0 <= k < |s| && Abs(s[k]) == MaxAbs(s)
    decreases |s|
  {
    if s != [] {
      MaxAbsIsMax(s[1..]);
      assert forall k :: 1 <= k < |s| ==> s[k] == s[1..][k - 1];
      if |s| > 1 && MaxAbs(s) != Abs(s[0]) {
        var k :| 0 <= k < |s[1..]| && Abs(s[1..][k]) == MaxAbs(s[1..]);
        assert Abs(s[k + 1]) == MaxAbs(s);
      }
    }
  }

  lemma {:induction false} MaxAbsAppend(a: seq<real>, b: seq<real>)
    ensures MaxAbs(a + b) == Max(MaxAbs(a), MaxAbs(b))
    decreases |a|
  {
    if a == [] {
      assert a + b == b;
    } else {
      assert (a + b)[1..] == a[1..] + b;
      MaxAbsAppend(a[1..], b);
    }
  }

  /** The block that starts at sample `start`; the last block may be short. */
  function BlockAt(track: seq<real>, start: nat): (b: seq<real>)
    requires start < |track|
    ensures 0 < |b| <= BlockSize
  {
    track[start..MinInt(start + BlockSize, |track|)]
  }

  /** Lines 1177-1185: the block loop keeping the largest `np.max(np.abs(block))` seen. */
  method PeakAmplitude(track: seq<real>) returns (peak: real)
    ensures peak == MaxAbs(track)
  {
    peak := 0.0;
    var start := 0;
    while start < |track|
      invariant start <= |track|
      invariant peak == MaxAbs(track[..start])
      decreases |track| - start
    {
      var block := BlockAt(track, start);
      var currentMax := MaxAbs(block);
      if currentMax > peak {
        peak := currentMax;
      }
      var next := MinInt(start + BlockSize, |track|);
      assert track[..next] == track[..start] + block;
      MaxAbsAppend(track[..start], block);
      start := next;
    }
    assert track[..start] == track;
  }

  /**
   * Lines 1186-1193: `0.95 / peak` for a peak above `1e-6`, else 1.0; a
   * failed scan (`None`) counts as a peak of 1.0.
   */
  function NormalizationFactor(peak: Option<real>): (f: real)
    ensures f > 0.0
    ensures peak.None? ==> f == TargetPeak
    ensures peak.Some? && peak.value <= SilenceThreshold ==> f == 1.0
  {
    var maxAmplitude := peak.GetOr(1.0);
    if maxAmplitude > SilenceThreshold then TargetPeak / maxAmplitude else 1.0
  }

  /** `block * normalization_factor`. */
  function Scaled(s: seq<real>, factor: real): (r: seq<real>)
    ensures |r| == |s|
    ensures forall k :: 0 <= k < |s| ==> r[k] == s[k] * factor
  {
    seq(|s|, k requires 0 <= k < |s| => s[k] * factor)
  }

  lemma ScaledAppend(a: seq<real>, b: seq<real>, factor: real)
    ensures Scaled(a + b, factor) == Scaled(a, factor) + Scaled(b, factor)
  {
    var l, r := Scaled(a + b, factor), Scaled(a, factor) + Scaled(b, factor);
    assert forall k :: 0 <= k < |l| ==> l[k] == r[k];
  }

  /** Lines 1200-1203: every block scaled and written in turn. */
  method NormalizeBlocks(track: seq<real>, factor: real) returns (out: seq<real>)
    ensures out == Scaled(track, factor)
  {
    out := [];
    var start := 0;
    while start < |track|
      invariant start <= |track|
      invariant out == Scaled(track[..start], factor)
      decreases |track| - start
    {
      var block := BlockAt(track, start);
      out := out + Scaled(block, factor);
      var next := MinInt(start + BlockSize, |track|);
      assert track[..next] == track[..start] + block;
      ScaledAppend(track[..start], block, factor);
      start := next;
    }
    assert track[..start] == track;
  }

  /** Both passes; `scanFails` says the peak scan raised. */
  method NormalizeTrack(track: seq<real>, scanFails: bool) returns (out: seq<real>)
    ensures out == Scaled(track, NormalizationFactor(if scanFails then None else Some(MaxAbs(track))))
  {
    var peak: Option<real>;
    if scanFails {
      peak := None;
    } else {
      var p := PeakAmplitude(track);
      peak := Some(p);
    }
    var factor := NormalizationFactor(peak);
    out := NormalizeBlocks(track, factor);
  }

  lemma AbsScaled(x: real, c: real)
    requires c > 0.0
    ensures Abs(x * c) == Abs(x) * c
  {
    if x < 0.0 {
      MulPos(-x, c);
    } else {
      MulNonneg(x, c);
    }
  }

  lemma {:induction false} MaxAbsBound(s: seq<real>, k: nat)
    requires k < |s|
    ensures Abs(s[k]) <= MaxAbs(s)
    decreases k
  {
    if k > 0 {
      MaxAbsBound(s[1..], k - 1);
      assert s[1..][k - 1] == s[k];
    }
  }

  lemma {:induction false} MaxAbsWitness(s: seq<real>) returns (k: nat)
    requires |s| > 0
    ensures k < |s| && Abs(s[k]) == MaxAbs(s)
    decreases |s|
  {
    if |s| == 1 || Abs(s[0]) >= MaxAbs(s[1..]) {
      k := 0;
    } else {
      var j := MaxAbsWitness(s[1..]);
      k := j + 1;
      assert s[k] == s[1..][j];
    }
  }

  /** `m` is the peak magnitude of `s`: it bounds every sample and one reaches it (0.0 when empty). */
  ghost predicate IsPeak(s: seq<real>, m: real) {
    (forall k :: 0 <= k < |s| ==> Abs(s[k]) <= m) &&
    (|s| == 0 ==> m == 0.0) &&
    (|s| > 0 ==> exists k :: 0 <= k < |s| && Abs(s[k]) == m)
  }

  lemma MaxAbsIsPeak(s: seq<real>)
    ensures IsPeak(s, MaxAbs(s))
  {
    MaxAbsIsMax(s);
  }

  /** The peak is unique, so it is `MaxAbs`. */
  lemma PeakIsMaxAbs(s: seq<real>, m: real)
    requires IsPeak(s, m)
    ensures MaxAbs(s) == m
  {
    if |s| > 0 {
      var i :| 0 <= i < |s| && Abs(s[i]) == m;
      var j := MaxAbsWitness(s);
      MaxAbsBound(s, i);
    }
  }

  /** Scaling a sample bounded by `p` by a positive factor bounds it by `p * c`. */
  lemma AbsScaledBelow(x: real, p: real, c: real)
    requires c > 0.0 && Abs(x) <= p
    ensures Abs(x * c) <= p * c
  {
    AbsScaled(x, c);
    MulNonneg(p - Abs(x), c);
    assert (p - Abs(x)) * c == p * c - Abs(x) * c;
  }

  lemma AbsScaledAt(x: real, y: real, m: real, c: real)
    requires c > 0.0 && y == x * c && Abs(x) == m
    ensures Abs(y) == m * c
  {
    AbsScaled(x, c);
  }

  lemma BoundScaled(s: seq<real>, m: real, c: real)
    requires c > 0.0 && forall k :: 0 <= k < |s| ==> Abs(s[k]) <= m
    ensures forall k :: 0 <= k < |s| ==> Abs(Scaled(s, c)[k]) <= m * c
  {
    forall k | 0 <= k < |s|
      ensures Abs(Scaled(s, c)[k]) <= m * c
    {
      AbsScaledBelow(s[k], m, c);
    }
  }

  lemma AttainsScaled(s: seq<real>, m: real, c: real, i: int)
    requires c > 0.0 && 0 <= i < |s| && Abs(s[i]) == m
    ensures Abs(Scaled(s, c)[i]) == m * c
  {
    AbsScaledAt(s[i], Scaled(s, c)[i], m, c);
  }

  /** Scaling by a positive factor scales the peak. */
  lemma PeakScaled(s: seq<real>, m: real, c: real)
    requires c > 0.0 && IsPeak(s, m)
    ensures IsPeak(Scaled(s, c), m * c)
  {
    BoundScaled(s, m, c);
    if |s| > 0 {
      var i :| 0 <= i < |s| && Abs(s[i]) == m;
      AttainsScaled(s, m, c, i);
    }
  }

  /** A track whose peak `p` is above the threshold, scaled by `0.95 / p`, has peak 0.95. */
  lemma PeakNormalized(track: seq<real>, p: real)
    requires IsPeak(track, p) && p > SilenceThreshold
    ensures IsPeak(Scaled(track, TargetPeak / p), TargetPeak)
  {
    var c := TargetPeak / p;
    assert p * c == TargetPeak;
    PeakScaled(track, p, c);
  }

  /**
   * After a successful scan a track that is not silent has new peak 0.95,
   * and a silent one is left unchanged.
   */
  lemma NormalizedPeak(track: seq<real>)
    ensures var out := Scaled(track, NormalizationFactor(Some(MaxAbs(track))));
      (MaxAbs(track) > SilenceThreshold ==> MaxAbs(out) == TargetPeak) &&
      (MaxAbs(track) <= SilenceThreshold ==> out == track)
  {
    var peak := MaxAbs(track);
    if peak > SilenceThreshold {
      MaxAbsIsPeak(track);
      PeakNormalized(track, peak);
      PeakIsMaxAbs(Scaled(track, TargetPeak / peak), TargetPeak);
    }
  }

  /** Scaling by the normalization factor keeps every sample's sign and the order of any two samples. */
  lemma NormalizationKeepsOrder(track: seq<real>, peak: Option<real>)
    ensures var out := Scaled(track, NormalizationFactor(peak));
      forall i, j :: 0 <= i < |track| && 0 <= j < |track| ==>
        (track[i] < track[j] <==> out[i] < out[j]) && (track[i] >= 0.0 <==> out[i] >= 0.0)
  {
    var f := NormalizationFactor(peak);
    var out := Scaled(track, f);
    forall i, j | 0 <= i < |track| && 0 <= j < |track|
      ensures (track[i] < track[j] <==> out[i] < out[j]) && (track[i] >= 0.0 <==> out[i] >= 0.0)
    {
      if track[i] < track[j] {
        MulPos(track[j] - track[i], f);
      } else {
        MulNonneg(track[i] - track[j], f);
      }
      if track[i] >= 0.0 {
        MulNonneg(track[i], f);
      } else {
        MulPos(-track[i], f);
      }
    }
  }

  /** Lines 1211-1212 and 1221-1222: the silent placeholder, `int(ms / 1000 * SAMPLE_RATE)` zero samples. */
  function SilentFallback(currentMs: real): (r: seq<int>)
    requires currentMs >= 0.0
    ensures forall k :: 0 <= k < |r| ==> r[k] == 0
  {
    var n := Trunc(currentMs / 1000.0 * SampleRate);
    seq(n, _ => 0)
  }

  /** A transect of `n` invalid cells, 6000 ms each, gets a placeholder of `n` cells' worth of samples. */
  lemma SilentFallbackLength(n: nat)
    ensures |SilentFallback(n as real * 6000.0)| == n * CellSamples
  {
    assert n as real * 6000.0 / 1000.0 * SampleRate == (n * CellSamples) as real;
  }
}
