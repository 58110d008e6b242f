// The fixed-length buffers a rendered cell is assembled from: the pad or
// truncate helper every layer passes through before mixing, the float to
// 16-bit conversion before a layer is handed on, and the placement of the
// chord hits into the melody layer.
module CellBuffers {
  import opened Wrappers
  import opened Numeric
  import opened NumpyArrays
  import opened SonifierConstants
  import opened SynthesisEnvelope

  /**
   * `ensure_length` (models/sonification.py:856-861): zero-pad a short array
   * at the end, cut a long one, return one of the right length unchanged.
   */
  function EnsureLength(arr: seq<real>, target: nat): (r: seq<real>)
    ensures |r| == target
    ensures forall k :: 0 <= k < MinInt(|arr|, target) ==> r[k] == arr[k]
    ensures forall k :: |arr| <= k < target ==> r[k] == 0.0
  {
    if |arr| < target then arr + Zeros(target - |arr|)
    else if |arr| > target then arr[..target]
    else arr
  }

  /** An array that already has the target length passes through unchanged. */
  lemma EnsureLengthKeeps(arr: seq<real>)
    ensures EnsureLength(arr, |arr|) == arr
  {
  }

  /** Applying `ensure_length` twice with one target is the same as once. */
  lemma EnsureLengthIdempotent(arr: seq<real>, target: nat)
    ensures EnsureLength(EnsureLength(arr, target), target) == EnsureLength(arr, target)
  {
    EnsureLengthKeeps(EnsureLength(arr, target));
  }

  /**
   * `ensure_length` is determined by its contract: any array of the target
   * length that keeps the common prefix and is zero beyond the input is it.
   */
  lemma EnsureLengthUnique(arr: seq<real>, target: nat, other: seq<real>)
    requires |other| == target
    requires forall k :: 0 <= k < MinInt(|arr|, target) ==> other[k] == arr[k]
    requires forall k :: |arr| <= k < target ==> other[k] == 0.0
    ensures other == EnsureLength(arr, target)
  {
    var r := EnsureLength(arr, target);
    forall k | 0 <= k < target
      ensures other[k] == r[k]
    {
      if k < |arr| {
        assert k < MinInt(|arr|, target);
      }
    }
  }

  /**
   * One sample of `convert_float_to_int16` (models/sonification.py:517-519):
   * clip to [-1, 1], scale by 32767, and truncate toward zero as numpy's
   * `astype(np.int16)` does.
   */
  function Int16Sample(x: real): (n: int)
    ensures -32767 <= n <= 32767
    ensures x >= 1.0 ==> n == 32767
    ensures x <= -1.0 ==> n == -32767
  {
    var c := Clip(x, -1.0, 1.0) * 32767.0;
    assert -32767.0 <= c <= 32767.0;
    Trunc(c)
  }

  /** The conversion never reverses the order of two samples. */
  lemma Int16Monotone(x: real, y: real)
    requires x <= y
    ensures Int16Sample(x) <= Int16Sample(y)
  {
    var cx := Clip(x, -1.0, 1.0) * 32767.0;
    var cy := Clip(y, -1.0, 1.0) * 32767.0;
    assert cx <= cy;
    if cx >= 0.0 {
      TruncMonotone(cx, cy);
    } else if cy <= 0.0 {
      TruncMonotone(-cy, -cx);
      assert Trunc(cx) == -Trunc(-cx);
      assert Trunc(cy) == -Trunc(-cy);
    }
  }

  /** The conversion keeps the sign of a sample, and silence stays silence. */
  lemma Int16Sign(x: real)
    ensures x >= 0.0 ==> Int16Sample(x) >= 0
    ensures x <= 0.0 ==> Int16Sample(x) <= 0
    ensures x == 0.0 ==> Int16Sample(x) == 0
  {
  }

  /** `convert_float_to_int16` on a whole array, sample by sample. */
  function ConvertFloatToInt16(a: seq<real>): (r: seq<int>)
    ensures |r| == |a|
    ensures forall k :: 0 <= k < |a| ==> -32767 <= r[k] <= 32767
  {
    seq(|a|, k requires 0 <= k < |a| => Int16Sample(a[k]))
  }

  // ----- chord hits of the melody layer (models/sonification.py:993-1002) -----

  /** `num_chord_hits`. */
  const ChordHits: nat := 2

  /** `hit_duration = DURATION_PER_GRID_CELL / num_chord_hits`, in seconds. */
  const HitDuration: real := CellDuration / ChordHits as real

  /** `int(hit_duration * SAMPLE_RATE)`: the samples of one chord hit. */
  const HitSamples: nat := 33075

  /** Lines 996 and 999: hit `i` starts at sample `int(i * hit_duration * SAMPLE_RATE)`. */
  function HitStart(i: nat): (s: nat)
    ensures s == i * HitSamples
  {
    assert i as real * HitDuration * SampleRate == (i * HitSamples) as real;
    Trunc(i as real * HitDuration * SampleRate)
  }

  /** The melody layer after the first `i` hits have been added, each clipped at the end of the cell. */
  function PlacedHits(i: nat, chord: nat -> seq<real>): (r: seq<real>)
    requires i <= ChordHits
    ensures |r| == CellSamples
  {
    if i == 0 then Zeros(CellSamples)
    else AddedAt(PlacedHits(i - 1, chord), HitStart(i - 1), chord(i - 1))
  }

  /** The melody layer: `chord(i)` is the chord wave generated for hit `i`. */
  function ChordMelody(chord: nat -> seq<real>): (r: seq<real>)
    ensures |r| == CellSamples
  {
    PlacedHits(ChordHits, chord)
  }

  /**
   * The chord tones of `generate_chord` (attack 0.5 s, decay 0.8 s, sustain
   * 0.4, release 0.5 s) over one hit's duration have exactly `HitSamples`
   * samples, so every chord wave of the melody has that length.
   */
  lemma ChordToneLength(tone: nat -> real)
    ensures AdsrSineWave(tone, HitDuration, SampleRate, 0.5, 0.8, 0.4, 0.5).Some?
    ensures |AdsrSineWave(tone, HitDuration, SampleRate, 0.5, 0.8, 0.4, 0.5).value| == HitSamples
  {
    AdsrSineWaveLength(tone, HitDuration, SampleRate, 0.5, 0.8, 0.4, 0.5);
    assert SampleRate * HitDuration == 33075.0;
  }

  /**
   * With chord waves of `HitSamples` samples the two hits tile the melody
   * layer exactly: the first hit fills the first half, the second the rest,
   * and nothing is clipped.
   */
  lemma ChordHitsTile(chord: nat -> seq<real>)
    requires |chord(0)| == HitSamples && |chord(1)| == HitSamples
    ensures ChordMelody(chord) == chord(0) + chord(1)
  {
    var first := PlacedHits(1, chord);
    assert forall k :: 0 <= k < HitSamples ==> first[k] == chord(0)[k];
    assert forall k :: HitSamples <= k < CellSamples ==> first[k] == 0.0;
    var both := PlacedHits(2, chord);
    assert forall k :: 0 <= k < HitSamples ==> both[k] == chord(0)[k];
    assert forall k :: HitSamples <= k < CellSamples ==> both[k] == chord(1)[k - HitSamples];
    assert both == chord(0) + chord(1);
  }

  /** Lines 993-1002 as the source runs them: a zeroed melody buffer and one clipped `+=` per hit. */
  method PlaceChordHits(chord: nat -> seq<real>) returns (melody: seq<real>)
    ensures melody == ChordMelody(chord)
  {
    var buf := new real[CellSamples](_ => 0.0);
    assert buf[..] == Zeros(CellSamples);
    var i := 0;
    while i < ChordHits
      invariant 0 <= i <= ChordHits
      invariant buf[..] == PlacedHits(i, chord)
    {
      AddClipped(buf, HitStart(i), chord(i));
      i := i + 1;
    }
    melody := buf[..];
  }
}
