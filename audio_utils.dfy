// The standalone audio helpers (utils/audio_utils.py): a sine tone of
// `int(sr * duration)` samples, an ADSR envelope written into a buffer of
// ones by four numpy slice assignments, peak normalization with a tiny
// guard added to the divisor, and the target length of a resampling. The
// sine function itself, the file writer and scipy's resampler are not
// modelled; the tone's waveform is a parameter.
module AudioUtils {
  import opened Wrappers
  import opened Numeric
  import opened NumpyArrays
  import Normalization

  /** The `1e-10` added to divisors to avoid dividing by zero. */
  const Epsilon: real := 0.0000000001

  // ---------------------------------------------------------------------
  // generate_sine

  /** `np.linspace(0, duration, num, endpoint=False)`: `num` steps of `duration / num` from 0. */
  function SampleTimes(duration: real, num: nat): (t: seq<real>)
    ensures |t| == num
  {
    seq(num, k requires 0 <= k < num => k as real * duration / num as real)
  }

  lemma SampleTimeAt(duration: real, n: real, k: real)
    requires 0.0 <= k < n && duration > 0.0
    ensures 0.0 <= k * duration / n < duration
  {
    if k > 0.0 {
      RatioBelowOne(k, n);
      var t := k / n;
      assert k * duration / n == t * duration;
      MulPos(1.0 - t, duration);
      MulNonneg(t, duration);
    }
  }

  lemma SampleTimeStep(duration: real, n: real, k: real)
    requires n > 0.0
    ensures (k + 1.0) * duration / n - k * duration / n == duration / n
  {
    assert (k + 1.0) * duration == k * duration + duration;
  }

  /** The sample times start at 0 and stop short of `duration`: the endpoint is excluded. */
  lemma SampleTimesWithin(duration: real, num: nat)
    requires duration > 0.0
    ensures forall k :: 0 <= k < num ==> 0.0 <= SampleTimes(duration, num)[k] < duration
  {
    var t := SampleTimes(duration, num);
    forall k | 0 <= k < num
      ensures 0.0 <= t[k] < duration
    {
      SampleTimeAt(duration, num as real, k as real);
    }
  }

  /** Consecutive sample times are `duration / num` apart. */
  lemma SampleTimesEvenlySpaced(duration: real, num: nat)
    ensures forall k :: 0 <= k < num - 1 ==>
      SampleTimes(duration, num)[k + 1] - SampleTimes(duration, num)[k] == duration / num as real
  {
    var t := SampleTimes(duration, num);
    forall k | 0 <= k < num - 1
      ensures t[k + 1] - t[k] == duration / num as real
    {
      SampleTimeStep(duration, num as real, k as real);
    }
  }

  /**
   * Lines 8-10: `int(sr * duration)` samples of `wave` taken at the sample
   * times, where `wave(t)` stands for `sin(2 * pi * freq * t)`. None where
   * numpy raises on a negative sample count.
   */
  function GenerateSine(wave: real -> real, duration: real, sr: real): (r: Option<seq<real>>)
    ensures r.None? <==> Trunc(sr * duration) < 0
    ensures r.Some? ==> |r.value| == Trunc(sr * duration)
    ensures r.Some? ==> forall k :: 0 <= k < |r.value| ==>
      r.value[k] == wave(SampleTimes(duration, |r.value|)[k])
  {
    var n := Trunc(sr * duration);
    if n < 0 then None
    else
      var t := SampleTimes(duration, n);
      Some(seq(n, k requires 0 <= k < n => wave(t[k])))
  }

  /** For a non-negative rate and duration the tone always exists and has `int(sr * duration)` samples. */
  lemma GenerateSineLength(wave: real -> real, duration: real, sr: real)
    requires sr >= 0.0 && duration >= 0.0
    ensures GenerateSine(wave, duration, sr).Some?
    ensures |GenerateSine(wave, duration, sr).value| == Trunc(sr * duration)
  {
    MulNonneg(sr, duration);
  }

  // ---------------------------------------------------------------------
  // adsr_envelope

  /** `a`, `d` and `r` of lines 15-17: the attack, decay and release lengths in samples. */
  datatype AdsrLengths = AdsrLengths(attack: int, decay: int, release: int)

  function Lengths(sr: real, attack: real, decay: real, release: real): AdsrLengths {
    AdsrLengths(Trunc(sr * attack), Trunc(sr * decay), Trunc(sr * release))
  }

  /** `s` of line 18: what is left of the signal for the sustain plateau. */
  function SustainLength(total: nat, l: AdsrLengths): int {
    total - (l.attack + l.decay + l.release)
  }

  /** The three ramps are non-negative and fit in the signal together. */
  predicate Fits(l: AdsrLengths, total: nat) {
    l.attack >= 0 && l.decay >= 0 && l.release >= 0 && l.attack + l.decay + l.release <= total
  }

  /** Line 19: `env[:a] = np.linspace(0, 1, a)`; a negative `a` makes linspace raise. */
  function AttackStep(e: seq<real>, l: AdsrLengths): (r: Option<seq<real>>)
    ensures r.Some? ==> |r.value| == |e|
  {
    if l.attack < 0 then None else SetSlice(e, 0, l.attack, Linspace(0.0, 1.0, l.attack as nat))
  }

  /** Line 20: `env[a:a+d] = np.linspace(1, sustain, d)`. */
  function DecayStep(e: seq<real>, l: AdsrLengths, sustain: real): (r: Option<seq<real>>)
    ensures r.Some? ==> |r.value| == |e|
  {
    if l.decay < 0 then None
    else SetSlice(e, l.attack, l.attack + l.decay, Linspace(1.0, sustain, l.decay as nat))
  }

  /** Line 21: `env[a+d:a+d+s] = sustain`, a scalar, which numpy always accepts. */
  function SustainStep(e: seq<real>, l: AdsrLengths, sustain: real): (r: seq<real>)
    ensures |r| == |e|
  {
    FillSlice(e, l.attack + l.decay, l.attack + l.decay + SustainLength(|e|, l), sustain)
  }

  /**
   * Line 22 as written: `env[-r:] = np.linspace(sustain, 0, r)`. With `r == 0`
   * the slice `env[-0:]` is the whole buffer, so the empty ramp is refused
   * unless the buffer is empty.
   */
  function ReleaseStepAsWritten(e: seq<real>, l: AdsrLengths, sustain: real): (r: Option<seq<real>>)
    ensures r.Some? ==> |r.value| == |e|
  {
    if l.release < 0 then None
    else SetSlice(e, -l.release, |e|, Linspace(sustain, 0.0, l.release as nat))
  }

  /** Line 22 as evidently intended: no release ramp at all when `r == 0`. */
  function ReleaseStep(e: seq<real>, l: AdsrLengths, sustain: real): (r: Option<seq<real>>)
    ensures r.Some? ==> |r.value| == |e|
    ensures l.release == 0 ==> r == Some(e)
    ensures l.release != 0 ==> r == ReleaseStepAsWritten(e, l, sustain)
  {
    if l.release == 0 then Some(e) else ReleaseStepAsWritten(e, l, sustain)
  }

  /** Lines 14-22 as written: the envelope, or None where numpy raises. */
  function EnvelopeAsWritten(total: nat, l: AdsrLengths, sustain: real): (r: Option<seq<real>>)
    ensures r.Some? ==> |r.value| == total
  {
    var e1 :- AttackStep(Ones(total), l);
    var e2 :- DecayStep(e1, l, sustain);
    ReleaseStepAsWritten(SustainStep(e2, l, sustain), l, sustain)
  }

  /** Lines 14-22 with the release step corrected. */
  function Envelope(total: nat, l: AdsrLengths, sustain: real): (r: Option<seq<real>>)
    ensures r.Some? ==> |r.value| == total
  {
    var e1 :- AttackStep(Ones(total), l);
    var e2 :- DecayStep(e1, l, sustain);
    ReleaseStep(SustainStep(e2, l, sustain), l, sustain)
  }

  /** `adsr_envelope` as written: the signal times the envelope, as long as the signal. */
  function AdsrEnvelopeAsWritten(signal: seq<real>, sr: real, attack: real, decay: real,
                                 sustain: real, release: real): (r: Option<seq<real>>)
    ensures r.Some? ==> |r.value| == |signal|
  {
    var env :- EnvelopeAsWritten(|signal|, Lengths(sr, attack, decay, release), sustain);
    Some(Times(signal, env))
  }

  /** `adsr_envelope` with the release step corrected. */
  function AdsrEnvelope(signal: seq<real>, sr: real, attack: real, decay: real,
                        sustain: real, release: real): (r: Option<seq<real>>)
    ensures r.Some? ==> |r.value| == |signal|
  {
    var env :- Envelope(|signal|, Lengths(sr, attack, decay, release), sustain);
    Some(Times(signal, env))
  }

  /** Whenever a release ramp is asked for, the two definitions agree. */
  lemma AsWrittenAgreesWithRelease(signal: seq<real>, sr: real, attack: real, decay: real,
                                   sustain: real, release: real)
    requires Lengths(sr, attack, decay, release).release != 0
    ensures AdsrEnvelopeAsWritten(signal, sr, attack, decay, sustain, release) ==
      AdsrEnvelope(signal, sr, attack, decay, sustain, release)
  {
  }

  /** What the envelope holds at sample `k` when the ramps fit: attack, decay, plateau, release. */
  function EnvelopeShape(total: nat, l: AdsrLengths, sustain: real, k: nat): real
    requires Fits(l, total) && k < total
  {
    if k < l.attack then Linspace(0.0, 1.0, l.attack as nat)[k]
    else if k < l.attack + l.decay then Linspace(1.0, sustain, l.decay as nat)[k - l.attack]
    else if k < total - l.release then sustain
    else Linspace(sustain, 0.0, l.release as nat)[k - (total - l.release)]
  }

  lemma AttackStepAt(e: seq<real>, l: AdsrLengths)
    requires Fits(l, |e|)
    ensures AttackStep(e, l).Some?
    ensures forall k :: 0 <= k < |e| ==>
      AttackStep(e, l).value[k] == (if k < l.attack then Linspace(0.0, 1.0, l.attack as nat)[k] else e[k])
  {
  }

  lemma DecayStepAt(e: seq<real>, l: AdsrLengths, sustain: real)
    requires Fits(l, |e|)
    ensures DecayStep(e, l, sustain).Some?
    ensures forall k :: 0 <= k < |e| ==>
      DecayStep(e, l, sustain).value[k] ==
        (if l.attack <= k < l.attack + l.decay then Linspace(1.0, sustain, l.decay as nat)[k - l.attack] else e[k])
  {
  }

  lemma SustainStepAt(e: seq<real>, l: AdsrLengths, sustain: real)
    requires Fits(l, |e|)
    ensures forall k :: 0 <= k < |e| ==>
      SustainStep(e, l, sustain)[k] == (if l.attack + l.decay <= k < |e| - l.release then sustain else e[k])
  {
  }

  lemma ReleaseStepAt(e: seq<real>, l: AdsrLengths, sustain: real)
    requires Fits(l, |e|)
    ensures ReleaseStep(e, l, sustain).Some?
    ensures forall k :: 0 <= k < |e| ==>
      ReleaseStep(e, l, sustain).value[k] ==
        (if |e| - l.release <= k then Linspace(sustain, 0.0, l.release as nat)[k - (|e| - l.release)] else e[k])
  {
  }

  /**
   * When the three ramps fit, every assignment succeeds and the slices
   * `[0, a)`, `[a, a+d)`, `[a+d, len-r)` and `[len-r, len)` partition the
   * buffer: no sample keeps the initial 1.0 from `np.ones`.
   */
  lemma EnvelopeIsShape(total: nat, l: AdsrLengths, sustain: real)
    requires Fits(l, total)
    ensures Envelope(total, l, sustain).Some?
    ensures forall k :: 0 <= k < total ==> Envelope(total, l, sustain).value[k] == EnvelopeShape(total, l, sustain, k)
  {
    var e0 := Ones(total);
    AttackStepAt(e0, l);
    var e1 := AttackStep(e0, l).value;
    DecayStepAt(e1, l, sustain);
    var e2 := DecayStep(e1, l, sustain).value;
    SustainStepAt(e2, l, sustain);
    var e3 := SustainStep(e2, l, sustain);
    ReleaseStepAt(e3, l, sustain);
    assert Envelope(total, l, sustain) == ReleaseStep(e3, l, sustain);
  }

  /** The shaped signal: each sample of the input times the envelope at that position. */
  lemma AdsrEnvelopeShape(signal: seq<real>, sr: real, attack: real, decay: real, sustain: real, release: real)
    requires Fits(Lengths(sr, attack, decay, release), |signal|)
    ensures AdsrEnvelope(signal, sr, attack, decay, sustain, release).Some?
    ensures forall k :: 0 <= k < |signal| ==>
      AdsrEnvelope(signal, sr, attack, decay, sustain, release).value[k] ==
        signal[k] * EnvelopeShape(|signal|, Lengths(sr, attack, decay, release), sustain, k)
  {
    var l := Lengths(sr, attack, decay, release);
    EnvelopeIsShape(|signal|, l, sustain);
    var env := Envelope(|signal|, l, sustain).value;
    var out := Times(signal, env);
    assert AdsrEnvelope(signal, sr, attack, decay, sustain, release) == Some(out);
    forall k | 0 <= k < |signal|
      ensures out[k] == signal[k] * EnvelopeShape(|signal|, l, sustain, k)
    {
      assert env[k] == EnvelopeShape(|signal|, l, sustain, k);
    }
  }

  /** With a sustain level in [0, 1] every envelope value lies in [0, 1]. */
  lemma EnvelopeRange(total: nat, l: AdsrLengths, sustain: real)
    requires Fits(l, total) && 0.0 <= sustain <= 1.0
    ensures Envelope(total, l, sustain).Some?
    ensures forall k :: 0 <= k < total ==> 0.0 <= Envelope(total, l, sustain).value[k] <= 1.0
  {
    EnvelopeIsShape(total, l, sustain);
    forall k | 0 <= k < total
      ensures 0.0 <= EnvelopeShape(total, l, sustain, k) <= 1.0
    {
      if k < l.attack {
        LinspaceWithin(0.0, 1.0, l.attack as nat, k);
      } else if k < l.attack + l.decay {
        LinspaceWithin(1.0, sustain, l.decay as nat, k - l.attack);
      } else if k < total - l.release {
      } else {
        LinspaceWithin(sustain, 0.0, l.release as nat, k - (total - l.release));
      }
    }
  }

  /** The envelope ends at 0 when the release is two samples or longer. */
  lemma EnvelopeEndsSilent(total: nat, l: AdsrLengths, sustain: real)
    requires Fits(l, total) && l.release >= 2
    ensures Envelope(total, l, sustain).Some?
    ensures Envelope(total, l, sustain).value[total - 1] == 0.0
  {
    EnvelopeIsShape(total, l, sustain);
    LinspaceEnds(sustain, 0.0, l.release as nat);
  }

  /**
   * With no release samples the code as written raises for every non-empty
   * signal, even though the ramps fit; the corrected step gives the
   * attack-decay-plateau shape.
   */
  lemma ZeroReleaseRaises(total: nat, l: AdsrLengths, sustain: real)
    requires Fits(l, total) && l.release == 0 && total > 0
    ensures EnvelopeAsWritten(total, l, sustain).None?
    ensures Envelope(total, l, sustain).Some?
  {
    var e0 := Ones(total);
    AttackStepAt(e0, l);
    var e1 := AttackStep(e0, l).value;
    DecayStepAt(e1, l, sustain);
    var e3 := SustainStep(DecayStep(e1, l, sustain).value, l, sustain);
    assert SliceSpan(total, 0, total) == Span(0, total);
    assert ReleaseStepAsWritten(e3, l, sustain).None?;
    EnvelopeIsShape(total, l, sustain);
  }

  /** One concrete call: a second at 44100 Hz with `release=0` raises as written. */
  lemma ZeroReleaseExample(signal: seq<real>)
    requires |signal| == 44100
    ensures AdsrEnvelopeAsWritten(signal, 44100.0, 0.01, 0.1, 0.7, 0.0).None?
    ensures AdsrEnvelope(signal, 44100.0, 0.01, 0.1, 0.7, 0.0).Some?
  {
    assert 44100.0 * 0.01 == 441.0;
    assert 44100.0 * 0.1 == 4410.0;
    assert 44100.0 * 0.0 == 0.0;
    var l := Lengths(44100.0, 0.01, 0.1, 0.0);
    assert l == AdsrLengths(441, 4410, 0);
    ZeroReleaseRaises(44100, l, 0.7);
  }

  /**
   * Lines 12-23 as the source runs them: a buffer of ones, the four slice
   * assignments in order, then the product with the signal.
   */
  method ApplyAdsrEnvelope(signal: seq<real>, sr: real, attack: real, decay: real, sustain: real, release: real)
    returns (out: Option<seq<real>>)
    ensures out == AdsrEnvelopeAsWritten(signal, sr, attack, decay, sustain, release)
  {
    var totalLen := |signal|;
    var env := new real[totalLen](_ => 1.0);
    assert env[..] == Ones(totalLen);
    var a := Trunc(sr * attack);
    var d := Trunc(sr * decay);
    var r := Trunc(sr * release);
    var s := totalLen - (a + d + r);
    ghost var l := AdsrLengths(a, d, r);
    ghost var e0 := env[..];
    if a < 0 {
      return None;
    }
    var ok := AssignSlice(env, 0, a, Linspace(0.0, 1.0, a as nat));
    if !ok {
      return None;
    }
    ghost var e1 := env[..];
    assert e1 == AttackStep(e0, l).value;
    if d < 0 {
      return None;
    }
    ok := AssignSlice(env, a, a + d, Linspace(1.0, sustain, d as nat));
    if !ok {
      return None;
    }
    ghost var e2 := env[..];
    assert e2 == DecayStep(e1, l, sustain).value;
    ok := AssignSlice(env, a + d, a + d + s, [sustain]);
    ghost var e3 := env[..];
    assert e3 == SustainStep(e2, l, sustain);
    if r < 0 {
      return None;
    }
    ok := AssignSlice(env, -r, totalLen, Linspace(sustain, 0.0, r as nat));
    if !ok {
      return None;
    }
    assert env[..] == ReleaseStepAsWritten(e3, l, sustain).value;
    out := Some(Times(signal, env[..]));
  }

  // ---------------------------------------------------------------------
  // normalize_audio

  /** Lines 25-26: every sample divided by the peak plus `1e-10`; `np.max` of an empty array raises. */
  function NormalizeAudio(signal: seq<real>): (r: Option<seq<real>>)
    ensures r.None? <==> |signal| == 0
    ensures r.Some? ==> |r.value| == |signal|
  {
    if |signal| == 0 then None
    else
      var divisor := Normalization.MaxAbs(signal) + Epsilon;
      Some(seq(|signal|, k requires 0 <= k < |signal| => signal[k] / divisor))
  }

  lemma DivBelowOne(x: real, m: real, c: real)
    requires Abs(x) <= m && c > m
    ensures Abs(x / c) < 1.0
  {
    if x != 0.0 {
      RatioBelowOne(Abs(x), c);
      assert Abs(x / c) == Abs(x) / c;
    }
  }

  /** Every normalized sample has magnitude strictly below 1. */
  lemma NormalizedBelowOne(signal: seq<real>)
    requires |signal| > 0
    ensures forall k :: 0 <= k < |signal| ==> Abs(NormalizeAudio(signal).value[k]) < 1.0
  {
    var m := Normalization.MaxAbs(signal);
    Normalization.MaxAbsIsMax(signal);
    forall k | 0 <= k < |signal|
      ensures Abs(NormalizeAudio(signal).value[k]) < 1.0
    {
      DivBelowOne(signal[k], m, m + Epsilon);
    }
  }

  lemma DivKeepsOrder(x: real, y: real, c: real)
    requires c > 0.0
    ensures x < y <==> x / c < y / c
    ensures x >= 0.0 <==> x / c >= 0.0
  {
    var p, q := x / c, y / c;
    assert p * c == x && q * c == y;
    if p < q {
      MulPos(q - p, c);
    } else {
      MulNonneg(p - q, c);
    }
    if p >= 0.0 {
      MulNonneg(p, c);
    } else {
      MulPos(-p, c);
    }
  }

  /** The divisor is positive, so signs and the order of any two samples are kept. */
  lemma NormalizeAudioKeepsOrder(signal: seq<real>)
    requires |signal| > 0
    ensures var out := NormalizeAudio(signal).value;
      forall i, j :: 0 <= i < |signal| && 0 <= j < |signal| ==>
        (signal[i] < signal[j] <==> out[i] < out[j]) && (signal[i] >= 0.0 <==> out[i] >= 0.0)
  {
    var c := Normalization.MaxAbs(signal) + Epsilon;
    forall i, j | 0 <= i < |signal| && 0 <= j < |signal|
      ensures (signal[i] < signal[j] <==> NormalizeAudio(signal).value[i] < NormalizeAudio(signal).value[j]) &&
        (signal[i] >= 0.0 <==> NormalizeAudio(signal).value[i] >= 0.0)
    {
      DivKeepsOrder(signal[i], signal[j], c);
    }
  }

  // ---------------------------------------------------------------------
  // resample_audio

  /**
   * Line 33: `int(len(audio) * target_sr / orig_sr)`; a zero original rate
   * raises ZeroDivisionError.
   */
  function ResampledLength(len: nat, origSr: int, targetSr: int): (n: Option<int>)
    ensures n.None? <==> origSr == 0
  {
    if origSr == 0 then None else Some(Trunc((len * targetSr) as real / origSr as real))
  }

  /** Resampling to the same rate keeps the length. */
  lemma ResampleSameRate(len: nat, sr: int)
    requires sr != 0
    ensures ResampledLength(len, sr, sr) == Some(len)
  {
    assert (len * sr) as real / sr as real == len as real;
  }

  /** `len` samples at `orig_sr` become `int(len * target_sr / orig_sr)` samples, never more when down-sampling. */
  lemma ResampleDown(len: nat, origSr: int, targetSr: int)
    requires 0 <= targetSr <= origSr && origSr > 0
    ensures ResampledLength(len, origSr, targetSr).Some?
    ensures 0 <= ResampledLength(len, origSr, targetSr).value <= len
  {
    var x := (len * targetSr) as real / origSr as real;
    MulMonotone(targetSr, origSr, len);
    assert len * targetSr <= len * origSr;
    assert (len * origSr) as real == len as real * origSr as real;
    QuotientWithin((len * targetSr) as real, origSr as real, 0.0, len as real);
  }

  /** One second of audio at the original rate becomes one second at the target rate. */
  lemma ResampleOneSecond(origSr: int, targetSr: int)
    requires origSr > 0
    ensures ResampledLength(origSr, origSr, targetSr) == Some(targetSr)
  {
    assert (origSr * targetSr) as real / origSr as real == targetSr as real;
  }
}
