// The ADSR tone of the sonifier (`generate_adsr_sine_wave`): how the four
// phase lengths are derived from the sample rate and adjusted when the tone is
// too short for them, and how the envelope is written slice by slice into a
// zeroed buffer. The sine samples themselves are an input (`tone`).
module SynthesisEnvelope {
  import opened Wrappers
  import opened Numeric
  import opened NumpyArrays

  /** Attack, decay, sustain and release lengths, in samples. */
  datatype PhaseCounts = PhaseCounts(attack: int, decay: int, sustain: int, release: int)

  /** The four phases are non-negative and together fill `total` samples exactly. */
  predicate Tiles(c: PhaseCounts, total: int) {
    c.attack >= 0 && c.decay >= 0 && c.sustain >= 0 && c.release >= 0 &&
    c.attack + c.decay + c.sustain + c.release == total
  }

  /**
   * The phase lengths after the source's adjustment: when the phases overrun
   * the tone the sustain is dropped and the release shortened, and when even
   * attack plus decay overrun it the tone is split in half between them.
   */
  function AdsrCounts(total: int, sampleRate: real, attack: real, decay: real, release: real): PhaseCounts
  {
    var a := Trunc(attack * sampleRate);
    var d := Trunc(decay * sampleRate);
    var r := Trunc(release * sampleRate);
    var s := total - a - d - r;
    if s >= 0 then PhaseCounts(a, d, s, r)
    else if a + d > total then
      var half := Trunc(total as real * 0.5);
      PhaseCounts(half, total - half, 0, 0)
    else PhaseCounts(a, d, 0, MaxInt(0, total - a - d))
  }

  lemma NonnegProduct(x: real, y: real)
    requires x >= 0.0 && y >= 0.0
    ensures Trunc(x * y) >= 0
  {
    MulNonneg(x, y);
  }

  /** After the adjustment the four phases always tile the tone. */
  lemma AdsrCountsTile(total: nat, sampleRate: real, attack: real, decay: real, release: real)
    requires sampleRate >= 0.0 && attack >= 0.0 && decay >= 0.0 && release >= 0.0
    ensures Tiles(AdsrCounts(total, sampleRate, attack, decay, release), total)
  {
    NonnegProduct(attack, sampleRate);
    NonnegProduct(decay, sampleRate);
    NonnegProduct(release, sampleRate);
    assert Trunc(total as real * 0.5) <= total;
  }

  /** Line 421-422: the attack ramp, or a single 1.0 when there is no attack. */
  function AttackStep(e: seq<real>, c: PhaseCounts): (r: Option<seq<real>>)
    ensures r.Some? ==> |r.value| == |e|
  {
    if c.attack > 0 then SetSlice(e, 0, c.attack, Linspace(0.0, 1.0, c.attack as nat))
    else Some(FillSlice(e, 0, 1, 1.0))
  }

  /** Line 424-425: the decay ramp, or one sample at the sustain level when there is no decay. */
  function DecayStep(e: seq<real>, c: PhaseCounts, sustain: real): (r: Option<seq<real>>)
    ensures r.Some? ==> |r.value| == |e|
  {
    if c.decay > 0 then SetSlice(e, c.attack, c.attack + c.decay, Linspace(1.0, sustain, c.decay as nat))
    else Some(FillSlice(e, c.attack, MinInt(c.attack + 1, |e|), sustain))
  }

  /** Line 427: the sustain plateau. */
  function SustainStep(e: seq<real>, c: PhaseCounts, sustain: real): (r: seq<real>)
    ensures |r| == |e|
  {
    FillSlice(e, c.attack + c.decay, c.attack + c.decay + c.sustain, sustain)
  }

  /** Line 429-430: the release ramp over the last samples, or a final 0.0 when there is no release. */
  function ReleaseStep(e: seq<real>, c: PhaseCounts, sustain: real): (r: Option<seq<real>>)
    ensures r.Some? ==> |r.value| == |e|
  {
    if c.release > 0 then SetSlice(e, |e| - c.release, |e|, Linspace(sustain, 0.0, c.release as nat))
    else Some(FillSlice(e, -1, |e|, 0.0))
  }

  /**
   * The envelope of lines 420-430, step by step, starting from a zeroed
   * buffer. None where numpy would refuse one of the slice assignments.
   */
  function AdsrEnvelope(total: nat, c: PhaseCounts, sustain: real): (r: Option<seq<real>>)
    ensures r.Some? ==> |r.value| == total
  {
    var e1 :- AttackStep(Zeros(total), c);
    var e2 :- DecayStep(e1, c, sustain);
    ReleaseStep(SustainStep(e2, c, sustain), c, sustain)
  }

  /** What the envelope holds at sample `k` when the phases tile the tone. */
  function AdsrShape(total: nat, c: PhaseCounts, sustain: real, k: nat): real
    requires Tiles(c, total) && k < total
  {
    if c.release == 0 && k == total - 1 then 0.0
    else if k < c.attack then Linspace(0.0, 1.0, c.attack as nat)[k]
    else if k < c.attack + c.decay then Linspace(1.0, sustain, c.decay as nat)[k - c.attack]
    else if k < c.attack + c.decay + c.sustain then sustain
    else Linspace(sustain, 0.0, c.release as nat)[k - (total - c.release)]
  }

  /** The attack step writes its ramp over `[0, attack)`, or a 1.0 at sample 0 when there is no attack. */
  lemma AttackStepAt(e: seq<real>, c: PhaseCounts)
    requires Tiles(c, |e|)
    ensures AttackStep(e, c).Some?
    ensures forall k :: 0 <= k < |e| ==>
      AttackStep(e, c).value[k] ==
        (if k < c.attack then Linspace(0.0, 1.0, c.attack as nat)[k] else if k == 0 then 1.0 else e[k])
  {
  }

  /** The decay step writes its ramp over `[attack, attack + decay)`, or the sustain level at sample `attack`. */
  lemma DecayStepAt(e: seq<real>, c: PhaseCounts, sustain: real)
    requires Tiles(c, |e|)
    ensures DecayStep(e, c, sustain).Some?
    ensures forall k :: 0 <= k < |e| ==>
      DecayStep(e, c, sustain).value[k] ==
        (if c.attack <= k < c.attack + c.decay then Linspace(1.0, sustain, c.decay as nat)[k - c.attack]
         else if c.decay == 0 && k == c.attack then sustain
         else e[k])
  {
  }

  /** The sustain step writes the plateau over its own range and nothing else. */
  lemma SustainStepAt(e: seq<real>, c: PhaseCounts, sustain: real)
    requires Tiles(c, |e|)
    ensures forall k :: 0 <= k < |e| ==>
      SustainStep(e, c, sustain)[k] ==
        (if c.attack + c.decay <= k < c.attack + c.decay + c.sustain then sustain else e[k])
  {
  }

  /** The release step writes its ramp over the last `release` samples, or a 0.0 at the last sample. */
  lemma ReleaseStepAt(e: seq<real>, c: PhaseCounts, sustain: real)
    requires Tiles(c, |e|)
    ensures ReleaseStep(e, c, sustain).Some?
    ensures forall k :: 0 <= k < |e| ==>
      ReleaseStep(e, c, sustain).value[k] ==
        (if |e| - c.release <= k then Linspace(sustain, 0.0, c.release as nat)[k - (|e| - c.release)]
         else if c.release == 0 && k == |e| - 1 then 0.0
         else e[k])
  {
  }

  /**
   * When the phases tile the tone every slice assignment succeeds and the
   * envelope is the attack ramp, then the decay ramp, then the plateau, then
   * the release ramp (a zero-length release still zeroes the last sample).
   */
  lemma AdsrEnvelopeShape(total: nat, c: PhaseCounts, sustain: real)
    requires Tiles(c, total)
    ensures AdsrEnvelope(total, c, sustain).Some?
    ensures |AdsrEnvelope(total, c, sustain).value| == total
    ensures forall k :: 0 <= k < total ==> AdsrEnvelope(total, c, sustain).value[k] == AdsrShape(total, c, sustain, k)
  {
    var z := Zeros(total);
    AttackStepAt(z, c);
    var e1 := AttackStep(z, c).value;
    DecayStepAt(e1, c, sustain);
    var e2 := DecayStep(e1, c, sustain).value;
    SustainStepAt(e2, c, sustain);
    var e3 := SustainStep(e2, c, sustain);
    ReleaseStepAt(e3, c, sustain);
    var e4 := ReleaseStep(e3, c, sustain).value;
    assert AdsrEnvelope(total, c, sustain) == Some(e4);
    if c.decay == 0 && c.attack < total {
      assert c.sustain > 0 || c.release > 0;
      if c.sustain == 0 {
        LinspaceEnds(sustain, 0.0, c.release as nat);
      }
    }
  }

  /**
   * The last envelope sample is 0 unless the release is exactly one sample
   * long: `np.linspace(sustain, 0, 1)` is `[sustain]`, so then the tone ends
   * on the sustain level.
   */
  lemma AdsrLastSample(total: nat, c: PhaseCounts, sustain: real)
    requires Tiles(c, total) && total > 0
    ensures AdsrEnvelope(total, c, sustain).Some?
    ensures AdsrEnvelope(total, c, sustain).value[total - 1] == if c.release == 1 then sustain else 0.0
  {
    AdsrEnvelopeShape(total, c, sustain);
    if c.release >= 1 {
      LinspaceEnds(sustain, 0.0, c.release as nat);
    }
  }

  /** With a sustain level in [0, 1] every envelope sample lies in [0, 1]. */
  lemma AdsrEnvelopeRange(total: nat, c: PhaseCounts, sustain: real)
    requires Tiles(c, total) && 0.0 <= sustain <= 1.0
    ensures AdsrEnvelope(total, c, sustain).Some?
    ensures forall k :: 0 <= k < total ==> 0.0 <= AdsrEnvelope(total, c, sustain).value[k] <= 1.0
  {
    AdsrEnvelopeShape(total, c, sustain);
    forall k | 0 <= k < total
      ensures 0.0 <= AdsrShape(total, c, sustain, k) <= 1.0
    {
      if c.release == 0 && k == total - 1 {
      } else if k < c.attack {
        LinspaceWithin(0.0, 1.0, c.attack as nat, k);
      } else if k < c.attack + c.decay {
        LinspaceWithin(1.0, sustain, c.decay as nat, k - c.attack);
      } else if k < c.attack + c.decay + c.sustain {
      } else {
        LinspaceWithin(sustain, 0.0, c.release as nat, k - (total - c.release));
      }
    }
  }

  /**
   * `generate_adsr_sine_wave`: `int(sample_rate * duration)` samples of the
   * tone, shaped by the envelope. None where numpy raises (a negative sample
   * count, or a slice assignment it refuses).
   */
  function AdsrSineWave(tone: nat -> real, duration: real, sampleRate: real,
                        attack: real, decay: real, sustain: real, release: real): Option<seq<real>>
  {
    var total := Trunc(sampleRate * duration);
    if total < 0 then None
    else
      var env :- AdsrEnvelope(total, AdsrCounts(total, sampleRate, attack, decay, release), sustain);
      Some(Times(seq(total, k requires 0 <= k < total => tone(k)), env))
  }

  /** For non-negative parameters the tone has exactly `int(sample_rate * duration)` samples. */
  lemma AdsrSineWaveLength(tone: nat -> real, duration: real, sampleRate: real,
                           attack: real, decay: real, sustain: real, release: real)
    requires sampleRate >= 0.0 && duration >= 0.0 && attack >= 0.0 && decay >= 0.0 && release >= 0.0
    ensures AdsrSineWave(tone, duration, sampleRate, attack, decay, sustain, release).Some?
    ensures |AdsrSineWave(tone, duration, sampleRate, attack, decay, sustain, release).value| == Trunc(sampleRate * duration)
  {
    NonnegProduct(sampleRate, duration);
    var total := Trunc(sampleRate * duration);
    AdsrCountsTile(total, sampleRate, attack, decay, release);
    AdsrEnvelopeShape(total, AdsrCounts(total, sampleRate, attack, decay, release), sustain);
  }

  /** Lines 421-425: the attack and decay slice assignments, stopping at the first one numpy refuses. */
  method WriteAttackDecay(envelope: array<real>, c: PhaseCounts, sustain: real) returns (ok: bool)
    modifies envelope
    ensures var e1 := AttackStep(old(envelope[..]), c);
      ok <==> e1.Some? && DecayStep(e1.value, c, sustain).Some?
    ensures ok ==> envelope[..] == DecayStep(AttackStep(old(envelope[..]), c).value, c, sustain).value
  {
    ghost var e0 := envelope[..];
    if c.attack > 0 {
      ok := AssignSlice(envelope, 0, c.attack, Linspace(0.0, 1.0, c.attack as nat));
    } else {
      ok := AssignSlice(envelope, 0, 1, [1.0]);
    }
    assert ok == AttackStep(e0, c).Some?;
    if !ok {
      return;
    }
    ghost var e1 := envelope[..];
    assert e1 == AttackStep(e0, c).value;
    if c.decay > 0 {
      ok := AssignSlice(envelope, c.attack, c.attack + c.decay, Linspace(1.0, sustain, c.decay as nat));
    } else {
      ok := AssignSlice(envelope, c.attack, MinInt(c.attack + 1, envelope.Length), [sustain]);
    }
    assert ok == DecayStep(e1, c, sustain).Some?;
  }

  /** Lines 427-430: the sustain plateau, then the release ramp. */
  method WriteSustainRelease(envelope: array<real>, c: PhaseCounts, sustain: real) returns (ok: bool)
    modifies envelope
    ensures ok == ReleaseStep(SustainStep(old(envelope[..]), c, sustain), c, sustain).Some?
    ensures ok ==> envelope[..] == ReleaseStep(SustainStep(old(envelope[..]), c, sustain), c, sustain).value
  {
    ghost var e2 := envelope[..];
    ok := AssignSlice(envelope, c.attack + c.decay, c.attack + c.decay + c.sustain, [sustain]);
    ghost var e3 := envelope[..];
    assert e3 == SustainStep(e2, c, sustain);
    if c.release > 0 {
      ok := AssignSlice(envelope, envelope.Length - c.release, envelope.Length, Linspace(sustain, 0.0, c.release as nat));
    } else {
      ok := AssignSlice(envelope, -1, envelope.Length, [0.0]);
    }
    assert ok == ReleaseStep(e3, c, sustain).Some?;
  }

  /**
   * Lines 418-430 as the source runs them: a zeroed numpy buffer and the four
   * phase slice assignments in order.
   */
  method WriteEnvelope(total: nat, c: PhaseCounts, sustain: real) returns (env: Option<seq<real>>)
    ensures env == AdsrEnvelope(total, c, sustain)
  {
    var envelope := new real[total](_ => 0.0);
    assert envelope[..] == Zeros(total);
    var ok := WriteAttackDecay(envelope, c, sustain);
    if !ok {
      return None;
    }
    ok := WriteSustainRelease(envelope, c, sustain);
    if !ok {
      return None;
    }
    env := Some(envelope[..]);
  }

  /** `generate_adsr_sine_wave` as the source runs it: the sample count, the phase lengths, the envelope, the product. */
  method GenerateAdsrSineWave(tone: nat -> real, duration: real, sampleRate: real,
                              attack: real, decay: real, sustain: real, release: real)
    returns (wave: Option<seq<real>>)
    ensures wave == AdsrSineWave(tone, duration, sampleRate, attack, decay, sustain, release)
  {
    var total := Trunc(sampleRate * duration);
    if total < 0 {
      return None;
    }
    var c := AdsrCounts(total, sampleRate, attack, decay, release);
    var env := WriteEnvelope(total, c, sustain);
    if env.None? {
      return None;
    }
    wave := Some(Times(seq(total, k requires 0 <= k < total => tone(k)), env.value));
  }
}
