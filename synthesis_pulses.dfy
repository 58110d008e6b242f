// The two click-track generators of the sonifier (`generate_pulse` and
// `generate_rich_pulse`). Both size a zeroed buffer from the duration, decide
// from the tempo where each click starts and how long it lasts, and add each
// click into the buffer, clipping it at the end. The click samples themselves
// are an input: `click(d, j)` is sample `j` of a click that lasts `d` seconds.
module SynthesisPulses {
  import opened Wrappers
  import opened Numeric
  import opened NumpyArrays
  import opened SonifierConstants

  /** One click to be added: where it starts, how long it lasts in seconds, and its sample count. */
  datatype Click = Click(start: nat, seconds: real, len: nat)

  /** Every click starts inside (or exactly at the end of) a buffer of `n` samples. */
  predicate StartsWithin(plan: seq<Click>, n: int) {
    forall j :: 0 <= j < |plan| ==> plan[j].start <= n
  }

  /** The samples of one click. */
  function Segment(c: Click, click: (real, nat) -> real): (s: seq<real>)
    ensures |s| == c.len
  {
    seq(c.len, j requires 0 <= j < c.len => click(c.seconds, j))
  }

  /** The buffer after every click of `plan` has been added in order, each clipped at the end. */
  function Overlay(buf: seq<real>, plan: seq<Click>, click: (real, nat) -> real): (r: seq<real>)
    requires StartsWithin(plan, |buf|)
    ensures |r| == |buf|
    decreases |plan|
  {
    if plan == [] then buf
    else Overlay(AddedAt(buf, plan[0].start, Segment(plan[0], click)), plan[1..], click)
  }

  /** The sum of the click samples that fall on sample `k`. */
  function CoverAt(plan: seq<Click>, k: nat, click: (real, nat) -> real): real
    decreases |plan|
  {
    if plan == [] then 0.0
    else
      (if plan[0].start <= k < plan[0].start + plan[0].len then click(plan[0].seconds, k - plan[0].start) else 0.0)
      + CoverAt(plan[1..], k, click)
  }

  /**
   * Each sample of the overlaid buffer is its old value plus exactly the
   * click samples that land on it; a click's samples past the end of the
   * buffer are dropped.
   */
  lemma {:induction false} OverlayAt(buf: seq<real>, plan: seq<Click>, click: (real, nat) -> real, k: nat)
    requires StartsWithin(plan, |buf|) && k < |buf|
    ensures Overlay(buf, plan, click)[k] == buf[k] + CoverAt(plan, k, click)
    decreases |plan|
  {
    if plan != [] {
      var next := AddedAt(buf, plan[0].start, Segment(plan[0], click));
      OverlayAt(next, plan[1..], click, k);
    }
  }

  /** Overlaying a plan is adding its first click, then overlaying the rest. */
  lemma OverlayCons(buf: seq<real>, c: Click, rest: seq<Click>, click: (real, nat) -> real)
    requires c.start <= |buf| && StartsWithin(rest, |buf|)
    ensures StartsWithin([c] + rest, |buf|)
    ensures Overlay(buf, [c] + rest, click) == Overlay(AddedAt(buf, c.start, Segment(c, click)), rest, click)
  {
    assert ([c] + rest)[1..] == rest;
  }

  // ----- generate_rich_pulse -----

  /** Lines 666-667: the beat count, raised to one click for a short positive duration. */
  function RichClickCount(bpm: real, duration: real): (n: int)
    ensures duration > 0.0 && bpm > 0.0 ==> n >= 1
  {
    var beatsPerSecond := bpm / 60.0;
    var n := Trunc(duration * beatsPerSecond);
    if n == 0 && duration > 0.0 then 1
    else if duration > 0.0 && beatsPerSecond > 0.0 then MulNonneg(duration, beatsPerSecond); n
    else n
  }

  /**
   * `i * step`, written as a running sum so that the solver sees no product;
   * `MultipleIsProduct` shows the two agree.
   */
  function Multiple(i: nat, step: real): (r: real)
    requires step >= 0.0
    ensures r >= 0.0
  {
    if i == 0 then 0.0 else Multiple(i - 1, step) + step
  }

  /** The running sum is the product the source computes. */
  lemma {:induction false} MultipleIsProduct(i: nat, step: real)
    requires step >= 0.0
    ensures Multiple(i, step) == i as real * step
  {
    if i > 0 {
      MultipleIsProduct(i - 1, step);
    }
  }

  /**
   * Lines 669-694: the clicks from index `i` on; click `i` starts at
   * `i * between` seconds. The loop stops at the first click that would
   * start at or after the end, and a click is cut to what is left of the
   * duration (so the source's `continue` for a click of no length cannot fire).
   */
  function RichPlan(i: nat, n: int, duration: real, between: real): (plan: seq<Click>)
    requires between >= 0.0
    decreases n - i
  {
    var t := Multiple(i, between);
    if i >= n || t >= duration then []
    else
      var d := Min(0.05, duration - t);
      if d <= 0.0 then assert false; []
      else [Click(Trunc(t * SampleRate), d, Trunc(d * SampleRate))] + RichPlan(i + 1, n, duration, between)
  }

  /** Every click starts inside the buffer of `n` samples and lasts a positive time of at most `longest` seconds. */
  predicate ClicksWithin(plan: seq<Click>, n: int, longest: real) {
    forall j :: 0 <= j < |plan| ==> plan[j].start <= n && 0.0 < plan[j].seconds <= longest
  }

  lemma ClicksWithinCons(c: Click, rest: seq<Click>, n: int, longest: real)
    requires c.start <= n && 0.0 < c.seconds <= longest && ClicksWithin(rest, n, longest)
    ensures ClicksWithin([c] + rest, n, longest) && StartsWithin([c] + rest, n)
  {
  }

  /** Every planned click starts at or before the end of the pulse and lasts at most 0.05 s. */
  lemma {:induction false} RichPlanWithin(i: nat, n: int, duration: real, between: real)
    requires between >= 0.0
    ensures ClicksWithin(RichPlan(i, n, duration, between), Trunc(SampleRate * duration), 0.05)
    ensures StartsWithin(RichPlan(i, n, duration, between), Trunc(SampleRate * duration))
    decreases n - i
  {
    var t := Multiple(i, between);
    if i < n && t < duration {
      RichPlanWithin(i + 1, n, duration, between);
      TruncMonotone(t * SampleRate, SampleRate * duration);
      var d := Min(0.05, duration - t);
      ClicksWithinCons(Click(Trunc(t * SampleRate), d, Trunc(d * SampleRate)), RichPlan(i + 1, n, duration, between),
                       Trunc(SampleRate * duration), 0.05);
    }
  }

  /** The time between clicks, `1 / (bpm / 60)`. */
  function ClickSpacing(bpm: real): (s: real)
    requires bpm > 0.0
    ensures s > 0.0
  {
    1.0 / (bpm / 60.0)
  }

  /**
   * `generate_rich_pulse`: `int(sample_rate * duration)` samples, silent for a
   * non-positive tempo, else the planned clicks added to silence. None where
   * `np.zeros` refuses a negative size.
   */
  function RichPulse(bpm: real, duration: real, click: (real, nat) -> real): (r: Option<seq<real>>)
    ensures r.Some? <==> Trunc(SampleRate * duration) >= 0
    ensures r.Some? ==> |r.value| == Trunc(SampleRate * duration)
  {
    var total := Trunc(SampleRate * duration);
    if total < 0 then None
    else if bpm <= 0.0 then Some(Zeros(total))
    else
      var plan := RichPlan(0, RichClickCount(bpm, duration), duration, ClickSpacing(bpm));
      RichPlanWithin(0, RichClickCount(bpm, duration), duration, ClickSpacing(bpm));
      Some(Overlay(Zeros(total), plan, click))
  }

  /** A non-positive tempo gives all zeros. */
  lemma RichPulseSilent(bpm: real, duration: real, click: (real, nat) -> real)
    requires bpm <= 0.0 && Trunc(SampleRate * duration) >= 0
    ensures RichPulse(bpm, duration, click).Some?
    ensures forall k :: 0 <= k < |RichPulse(bpm, duration, click).value| ==> RichPulse(bpm, duration, click).value[k] == 0.0
  {
  }

  /**
   * With a positive tempo and duration the first click is always written: it
   * starts at sample 0 and lasts `min(0.05, duration)` seconds.
   */
  lemma RichPulseFirstClick(bpm: real, duration: real)
    requires bpm > 0.0 && duration > 0.0
    ensures var plan := RichPlan(0, RichClickCount(bpm, duration), duration, ClickSpacing(bpm));
      |plan| >= 1 && plan[0].start == 0 && plan[0].seconds == Min(0.05, duration)
  {
  }

  /**
   * Every sample of the rich pulse is the sum of the click samples that land
   * on it, so nothing is written past the last index.
   */
  lemma RichPulseAt(bpm: real, duration: real, click: (real, nat) -> real, k: nat)
    requires bpm > 0.0 && k < Trunc(SampleRate * duration)
    ensures RichPulse(bpm, duration, click).Some?
    ensures RichPulse(bpm, duration, click).value[k] ==
      CoverAt(RichPlan(0, RichClickCount(bpm, duration), duration, ClickSpacing(bpm)), k, click)
  {
    var total := Trunc(SampleRate * duration);
    var plan := RichPlan(0, RichClickCount(bpm, duration), duration, ClickSpacing(bpm));
    RichPlanWithin(0, RichClickCount(bpm, duration), duration, ClickSpacing(bpm));
    OverlayAt(Zeros(total), plan, click, k);
  }

  /** Lines 669-694: the click loop, adding each planned click into the buffer in turn. */
  method AddRichClicks(wave: array<real>, n: int, duration: real, between: real, click: (real, nat) -> real)
    requires between >= 0.0 && wave.Length == Trunc(SampleRate * duration)
    modifies wave
    ensures StartsWithin(RichPlan(0, n, duration, between), wave.Length)
    ensures wave[..] == Overlay(old(wave[..]), RichPlan(0, n, duration, between), click)
  {
    ghost var whole := RichPlan(0, n, duration, between);
    RichPlanWithin(0, n, duration, between);
    ghost var before := wave[..];
    var i := 0;
    while i < n
      invariant StartsWithin(RichPlan(i, n, duration, between), wave.Length)
      invariant Overlay(wave[..], RichPlan(i, n, duration, between), click) == Overlay(before, whole, click)
      decreases n - i
    {
      var startTime := Multiple(i, between);
      if startTime >= duration {
        break;
      }
      var seconds := Min(0.05, duration - startTime);
      if seconds <= 0.0 {
        assert false;
      }
      var c := Click(Trunc(startTime * SampleRate), seconds, Trunc(seconds * SampleRate));
      ghost var rest := RichPlan(i + 1, n, duration, between);
      RichPlanWithin(i + 1, n, duration, between);
      assert RichPlan(i, n, duration, between) == [c] + rest;
      OverlayCons(wave[..], c, rest, click);
      AddClipped(wave, c.start, Segment(c, click));
      i := i + 1;
    }
  }

  /** `generate_rich_pulse` as the source runs it: a zeroed buffer and a loop adding one click at a time. */
  method GenerateRichPulse(bpm: real, duration: real, click: (real, nat) -> real) returns (pulse: Option<seq<real>>)
    ensures pulse == RichPulse(bpm, duration, click)
  {
    var total := Trunc(SampleRate * duration);
    if total < 0 {
      return None;
    }
    var wave := new real[total](_ => 0.0);
    assert wave[..] == Zeros(total);
    if bpm <= 0.0 {
      return Some(wave[..]);
    }
    var between := ClickSpacing(bpm);
    var n := RichClickCount(bpm, duration);
    AddRichClicks(wave, n, duration, between, click);
    pulse := Some(wave[..]);
  }

  // ----- generate_pulse -----

  /** Lines 477-478: `int(bpm * duration / 60)`, raised to one beat for a short positive duration. */
  function PulseBeatCount(bpm: real, duration: real): int {
    var n := Trunc(bpm * duration / 60.0);
    if n == 0 && duration > 0.0 then 1 else n
  }

  /**
   * Lines 479-487: the clicks from beat `i` on. Beat `i` starts at sample
   * `int(i * samples_per_beat)`; a beat at or past the end is skipped, and a
   * click is cut to what is left of the duration after its start.
   */
  function PulsePlan(i: nat, n: int, duration: real, clickSeconds: real, perBeat: real, total: nat): (plan: seq<Click>)
    requires perBeat >= 0.0
    decreases n - i
  {
    if i >= n then []
    else
      var start := Trunc(Multiple(i, perBeat));
      var rest := PulsePlan(i + 1, n, duration, clickSeconds, perBeat, total);
      if start < total then
        var d := Min(clickSeconds, duration - start as real / SampleRate);
        if d > 0.0 then [Click(start, d, Trunc(SampleRate * d))] + rest else rest
      else rest
  }

  /** Every planned beat starts strictly inside the buffer and has a positive length of at most `clickSeconds`. */
  lemma {:induction false} PulsePlanWithin(i: nat, n: int, duration: real, clickSeconds: real, perBeat: real, total: nat)
    requires perBeat >= 0.0
    ensures ClicksWithin(PulsePlan(i, n, duration, clickSeconds, perBeat, total), total - 1, clickSeconds)
    ensures StartsWithin(PulsePlan(i, n, duration, clickSeconds, perBeat, total), total)
    decreases n - i
  {
    if i < n {
      PulsePlanWithin(i + 1, n, duration, clickSeconds, perBeat, total);
      var start := Trunc(Multiple(i, perBeat));
      var rest := PulsePlan(i + 1, n, duration, clickSeconds, perBeat, total);
      if start < total {
        var d := Min(clickSeconds, duration - start as real / SampleRate);
        if d > 0.0 {
          ClicksWithinCons(Click(start, d, Trunc(SampleRate * d)), rest, total - 1, clickSeconds);
        }
      }
    }
  }

  /** `sample_rate * 60 / bpm`. */
  function SamplesPerBeat(bpm: real): (s: real)
    requires bpm > 0.0
    ensures s > 0.0
  {
    SampleRate * 60.0 / bpm
  }

  /**
   * `generate_pulse`: silent for a non-positive tempo, else one click per
   * beat that starts inside the buffer. None where `np.zeros` refuses a
   * negative size.
   */
  function Pulse(bpm: real, duration: real, clickSeconds: real, click: (real, nat) -> real): (r: Option<seq<real>>)
    ensures r.Some? <==> Trunc(SampleRate * duration) >= 0
    ensures r.Some? ==> |r.value| == Trunc(SampleRate * duration)
  {
    var total := Trunc(SampleRate * duration);
    if total < 0 then None
    else if bpm <= 0.0 then Some(Zeros(total))
    else
      var plan := PulsePlan(0, PulseBeatCount(bpm, duration), duration, clickSeconds, SamplesPerBeat(bpm), total);
      PulsePlanWithin(0, PulseBeatCount(bpm, duration), duration, clickSeconds, SamplesPerBeat(bpm), total);
      Some(Overlay(Zeros(total), plan, click))
  }

  /**
   * With a positive tempo, a positive click length and a buffer of at least
   * one sample, the first beat's click is written at sample 0.
   */
  lemma PulseFirstClick(bpm: real, duration: real, clickSeconds: real)
    requires bpm > 0.0 && clickSeconds > 0.0 && Trunc(SampleRate * duration) > 0
    ensures var total := Trunc(SampleRate * duration);
      var plan := PulsePlan(0, PulseBeatCount(bpm, duration), duration, clickSeconds, SamplesPerBeat(bpm), total);
      |plan| >= 1 && plan[0].start == 0 && plan[0].seconds == Min(clickSeconds, duration)
  {
    assert duration > 0.0;
  }

  /** A non-positive tempo gives all zeros. */
  lemma PulseSilent(bpm: real, duration: real, clickSeconds: real, click: (real, nat) -> real)
    requires bpm <= 0.0 && Trunc(SampleRate * duration) >= 0
    ensures Pulse(bpm, duration, clickSeconds, click).Some?
    ensures forall k :: 0 <= k < |Pulse(bpm, duration, clickSeconds, click).value| ==>
      Pulse(bpm, duration, clickSeconds, click).value[k] == 0.0
  {
  }

  /** Every sample of the pulse is the sum of the click samples that land on it. */
  lemma PulseAt(bpm: real, duration: real, clickSeconds: real, click: (real, nat) -> real, k: nat)
    requires bpm > 0.0 && k < Trunc(SampleRate * duration)
    ensures Pulse(bpm, duration, clickSeconds, click).Some?
    ensures Pulse(bpm, duration, clickSeconds, click).value[k] ==
      CoverAt(PulsePlan(0, PulseBeatCount(bpm, duration), duration, clickSeconds, SamplesPerBeat(bpm),
                        Trunc(SampleRate * duration) as nat), k, click)
  {
    var total := Trunc(SampleRate * duration);
    var plan := PulsePlan(0, PulseBeatCount(bpm, duration), duration, clickSeconds, SamplesPerBeat(bpm), total);
    PulsePlanWithin(0, PulseBeatCount(bpm, duration), duration, clickSeconds, SamplesPerBeat(bpm), total);
    OverlayAt(Zeros(total), plan, click, k);
  }

  /** Lines 479-487: the beat loop, adding each beat's click into the buffer in turn. */
  method AddBeatClicks(wave: array<real>, n: int, duration: real, clickSeconds: real, perBeat: real,
                       click: (real, nat) -> real)
    requires perBeat >= 0.0
    modifies wave
    ensures StartsWithin(PulsePlan(0, n, duration, clickSeconds, perBeat, wave.Length), wave.Length)
    ensures wave[..] == Overlay(old(wave[..]), PulsePlan(0, n, duration, clickSeconds, perBeat, wave.Length), click)
  {
    var total := wave.Length;
    ghost var whole := PulsePlan(0, n, duration, clickSeconds, perBeat, total);
    PulsePlanWithin(0, n, duration, clickSeconds, perBeat, total);
    ghost var before := wave[..];
    var i := 0;
    while i < n
      invariant StartsWithin(PulsePlan(i, n, duration, clickSeconds, perBeat, total), total)
      invariant Overlay(wave[..], PulsePlan(i, n, duration, clickSeconds, perBeat, total), click) == Overlay(before, whole, click)
      decreases n - i
    {
      ghost var rest := PulsePlan(i + 1, n, duration, clickSeconds, perBeat, total);
      PulsePlanWithin(i + 1, n, duration, clickSeconds, perBeat, total);
      var start := Trunc(Multiple(i, perBeat));
      if start < total {
        var seconds := Min(clickSeconds, duration - start as real / SampleRate);
        if seconds > 0.0 {
          var c := Click(start, seconds, Trunc(SampleRate * seconds));
          assert PulsePlan(i, n, duration, clickSeconds, perBeat, total) == [c] + rest;
          OverlayCons(wave[..], c, rest, click);
          AddClipped(wave, c.start, Segment(c, click));
        }
      }
      i := i + 1;
    }
  }

  /** `generate_pulse` as the source runs it. */
  method GeneratePulse(bpm: real, duration: real, clickSeconds: real, click: (real, nat) -> real)
    returns (pulse: Option<seq<real>>)
    ensures pulse == Pulse(bpm, duration, clickSeconds, click)
  {
    var total := Trunc(SampleRate * duration);
    if total < 0 {
      return None;
    }
    var wave := new real[total](_ => 0.0);
    assert wave[..] == Zeros(total);
    if bpm <= 0.0 {
      return Some(wave[..]);
    }
    AddBeatClicks(wave, PulseBeatCount(bpm, duration), duration, clickSeconds, SamplesPerBeat(bpm), click);
    pulse := Some(wave[..]);
  }
}
