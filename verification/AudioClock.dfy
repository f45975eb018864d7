/**
  Per-tick audio emission and the two presentation clocks.

  Every tick emits the samples that bring the running total to the exact rational count for the
  ticks so far, whichever branch supplies them. Video time stamps count whole frames of a rounded
  duration; audio time stamps count samples.
 */
module AudioClock {
  import opened Rational
  import opened AudioBuffer

  const SAMPLE_RATE := 48000

  /** Samples emitted by the start of tick t. */
  function SamplesBy(fps: Fps, t: nat): nat
    requires IsValid(fps)
  {
    t * SAMPLE_RATE * fps.den / fps.num
  }

  /** One frame in units of 90 kHz, rounded to the nearest. */
  function FrameDuration90k(fps: Fps): nat
    requires IsValid(fps)
  {
    (90000 * fps.den + fps.num / 2) / fps.num
  }

  function VideoPts(fps: Fps, tick: nat): nat
    requires IsValid(fps)
  {
    tick * FrameDuration90k(fps)
  }

  function AudioPts(samples: nat): nat {
    samples * 90000 / SAMPLE_RATE
  }

  lemma SamplesGrow(fps: Fps, t: nat)
    requires IsValid(fps)
    ensures SamplesBy(fps, t) <= SamplesBy(fps, t + 1)
  {
    var a, b := t * SAMPLE_RATE * fps.den, (t + 1) * SAMPLE_RATE * fps.den;
    assert b == a + SAMPLE_RATE * fps.den;
    QuotientBounds(a, fps.num);
    QuotientBounds(b, fps.num);
    FactorLess(a / fps.num, b / fps.num + 1, fps.num);
  }

  function Silence(n: nat): AudioFrame {
    AudioFrame(n, seq(n, _ => SILENCE))
  }

  /** The emission counters of one session. */
  class Emitter {
    const fps: Fps
    var ticksEmitted: nat
    var bufferSamplesEmitted: nat
    var samplesEmitted: nat

    /** Exactly the whole samples of the ticks so far. */
    ghost predicate Valid()
      reads this
    {
      && IsValid(fps)
      && bufferSamplesEmitted == SamplesBy(fps, ticksEmitted)
      && samplesEmitted == bufferSamplesEmitted
    }

    constructor (fps: Fps)
      requires IsValid(fps)
      ensures Valid() && ticksEmitted == 0 && this.fps == fps
    {
      this.fps := fps;
      ticksEmitted, bufferSamplesEmitted, samplesEmitted := 0, 0, 0;
    }

    method SamplesThisTick() returns (n: nat)
      requires Valid()
      ensures bufferSamplesEmitted + n == SamplesBy(fps, ticksEmitted + 1)
    {
      SamplesGrow(fps, ticksEmitted);
      var nextTotal := (ticksEmitted + 1) * SAMPLE_RATE * fps.den / fps.num;
      n := nextTotal - bufferSamplesEmitted;
    }

    method Count(n: nat)
      requires Valid() && bufferSamplesEmitted + n == SamplesBy(fps, ticksEmitted + 1)
      modifies this`samplesEmitted, this`bufferSamplesEmitted, this`ticksEmitted
      ensures Valid() && ticksEmitted == old(ticksEmitted) + 1 && samplesEmitted == old(samplesEmitted) + n
    {
      samplesEmitted := samplesEmitted + n;
      bufferSamplesEmitted := bufferSamplesEmitted + n;
      ticksEmitted := ticksEmitted + 1;
    }

    /**
      The audio of one tick: silence into one buffer on a pad tick, then this tick's samples, which
      are the next ones of the buffer they come from, or silence when it cannot supply them.
     */
    method EmitTick(source: AudioLookaheadBuffer?, live: AudioLookaheadBuffer,
                    padDecision: bool, activeIsPad: bool, degradedHeld: bool) returns (out: AudioFrame, injected: bool)
      requires Valid() && live.Valid() && (source != null ==> source.Valid())
      modifies this, live, source
      ensures Valid() && live.Valid() && (source != null ==> source.Valid())
      ensures ticksEmitted == old(ticksEmitted) + 1
      ensures out.nbSamples >= 0 && samplesEmitted == old(samplesEmitted) + out.nbSamples
      ensures var from := if source == null && (padDecision || activeIsPad) then live else source;
              var dest := if padDecision then from else if activeIsPad then live else null;
              if from != null && !degradedHeld && (old(from.primed) || padDecision || activeIsPad)
                 && out.nbSamples <= |old(from.Contents()) + (if from == dest then Silence(out.nbSamples).data else [])|
              then !injected
                   && old(from.Contents()) + (if from == dest then Silence(out.nbSamples).data else [])
                      == out.data + from.Contents()
              else injected && out == Silence(out.nbSamples)
                   && (from != null ==>
                         from.Contents() == old(from.Contents())
                           + (if from == dest then Silence(out.nbSamples).data else []))
      ensures source != null && source != live ==>
                live.Contents() == old(live.Contents())
                  + (if activeIsPad && !padDecision then Silence(out.nbSamples).data else [])
      // A pad tick that pops where it pushed never runs dry.
      ensures injected && !degradedHeld && (padDecision || activeIsPad) ==>
                !padDecision && source != null && source != live
    {
      var n := SamplesThisTick();
      out, injected := Supply(source, live, padDecision, activeIsPad, degradedHeld, n);
      Count(n);
    }
  }

  /** The silence a buffer is given on a pad tick. */
  function Given(buffer: AudioLookaheadBuffer, dest: AudioLookaheadBuffer?, n: nat): seq<Sample> {
    if buffer == dest then Silence(n).data else []
  }

  /** A held picture goes without sound, and a buffer must be primed unless the tick is pad. */
  predicate MaySupply(primed: bool, padDecision: bool, activeIsPad: bool, degradedHeld: bool) {
    !degradedHeld && (primed || padDecision || activeIsPad)
  }

  /** The samples themselves: pushed silence first, then a pop; silence when there is nothing to pop from. */
  method Supply(source: AudioLookaheadBuffer?, live: AudioLookaheadBuffer,
                padDecision: bool, activeIsPad: bool, degradedHeld: bool, n: nat)
    returns (out: AudioFrame, injected: bool)
    requires live.Valid() && (source != null ==> source.Valid())
    modifies live, source
    ensures live.Valid() && (source != null ==> source.Valid()) && out.nbSamples == n
    ensures var from, dest := SamplesComeFrom(source, live, padDecision, activeIsPad),
                              SilenceGoesTo(source, live, padDecision, activeIsPad);
            if from != null && MaySupply(old(from.primed), padDecision, activeIsPad, degradedHeld)
               && n <= |old(from.Contents()) + Given(from, dest, n)|
            then !injected && old(from.Contents()) + Given(from, dest, n) == out.data + from.Contents()
            else injected && out == Silence(n)
                 && (from != null ==> from.Contents() == old(from.Contents()) + Given(from, dest, n))
    ensures source != null && source != live ==>
              live.Contents() == old(live.Contents())
                + Given(live, SilenceGoesTo(source, live, padDecision, activeIsPad), n)
    ensures injected && !degradedHeld && (padDecision || activeIsPad) ==>
              !padDecision && source != null && source != live
  {
    var from := SamplesComeFrom(source, live, padDecision, activeIsPad);
    PushOnPad(source, live, padDecision, activeIsPad, from, n);
    out, injected := Silence(n), true;
    if !degradedHeld && from != null && (from.primed || padDecision || activeIsPad) {
      out, injected := PopOrSilence(from, n);
    }
  }

  method PushOnPad(source: AudioLookaheadBuffer?, live: AudioLookaheadBuffer,
                   padDecision: bool, activeIsPad: bool, ghost from: AudioLookaheadBuffer?, n: nat)
    requires live.Valid() && (source != null ==> source.Valid()) && (from != null ==> from.Valid())
    modifies live, source
    ensures live.Valid() && (source != null ==> source.Valid())
    ensures live.Contents() == old(live.Contents())
              + Given(live, SilenceGoesTo(source, live, padDecision, activeIsPad), n)
    ensures from != null ==>
              var dest := SilenceGoesTo(source, live, padDecision, activeIsPad);
              && from.Contents() == old(from.Contents()) + Given(from, dest, n)
              && (from != dest ==> from.primed == old(from.primed))
  {
    var dest := SilenceGoesTo(source, live, padDecision, activeIsPad);
    assert from != null ==> old(from.Contents()) + [] == old(from.Contents());
    assert old(live.Contents()) + [] == old(live.Contents());
    if dest != null {
      PushSilence(dest, n);
    }
  }

  /** The buffer silence is pushed to: a pad decision follows the selected buffer, a pad segment the live one. */
  function SilenceGoesTo(source: AudioLookaheadBuffer?, live: AudioLookaheadBuffer,
                         padDecision: bool, activeIsPad: bool): AudioLookaheadBuffer? {
    if padDecision then (if source != null then source else live)
    else if activeIsPad then live
    else null
  }

  function SamplesComeFrom(source: AudioLookaheadBuffer?, live: AudioLookaheadBuffer,
                           padDecision: bool, activeIsPad: bool): AudioLookaheadBuffer? {
    if source == null && (padDecision || activeIsPad) then live else source
  }

  /** On one buffer, a pad tick's push and pop cancel: no underflow, and the depth stays as it was. */
  method PadTick(buffer: AudioLookaheadBuffer, n: nat) returns (out: AudioFrame, injected: bool)
    requires buffer.Valid()
    modifies buffer
    ensures buffer.Valid() && !injected
    ensures |buffer.Contents()| == |old(buffer.Contents())|
    ensures old(buffer.Contents()) + Silence(n).data == out.data + buffer.Contents()
  {
    PushSilence(buffer, n);
    out, injected := PopOrSilence(buffer, n);
  }

  method PushSilence(buffer: AudioLookaheadBuffer, n: nat)
    requires buffer.Valid()
    modifies buffer
    ensures buffer.Valid() && buffer.Contents() == old(buffer.Contents()) + Silence(n).data
  {
    buffer.Push(Silence(n), 0);
  }

  method PopOrSilence(buffer: AudioLookaheadBuffer, n: nat) returns (out: AudioFrame, injected: bool)
    requires buffer.Valid()
    modifies buffer
    ensures buffer.Valid() && out.nbSamples == n
    ensures injected <==> n > |old(buffer.Contents())|
    ensures injected ==> out == Silence(n) && buffer.Contents() == old(buffer.Contents())
    ensures !injected ==> |out.data| == n && old(buffer.Contents()) == out.data + buffer.Contents()
  {
    assert old(buffer.Contents()) == [] + old(buffer.Contents());
    var ok, popped := buffer.TryPopSamples(n);
    injected := !ok;
    out := if ok then popped else Silence(n);
  }

  // ---------------------------------------------------------------------------
  // Audio and video time
  // ---------------------------------------------------------------------------

  /** The frame duration is a whole number of 90 kHz units. */
  predicate WholeDuration(fps: Fps)
    requires IsValid(fps)
  {
    90000 * fps.den % fps.num == 0
  }

  lemma DurationIsExact(fps: Fps)
    requires IsValid(fps)
    ensures WholeDuration(fps) <==> FrameDuration90k(fps) * fps.num == 90000 * fps.den
  {
    var a, n := 90000 * fps.den, fps.num;
    var q, d := a / n, FrameDuration90k(fps);
    QuotientBounds(a, n);
    if a % n == 0 {
      QuotientUnique(a + n / 2, n, q);
    }
    if d * n == a {
      QuotientUnique(a, n, d);
    }
  }

  /** A product with an eighth-rounded factor: s samples are 15 s / 8 units of 90 kHz. */
  lemma AudioPtsIsFifteenEighths(s: nat)
    ensures AudioPts(s) == 15 * s / 8
  {
    QuotientBounds(15 * s, 8);
    QuotientUnique(s * 90000, SAMPLE_RATE, 15 * s / 8);
  }

  /** With a whole frame duration, video leads audio by 0, 1 or 2 units of 90 kHz at every tick. */
  lemma WholeDurationStaysTight(fps: Fps, tick: nat)
    requires IsValid(fps) && WholeDuration(fps)
    ensures 0 <= VideoPts(fps, tick) - AudioPts(SamplesBy(fps, tick)) <= 2
  {
    var n, d, v := fps.num, FrameDuration90k(fps), VideoPts(fps, tick);
    var s := SamplesBy(fps, tick);
    var x := tick * SAMPLE_RATE * fps.den;
    DurationIsExact(fps);
    QuotientBounds(x, n);
    AudioPtsIsFifteenEighths(s);
    SameTime(tick, d, n, fps.den);
    WithinTwo(s, v, n, x);
  }

  lemma SameTime(tick: nat, d: nat, n: nat, den: nat)
    requires d * n == 90000 * den
    ensures 15 * (tick * SAMPLE_RATE * den) == 8 * ((tick * d) * n)
  {
    assert (tick * d) * n == tick * (d * n);
    assert 15 * (tick * SAMPLE_RATE * den) == 8 * (tick * (90000 * den));
  }

  /** A sample is 15/8 of a unit, so a started sample hides less than two units. */
  lemma WithinTwo(s: nat, v: nat, n: nat, x: nat)
    requires n > 0 && s * n <= x < (s + 1) * n && 15 * x == 8 * (v * n)
    ensures 0 <= v - 15 * s / 8 <= 2
  {
    assert (15 * s) * n == 15 * (s * n) && (8 * v) * n == 8 * (v * n);
    assert (15 * (s + 1)) * n == 15 * ((s + 1) * n);
    assert (8 * v + 1) * n == 8 * (v * n) + n;
    FactorLess(8 * v, 15 * (s + 1), n);
    FactorLess(15 * s, 8 * v + 1, n);
  }

  /** After t times num ticks the samples come out even, and the rounding error of the duration shows. */
  lemma DriftAtWholeSeconds(fps: Fps, t: nat)
    requires IsValid(fps)
    ensures var delta := FrameDuration90k(fps) * fps.num - 90000 * fps.den;
            VideoPts(fps, t * fps.num) - AudioPts(SamplesBy(fps, t * fps.num)) == t * delta
  {
    var n, d := fps.num, FrameDuration90k(fps);
    var s := t * SAMPLE_RATE * fps.den;
    assert (t * n) * SAMPLE_RATE * fps.den == s * n;
    QuotientUnique(s * n, n, s);
    AudioPtsIsFifteenEighths(s);
    assert 15 * s == (t * (90000 * fps.den)) * 8;
    QuotientUnique(15 * s, 8, t * (90000 * fps.den));
    assert (t * n) * d == t * (d * n);
    assert t * (d * n) - t * (90000 * fps.den) == t * (d * n - 90000 * fps.den);
  }

  /** The clocks stay within two units of each other for ever exactly at the rates with a whole duration. */
  lemma ClocksStayTogetherExactly(fps: Fps)
    requires IsValid(fps)
    ensures WholeDuration(fps) <==>
            forall tick: nat :: 0 <= VideoPts(fps, tick) - AudioPts(SamplesBy(fps, tick)) <= 2
  {
    if WholeDuration(fps) {
      forall tick: nat
        ensures 0 <= VideoPts(fps, tick) - AudioPts(SamplesBy(fps, tick)) <= 2
      {
        WholeDurationStaysTight(fps, tick);
      }
    } else {
      DurationIsExact(fps);
      DriftAtWholeSeconds(fps, 3);
      var tick := 3 * fps.num;
      assert !(0 <= VideoPts(fps, tick) - AudioPts(SamplesBy(fps, tick)) <= 2);
    }
  }
}
