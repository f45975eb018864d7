/**
  Frame-rate conversion: the snapping of a measured rate, the tick loop's repeat-or-advance
  accumulator, the producer's resample mode, and how far the source has advanced after any number of
  ticks. The snapping's comparison is exact here.
 */
module Cadence {
  import opened Rational

  /** Source frames per output tick is Increment over Threshold. */
  function Increment(source: Fps, output: Fps): nat {
    source.num * output.den
  }

  function Threshold(source: Fps, output: Fps): nat {
    output.num * source.den
  }

  /** A broadcast rate, with its usual decimal name in thousandths. */
  datatype Standard = Standard(milli: int, rate: Fps)

  const STANDARDS := [
    Standard(23976, FpsPair(24000, 1001)), Standard(24000, FpsPair(24, 1)), Standard(25000, FpsPair(25, 1)),
    Standard(29970, FpsPair(30000, 1001)), Standard(30000, FpsPair(30, 1)), Standard(50000, FpsPair(50, 1)),
    Standard(59940, FpsPair(60000, 1001)), Standard(60000, FpsPair(60, 1))]

  /** Less than a hundredth of a frame per second apart. */
  predicate Near(fps: Fps, milli: int) {
    -10 * fps.den < 1000 * fps.num - milli * fps.den < 10 * fps.den
  }

  function SnappedBy(fps: Fps, table: seq<Standard>): Fps {
    if table == [] then fps
    else if Near(fps, table[0].milli) then table[0].rate
    else SnappedBy(fps, table[1..])
  }

  function Snapped(fps: Fps): Fps {
    if IsValid(fps) then SnappedBy(fps, STANDARDS) else fps
  }

  method SnapToStandard(fps: Fps) returns (rate: Fps)
    ensures rate == Snapped(fps)
  {
    if !IsValid(fps) {
      return fps;
    }
    for i := 0 to |STANDARDS|
      invariant SnappedBy(fps, STANDARDS) == SnappedBy(fps, STANDARDS[i..])
    {
      if Near(fps, STANDARDS[i].milli) {
        return STANDARDS[i].rate;
      }
    }
    return fps;
  }

  /** Each standard rate is near its own name, and the names are too far apart for a rate to be near two. */
  lemma StandardsAreApart(i: nat, j: nat, fps: Fps)
    requires i < |STANDARDS| && j < |STANDARDS|
    ensures Near(STANDARDS[i].rate, STANDARDS[i].milli)
    ensures Near(fps, STANDARDS[i].milli) && Near(fps, STANDARDS[j].milli) ==> i == j
  {
    var a, b, d := STANDARDS[i].milli, STANDARDS[j].milli, fps.den;
    assert i < j ==> a + 20 <= b;
    assert j < i ==> b + 20 <= a;
    if a + 20 <= b {
      ProductMonotone(a + 20, b, d);
      assert (a + 20) * d == a * d + 20 * d;
    }
    if b + 20 <= a {
      ProductMonotone(b + 20, a, d);
      assert (b + 20) * d == b * d + 20 * d;
    }
  }

  lemma {:induction false} FirstNearDecides(fps: Fps, i: nat, from: nat)
    requires from <= i < |STANDARDS| && Near(fps, STANDARDS[i].milli)
    ensures SnappedBy(fps, STANDARDS[from..]) == STANDARDS[i].rate
    decreases i - from
  {
    StandardsAreApart(i, from, fps);
    if from < i {
      FirstNearDecides(fps, i, from + 1);
    }
  }

  lemma {:induction false} OtherRatesStay(fps: Fps, table: seq<Standard>)
    requires forall i :: 0 <= i < |table| ==> !Near(fps, table[i].milli)
    ensures SnappedBy(fps, table) == fps
  {
    if table != [] {
      OtherRatesStay(fps, table[1..]);
    }
  }

  /**
    Whatever the order of the table, a rate becomes the standard one it is near and any other stays;
    snapping twice is snapping once.
   */
  lemma SnapIsExact(fps: Fps)
    requires IsValid(fps)
    ensures forall i :: 0 <= i < |STANDARDS| ==>
              -10 * fps.den < 1000 * fps.num - STANDARDS[i].milli * fps.den < 10 * fps.den ==>
                Snapped(fps) == STANDARDS[i].rate
    ensures Snapped(fps) == fps || exists i ::
              0 <= i < |STANDARDS| && Snapped(fps) == STANDARDS[i].rate
              && -10 * fps.den < 1000 * fps.num - STANDARDS[i].milli * fps.den < 10 * fps.den
    ensures Snapped(Snapped(fps)) == Snapped(fps)
  {
    forall i | 0 <= i < |STANDARDS| && Near(fps, STANDARDS[i].milli)
      ensures Snapped(fps) == STANDARDS[i].rate && Snapped(STANDARDS[i].rate) == STANDARDS[i].rate
    {
      FirstNearDecides(fps, i, 0);
      StandardsAreApart(i, i, fps);
      FirstNearDecides(STANDARDS[i].rate, i, 0);
    }
    if forall i :: 0 <= i < |STANDARDS| ==> !Near(fps, STANDARDS[i].milli) {
      OtherRatesStay(fps, STANDARDS);
    }
  }

  predicate OutOfRange(fps: Fps) {
    fps.num * 1 < 10 * fps.den || fps.num * 1 > 120 * fps.den
  }

  /** A rate that is unknown, absurd, or of a source that decodes nothing counts as the output rate. */
  predicate Unusable(source: Fps, segmentIsPad: bool, hasDecoder: bool) {
    !IsValid(source) || source == FpsPair(1, 1) || OutOfRange(source) || segmentIsPad || !hasDecoder
  }

  function SanitizedRate(source: Fps, output: Fps, segmentIsPad: bool, hasDecoder: bool): Fps {
    if Unusable(source, segmentIsPad, hasDecoder) then output else source
  }

  datatype Accumulator = Accumulator(enabled: bool, budget: nat, threshold: nat, increment: nat)

  function Fresh(source: Fps, output: Fps): Accumulator {
    if source != output && IsValid(source) && IsValid(output)
    then Accumulator(true, 0, Threshold(source, output), Increment(source, output))
    else Accumulator(false, 0, 1, 1)
  }

  predicate Advances(a: Accumulator) {
    !a.enabled || a.budget + a.increment >= a.threshold
  }

  function Stepped(a: Accumulator): Accumulator {
    if !a.enabled then a
    else if Advances(a) then a.(budget := a.budget + a.increment - a.threshold)
    else a.(budget := a.budget + a.increment)
  }

  /** How often the source advances in n ticks. */
  function AdvancesIn(a: Accumulator, n: nat): nat
    decreases n
  {
    if n == 0 then 0 else (if Advances(a) then 1 else 0) + AdvancesIn(Stepped(a), n - 1)
  }

  class FrameSelection {
    var enabled: bool
    var budget: nat
    var threshold: nat
    var increment: nat
    var lastSource: Fps

    ghost function View(): Accumulator
      reads this
    {
      Accumulator(enabled, budget, threshold, increment)
    }

    constructor ()
      ensures View() == Accumulator(false, 0, 1, 1)
    {
      enabled, budget, threshold, increment, lastSource := false, 0, 1, 1, FpsPair(0, 1);
    }

    /** For a new live block. */
    method Init(source: Fps, output: Fps, segmentIsPad: bool, hasDecoder: bool)
      modifies this
      ensures var rate := SanitizedRate(Snapped(source), output, segmentIsPad, hasDecoder);
              && lastSource == rate && enabled == Fresh(rate, output).enabled
              && (enabled ==> View() == Fresh(rate, output))
    {
      var snapped := SnapToStandard(source);
      var rate := SanitizedRate(snapped, output, segmentIsPad, hasDecoder);
      lastSource := rate;
      Restart(rate, output);
    }

    /** After a segment swap: a usable source of the same rate keeps its budget. */
    method Refresh(source: Fps, output: Fps, segmentIsPad: bool, hasDecoder: bool)
      modifies this
      ensures lastSource == SanitizedRate(Snapped(source), output, segmentIsPad, hasDecoder)
      ensures var kept := !Unusable(Snapped(source), segmentIsPad, hasDecoder) && Snapped(source) == old(lastSource);
              if kept then View() == old(View())
              else enabled == Fresh(lastSource, output).enabled && (enabled ==> View() == Fresh(lastSource, output))
    {
      var snapped := SnapToStandard(source);
      var rate := SanitizedRate(snapped, output, segmentIsPad, hasDecoder);
      if !Unusable(snapped, segmentIsPad, hasDecoder) && rate == lastSource {
        return;
      }
      lastSource := rate;
      Restart(rate, output);
    }

    method Restart(rate: Fps, output: Fps)
      modifies this`enabled, this`budget, this`threshold, this`increment
      ensures enabled == Fresh(rate, output).enabled && (enabled ==> View() == Fresh(rate, output))
    {
      if rate != output && IsValid(rate) && IsValid(output) {
        enabled, budget := true, 0;
        threshold, increment := output.num * rate.den, rate.num * output.den;
      } else {
        enabled := false;
      }
    }

    /** One tick with a video source and no block take. */
    method Tick() returns (advance: bool)
      modifies this`budget
      ensures advance == Advances(old(View())) && View() == Stepped(old(View()))
    {
      advance := true;
      if enabled {
        budget := budget + increment;
        if budget >= threshold {
          budget := budget - threshold;
        } else {
          advance := false;
        }
      }
    }
  }

  // ---------------------------------------------------------------------------
  // The producer's side
  // ---------------------------------------------------------------------------

  lemma ThresholdPositive(source: Fps, output: Fps)
    requires IsValid(source) && IsValid(output)
    ensures Threshold(source, output) > 0 && Increment(source, output) > 0
  {
  }

  datatype ResampleMode = Off | Drop | Repeat

  function ModeOf(source: Fps, output: Fps): ResampleMode {
    if !IsValid(source) || !IsValid(output) || Increment(source, output) == Threshold(source, output) then Off
    else if Increment(source, output) % Threshold(source, output) == 0 then Drop
    else Repeat
  }

  /** Source frames decoded for one frame of output. */
  function DropStep(source: Fps, output: Fps): nat {
    if ModeOf(source, output).Drop? then Increment(source, output) / Threshold(source, output) else 1
  }

  /**
    OFF for one rate written in two ways, DROP with step k for a source k times as fast as the output,
    REPEAT for every other pair.
   */
  lemma ModeTellsTheRatio(source: Fps, output: Fps, k: nat)
    requires IsValid(source) && IsValid(output) && k >= 1
    ensures var i, d := source.num * output.den, output.num * source.den;
            && (ModeOf(source, output).Off? <==> i == d)
            && (ModeOf(source, output).Drop? && DropStep(source, output) == k <==> k >= 2 && i == k * d)
            && (ModeOf(source, output).Repeat? <==> forall m: nat :: i != m * d)
  {
    var i, d := source.num * output.den, output.num * source.den;
    ThresholdPositive(source, output);
    QuotientBounds(i, d);
    if i % d == 0 {
      assert i == (i / d) * d;
    }
    forall m: nat | i == m * d
      ensures i / d == m && i % d == 0
    {
      QuotientUnique(i, d, m);
    }
    if i == d {
      assert i == 1 * d;
    }
  }

  datatype Decoded = Decoded(image: int, audio: seq<int>)

  function AllAudio(frames: seq<Decoded>): seq<int> {
    if frames == [] then [] else AllAudio(frames[..|frames| - 1]) + frames[|frames| - 1].audio
  }

  class TickProducer {
    var remaining: seq<Decoded> // what the decoder still has to give
    var resampleMode: ResampleMode
    var dropStep: nat

    constructor (frames: seq<Decoded>)
      ensures remaining == frames && resampleMode == Off && dropStep == 1
    {
      remaining, resampleMode, dropStep := frames, Off, 1;
    }

    method UpdateResampleMode(source: Fps, output: Fps)
      modifies this`resampleMode, this`dropStep
      ensures resampleMode == ModeOf(source, output) && dropStep == DropStep(source, output) >= 1
    {
      resampleMode, dropStep := Off, 1;
      if !IsValid(source) || !IsValid(output) {
        return;
      }
      var inOut, outIn := source.num * output.den, output.num * source.den;
      if inOut == outIn {
        return;
      }
      if inOut % outIn == 0 {
        resampleMode := Drop;
        dropStep := inOut / outIn;
        assert inOut == outIn * dropStep;
        return;
      }
      resampleMode := Repeat;
    }

    method DecodeNextFrameRaw() returns (ok: bool, frame: Decoded)
      modifies this`remaining
      ensures ok <==> old(remaining) != []
      ensures if ok then old(remaining) == [frame] + remaining else remaining == old(remaining)
    {
      frame := Decoded(0, []);
      ok := remaining != [];
      if ok {
        frame, remaining := remaining[0], remaining[1..];
      }
    }

    /** One output frame: the picture of the first source frame taken, and the sound of all of them. */
    method TryGetFrame() returns (ok: bool, frame: Decoded)
      requires resampleMode.Drop? ==> dropStep >= 1
      modifies this`remaining
      ensures ok <==> old(remaining) != []
      ensures var step := if resampleMode.Drop? then dropStep else 1;
              var taken := if step <= |old(remaining)| then step else |old(remaining)|;
              && remaining == old(remaining)[taken..]
              && (ok ==> frame == Decoded(old(remaining)[0].image, AllAudio(old(remaining)[..taken])))
    {
      ok, frame := DecodeNextFrameRaw();
      if !ok {
        return;
      }
      assert AllAudio(old(remaining)[..1]) == frame.audio by {
        assert old(remaining)[..1] == [frame];
        assert AllAudio([frame]) == AllAudio([frame][..0]) + frame.audio;
      }
      if resampleMode.Drop? && dropStep > 1 {
        var i, taken := 1, 1;
        while i < dropStep
          invariant 1 <= taken <= i <= dropStep && taken <= |old(remaining)|
          invariant taken < i ==> taken == |old(remaining)|
          invariant remaining == old(remaining)[taken..]
          invariant frame == Decoded(old(remaining)[0].image, AllAudio(old(remaining)[..taken]))
        {
          var more, skip := DecodeNextFrameRaw();
          if more {
            assert skip == old(remaining)[taken];
            assert old(remaining)[..taken + 1][..taken] == old(remaining)[..taken];
            frame := frame.(audio := frame.audio + skip.audio);
            taken := taken + 1;
          }
          i := i + 1;
        }
      }
    }
  }

  // ---------------------------------------------------------------------------
  // How far the source advances
  // ---------------------------------------------------------------------------

  /** A slower source: the accumulator advances once for every whole threshold accumulated. */
  lemma {:induction false} SlowSourceAdvances(a: Accumulator, n: nat)
    requires a.enabled && 0 < a.increment <= a.threshold && a.budget < a.threshold
    ensures AdvancesIn(a, n) == (a.budget + n * a.increment) / a.threshold
    decreases n
  {
    if n == 0 {
      QuotientUnique(a.budget, a.threshold, 0);
    } else {
      var b := Stepped(a);
      var later := b.budget + (n - 1) * a.increment;
      SlowSourceAdvances(b, n - 1);
      assert n * a.increment == (n - 1) * a.increment + a.increment;
      if Advances(a) {
        assert a.budget + n * a.increment == later + 1 * a.threshold;
        QuotientShift(later, a.threshold, 1);
      }
    }
  }

  /** A faster source advances on every tick. */
  lemma {:induction false} FastSourceAdvances(a: Accumulator, n: nat)
    requires !a.enabled || a.increment >= a.threshold
    ensures AdvancesIn(a, n) == n
    decreases n
  {
    if n > 0 {
      FastSourceAdvances(Stepped(a), n - 1);
    }
  }

  lemma QuotientAtLeast(n: nat, i: nat, d: nat)
    requires 0 < d <= i
    ensures n * i / d >= n
  {
    ProductMonotone(d, i, n);
    QuotientBounds(n * i, d);
    assert n * d < (n * i / d + 1) * d;
    FactorLess(n, n * i / d + 1, d);
  }

  lemma QuotientAtMost(n: nat, i: nat, d: nat)
    requires 0 < d && i <= d
    ensures n * i / d <= n
  {
    ProductMonotone(i, d, n);
    QuotientBounds(n * i, d);
    assert (n * i / d) * d < (n + 1) * d;
    FactorLess(n * i / d, n + 1, d);
  }

  /** The accumulator advances as often as real time asks for, but never twice in a tick. */
  lemma AdvancesClosedForm(source: Fps, output: Fps, n: nat)
    requires IsValid(source) && IsValid(output)
    ensures var i, d := source.num * output.den, output.num * source.den;
            d > 0 && (source != output ==>
              AdvancesIn(Fresh(source, output), n) == if n * i / d < n then n * i / d else n)
  {
    var i, d := Increment(source, output), Threshold(source, output);
    ThresholdPositive(source, output);
    if source != output && i <= d {
      SlowSourceAdvances(Fresh(source, output), n);
      QuotientAtMost(n, i, d);
    } else if source != output {
      FastSourceAdvances(Fresh(source, output), n);
      QuotientAtLeast(n, i, d);
    }
  }

  /**
    Pad, a source that decodes nothing and a rate outside 10 to 120 advance on every tick; any other
    advances as its own rate asks.
   */
  lemma OnlyUsableSourcesAreHeldBack(rate: Fps, output: Fps, segmentIsPad: bool, hasDecoder: bool, n: nat)
    requires IsValid(output)
    ensures var advances := AdvancesIn(Fresh(SanitizedRate(rate, output, segmentIsPad, hasDecoder), output), n);
            if segmentIsPad || !hasDecoder || rate.num == 0 || rate == FpsPair(1, 1)
               || rate.num < 10 * rate.den || rate.num > 120 * rate.den
            then advances == n
            else var i, d := rate.num * output.den, output.num * rate.den;
                 d > 0 && advances == if n * i / d < n then n * i / d else n
  {
    var used := SanitizedRate(rate, output, segmentIsPad, hasDecoder);
    if used == output {
      FastSourceAdvances(Fresh(used, output), n);
      ThresholdPositive(output, output);
      QuotientUnique(n * (output.num * output.den), output.num * output.den, n);
    } else {
      AdvancesClosedForm(used, output, n);
    }
  }

  /** Source frames consumed in n ticks: one advance takes as many as the producer's mode decodes. */
  function Consumed(source: Fps, output: Fps, n: nat): nat {
    DropStep(source, output) * AdvancesIn(Fresh(source, output), n)
  }

  /** The source is no faster than the output, or a whole number of times as fast. */
  predicate Exact(source: Fps, output: Fps) {
    var i, d := source.num * output.den, output.num * source.den;
    i <= d || (d > 0 && i % d == 0)
  }

  lemma SlowIsNoDrop(source: Fps, output: Fps)
    requires IsValid(source) && IsValid(output)
    requires Increment(source, output) <= Threshold(source, output)
    ensures DropStep(source, output) == 1
  {
    var i, d := Increment(source, output), Threshold(source, output);
    ThresholdPositive(source, output);
    if i < d {
      assert i % d == i;
    }
  }

  lemma SlowConsumption(source: Fps, output: Fps, n: nat)
    requires IsValid(source) && IsValid(output)
    requires Increment(source, output) <= Threshold(source, output)
    ensures Threshold(source, output) > 0
    ensures Consumed(source, output, n) == n * Increment(source, output) / Threshold(source, output)
  {
    var i, d := Increment(source, output), Threshold(source, output);
    ThresholdPositive(source, output);
    SlowIsNoDrop(source, output);
    if source == output {
      assert i == d;
      FastSourceAdvances(Fresh(source, output), n);
      QuotientUnique(n * i, d, n);
    } else {
      var start := Fresh(source, output);
      SlowSourceAdvances(start, n);
      assert start.budget + n * start.increment == n * i;
    }
  }

  lemma DropConsumption(source: Fps, output: Fps, n: nat)
    requires IsValid(source) && IsValid(output) && ModeOf(source, output).Drop?
    ensures Threshold(source, output) > 0
    ensures Consumed(source, output, n) == n * Increment(source, output) / Threshold(source, output)
  {
    var i, d := Increment(source, output), Threshold(source, output);
    ThresholdPositive(source, output);
    var k := i / d;
    assert i == k * d;
    assert k >= 1;
    ProductMonotone(1, k, d);
    FastSourceAdvances(Fresh(source, output), n);
    assert n * i == (k * n) * d;
    QuotientUnique(n * i, d, k * n);
  }

  /** Any other faster source is left behind: after Threshold ticks too few frames were consumed. */
  lemma InexactConsumption(source: Fps, output: Fps)
    requires IsValid(source) && IsValid(output) && !Exact(source, output)
    ensures var d := Threshold(source, output);
            d > 0 && Consumed(source, output, d) < d * Increment(source, output) / d
  {
    var i, d := Increment(source, output), Threshold(source, output);
    ThresholdPositive(source, output);
    FastSourceAdvances(Fresh(source, output), d);
    QuotientUnique(d * i, d, i);
  }

  /**
    Between two restarts of the accumulator the source keeps exact time, at every tick, exactly for
    sources that are no faster than the output or a whole number of times as fast.
   */
  lemma SourceKeepsTimeExactly(source: Fps, output: Fps)
    requires IsValid(source) && IsValid(output)
    ensures var i, d := source.num * output.den, output.num * source.den;
            d > 0 && ((i <= d || i % d == 0) <==> forall n: nat :: Consumed(source, output, n) == n * i / d)
  {
    ThresholdPositive(source, output);
    if Exact(source, output) {
      forall n: nat
        ensures Consumed(source, output, n) == n * Increment(source, output) / Threshold(source, output)
      {
        if Increment(source, output) <= Threshold(source, output) {
          SlowConsumption(source, output, n);
        } else {
          DropConsumption(source, output, n);
        }
      }
    } else {
      InexactConsumption(source, output);
    }
  }

  /** In other words, media time is never a full source frame off. */
  lemma MediaTimeIsWithinAFrame(source: Fps, output: Fps, n: nat)
    requires IsValid(source) && IsValid(output) && Exact(source, output)
    ensures var c := Consumed(source, output, n);
            c * (output.num * source.den) <= n * (source.num * output.den) < (c + 1) * (output.num * source.den)
  {
    var i, d := source.num * output.den, output.num * source.den;
    SourceKeepsTimeExactly(source, output);
    assert Consumed(source, output, n) == n * i / d;
    QuotientBounds(n * i, d);
  }

  // ---------------------------------------------------------------------------
  // The fill thread's gate
  // ---------------------------------------------------------------------------

  /** The fill thread seeds its budget and its threshold the other way round. */
  function FillGate(source: Fps, output: Fps): Accumulator {
    Accumulator(true, Threshold(source, output), Increment(source, output), Increment(source, output))
  }

  /** So it never holds a decode back. */
  lemma FillGateAlwaysDecodes(source: Fps, output: Fps, n: nat)
    ensures AdvancesIn(FillGate(source, output), n) == n
  {
    FastSourceAdvances(FillGate(source, output), n);
  }
}
