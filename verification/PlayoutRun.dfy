/**
  Whole runs of the tick loop, seen through its seams and its evidence.

  Between two ticks the loop may swap a segment at a pending segment seam, take the
  next block (or fall into a padded gap) at a pending block seam, or leave a gap.
  A pending seam need not be served at once: an incoming segment that is not ready and
  a degraded take both defer, so every theorem here covers arbitrary delays.
 */
module PlayoutRun {
  import opened Rational
  import opened SeamScheduler
  import opened EvidenceTrail

  /** A block as the producer hands it over; the boundaries are missing when a probe failed. */
  datatype Fed = Fed(block: FedBlock, ends: seq<int>)

  datatype Engine = Engine(
    tick: nat,
    playing: bool,
    timelineEndMs: int,   // where the next contiguous block must start
    first: bool,          // still on the block that was live when the clock was re-anchored
    seams: Seams,
    evidence: Evidence)

  datatype Action = NextTick | SwapSegment | TakeBlock(next: Fed) | TakeNothing | LeaveGap(incoming: Fed)

  function EmptySeams(fps: Fps, epochMs: int): Seams {
    Seams(fps, epochMs, UNARMED, 0, [], 0, UNARMED, NoSeam, FedBlock("", 0, 0, []))
  }

  function GoLive(e: Engine, fed: Fed): Engine {
    var s := Activate(e.seams, fed.block, fed.ends, e.tick);
    var started := OnBlockStarted(e.evidence, fed.block, LiveActivation(e.tick, s.fence));
    e.(playing := true, timelineEndMs := fed.block.endUtcMs, seams := s,
       evidence := OnSegmentStart(started, -1, 0, fed.block, e.tick))
  }

  /** The session's first block goes live on frame 0, then the clock start re-anchors the epoch. */
  function Begin(fps: Fps, joinMs: int, epochMs: int, fed: Fed): Engine {
    var idle := Engine(0, false, fed.block.startUtcMs, true, EmptySeams(fps, joinMs), NoEvidence());
    var live := GoLive(idle, fed);
    live.(seams := Reanchor(live.seams, epochMs, 0))
  }

  predicate Pending(e: Engine, kind: SeamType) {
    e.playing && e.tick >= e.seams.next && e.seams.kind == kind
  }

  predicate Enabled(e: Engine, a: Action) {
    match a
    case NextTick => true
    case SwapSegment => Pending(e, SegmentSeam)
    case TakeBlock(fed) => Pending(e, BlockSeam) && Feedable(e, fed)
    case TakeNothing => Pending(e, BlockSeam)
    case LeaveGap(fed) => !e.playing && Feedable(e, fed)
  }

  function Apply(e: Engine, a: Action): Engine {
    match a
    case NextTick => e.(tick := e.tick + 1)
    case SwapSegment =>
      var from := e.seams.current;
      e.(seams := Swap(e.seams, e.tick),
         evidence := OnSegmentStart(e.evidence, from, from + 1, e.seams.block, e.tick))
    case TakeBlock(fed) =>
      GoLive(e.(first := false, evidence := OnBlockCompleted(e.evidence, e.seams.block, e.tick)), fed)
    case TakeNothing =>
      e.(first := false, playing := false, seams := EnterGap(e.seams),
         evidence := OnBlockCompleted(e.evidence, e.seams.block, e.tick))
    case LeaveGap(fed) => GoLive(e, fed)
  }

  predicate Legal(e: Engine, run: seq<Action>)
    decreases |run|
  {
    run == [] || (Enabled(e, run[0]) && Legal(Apply(e, run[0]), run[1..]))
  }

  function After(e: Engine, run: seq<Action>): Engine
    decreases |run|
  {
    if run == [] then e else After(Apply(e, run[0]), run[1..])
  }

  // ---------------------------------------------------------------------------
  // Premises on what is fed
  // ---------------------------------------------------------------------------

  function TotalMs(segments: seq<Segment>): int {
    if segments == [] then 0 else TotalMs(segments[..|segments| - 1]) + segments[|segments| - 1].durationMs
  }

  function CumulativeEnds(segments: seq<Segment>): seq<int> {
    seq(|segments|, i requires 0 <= i < |segments| => TotalMs(segments[..i + 1]))
  }

  predicate WellFormed(fed: Fed) {
    var b := fed.block;
    && b.segments != []
    && (forall i :: 0 <= i < |b.segments| ==> b.segments[i].durationMs > 0)
    && TotalMs(b.segments) == b.endUtcMs - b.startUtcMs
    && (fed.ends == [] || fed.ends == CumulativeEnds(b.segments))
  }

  /** Contiguous with the block before it, and its fence fits in 64 bits. */
  predicate Feedable(e: Engine, fed: Fed) {
    && WellFormed(fed)
    && fed.block.startUtcMs == e.timelineEndMs
    && FenceFrame(e.seams.fps, e.seams.fenceEpochMs, fed.block.endUtcMs) < UNARMED
  }

  predicate Startable(fps: Fps, joinMs: int, epochMs: int, fed: Fed) {
    && IsValid(fps)
    && WellFormed(fed)
    && fed.block.startUtcMs <= epochMs
    && FenceFrame(fps, joinMs, fed.block.endUtcMs) < UNARMED
    && FenceFrame(fps, epochMs, fed.block.endUtcMs) < UNARMED
  }

  // ---------------------------------------------------------------------------
  // Ceilings stack up
  // ---------------------------------------------------------------------------

  function Stacked(fps: Fps, segments: seq<Segment>): int {
    if segments == [] then 0
    else Stacked(fps, segments[..|segments| - 1]) + FramesCeil(fps, segments[|segments| - 1].durationMs)
  }

  lemma {:induction false} StackedCoversTotal(fps: Fps, segments: seq<Segment>)
    requires IsValid(fps)
    requires forall i :: 0 <= i < |segments| ==> segments[i].durationMs > 0
    ensures TotalMs(segments) >= 0 && FramesUntil(fps, TotalMs(segments)) <= Stacked(fps, segments)
  {
    if segments != [] {
      var rest, d := segments[..|segments| - 1], segments[|segments| - 1].durationMs;
      StackedCoversTotal(fps, rest);
      FramesCeilSuperadditive(fps, TotalMs(rest), d);
      FramesCeilPositive(fps, TotalMs(rest));
    }
  }

  lemma StackedStep(fps: Fps, segments: seq<Segment>, k: nat)
    requires k < |segments|
    ensures Stacked(fps, segments[..k + 1]) == Stacked(fps, segments[..k]) + FramesCeil(fps, segments[k].durationMs)
  {
    assert segments[..k + 1][..k] == segments[..k];
  }

  /** A block that starts no earlier than its own start's frame, stacked to its end, reaches its fence. */
  lemma StackedReachesFence(fps: Fps, epochMs: int, activation: int, b: FedBlock)
    requires IsValid(fps)
    requires forall i :: 0 <= i < |b.segments| ==> b.segments[i].durationMs > 0
    requires TotalMs(b.segments) == b.endUtcMs - b.startUtcMs
    requires activation >= FenceFrame(fps, epochMs, b.startUtcMs)
    ensures activation + Stacked(fps, b.segments) >= FenceFrame(fps, epochMs, b.endUtcMs)
  {
    StackedCoversTotal(fps, b.segments);
    var before, total := b.startUtcMs - epochMs, TotalMs(b.segments);
    FramesCeilPositive(fps, before);
    FramesCeilPositive(fps, total);
    if before >= 0 {
      FramesCeilSuperadditive(fps, before, total);
      FramesCeilPositive(fps, before + total);
    } else if before + total > 0 {
      FramesCeilMonotone(fps, before + total, total);
    }
  }

  // ---------------------------------------------------------------------------
  // What every reachable state satisfies
  // ---------------------------------------------------------------------------

  predicate Timed(e: Engine) {
    var s := e.seams;
    && IsValid(s.fps)
    && s.activation <= e.evidence.live.startFrame <= e.tick
    && e.evidence.live.startFrame < s.next
    && s.current < |s.block.segments|
    && s.fence == FenceFrame(s.fps, s.fenceEpochMs, s.block.endUtcMs) < UNARMED
    && s.activation >= FenceFrame(s.fps, s.fenceEpochMs, s.block.startUtcMs)
    && (s.kind == BlockSeam ==> s.next >= s.fence)
    && (s.kind == SegmentSeam ==>
        && s.current + 1 < |s.block.segments|
        && s.next < s.fence
        && s.next >= s.activation + Stacked(s.fps, s.block.segments[..s.current + 1]))
  }

  predicate Attested(e: Engine) {
    var live, s := e.evidence.live, e.seams;
    && live.index == s.current && live.blockId == s.block.id
    && e.evidence.activation.timelineFrame == s.activation
    && (e.first || e.evidence.activation.fenceTick == s.fence)
    && ReadAll(e.evidence.trail) == Airing(s.block.id, live.eventId, s.current, live.startFrame - s.activation)
  }

  predicate Inv(e: Engine) {
    && IsValid(e.seams.fps)
    && JoinFlagKept(e.evidence)
    && (if e.playing then
          && WellFormed(Fed(e.seams.block, []))
          && e.timelineEndMs == e.seams.block.endUtcMs
          && e.seams.kind != NoSeam
          && e.evidence.firstStartEmitted
          && Timed(e)
          && Attested(e)
        else
          && ReadAll(e.evidence.trail) == Idle
          && e.tick >= FenceFrame(e.seams.fps, e.seams.fenceEpochMs, e.timelineEndMs))
  }

  lemma ActivationIsTimed(s: Seams, fed: Fed, tick: int)
    requires IsValid(s.fps) && WellFormed(fed)
    requires FenceFrame(s.fps, s.fenceEpochMs, fed.block.endUtcMs) < UNARMED
    ensures var t := Activate(s, fed.block, fed.ends, tick);
            && SeamInvariant(t, tick)
            && (t.kind == BlockSeam ==> t.next >= t.fence)
            && (t.kind == SegmentSeam ==> t.next >= tick + Stacked(t.fps, t.block.segments[..1]))
  {
    ActivateEstablishesInvariant(s, fed.block, fed.ends, tick);
    FirstSeamIsTimed(s.fps, fed.block.segments, tick);
  }

  lemma FirstSeamIsTimed(fps: Fps, segments: seq<Segment>, tick: int)
    requires IsValid(fps) && segments != [] && segments[0].durationMs > 0
    ensures Stacked(fps, segments[..1]) == FramesCeil(fps, segments[0].durationMs) > 0
    ensures PlannedSeams(fps, tick, CumulativeEnds(segments))[0] == tick + FramesCeil(fps, segments[0].durationMs)
  {
    StackedStep(fps, segments, 0);
    assert segments[..1][..0] == [];
    assert TotalMs(segments[..1]) == segments[0].durationMs;
    FramesCeilPositive(fps, segments[0].durationMs);
  }

  lemma GoLiveKeepsInvariant(e: Engine, fed: Fed)
    requires Inv(e) && !e.playing && Feedable(e, fed)
    ensures Inv(GoLive(e, fed))
  {
    var f := GoLive(e, fed);
    ActivationIsTimed(e.seams, fed, e.tick);
    var ctx := LiveActivation(e.tick, f.seams.fence);
    OpeningReads(e.evidence, fed.block, ctx, e.tick);
    CallbacksKeepJoinFlag(e.evidence, fed.block, ctx, -1, 0, e.tick);
    CallbacksKeepJoinFlag(OnBlockStarted(e.evidence, fed.block, ctx), fed.block, ctx, -1, 0, e.tick);
  }

  lemma SwapKeepsInvariant(e: Engine)
    requires Inv(e) && Pending(e, SegmentSeam)
    ensures Inv(Apply(e, SwapSegment))
  {
    var s := e.seams;
    SwapKeepsTimed(e);
    SwapKeepsAttested(e);
    CallbacksKeepJoinFlag(e.evidence, s.block, e.evidence.activation, s.current, s.current + 1, e.tick);
  }

  lemma SwapKeepsAttested(e: Engine)
    requires Inv(e) && Pending(e, SegmentSeam)
    ensures Attested(Apply(e, SwapSegment))
    ensures Apply(e, SwapSegment).evidence.firstStartEmitted
  {
    var s := e.seams;
    SwapReads(e.evidence, s.block, s.current, e.tick, e.evidence.live.startFrame - s.activation);
  }

  lemma SwapKeepsTimed(e: Engine)
    requires Inv(e) && Pending(e, SegmentSeam)
    ensures Timed(Apply(e, SwapSegment)) && Apply(e, SwapSegment).seams.kind != NoSeam
  {
    var s, t := e.seams, Swap(e.seams, e.tick);
    SwapEstablishesInvariant(s, e.tick);
    StackedStep(s.fps, s.block.segments, s.current + 1);
    FramesCeilPositive(s.fps, s.block.segments[s.current + 1].durationMs);
    if t.IsLast() {
      assert s.block.segments[..s.current + 2] == s.block.segments;
      StackedReachesFence(s.fps, s.fenceEpochMs, s.activation, s.block);
    }
  }

  lemma CompletionKeepsInvariant(e: Engine)
    requires Inv(e) && Pending(e, BlockSeam)
    ensures Inv(Apply(e, TakeNothing))
  {
    CompletionReads(e.evidence, e.seams.block, e.tick, e.seams.current);
    CallbacksKeepJoinFlag(e.evidence, e.seams.block, e.evidence.activation, -1, 0, e.tick);
  }

  lemma ApplyKeepsInvariant(e: Engine, a: Action)
    requires Inv(e) && Enabled(e, a)
    ensures Inv(Apply(e, a))
  {
    match a
    case NextTick =>
    case SwapSegment => SwapKeepsInvariant(e);
    case TakeBlock(fed) =>
      CompletionKeepsInvariant(e);
      var gap := Apply(e, TakeNothing);
      GoLiveKeepsInvariant(gap, fed);
      assert GoLive(gap, fed) == Apply(e, a);
    case TakeNothing => CompletionKeepsInvariant(e);
    case LeaveGap(fed) => GoLiveKeepsInvariant(e, fed);
  }

  /** Re-anchoring the epoch moves the fence and keeps what activation planned. */
  lemma ReanchoredIsTimed(s: Seams, epochMs: int, fed: Fed)
    requires IsValid(s.fps) && WellFormed(fed)
    requires s.block == fed.block && s.current == 0 && s.planned == PlannedSeams(s.fps, 0, fed.ends)
    requires FenceFrame(s.fps, epochMs, fed.block.endUtcMs) < UNARMED
    ensures var t := Reanchor(s, epochMs, 0);
            && SeamInvariant(t, 0)
            && (t.kind == BlockSeam ==> t.next >= t.fence)
            && (t.kind == SegmentSeam ==> t.next >= Stacked(t.fps, t.block.segments[..1]))
  {
    ReanchorEstablishesInvariant(s, epochMs, 0);
    FirstSeamIsTimed(s.fps, fed.block.segments, 0);
  }

  lemma FirstOpeningReads(fed: Fed, ctx: LiveActivation)
    requires fed.block.segments != []
    ensures var f := OnSegmentStart(OnBlockStarted(NoEvidence(), fed.block, ctx), -1, 0, fed.block, 0);
            && ReadAll(f.trail) == Airing(fed.block.id, fed.block.segments[0].eventId, 0, 0)
            && f.live == LiveSegment(fed.block.id, fed.block.segments[0].eventId, 0, 0)
            && f.activation == ctx && f.firstStartEmitted && JoinFlagKept(f)
            && SwapsMatchFences(f.trail) && LastFence(f.trail) == []
  {
    OpeningReads(NoEvidence(), fed.block, ctx, 0);
    CallbacksKeepJoinFlag(NoEvidence(), fed.block, ctx, -1, 0, 0);
    CallbacksKeepJoinFlag(OnBlockStarted(NoEvidence(), fed.block, ctx), fed.block, ctx, -1, 0, 0);
  }

  lemma BeginIsTimed(fps: Fps, joinMs: int, epochMs: int, fed: Fed)
    requires Startable(fps, joinMs, epochMs, fed)
    ensures Timed(Begin(fps, joinMs, epochMs, fed)) && Begin(fps, joinMs, epochMs, fed).seams.kind != NoSeam
  {
    ReanchoredIsTimed(Activate(EmptySeams(fps, joinMs), fed.block, fed.ends, 0), epochMs, fed);
    FirstOpeningReads(fed, LiveActivation(0, Activate(EmptySeams(fps, joinMs), fed.block, fed.ends, 0).fence));
  }

  lemma BeginIsAttested(fps: Fps, joinMs: int, epochMs: int, fed: Fed)
    requires Startable(fps, joinMs, epochMs, fed)
    ensures var e := Begin(fps, joinMs, epochMs, fed);
            Attested(e) && JoinFlagKept(e.evidence) && e.evidence.firstStartEmitted
  {
    FirstOpeningReads(fed, LiveActivation(0, Activate(EmptySeams(fps, joinMs), fed.block, fed.ends, 0).fence));
  }

  lemma BeginKeepsInvariant(fps: Fps, joinMs: int, epochMs: int, fed: Fed)
    requires Startable(fps, joinMs, epochMs, fed)
    ensures Inv(Begin(fps, joinMs, epochMs, fed))
  {
    BeginIsTimed(fps, joinMs, epochMs, fed);
    BeginIsAttested(fps, joinMs, epochMs, fed);
  }

  lemma {:induction false} RunKeepsInvariant(e: Engine, run: seq<Action>)
    requires Inv(e) && Legal(e, run)
    ensures Inv(After(e, run))
    decreases |run|
  {
    if run != [] {
      ApplyKeepsInvariant(e, run[0]);
      RunKeepsInvariant(Apply(e, run[0]), run[1..]);
    }
  }

  /** The rate and the epoch the session began with hold throughout. */
  lemma {:induction false} RunKeepsClock(e: Engine, run: seq<Action>)
    requires Legal(e, run)
    ensures After(e, run).seams.fps == e.seams.fps && After(e, run).seams.fenceEpochMs == e.seams.fenceEpochMs
    decreases |run|
  {
    if run != [] {
      RunKeepsClock(Apply(e, run[0]), run[1..]);
    }
  }

  /**
    The main result, over every run with arbitrarily late swaps and takes.
    No block is taken before its fence, no block goes live before its own start's frame, a
    pending segment seam has a successor and lies before the fence, and the evidence reads as
    the grammar demands.
   */
  lemma EveryRun(fps: Fps, joinMs: int, epochMs: int, fed: Fed, run: seq<Action>)
    requires Startable(fps, joinMs, epochMs, fed) && Legal(Begin(fps, joinMs, epochMs, fed), run)
    ensures var e := After(Begin(fps, joinMs, epochMs, fed), run);
            var s := e.seams;
            && s.fps == fps && s.fenceEpochMs == epochMs
            && (e.playing ==> s.activation >= FenceFrame(fps, epochMs, s.block.startUtcMs))
            && (e.playing ==> s.fence == FenceFrame(fps, epochMs, s.block.endUtcMs))
            && (Pending(e, BlockSeam) ==> e.tick >= FenceFrame(fps, epochMs, s.block.endUtcMs))
            && (Pending(e, SegmentSeam) ==> s.current + 1 < |s.block.segments| && s.next < s.fence)
            && ReadAll(e.evidence.trail) != Illegal
            && (e.playing <==> ReadAll(e.evidence.trail) != Idle)
            && OnlyFirstStartJoins(e.evidence.trail)
  {
    BeginKeepsInvariant(fps, joinMs, epochMs, fed);
    RunKeepsInvariant(Begin(fps, joinMs, epochMs, fed), run);
    RunKeepsClock(Begin(fps, joinMs, epochMs, fed), run);
  }

  /** Starting a block ahead of the epoch is what the premise on the first block rules out. */
  lemma FirstBlockPremiseIsExact(fps: Fps, joinMs: int, epochMs: int, fed: Fed)
    requires IsValid(fps)
    ensures Begin(fps, joinMs, epochMs, fed).seams.activation >= FenceFrame(fps, epochMs, fed.block.startUtcMs)
       <==> fed.block.startUtcMs <= epochMs
  {
    FramesCeilPositive(fps, fed.block.startUtcMs - epochMs);
  }

  // ---------------------------------------------------------------------------
  // Runs that defer nothing
  // ---------------------------------------------------------------------------

  /** The block reaches from one frame into a later one. */
  predicate Spans(s: Seams) {
    FenceFrame(s.fps, s.fenceEpochMs, s.block.startUtcMs) < FenceFrame(s.fps, s.fenceEpochMs, s.block.endUtcMs)
  }

  /** A pending seam is served before the next tick, by a block if it is a block seam. */
  predicate Prompt(e: Engine, a: Action) {
    && (a == NextTick ==> !(e.playing && e.tick >= e.seams.next))
    && a != TakeNothing
  }

  /** Prompt all along, and every block that has been played to its end spans. */
  predicate PromptRun(e: Engine, run: seq<Action>)
    decreases |run|
  {
    run == [] ||
    (Enabled(e, run[0]) && Prompt(e, run[0]) && (run[0].TakeBlock? ==> Spans(e.seams)) &&
     PromptRun(Apply(e, run[0]), run[1..]))
  }

  predicate OnTime(e: Engine) {
    var s := e.seams;
    && Inv(e) && e.playing
    && e.tick <= s.next
    && s.activation == FenceFrame(s.fps, s.fenceEpochMs, s.block.startUtcMs)
    && (if Spans(s) then s.next <= s.fence && (s.kind == BlockSeam ==> s.next == s.fence)
        else s.kind == BlockSeam && s.next > s.fence)
  }

  /** The evidence names the real fences, and every swap so far happened on one. */
  predicate FencesAttested(e: Engine) {
    && e.evidence.activation.fenceTick == e.seams.fence
    && SwapsMatchFences(e.evidence.trail)
  }

  lemma PromptTakeStaysOnTime(e: Engine, fed: Fed)
    requires OnTime(e) && Spans(e.seams) && Enabled(e, TakeBlock(fed))
    ensures OnTime(Apply(e, TakeBlock(fed)))
    ensures FencesAttested(e) ==> FencesAttested(Apply(e, TakeBlock(fed)))
  {
    var gap := Apply(e, TakeNothing);
    ApplyKeepsInvariant(e, TakeBlock(fed));
    ActivationIsTimed(gap.seams, fed, e.tick);
    CompletionReads(e.evidence, e.seams.block, e.tick, e.seams.current);
    var s := Activate(gap.seams, fed.block, fed.ends, e.tick);
    assert Apply(e, TakeBlock(fed)).seams == s;
    OpeningReads(gap.evidence, fed.block, LiveActivation(e.tick, s.fence), e.tick);
    StackedCoversTotal(s.fps, fed.block.segments);
    if fed.block.startUtcMs > s.fenceEpochMs {
      FramesCeilMonotone(s.fps, fed.block.startUtcMs - s.fenceEpochMs, fed.block.endUtcMs - s.fenceEpochMs);
    } else {
      FramesCeilPositive(s.fps, fed.block.endUtcMs - s.fenceEpochMs);
    }
  }

  lemma PromptSwapStaysOnTime(e: Engine)
    requires OnTime(e) && Enabled(e, SwapSegment)
    ensures OnTime(Apply(e, SwapSegment))
    ensures FencesAttested(e) ==> FencesAttested(Apply(e, SwapSegment))
  {
    ApplyKeepsInvariant(e, SwapSegment);
    SwapEstablishesInvariant(e.seams, e.tick);
    SwapReads(e.evidence, e.seams.block, e.seams.current, e.tick, e.evidence.live.startFrame - e.seams.activation);
  }

  lemma {:induction false} PromptRunStaysOnTime(e: Engine, run: seq<Action>)
    requires OnTime(e) && PromptRun(e, run)
    ensures OnTime(After(e, run))
    ensures FencesAttested(e) ==> FencesAttested(After(e, run))
    decreases |run|
  {
    if run != [] {
      match run[0] {
        case NextTick => ApplyKeepsInvariant(e, NextTick);
        case SwapSegment => PromptSwapStaysOnTime(e);
        case TakeBlock(fed) => PromptTakeStaysOnTime(e, fed);
      }
      PromptRunStaysOnTime(Apply(e, run[0]), run[1..]);
    }
  }

  lemma BeginIsOnTime(fps: Fps, joinMs: int, epochMs: int, fed: Fed)
    requires Startable(fps, joinMs, epochMs, fed)
    ensures var e := Begin(fps, joinMs, epochMs, fed);
            && OnTime(e)
            && (FencesAttested(e) <==>
                FenceFrame(fps, joinMs, fed.block.endUtcMs) == FenceFrame(fps, epochMs, fed.block.endUtcMs))
  {
    BeginKeepsInvariant(fps, joinMs, epochMs, fed);
    var s := Activate(EmptySeams(fps, joinMs), fed.block, fed.ends, 0);
    ReanchoredIsTimed(s, epochMs, fed);
    FirstOpeningReads(fed, LiveActivation(0, s.fence));
    FramesCeilPositive(fps, fed.block.endUtcMs - epochMs);
  }

  lemma {:induction false} PromptRunKeepsClock(e: Engine, run: seq<Action>)
    requires PromptRun(e, run)
    ensures After(e, run).seams.fps == e.seams.fps && After(e, run).seams.fenceEpochMs == e.seams.fenceEpochMs
    decreases |run|
  {
    if run != [] {
      PromptRunKeepsClock(Apply(e, run[0]), run[1..]);
    }
  }

  /**
    When nothing is deferred, every block goes live exactly on its start's frame, and its fence
    fires exactly on time if and only if the block spans a frame boundary: a shorter one is
    corrected to at least one frame and overruns. Provided the bootstrap delay did not move the
    first fence, each BLOCK_START is then on the tick the BLOCK_FENCE before it reported.
   */
  lemma EveryPromptRun(fps: Fps, joinMs: int, epochMs: int, fed: Fed, run: seq<Action>)
    requires Startable(fps, joinMs, epochMs, fed) && PromptRun(Begin(fps, joinMs, epochMs, fed), run)
    ensures var e := After(Begin(fps, joinMs, epochMs, fed), run);
            var s := e.seams;
            && e.playing && s.fps == fps && s.fenceEpochMs == epochMs
            && s.activation == FenceFrame(fps, epochMs, s.block.startUtcMs)
            && s.fence == FenceFrame(fps, epochMs, s.block.endUtcMs)
            && (Pending(e, BlockSeam) ==> (e.tick == s.fence <==> Spans(s)))
            && (FenceFrame(fps, joinMs, fed.block.endUtcMs) == FenceFrame(fps, epochMs, fed.block.endUtcMs) ==>
                SwapsMatchFences(e.evidence.trail))
  {
    BeginIsOnTime(fps, joinMs, epochMs, fed);
    PromptRunStaysOnTime(Begin(fps, joinMs, epochMs, fed), run);
    PromptRunKeepsClock(Begin(fps, joinMs, epochMs, fed), run);
  }

  // ---------------------------------------------------------------------------
  // One session, written out
  // ---------------------------------------------------------------------------

  const SHORT_BLOCK := FedBlock("b", 0, 2000, [Segment("x", 1000, 0), Segment("y", 1000, 500)])

  lemma ShortBlockCanStart()
    ensures Startable(FpsPair(1, 1), 0, 0, Fed(SHORT_BLOCK, [1000, 2000]))
  {
    var segments := SHORT_BLOCK.segments;
    assert segments[..1] == [segments[0]] && segments[..2] == segments;
    assert [segments[0]][..0] == [];
    assert segments[..|segments| - 1] == [segments[0]];
    assert TotalMs([segments[0]]) == 1000 && TotalMs(segments) == 2000;
    assert CumulativeEnds(segments) == [1000, 2000];
  }

  const SHORT_OPENED := Engine(
    0, true, 2000, true,
    Seams(FpsPair(1, 1), 0, 2, 0, [1, 2], 0, 1, SegmentSeam, SHORT_BLOCK),
    Evidence(LiveSegment("b", "x", 0, 0), LiveActivation(0, 2), true,
             [BlockStart("b", 0), SegmentStart("b", "x", 0, 1000, false)]))

  lemma ShortSessionOpens()
    ensures Begin(FpsPair(1, 1), 0, 0, Fed(SHORT_BLOCK, [1000, 2000])) == SHORT_OPENED
  {
    assert PlannedSeams(FpsPair(1, 1), 0, [1000, 2000]) == [1, 2];
  }

  lemma ShortSessionRuns()
    ensures var run := [NextTick, SwapSegment, NextTick, TakeNothing];
            && Legal(SHORT_OPENED, run)
            && After(SHORT_OPENED, run).evidence.trail == [
                 BlockStart("b", 0),
                 SegmentStart("b", "x", 0, 1000, false),
                 SegmentEnd("b", "x", 1),
                 SegmentStart("b", "y", 1, 1000, false),
                 SegmentEnd("b", "y", 1),
                 BlockFence("b", 2, 2, false)]
  {
    var run := [NextTick, SwapSegment, NextTick, TakeNothing];
    var f := Apply(Apply(SHORT_OPENED, NextTick), SwapSegment);
    var g := Apply(f, NextTick);
    assert run[1..] == [SwapSegment, NextTick, TakeNothing];
    assert run[1..][1..] == [NextTick, TakeNothing];
    assert run[1..][1..][1..] == [TakeNothing] && [TakeNothing][1..] == [];
    assert Legal(g, [TakeNothing]) && Legal(f, [NextTick, TakeNothing]);
    assert After(f, [NextTick, TakeNothing]) == Apply(g, TakeNothing);
  }

  /** One frame a second, two segments of a second each: what the trail holds when the block has run. */
  lemma ShortSession()
    ensures var fps, fed := FpsPair(1, 1), Fed(SHORT_BLOCK, [1000, 2000]);
            var run := [NextTick, SwapSegment, NextTick, TakeNothing];
            && Startable(fps, 0, 0, fed) && Legal(Begin(fps, 0, 0, fed), run)
            && After(Begin(fps, 0, 0, fed), run).evidence.trail == [
                 BlockStart("b", 0),
                 SegmentStart("b", "x", 0, 1000, false),
                 SegmentEnd("b", "x", 1),
                 SegmentStart("b", "y", 1, 1000, false),
                 SegmentEnd("b", "y", 1),
                 BlockFence("b", 2, 2, false)]
  {
    ShortBlockCanStart();
    ShortSessionOpens();
    ShortSessionRuns();
  }
}
