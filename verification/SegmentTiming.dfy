/**
  When each segment of a running session ends, from the durations of the plan, and the evidence an
  undisturbed session leaves, written down from the plan alone.
 */
module SegmentTiming {
  import opened Rational
  import opened SeamScheduler
  import opened EvidenceTrail
  import opened PlayoutRun

  /** The block that a run has live, or had last. */
  function LastFed(first: Fed, run: seq<Action>): Fed
    decreases |run|
  {
    if run == [] then first
    else
      match run[0]
      case TakeBlock(fed) => LastFed(fed, run[1..])
      case LeaveGap(fed) => LastFed(fed, run[1..])
      case _ => LastFed(first, run[1..])
  }

  // ---------------------------------------------------------------------------
  // Every run
  // ---------------------------------------------------------------------------

  /**
    The live segment is due after its own duration, counted from the tick it really went live. A
    segment seam ends it there, if it has a successor, a known boundary and the fence still ahead then;
    else the fence does, or its duration if it went live at the fence or later.
   */
  predicate EndsWhenDue(e: Engine, fed: Fed) {
    var s, start := e.seams, e.evidence.live.startFrame;
    && s.block == fed.block && s.current < |s.block.segments|
    && (fed.ends == [] ==> s.current == 0)
    && var due := start + FramesCeil(s.fps, s.block.segments[s.current].durationMs);
       && (s.kind == SegmentSeam <==> fed.ends != [] && s.current + 1 < |s.block.segments| && due < s.fence)
       && s.next == (if s.kind == SegmentSeam || s.fence <= start then due else s.fence)
  }

  /** A gap owns no timeline. */
  predicate Scheduled(e: Engine, fed: Fed) {
    if e.playing then EndsWhenDue(e, fed)
    else e.seams.fence == UNARMED && e.seams.next == UNARMED && e.seams.kind == NoSeam
  }

  lemma ActivationEndsWhenDue(s: Seams, fed: Fed, tick: int)
    requires IsValid(s.fps) && WellFormed(fed)
    requires FenceFrame(s.fps, s.fenceEpochMs, fed.block.endUtcMs) < UNARMED
    ensures var t := Activate(s, fed.block, fed.ends, tick);
            var due := tick + FramesCeil(s.fps, fed.block.segments[0].durationMs);
            && (t.kind == SegmentSeam <==> fed.ends != [] && 1 < |fed.block.segments| && due < t.fence)
            && t.next == (if t.kind == SegmentSeam || t.fence <= tick then due else t.fence)
  {
    FirstSeamIsTimed(s.fps, fed.block.segments, tick);
  }

  lemma GoLiveEndsWhenDue(e: Engine, fed: Fed)
    requires Inv(e) && !e.playing && Feedable(e, fed)
    ensures EndsWhenDue(GoLive(e, fed), fed)
  {
    ActivationEndsWhenDue(e.seams, fed, e.tick);
    OpeningReads(e.evidence, fed.block, LiveActivation(e.tick, GoLive(e, fed).seams.fence), e.tick);
  }

  lemma SwapEndsWhenDue(e: Engine, fed: Fed)
    requires Inv(e) && Pending(e, SegmentSeam) && EndsWhenDue(e, fed)
    ensures EndsWhenDue(Apply(e, SwapSegment), fed)
  {
    var s := e.seams;
    FramesCeilPositive(s.fps, s.block.segments[s.current + 1].durationMs);
    SwapKeepsTimed(e);
    SwapRebasesOnTick(s, e.tick);
    assert Apply(e, SwapSegment).evidence.live.startFrame == e.tick;
  }

  lemma TakeEndsWhenDue(e: Engine, next: Fed)
    requires Inv(e) && Enabled(e, TakeBlock(next))
    ensures EndsWhenDue(Apply(e, TakeBlock(next)), next)
  {
    CompletionKeepsInvariant(e);
    var gap := Apply(e, TakeNothing);
    GoLiveEndsWhenDue(gap, next);
    assert GoLive(gap, next) == Apply(e, TakeBlock(next));
  }

  lemma ApplyEndsWhenDue(e: Engine, fed: Fed, a: Action)
    requires Inv(e) && Enabled(e, a) && Scheduled(e, fed)
    ensures Scheduled(Apply(e, a), LastFed(fed, [a]))
  {
    assert [a][1..] == [];
    match a
    case NextTick =>
    case SwapSegment => SwapEndsWhenDue(e, fed);
    case TakeBlock(next) => TakeEndsWhenDue(e, next);
    case TakeNothing =>
    case LeaveGap(next) => GoLiveEndsWhenDue(e, next);
  }

  lemma LastFedStep(fed: Fed, run: seq<Action>)
    requires run != []
    ensures LastFed(fed, run) == LastFed(LastFed(fed, [run[0]]), run[1..])
  {
    assert [run[0]][1..] == [];
  }

  lemma {:induction false} RunEndsWhenDue(e: Engine, fed: Fed, run: seq<Action>)
    requires Inv(e) && Legal(e, run) && Scheduled(e, fed)
    ensures Scheduled(After(e, run), LastFed(fed, run))
    decreases |run|
  {
    if run != [] {
      ApplyKeepsInvariant(e, run[0]);
      ApplyEndsWhenDue(e, fed, run[0]);
      LastFedStep(fed, run);
      RunEndsWhenDue(Apply(e, run[0]), LastFed(fed, [run[0]]), run[1..]);
    }
  }

  lemma BeginEndsWhenDue(fps: Fps, joinMs: int, epochMs: int, fed: Fed)
    requires Startable(fps, joinMs, epochMs, fed)
    ensures EndsWhenDue(Begin(fps, joinMs, epochMs, fed), fed)
  {
    var s := Activate(EmptySeams(fps, joinMs), fed.block, fed.ends, 0);
    FirstSeamIsTimed(fps, fed.block.segments, 0);
    FirstOpeningReads(fed, LiveActivation(0, s.fence));
  }

  /**
    Over every run with arbitrarily late swaps and takes: the live block is the one fed last, the live
    segment ends when due, and a gap owns no timeline.
   */
  lemma EverySegmentEndsWhenDue(fps: Fps, joinMs: int, epochMs: int, fed: Fed, run: seq<Action>)
    requires Startable(fps, joinMs, epochMs, fed) && Legal(Begin(fps, joinMs, epochMs, fed), run)
    ensures var e := After(Begin(fps, joinMs, epochMs, fed), run);
            var s, live, last := e.seams, e.evidence.live, LastFed(fed, run);
            if e.playing then
              && s.block == last.block && live.index == s.current < |s.block.segments|
              && var due := live.startFrame + FramesCeil(fps, s.block.segments[s.current].durationMs);
                 if last.ends != [] && s.current + 1 < |s.block.segments| && due < s.fence
                 then s.kind == SegmentSeam && s.next == due
                 else s.kind == BlockSeam && s.next == if s.fence <= live.startFrame then due else s.fence
            else s.kind == NoSeam && s.next == UNARMED && s.fence == UNARMED
  {
    BeginKeepsInvariant(fps, joinMs, epochMs, fed);
    BeginEndsWhenDue(fps, joinMs, epochMs, fed);
    RunKeepsInvariant(Begin(fps, joinMs, epochMs, fed), run);
    RunKeepsClock(Begin(fps, joinMs, epochMs, fed), run);
    RunEndsWhenDue(Begin(fps, joinMs, epochMs, fed), fed, run);
  }

  // ---------------------------------------------------------------------------
  // The plan's own evidence
  // ---------------------------------------------------------------------------

  /** A block's events up to the start of its segment k, each earlier one aired for its whole duration. */
  function OpenTrail(fps: Fps, b: FedBlock, activation: int, k: nat, joins: bool): seq<Event>
    requires k < |b.segments|
  {
    var seg := b.segments[k];
    if k == 0 then
      [BlockStart(b.id, activation), SegmentStart(b.id, seg.eventId, 0, seg.durationMs, joins)]
    else
      var before := b.segments[k - 1];
      OpenTrail(fps, b, activation, k - 1, joins)
      + [SegmentEnd(b.id, before.eventId, FramesCeil(fps, before.durationMs))]
      + [SegmentStart(b.id, seg.eventId, k, seg.durationMs, false)]
  }

  /** The last of the segments up to k that is stacked to start before the fence; the first if none is. */
  function LastBefore(fps: Fps, b: FedBlock, activation: int, fence: int, k: nat): (last: nat)
    requires k < |b.segments|
    ensures last <= k
  {
    if k == 0 || activation + Stacked(fps, b.segments[..k]) < fence then k
    else LastBefore(fps, b, activation, fence, k - 1)
  }

  /** The segment on air at the fence: the first one throughout if no boundary is known. */
  function FinalSegment(fps: Fps, fed: Fed, activation: int, fence: int): (last: nat)
    requires fed.block.segments != []
    ensures last < |fed.block.segments|
  {
    if fed.ends == [] then 0 else LastBefore(fps, fed.block, activation, fence, |fed.block.segments| - 1)
  }

  /** All events of a block that plays from its start's frame to its end's. */
  function BlockTrail(fps: Fps, epochMs: int, fed: Fed, reported: int, joins: bool): seq<Event> {
    var b := fed.block;
    var activation, fence := FenceFrame(fps, epochMs, b.startUtcMs), FenceFrame(fps, epochMs, b.endUtcMs);
    if b.segments == [] then []
    else
      var last := FinalSegment(fps, fed, activation, fence);
      OpenTrail(fps, b, activation, last, joins)
      + [SegmentEnd(b.id, b.segments[last].eventId, fence - activation - Stacked(fps, b.segments[..last]))]
      + [BlockFence(b.id, reported, fence - activation, fence < reported)]
  }

  /** The session: its two epochs, before and after the clock started. */
  datatype Session = Session(fps: Fps, joinMs: int, epochMs: int)

  /** The fence a block's events report; the first block's was computed before the clock started. */
  function Reported(x: Session, n: nat, fed: Fed): int {
    FenceFrame(x.fps, if n == 0 then x.joinMs else x.epochMs, fed.block.endUtcMs)
  }

  /** The session's first block joins in progress if its first segment starts inside its asset. */
  predicate Joins(n: nat, fed: Fed) {
    n == 0 && fed.block.segments != [] && fed.block.segments[0].assetOffsetMs > 0
  }

  /** Block after block, each played out. */
  function PlayedTrail(x: Session, feds: seq<Fed>): seq<Event> {
    if feds == [] then []
    else
      var n := |feds| - 1;
      PlayedTrail(x, feds[..n]) + BlockTrail(x.fps, x.epochMs, feds[n], Reported(x, n, feds[n]), Joins(n, feds[n]))
  }

  /** The blocks of a run, in the order they were fed. */
  function AllFed(first: Fed, run: seq<Action>): (feds: seq<Fed>)
    ensures feds != []
    decreases |run|
  {
    if run == [] then [first]
    else
      match run[0]
      case TakeBlock(fed) => [first] + AllFed(fed, run[1..])
      case LeaveGap(fed) => [first] + AllFed(fed, run[1..])
      case _ => AllFed(first, run[1..])
  }

  // ---------------------------------------------------------------------------
  // Runs that defer nothing leave exactly that evidence
  // ---------------------------------------------------------------------------

  predicate OnSchedule(e: Engine, fed: Fed) {
    var s := e.seams;
    && OnTime(e) && EndsWhenDue(e, fed) && WellFormed(fed)
    && e.evidence.live.startFrame == s.activation + Stacked(s.fps, s.block.segments[..s.current])
  }

  predicate Told(x: Session, e: Engine, done: seq<Fed>, fed: Fed) {
    var s, v := e.seams, e.evidence;
    && s.fps == x.fps && s.fenceEpochMs == x.epochMs && s.block == fed.block && s.current < |s.block.segments|
    && v.live.eventId == s.block.segments[s.current].eventId
    && v.activation.fenceTick == Reported(x, |done|, fed)
    && v.trail == PlayedTrail(x, done)
                  + OpenTrail(x.fps, s.block, FenceFrame(x.fps, x.epochMs, s.block.startUtcMs), s.current,
                              Joins(|done|, fed))
  }

  lemma {:induction false} StackedGrows(fps: Fps, segments: seq<Segment>, i: nat, j: nat)
    requires IsValid(fps) && i <= j <= |segments|
    requires forall k :: 0 <= k < |segments| ==> segments[k].durationMs > 0
    ensures Stacked(fps, segments[..i]) <= Stacked(fps, segments[..j])
    decreases j - i
  {
    if i < j {
      StackedGrows(fps, segments, i, j - 1);
      StackedStep(fps, segments, j - 1);
      FramesCeilPositive(fps, segments[j - 1].durationMs);
    }
  }

  lemma {:induction false} LastBeforeIs(fps: Fps, b: FedBlock, activation: int, fence: int, k: nat, c: nat)
    requires IsValid(fps) && c <= k < |b.segments|
    requires forall i :: 0 <= i < |b.segments| ==> b.segments[i].durationMs > 0
    requires c == 0 || activation + Stacked(fps, b.segments[..c]) < fence
    requires c < k ==> activation + Stacked(fps, b.segments[..c + 1]) >= fence
    ensures LastBefore(fps, b, activation, fence, k) == c
  {
    if c < k {
      StackedGrows(fps, b.segments, c + 1, k);
      LastBeforeIs(fps, b, activation, fence, k - 1, c);
    }
  }

  /** A segment that a block seam ends on time is the last one that was to start before the fence. */
  lemma LiveIsFinal(e: Engine, fed: Fed)
    requires OnSchedule(e, fed) && e.seams.kind == BlockSeam && Spans(e.seams)
    ensures e.seams.current == FinalSegment(e.seams.fps, fed, e.seams.activation, e.seams.fence)
  {
    var s, k := e.seams, e.seams.current;
    assert s.block == fed.block && s.next == s.fence;
    if fed.ends != [] {
      assert k + 1 < |s.block.segments| ==>
        e.evidence.live.startFrame + FramesCeil(s.fps, s.block.segments[k].durationMs) >= s.fence;
      StackedStep(s.fps, s.block.segments, s.current);
      LastBeforeIs(s.fps, s.block, s.activation, s.fence, |s.block.segments| - 1, s.current);
    }
  }

  lemma SwapStaysOnSchedule(e: Engine, fed: Fed)
    requires OnSchedule(e, fed) && Enabled(e, SwapSegment)
    ensures OnSchedule(Apply(e, SwapSegment), fed)
  {
    PromptSwapStaysOnTime(e);
    SwapEndsWhenDue(e, fed);
    StackedStep(e.seams.fps, e.seams.block.segments, e.seams.current);
    assert Apply(e, SwapSegment).evidence.live.startFrame == e.tick;
    assert Apply(e, SwapSegment).seams.activation == e.seams.activation;
  }

  lemma TakenBlockIsLive(e: Engine, next: Fed)
    requires next.block.segments != []
    ensures var f := Apply(e, TakeBlock(next));
            && f.seams.block == next.block && f.seams.activation == f.evidence.live.startFrame == e.tick
            && f.seams.current == 0
  {
  }

  lemma TakeStaysOnSchedule(e: Engine, fed: Fed, next: Fed)
    requires OnSchedule(e, fed) && Spans(e.seams) && Enabled(e, TakeBlock(next))
    ensures OnSchedule(Apply(e, TakeBlock(next)), next)
  {
    var f := Apply(e, TakeBlock(next));
    assert OnTime(f) by { PromptTakeStaysOnTime(e, next); }
    assert EndsWhenDue(f, next) by { TakeEndsWhenDue(e, next); }
    TakenBlockIsLive(e, next);
    assert f.seams.block.segments[..0] == [];
    assert Stacked(f.seams.fps, []) == 0;
  }

  lemma SwapStaysTold(x: Session, e: Engine, done: seq<Fed>, fed: Fed)
    requires OnSchedule(e, fed) && Told(x, e, done, fed) && Enabled(e, SwapSegment)
    ensures Told(x, Apply(e, SwapSegment), done, fed)
  {
    var s, v := e.seams, e.evidence;
    var activation, k := FenceFrame(x.fps, x.epochMs, s.block.startUtcMs), s.current;
    var before, after := s.block.segments[k], s.block.segments[k + 1];
    var aired := e.tick - v.live.startFrame;
    FramesCeilPositive(s.fps, before.durationMs);
    assert aired == FramesCeil(s.fps, before.durationMs) > 0;
    var end := SegmentEnd(s.block.id, before.eventId, aired);
    var open := SegmentStart(s.block.id, after.eventId, k + 1, after.durationMs, false);
    assert Apply(e, SwapSegment).evidence.trail == v.trail + [end] + [open];
    var told := OpenTrail(x.fps, s.block, activation, k, Joins(|done|, fed));
    assert OpenTrail(x.fps, s.block, activation, k + 1, Joins(|done|, fed)) == told + [end] + [open];
  }

  lemma ClosedOnFence(e: Engine, fed: Fed)
    requires OnSchedule(e, fed) && Spans(e.seams) && Pending(e, BlockSeam)
    ensures var s, v := e.seams, e.evidence;
            && s.current < |s.block.segments|
            && OnBlockCompleted(v, s.block, e.tick).trail == v.trail
                 + [SegmentEnd(s.block.id, v.live.eventId,
                               s.fence - s.activation - Stacked(s.fps, s.block.segments[..s.current]))]
                 + [BlockFence(s.block.id, v.activation.fenceTick, s.fence - s.activation,
                               s.fence < v.activation.fenceTick)]
  {
    assert e.tick == e.seams.fence;
  }

  lemma ClosedTrail<T>(trail: seq<T>, past: seq<T>, open: seq<T>, end: T, close: T, block: seq<T>, closed: seq<T>)
    requires trail == past + open && closed == trail + [end] + [close] && block == open + [end] + [close]
    ensures closed == past + block
  {
  }

  lemma PlayedSnoc(x: Session, done: seq<Fed>, fed: Fed)
    ensures PlayedTrail(x, done + [fed]) ==
            PlayedTrail(x, done)
            + BlockTrail(x.fps, x.epochMs, fed, Reported(x, |done|, fed), Joins(|done|, fed))
  {
    assert (done + [fed])[..|done|] == done;
  }

  lemma ClosedBlock(x: Session, e: Engine, fed: Fed, reported: int, joins: bool)
    requires OnSchedule(e, fed) && Spans(e.seams) && Pending(e, BlockSeam)
    requires e.seams.fps == x.fps && e.seams.fenceEpochMs == x.epochMs
    ensures var s := e.seams;
            && s.current < |s.block.segments|
            && BlockTrail(x.fps, x.epochMs, fed, reported, joins) ==
               OpenTrail(x.fps, s.block, s.activation, s.current, joins)
               + [SegmentEnd(s.block.id, s.block.segments[s.current].eventId,
                             s.fence - s.activation - Stacked(s.fps, s.block.segments[..s.current]))]
               + [BlockFence(s.block.id, reported, s.fence - s.activation, s.fence < reported)]
  {
    LiveIsFinal(e, fed);
  }

  /** Closing a block on its fence completes its part of the trail. */
  lemma CompletionIsTold(x: Session, e: Engine, done: seq<Fed>, fed: Fed)
    requires OnSchedule(e, fed) && Told(x, e, done, fed) && Spans(e.seams) && Pending(e, BlockSeam)
    ensures OnBlockCompleted(e.evidence, e.seams.block, e.tick).trail == PlayedTrail(x, done + [fed])
  {
    var s, v := e.seams, e.evidence;
    var reported, joins := Reported(x, |done|, fed), Joins(|done|, fed);
    ClosedOnFence(e, fed);
    ClosedBlock(x, e, fed, reported, joins);
    PlayedSnoc(x, done, fed);
    ClosedTrail(v.trail, PlayedTrail(x, done), OpenTrail(x.fps, s.block, s.activation, s.current, joins),
                SegmentEnd(s.block.id, v.live.eventId,
                           s.fence - s.activation - Stacked(s.fps, s.block.segments[..s.current])),
                BlockFence(s.block.id, reported, s.fence - s.activation, s.fence < reported),
                BlockTrail(x.fps, x.epochMs, fed, reported, joins),
                OnBlockCompleted(v, s.block, e.tick).trail);
  }

  lemma TakeStaysTold(x: Session, e: Engine, done: seq<Fed>, fed: Fed, next: Fed)
    requires OnSchedule(e, fed) && Told(x, e, done, fed) && Spans(e.seams) && Enabled(e, TakeBlock(next))
    ensures Told(x, Apply(e, TakeBlock(next)), done + [fed], next)
  {
    CompletionIsTold(x, e, done, fed);
    TakeStaysOnSchedule(e, fed, next);
    var completed := OnBlockCompleted(e.evidence, e.seams.block, e.tick);
    var f := Apply(e, TakeBlock(next));
    var seg := next.block.segments[0];
    var opening := [BlockStart(next.block.id, e.tick),
                    SegmentStart(next.block.id, seg.eventId, 0, seg.durationMs, false)];
    assert f.evidence.trail == completed.trail + opening;
    assert f.seams.activation == e.tick == FenceFrame(x.fps, x.epochMs, next.block.startUtcMs);
    assert f.evidence.activation.fenceTick == f.seams.fence;
  }

  lemma StepIsTold(x: Session, e: Engine, done: seq<Fed>, fed: Fed, a: Action)
    requires OnSchedule(e, fed) && Told(x, e, done, fed)
    requires Enabled(e, a) && Prompt(e, a) && (a.TakeBlock? ==> Spans(e.seams))
    ensures var f := Apply(e, a);
            if a.TakeBlock? then OnSchedule(f, a.next) && Told(x, f, done + [fed], a.next)
            else OnSchedule(f, fed) && Told(x, f, done, fed)
  {
    match a
    case NextTick => ApplyKeepsInvariant(e, NextTick);
    case SwapSegment =>
      SwapStaysOnSchedule(e, fed);
      SwapStaysTold(x, e, done, fed);
    case TakeBlock(next) =>
      TakeStaysOnSchedule(e, fed, next);
      TakeStaysTold(x, e, done, fed, next);
    case LeaveGap(_) => assert false;
  }

  predicate ToldBy(x: Session, e: Engine, feds: seq<Fed>)
    requires feds != []
  {
    OnSchedule(e, feds[|feds| - 1]) && Told(x, e, feds[..|feds| - 1], feds[|feds| - 1])
  }

  lemma AllFedStep(done: seq<Fed>, fed: Fed, run: seq<Action>)
    requires run != []
    ensures done + AllFed(fed, run) ==
            match run[0]
            case TakeBlock(next) => (done + [fed]) + AllFed(next, run[1..])
            case LeaveGap(next) => (done + [fed]) + AllFed(next, run[1..])
            case _ => done + AllFed(fed, run[1..])
  {
  }

  lemma NothingToTell(x: Session, e: Engine, done: seq<Fed>, fed: Fed)
    requires OnSchedule(e, fed) && Told(x, e, done, fed)
    ensures ToldBy(x, e, done + [fed])
  {
    assert (done + [fed])[..|done|] == done;
  }

  lemma {:induction false} PromptRunIsTold(x: Session, e: Engine, done: seq<Fed>, fed: Fed, run: seq<Action>)
    requires OnSchedule(e, fed) && Told(x, e, done, fed) && PromptRun(e, run)
    ensures ToldBy(x, After(e, run), done + AllFed(fed, run))
    decreases |run|
  {
    if run == [] {
      NothingToTell(x, e, done, fed);
    } else {
      StepIsTold(x, e, done, fed, run[0]);
      AllFedStep(done, fed, run);
      if run[0].TakeBlock? {
        PromptRunIsTold(x, Apply(e, run[0]), done + [fed], run[0].next, run[1..]);
      } else {
        assert e.playing;
        PromptRunIsTold(x, Apply(e, run[0]), done, fed, run[1..]);
      }
    }
  }

  lemma BeginIsTold(fps: Fps, joinMs: int, epochMs: int, fed: Fed)
    requires Startable(fps, joinMs, epochMs, fed)
    ensures var e := Begin(fps, joinMs, epochMs, fed);
            OnSchedule(e, fed) && Told(Session(fps, joinMs, epochMs), e, [], fed)
  {
    var e := Begin(fps, joinMs, epochMs, fed);
    BeginIsOnTime(fps, joinMs, epochMs, fed);
    BeginEndsWhenDue(fps, joinMs, epochMs, fed);
    FirstOpeningReads(fed, LiveActivation(0, Activate(EmptySeams(fps, joinMs), fed.block, fed.ends, 0).fence));
    assert fed.block.segments[..0] == [];
    var seg := fed.block.segments[0];
    assert e.evidence.trail ==
      [BlockStart(fed.block.id, 0),
       SegmentStart(fed.block.id, seg.eventId, 0, seg.durationMs, seg.assetOffsetMs > 0)];
  }

  /**
    When nothing is deferred, the trail is the plan's, event by event: every block but the last played
    out, each segment for its own duration and the final one up to the fence, and the last block up to
    the live segment, which starts where the durations before it put it.
   */
  lemma PromptEvidenceIsThePlans(fps: Fps, joinMs: int, epochMs: int, fed: Fed, run: seq<Action>)
    requires Startable(fps, joinMs, epochMs, fed) && PromptRun(Begin(fps, joinMs, epochMs, fed), run)
    ensures var e := After(Begin(fps, joinMs, epochMs, fed), run);
            var feds := AllFed(fed, run);
            var live, b, k := feds[|feds| - 1], feds[|feds| - 1].block, e.evidence.live.index;
            var activation := FenceFrame(fps, epochMs, b.startUtcMs);
            && e.seams.block == b && 0 <= k == e.seams.current < |b.segments|
            && e.evidence.live.startFrame == activation + Stacked(fps, b.segments[..k]) <= e.tick
            && e.evidence.trail == PlayedTrail(Session(fps, joinMs, epochMs), feds[..|feds| - 1])
                                   + OpenTrail(fps, b, activation, k, Joins(|feds| - 1, live))
  {
    var x, e := Session(fps, joinMs, epochMs), Begin(fps, joinMs, epochMs, fed);
    BeginIsTold(fps, joinMs, epochMs, fed);
    PromptRunIsTold(x, e, [], fed, run);
    assert [] + AllFed(fed, run) == AllFed(fed, run);
    assert ToldBy(x, After(e, run), AllFed(fed, run));
  }
}
