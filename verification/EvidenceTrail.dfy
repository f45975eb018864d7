/**
  The evidence callbacks of the playout service, and the grammar of the trail they leave.

  The callbacks overwrite one live segment and one live activation; what they emit is
  appended to a trail. Wall-clock times are left out, frame counts are not.
 */
module EvidenceTrail {
  import opened SeamScheduler

  datatype Event =
    | BlockStart(blockId: string, swapTick: int)
    | SegmentStart(blockId: string, eventId: string, index: int, scheduledMs: int, joinInProgress: bool)
    | SegmentEnd(blockId: string, eventId: string, frames: int)
    | BlockFence(blockId: string, fenceTick: int, totalFrames: int, truncated: bool)

  datatype LiveSegment = LiveSegment(blockId: string, eventId: string, startFrame: int, index: int)

  datatype LiveActivation = LiveActivation(timelineFrame: int, fenceTick: int)

  datatype Evidence = Evidence(
    live: LiveSegment,
    activation: LiveActivation,
    firstStartEmitted: bool,
    trail: seq<Event>)

  function OnBlockStarted(e: Evidence, block: FedBlock, ctx: LiveActivation): Evidence {
    e.(activation := ctx, trail := e.trail + [BlockStart(block.id, ctx.timelineFrame)])
  }

  function OnSegmentStart(e: Evidence, from: int, to: int, block: FedBlock, frame: int): Evidence {
    var frames := frame - e.live.startFrame;
    var closed := if 0 <= from < |block.segments| && frames > 0
      then [SegmentEnd(block.id, e.live.eventId, frames)] else [];
    if 0 <= to < |block.segments| then
      var seg := block.segments[to];
      var joining := from == -1 && to == 0 && seg.assetOffsetMs > 0 && !e.firstStartEmitted;
      e.(live := LiveSegment(block.id, seg.eventId, frame, to),
         firstStartEmitted := e.firstStartEmitted || from == -1,
         trail := e.trail + closed + [SegmentStart(block.id, seg.eventId, to, seg.durationMs, joining)])
    else
      e.(trail := e.trail + closed)
  }

  function OnBlockCompleted(e: Evidence, block: FedBlock, frame: int): Evidence {
    var mine := e.live.index >= 0 && e.live.blockId == block.id;
    var frames := frame - e.live.startFrame;
    var closed := if mine && frames > 0 then [SegmentEnd(block.id, e.live.eventId, frames)] else [];
    var total := if frame > e.activation.timelineFrame then frame - e.activation.timelineFrame else 0;
    var expected := e.activation.fenceTick - e.activation.timelineFrame;
    e.(live := if mine then e.live.(index := -1) else e.live,
       trail := e.trail + closed + [BlockFence(block.id, e.activation.fenceTick, total, total < expected)])
  }

  class Callbacks {
    var liveSegment: LiveSegment
    var liveBlockActivation: LiveActivation
    var firstSegmentStartEmitted: bool
    var trail: seq<Event>

    ghost function View(): Evidence
      reads this
    {
      Evidence(liveSegment, liveBlockActivation, firstSegmentStartEmitted, trail)
    }

    constructor ()
      ensures View() == NoEvidence()
    {
      liveSegment, liveBlockActivation := LiveSegment("", "", 0, -1), LiveActivation(0, 0);
      firstSegmentStartEmitted, trail := false, [];
    }

    method BlockStarted(block: FedBlock, ctx: LiveActivation)
      modifies this
      ensures View() == OnBlockStarted(old(View()), block, ctx)
    {
      liveBlockActivation := ctx;
      trail := trail + [BlockStart(block.id, liveBlockActivation.timelineFrame)];
    }

    method SegmentStarted(from: int, to: int, block: FedBlock, frame: int)
      modifies this
      ensures View() == OnSegmentStart(old(View()), from, to, block, frame)
    {
      if 0 <= from < |block.segments| {
        var segFrames := frame - liveSegment.startFrame;
        if segFrames > 0 {
          trail := trail + [SegmentEnd(block.id, liveSegment.eventId, segFrames)];
        }
      }
      if 0 <= to < |block.segments| {
        var seg := block.segments[to];
        liveSegment := LiveSegment(block.id, seg.eventId, frame, to);
        var joinInProgress := false;
        if from == -1 && to == 0 {
          if block.segments[0].assetOffsetMs > 0 {
            joinInProgress := !firstSegmentStartEmitted;
          }
        }
        if from == -1 {
          firstSegmentStartEmitted := true;
        }
        trail := trail + [SegmentStart(block.id, seg.eventId, to, seg.durationMs, joinInProgress)];
      }
    }

    method BlockCompleted(block: FedBlock, frame: int)
      modifies this
      ensures View() == OnBlockCompleted(old(View()), block, frame)
    {
      if liveSegment.index >= 0 && liveSegment.blockId == block.id {
        var segFrames := frame - liveSegment.startFrame;
        if segFrames > 0 {
          trail := trail + [SegmentEnd(block.id, liveSegment.eventId, segFrames)];
        }
        liveSegment := liveSegment.(index := -1);
      }
      var activationFrame := liveBlockActivation.timelineFrame;
      var fenceFrame := liveBlockActivation.fenceTick;
      var total := if frame > activationFrame then frame - activationFrame else 0;
      var expected := fenceFrame - activationFrame;
      trail := trail + [BlockFence(block.id, fenceFrame, total, total < expected)];
    }
  }

  function NoEvidence(): Evidence {
    Evidence(LiveSegment("", "", 0, -1), LiveActivation(0, 0), false, [])
  }

  // ---------------------------------------------------------------------------
  // The grammar, as an automaton that reads a trail
  // ---------------------------------------------------------------------------

  datatype Reading =
    | Idle
    | Opened(blockId: string)
    | Airing(blockId: string, eventId: string, index: int, frames: int)
    | Between(blockId: string, index: int, frames: int)
    | Illegal

  /**
    BLOCK_START, SEGMENT_START 0, (SEGMENT_END, SEGMENT_START i+1)*, SEGMENT_END, BLOCK_FENCE,
    all of one block; an END names the event its START named and counts at least one frame;
    the fence's total is the sum of the block's counts.
   */
  function Read(r: Reading, e: Event): Reading {
    match (r, e)
    case (Idle, BlockStart(b, _)) => Opened(b)
    case (Opened(b), SegmentStart(b', id, i, _, _)) =>
      if b == b' && i == 0 then Airing(b, id, 0, 0) else Illegal
    case (Airing(b, id, i, n), SegmentEnd(b', id', frames)) =>
      if b == b' && id == id' && frames > 0 then Between(b, i, n + frames) else Illegal
    case (Between(b, i, n), SegmentStart(b', id, i', _, _)) =>
      if b == b' && i' == i + 1 then Airing(b, id, i', n) else Illegal
    case (Between(b, i, n), BlockFence(b', _, total, _)) =>
      if b == b' && total == n then Idle else Illegal
    case _ => Illegal
  }

  function ReadAll(trail: seq<Event>): Reading {
    if trail == [] then Idle else Read(ReadAll(trail[..|trail| - 1]), trail[|trail| - 1])
  }

  /** The fence the last closed block reported, if any. */
  function LastFence(trail: seq<Event>): seq<int> {
    if trail == [] then []
    else if trail[|trail| - 1].BlockFence? then [trail[|trail| - 1].fenceTick]
    else LastFence(trail[..|trail| - 1])
  }

  /** Every BLOCK_START happens on the fence tick the previous BLOCK_FENCE reported. */
  predicate SwapsMatchFences(trail: seq<Event>) {
    trail == [] ||
    var before := trail[..|trail| - 1];
    var e := trail[|trail| - 1];
    && SwapsMatchFences(before)
    && (e.BlockStart? ==> LastFence(before) == [] || LastFence(before) == [e.swapTick])
  }

  /** Only the first SEGMENT_START of a session may be marked as joining in progress. */
  predicate OnlyFirstStartJoins(trail: seq<Event>) {
    forall i, j :: 0 <= i < j < |trail| && trail[i].SegmentStart? && trail[j].SegmentStart? ==> !trail[j].joinInProgress
  }

  lemma ReadAppend(trail: seq<Event>, e: Event)
    ensures ReadAll(trail + [e]) == Read(ReadAll(trail), e)
    ensures LastFence(trail + [e]) == if e.BlockFence? then [e.fenceTick] else LastFence(trail)
    ensures SwapsMatchFences(trail + [e]) <==>
            SwapsMatchFences(trail) &&
            (e.BlockStart? ==> LastFence(trail) == [] || LastFence(trail) == [e.swapTick])
  {
    assert (trail + [e])[..|trail + [e]| - 1] == trail;
  }

  /** A block starts and its first segment opens on the same frame. */
  lemma OpeningReads(e: Evidence, block: FedBlock, ctx: LiveActivation, frame: int)
    requires block.segments != [] && ReadAll(e.trail) == Idle
    ensures var f := OnSegmentStart(OnBlockStarted(e, block, ctx), -1, 0, block, frame);
            && ReadAll(f.trail) == Airing(block.id, block.segments[0].eventId, 0, 0)
            && f.live == LiveSegment(block.id, block.segments[0].eventId, frame, 0)
            && f.activation == ctx
            && LastFence(f.trail) == LastFence(e.trail)
            && (SwapsMatchFences(f.trail) <==>
                SwapsMatchFences(e.trail) &&
                (LastFence(e.trail) == [] || LastFence(e.trail) == [ctx.timelineFrame]))
  {
    var s := OnBlockStarted(e, block, ctx);
    var f := OnSegmentStart(s, -1, 0, block, frame);
    ReadAppend(e.trail, s.trail[|s.trail| - 1]);
    assert f.trail == s.trail + [f.trail[|f.trail| - 1]];
    ReadAppend(s.trail, f.trail[|f.trail| - 1]);
  }

  /** A swap closes the outgoing segment with the frames it aired and opens the next. */
  lemma SwapReads(e: Evidence, block: FedBlock, from: int, frame: int, aired: int)
    requires 0 <= from && from + 1 < |block.segments|
    requires ReadAll(e.trail) == Airing(block.id, e.live.eventId, from, aired)
    requires e.live.startFrame < frame
    ensures var f := OnSegmentStart(e, from, from + 1, block, frame);
            && ReadAll(f.trail) == Airing(block.id, block.segments[from + 1].eventId, from + 1,
                                          aired + (frame - e.live.startFrame))
            && f.live == LiveSegment(block.id, block.segments[from + 1].eventId, frame, from + 1)
            && f.activation == e.activation
            && LastFence(f.trail) == LastFence(e.trail)
            && (SwapsMatchFences(f.trail) <==> SwapsMatchFences(e.trail))
  {
    var f := OnSegmentStart(e, from, from + 1, block, frame);
    var end := SegmentEnd(block.id, e.live.eventId, frame - e.live.startFrame);
    ReadAppend(e.trail, end);
    assert f.trail == (e.trail + [end]) + [f.trail[|f.trail| - 1]];
    ReadAppend(e.trail + [end], f.trail[|f.trail| - 1]);
  }

  /** Completing a block closes its open segment and reports the sum of its counts. */
  lemma CompletionReads(e: Evidence, block: FedBlock, frame: int, index: int)
    requires e.live.index >= 0 && e.live.blockId == block.id
    requires e.activation.timelineFrame <= e.live.startFrame < frame
    requires ReadAll(e.trail) ==
             Airing(block.id, e.live.eventId, index, e.live.startFrame - e.activation.timelineFrame)
    ensures var f := OnBlockCompleted(e, block, frame);
            && ReadAll(f.trail) == Idle
            && LastFence(f.trail) == [e.activation.fenceTick]
            && (SwapsMatchFences(f.trail) <==> SwapsMatchFences(e.trail))
  {
    var f := OnBlockCompleted(e, block, frame);
    var end := SegmentEnd(block.id, e.live.eventId, frame - e.live.startFrame);
    ReadAppend(e.trail, end);
    assert f.trail == (e.trail + [end]) + [f.trail[|f.trail| - 1]];
    ReadAppend(e.trail + [end], f.trail[|f.trail| - 1]);
  }

  predicate JoinFlagKept(e: Evidence) {
    && (!e.firstStartEmitted ==> forall i :: 0 <= i < |e.trail| ==> !e.trail[i].SegmentStart?)
    && OnlyFirstStartJoins(e.trail)
  }

  /** Every callback keeps it; a first start always comes with from == -1. */
  lemma CallbacksKeepJoinFlag(e: Evidence, block: FedBlock, ctx: LiveActivation, from: int, to: int, frame: int)
    requires JoinFlagKept(e) && (from == -1 || e.firstStartEmitted)
    ensures JoinFlagKept(OnBlockStarted(e, block, ctx))
    ensures JoinFlagKept(OnBlockCompleted(e, block, frame))
    ensures JoinFlagKept(OnSegmentStart(e, from, to, block, frame))
  {
  }
}
