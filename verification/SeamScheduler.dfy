/**
  The seam and fence scheduler of the tick loop (PipelineManager).

  A block owns the timeline until its fence, a frame index computed from UTC.
  Inside a block, segment seams are planned once at activation and rebased every
  time a segment swap really happens, which may be arbitrarily late.
  The class updates the fields in place, as the tick loop does; each of its methods
  is tied to a function on the value `Seams`, and the lemmas are about those.
 */
module SeamScheduler {
  import opened Rational

  /** "No block owns the timeline": the largest 64-bit frame index. */
  const UNARMED: int := 0x7FFF_FFFF_FFFF_FFFF

  datatype Segment = Segment(eventId: string, durationMs: int, assetOffsetMs: int)

  datatype FedBlock = FedBlock(id: string, startUtcMs: int, endUtcMs: int, segments: seq<Segment>)

  datatype SeamType = NoSeam | SegmentSeam | BlockSeam

  datatype Seams = Seams(
    fps: Fps,
    fenceEpochMs: int,
    fence: int,
    activation: int,
    planned: seq<int>,
    current: nat,
    next: int,
    kind: SeamType,
    block: FedBlock)
  {
    predicate FenceAhead(tick: int) {
      fence != UNARMED && fence > tick
    }

    predicate IsLast() {
      current + 1 >= |block.segments|
    }
  }

  function Min(a: int, b: int): int {
    if a < b then a else b
  }

  function Max(a: int, b: int): int {
    if a < b then b else a
  }

  /** Frames from an origin to a later instant; nothing for an instant at or before it. */
  function FramesUntil(fps: Fps, deltaMs: int): int {
    if deltaMs <= 0 then 0 else FramesCeil(fps, deltaMs)
  }

  function FenceFrame(fps: Fps, epochMs: int, utcMs: int): int {
    FramesUntil(fps, utcMs - epochMs)
  }

  /** The fence is the first frame that starts at the end or after it, and frame 0 at the earliest. */
  lemma FenceIsFirstFrameAtOrAfter(fps: Fps, epochMs: int, utcMs: int)
    requires IsValid(fps)
    ensures var fence, sinceEpoch := FenceFrame(fps, epochMs, utcMs), (utcMs - epochMs) * fps.num;
            && fence >= 0 && fence * (fps.den * 1000) >= sinceEpoch
            && (fence > 0 ==> (fence - 1) * (fps.den * 1000) < sinceEpoch)
  {
    if utcMs > epochMs {
      FramesCeilIsLeastCover(fps, utcMs - epochMs);
    } else {
      ProductMonotone(utcMs - epochMs, 0, fps.num);
    }
  }

  function PlannedSeams(fps: Fps, activation: int, ends: seq<int>): seq<int> {
    seq(|ends|, i requires 0 <= i < |ends| => activation + FramesUntil(fps, ends[i]))
  }

  function MinDwell(fps: Fps): int {
    if IsValid(fps) then Max(1, FramesCeil(fps, 1000)) else 30
  }

  function UpdateNext(s: Seams): Seams {
    var segmentSeam := if s.current + 1 < |s.planned| then s.planned[s.current] else UNARMED;
    if segmentSeam < s.fence then s.(next := segmentSeam, kind := SegmentSeam)
    else s.(next := s.fence, kind := BlockSeam)
  }

  function SafeSeam(s: Seams, tick: int): int {
    if s.current < |s.block.segments| then
      var frames := FramesCeil(s.fps, s.block.segments[s.current].durationMs);
      if frames > 0 then
        if s.FenceAhead(tick) then Min(tick + frames, s.fence) else tick + frames
      else if s.FenceAhead(tick) then
        tick + Max(1, Min(MinDwell(s.fps), s.fence - tick))
      else
        tick + MinDwell(s.fps)
    else if s.FenceAhead(tick) then s.fence
    else tick + MinDwell(s.fps)
  }

  function Enforce(s: Seams, tick: int): Seams {
    if s.next > tick then s
    else
      var n := Max(SafeSeam(s, tick), tick + 1);
      s.(next := n, kind := if n >= s.fence then BlockSeam else SegmentSeam)
  }

  function Activate(s: Seams, block: FedBlock, ends: seq<int>, tick: int): Seams {
    var fence := FenceFrame(s.fps, s.fenceEpochMs, block.endUtcMs);
    var t := s.(block := block, fence := fence, activation := tick, current := 0,
                planned := PlannedSeams(s.fps, tick, ends));
    Enforce(UpdateNext(t), tick)
  }

  /** The clock starts: the fence epoch is re-anchored and the first fence recomputed. */
  function Reanchor(s: Seams, epochMs: int, tick: int): Seams {
    var t := s.(fenceEpochMs := epochMs, fence := FenceFrame(s.fps, epochMs, s.block.endUtcMs));
    Enforce(UpdateNext(t), tick)
  }

  function EnterGap(s: Seams): Seams {
    s.(fence := UNARMED, next := UNARMED, kind := NoSeam)
  }

  /** How long the segment that just went live stays, at least one frame. */
  function StayFrames(s: Seams, tick: int): int
    requires s.current < |s.block.segments|
  {
    var frames := FramesCeil(s.fps, s.block.segments[s.current].durationMs);
    if frames > 0 then frames
    else Max(1, if s.FenceAhead(tick) then Min(MinDwell(s.fps), s.fence - tick) else MinDwell(s.fps))
  }

  /** The next seam once segment `current` has gone live on a tick. */
  function Rebase(s: Seams, tick: int): Seams {
    var computed := if s.current < |s.block.segments| then tick + StayFrames(s, tick) else UNARMED;
    var n := if computed != UNARMED && computed < s.fence then computed else s.fence;
    s.(next := n, kind := if n >= s.fence || s.IsLast() then BlockSeam else SegmentSeam)
  }

  function Swap(s: Seams, tick: int): Seams {
    Enforce(Rebase(s.(current := s.current + 1), tick), tick)
  }

  /** What every activation and every swap leaves behind at its tick. */
  predicate SeamInvariant(s: Seams, tick: int) {
    && tick < s.next
    && (tick < s.fence ==> s.next <= s.fence)
    && s.kind != NoSeam
    && (s.kind == SegmentSeam ==> s.current + 1 < |s.block.segments| && s.next < s.fence)
  }

  /** Whatever the durations, even zero or negative ones, and however late the tick. */
  lemma EnforceEstablishesInvariant(s: Seams, tick: int)
    requires s.fence < UNARMED && s.kind != NoSeam
    requires s.next <= s.fence && (s.next == s.fence ==> s.kind == BlockSeam)
    requires s.next < s.fence ==> !s.IsLast() || (s.kind == BlockSeam && s.next > tick)
    ensures SeamInvariant(Enforce(s, tick), tick)
  {
  }

  lemma ActivateEstablishesInvariant(s: Seams, block: FedBlock, ends: seq<int>, tick: int)
    requires |ends| <= |block.segments|
    requires FenceFrame(s.fps, s.fenceEpochMs, block.endUtcMs) < UNARMED
    ensures SeamInvariant(Activate(s, block, ends, tick), tick)
  {
    var fence := FenceFrame(s.fps, s.fenceEpochMs, block.endUtcMs);
    var t := s.(block := block, fence := fence, activation := tick, current := 0,
                planned := PlannedSeams(s.fps, tick, ends));
    EnforceEstablishesInvariant(UpdateNext(t), tick);
  }

  lemma ReanchorEstablishesInvariant(s: Seams, epochMs: int, tick: int)
    requires |s.planned| <= |s.block.segments|
    requires FenceFrame(s.fps, epochMs, s.block.endUtcMs) < UNARMED
    ensures SeamInvariant(Reanchor(s, epochMs, tick), tick)
  {
    var t := s.(fenceEpochMs := epochMs, fence := FenceFrame(s.fps, epochMs, s.block.endUtcMs));
    EnforceEstablishesInvariant(UpdateNext(t), tick);
  }

  lemma SwapEstablishesInvariant(s: Seams, tick: int)
    requires s.current + 1 < |s.block.segments| && s.fence < UNARMED
    ensures SeamInvariant(Swap(s, tick), tick)
  {
  }

  /**
    The seam after a swap, from the durations: the segment that went live stays its own frames, or a
    second's if it has none, counted from the tick of the swap. A segment seam ends it there if it has
    a successor and the fence is later; a fence that comes first ends it; one that has passed does not.
   */
  lemma SwapRebasesOnTick(s: Seams, tick: int)
    requires s.current + 1 < |s.block.segments| && s.fence < UNARMED && IsValid(s.fps)
    ensures var t := Swap(s, tick);
            var frames := FramesCeil(s.fps, s.block.segments[s.current + 1].durationMs);
            var due := tick + if frames > 0 then frames else Max(1, FramesCeil(s.fps, 1000));
            && t.current == s.current + 1 && t.block == s.block && t.fence == s.fence
            && t.activation == s.activation
            && (t.kind == SegmentSeam <==> s.current + 2 < |s.block.segments| && due < s.fence)
            && t.next == (if due < s.fence || s.fence <= tick then due else s.fence)
  {
  }

  /** Consequence: the last segment can only end in a block seam. */
  lemma LastSegmentEndsInBlockSeam(s: Seams, tick: int)
    requires SeamInvariant(s, tick) && s.IsLast()
    ensures s.kind == BlockSeam
  {
  }

  class Scheduler {
    const fps: Fps
    var fenceEpochMs: int
    var blockFenceFrame: int
    var blockActivationFrame: int
    var plannedSegmentSeamFrames: seq<int>
    var currentSegmentIndex: nat
    var nextSeamFrame: int
    var nextSeamType: SeamType
    var liveParentBlock: FedBlock

    ghost function View(): Seams
      reads this
    {
      Seams(fps, fenceEpochMs, blockFenceFrame, blockActivationFrame, plannedSegmentSeamFrames,
            currentSegmentIndex, nextSeamFrame, nextSeamType, liveParentBlock)
    }

    constructor (fps: Fps, sessionEpochMs: int)
      ensures View() == Seams(fps, sessionEpochMs, UNARMED, 0, [], 0, UNARMED, NoSeam, FedBlock("", 0, 0, []))
    {
      this.fps := fps;
      fenceEpochMs, blockFenceFrame, blockActivationFrame := sessionEpochMs, UNARMED, 0;
      plannedSegmentSeamFrames, currentSegmentIndex := [], 0;
      nextSeamFrame, nextSeamType := UNARMED, NoSeam;
      liveParentBlock := FedBlock("", 0, 0, []);
    }

    method UpdateNextSeamFrame()
      modifies this`nextSeamFrame, this`nextSeamType
      ensures View() == UpdateNext(old(View()))
    {
      var nextSeg := UNARMED;
      if currentSegmentIndex + 1 < |plannedSegmentSeamFrames| {
        nextSeg := plannedSegmentSeamFrames[currentSegmentIndex];
      }
      if nextSeg < blockFenceFrame {
        nextSeamFrame, nextSeamType := nextSeg, SegmentSeam;
      } else {
        nextSeamFrame, nextSeamType := blockFenceFrame, BlockSeam;
      }
    }

    method ComputeSegmentSeamFrames(ends: seq<int>)
      modifies this`plannedSegmentSeamFrames, this`currentSegmentIndex, this`nextSeamFrame, this`nextSeamType
      ensures View() == UpdateNext(old(View()).(current := 0, planned := PlannedSeams(fps, blockActivationFrame, ends)))
    {
      plannedSegmentSeamFrames := [];
      currentSegmentIndex := 0;
      for i := 0 to |ends|
        invariant plannedSegmentSeamFrames == PlannedSeams(fps, blockActivationFrame, ends)[..i]
        invariant View() == old(View()).(current := 0, planned := plannedSegmentSeamFrames)
      {
        var seam := if ends[i] > 0 then blockActivationFrame + FramesCeil(fps, ends[i]) else blockActivationFrame;
        plannedSegmentSeamFrames := plannedSegmentSeamFrames + [seam];
      }
      UpdateNextSeamFrame();
    }

    method EnforceNextSeamInvariant(tick: int)
      modifies this`nextSeamFrame, this`nextSeamType
      ensures View() == Enforce(old(View()), tick)
    {
      if nextSeamFrame > tick {
        return;
      }
      var safeSeam := tick + 1;
      var minDwellFrames := MinDwell(fps);
      var fenceAhead := blockFenceFrame != UNARMED && blockFenceFrame > tick;
      if currentSegmentIndex < |liveParentBlock.segments| {
        var segFrames := FramesCeil(fps, liveParentBlock.segments[currentSegmentIndex].durationMs);
        if segFrames > 0 {
          safeSeam := tick + segFrames;
          if fenceAhead && safeSeam > blockFenceFrame {
            safeSeam := blockFenceFrame;
          }
        } else if fenceAhead {
          var dwell := Min(minDwellFrames, blockFenceFrame - tick);
          safeSeam := tick + Max(1, dwell);
        } else {
          safeSeam := tick + minDwellFrames;
        }
      } else if fenceAhead {
        safeSeam := blockFenceFrame;
      } else {
        safeSeam := tick + minDwellFrames;
      }
      if safeSeam <= tick {
        safeSeam := tick + 1;
      }
      nextSeamFrame := safeSeam;
      nextSeamType := if nextSeamFrame >= blockFenceFrame then BlockSeam else SegmentSeam;
    }

    method ActivateBlock(block: FedBlock, ends: seq<int>, tick: int)
      requires |ends| <= |block.segments|
      requires FenceFrame(fps, fenceEpochMs, block.endUtcMs) < UNARMED
      modifies this
      ensures View() == Activate(old(View()), block, ends, tick)
      ensures SeamInvariant(View(), tick)
    {
      var deltaMs := block.endUtcMs - fenceEpochMs;
      blockFenceFrame := if deltaMs <= 0 then 0 else FramesCeil(fps, deltaMs);
      blockActivationFrame := tick;
      liveParentBlock := block;
      ComputeSegmentSeamFrames(ends);
      EnforceNextSeamInvariant(tick);
      ActivateEstablishesInvariant(old(View()), block, ends, tick);
    }

    method ReanchorFenceEpoch(nowUtcMs: int, tick: int)
      requires |plannedSegmentSeamFrames| <= |liveParentBlock.segments|
      requires FenceFrame(fps, nowUtcMs, liveParentBlock.endUtcMs) < UNARMED
      modifies this
      ensures View() == Reanchor(old(View()), nowUtcMs, tick)
      ensures SeamInvariant(View(), tick)
    {
      fenceEpochMs := nowUtcMs;
      var deltaMs := liveParentBlock.endUtcMs - fenceEpochMs;
      blockFenceFrame := if deltaMs <= 0 then 0 else FramesCeil(fps, deltaMs);
      UpdateNextSeamFrame();
      EnforceNextSeamInvariant(tick);
      ReanchorEstablishesInvariant(old(View()), nowUtcMs, tick);
    }

    method EnterPaddedGap()
      modifies this`blockFenceFrame, this`nextSeamFrame, this`nextSeamType
      ensures View() == EnterGap(old(View()))
    {
      blockFenceFrame, nextSeamFrame, nextSeamType := UNARMED, UNARMED, NoSeam;
    }

    /** The frames of the live segment, or the dwell policy's for a segment without any. */
    method FramesOnAir(tick: int) returns (segFrames: int)
      requires currentSegmentIndex < |liveParentBlock.segments|
      ensures segFrames == StayFrames(View(), tick)
    {
      var minDwellFrames := MinDwell(fps);
      segFrames := FramesCeil(fps, liveParentBlock.segments[currentSegmentIndex].durationMs);
      if segFrames <= 0 {
        if blockFenceFrame != UNARMED && blockFenceFrame > tick {
          segFrames := Min(minDwellFrames, blockFenceFrame - tick);
        } else {
          segFrames := minDwellFrames;
        }
        if segFrames < 1 {
          segFrames := 1;
        }
      }
    }

    method RebaseSeam(tick: int)
      modifies this`nextSeamFrame, this`nextSeamType
      ensures View() == Rebase(old(View()), tick)
    {
      var computed := UNARMED;
      if currentSegmentIndex < |liveParentBlock.segments| {
        var segFrames := FramesOnAir(tick);
        computed := tick + segFrames;
      }
      var isLastSegment := currentSegmentIndex + 1 >= |liveParentBlock.segments|;
      nextSeamFrame := if computed != UNARMED && computed < blockFenceFrame then computed else blockFenceFrame;
      nextSeamType := if nextSeamFrame >= blockFenceFrame || isLastSegment then BlockSeam else SegmentSeam;
    }

    /** The seam part of a segment swap: advance the index and rebase on the tick it really happened. */
    method PerformSegmentSwap(tick: int)
      requires currentSegmentIndex + 1 < |liveParentBlock.segments| && blockFenceFrame < UNARMED
      modifies this`currentSegmentIndex, this`nextSeamFrame, this`nextSeamType
      ensures View() == Swap(old(View()), tick)
      ensures SeamInvariant(View(), tick)
      ensures currentSegmentIndex == old(currentSegmentIndex) + 1
      ensures IsValid(fps) ==>
                var frames := FramesCeil(fps, liveParentBlock.segments[currentSegmentIndex].durationMs);
                var due := tick + if frames > 0 then frames else Max(1, FramesCeil(fps, 1000));
                && (nextSeamType == SegmentSeam <==>
                    currentSegmentIndex + 1 < |liveParentBlock.segments| && due < blockFenceFrame)
                && nextSeamFrame == (if due < blockFenceFrame || blockFenceFrame <= tick then due else blockFenceFrame)
    {
      currentSegmentIndex := currentSegmentIndex + 1;
      RebaseSeam(tick);
      EnforceNextSeamInvariant(tick);
      SwapEstablishesInvariant(old(View()), tick);
      if IsValid(fps) {
        SwapRebasesOnTick(old(View()), tick);
      }
    }
  }
}
