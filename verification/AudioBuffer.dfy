/**
  The audio lookahead buffer: decoded frames go in whole, exact per-tick sample counts come out, and
  a frame may be split over any number of ticks. A sample stands for one value per channel.
 */
module AudioBuffer {
  import opened Common

  type Sample = int

  const SILENCE: Sample := 0

  datatype AudioFrame = AudioFrame(nbSamples: int, data: seq<Sample>)

  /** The count a frame states is the count it carries; a frame without samples is never looked into. */
  predicate IsFrame(f: AudioFrame) {
    f.nbSamples > 0 ==> |f.data| == f.nbSamples
  }

  /** A generation of zero stands for no check. */
  predicate Accepts(frame: AudioFrame, expected: nat, current: nat) {
    frame.nbSamples > 0 && (expected == 0 || expected == current)
  }

  /**
    A push with a generation captured before a reset is refused, unless it was captured before the
    first reset of all: that generation is zero, which turns the check off.
   */
  lemma StalePushIsRefusedExactly(frame: AudioFrame, captured: nat, current: nat)
    requires frame.nbSamples > 0 && captured < current
    ensures !Accepts(frame, captured, current) <==> captured != 0
  {
  }

  /** A push with the current generation is refused only if it carries no sample. */
  lemma CurrentPushIsAcceptedExactly(frame: AudioFrame, current: nat)
    ensures Accepts(frame, current, current) <==> frame.nbSamples > 0
  {
  }

  function Concat(frames: seq<AudioFrame>): seq<Sample> {
    if frames == [] then [] else frames[0].data + Concat(frames[1..])
  }

  lemma {:induction false} ConcatSnoc(frames: seq<AudioFrame>, f: AudioFrame)
    ensures Concat(frames + [f]) == Concat(frames) + f.data
  {
    if frames == [] {
      assert frames + [f] == [f];
      assert Concat([f]) == f.data + Concat([]);
    } else {
      assert (frames + [f])[1..] == frames[1..] + [f];
      ConcatSnoc(frames[1..], f);
      Regroup(frames[0].data, Concat(frames[1..]), f.data);
    }
  }

  /** The part of a split frame that is still to come. */
  function Rest(hasPartial: bool, partial: AudioFrame, consumed: nat): seq<Sample> {
    if hasPartial && consumed <= |partial.data| then partial.data[consumed..] else []
  }

  function Stream(hasPartial: bool, partial: AudioFrame, consumed: nat, frames: seq<AudioFrame>): seq<Sample> {
    Rest(hasPartial, partial, consumed) + Concat(frames)
  }

  lemma NothingIsLeft(partial: AudioFrame)
    ensures Stream(false, partial, 0, []) == [] + Stream(false, partial, 0, []) == []
  {
    assert Concat([]) == [] && Rest(false, partial, 0) == [];
  }

  lemma FrameExtends(hasPartial: bool, partial: AudioFrame, consumed: nat, frames: seq<AudioFrame>, f: AudioFrame)
    ensures Stream(hasPartial, partial, consumed, frames + [f]) == Stream(hasPartial, partial, consumed, frames) + f.data
  {
    ConcatSnoc(frames, f);
    Regroup(Rest(hasPartial, partial, consumed), Concat(frames), f.data);
  }

  class AudioLookaheadBuffer {
    var frames: seq<AudioFrame>
    var hasPartial: bool
    var partial: AudioFrame
    var partialConsumed: nat
    var totalInBuffer: int
    var totalPushed: int
    var totalPopped: int
    var underflowCount: nat
    var primed: bool
    var generation: nat

    ghost var pushed: seq<Sample> // since creation or the last reset
    ghost var popped: seq<Sample>

    /** The part of the split frame that is still to come, then the queued frames. */
    ghost function Contents(): seq<Sample>
      reads this
    {
      Stream(hasPartial, partial, partialConsumed, frames)
    }

    ghost predicate Shaped()
      reads this
    {
      && (forall i :: 0 <= i < |frames| ==> frames[i].nbSamples > 0 && IsFrame(frames[i]))
      && (hasPartial ==> IsFrame(partial) && partialConsumed < partial.nbSamples)
    }

    ghost predicate Valid()
      reads this
    {
      && Shaped()
      && pushed == popped + Contents()
      && totalInBuffer == |Contents()| && totalPushed == |pushed| && totalPopped == |popped|
    }

    constructor ()
      ensures Valid() && Contents() == [] && generation == 0 && !primed
    {
      frames, hasPartial, partial, partialConsumed := [], false, AudioFrame(0, []), 0;
      totalInBuffer, totalPushed, totalPopped, underflowCount, primed, generation := 0, 0, 0, 0, false, 0;
      pushed, popped := [], [];
    }

    /** A frame of an older generation, or without samples, changes nothing. */
    method Push(frame: AudioFrame, expectedGeneration: nat)
      requires Valid() && IsFrame(frame)
      modifies this
      ensures Valid()
      ensures var accepted := frame.nbSamples > 0
                              && (expectedGeneration == 0 || expectedGeneration == old(generation));
              && Contents() == old(Contents()) + (if accepted then frame.data else [])
              && pushed == old(pushed) + (if accepted then frame.data else [])
              && primed == (old(primed) || accepted)
      ensures popped == old(popped) && generation == old(generation) && underflowCount == old(underflowCount)
    {
      assert old(Contents()) + [] == old(Contents());
      if frame.nbSamples <= 0 {
        return;
      }
      if expectedGeneration != 0 && expectedGeneration != generation {
        return;
      }
      FrameExtends(hasPartial, partial, partialConsumed, frames, frame);
      Regroup(popped, Contents(), frame.data);
      totalPushed := totalPushed + frame.nbSamples;
      totalInBuffer := totalInBuffer + frame.nbSamples;
      primed := true;
      frames := frames + [frame];
      pushed := pushed + frame.data;
    }

    /** The next samples in order, or none at all. */
    method TryPopSamples(samplesNeeded: int) returns (ok: bool, out: AudioFrame)
      requires Valid()
      modifies this`frames, this`hasPartial, this`partial, this`partialConsumed
      modifies this`totalInBuffer, this`totalPopped, this`popped, this`underflowCount
      ensures Valid()
      ensures ok <==> samplesNeeded <= |old(Contents())|
      ensures if ok && samplesNeeded > 0 then
                && out.nbSamples == samplesNeeded == |out.data|
                && old(Contents()) == out.data + Contents() && popped == old(popped) + out.data
              else
                out == AudioFrame(0, []) && Contents() == old(Contents()) && popped == old(popped)
      ensures underflowCount == old(underflowCount) + if ok then 0 else 1
    {
      if samplesNeeded <= 0 {
        return true, AudioFrame(0, []);
      }
      if totalInBuffer < samplesNeeded {
        underflowCount := underflowCount + 1;
        return false, AudioFrame(0, []);
      }
      var data := TakeSamples(samplesNeeded);
      Count(data);
      return true, AudioFrame(samplesNeeded, data);
    }

    method Count(data: seq<Sample>)
      requires Shaped() && pushed == popped + (data + Contents())
      requires totalInBuffer == |data + Contents()| && totalPushed == |pushed| && totalPopped == |popped|
      modifies this`totalInBuffer, this`totalPopped, this`popped
      ensures Valid() && popped == old(popped) + data
    {
      Regroup(popped, data, Contents());
      totalInBuffer := totalInBuffer - |data|;
      totalPopped := totalPopped + |data|;
      popped := popped + data;
    }

    method TakeSamples(needed: nat) returns (data: seq<Sample>)
      requires Shaped() && 0 < needed <= |Contents()|
      modifies this`frames, this`hasPartial, this`partial, this`partialConsumed
      ensures Shaped() && |data| == needed && old(Contents()) == data + Contents()
    {
      data := DrainPartial(needed);
      data := DrainFrames(data, needed, Contents());
    }

    method DrainPartial(needed: nat) returns (data: seq<Sample>)
      requires Shaped() && needed > 0
      modifies this`hasPartial, this`partial, this`partialConsumed
      ensures Shaped() && old(Contents()) == data + Contents()
      ensures |data| <= needed && (|data| < needed ==> !hasPartial)
    {
      data := [];
      if hasPartial {
        var avail := partial.nbSamples - partialConsumed;
        var take := if avail < needed then avail else needed;
        data := partial.data[partialConsumed..partialConsumed + take];
        ghost var later := partial.data[partialConsumed + take..];
        assert partial.data[partialConsumed..] == data + later;
        Regroup(data, later, Concat(frames));
        partialConsumed := partialConsumed + take;
        if partialConsumed >= partial.nbSamples {
          assert later == [];
          hasPartial := false;
          partial := AudioFrame(0, []);
          partialConsumed := 0;
        }
      } else {
        assert [] + Contents() == Contents();
      }
    }

    method DrainFrames(first: seq<Sample>, needed: nat, ghost before: seq<Sample>) returns (data: seq<Sample>)
      requires Shaped() && |first| <= needed <= |first| + |Contents()| && (|first| < needed ==> !hasPartial)
      requires before == Contents()
      modifies this`frames, this`hasPartial, this`partial, this`partialConsumed
      ensures Shaped() && |data| == needed
      ensures first + before == data + Contents()
    {
      data := first;
      while |data| < needed && frames != []
        invariant Shaped() && |data| <= needed && (|data| < needed ==> !hasPartial)
        invariant first + before == data + Contents()
        decreases |frames|
      {
        data := DrainFront(data, needed);
      }
    }

    method DrainFront(before: seq<Sample>, needed: nat) returns (data: seq<Sample>)
      requires Shaped() && |before| < needed && !hasPartial && frames != []
      modifies this`frames, this`hasPartial, this`partial, this`partialConsumed
      ensures Shaped() && |data| <= needed && (|data| < needed ==> !hasPartial)
      ensures before + old(Contents()) == data + Contents()
      ensures frames == old(frames)[1..]
    {
      var front := frames[0];
      var avail := front.nbSamples;
      var remaining := needed - |before|;
      var take := if avail < remaining then avail else remaining;
      ghost var rest := Concat(frames[1..]);
      SplitFront(before, front.data, take, rest);
      data := before + front.data[..take];
      if take < avail {
        partial := front;
        partialConsumed := take;
        hasPartial := true;
      }
      frames := frames[1..];
    }

    method Reset()
      modifies this
      ensures Valid() && Contents() == [] && pushed == [] && popped == []
      ensures generation == old(generation) + 1 && !primed && underflowCount == 0
    {
      generation := generation + 1;
      frames, hasPartial, partial, partialConsumed := [], false, AudioFrame(0, []), 0;
      totalInBuffer, totalPushed, totalPopped, underflowCount, primed := 0, 0, 0, 0, false;
      pushed, popped := [], [];
      NothingIsLeft(partial);
    }

    method DepthSamples() returns (depth: int)
      requires Valid()
      ensures depth == |Contents()| == |pushed| - |popped|
    {
      depth := totalInBuffer;
    }
  }

  lemma SplitFront(before: seq<Sample>, front: seq<Sample>, take: nat, rest: seq<Sample>)
    requires take <= |front|
    ensures before + ([] + (front + rest)) == (before + front[..take]) + (front[take..] + rest)
    ensures take == |front| ==> front[take..] + rest == [] + rest
  {
    assert front == front[..take] + front[take..];
    Regroup(front[..take], front[take..], rest);
    Regroup(before, front[..take], front[take..] + rest);
    assert [] + (front + rest) == front + rest;
  }
}
