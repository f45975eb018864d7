/**
  Joining a block in progress: a walker that drops and trims segments up to the join offset, and the
  block composer's own three-case arithmetic, against one reading of what a list of segments shows.
 */
module JoinInProgress {
  import opened Common

  datatype Kind = Episode | Filler | Pad | Other

  /** Asset fields are meaningful when the URI is not empty. */
  datatype Segment = Segment(kind: Kind, uri: string, assetOffset: int, duration: nat)

  function Total(segments: seq<Segment>): nat {
    if segments == [] then 0 else segments[0].duration + Total(segments[1..])
  }

  /** What is shown at one millisecond of a list of segments. */
  datatype Shown = Nothing | Blank(kind: Kind) | Media(kind: Kind, uri: string, position: int)

  function Within(seg: Segment, t: nat): Shown {
    if seg.uri != "" then Media(seg.kind, seg.uri, seg.assetOffset + t) else Blank(seg.kind)
  }

  function At(segments: seq<Segment>, t: nat): Shown {
    if segments == [] then Nothing
    else if t < segments[0].duration then Within(segments[0], t)
    else At(segments[1..], t - segments[0].duration)
  }

  predicate ShowsPad(s: Shown) {
    !s.Nothing? && s.kind == Pad
  }

  // ---------------------------------------------------------------------------
  // The walker
  // ---------------------------------------------------------------------------

  function Trimmed(seg: Segment, elapsed: nat): Segment
    requires elapsed < seg.duration
  {
    seg.(assetOffset := if seg.uri != "" then seg.assetOffset + elapsed else seg.assetOffset,
         duration := seg.duration - elapsed)
  }

  /** What is left to play. A segment without duration is always elapsed. */
  function Remaining(segments: seq<Segment>, elapsed: nat): seq<Segment> {
    if segments == [] then []
    else if elapsed >= segments[0].duration then Remaining(segments[1..], elapsed - segments[0].duration)
    else [Trimmed(segments[0], elapsed)] + Remaining(segments[1..], 0)
  }

  const BLANK_PAD := Segment(Pad, "", 0, 0)

  /** The last pad is extended, or one is added, to fill the block. */
  function Filled(segments: seq<Segment>, block: int): seq<Segment> {
    var gap := block - Total(segments);
    if gap <= 0 then segments
    else if segments != [] && segments[|segments| - 1].kind == Pad then
      var last := segments[|segments| - 1];
      segments[|segments| - 1 := last.(duration := last.duration + gap)]
    else segments + [BLANK_PAD.(duration := gap)]
  }

  function Joined(segments: seq<Segment>, offset: nat, block: int): seq<Segment> {
    Filled(Remaining(segments, offset), block)
  }

  lemma {:induction false} TotalAppend(a: seq<Segment>, b: seq<Segment>)
    ensures Total(a + b) == Total(a) + Total(b)
  {
    if a == [] {
      assert a + b == b;
    } else {
      assert (a + b)[1..] == a[1..] + b;
      TotalAppend(a[1..], b);
    }
  }

  lemma TotalOne(seg: Segment)
    ensures Total([seg]) == seg.duration
  {
    assert [seg][1..] == [];
  }

  method ApplyJip(segments: seq<Segment>, jipOffset: nat, blockDuration: int) returns (result: seq<Segment>)
    ensures result == Joined(segments, jipOffset, blockDuration)
  {
    result := [];
    var remaining := jipOffset;
    assert segments[0..] == segments;
    for i := 0 to |segments|
      invariant Remaining(segments, jipOffset) == result + Remaining(segments[i..], remaining)
    {
      var seg := segments[i];
      assert segments[i..][1..] == segments[i + 1..];
      var dur := seg.duration;
      if remaining >= dur {
        remaining := remaining - dur;
        continue;
      }
      if remaining > 0 {
        if seg.uri != "" {
          seg := seg.(assetOffset := seg.assetOffset + remaining);
        }
        seg := seg.(duration := seg.duration - remaining);
      }
      assert seg == Trimmed(segments[i], remaining);
      Regroup(result, [seg], Remaining(segments[i + 1..], 0));
      remaining := 0;
      result := result + [seg];
    }
    assert segments[|segments|..] == [];
    assert result + [] == result;
    result := FillBlock(result, blockDuration);
  }

  method FillBlock(segments: seq<Segment>, blockDuration: int) returns (result: seq<Segment>)
    ensures result == Filled(segments, blockDuration)
  {
    result := segments;
    var placed := PlacedTotal(result);
    var gap := blockDuration - placed;
    if gap > 0 {
      if result != [] && result[|result| - 1].kind == Pad {
        var last := result[|result| - 1];
        result := result[|result| - 1 := last.(duration := last.duration + gap)];
      } else {
        result := result + [BLANK_PAD.(duration := gap)];
      }
    }
  }

  method PlacedTotal(segments: seq<Segment>) returns (placed: nat)
    ensures placed == Total(segments)
  {
    placed := 0;
    for i := 0 to |segments|
      invariant placed == Total(segments[..i])
    {
      TotalAppend(segments[..i], [segments[i]]);
      TotalOne(segments[i]);
      assert segments[..i + 1] == segments[..i] + [segments[i]];
      placed := placed + segments[i].duration;
    }
    assert segments[..|segments|] == segments;
  }

  // ---------------------------------------------------------------------------
  // The walker shifts the timeline
  // ---------------------------------------------------------------------------

  lemma {:induction false} RemainingTotal(segments: seq<Segment>, elapsed: nat)
    ensures Total(Remaining(segments, elapsed)) == if elapsed <= Total(segments) then Total(segments) - elapsed else 0
  {
    if segments != [] {
      if elapsed >= segments[0].duration {
        RemainingTotal(segments[1..], elapsed - segments[0].duration);
      } else {
        RemainingTotal(segments[1..], 0);
      }
    }
  }

  lemma {:induction false} RemainingShifts(segments: seq<Segment>, elapsed: nat, t: nat)
    ensures At(Remaining(segments, elapsed), t) == At(segments, t + elapsed)
  {
    if segments != [] {
      var d := segments[0].duration;
      if elapsed >= d {
        RemainingShifts(segments[1..], elapsed - d, t);
      } else {
        var rest := Remaining(segments[1..], 0);
        assert ([Trimmed(segments[0], elapsed)] + rest)[1..] == rest;
        if t >= d - elapsed {
          RemainingShifts(segments[1..], 0, t - (d - elapsed));
        }
      }
    }
  }

  lemma {:induction false} NothingAfterTheEnd(segments: seq<Segment>, t: nat)
    ensures At(segments, t).Nothing? <==> t >= Total(segments)
  {
    if segments != [] && t >= segments[0].duration {
      NothingAfterTheEnd(segments[1..], t - segments[0].duration);
    }
  }

  lemma {:induction false} AtAppend(a: seq<Segment>, b: seq<Segment>, t: nat)
    ensures At(a + b, t) == if t < Total(a) then At(a, t) else At(b, t - Total(a))
  {
    if a == [] {
      assert a + b == b;
    } else {
      assert (a + b)[1..] == a[1..] + b;
      if t >= a[0].duration {
        AtAppend(a[1..], b, t - a[0].duration);
      }
    }
  }

  lemma AtOne(seg: Segment, t: nat)
    ensures At([seg], t) == if t < seg.duration then Within(seg, t) else Nothing
  {
    assert [seg][1..] == [];
  }

  lemma FilledShows(segments: seq<Segment>, block: int, t: nat)
    ensures t < Total(segments) ==> At(Filled(segments, block), t) == At(segments, t)
    ensures Total(segments) <= t < block ==> ShowsPad(At(Filled(segments, block), t))
    ensures Total(Filled(segments, block)) == if Total(segments) < block then block else Total(segments)
  {
    var gap := block - Total(segments);
    if gap > 0 && segments != [] && segments[|segments| - 1].kind == Pad {
      var n := |segments| - 1;
      var last := segments[n];
      var longer := last.(duration := last.duration + gap);
      assert Filled(segments, block) == segments[..n] + [longer];
      assert segments == segments[..n] + [last];
      TotalAppend(segments[..n], [last]);
      TotalAppend(segments[..n], [longer]);
      TotalOne(last);
      TotalOne(longer);
      AtAppend(segments[..n], [last], t);
      AtAppend(segments[..n], [longer], t);
      if t >= Total(segments[..n]) {
        AtOne(last, t - Total(segments[..n]));
        AtOne(longer, t - Total(segments[..n]));
      }
    } else if gap > 0 {
      var pad := BLANK_PAD.(duration := gap);
      TotalAppend(segments, [pad]);
      TotalOne(pad);
      AtAppend(segments, [pad], t);
      if t >= Total(segments) {
        AtOne(pad, t - Total(segments));
      }
    }
  }

  /**
    A viewer who joins at the offset sees what the original shows from there on, and pad once that
    has run out, to the end of the block. Nothing is shown twice or skipped.
   */
  lemma JoinedShowsTheRest(segments: seq<Segment>, offset: nat, block: nat, t: nat)
    ensures t + offset < Total(segments) ==> At(Joined(segments, offset, block), t) == At(segments, t + offset)
    ensures Total(segments) <= t + offset && t < block ==> ShowsPad(At(Joined(segments, offset, block), t))
  {
    RemainingTotal(segments, offset);
    RemainingShifts(segments, offset, t);
    FilledShows(Remaining(segments, offset), block, t);
  }

  /** The result lasts exactly as long as the block, unless what is left of the segments lasts longer. */
  lemma JoinedFillsTheBlockExactly(segments: seq<Segment>, offset: nat, block: nat)
    ensures Total(Joined(segments, offset, block)) == block <==> Total(segments) <= block + offset
  {
    RemainingTotal(segments, offset);
    FilledShows(Remaining(segments, offset), block, 0);
  }

  // ---------------------------------------------------------------------------
  // The composer
  // ---------------------------------------------------------------------------

  const BLOCK_DURATION: nat := 1_800_000
  const PAD_TAIL: nat := 10_000
  const WINDOW: nat := BLOCK_DURATION - PAD_TAIL

  function Capped(episode: nat): nat {
    if episode < WINDOW then episode else WINDOW
  }

  function Unless0(seg: Segment): seq<Segment> {
    if seg.duration > 0 then [seg] else []
  }

  function FillerTime(episode: nat, hasFiller: bool): nat {
    if hasFiller then WINDOW - Capped(episode) else 0
  }

  /** Episode, filler up to the planned window, pad: the block from its beginning. */
  function WholeBlock(episodeUri: string, fillerUri: string, episode: nat, hasFiller: bool): seq<Segment> {
    var e, f := Capped(episode), FillerTime(episode, hasFiller);
    Unless0(Segment(Episode, episodeUri, 0, e)) + Unless0(Segment(Filler, fillerUri, 0, f))
    + [Segment(Pad, "", 0, BLOCK_DURATION - e - f)]
  }

  /** The whole block shows the episode up to ten seconds before its end, filler up to there if any, and pad. */
  lemma WholeBlockShows(episodeUri: string, fillerUri: string, episode: nat, hasFiller: bool, t: nat)
    requires t < 1_800_000
    ensures var shown := At(WholeBlock(episodeUri, fillerUri, episode, hasFiller), t);
            var e := if episode < 1_790_000 then episode else 1_790_000;
            shown == if t < e then (if episodeUri != "" then Media(Episode, episodeUri, t) else Blank(Episode))
                     else if hasFiller && t < 1_790_000 then
                       (if fillerUri != "" then Media(Filler, fillerUri, t - e) else Blank(Filler))
                     else Blank(Pad)
  {
    var e, f := Capped(episode), FillerTime(episode, hasFiller);
    var ep, fill := Unless0(Segment(Episode, episodeUri, 0, e)), Unless0(Segment(Filler, fillerUri, 0, f));
    var pad := [Segment(Pad, "", 0, BLOCK_DURATION - e - f)];
    RemainingOfOne(Segment(Episode, episodeUri, 0, e), 0);
    RemainingOfOne(Segment(Filler, fillerUri, 0, f), 0);
    AtAppend(ep + fill, pad, t);
    AtAppend(ep, fill, t);
    TotalAppend(ep, fill);
  }

  method AddSegment(plan: seq<Segment>, seg: Segment) returns (longer: seq<Segment>)
    ensures longer == plan + [seg] && Total(longer) == Total(plan) + seg.duration
  {
    TotalAppend(plan, [seg]);
    TotalOne(seg);
    longer := plan + [seg];
  }

  /** What the composer places before the pad, in closed form. */
  function Placed(episodeUri: string, fillerUri: string, episode: nat, hasFiller: bool, jip: nat): seq<Segment> {
    var e, f := Capped(episode), FillerTime(episode, hasFiller);
    var inFiller := if jip <= e then 0 else jip - e;
    (if jip < e then [Segment(Episode, episodeUri, jip, e - jip)] else [])
    + (if inFiller < f then [Segment(Filler, fillerUri, inFiller, f - inFiller)] else [])
  }

  /** A segment without a URI has no place to start from. */
  function Plain(seg: Segment): Segment {
    if seg.uri == "" then seg.(assetOffset := 0) else seg
  }

  function AllPlain(segments: seq<Segment>): seq<Segment> {
    if segments == [] then [] else [Plain(segments[0])] + AllPlain(segments[1..])
  }

  /** The join falls inside the episode or the filler, and that part has no URI. */
  predicate JoinsInsideUnnamed(episodeUri: string, fillerUri: string, episode: nat, hasFiller: bool, jip: nat) {
    var e, f := Capped(episode), FillerTime(episode, hasFiller);
    (episodeUri == "" && 0 < jip < e) || (fillerUri == "" && e < jip < e + f)
  }

  /**
    The composer, with its cases for a join in the episode, in the filler and in the pad: always the
    same picture as the walker, and the same segments unless it writes an offset into a part without URI.
   */
  method ComposeBlock(episodeUri: string, fillerUri: string, episode: nat, hasFiller: bool, jip: nat)
    returns (plan: seq<Segment>)
    ensures var joined := Joined(WholeBlock(episodeUri, fillerUri, episode, hasFiller), jip, BLOCK_DURATION);
            && AllPlain(plan) == joined
            && (forall t: nat :: At(plan, t) == At(joined, t))
            && (plan == joined <==> !JoinsInsideUnnamed(episodeUri, fillerUri, episode, hasFiller, jip))
    ensures Total(plan) == BLOCK_DURATION
  {
    var total := if episode < WINDOW then episode else WINDOW;
    var fillerTotal := WINDOW - total;
    plan := [];
    var placed := 0;
    if jip < total {
      var offset := if jip > 0 then jip else 0;
      plan := AddSegment(plan, Segment(Episode, episodeUri, offset, total - offset));
      placed := placed + (total - offset);
    }
    if fillerTotal > 0 && hasFiller {
      var offset, length := 0, 0;
      if jip <= total {
        length := fillerTotal;
      } else if jip < total + fillerTotal {
        offset := jip - total;
        length := fillerTotal - offset;
      }
      if length > 0 {
        plan := AddSegment(plan, Segment(Filler, fillerUri, offset, length));
        placed := placed + length;
      }
    }
    assert plan == Placed(episodeUri, fillerUri, episode, hasFiller, jip);
    plan := AddSegment(plan, Segment(Pad, "", 0, BLOCK_DURATION - placed));
    PaddedAgrees(episodeUri, fillerUri, episode, hasFiller, jip);
    ComposedIsJoined(episodeUri, fillerUri, episode, hasFiller, jip);
    forall t: nat ensures At(plan, t) == At(AllPlain(plan), t) {
      PlainShowsTheSame(plan, t);
    }
  }

  lemma {:induction false} RemainingAppend(a: seq<Segment>, b: seq<Segment>, elapsed: nat)
    ensures Remaining(a + b, elapsed) ==
            Remaining(a, elapsed) + Remaining(b, if elapsed <= Total(a) then 0 else elapsed - Total(a))
  {
    if a == [] {
      assert a + b == b;
    } else {
      assert (a + b)[1..] == a[1..] + b;
      var d := a[0].duration;
      if elapsed >= d {
        RemainingAppend(a[1..], b, elapsed - d);
      } else {
        RemainingAppend(a[1..], b, 0);
        Regroup([Trimmed(a[0], elapsed)], Remaining(a[1..], 0), Remaining(b, 0));
      }
    }
  }

  lemma RemainingOfOne(seg: Segment, elapsed: nat)
    ensures Total(Unless0(seg)) == seg.duration
    ensures Remaining(Unless0(seg), elapsed) == if elapsed < seg.duration then [Trimmed(seg, elapsed)] else []
  {
    assert [seg][1..] == [];
  }

  lemma {:induction false} PlainAppend(a: seq<Segment>, b: seq<Segment>)
    ensures AllPlain(a + b) == AllPlain(a) + AllPlain(b)
  {
    if a == [] {
      assert a + b == b;
    } else {
      assert (a + b)[1..] == a[1..] + b;
      PlainAppend(a[1..], b);
    }
  }

  lemma {:induction false} PlainTotal(segments: seq<Segment>)
    ensures Total(AllPlain(segments)) == Total(segments) && |AllPlain(segments)| == |segments|
    ensures forall i :: 0 <= i < |segments| ==> AllPlain(segments)[i] == Plain(segments[i])
  {
    if segments != [] {
      PlainTotal(segments[1..]);
      assert AllPlain(segments)[1..] == AllPlain(segments[1..]);
    }
  }

  lemma {:induction false} PlainShowsTheSame(segments: seq<Segment>, t: nat)
    ensures At(AllPlain(segments), t) == At(segments, t)
  {
    if segments != [] {
      assert AllPlain(segments)[1..] == AllPlain(segments[1..]);
      if t >= segments[0].duration {
        PlainShowsTheSame(segments[1..], t - segments[0].duration);
      }
    }
  }

  lemma PlainOfOne(seg: Segment)
    ensures AllPlain([seg]) == [Plain(seg)]
  {
    assert [seg][1..] == [];
  }

  lemma PlacedIsPlain(episodeUri: string, fillerUri: string, episode: nat, hasFiller: bool, jip: nat)
    ensures var plan := Placed(episodeUri, fillerUri, episode, hasFiller, jip);
            AllPlain(plan) == plan <==> !JoinsInsideUnnamed(episodeUri, fillerUri, episode, hasFiller, jip)
  {
    PlainTotal(Placed(episodeUri, fillerUri, episode, hasFiller, jip));
  }

  lemma PlacedIsRemaining(episodeUri: string, fillerUri: string, episode: nat, hasFiller: bool, jip: nat)
    ensures var e, f := Capped(episode), FillerTime(episode, hasFiller);
            var before := Unless0(Segment(Episode, episodeUri, 0, e)) + Unless0(Segment(Filler, fillerUri, 0, f));
            Remaining(before, jip) == AllPlain(Placed(episodeUri, fillerUri, episode, hasFiller, jip))
            && Total(before) == e + f
  {
    var e, f := Capped(episode), FillerTime(episode, hasFiller);
    var ep, fill := Segment(Episode, episodeUri, 0, e), Segment(Filler, fillerUri, 0, f);
    var inFiller := if jip <= e then 0 else jip - e;
    RemainingOfOne(ep, jip);
    RemainingAppend(Unless0(ep), Unless0(fill), jip);
    RemainingOfOne(fill, inFiller);
    TotalAppend(Unless0(ep), Unless0(fill));
    PlainAppend(if jip < e then [Segment(Episode, episodeUri, jip, e - jip)] else [],
                if inFiller < f then [Segment(Filler, fillerUri, inFiller, f - inFiller)] else []);
    PlainOfOne(Segment(Episode, episodeUri, jip, if jip < e then e - jip else 0));
    PlainOfOne(Segment(Filler, fillerUri, inFiller, if inFiller < f then f - inFiller else 0));
  }

  lemma ComposedIsJoined(episodeUri: string, fillerUri: string, episode: nat, hasFiller: bool, jip: nat)
    ensures var plan := Placed(episodeUri, fillerUri, episode, hasFiller, jip);
            && Total(plan) <= WINDOW
            && AllPlain(plan) + [Segment(Pad, "", 0, BLOCK_DURATION - Total(plan))] ==
               Joined(WholeBlock(episodeUri, fillerUri, episode, hasFiller), jip, BLOCK_DURATION)
  {
    var e, f := Capped(episode), FillerTime(episode, hasFiller);
    var before := Unless0(Segment(Episode, episodeUri, 0, e)) + Unless0(Segment(Filler, fillerUri, 0, f));
    var pad := Segment(Pad, "", 0, BLOCK_DURATION - e - f);
    var placed := Placed(episodeUri, fillerUri, episode, hasFiller, jip);
    var plan := AllPlain(placed);
    PlainTotal(placed);
    PlacedIsRemaining(episodeUri, fillerUri, episode, hasFiller, jip);
    RemainingTotal(before, jip);
    RemainingAppend(before, [pad], jip);
    var intoPad := if jip <= e + f then 0 else jip - e - f;
    RemainingOfOne(pad, intoPad);
    FilledByPad(plan, pad, intoPad, Remaining([pad], intoPad));
  }

  lemma PaddedAgrees(episodeUri: string, fillerUri: string, episode: nat, hasFiller: bool, jip: nat)
    ensures var placed := Placed(episodeUri, fillerUri, episode, hasFiller, jip);
            Total(placed) <= WINDOW &&
            var pad := Segment(Pad, "", 0, BLOCK_DURATION - Total(placed));
            && AllPlain(placed + [pad]) == AllPlain(placed) + [pad]
            && (AllPlain(placed + [pad]) == placed + [pad] <==>
                !JoinsInsideUnnamed(episodeUri, fillerUri, episode, hasFiller, jip))
  {
    var placed := Placed(episodeUri, fillerUri, episode, hasFiller, jip);
    ComposedIsJoined(episodeUri, fillerUri, episode, hasFiller, jip);
    PlacedIsPlain(episodeUri, fillerUri, episode, hasFiller, jip);
    var pad := Segment(Pad, "", 0, BLOCK_DURATION - Total(placed));
    PlainAppend(placed, [pad]);
    PlainOfOne(pad);
    PlainTotal(placed);
    SameBeforeSameEnd(AllPlain(placed), placed, pad);
  }

  lemma SameBeforeSameEnd(a: seq<Segment>, b: seq<Segment>, last: Segment)
    ensures a + [last] == b + [last] <==> a == b
  {
    assert (a + [last])[..|a|] == a && (b + [last])[..|b|] == b;
  }

  /** However far the join is into the pad, or beyond it, one pad fills what the plan leaves. */
  lemma FilledByPad(plan: seq<Segment>, pad: Segment, elapsed: nat, left: seq<Segment>)
    requires pad.kind == Pad && pad.uri == "" && pad.assetOffset == 0
    requires plan == [] || plan[|plan| - 1].kind != Pad
    requires Total(plan) < BLOCK_DURATION && Total(plan) + pad.duration <= BLOCK_DURATION + elapsed
    requires if elapsed < pad.duration then left == [Trimmed(pad, elapsed)] else left == []
    ensures Filled(plan + left, BLOCK_DURATION) == plan + [Segment(Pad, "", 0, BLOCK_DURATION - Total(plan))]
  {
    if elapsed < pad.duration {
      var last := Trimmed(pad, elapsed);
      assert last == Segment(Pad, "", 0, pad.duration - elapsed);
      FilledByLastPad(plan, last, Segment(Pad, "", 0, BLOCK_DURATION - Total(plan)));
    } else {
      FilledByNewPad(plan, BLOCK_DURATION);
      assert plan + left == plan;
    }
  }

  lemma FilledByNewPad(plan: seq<Segment>, block: int)
    requires (plan == [] || plan[|plan| - 1].kind != Pad) && Total(plan) < block
    ensures Filled(plan, block) == plan + [Segment(Pad, "", 0, block - Total(plan))]
  {
  }

  lemma FilledByLastPad(plan: seq<Segment>, last: Segment, wanted: Segment)
    requires last.kind == Pad && last.duration <= wanted.duration && last.(duration := wanted.duration) == wanted
    requires Total(plan) + wanted.duration == BLOCK_DURATION
    ensures Filled(plan + [last], BLOCK_DURATION) == plan + [wanted]
  {
    var all := plan + [last];
    TotalAppend(plan, [last]);
    TotalOne(last);
    assert all[|all| - 1] == last;
    assert all[|plan| := wanted] == plan + [wanted];
  }
}
