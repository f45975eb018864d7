/**
  Which segment the emitted frame belongs to, and which segment is active after the tick.

  One tick without a block take: the frame is chosen first, from the active segment's buffer (A), the
  incoming one's (B), the frame held from before or the pad producer; then, on a segment seam, the
  swap to the incoming segment is performed, forced or deferred.
 */
module FrameAuthority {
  import opened Common

  const MIN_AUDIO_MS := 500
  const MIN_VIDEO_FRAMES := 2

  datatype Incoming = Incoming(audioMs: int, videoFrames: nat, isPad: bool)

  /** Pad provides its picture on demand: only its audio has to be ready. */
  predicate Eligible(i: Incoming) {
    i.audioMs >= MIN_AUDIO_MS && (i.isPad || i.videoFrames >= MIN_VIDEO_FRAMES)
  }

  predicate Ready(i: Option<Incoming>) {
    i.Some? && Eligible(i.value)
  }

  /** What one tick finds: buffers are filled by other threads, so they are read twice. */
  datatype Tick = Tick(
    takeSegment: bool,
    toIsPad: bool,          // the next segment is pad
    activeIsPad: bool,
    fadesIn: bool,          // the next segment starts with a fade
    hasB: bool,             // B exists when the source is selected
    seen: Option<Incoming>, // the incoming segment at selection
    aDepth: nat,
    hasBEnsured: bool,      // B exists once it was asked for
    overridePops: bool,     // a pop from B by the content seam override succeeds
    sourcePops: bool,       // a pop from the selected buffer succeeds
    cadenceRepeat: bool,    // the cadence asks for a repeat
    aPrimed: bool,
    hasDecoder: bool,
    mayProduceSoon: bool,   // ready, decoder open, A not primed
    later: Option<Incoming>, // the incoming segment after the frame was sent
    aDepthLater: nat)

  datatype State = State(
    current: nat,
    hasLastGood: bool,
    lastGoodOrigin: int,
    committed: bool,        // a real frame was sent
    heldFrom: int)          // the segment the held picture was decoded for

  // ---------------------------------------------------------------------------
  // Choosing the frame
  // ---------------------------------------------------------------------------

  predicate SourceIsB(t: Tick) {
    t.takeSegment && t.hasB && Ready(t.seen)
  }

  predicate PadSeam(t: Tick) {
    t.takeSegment && t.toIsPad
  }

  /** Pad is active with nothing buffered, and the incoming content has a buffer. */
  predicate ContentSeam(t: Tick) {
    t.takeSegment && !t.toIsPad && t.activeIsPad && t.aDepth == 0 && t.hasBEnsured
  }

  predicate Repeats(t: Tick) {
    t.cadenceRepeat && !SourceIsB(t)
  }

  datatype Choice = SeamPad | OverrideB | Repeat | PopA | PopB | Hold | PlainPad | Underflow

  function Chosen(s: State, t: Tick): Choice {
    if PadSeam(t) then SeamPad
    else if ContentSeam(t) && t.overridePops then OverrideB
    else if Repeats(t) then (if s.hasLastGood then Repeat else PlainPad)
    else if t.sourcePops then (if SourceIsB(t) then PopB else PopA)
    else if t.takeSegment && s.hasLastGood then (if t.activeIsPad && t.fadesIn then PlainPad else Hold)
    else if t.aPrimed && t.hasDecoder then Underflow
    else PlainPad
  }

  predicate IsContent(c: Choice) {
    c.OverrideB? || c.PopA? || c.PopB?
  }

  predicate ShowsPad(c: Choice) {
    c.SeamPad? || c.PlainPad?
  }

  const NOT_CHECKED := -2

  /** The segment the frame is stamped with. Frames from A carry the active index or no stamp. */
  function Stamp(s: State, t: Tick, c: Choice): int {
    match c
    case SeamPad => s.current + 1
    case OverrideB => s.current + 1
    case PopA => if ContentSeam(t) then s.current + 1 else s.current
    case PopB => s.current + 1
    case Repeat => s.lastGoodOrigin
    case Hold => s.lastGoodOrigin
    case PlainPad => NOT_CHECKED
    case Underflow => NOT_CHECKED
  }

  /** The segment whose content is in the picture. */
  function TrueOrigin(s: State, c: Choice): int {
    match c
    case OverrideB => s.current + 1
    case PopB => s.current + 1
    case PopA => s.current
    case Repeat => s.heldFrom
    case Hold => s.heldFrom
    case _ => NOT_CHECKED
  }

  function Held(s: State, t: Tick, c: Choice): State {
    s.(hasLastGood := s.hasLastGood || IsContent(c),
       lastGoodOrigin := if IsContent(c) || c.SeamPad? then Stamp(s, t, c) else s.lastGoodOrigin,
       heldFrom := if IsContent(c) then TrueOrigin(s, c) else s.heldFrom)
  }

  /** Before the first real frame, pad is not sent while content may still come. */
  predicate Skips(s: State, t: Tick, c: Choice) {
    ShowsPad(c) && !s.committed && t.hasDecoder && t.mayProduceSoon
  }

  // ---------------------------------------------------------------------------
  // The swap
  // ---------------------------------------------------------------------------

  predicate ForcedByAuthority(t: Tick) {
    t.aDepthLater == 0 && t.later.Some? && t.later.value.videoFrames > 0 && !Eligible(t.later.value)
  }

  predicate ForcedBySeam(t: Tick, c: Choice) {
    t.later.Some? && (c.SeamPad? || (ContentSeam(t) && IsContent(c)))
  }

  predicate Swaps(s: State, t: Tick, c: Choice) {
    && t.takeSegment && t.later.Some?
    && (ForcedByAuthority(t) || ForcedBySeam(t, c)
        || (Eligible(t.later.value) && !(Stamp(s, t, c) >= 0 && Stamp(s, t, c) == s.current)))
  }

  datatype Outcome = Stopped | Skipped(state: State) | Sent(choice: Choice, origin: int, shown: int, state: State)

  function After(s: State, t: Tick): Outcome {
    var c := Chosen(s, t);
    var held := Held(s, t, c);
    if c.Underflow? then Stopped
    else if Skips(s, t, c) then Skipped(held)
    else
      var swaps := Swaps(s, t, c);
      var current := if swaps then s.current + 1 else s.current;
      var restamped := swaps && ForcedByAuthority(t);
      Sent(c, if restamped then current else Stamp(s, t, c), TrueOrigin(s, c),
           held.(current := current,
                 lastGoodOrigin := if restamped then current else held.lastGoodOrigin,
                 committed := s.committed || !ShowsPad(c)))
  }

  class TickLoop {
    var current: nat
    var hasLastGood: bool
    var lastGoodOrigin: int
    var committed: bool
    ghost var heldFrom: int

    ghost function View(): State
      reads this
    {
      State(current, hasLastGood, lastGoodOrigin, committed, heldFrom)
    }

    constructor ()
      ensures View() == State(0, false, -1, false, -1)
    {
      current, hasLastGood, lastGoodOrigin, committed, heldFrom := 0, false, -1, false, -1;
    }

    method Keep(origin: int, ghost from: int)
      modifies this`hasLastGood, this`lastGoodOrigin, this`heldFrom
      ensures hasLastGood && lastGoodOrigin == origin && heldFrom == from
    {
      hasLastGood, lastGoodOrigin, heldFrom := true, origin, from;
    }

    /** The cascade: the first branch that applies picks the frame. */
    method SelectFrame(t: Tick) returns (choice: Choice, origin: int)
      modifies this`hasLastGood, this`lastGoodOrigin, this`heldFrom
      ensures choice == Chosen(old(View()), t) && origin == Stamp(old(View()), t, choice)
      ensures View() == Held(old(View()), t, choice)
    {
      var source := t.takeSegment && t.hasB && t.seen.Some? && Eligible(t.seen.value);
      var repeat := t.cadenceRepeat && !(t.takeSegment && source);
      var seam := t.takeSegment && !t.toIsPad && t.activeIsPad && t.aDepth == 0 && t.hasBEnsured;
      choice, origin := PlainPad, NOT_CHECKED;
      if t.takeSegment && t.toIsPad {
        choice, origin := SeamPad, current + 1;
        lastGoodOrigin := origin;
      } else if seam && t.overridePops {
        choice, origin := OverrideB, current + 1;
        Keep(origin, current + 1);
      } else if repeat {
        if hasLastGood {
          choice, origin := Repeat, lastGoodOrigin;
        }
      } else if t.sourcePops {
        choice := if source then PopB else PopA;
        origin := if source || seam then current + 1 else current;
        Keep(origin, if source then current + 1 else current);
      } else if t.takeSegment && hasLastGood {
        if !(t.activeIsPad && t.fadesIn) {
          choice, origin := Hold, lastGoodOrigin;
        }
      } else if t.aPrimed && t.hasDecoder {
        choice := Underflow;
      }
    }

    /** The swap, with its gates in order. */
    method PostTake(t: Tick, choice: Choice, stamped: int, ghost before: State) returns (origin: int)
      requires before.current == current && stamped == Stamp(before, t, choice)
      modifies this`current, this`lastGoodOrigin
      ensures var swaps := Swaps(before, t, choice);
              && current == (if swaps then before.current + 1 else before.current)
              && origin == (if swaps && ForcedByAuthority(t) then current else stamped)
              && lastGoodOrigin == (if swaps && ForcedByAuthority(t) then current else old(lastGoodOrigin))
    {
      origin := stamped;
      if !t.takeSegment || t.later.None? {
        return;
      }
      var eligible := Eligible(t.later.value);
      var forAuthority := t.aDepthLater == 0 && t.later.value.videoFrames > 0 && !eligible;
      var forPadSeam := choice.SeamPad?;
      var forContentSeam := ContentSeam(t) && IsContent(choice);
      if !eligible && !forAuthority && !forPadSeam && !forContentSeam {
        return;
      }
      if stamped >= 0 && stamped == current && !forAuthority && !forPadSeam && !forContentSeam {
        return;
      }
      current := current + 1;
      if forAuthority {
        origin := current;
        lastGoodOrigin := current;
      }
    }

    method RunTick(t: Tick) returns (sent: bool, choice: Choice, origin: int)
      modifies this
      ensures match After(old(View()), t)
              case Stopped => !sent && choice == Underflow
              case Skipped(state) => !sent && View() == state
              case Sent(c, o, _, state) => sent && choice == c && origin == o && View() == state
    {
      ghost var before := View();
      choice, origin := SelectFrame(t);
      sent := false;
      if choice.Underflow? {
        return;
      }
      var pad := choice.SeamPad? || choice.PlainPad?;
      if pad && !committed && t.hasDecoder && t.mayProduceSoon {
        return;
      }
      sent := true;
      committed := committed || !pad;
      origin := PostTake(t, choice, origin, before);
    }
  }

  // ---------------------------------------------------------------------------
  // When pad is sent, and when fresh content
  // ---------------------------------------------------------------------------

  /** Content fresh from a buffer, or content that was sent before. */
  predicate ShowsContent(c: Choice) {
    IsContent(c) || c.Repeat? || c.Hold?
  }

  /**
    What becomes of a tick, from what it finds alone. Fresh content is sent exactly if no pad seam
    is due and a pop that is made succeeds: from B at a seam out of an empty pad segment, else from
    the selected buffer unless the cadence repeats. A held picture is sent exactly if none is, on a
    cadence repeat or while an incoming segment without a fade-in is awaited. The loop stops exactly
    if a running decoder's primed buffer gives nothing outside a seam. Everything else is pad, sent
    exactly unless the session's first picture may still come.
   */
  lemma SentExactly(s: State, t: Tick)
    ensures var o := After(s, t);
            var bIsReady := t.takeSegment && t.hasB && t.seen.Some? && t.seen.value.audioMs >= 500
                            && (t.seen.value.isPad || t.seen.value.videoFrames >= 2);
            var padDue := t.takeSegment && t.toIsPad;
            var fromB := t.takeSegment && t.activeIsPad && t.aDepth == 0 && t.hasBEnsured && t.overridePops;
            var repeats := t.cadenceRepeat && !bIsReady;
            var popped := !padDue && (fromB || (!repeats && t.sourcePops));
            var held := !padDue && !popped && s.hasLastGood
                        && (repeats || (t.takeSegment && !(t.activeIsPad && t.fadesIn)));
            var stops := !padDue && !popped && !repeats && !(t.takeSegment && s.hasLastGood)
                         && t.aPrimed && t.hasDecoder;
            var mayStillCome := !s.committed && t.hasDecoder && t.mayProduceSoon;
            && (o.Sent? && IsContent(o.choice) <==> popped)
            && (popped ==> o.shown == if fromB || bIsReady then s.current + 1 else s.current)
            && (o.Sent? && (o.choice.Repeat? || o.choice.Hold?) <==> held)
            && (held ==> o.shown == s.heldFrom)
            && (o.Stopped? <==> stops)
            && (o.Sent? && ShowsPad(o.choice) <==> !popped && !held && !stops && !mayStillCome)
            && (o.Skipped? <==> !popped && !held && !stops && mayStillCome)
  {
  }

  /**
    The incoming segment becomes active exactly if a sent tick takes a segment whose state exists, and
    either the active buffer ran dry while the incoming one has frames that do not make it eligible,
    or pad was sent for a pad seam, or content was taken at a seam out of an empty pad segment, or it
    is eligible and the frame is not of the active segment.
   */
  lemma SwapsExactly(s: State, t: Tick)
    ensures var o := After(s, t);
            o.Sent? ==>
              var ready := t.later.Some? && t.later.value.audioMs >= 500
                           && (t.later.value.isPad || t.later.value.videoFrames >= 2);
              var runsDry := t.aDepthLater == 0 && t.later.Some? && t.later.value.videoFrames > 0 && !ready;
              var padDue := t.takeSegment && t.toIsPad;
              var leavesPad := !t.toIsPad && t.activeIsPad && t.aDepth == 0 && t.hasBEnsured && IsContent(o.choice);
              var ofActive := (o.choice.PopA? && !leavesPad)
                              || ((o.choice.Repeat? || o.choice.Hold?) && s.lastGoodOrigin == s.current);
              var swaps := t.takeSegment && t.later.Some? && (runsDry || padDue || leavesPad || (ready && !ofActive));
              o.state.current == s.current + if swaps then 1 else 0
    ensures After(s, t).Skipped? ==> After(s, t).state.current == s.current
  {
  }

  /** With no seam and no repeat due, a frame that is there is sent, as the active segment's, and held. */
  lemma OrdinaryTickShowsActive(s: State, t: Tick)
    requires !t.takeSegment && !t.cadenceRepeat && t.sourcePops
    ensures var o := After(s, t);
            && o.Sent? && !ShowsPad(o.choice) && o.origin == s.current && o.shown == s.current
            && o.state == State(s.current, true, s.current, true, s.current)
  {
  }

  /** No pad seam, and the selected buffer has a frame. */
  predicate Supplied(t: Tick) {
    !(t.takeSegment && t.toIsPad) && t.sourcePops
  }

  /** Every tick sends content, and every one on which the cadence advances fresh content. */
  ghost predicate NoPad(s: State, run: seq<Tick>)
    decreases |run|
  {
    run == [] ||
    var o := After(s, run[0]);
    && o.Sent? && ShowsContent(o.choice) && (!run[0].cadenceRepeat ==> IsContent(o.choice))
    && NoPad(o.state, run[1..])
  }

  /** So pad is never sent, and no tick lost, while content is there to be sent. */
  lemma {:induction false} SuppliedRunSendsNoPad(s: State, run: seq<Tick>)
    requires forall i :: 0 <= i < |run| ==> Supplied(run[i])
    requires s.hasLastGood || (run != [] ==> !run[0].cadenceRepeat)
    ensures NoPad(s, run)
    decreases |run|
  {
    if run != [] {
      assert Supplied(run[0]);
      SuppliedRunSendsNoPad(After(s, run[0]).state, run[1..]);
    }
  }

  // ---------------------------------------------------------------------------
  // Authority
  // ---------------------------------------------------------------------------

  /** Facts about the buffers a tick finds: B does not vanish, and a ready B gives a frame. */
  predicate Plausible(t: Tick) {
    t.takeSegment ==>
      && (if t.toIsPad then t.seen.Some? && t.seen.value.isPad && t.later.Some? && t.later.value.isPad
          else
            && (t.seen.Some? <==> t.hasB) && (t.seen.Some? ==> !t.seen.value.isPad)
            && (t.later.Some? ==> !t.later.value.isPad)
            && (t.hasB ==> t.hasBEnsured) && (t.hasBEnsured ==> t.later.Some?)
            && (SourceIsB(t) ==> t.sourcePops && t.overridePops))
  }

  /** The held frame is stamped with the active segment. */
  predicate HeldAgrees(s: State) {
    (s.hasLastGood ==> s.lastGoodOrigin == s.current) && (s.hasLastGood ==> s.committed)
  }

  /** The frame is pad, or stamped with the segment that is active after the tick. */
  predicate Matches(o: Outcome) {
    o.Sent? ==> ShowsPad(o.choice) || o.origin == o.state.current
  }

  /** A frame came out of B, and then B no longer qualifies while A still has frames, or B has none left. */
  predicate LosesItsSegment(t: Tick) {
    && SourceIsB(t) && !t.toIsPad && !ContentSeam(t)
    && !Ready(t.later) && !ForcedByAuthority(t)
  }

  /** When the held frame agrees before the tick, this is the one way to emit a frame of the wrong segment. */
  lemma TickMatchesExactly(s: State, t: Tick)
    requires Plausible(t) && HeldAgrees(s)
    ensures Matches(After(s, t)) <==> !LosesItsSegment(t)
  {
  }

  /** B qualifies after the frame was sent if and only if it did when the source was selected. */
  predicate Steady(t: Tick) {
    t.takeSegment && !t.toIsPad ==> (Ready(t.seen) <==> Ready(t.later))
  }

  function StateAfter(s: State, t: Tick): State {
    match After(s, t)
    case Stopped => s
    case Skipped(next) => next
    case Sent(_, _, _, next) => next
  }

  lemma SteadyTickKeepsAuthority(s: State, t: Tick)
    requires Plausible(t) && HeldAgrees(s) && Steady(t)
    ensures Matches(After(s, t)) && HeldAgrees(StateAfter(s, t))
  {
  }

  /** Over every run of ticks between block takes, no frame is stamped with a segment that is not active. */
  ghost predicate AllMatch(s: State, run: seq<Tick>)
    decreases |run|
  {
    run == [] || (Matches(After(s, run[0])) && AllMatch(StateAfter(s, run[0]), run[1..]))
  }

  lemma {:induction false} EveryTickMatches(s: State, run: seq<Tick>)
    requires HeldAgrees(s) && forall i :: 0 <= i < |run| ==> Plausible(run[i]) && Steady(run[i])
    ensures AllMatch(s, run)
    decreases |run|
  {
    if run != [] {
      SteadyTickKeepsAuthority(s, run[0]);
      EveryTickMatches(StateAfter(s, run[0]), run[1..]);
    }
  }

  /** The pop itself can undo the eligibility it was based on: two frames in B, one taken. */
  lemma PopCanLoseItsSegment()
    ensures var s := State(3, true, 3, true, 3);
            var t := Tick(true, false, false, false, true, Some(Incoming(600, 2, false)), 5, true, true, true, false,
                          true, true, false, Some(Incoming(600, 1, false)), 5);
            && Plausible(t) && HeldAgrees(s) && !Matches(After(s, t))
            && After(s, t).origin == 4 && After(s, t).state.current == 3
  {
  }

  /** Without agreement at the start, a repeat sends a frame stamped with another segment. */
  lemma RepeatNeedsAgreement(s: State, t: Tick)
    requires !t.takeSegment && t.cadenceRepeat && s.hasLastGood
    ensures Matches(After(s, t)) <==> s.lastGoodOrigin == s.current
  {
  }

  /** A picture from the active buffer is overtaken by a swap that authority forces, or a seam that found B empty. */
  predicate Overtaken(t: Tick) {
    t.takeSegment && (ForcedByAuthority(t) || ContentSeam(t))
  }

  /** The segment active after a tick that shows the held picture. */
  function CurrentAfterHeld(s: State, t: Tick): nat {
    if t.takeSegment && (ForcedByAuthority(t) || (Ready(t.later) && s.lastGoodOrigin != s.current))
    then s.current + 1
    else s.current
  }

  /** When the picture itself belongs to the segment active after the tick, by where it was taken from. */
  predicate PictureBelongs(s: State, t: Tick, c: Choice) {
    match c
    case OverrideB => true
    case PopA => !Overtaken(t)
    case PopB => !LosesItsSegment(t)
    case Repeat => s.heldFrom == CurrentAfterHeld(s, t)
    case Hold => s.heldFrom == CurrentAfterHeld(s, t)
    case _ => true
  }

  /**
    The picture itself belongs to the segment active after the tick in fewer cases than its stamp
    does: a swap that overtakes the picture corrects the stamp, not the picture. Whatever is held.
   */
  lemma PictureMatchesExactly(s: State, t: Tick)
    requires Plausible(t)
    ensures var o := After(s, t);
            o.Sent? && !ShowsPad(o.choice) ==>
              (o.shown == o.state.current <==> PictureBelongs(s, t, o.choice))
  {
  }

  /**
    The stamp is not the picture: after a pad seam the held content frame is stamped with the pad
    segment, and a hold at the next seam shows it under that name.
   */
  lemma HeldPictureCanBeOlder()
    ensures var s := State(0, true, 0, true, 0);
            var seam := Tick(true, true, false, false, false, Some(Incoming(500, 0, true)), 3, false, false, false, false,
                             true, true, false, Some(Incoming(500, 0, true)), 3);
            var wait := Tick(true, false, true, false, false, None, 0, false, false, false, false,
                             false, false, false, None, 0);
            var s1 := StateAfter(s, seam);
            && Plausible(seam) && Plausible(wait) && s1.current == 1
            && After(s1, wait) == Sent(Hold, 1, 0, s1)
  {
  }
}
