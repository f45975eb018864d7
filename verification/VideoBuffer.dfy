/**
  The video lookahead buffer: a bounded queue filled by a background thread and drained by the tick
  loop, stopped without waiting for the thread.

  The queue is the class Store; the threads are a machine whose steps interleave. A stop raises the
  stop flag, bumps the generation without the lock, clears the queue under it and takes the producer
  away. A fill thread reads the producer and then the generation at its start, tests the flag before
  and after it decodes, and compares the generation under the lock before it pushes.
 */
module VideoBuffer {
  import opened Common

  datatype VideoFrame = VideoFrame(session: nat, image: int)

  datatype Queue = Queue(frames: seq<VideoFrame>, pushed: nat, popped: nat, dropped: nat, primed: bool)

  const EMPTY := Queue([], 0, 0, 0, false)

  /** The cap a target depth gives. */
  function HardCap(target: int): (cap: nat)
    ensures cap >= 200 && cap >= 4 * target && (cap == 200 || cap == 4 * target)
  {
    var fromTarget := if target > 0 then target * 4 else 60;
    if fromTarget > 200 then fromTarget else 200
  }

  /** A push into a full queue drops the oldest frames first. */
  function Pushed(q: Queue, f: VideoFrame, cap: nat): Queue
    requires cap > 0
  {
    var excess := if |q.frames| >= cap then |q.frames| - cap + 1 else 0;
    q.(frames := q.frames[excess..] + [f], pushed := q.pushed + 1, dropped := q.dropped + excess, primed := true)
  }

  function Popped(q: Queue): Queue
    requires q.frames != []
  {
    q.(frames := q.frames[1..], popped := q.popped + 1)
  }

  function Flushed(q: Queue): Queue {
    q.(frames := [], primed := false)
  }

  class Store {
    const cap: nat
    var frames: seq<VideoFrame>
    var totalPushed: nat
    var totalPopped: nat
    var dropsTotal: nat
    var underflowCount: nat
    var primed: bool

    ghost function View(): Queue
      reads this
    {
      Queue(frames, totalPushed, totalPopped, dropsTotal, primed)
    }

    ghost predicate Valid()
      reads this
    {
      cap > 0 && |frames| <= cap
    }

    constructor (targetDepth: int)
      ensures Valid() && View() == EMPTY && cap == HardCap(targetDepth)
    {
      cap := HardCap(targetDepth);
      frames, totalPushed, totalPopped, dropsTotal, underflowCount, primed := [], 0, 0, 0, 0, false;
    }

    /** The critical section of a push. */
    method Push(f: VideoFrame)
      requires Valid()
      modifies this
      ensures Valid() && View() == Pushed(old(View()), f, cap)
      ensures frames == old(if |frames| == cap then frames[1..] else frames) + [f]
      ensures dropsTotal == old(dropsTotal) + if |old(frames)| == cap then 1 else 0
    {
      while |frames| >= cap
        invariant |frames| <= |old(frames)| <= cap
        invariant frames == old(frames)[|old(frames)| - |frames|..]
        invariant |frames| < |old(frames)| ==> |frames| >= cap - 1
        invariant totalPushed == old(totalPushed) && totalPopped == old(totalPopped)
        invariant dropsTotal == old(dropsTotal) + |old(frames)| - |frames|
      {
        frames := frames[1..];
        dropsTotal := dropsTotal + 1;
      }
      frames := frames + [f];
      totalPushed := totalPushed + 1;
      primed := true;
    }

    method TryPopFrame() returns (out: Option<VideoFrame>)
      requires Valid()
      modifies this
      ensures Valid()
      ensures out.Some? <==> old(frames) != []
      ensures out.Some? ==> out.value == old(frames)[0] && View() == Popped(old(View()))
      ensures out.None? ==> View() == old(View())
      ensures underflowCount == old(underflowCount) + if out.None? then 1 else 0
    {
      if frames == [] {
        underflowCount := underflowCount + 1;
        return None;
      }
      out := Some(frames[0]);
      frames := frames[1..];
      totalPopped := totalPopped + 1;
    }

    method Clear()
      requires Valid()
      modifies this`frames, this`primed
      ensures Valid() && View() == Flushed(old(View()))
    {
      frames := [];
      primed := false;
    }
  }

  // ---------------------------------------------------------------------------
  // The threads
  // ---------------------------------------------------------------------------

  /** producer is the session whose producer the thread read; held the session of the frame it repeats. */
  datatype Thread = Thread(phase: Phase, producer: nat, captured: nat, held: Option<nat>)

  /** A thread in Passed holds the lock: it has compared generations, and will push. */
  datatype Phase =
    | Created | HasProducer | HasGeneration | Seeded | Decoding | Decoded(frame: VideoFrame)
    | Ready(frame: VideoFrame) | Passed(frame: VideoFrame) | Gone

  /** What the tick thread is doing: starting a session, or stopping one. */
  datatype Tick =
    | Idle
    | FlagLowered | Installed | Primed               // StartFilling
    | Signalled(flush: bool) | Joining(flush: bool)  // StopFillingAsync, StopFilling
    | Clearing(flush: bool, detached: bool) | Releasing(flush: bool, detached: bool)

  datatype State = State(
    generation: nat,
    stop: bool,              // fill_stop_
    sessions: nat,           // started so far; a session's frames carry its number
    producer: Option<nat>,   // producer_, as the session it belongs to
    filling: Option<nat>,    // the thread started last, until it is detached or joined
    tick: Tick,
    holder: Option<nat>,     // the fill thread that holds the lock
    threads: seq<Thread>,
    queue: Queue,
    flushed: nat,            // frames cleared
    log: seq<VideoFrame>)    // every frame pushed

  datatype Step =
    | LowerFlag | Install | Prime(primed: Option<int>) | Spawn
    | ReadProducer(t: nat) | ReadGeneration(t: nat) | Seed(t: nat)
    | TestFlag(t: nat) | Decode(t: nat, image: int) | Repeat(t: nat, image: int) | RetestFlag(t: nat)
    | Skip(t: nat) | Enter(t: nat) | Publish(t: nat) | Exit(t: nat)
    | Signal(flush: bool) | Bump | Join(flush: bool) | Joined | Clear | Release
    | Pop

  const START := State(0, false, 0, None, None, Idle, None, [], EMPTY, 0, [])

  predicate In(s: State, t: nat, phase: Phase) {
    t < |s.threads| && s.threads[t].phase == phase
  }

  predicate Enabled(s: State, step: Step) {
    match step
    case LowerFlag => s.tick == Idle && s.filling == None
    case Install => s.tick == FlagLowered
    case Prime(primed) => s.tick == Installed && (primed.Some? ==> s.holder == None)
    case Spawn => s.tick == Primed
    case ReadProducer(t) => In(s, t, Created)
    case ReadGeneration(t) => In(s, t, HasProducer)
    case Seed(t) => In(s, t, HasGeneration) && s.holder == None
    case TestFlag(t) => In(s, t, Seeded)
    case Decode(t, _) => In(s, t, Decoding)
    case Repeat(t, _) => In(s, t, Decoding) && s.threads[t].held.Some?
    case RetestFlag(t) => t < |s.threads| && s.threads[t].phase.Decoded?
    case Skip(t) => t < |s.threads| && (s.threads[t].phase.Decoding? || s.threads[t].phase.Ready?)
    case Enter(t) => t < |s.threads| && s.threads[t].phase.Ready? && s.holder == None
    case Publish(t) => t < |s.threads| && s.threads[t].phase.Passed? && s.holder == Some(t)
    case Exit(t) => t < |s.threads| && !s.threads[t].phase.Passed?
    case Signal(_) => s.tick == Idle
    case Bump => s.tick.Signalled?
    case Join(_) => s.tick == Idle
    case Joined => s.tick.Joining? && (s.filling.Some? ==> In(s, s.filling.value, Gone))
    case Clear => s.tick.Clearing? && (s.tick.flush ==> s.holder == None)
    case Release => s.tick.Releasing?
    case Pop => s.holder == None && s.queue.frames != []
  }

  function Enqueue(s: State, f: VideoFrame, cap: nat): State
    requires cap > 0
  {
    s.(queue := Pushed(s.queue, f, cap), log := s.log + [f])
  }

  function Emptied(s: State): State {
    s.(queue := Flushed(s.queue), flushed := s.flushed + |s.queue.frames|)
  }

  function Move(s: State, t: nat, phase: Phase): State
    requires t < |s.threads|
  {
    s.(threads := s.threads[t := s.threads[t].(phase := phase)])
  }

  /** The session of the last frame in the queue, which a starting thread copies to repeat. */
  function LastSession(q: Queue): Option<nat> {
    if q.frames == [] then None else Some(q.frames[|q.frames| - 1].session)
  }

  /** The flag is raised only if a thread is running. */
  function Raised(s: State): State {
    s.(stop := s.stop || s.filling.Some?)
  }

  function After(s: State, step: Step, cap: nat): State
    requires Enabled(s, step) && cap > 0
  {
    match step
    case LowerFlag => s.(stop := false, tick := FlagLowered)
    case Install => s.(sessions := s.sessions + 1, producer := Some(s.sessions + 1), tick := Installed)
    case Prime(primed) =>
      var next := s.(tick := Primed);
      if primed.Some? then Enqueue(next, VideoFrame(s.sessions, primed.value), cap) else next
    case Spawn =>
      s.(generation := s.generation + 1, tick := Idle, filling := Some(|s.threads|),
         threads := s.threads + [Thread(Created, 0, 0, None)])
    case ReadProducer(t) =>
      if s.producer.None? then Move(s, t, Gone)
      else s.(threads := s.threads[t := s.threads[t].(phase := HasProducer, producer := s.producer.value)])
    case ReadGeneration(t) =>
      s.(threads := s.threads[t := s.threads[t].(phase := HasGeneration, captured := s.generation)])
    case Seed(t) => s.(threads := s.threads[t := s.threads[t].(phase := Seeded, held := LastSession(s.queue))])
    case TestFlag(t) => Move(s, t, if s.stop then Gone else Decoding)
    case Decode(t, image) =>
      s.(threads := s.threads[t := s.threads[t].(phase := Decoded(VideoFrame(s.threads[t].producer, image)),
                                                 held := Some(s.threads[t].producer))])
    case Repeat(t, image) => Move(s, t, Decoded(VideoFrame(s.threads[t].held.value, image)))
    case RetestFlag(t) => Move(s, t, if s.stop then Gone else Ready(s.threads[t].phase.frame))
    case Skip(t) => Move(s, t, Seeded) // a cycle without a frame, or with one kept out of a full queue
    case Enter(t) =>
      if s.threads[t].captured == s.generation
      then Move(s, t, Passed(s.threads[t].phase.frame)).(holder := Some(t))
      else Move(s, t, Gone)
    case Publish(t) => Enqueue(Move(s, t, Seeded).(holder := None), s.threads[t].phase.frame, cap)
    case Exit(t) => Move(s, t, Gone)
    case Signal(flush) => Raised(s).(filling := None, tick := Signalled(flush))
    case Bump => s.(generation := s.generation + 1, tick := Clearing(s.tick.flush, true))
    case Join(flush) => Raised(s).(tick := Joining(flush))
    case Joined => s.(filling := None, tick := Clearing(s.tick.flush, false))
    case Clear => (if s.tick.flush then Emptied(s) else s).(tick := Releasing(s.tick.flush, s.tick.detached))
    case Release => s.(producer := None, tick := Idle)
    case Pop => s.(queue := Popped(s.queue))
  }

  ghost predicate Legal(s: State, run: seq<Step>, cap: nat)
    requires cap > 0
    decreases |run|
  {
    run == [] || (Enabled(s, run[0]) && Legal(After(s, run[0], cap), run[1..], cap))
  }

  ghost function AfterRun(s: State, run: seq<Step>, cap: nat): State
    requires cap > 0 && Legal(s, run, cap)
    decreases |run|
  {
    if run == [] then s else AfterRun(After(s, run[0], cap), run[1..], cap)
  }

  // ---------------------------------------------------------------------------
  // The queue is bounded and accounted for
  // ---------------------------------------------------------------------------

  /** Bounded, every frame accounted for, and in order: what is queued is the end of what was pushed. */
  ghost predicate Counted(s: State, cap: nat) {
    && |s.queue.frames| <= cap
    && s.queue.pushed == |s.log| && |s.queue.frames| <= |s.log|
    && s.queue.frames == s.log[|s.log| - |s.queue.frames|..]
    && s.queue.pushed == s.queue.popped + s.queue.dropped + s.flushed + |s.queue.frames|
  }

  lemma CountedKept(s: State, step: Step, cap: nat)
    requires cap > 0 && Enabled(s, step) && Counted(s, cap)
    ensures Counted(After(s, step, cap), cap)
  {
    match step
    case Prime(_) => PrimeKeepsCounted(s, step, cap);
    case Publish(_) => PublishKeepsCounted(s, step, cap);
    case Clear =>
    case Pop => PopKeepsCounted(s, cap);
    case _ => OthersLeaveTheQueue(s, step, cap);
  }

  lemma PrimeKeepsCounted(s: State, step: Step, cap: nat)
    requires cap > 0 && step.Prime? && Enabled(s, step) && Counted(s, cap)
    ensures Counted(After(s, step, cap), cap)
  {
    if step.primed.Some? {
      EnqueueKeepsCounted(s.(tick := Primed), VideoFrame(s.sessions, step.primed.value), cap);
    }
  }

  lemma PublishKeepsCounted(s: State, step: Step, cap: nat)
    requires cap > 0 && step.Publish? && Enabled(s, step) && Counted(s, cap)
    ensures Counted(After(s, step, cap), cap)
  {
    EnqueueKeepsCounted(Move(s, step.t, Seeded).(holder := None), s.threads[step.t].phase.frame, cap);
  }

  lemma PopKeepsCounted(s: State, cap: nat)
    requires cap > 0 && Enabled(s, Pop) && Counted(s, cap)
    ensures Counted(After(s, Pop, cap), cap)
  {
    var n := |s.log| - |s.queue.frames|;
    assert s.queue.frames[1..] == s.log[n + 1..];
  }

  lemma OthersLeaveTheQueue(s: State, step: Step, cap: nat)
    requires cap > 0 && Enabled(s, step)
    requires !step.Prime? && !step.Publish? && !step.Clear? && !step.Pop?
    ensures var next := After(s, step, cap);
            next.queue == s.queue && next.log == s.log && next.flushed == s.flushed
  {
  }

  lemma EnqueueKeepsCounted(s: State, f: VideoFrame, cap: nat)
    requires cap > 0 && Counted(s, cap)
    ensures Counted(Enqueue(s, f, cap), cap)
  {
    var next := Pushed(s.queue, f, cap).frames;
    assert next == (s.log + [f])[|s.log| + 1 - |next|..];
  }

  /** A push drops one frame, the oldest, exactly when the queue is full; nothing else drops any. */
  lemma OnlyFullQueuesDrop(s: State, step: Step, cap: nat)
    requires cap > 0 && Enabled(s, step) && Counted(s, cap)
    ensures var q, next := s.queue, After(s, step, cap).queue;
            if next.pushed > q.pushed
            then next.frames != []
                 && next.frames[..|next.frames| - 1] == (if |q.frames| == cap then q.frames[1..] else q.frames)
                 && next.pushed == q.pushed + 1 && next.dropped == q.dropped + if |q.frames| == cap then 1 else 0
            else next.dropped == q.dropped
  {
  }

  lemma {:induction false} QueueIsBoundedAndCounted(s: State, run: seq<Step>, cap: nat)
    requires cap > 0 && Counted(s, cap) && Legal(s, run, cap)
    ensures Counted(AfterRun(s, run, cap), cap)
    decreases |run|
  {
    if run != [] {
      CountedKept(s, run[0], cap);
      QueueIsBoundedAndCounted(After(s, run[0], cap), run[1..], cap);
    }
  }

  // ---------------------------------------------------------------------------
  // What holds at every moment
  // ---------------------------------------------------------------------------

  predicate HoldsProducer(th: Thread) {
    !th.phase.Created? && !th.phase.Gone?
  }

  predicate HasReadGeneration(th: Thread) {
    HoldsProducer(th) && !th.phase.HasProducer?
  }

  /** The thread has found the flag down since it read its generation. */
  predicate PastFlag(th: Thread) {
    th.phase.Decoding? || th.phase.Decoded? || th.phase.Ready? || th.phase.Passed?
  }

  /** The tick thread is stopping a session. */
  predicate Stopping(tick: Tick) {
    tick.Signalled? || tick.Joining? || tick.Clearing? || tick.Releasing?
  }

  /** A detached stop has bumped the generation and not returned. */
  predicate Detaching(tick: Tick) {
    (tick.Clearing? || tick.Releasing?) && tick.detached
  }

  ghost predicate Consistent(s: State) {
    && (forall t :: 0 <= t < |s.threads| && s.threads[t].phase.Passed? ==> s.holder == Some(t))
    && (s.holder.Some? ==> s.holder.value < |s.threads| && s.threads[s.holder.value].phase.Passed?)
    && (forall t :: 0 <= t < |s.threads| && HasReadGeneration(s.threads[t]) ==> s.threads[t].captured <= s.generation)
    && (forall t :: 0 <= t < |s.threads| && HoldsProducer(s.threads[t]) ==> s.threads[t].producer <= s.sessions)
    && (forall t :: 0 <= t < |s.threads| && s.threads[t].phase.Created? ==> s.threads[t].held.None?)
    && (s.producer.Some? ==> s.producer.value <= s.sessions)
    && (s.threads != [] && (Stopping(s.tick) || (s.tick == Idle && s.filling.None?)) ==> s.stop)
    && (s.tick != Idle && !s.tick.Joining? ==> s.filling.None?)
  }

  /** From its bump on, a detached stop leaves no thread past the flag with the generation that is now current. */
  ghost predicate CutOff(s: State) {
    Detaching(s.tick) ==>
      && (forall t :: 0 <= t < |s.threads| && PastFlag(s.threads[t]) ==> s.threads[t].captured < s.generation)
      && (s.tick == Releasing(true, true) ==> s.holder.None? && s.queue.frames == [])
  }

  /** A step of a fill thread before it takes the lock. */
  predicate Prepares(step: Step) {
    step.ReadProducer? || step.ReadGeneration? || step.Seed? || step.TestFlag? || step.Decode? || step.Repeat?
    || step.RetestFlag? || step.Skip? || step.Exit?
  }

  predicate Locks(step: Step) {
    step.Enter? || step.Publish?
  }

  /** A thread's step changes that thread, the lock and the queue. */
  lemma OnlyItsThreadMoves(s: State, step: Step, cap: nat)
    requires cap > 0 && Enabled(s, step) && (Prepares(step) || Locks(step))
    ensures var next := After(s, step, cap);
            && step.t < |s.threads| && next.threads == s.threads[step.t := next.threads[step.t]]
            && next.generation == s.generation && next.sessions == s.sessions && next.producer == s.producer
            && next.stop == s.stop && next.filling == s.filling && next.tick == s.tick
            && (Prepares(step) ==> next.holder == s.holder)
            && (!step.Publish? ==> next.queue == s.queue)
  {
  }

  /** What a moved thread must satisfy for the state to stay consistent. */
  predicate ThreadFits(s: State, t: nat, th: Thread) {
    && (th.phase.Passed? <==> s.holder == Some(t))
    && (HasReadGeneration(th) ==> th.captured <= s.generation)
    && (HoldsProducer(th) ==> th.producer <= s.sessions)
    && (th.phase.Created? ==> th.held.None?)
  }

  lemma FittingThreadKeepsConsistent(s: State, next: State, t: nat)
    requires Consistent(s) && t < |s.threads| && |next.threads| == |s.threads|
    requires next.threads == s.threads[t := next.threads[t]]
    requires next.generation == s.generation && next.sessions == s.sessions && next.producer == s.producer
    requires next.stop == s.stop && next.filling == s.filling && next.tick == s.tick
    requires next.holder == s.holder || (s.holder.None? && next.holder == Some(t))
             || (s.holder == Some(t) && next.holder.None?)
    requires ThreadFits(next, t, next.threads[t])
    ensures Consistent(next)
  {
    forall u | 0 <= u < |next.threads| && u != t ensures next.threads[u] == s.threads[u] {
    }
  }

  lemma PreparedThreadFits(s: State, step: Step, cap: nat)
    requires cap > 0 && Enabled(s, step) && Consistent(s) && Prepares(step)
    ensures step.t < |s.threads| && step.t < |After(s, step, cap).threads|
    ensures var next := After(s, step, cap); ThreadFits(next, step.t, next.threads[step.t])
  {
    assert ThreadFits(s, step.t, s.threads[step.t]);
  }

  lemma ThreadKeepsConsistent(s: State, step: Step, cap: nat)
    requires cap > 0 && Enabled(s, step) && Consistent(s) && (Prepares(step) || Locks(step))
    ensures Consistent(After(s, step, cap))
  {
    OnlyItsThreadMoves(s, step, cap);
    if Prepares(step) {
      PreparedThreadFits(s, step, cap);
    } else {
      assert ThreadFits(s, step.t, s.threads[step.t]);
    }
    FittingThreadKeepsConsistent(s, After(s, step, cap), step.t);
  }

  lemma TickingKeepsConsistent(s: State, step: Step, cap: nat)
    requires cap > 0 && Enabled(s, step) && Consistent(s) && !Prepares(step) && !Locks(step)
    ensures Consistent(After(s, step, cap))
  {
  }

  lemma ConsistentKept(s: State, step: Step, cap: nat)
    requires cap > 0 && Enabled(s, step) && Consistent(s)
    ensures Consistent(After(s, step, cap))
  {
    if Prepares(step) || Locks(step) {
      ThreadKeepsConsistent(s, step, cap);
    } else {
      TickingKeepsConsistent(s, step, cap);
    }
  }

  lemma ThreadKeepsCutOff(s: State, step: Step, cap: nat)
    requires cap > 0 && Enabled(s, step) && Consistent(s) && CutOff(s) && (Prepares(step) || Locks(step))
    ensures CutOff(After(s, step, cap))
  {
    var next := After(s, step, cap);
    OnlyItsThreadMoves(s, step, cap);
    if Detaching(s.tick) {
      assert PastFlag(next.threads[step.t]) ==> next.threads[step.t].captured < s.generation;
    }
  }

  lemma TickKeepsCutOff(s: State, step: Step, cap: nat)
    requires cap > 0 && Enabled(s, step) && Consistent(s) && CutOff(s) && !Prepares(step) && !Locks(step)
    ensures CutOff(After(s, step, cap))
  {
  }

  lemma CutOffKept(s: State, step: Step, cap: nat)
    requires cap > 0 && Enabled(s, step) && Consistent(s) && CutOff(s)
    ensures CutOff(After(s, step, cap))
  {
    if Prepares(step) || Locks(step) {
      ThreadKeepsCutOff(s, step, cap);
    } else {
      TickKeepsCutOff(s, step, cap);
    }
  }

  lemma {:induction false} RunKeepsConsistent(s: State, run: seq<Step>, cap: nat)
    requires cap > 0 && Consistent(s) && CutOff(s) && Legal(s, run, cap)
    ensures Consistent(AfterRun(s, run, cap)) && CutOff(AfterRun(s, run, cap))
    decreases |run|
  {
    if run != [] {
      ConsistentKept(s, run[0], cap);
      CutOffKept(s, run[0], cap);
      RunKeepsConsistent(After(s, run[0], cap), run[1..], cap);
    }
  }

  // ---------------------------------------------------------------------------
  // What a stop keeps out
  // ---------------------------------------------------------------------------

  /** A frame of a session that had been started by a certain time. */
  ghost predicate HasStale(s: State, limit: nat) {
    exists i :: 0 <= i < |s.queue.frames| && s.queue.frames[i].session <= limit
  }

  /**
    The thread read a producer before it was taken away, and either has not read its generation or
    read it since the stop bumped it and has not tested the flag.
   */
  predicate MayStillPush(s: State, t: nat) {
    t < |s.threads| &&
    var th := s.threads[t];
    th.phase.HasProducer? || ((th.phase.HasGeneration? || th.phase.Seeded?) && th.captured == s.generation)
  }

  predicate FrameOf(phase: Phase, limit: nat) {
    match phase
    case Decoded(f) => f.session > limit
    case Ready(f) => f.session > limit
    case Passed(f) => f.session > limit
    case _ => true
  }

  /** Outdated for good, or of a session started later throughout. */
  predicate Harmless(s: State, th: Thread, limit: nat) {
    HoldsProducer(th) ==>
      || (HasReadGeneration(th) && th.captured < s.generation && !th.phase.Passed?)
      || (th.producer > limit && (th.held.Some? ==> th.held.value > limit) && FrameOf(th.phase, limit))
  }

  ghost predicate KeptOut(s: State, limit: nat) {
    && limit <= s.sessions && (s.tick.Installed? || s.tick.Primed? ==> limit < s.sessions)
    && (s.producer.Some? ==> s.producer.value > limit)
    && (forall i :: 0 <= i < |s.queue.frames| ==> s.queue.frames[i].session > limit)
    && (forall t :: 0 <= t < |s.threads| ==> Harmless(s, s.threads[t], limit))
    && (forall t :: 0 <= t < |s.threads| && s.threads[t].phase.Created? ==> s.threads[t].held.None?)
  }

  lemma MovedThreadIsHarmless(s: State, step: Step, limit: nat, cap: nat)
    requires cap > 0 && Enabled(s, step) && KeptOut(s, limit) && (Prepares(step) || Locks(step))
    ensures step.t < |s.threads| && step.t < |After(s, step, cap).threads|
    ensures var next := After(s, step, cap);
            Harmless(next, next.threads[step.t], limit)
            && (next.threads[step.t].phase.Created? ==> next.threads[step.t].held.None?)
  {
    assert Harmless(s, s.threads[step.t], limit);
  }

  lemma QueueStaysFresh(s: State, step: Step, limit: nat, cap: nat)
    requires cap > 0 && Enabled(s, step) && KeptOut(s, limit) && (Prepares(step) || Locks(step))
    ensures var q := After(s, step, cap).queue.frames; forall i :: 0 <= i < |q| ==> q[i].session > limit
  {
    OnlyItsThreadMoves(s, step, cap);
    if step.Publish? {
      assert Harmless(s, s.threads[step.t], limit);
      assert s.threads[step.t].phase.frame.session > limit;
    }
  }

  lemma ThreadKeepsOut(s: State, step: Step, limit: nat, cap: nat)
    requires cap > 0 && Enabled(s, step) && KeptOut(s, limit) && (Prepares(step) || Locks(step))
    ensures KeptOut(After(s, step, cap), limit)
  {
    var next := After(s, step, cap);
    OnlyItsThreadMoves(s, step, cap);
    MovedThreadIsHarmless(s, step, limit, cap);
    QueueStaysFresh(s, step, limit, cap);
    forall u | 0 <= u < |next.threads|
      ensures Harmless(next, next.threads[u], limit)
      ensures next.threads[u].phase.Created? ==> next.threads[u].held.None?
    {
      if u != step.t {
        assert next.threads[u] == s.threads[u] && Harmless(s, s.threads[u], limit);
      }
    }
  }

  lemma TickKeepsOut(s: State, step: Step, limit: nat, cap: nat)
    requires cap > 0 && Enabled(s, step) && KeptOut(s, limit) && !Prepares(step) && !Locks(step)
    ensures KeptOut(After(s, step, cap), limit)
  {
  }

  lemma KeptOutKept(s: State, step: Step, limit: nat, cap: nat)
    requires cap > 0 && Enabled(s, step) && KeptOut(s, limit)
    ensures KeptOut(After(s, step, cap), limit)
  {
    if Prepares(step) || Locks(step) {
      ThreadKeepsOut(s, step, limit, cap);
    } else {
      TickKeepsOut(s, step, limit, cap);
    }
  }

  lemma {:induction false} RunKeepsOut(s: State, run: seq<Step>, limit: nat, cap: nat)
    requires cap > 0 && KeptOut(s, limit) && Legal(s, run, cap)
    ensures KeptOut(AfterRun(s, run, cap), limit)
    decreases |run|
  {
    if run != [] {
      KeptOutKept(s, run[0], limit, cap);
      RunKeepsOut(After(s, run[0], cap), run[1..], limit, cap);
    }
  }

  /** What holds when a detached stop with a flush returns. */
  lemma ReturnedStop(s0: State, cap: nat)
    requires cap > 0 && Consistent(s0) && CutOff(s0) && s0.tick == Releasing(true, true)
    ensures var s := After(s0, Release, cap);
            && s.tick == Idle && s.filling.None? && s.holder.None? && s.queue.frames == [] && s.producer.None?
            && (forall t :: 0 <= t < |s.threads| && HoldsProducer(s.threads[t]) && !MayStillPush(s, t) ==>
                  HasReadGeneration(s.threads[t]) && s.threads[t].captured < s.generation
                  && !s.threads[t].phase.Passed?)
            && (forall t :: 0 <= t < |s.threads| && s.threads[t].phase.Created? ==> s.threads[t].held.None?)
            && (forall t :: 0 <= t < |s.threads| && HoldsProducer(s.threads[t]) ==> s.threads[t].producer <= s.sessions)
  {
  }

  /** If no thread can still push, none of the sessions so far ever shows again. */
  lemma NoneMayPushNoneDoes(s: State, after: seq<Step>, cap: nat)
    requires cap > 0 && Legal(s, after, cap) && s.tick == Idle && s.queue.frames == [] && s.producer.None?
    requires forall t :: 0 <= t < |s.threads| && HoldsProducer(s.threads[t]) ==>
               HasReadGeneration(s.threads[t]) && s.threads[t].captured < s.generation && !s.threads[t].phase.Passed?
    requires forall t :: 0 <= t < |s.threads| && s.threads[t].phase.Created? ==> s.threads[t].held.None?
    ensures !HasStale(AfterRun(s, after, cap), s.sessions)
  {
    assert KeptOut(s, s.sessions);
    RunKeepsOut(s, after, s.sessions, cap);
  }

  lemma {:induction false} RunExtends(s: State, run: seq<Step>, step: Step, cap: nat)
    requires cap > 0 && Legal(s, run, cap) && Enabled(AfterRun(s, run, cap), step)
    ensures Legal(s, run + [step], cap) && AfterRun(s, run + [step], cap) == After(AfterRun(s, run, cap), step, cap)
    decreases |run|
  {
    if run == [] {
      assert Legal(After(s, step, cap), [step][1..], cap);
      assert run + [step] == [step];
    } else {
      assert (run + [step])[1..] == run[1..] + [step];
      RunExtends(After(s, run[0], cap), run[1..], step, cap);
    }
  }

  ghost predicate Reachable(from: State, to: State, cap: nat)
    requires cap > 0
  {
    exists run :: Legal(from, run, cap) && AfterRun(from, run, cap) == to
  }

  lemma ReachesItself(s: State, cap: nat)
    requires cap > 0
    ensures Reachable(s, s, cap)
  {
    assert Legal(s, [], cap) && AfterRun(s, [], cap) == s;
  }

  lemma ReachableStep(from: State, s: State, step: Step, next: State, cap: nat)
    requires cap > 0 && Reachable(from, s, cap) && Enabled(s, step) && After(s, step, cap) == next
    ensures Reachable(from, next, cap)
  {
    var run :| Legal(from, run, cap) && AfterRun(from, run, cap) == s;
    RunExtends(from, run, step, cap);
  }

  /** A thread with the current generation that finds the flag down reaches the lock with a frame of its producer. */
  lemma SeededThreadGetsReady(from: State, s: State, t: nat, cap: nat) returns (next: State)
    requires cap > 0 && Reachable(from, s, cap) && In(s, t, Seeded) && s.threads[t].captured == s.generation
    requires !s.stop && s.holder.None?
    ensures Reachable(from, next, cap) && next.holder.None? && In(next, t, Ready(VideoFrame(s.threads[t].producer, 0)))
    ensures next.threads[t].captured == next.generation
  {
    var s1 := After(s, TestFlag(t), cap);
    ReachableStep(from, s, TestFlag(t), s1, cap);
    var s2 := After(s1, Decode(t, 0), cap);
    ReachableStep(from, s1, Decode(t, 0), s2, cap);
    next := After(s2, RetestFlag(t), cap);
    ReachableStep(from, s2, RetestFlag(t), next, cap);
  }

  /** A thread at the lock with the current generation pushes its frame. */
  lemma ReadyThreadPushes(from: State, s: State, t: nat, f: VideoFrame, cap: nat)
    requires cap > 0 && Reachable(from, s, cap) && In(s, t, Ready(f)) && s.threads[t].captured == s.generation
    requires s.holder.None?
    ensures exists next :: Reachable(from, next, cap) && HasStale(next, f.session)
  {
    var s1 := After(s, Enter(t), cap);
    ReachableStep(from, s, Enter(t), s1, cap);
    var s2 := After(s1, Publish(t), cap);
    ReachableStep(from, s1, Publish(t), s2, cap);
    assert s2.queue.frames[|s2.queue.frames| - 1] == f;
  }

  /** Whoever may still push does, once the next start has lowered the flag. */
  lemma WhoMayPushCan(s: State, t: nat, cap: nat)
    requires cap > 0 && MayStillPush(s, t) && s.tick == Idle && s.filling.None? && s.holder.None?
    ensures exists next :: Reachable(s, next, cap) && HasStale(next, s.threads[t].producer)
  {
    ReachesItself(s, cap);
    var s1 := After(s, LowerFlag, cap);
    ReachableStep(s, s, LowerFlag, s1, cap);
    var s2 := s1;
    if In(s1, t, HasProducer) {
      s2 := After(s1, ReadGeneration(t), cap);
      ReachableStep(s, s1, ReadGeneration(t), s2, cap);
    }
    var s3 := s2;
    if In(s2, t, HasGeneration) {
      s3 := After(s2, Seed(t), cap);
      ReachableStep(s, s2, Seed(t), s3, cap);
    }
    var s4 := SeededThreadGetsReady(s, s3, t, cap);
    ReadyThreadPushes(s, s4, t, VideoFrame(s.threads[t].producer, 0), cap);
  }

  /**
    The exact condition, on the state in which a detached stop with a flush returns: a frame of a
    session started before can enter the queue afterwards if and only if some thread holds the
    producer of such a session and has not yet read its generation, or has read it after the stop
    bumped it and not tested the flag.
   */
  lemma StaleFrameExactly(before: seq<Step>, cap: nat)
    requires cap > 0 && Legal(START, before, cap) && AfterRun(START, before, cap).tick == Releasing(true, true)
    ensures var s := After(AfterRun(START, before, cap), Release, cap);
            (exists next :: Reachable(s, next, cap) && HasStale(next, s.sessions)) <==>
            (exists t: nat :: MayStillPush(s, t))
  {
    var s0 := AfterRun(START, before, cap);
    var s := After(s0, Release, cap);
    RunKeepsConsistent(START, before, cap);
    ReturnedStop(s0, cap);
    if t: nat :| MayStillPush(s, t) {
      WhoMayPushCan(s, t, cap);
      StaleForLater(s, s.threads[t].producer, s.sessions, cap);
    }
    if next :| Reachable(s, next, cap) && HasStale(next, s.sessions) {
      var after :| Legal(s, after, cap) && AfterRun(s, after, cap) == next;
      if forall t: nat :: !MayStillPush(s, t) {
        NoneMayPushNoneDoes(s, after, cap);
        assert false;
      }
    }
  }

  lemma StaleForLater(s: State, early: nat, late: nat, cap: nat)
    requires cap > 0 && early <= late
    requires exists next :: Reachable(s, next, cap) && HasStale(next, early)
    ensures exists next :: Reachable(s, next, cap) && HasStale(next, late)
  {
    var next :| Reachable(s, next, cap) && HasStale(next, early);
    assert HasStale(next, late);
  }

  /** So once no thread is in between, nothing of the sessions so far is queued or ever enters. */
  lemma StoppedSessionsStayOut(before: seq<Step>, after: seq<Step>, cap: nat)
    requires cap > 0 && Legal(START, before, cap) && AfterRun(START, before, cap).tick == Releasing(true, true)
    requires Legal(After(AfterRun(START, before, cap), Release, cap), after, cap)
    requires forall t: nat :: !MayStillPush(After(AfterRun(START, before, cap), Release, cap), t)
    ensures var s := After(AfterRun(START, before, cap), Release, cap);
            !HasStale(AfterRun(s, after, cap), s.sessions)
  {
    var s := After(AfterRun(START, before, cap), Release, cap);
    StaleFrameExactly(before, cap);
    assert Reachable(s, AfterRun(s, after, cap), cap);
  }

  // A thread read its producer and was overtaken by a stop and the next start.

  const LATE := Thread(HasProducer, 1, 0, None)
  const STOPPED := State(2, true, 1, Some(1), None, Releasing(true, true), None, [LATE], EMPTY, 0, [])
  const RESTARTED :=
    State(3, false, 2, Some(2), Some(1), Idle, None, [LATE, Thread(Created, 0, 0, None)], EMPTY, 0, [])

  const RUNNING := State(1, false, 1, Some(1), Some(0), Idle, None, [Thread(Created, 0, 0, None)], EMPTY, 0, [])

  lemma FirstSessionStarts(cap: nat)
    requires cap > 0
    ensures Reachable(START, RUNNING, cap)
  {
    ReachesItself(START, cap);
    var s1 := After(START, LowerFlag, cap);
    ReachableStep(START, START, LowerFlag, s1, cap);
    var s2 := After(s1, Install, cap);
    ReachableStep(START, s1, Install, s2, cap);
    var s3 := After(s2, Prime(None), cap);
    ReachableStep(START, s2, Prime(None), s3, cap);
    ReachableStep(START, s3, Spawn, RUNNING, cap);
  }

  const READ := RUNNING.(threads := [LATE])

  lemma ThreadReadsProducer(cap: nat)
    requires cap > 0
    ensures Reachable(START, READ, cap)
  {
    FirstSessionStarts(cap);
    ReachableStep(START, RUNNING, ReadProducer(0), READ, cap);
  }

  lemma StopOvertakesThread(cap: nat)
    requires cap > 0
    ensures Reachable(START, STOPPED, cap)
  {
    ThreadReadsProducer(cap);
    var s1 := After(READ, Signal(true), cap);
    ReachableStep(START, READ, Signal(true), s1, cap);
    var s2 := After(s1, Bump, cap);
    ReachableStep(START, s1, Bump, s2, cap);
    ReachableStep(START, s2, Clear, STOPPED, cap);
  }

  lemma NextSessionStarts(cap: nat)
    requires cap > 0
    ensures Reachable(After(STOPPED, Release, cap), RESTARTED, cap)
  {
    var s := After(STOPPED, Release, cap);
    ReachesItself(s, cap);
    var s1 := After(s, LowerFlag, cap);
    ReachableStep(s, s, LowerFlag, s1, cap);
    var s2 := After(s1, Install, cap);
    ReachableStep(s, s1, Install, s2, cap);
    var s3 := After(s2, Prime(None), cap);
    ReachableStep(s, s2, Prime(None), s3, cap);
    ReachableStep(s, s3, Spawn, RESTARTED, cap);
  }

  const DECODING := RESTARTED.(threads := [Thread(Decoding, 1, 3, None), Thread(Created, 0, 0, None)])

  lemma LateThreadDecodes(cap: nat)
    requires cap > 0
    ensures Reachable(After(STOPPED, Release, cap), DECODING, cap)
  {
    NextSessionStarts(cap);
    var s := After(STOPPED, Release, cap);
    var s1 := After(RESTARTED, ReadGeneration(0), cap);
    ReachableStep(s, RESTARTED, ReadGeneration(0), s1, cap);
    var s2 := After(s1, Seed(0), cap);
    ReachableStep(s, s1, Seed(0), s2, cap);
    ReachableStep(s, s2, TestFlag(0), DECODING, cap);
  }

  /** The stop has returned and the second session runs, and the queue's one frame is the first session's. */
  lemma StaleFrameAfterRestart(cap: nat)
    requires cap > 0
    ensures Reachable(START, STOPPED, cap)
    ensures exists next :: Reachable(After(STOPPED, Release, cap), next, cap)
              && next.tick == Idle && next.sessions == 2 && next.producer == Some(2) && next.filling == Some(1)
              && next.queue.frames == [VideoFrame(1, 0)]
  {
    StopOvertakesThread(cap);
    LateThreadDecodes(cap);
    var s := After(STOPPED, Release, cap);
    var s1 := After(DECODING, Decode(0, 0), cap);
    ReachableStep(s, DECODING, Decode(0, 0), s1, cap);
    var s2 := After(s1, RetestFlag(0), cap);
    ReachableStep(s, s1, RetestFlag(0), s2, cap);
    var s3 := After(s2, Enter(0), cap);
    ReachableStep(s, s2, Enter(0), s3, cap);
    var s4 := After(s3, Publish(0), cap);
    ReachableStep(s, s3, Publish(0), s4, cap);
  }
}
