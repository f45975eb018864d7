/**
  Delivery of the evidence trail to Core: the emitter, the spool's writer thread, the client's
  connection thread and ack reader, the stream and Core, as one machine whose steps interleave in
  every possible order.

  A record is its sequence number; a fresh session numbers its records from one. A line that is
  only partly on disk does not replay (module SpoolCrash), so records reach the disk one at a time.
 */
module Delivery {
  import opened Common
  import opened LineFile

  datatype Phase = Disconnected | AwaitingAck | Replaying | Live | Closing

  datatype World = World(
    appended: nat,           // records accepted by the spool
    sent: nat,               // of those, handed to the client
    queue: seq<nat>,         // the spool's write queue
    writing: seq<nat>,       // the writer thread's batch
    disk: seq<nat>,
    durableAck: nat,         // the acknowledgement file
    lastAcked: nat,          // the client's last_acked_
    phase: Phase,
    helloAcked: bool,        // the first ack of this stream was read
    sendQueue: seq<nat>,     // the client's send_queue_
    batch: seq<nat>,         // what is left of the live batch being written
    remaining: seq<nat>,     // what is left of the replay being written
    wire: seq<nat>,          // written to the stream, not yet received
    acks: seq<nat>,          // acknowledged by Core, not yet read
    core: set<nat>,          // received by Core, in any session
    ghost replayedDisk: nat, // how many records were on disk when this session's replay began
    ghost lost: set<nat>,    // dropped by sessions that ended, between the send queue and Core
    ghost replayAck: nat,    // the acknowledgement this session's replay began from
    ghost firstLive: int,    // how many records had left the send queue by then
    ghost received: seq<nat>) // what Core received in this session, in order

  datatype Step =
    | Append | Send
    | TakeWrites | Flush
    | Connect | Timeout | StartReplay | WriteReplayed | FinishReplay
    | TakeBatch | WriteLive | WriteFails | Finish
    | Receive | Acknowledge(sequence: nat) | ReadAck(stored: bool)

  const START := World(0, 0, [], [], [], 0, 0, Disconnected, false, [], [], [], [], [], {}, 0, {}, 0, 0, [])

  /** Core holds every record up to this one. */
  ghost predicate Holds(core: set<nat>, sequence: nat) {
    forall s :: 1 <= s <= sequence ==> s in core
  }

  function Above(acked: nat): nat -> bool {
    (s: nat) => s > acked
  }

  predicate Streaming(w: World) {
    w.phase != Disconnected
  }

  ghost predicate Enabled(w: World, step: Step) {
    match step
    case Append => true
    case Send => w.sent < w.appended
    case TakeWrites => w.writing == []
    case Flush => w.writing != []
    case Connect => w.phase == Disconnected
    case Timeout => w.phase == AwaitingAck
    case StartReplay => w.phase == AwaitingAck && w.helloAcked
    case WriteReplayed => w.phase == Replaying && w.remaining != []
    case FinishReplay => w.phase == Replaying && w.remaining == []
    case TakeBatch => w.phase == Live && w.batch == []
    case WriteLive => w.phase == Live && w.batch != []
    case WriteFails => (w.phase == Replaying && w.remaining != []) || (w.phase == Live && w.batch != [])
    case Finish => w.phase == Closing
    case Receive => Streaming(w) && w.wire != []
    case Acknowledge(sequence) => Streaming(w) && Holds(w.core, sequence)
    case ReadAck(_) => Streaming(w) && w.acks != []
  }

  /** UpdateAck: the file is replaced only by a greater acknowledgement, and only if it can be written. */
  function DurableAfter(w: World, sequence: nat, stored: bool): nat {
    if sequence > w.durableAck && stored then sequence else w.durableAck
  }

  function AfterAck(w: World, stored: bool): World
    requires w.acks != []
  {
    var sequence := w.acks[0];
    var next := w.(acks := w.acks[1..]);
    if !w.helloAcked then
      next.(helloAcked := true, lastAcked := sequence, durableAck := DurableAfter(w, sequence, stored))
    else if sequence > w.lastAcked then
      next.(lastAcked := sequence, durableAck := DurableAfter(w, sequence, stored))
    else next
  }

  ghost function After(w: World, step: Step): World
    requires Enabled(w, step)
  {
    match step
    case Append => w.(appended := w.appended + 1, queue := w.queue + [w.appended + 1])
    case Send => w.(sent := w.sent + 1, sendQueue := w.sendQueue + [w.sent + 1])
    case TakeWrites => w.(writing := w.queue, queue := [])
    case Flush => w.(disk := w.disk + [w.writing[0]], writing := w.writing[1..])
    case Connect => w.(phase := AwaitingAck, helloAcked := false, received := [])
    case Timeout => w.(phase := Closing)
    case StartReplay =>
      w.(phase := Replaying, remaining := Filter(w.disk, Above(w.lastAcked)), replayedDisk := |w.disk|,
         replayAck := w.lastAcked, firstLive := w.sent - |w.sendQueue|)
    case WriteReplayed => w.(wire := w.wire + [w.remaining[0]], remaining := w.remaining[1..])
    case FinishReplay => w.(phase := Live)
    case TakeBatch => w.(batch := w.sendQueue, sendQueue := [])
    case WriteLive => w.(wire := w.wire + [w.batch[0]], batch := w.batch[1..])
    case WriteFails =>
      w.(phase := Closing, remaining := [], batch := [], lost := w.lost + (set s | s in w.batch))
    case Finish =>
      w.(phase := Disconnected, wire := [], acks := [], lost := w.lost + (set s | s in w.wire))
    case Receive =>
      w.(core := w.core + {w.wire[0]}, wire := w.wire[1..], received := w.received + [w.wire[0]])
    case Acknowledge(sequence) => w.(acks := w.acks + [sequence])
    case ReadAck(stored) => AfterAck(w, stored)
  }

  ghost predicate Legal(w: World, run: seq<Step>)
    decreases |run|
  {
    run == [] || (Enabled(w, run[0]) && Legal(After(w, run[0]), run[1..]))
  }

  ghost function AfterRun(w: World, run: seq<Step>): World
    requires Legal(w, run)
    decreases |run|
  {
    if run == [] then w else AfterRun(After(w, run[0]), run[1..])
  }

  // ---------------------------------------------------------------------------
  // What every step keeps
  // ---------------------------------------------------------------------------

  function Numbers(first: nat, count: nat): seq<nat> {
    seq(count, i requires 0 <= i < count => first + i)
  }

  /** Disk, the writer's batch and the write queue are the appended records, in order. */
  ghost predicate Spooled(w: World) {
    w.disk + (w.writing + w.queue) == Numbers(1, w.appended)
  }

  /** No acknowledgement in any hand goes beyond what Core holds without a gap. */
  ghost predicate AcksAreTrue(w: World) {
    && Holds(w.core, w.durableAck) && Holds(w.core, w.lastAcked)
    && forall i :: 0 <= i < |w.acks| ==> Holds(w.core, w.acks[i])
  }

  ghost predicate Within(records: seq<nat>, appended: nat) {
    forall i :: 0 <= i < |records| ==> 1 <= records[i] <= appended
  }

  /** Nothing is made up on the way. */
  ghost predicate OnlyAppended(w: World) {
    && w.sent <= w.appended
    && (forall s :: s in w.core ==> 1 <= s <= w.appended)
    && Within(w.wire, w.appended) && Within(w.remaining, w.appended)
    && Within(w.batch, w.appended) && Within(w.sendQueue, w.appended)
  }

  /** Everything handed to the client is with it, on the stream, at Core, or was dropped with a session. */
  ghost predicate SentIsTracked(w: World) {
    forall s :: 1 <= s <= w.sent ==> s in w.core || s in w.wire || s in w.batch || s in w.sendQueue || s in w.lost
  }

  /** What was on disk when the replay began is at Core, on the stream, or still to be written. */
  ghost predicate ReplayIsComplete(w: World) {
    w.phase == Replaying || w.phase == Live ==>
      forall s :: 1 <= s <= w.replayedDisk ==> s in w.core || s in w.wire || s in w.remaining
  }

  /** Outside a session the client holds no part of a stream. */
  ghost predicate PhasesAgree(w: World) {
    && (w.phase != Replaying ==> w.remaining == [])
    && (w.phase != Live ==> w.batch == [])
    && (w.phase == Disconnected ==> w.wire == [] && w.acks == [])
    && (w.phase == AwaitingAck ==> w.wire == [] && w.received == [])
    && w.replayedDisk <= |w.disk|
  }

  /** What is still to be sent live are the last records handed to the client. */
  ghost predicate QueuedInOrder(w: World) {
    var waiting := w.batch + w.sendQueue;
    |waiting| <= w.sent && waiting == Numbers(w.sent - |waiting| + 1, |waiting|)
  }

  /** The records on disk that a replay from an acknowledgement owes. */
  function Unacked(acked: nat, disk: nat): seq<nat> {
    Numbers(acked + 1, if acked < disk then disk - acked else 0)
  }

  /** A session's stream: the replay owed, then the records handed over since, each once and in order. */
  ghost predicate StreamedInOrder(w: World) {
    w.phase == Replaying || w.phase == Live ==>
      var live := w.sent - w.firstLive - |w.batch + w.sendQueue|;
      && w.firstLive >= 0 && live >= 0 && (w.phase == Replaying ==> live == 0)
      && w.received + (w.wire + w.remaining) == Unacked(w.replayAck, w.replayedDisk) + Numbers(w.firstLive + 1, live)
  }

  ghost predicate Inv(w: World) {
    && Spooled(w) && AcksAreTrue(w) && OnlyAppended(w) && SentIsTracked(w) && ReplayIsComplete(w)
    && PhasesAgree(w) && QueuedInOrder(w) && StreamedInOrder(w)
  }

  lemma {:induction false} FilterHolds(ms: seq<nat>, acked: nat, s: nat)
    ensures s in Filter(ms, Above(acked)) <==> s in ms && s > acked
  {
    if ms != [] {
      FilterHolds(ms[1..], acked, s);
    }
  }

  lemma SpooledKept(w: World, step: Step)
    requires Enabled(w, step) && Spooled(w)
    ensures Spooled(After(w, step))
  {
    match step
    case Append =>
      var n := w.appended + 1;
      Regroup(w.writing, w.queue, [n]);
      Regroup(w.disk, w.writing + w.queue, [n]);
      assert Numbers(1, n) == Numbers(1, w.appended) + [n];
    case TakeWrites =>
      assert w.writing + w.queue == w.queue + [];
    case Flush =>
      assert w.writing == [w.writing[0]] + w.writing[1..];
      Regroup([w.writing[0]], w.writing[1..], w.queue);
      Regroup(w.disk, [w.writing[0]], w.writing[1..] + w.queue);
    case _ =>
  }

  lemma AcksKept(w: World, step: Step)
    requires Enabled(w, step) && AcksAreTrue(w)
    ensures AcksAreTrue(After(w, step))
    ensures After(w, step).durableAck >= w.durableAck
    ensures w.core <= After(w, step).core
  {
  }

  /** The first records on disk are the first ones appended. */
  lemma DiskIsPrefix(w: World)
    requires Spooled(w)
    ensures forall s :: s in w.disk <==> 1 <= s <= |w.disk|
    ensures |w.disk| <= w.appended
  {
    var all := Numbers(1, w.appended);
    assert w.disk == all[..|w.disk|];
    forall s: nat | 1 <= s <= |w.disk|
      ensures s in w.disk
    {
      assert w.disk[s - 1] == all[s - 1] == s;
    }
  }

  lemma ReplayIsWithin(w: World)
    requires Spooled(w)
    ensures Within(Filter(w.disk, Above(w.lastAcked)), w.appended)
  {
    DiskIsPrefix(w);
    var remaining := Filter(w.disk, Above(w.lastAcked));
    forall i | 0 <= i < |remaining|
      ensures 1 <= remaining[i] <= w.appended
    {
      FilterHolds(w.disk, w.lastAcked, remaining[i]);
    }
  }

  lemma WriteStaysWithin(wire: seq<nat>, left: seq<nat>, appended: nat)
    requires Within(wire, appended) && Within(left, appended) && left != []
    ensures Within(wire + [left[0]], appended) && Within(left[1..], appended)
  {
  }

  lemma OnlyAppendedKept(w: World, step: Step)
    requires Enabled(w, step) && Inv(w)
    ensures OnlyAppended(After(w, step))
  {
    match step
    case StartReplay => ReplayIsWithin(w);
    case WriteReplayed => WriteStaysWithin(w.wire, w.remaining, w.appended);
    case WriteLive => WriteStaysWithin(w.wire, w.batch, w.appended);
    case Receive => WriteStaysWithin([], w.wire, w.appended);
    case _ =>
  }

  lemma SentKept(w: World, step: Step)
    requires Enabled(w, step) && Inv(w)
    ensures SentIsTracked(After(w, step))
  {
  }

  lemma ReplayKept(w: World, step: Step)
    requires Enabled(w, step) && Inv(w)
    ensures ReplayIsComplete(After(w, step))
  {
    if step.StartReplay? {
      DiskIsPrefix(w);
      forall s: nat | 1 <= s <= |w.disk|
        ensures s in w.core || s in Filter(w.disk, Above(w.lastAcked))
      {
        FilterHolds(w.disk, w.lastAcked, s);
      }
    }
  }

  lemma NumbersFrom(first: nat, count: nat, k: nat)
    requires k <= count
    ensures Numbers(first, count)[k..] == Numbers(first + k, count - k)
  {
  }

  lemma {:induction false} FilterOfNumbers(first: nat, count: nat, acked: nat)
    ensures Filter(Numbers(first, count), Above(acked)) ==
            if acked < first then Numbers(first, count)
            else if acked - first < count then Numbers(acked + 1, count - (acked - first) - 1)
            else []
    decreases count
  {
    if count > 0 {
      var ms := Numbers(first, count);
      NumbersFrom(first, count, 1);
      FilterOfNumbers(first + 1, count - 1, acked);
      if acked < first {
        assert ms == [first] + ms[1..];
      }
    }
  }

  lemma NumbersSnoc(first: nat, count: nat)
    ensures Numbers(first, count) + [first + count] == Numbers(first, count + 1)
  {
  }

  lemma SendKeepsQueue(w: World)
    requires Enabled(w, Send) && QueuedInOrder(w)
    ensures QueuedInOrder(After(w, Send))
  {
    var waiting := w.batch + w.sendQueue;
    Regroup(w.batch, w.sendQueue, [w.sent + 1]);
    NumbersSnoc(w.sent - |waiting| + 1, |waiting|);
  }

  /** Whatever is taken from the front, the rest is still the last ones handed over. */
  lemma RestIsInOrder(waiting: seq<nat>, sent: nat, k: nat)
    requires k <= |waiting| <= sent && waiting == Numbers(sent - |waiting| + 1, |waiting|)
    ensures waiting[k..] == Numbers(sent - (|waiting| - k) + 1, |waiting| - k)
  {
    NumbersFrom(sent - |waiting| + 1, |waiting|, k);
  }

  lemma DropFront(a: seq<nat>, b: seq<nat>, k: nat)
    requires k <= |a|
    ensures (a + b)[k..] == a[k..] + b
    ensures a[k..] == [] ==> (a + b)[k..] == [] + b == b + []
  {
  }

  /** What stays in the client's hands after k records were taken from the front. */
  lemma TakingKeepsQueue(w: World, next: World, k: nat)
    requires QueuedInOrder(w) && next.sent == w.sent && k <= |w.batch + w.sendQueue|
    requires next.batch + next.sendQueue == (w.batch + w.sendQueue)[k..]
    ensures QueuedInOrder(next)
  {
    RestIsInOrder(w.batch + w.sendQueue, w.sent, k);
  }

  lemma QueueKept(w: World, step: Step)
    requires Enabled(w, step) && PhasesAgree(w) && QueuedInOrder(w)
    ensures QueuedInOrder(After(w, step))
  {
    match step
    case Send => SendKeepsQueue(w);
    case TakeBatch =>
      DropFront(w.batch, w.sendQueue, 0);
      TakingKeepsQueue(w, After(w, step), 0);
    case WriteLive =>
      DropFront(w.batch, w.sendQueue, 1);
      TakingKeepsQueue(w, After(w, step), 1);
    case WriteFails =>
      DropFront(w.batch, w.sendQueue, |w.batch|);
      TakingKeepsQueue(w, After(w, step), |w.batch|);
    case _ => assert After(w, step).batch == w.batch && After(w, step).sendQueue == w.sendQueue;
  }

  lemma StreamStarts(w: World)
    requires Enabled(w, StartReplay) && Spooled(w) && PhasesAgree(w) && QueuedInOrder(w)
    ensures StreamedInOrder(After(w, StartReplay))
  {
    var all := Numbers(1, w.appended);
    assert w.disk == all[..|w.disk|] == Numbers(1, |w.disk|);
    FilterOfNumbers(1, |w.disk|, w.lastAcked);
    assert [] + w.sendQueue == w.sendQueue;
    var next := After(w, StartReplay);
    assert next.remaining == Unacked(w.lastAcked, |w.disk|);
  }

  lemma LiveWriteKeepsStream(w: World)
    requires Enabled(w, WriteLive) && PhasesAgree(w) && QueuedInOrder(w) && StreamedInOrder(w)
    ensures StreamedInOrder(After(w, WriteLive))
  {
    var waiting := w.batch + w.sendQueue;
    var live := w.sent - w.firstLive - |waiting|;
    assert w.batch[0] == waiting[0] == w.firstLive + live + 1;
    assert w.batch[1..] + w.sendQueue == waiting[1..];
    assert w.wire + [] == w.wire && (w.wire + [w.batch[0]]) + [] == w.wire + [w.batch[0]];
    Regroup(w.received, w.wire, [w.batch[0]]);
    Regroup(Unacked(w.replayAck, w.replayedDisk), Numbers(w.firstLive + 1, live), [w.batch[0]]);
    assert Numbers(w.firstLive + 1, live + 1) == Numbers(w.firstLive + 1, live) + [w.batch[0]];
  }

  /** Moving the first of what is left to the end of what was written leaves the stream as it is. */
  lemma MovedOn(done: seq<nat>, wire: seq<nat>, left: seq<nat>)
    ensures left != [] ==> done + ((wire + [left[0]]) + left[1..]) == done + (wire + left)
    ensures wire != [] ==> (done + [wire[0]]) + (wire[1..] + left) == done + (wire + left)
  {
    if left != [] {
      assert left == [left[0]] + left[1..];
      Regroup(wire, [left[0]], left[1..]);
    }
    if wire != [] {
      assert wire == [wire[0]] + wire[1..];
      Regroup([wire[0]], wire[1..], left);
      Regroup(done, [wire[0]], wire[1..] + left);
    }
  }

  lemma MoveKeepsStream(w: World, step: Step)
    requires Enabled(w, step) && PhasesAgree(w) && StreamedInOrder(w) && (step == WriteReplayed || step == Receive)
    ensures StreamedInOrder(After(w, step))
  {
    MovedOn(w.received, w.wire, w.remaining);
    var next := After(w, step);
    assert next.received + (next.wire + next.remaining) == w.received + (w.wire + w.remaining);
  }

  /** A step that neither writes nor receives, or ends the session. */
  lemma QuietStepKeepsStream(w: World, next: World)
    requires StreamedInOrder(w)
    requires next.phase == Replaying || next.phase == Live ==>
      && (w.phase == next.phase || (w.phase == Replaying && next.phase == Live))
      && next.received == w.received && next.wire == w.wire && next.remaining == w.remaining
      && next.sent == w.sent && |next.batch + next.sendQueue| == |w.batch + w.sendQueue|
      && next.firstLive == w.firstLive && next.replayAck == w.replayAck && next.replayedDisk == w.replayedDisk
    ensures StreamedInOrder(next)
  {
  }

  lemma StreamKept(w: World, step: Step)
    requires Enabled(w, step) && Spooled(w) && PhasesAgree(w) && QueuedInOrder(w) && StreamedInOrder(w)
    ensures StreamedInOrder(After(w, step))
  {
    match step
    case StartReplay => StreamStarts(w);
    case WriteReplayed => MoveKeepsStream(w, step);
    case WriteLive => LiveWriteKeepsStream(w);
    case Receive => MoveKeepsStream(w, step);
    case TakeBatch =>
      DropFront(w.batch, w.sendQueue, 0);
      QuietStepKeepsStream(w, After(w, step));
    case Send => Regroup(w.batch, w.sendQueue, [w.sent + 1]);
    case _ => QuietStepKeepsStream(w, After(w, step));
  }

  lemma PhasesKept(w: World, step: Step)
    requires Enabled(w, step) && PhasesAgree(w)
    ensures PhasesAgree(After(w, step))
  {
  }

  lemma StepKeepsInv(w: World, step: Step)
    requires Enabled(w, step) && Inv(w)
    ensures Inv(After(w, step))
  {
    PhasesKept(w, step);
    SpooledKept(w, step);
    AcksKept(w, step);
    OnlyAppendedKept(w, step);
    SentKept(w, step);
    ReplayKept(w, step);
    QueueKept(w, step);
    StreamKept(w, step);
  }

  lemma {:induction false} RunKeepsInv(w: World, run: seq<Step>)
    requires Inv(w) && Legal(w, run)
    ensures Inv(AfterRun(w, run))
    ensures AfterRun(w, run).durableAck >= w.durableAck
    ensures w.core <= AfterRun(w, run).core
    decreases |run|
  {
    if run != [] {
      StepKeepsInv(w, run[0]);
      AcksKept(w, run[0]);
      RunKeepsInv(After(w, run[0]), run[1..]);
    }
  }

  lemma StartHolds()
    ensures Inv(START)
  {
  }

  // ---------------------------------------------------------------------------
  // What every run guarantees
  // ---------------------------------------------------------------------------

  /**
    Whatever happens and in whatever order: the spool holds every appended record in order, and
    neither acknowledgement ever claims a record that Core has not received.
   */
  lemma NothingIsLostOrOverclaimed(run: seq<Step>)
    requires Legal(START, run)
    ensures var w := AfterRun(START, run);
            && w.disk + (w.writing + w.queue) == Numbers(1, w.appended)
            && Holds(w.core, w.durableAck) && Holds(w.core, w.lastAcked)
            && (forall s :: s in w.core ==> 1 <= s <= w.appended)
  {
    StartHolds();
    RunKeepsInv(START, run);
  }

  /** The acknowledgement that survives a restart never goes back. */
  lemma DurableAckNeverDecreases(before: seq<Step>, after: seq<Step>)
    requires Legal(START, before) && Legal(AfterRun(START, before), after)
    ensures AfterRun(START, before).durableAck <= AfterRun(AfterRun(START, before), after).durableAck
  {
    StartHolds();
    RunKeepsInv(START, before);
    RunKeepsInv(AfterRun(START, before), after);
  }

  /**
    What a session streams, at every moment of it: the records on disk when its replay began that were
    not acknowledged then, and after them every record handed to the client that no earlier session
    took from the send queue; each once, in order, and nothing else.
   */
  lemma SessionStreamsInOrder(run: seq<Step>)
    requires Legal(START, run)
    ensures var w := AfterRun(START, run);
            var owed := if w.replayAck < w.replayedDisk then w.replayedDisk - w.replayAck else 0;
            var waiting := w.batch + w.sendQueue;
            && (w.phase == Replaying ==> w.received + (w.wire + w.remaining) == Numbers(w.replayAck + 1, owed))
            && (w.phase == Replaying || w.phase == Live ==>
                  0 <= w.firstLive <= w.sent - |waiting|
                  && w.received + (w.wire + w.remaining) ==
                     Numbers(w.replayAck + 1, owed) + Numbers(w.firstLive + 1, w.sent - |waiting| - w.firstLive))
            && |waiting| <= w.sent && waiting == Numbers(w.sent - |waiting| + 1, |waiting|)
  {
    StartHolds();
    RunKeepsInv(START, run);
    var w := AfterRun(START, run);
    if w.phase == Replaying {
      assert Numbers(w.firstLive + 1, 0) == [];
    }
  }

  /**
    A session that has finished its replay, once received, leaves Core every record then on disk, and
    sent it none of those acknowledged before.
   */
  lemma FinishedReplayLeavesNoGap(run: seq<Step>)
    requires Legal(START, run)
    requires AfterRun(START, run).phase == Live && AfterRun(START, run).wire == []
    ensures var w := AfterRun(START, run);
            && Holds(w.core, w.replayedDisk)
            && Numbers(w.replayAck + 1, if w.replayAck < w.replayedDisk then w.replayedDisk - w.replayAck else 0)
               <= w.received
  {
    StartHolds();
    RunKeepsInv(START, run);
    var w := AfterRun(START, run);
    assert w.received == w.received + ([] + w.remaining);
  }

  /** The replay begins from the acknowledgement the client then holds, and over the disk as it then is. */
  lemma ReplayBeginsFromAck(w: World)
    requires Inv(w) && Enabled(w, StartReplay)
    ensures var next := After(w, StartReplay);
            && next.replayAck == w.lastAcked && next.replayedDisk == |w.disk| && next.received + next.wire == []
            && (forall s :: s in next.remaining <==> w.lastAcked < s <= |w.disk|)
  {
    StreamKept(w, StartReplay);
    var next := After(w, StartReplay);
    assert next.remaining == next.received + (next.wire + next.remaining);
    assert next.remaining == Unacked(w.lastAcked, |w.disk|) + Numbers(next.firstLive + 1, 0);
    forall s: nat | w.lastAcked < s <= |w.disk|
      ensures s in next.remaining
    {
      assert Unacked(w.lastAcked, |w.disk|)[s - w.lastAcked - 1] == s;
    }
  }

  lemma {:induction false} UnackedStreamsWait(w: World, run: seq<Step>)
    requires Legal(w, run) && !w.helloAcked && w.phase != Replaying && w.phase != Live
    requires forall i :: 0 <= i < |run| ==> !run[i].ReadAck?
    ensures AfterRun(w, run).phase != Replaying && AfterRun(w, run).phase != Live
    decreases |run|
  {
    if run != [] {
      assert !run[0].ReadAck?;
      UnackedStreamsWait(After(w, run[0]), run[1..]);
    }
  }

  /** However a stream began, nothing is replayed or sent live on it before its first ack was read. */
  lemma ReplayAwaitsAck(w: World, run: seq<Step>)
    requires Enabled(w, Connect) && Legal(After(w, Connect), run)
    requires forall i :: 0 <= i < |run| ==> !run[i].ReadAck?
    ensures AfterRun(After(w, Connect), run).phase != Replaying && AfterRun(After(w, Connect), run).phase != Live
  {
    UnackedStreamsWait(After(w, Connect), run);
  }

  /** The first acknowledgement of a stream counts as it is, each later one if it is greater. */
  lemma AckTakesEffect(w: World, stored: bool)
    requires Enabled(w, ReadAck(stored))
    ensures var next, sequence := After(w, ReadAck(stored)), w.acks[0];
            && next.lastAcked == (if w.helloAcked && sequence < w.lastAcked then w.lastAcked else sequence)
            && next.helloAcked && next.acks == w.acks[1..]
            && (stored && (!w.helloAcked || sequence > w.lastAcked) ==> next.durableAck >= sequence)
            && w.durableAck <= next.durableAck && (next.durableAck == w.durableAck || next.durableAck == sequence)
  {
  }

  /** As long as the acknowledgement file can be written, it never lags behind the client. */
  lemma {:induction false} StoredAcksKeepUp(w: World, run: seq<Step>)
    requires Legal(w, run) && w.lastAcked <= w.durableAck
    requires forall i :: 0 <= i < |run| ==> run[i] != ReadAck(false)
    ensures AfterRun(w, run).lastAcked <= AfterRun(w, run).durableAck
    decreases |run|
  {
    if run != [] {
      assert run[0] != ReadAck(false);
      StoredAcksKeepUp(After(w, run[0]), run[1..]);
    }
  }

  ghost predicate Drained(w: World) {
    && w.phase == Live && w.sent == w.appended
    && w.sendQueue == [] && w.batch == [] && w.wire == []
  }

  /**
    When a session has nothing left to send, Core holds all records exactly if each one that an
    earlier session dropped was either received after all or on disk when this session's replay began.
   */
  lemma DrainedSessionIsComplete(run: seq<Step>)
    requires Legal(START, run) && Drained(AfterRun(START, run))
    ensures var w := AfterRun(START, run);
            Holds(w.core, w.appended) <==>
            forall s :: s in w.lost && w.replayedDisk < s <= w.appended ==> s in w.core
  {
    StartHolds();
    RunKeepsInv(START, run);
  }

  ghost predicate Reachable(w: World) {
    exists run :: Legal(START, run) && AfterRun(START, run) == w
  }

  lemma {:induction false} RunExtends(w: World, run: seq<Step>, step: Step)
    requires Legal(w, run) && Enabled(AfterRun(w, run), step)
    ensures Legal(w, run + [step]) && AfterRun(w, run + [step]) == After(AfterRun(w, run), step)
    decreases |run|
  {
    if run == [] {
      assert Legal(After(w, step), [step][1..]);
      assert run + [step] == [step];
    } else {
      assert (run + [step])[1..] == run[1..] + [step];
      RunExtends(After(w, run[0]), run[1..], step);
    }
  }

  lemma ReachableStep(w: World, step: Step)
    requires Reachable(w) && Enabled(w, step)
    ensures Reachable(After(w, step))
  {
    var run :| Legal(START, run) && AfterRun(START, run) == w;
    RunExtends(START, run, step);
  }

  lemma StartIsReachable()
    ensures Reachable(START)
  {
    assert Legal(START, []) && AfterRun(START, []) == START;
  }

  /** A first session whose first live write fails before the writer thread has flushed the record. */
  lemma FailedFirstSession()
    ensures Reachable(World(1, 1, [1], [], [], 0, 0, Disconnected, true, [], [], [], [], [], {}, 0, {1}, 0, 0, []))
  {
    StartIsReachable();
    ReachableStep(START, Append);
    ReachableStep(World(1, 0, [1], [], [], 0, 0, Disconnected, false, [], [], [], [], [], {}, 0, {}, 0, 0, []), Send);
    ReachableStep(World(1, 1, [1], [], [], 0, 0, Disconnected, false, [1], [], [], [], [], {}, 0, {}, 0, 0, []),
                  Connect);
    SessionGoesLive(World(1, 1, [1], [], [], 0, 0, AwaitingAck, false, [1], [], [], [], [], {}, 0, {}, 0, 0, []));
    ReachableStep(World(1, 1, [1], [], [], 0, 0, Live, true, [1], [], [], [], [], {}, 0, {}, 0, 0, []), TakeBatch);
    ReachableStep(World(1, 1, [1], [], [], 0, 0, Live, true, [], [1], [], [], [], {}, 0, {}, 0, 0, []), WriteFails);
    ReachableStep(World(1, 1, [1], [], [], 0, 0, Closing, true, [], [], [], [], [], {}, 0, {1}, 0, 0, []), Finish);
  }

  lemma SessionGoesLive(w: World)
    requires Reachable(w) && w.phase == AwaitingAck && !w.helloAcked
    requires w.acks == [] && w.disk == [] && w.lastAcked == 0
    ensures Reachable(w.(phase := Live, helloAcked := true, remaining := [], replayedDisk := 0, replayAck := 0,
                         firstLive := w.sent - |w.sendQueue|))
  {
    ReachableStep(w, Acknowledge(0));
    var w1 := w.(acks := [0]);
    ReachableStep(w1, ReadAck(true));
    var w2 := w.(helloAcked := true);
    ReachableStep(w2, StartReplay);
    ReachableStep(w2.(phase := Replaying, remaining := [], replayedDisk := 0, replayAck := 0,
                      firstLive := w.sent - |w.sendQueue|), FinishReplay);
  }

  /**
    The condition can fail: the client reconnects and replays before the flush, its queue is empty,
    and the session that follows has nothing to send although Core never got the record.
   */
  lemma DroppedRecordCanBeStranded()
    ensures var w := World(1, 1, [1], [], [], 0, 0, Live, true, [], [], [], [], [], {}, 0, {1}, 0, 1, []);
            Reachable(w) && Drained(w) && !Holds(w.core, w.appended)
  {
    FailedFirstSession();
    ReachableStep(World(1, 1, [1], [], [], 0, 0, Disconnected, true, [], [], [], [], [], {}, 0, {1}, 0, 0, []),
                  Connect);
    SessionGoesLive(World(1, 1, [1], [], [], 0, 0, AwaitingAck, false, [], [], [], [], [], {}, 0, {1}, 0, 0, []));
    var core: set<nat> := {};
    assert 1 !in core && !Holds(core, 1);
  }
}
