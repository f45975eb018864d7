/**
  The frame ring: a circular array with one spare slot, a write index that only the producer moves
  and a read index that only the consumer moves.

  The class is the ring used by one thread at a time; the machine below splits each push and pop
  into its loads, its copy and its publishing store, and interleaves them in every possible order.
 */
module RingBuffer {
  import opened Common
  import opened Rational

  /** What lies between the two indices, in reading order. */
  function Unrolled<T>(buffer: seq<T>, read: nat, write: nat): (s: seq<T>)
    requires read < |buffer| && write < |buffer|
    ensures |s| == Distance(|buffer|, read, write)
  {
    if read <= write then buffer[read..write] else buffer[read..] + buffer[..write]
  }

  /** The size the two indices stand for. */
  function Distance(slots: nat, read: nat, write: nat): nat
    requires read < slots && write < slots
  {
    if write >= read then write - read else slots - (read - write)
  }

  function Next(slots: nat, i: nat): nat {
    if i + 1 == slots then 0 else i + 1
  }

  lemma NextIsModular(slots: nat, i: nat)
    requires i < slots
    ensures (i + 1) % slots == Next(slots, i)
  {
  }

  lemma WriteAppends<T>(buffer: seq<T>, read: nat, write: nat, frame: T)
    requires read < |buffer| && write < |buffer| && Next(|buffer|, write) != read
    ensures Unrolled(buffer[write := frame], read, Next(|buffer|, write)) == Unrolled(buffer, read, write) + [frame]
  {
    var after := buffer[write := frame];
    if read <= write {
      assert after[read..write + 1] == buffer[read..write] + [frame];
      if write + 1 == |buffer| {
        assert after[read..] == after[read..write + 1] && after[..0] == [];
      }
    } else {
      assert after[read..] == buffer[read..];
      assert after[..write + 1] == buffer[..write] + [frame];
    }
  }

  lemma ReadDropsFirst<T>(buffer: seq<T>, read: nat, write: nat)
    requires read < |buffer| && write < |buffer| && read != write
    ensures Unrolled(buffer, read, write) == [buffer[read]] + Unrolled(buffer, Next(|buffer|, read), write)
  {
    if read < write {
      assert buffer[read..write] == [buffer[read]] + buffer[read + 1..write];
    } else {
      assert buffer[read..] == [buffer[read]] + buffer[read + 1..];
      if read + 1 == |buffer| {
        assert buffer[read + 1..] == [] && buffer[0..write] == buffer[..write];
        assert [buffer[read]] + [] == [buffer[read]];
      } else {
        Regroup([buffer[read]], buffer[read + 1..], buffer[..write]);
      }
    }
  }

  class Ring<T(0)> {
    const slots: nat
    const buffer: array<T>
    var writeIndex: nat
    var readIndex: nat

    ghost predicate Valid()
      reads this
    {
      slots > 0 && buffer.Length == slots && writeIndex < slots && readIndex < slots
    }

    ghost function Contents(): seq<T>
      requires Valid()
      reads this, buffer
    {
      Unrolled(buffer[..], readIndex, writeIndex)
    }

    constructor (capacity: nat)
      ensures Valid() && fresh(buffer) && slots == capacity + 1 && Contents() == []
    {
      slots := capacity + 1;
      buffer := new T[capacity + 1];
      writeIndex, readIndex := 0, 0;
    }

    method Push(frame: T) returns (ok: bool)
      requires Valid()
      modifies this`writeIndex, buffer
      ensures Valid()
      ensures ok <==> |old(Contents())| < slots - 1
      ensures Contents() == if ok then old(Contents()) + [frame] else old(Contents())
    {
      var currentWrite := writeIndex;
      var nextWrite := (currentWrite + 1) % slots;
      NextIsModular(slots, currentWrite);
      if nextWrite == readIndex {
        return false;
      }
      WriteAppends(buffer[..], readIndex, writeIndex, frame);
      buffer[currentWrite] := frame;
      writeIndex := nextWrite;
      ok := true;
    }

    method Pop() returns (ok: bool, frame: T)
      requires Valid()
      modifies this`readIndex
      ensures Valid()
      ensures ok <==> old(Contents()) != []
      ensures if ok then old(Contents()) == [frame] + Contents() else Contents() == old(Contents())
    {
      var currentRead := readIndex;
      frame := buffer[currentRead];
      if currentRead == writeIndex {
        return false, frame;
      }
      var nextRead := (currentRead + 1) % slots;
      NextIsModular(slots, currentRead);
      ReadDropsFirst(buffer[..], currentRead, writeIndex);
      readIndex := nextRead;
      ok := true;
    }

    method Peek() returns (ok: bool, frame: T)
      requires Valid()
      ensures ok <==> Contents() != []
      ensures ok ==> frame == Contents()[0]
    {
      frame := buffer[readIndex];
      ok := readIndex != writeIndex;
    }

    method Size() returns (n: nat)
      requires Valid()
      ensures n == |Contents()|
    {
      if writeIndex >= readIndex {
        n := writeIndex - readIndex;
      } else {
        n := slots - (readIndex - writeIndex);
      }
    }

    method IsFull() returns (full: bool)
      requires Valid()
      ensures full <==> |Contents()| == slots - 1
    {
      var nextWrite := (writeIndex + 1) % slots;
      NextIsModular(slots, writeIndex);
      full := nextWrite == readIndex;
    }

    method Clear()
      requires Valid()
      modifies this`writeIndex, this`readIndex
      ensures Valid() && Contents() == []
    {
      writeIndex, readIndex := 0, 0;
    }
  }

  // ---------------------------------------------------------------------------
  // Producer and consumer, step by step
  // ---------------------------------------------------------------------------

  datatype Producer<T> =
    | Ready
    | Offering(frame: T, slot: nat, next: nat)   // the write index was loaded
    | Cleared(frame: T, slot: nat, next: nat)    // the read index was loaded and differs
    | Copied(frame: T, slot: nat, next: nat)     // the slot was written

  datatype Consumer<T> =
    | Waiting
    | Asking(slot: nat)               // the read index was loaded
    | Granted(slot: nat)              // the write index was loaded and differs
    | Taken(slot: nat, frame: T)      // the slot was read

  datatype State<T> = State(
    buffer: seq<T>,
    write: nat,
    read: nat,
    producer: Producer<T>,
    consumer: Consumer<T>,
    pushed: seq<T>,     // frames published by the producer
    popped: seq<T>,     // frames released by the consumer
    refused: nat,       // pushes that found the ring full
    starved: nat)       // pops that found it empty

  datatype Step<T> =
    | LoadWrite(frame: T) | CheckSpace | CopyIn | PublishWrite
    | LoadRead | CheckData | CopyOut | PublishRead

  predicate Enabled<T>(s: State<T>, step: Step<T>) {
    match step
    case LoadWrite(_) => s.producer.Ready?
    case CheckSpace => s.producer.Offering?
    case CopyIn => s.producer.Cleared?
    case PublishWrite => s.producer.Copied?
    case LoadRead => s.consumer.Waiting?
    case CheckData => s.consumer.Asking?
    case CopyOut => s.consumer.Granted?
    case PublishRead => s.consumer.Taken?
  }

  ghost predicate Indexed<T>(s: State<T>) {
    && |s.buffer| > 0
    && (!s.producer.Ready? ==> s.producer.slot < |s.buffer|)
    && (!s.consumer.Waiting? ==> s.consumer.slot < |s.buffer|)
  }

  ghost function After<T>(s: State<T>, step: Step<T>): State<T>
    requires Indexed(s) && Enabled(s, step)
  {
    match step
    case LoadWrite(frame) => s.(producer := Offering(frame, s.write, (s.write + 1) % |s.buffer|))
    case CheckSpace =>
      if s.producer.next == s.read then s.(producer := Ready, refused := s.refused + 1)
      else s.(producer := Cleared(s.producer.frame, s.producer.slot, s.producer.next))
    case CopyIn =>
      s.(buffer := s.buffer[s.producer.slot := s.producer.frame],
         producer := Copied(s.producer.frame, s.producer.slot, s.producer.next))
    case PublishWrite => s.(write := s.producer.next, producer := Ready, pushed := s.pushed + [s.producer.frame])
    case LoadRead => s.(consumer := Asking(s.read))
    case CheckData =>
      if s.consumer.slot == s.write then s.(consumer := Waiting, starved := s.starved + 1)
      else s.(consumer := Granted(s.consumer.slot))
    case CopyOut => s.(consumer := Taken(s.consumer.slot, s.buffer[s.consumer.slot]))
    case PublishRead =>
      s.(read := (s.consumer.slot + 1) % |s.buffer|, consumer := Waiting, popped := s.popped + [s.consumer.frame])
  }

  ghost predicate Initial<T>(s: State<T>, capacity: nat) {
    && |s.buffer| == capacity + 1 && s.write == 0 && s.read == 0
    && s.producer == Ready && s.consumer == Waiting && s.pushed == [] && s.popped == []
  }

  /** The indices count pushes and pops round the ring; every frame in between is in its slot. */
  ghost predicate Inv<T>(s: State<T>) {
    var n, w, r := |s.buffer|, |s.pushed|, |s.popped|;
    && n > 0 && s.write == Slot(w, n) && s.read == Slot(r, n) && s.write < n && s.read < n
    && r <= w <= r + n - 1
    && s.popped == s.pushed[..r]
    && (forall i :: r <= i < w ==> Slot(i, n) < n && s.buffer[Slot(i, n)] == s.pushed[i])
    && ProducerAgrees(s) && ConsumerAgrees(s)
  }

  ghost predicate ProducerAgrees<T>(s: State<T>)
    requires |s.buffer| > 0
  {
    var n, w, r := |s.buffer|, |s.pushed|, |s.popped|;
    s.producer.Ready? || (
      && s.producer.slot == s.write < n && s.producer.next == Slot(w + 1, n)
      && (s.producer.Cleared? ==> w < r + n - 1)
      && (s.producer.Copied? ==> w < r + n - 1 && s.buffer[s.write] == s.producer.frame))
  }

  ghost predicate ConsumerAgrees<T>(s: State<T>)
    requires |s.buffer| > 0
  {
    var n, w, r := |s.buffer|, |s.pushed|, |s.popped|;
    s.consumer.Waiting? || (
      && s.consumer.slot == s.read < n
      && (s.consumer.Granted? ==> r < w)
      && (s.consumer.Taken? ==> r < w && s.consumer.frame == s.pushed[r]))
  }

  /** The slot of the i-th frame pushed. */
  function Slot(i: nat, n: nat): nat
    requires n > 0
  {
    i % n
  }

  lemma RemainderIs(a: int, n: nat, q: int, r: nat)
    requires r < n && a == q * n + r
    ensures a % n == r
  {
    QuotientUnique(a, n, q);
  }

  lemma SlotInStep(i: nat, n: nat)
    requires n > 0
    ensures Slot(i, n) < n && Slot(i + 1, n) == Next(n, Slot(i, n))
  {
    var q, r := i / n, i % n;
    assert i == q * n + r;
    if r + 1 < n {
      RemainderIs(i + 1, n, q, r + 1);
    } else {
      assert (q + 1) * n == q * n + n;
      RemainderIs(i + 1, n, q + 1, 0);
    }
  }

  /** Counts less than a full turn apart lie that far apart on the ring. */
  lemma {:induction false} SlotsApart(i: nat, d: nat, n: nat)
    requires d < n
    ensures Slot(i + d, n) == if Slot(i, n) + d < n then Slot(i, n) + d else Slot(i, n) + d - n
  {
    if d > 0 {
      SlotsApart(i, d - 1, n);
      SlotInStep(i + d - 1, n);
    }
    SlotInStep(i, n);
  }

  lemma LoadWriteKeeps<T>(s: State<T>, frame: T)
    requires Inv(s) && s.producer.Ready?
    ensures Inv(After(s, LoadWrite(frame)))
  {
    NextIsModular(|s.buffer|, s.write);
    SlotInStep(|s.pushed|, |s.buffer|);
  }

  /** The slot after the write index is the read index exactly when the ring is full. */
  lemma FullWhenNextIsRead(n: nat, r: nat, w: nat)
    requires n > 0 && r <= w <= r + n - 1
    ensures Slot(w + 1, n) == Slot(r, n) <==> w == r + n - 1
  {
    SlotsApart(r, w - r, n);
    SlotInStep(w, n);
  }

  lemma CheckSpaceKeeps<T>(s: State<T>)
    requires Inv(s) && s.producer.Offering?
    ensures Inv(After(s, CheckSpace))
  {
    FullWhenNextIsRead(|s.buffer|, |s.popped|, |s.pushed|);
  }

  lemma PublishWriteKeeps<T>(s: State<T>)
    requires Inv(s) && s.producer.Copied?
    ensures Inv(After(s, PublishWrite))
  {
    var t := After(s, PublishWrite);
    SlotInStep(|s.pushed|, |s.buffer|);
    assert t.popped == t.pushed[..|t.popped|];
  }

  /** The slot about to be written is none of those that hold frames. */
  lemma WriteSlotIsFree(n: nat, r: nat, w: nat, i: nat)
    requires n > 0 && r <= i < w < r + n - 1
    ensures Slot(i, n) != Slot(w, n)
  {
    SlotsApart(i, w - i, n);
  }

  lemma CopyInKeeps<T>(s: State<T>)
    requires Inv(s) && Indexed(s) && s.producer.Cleared?
    ensures Inv(After(s, CopyIn))
  {
    forall i | |s.popped| <= i < |s.pushed|
      ensures Slot(i, |s.buffer|) != s.producer.slot
    {
      WriteSlotIsFree(|s.buffer|, |s.popped|, |s.pushed|, i);
    }
  }

  /** Read and write index meet exactly when the ring is empty. */
  lemma EmptyWhenEqual(n: nat, r: nat, w: nat)
    requires n > 0 && r <= w <= r + n - 1
    ensures Slot(w, n) == Slot(r, n) <==> w == r
  {
    SlotsApart(r, w - r, n);
  }

  lemma CheckDataKeeps<T>(s: State<T>)
    requires Inv(s) && s.consumer.Asking?
    ensures Inv(After(s, CheckData))
  {
    EmptyWhenEqual(|s.buffer|, |s.popped|, |s.pushed|);
  }

  lemma PublishReadKeeps<T>(s: State<T>)
    requires Inv(s) && s.consumer.Taken?
    ensures Inv(After(s, PublishRead))
  {
    NextIsModular(|s.buffer|, s.read);
    SlotInStep(|s.popped|, |s.buffer|);
  }

  lemma StepKeepsInv<T>(s: State<T>, step: Step<T>)
    requires Inv(s) && Indexed(s) && Enabled(s, step)
    ensures Inv(After(s, step)) && Indexed(After(s, step))
    ensures |After(s, step).buffer| == |s.buffer| && |s.popped| <= |After(s, step).popped|
  {
    match step
    case CopyIn => CopyInKeeps(s);
    case LoadWrite(frame) => LoadWriteKeeps(s, frame);
    case CheckSpace => CheckSpaceKeeps(s);
    case PublishWrite => PublishWriteKeeps(s);
    case CheckData => CheckDataKeeps(s);
    case PublishRead => PublishReadKeeps(s);
    case LoadRead =>
    case CopyOut =>
  }

  ghost predicate Legal<T>(s: State<T>, run: seq<Step<T>>)
    decreases |run|
  {
    run == [] || (Indexed(s) && Enabled(s, run[0]) && Legal(After(s, run[0]), run[1..]))
  }

  ghost function AfterRun<T>(s: State<T>, run: seq<Step<T>>): State<T>
    requires Legal(s, run)
    decreases |run|
  {
    if run == [] then s else AfterRun(After(s, run[0]), run[1..])
  }

  lemma {:induction false} RunKeepsInv<T>(s: State<T>, run: seq<Step<T>>)
    requires Inv(s) && Legal(s, run)
    ensures Inv(AfterRun(s, run)) && |AfterRun(s, run).buffer| == |s.buffer|
    ensures |s.popped| <= |AfterRun(s, run).popped|
    decreases |run|
  {
    if run != [] {
      StepKeepsInv(s, run[0]);
      RunKeepsInv(After(s, run[0]), run[1..]);
    }
  }

  // ---------------------------------------------------------------------------
  // What every interleaving guarantees
  // ---------------------------------------------------------------------------

  /** Frames come out exactly as they went in, and never more than the capacity are inside. */
  lemma FramesComeOutInOrder<T>(s: State<T>, run: seq<Step<T>>, capacity: nat)
    requires Initial(s, capacity) && Legal(s, run)
    ensures var t := AfterRun(s, run);
            t.popped <= t.pushed && |t.pushed| - |t.popped| <= capacity
  {
    RunKeepsInv(s, run);
  }

  /** The slot being written holds no frame that the consumer may read, now or while it is copying. */
  lemma NoSlotIsWrittenWhileReadable<T>(s: State<T>, run: seq<Step<T>>, capacity: nat)
    requires Initial(s, capacity) && Legal(s, run)
    ensures var t := AfterRun(s, run);
            var n := |t.buffer|;
            n == capacity + 1 && (t.producer.Cleared? || t.producer.Copied? ==>
              && (forall i :: |t.popped| <= i < |t.pushed| ==> Slot(i, n) != t.producer.slot)
              && (t.consumer.Granted? || t.consumer.Taken? ==> t.consumer.slot != t.producer.slot))
  {
    RunKeepsInv(s, run);
    var t := AfterRun(s, run);
    if t.producer.Cleared? || t.producer.Copied? {
      forall i | |t.popped| <= i < |t.pushed|
        ensures Slot(i, |t.buffer|) != t.producer.slot
      {
        WriteSlotIsFree(|t.buffer|, |t.popped|, |t.pushed|, i);
      }
    }
  }

  /**
    The producer's check lets its push through exactly when a slot is free at that moment, and counts a
    refusal otherwise; the consumer's check lets its pop through exactly when a frame is inside.
   */
  lemma RefusalsAreTrue<T>(s: State<T>, run: seq<Step<T>>, capacity: nat)
    requires Initial(s, capacity) && Legal(s, run)
    ensures Indexed(AfterRun(s, run))
    ensures var t := AfterRun(s, run);
            t.producer.Offering? ==>
              var u := After(t, CheckSpace);
              if |t.pushed| - |t.popped| < capacity
              then u == t.(producer := Cleared(t.producer.frame, t.producer.slot, t.producer.next))
              else |t.pushed| - |t.popped| == capacity && u == t.(producer := Ready, refused := t.refused + 1)
    ensures var t := AfterRun(s, run);
            t.consumer.Asking? ==>
              var u := After(t, CheckData);
              if t.popped != t.pushed
              then u == t.(consumer := Granted(t.consumer.slot))
              else u == t.(consumer := Waiting, starved := t.starved + 1)
  {
    RunKeepsInv(s, run);
    var t := AfterRun(s, run);
    var n, w, r := capacity + 1, |t.pushed|, |t.popped|;
    assert t.pushed == t.popped <==> w == r;
    FullWhenNextIsRead(n, r, w);
    EmptyWhenEqual(n, r, w);
  }

  lemma InvIsIndexed<T>(s: State<T>)
    requires Inv(s)
    ensures Indexed(s)
  {
    SlotInStep(|s.pushed|, |s.buffer|);
  }

  /** A push that nothing interleaves with: what it leaves behind. */
  lemma UndisturbedPush<T>(t: State<T>, frame: T)
    requires Inv(t) && t.producer.Ready?
    ensures var free := |t.pushed| - |t.popped| < |t.buffer| - 1;
            var push := if free then [LoadWrite(frame), CheckSpace, CopyIn, PublishWrite]
                        else [LoadWrite(frame), CheckSpace];
            && Legal(t, push)
            && var u := AfterRun(t, push);
               u.pushed == t.pushed + (if free then [frame] else []) && u.refused == t.refused + (if free then 0 else 1)
               && u.popped == t.popped && u.producer.Ready? && u.consumer == t.consumer && u.read == t.read
  {
    var n := |t.buffer|;
    InvIsIndexed(t);
    FullWhenNextIsRead(n, |t.popped|, |t.pushed|);
    NextIsModular(n, t.write);
    SlotInStep(|t.pushed|, n);
    var t1 := After(t, LoadWrite(frame));
    StepKeepsInv(t, LoadWrite(frame));
    var t2 := After(t1, CheckSpace);
    StepKeepsInv(t1, CheckSpace);
    if |t.pushed| - |t.popped| < n - 1 {
      var t3 := After(t2, CopyIn);
      StepKeepsInv(t2, CopyIn);
      LastStep(t3, PublishWrite);
      LegalStep(t2, CopyIn, [PublishWrite]);
      LegalStep(t1, CheckSpace, [CopyIn, PublishWrite]);
      LegalStep(t, LoadWrite(frame), [CheckSpace, CopyIn, PublishWrite]);
    } else {
      LastStep(t1, CheckSpace);
      LegalStep(t, LoadWrite(frame), [CheckSpace]);
    }
  }

  lemma LegalStep<T>(s: State<T>, step: Step<T>, rest: seq<Step<T>>)
    requires Indexed(s) && Enabled(s, step) && Legal(After(s, step), rest)
    ensures Legal(s, [step] + rest) && AfterRun(s, [step] + rest) == AfterRun(After(s, step), rest)
  {
    assert ([step] + rest)[1..] == rest;
  }

  lemma LastStep<T>(s: State<T>, step: Step<T>)
    requires Indexed(s) && Enabled(s, step)
    ensures Legal(s, [step]) && AfterRun(s, [step]) == After(s, step)
  {
    assert [step][1..] == [];
    assert Legal(After(s, step), []);
  }

  /** A pop that nothing interleaves with releases the oldest frame inside, or finds none. */
  lemma UndisturbedPop<T>(t: State<T>)
    requires Inv(t) && t.consumer.Waiting?
    ensures var some := |t.popped| < |t.pushed|;
            var pop := if some then [LoadRead, CheckData, CopyOut, PublishRead] else [LoadRead, CheckData];
            && Legal(t, pop)
            && var u := AfterRun(t, pop);
               u.popped == t.popped + (if some then [t.pushed[|t.popped|]] else [])
               && u.starved == t.starved + (if some then 0 else 1)
               && u.pushed == t.pushed && u.consumer.Waiting? && u.producer == t.producer && u.write == t.write
  {
    var n := |t.buffer|;
    InvIsIndexed(t);
    EmptyWhenEqual(n, |t.popped|, |t.pushed|);
    var t1 := After(t, LoadRead);
    StepKeepsInv(t, LoadRead);
    var t2 := After(t1, CheckData);
    StepKeepsInv(t1, CheckData);
    if |t.popped| < |t.pushed| {
      var t3 := After(t2, CopyOut);
      StepKeepsInv(t2, CopyOut);
      LastStep(t3, PublishRead);
      LegalStep(t2, CopyOut, [PublishRead]);
      LegalStep(t1, CheckData, [CopyOut, PublishRead]);
      LegalStep(t, LoadRead, [CheckData, CopyOut, PublishRead]);
    } else {
      LastStep(t1, CheckData);
      LegalStep(t, LoadRead, [CheckData]);
    }
  }

  /** From every reachable state between two pushes: a push run alone appends its frame exactly when not full. */
  lemma PushAloneAppendsExactly<T>(s: State<T>, run: seq<Step<T>>, capacity: nat, frame: T)
    requires Initial(s, capacity) && Legal(s, run) && AfterRun(s, run).producer.Ready?
    ensures var t := AfterRun(s, run);
            var full := |t.pushed| - |t.popped| == capacity;
            var push := if full then [LoadWrite(frame), CheckSpace]
                        else [LoadWrite(frame), CheckSpace, CopyIn, PublishWrite];
            Legal(t, push) && AfterRun(t, push).pushed == t.pushed + (if full then [] else [frame])
            && AfterRun(t, push).refused == t.refused + (if full then 1 else 0)
  {
    RunKeepsInv(s, run);
    UndisturbedPush(AfterRun(s, run), frame);
  }

  /** And a pop run alone takes the oldest frame exactly when one is inside. */
  lemma PopAloneTakesExactly<T>(s: State<T>, run: seq<Step<T>>, capacity: nat)
    requires Initial(s, capacity) && Legal(s, run) && AfterRun(s, run).consumer.Waiting?
    ensures var t := AfterRun(s, run);
            |t.popped| <= |t.pushed| &&
            var rest := t.pushed[|t.popped|..];
            var pop := if rest == [] then [LoadRead, CheckData] else [LoadRead, CheckData, CopyOut, PublishRead];
            Legal(t, pop) && AfterRun(t, pop).popped == t.popped + rest[..if rest == [] then 0 else 1]
            && AfterRun(t, pop).starved == t.starved + (if rest == [] then 1 else 0)
  {
    RunKeepsInv(s, run);
    UndisturbedPop(AfterRun(s, run));
  }

  /** At any moment the two indices together tell the exact number of frames inside. */
  lemma IndicesTellTheSize<T>(s: State<T>, run: seq<Step<T>>, capacity: nat)
    requires Initial(s, capacity) && Legal(s, run)
    ensures var t := AfterRun(s, run);
            && t.read < |t.buffer| && t.write < |t.buffer|
            && Distance(|t.buffer|, t.read, t.write) == |t.pushed| - |t.popped|
  {
    RunKeepsInv(s, run);
    var t := AfterRun(s, run);
    DistanceOfCounts(|t.buffer|, |t.popped|, |t.pushed|);
  }

  /**
    Size loads the write index and then the read index. With steps in between it tells, around the
    ring, the frames published at the first load less those released at the second: the true
    difference if and only if the consumer has not gone past the first load by then.
   */
  lemma SizeAcrossTwoLoads<T>(s: State<T>, before: seq<Step<T>>, between: seq<Step<T>>, capacity: nat)
    requires Initial(s, capacity) && Legal(s, before) && Legal(AfterRun(s, before), between)
    ensures var t, u := AfterRun(s, before), AfterRun(AfterRun(s, before), between);
            && t.write < |s.buffer| && u.read < |s.buffer|
            && Distance(|s.buffer|, u.read, t.write) == (|t.pushed| - |u.popped|) % (capacity + 1)
            && (Distance(|s.buffer|, u.read, t.write) == |t.pushed| - |u.popped| <==> |u.popped| <= |t.pushed|)
  {
    RunKeepsInv(s, before);
    var t := AfterRun(s, before);
    RunKeepsInv(t, between);
    var u := AfterRun(t, between);
    var n, r, w := capacity + 1, |u.popped|, |t.pushed|;
    DistanceIsMod(n, r, w);
    if r <= w {
      DistanceOfCounts(n, r, w);
    }
  }

  lemma DistanceIsMod(n: nat, r: nat, w: nat)
    requires n > 0
    ensures Slot(r, n) < n && Slot(w, n) < n && Distance(n, Slot(r, n), Slot(w, n)) == (w - r) % n
  {
    SlotInStep(r, n);
    SlotInStep(w, n);
    var d := Distance(n, Slot(r, n), Slot(w, n));
    var q := w / n - r / n - if w % n >= r % n then 0 else 1;
    assert w - r == q * n + d;
    RemainderIs(w - r, n, q, d);
  }

  lemma DistanceOfCounts(n: nat, r: nat, w: nat)
    requires n > 0 && r <= w < r + n
    ensures Slot(r, n) < n && Slot(w, n) < n
    ensures Distance(n, Slot(r, n), Slot(w, n)) == w - r
  {
    SlotInStep(r, n);
    SlotInStep(w, n);
    SlotsApart(r, w - r, n);
  }
}
