/**
  The durable spool of one playout session: bounded append, a writer thread that flushes batches,
  replay after a restart, and a cumulative acknowledgement that frees spool bytes.

  The spool is stated for any way to print a record on a line and read it back.
 */
module EvidenceSpool {
  import opened Common
  import opened JsonText
  import opened EvidenceCodec
  import opened LineFile

  function AboveAck(acked: Uint64): Record -> bool {
    (m: Record) => m.sequence > acked
  }

  // ---------------------------------------------------------------------------
  // The acknowledgement file
  // ---------------------------------------------------------------------------

  const ACK_KEY := "acked_sequence="

  function AckText(sequence: Uint64, utc: string): string {
    (ACK_KEY + Decimal(sequence)) + "\n" + ("updated_utc=" + utc + "\n")
  }

  /** No file, an empty one or one that does not parse counts as nothing acknowledged. */
  function LastAck(file: Option<string>): Uint64 {
    match file
    case None => 0
    case Some(t) =>
      var line := LineOf(t);
      if !(ACK_KEY <= line) then 0
      else
        match Stoull(line[|ACK_KEY|..])
        case None => 0
        case Some(v) => v
  }

  lemma AckDigits(d: string)
    requires d != "" && AllDigits(d) && DecimalValue(d) <= MAX_UINT64
    ensures Stoull((ACK_KEY + d)[|ACK_KEY|..]) == Some(DecimalValue(d))
  {
    assert (ACK_KEY + d)[|ACK_KEY|..] == d + "";
    StoullOfDigits(d, "");
  }

  lemma AckReadsBack(sequence: Uint64, utc: string)
    ensures LastAck(Some(AckText(sequence, utc))) == sequence
  {
    var d := Decimal(sequence);
    LineOfBroken(ACK_KEY + d, "updated_utc=" + utc + "\n");
    DecimalRoundTrip(sequence);
    AckDigits(d);
  }

  /** An acknowledgement file cut at any byte never claims more than was acknowledged. */
  lemma TornAckNeverClaimsMore(sequence: Uint64, utc: string, k: nat)
    requires k <= |AckText(sequence, utc)|
    ensures LastAck(Some(AckText(sequence, utc)[..k])) <= sequence
  {
    var d := Decimal(sequence);
    var line, more := ACK_KEY + d, "updated_utc=" + utc + "\n";
    var torn := AckText(sequence, utc)[..k];
    DecimalRoundTrip(sequence);
    if k > |line| {
      assert torn == line + "\n" + more[..k - |line| - 1];
      LineOfBroken(line, more[..k - |line| - 1]);
      AckDigits(d);
    } else {
      assert torn == line[..k];
      assert '\n' !in line;
      LineOfUnbroken(torn);
      if k > |ACK_KEY| {
        var n := k - |ACK_KEY|;
        assert torn == ACK_KEY + d[..n];
        DecimalPrefixIsSmaller(d, n);
        AckDigits(d[..n]);
      } else if k == |ACK_KEY| {
        assert torn[|ACK_KEY|..] == "";
      }
    }
  }

  // ---------------------------------------------------------------------------
  // Sequence numbers and sizes
  // ---------------------------------------------------------------------------

  function NextSequence(n: Uint64): Uint64 {
    if n == MAX_UINT64 then 0 else n + 1
  }

  /** Each record follows the one before; nothing is asked of a record after one numbered zero. */
  predicate Consecutive(ms: seq<Record>) {
    |ms| > 1 ==>
      var last, before := ms[|ms| - 1].sequence, ms[|ms| - 2].sequence;
      (before != 0 ==> last == NextSequence(before)) && Consecutive(ms[..|ms| - 1])
  }

  predicate NumberedFromOne(ms: seq<Record>) {
    forall i :: 0 <= i < |ms| ==> ms[i].sequence == i + 1
  }

  lemma ConsecutiveSnoc(ms: seq<Record>, m: Record)
    requires Consecutive(ms)
    requires ms != [] && ms[|ms| - 1].sequence != 0 ==> m.sequence == NextSequence(ms[|ms| - 1].sequence)
    ensures Consecutive(ms + [m])
  {
    assert (ms + [m])[..|ms|] == ms;
  }

  lemma {:induction false} ConsecutiveFromOne(ms: seq<Record>)
    requires Consecutive(ms) && |ms| <= MAX_UINT64 && (ms != [] ==> ms[0].sequence == 1)
    ensures NumberedFromOne(ms)
  {
    if |ms| > 1 {
      var most := ms[..|ms| - 1];
      ConsecutiveFromOne(most);
      assert most[|ms| - 2].sequence == |ms| - 1;
    }
  }

  lemma {:induction false} FilterNumbered(ms: seq<Record>, base: nat, acked: Uint64)
    requires forall i :: 0 <= i < |ms| ==> ms[i].sequence == base + i + 1
    ensures Filter(ms, AboveAck(acked)) ==
            if acked <= base then ms else if acked - base <= |ms| then ms[acked - base..] else []
  {
    if ms != [] {
      assert ms[0].sequence == base + 1;
      FilterNumbered(ms[1..], base + 1, acked);
    }
  }

  /** In a session numbered from one, the records past the ack cursor are those with a greater sequence. */
  lemma PastCursorIsAboveAck(ms: seq<Record>, cursor: Uint64)
    requires Consecutive(ms) && |ms| <= MAX_UINT64 && (ms != [] ==> ms[0].sequence == 1) && cursor <= |ms|
    ensures Filter(ms, AboveAck(cursor)) == ms[cursor..]
  {
    ConsecutiveFromOne(ms);
    FilterNumbered(ms, 0, cursor);
  }

  // ---------------------------------------------------------------------------
  // The spool
  // ---------------------------------------------------------------------------

  lemma QueueSnoc(written: seq<Record>, batch: seq<Record>, queue: seq<Record>, m: Record)
    ensures (written + (batch + queue)) + [m] == written + (batch + (queue + [m]))
  {
  }

  lemma TextAfterBatch(existing: string, written: seq<Record>, batch: seq<Record>, queue: seq<Record>,
                       show: Record -> string)
    ensures existing + FileText(written + batch, show) == (existing + FileText(written, show)) + FileText(batch, show)
    ensures written + (batch + queue) == (written + batch) + ([] + queue)
  {
    FileTextAppend(written, batch, show);
    Regroup(existing, FileText(written, show), FileText(batch, show));
    assert [] + queue == queue;
    Regroup(written, batch, queue);
  }

  datatype AppendStatus = Appended | SpoolFull | SequenceGap

  class Spool {
    const show: Record -> string
    const read: string -> Option<Record>
    const maxSpoolBytes: nat
    var estimatedSpoolBytes: nat
    var ackedByteOffset: nat
    var recordByteSizes: seq<nat>
    var ackCursor: nat
    var lastAppended: Uint64
    var writeQueue: seq<Record>
    var batch: seq<Record>
    var disk: string
    var ackFile: Option<string>

    ghost const existing: string
    ghost var appended: seq<Record>
    ghost var written: seq<Record>

    ghost function Text(ms: seq<Record>): string {
      FileText(ms, show)
    }

    /** The bytes of the file found at the start, and of every record past the ack cursor. */
    ghost function Pending(): nat
      requires ackCursor <= |recordByteSizes|
      reads this`ackCursor, this`recordByteSizes
    {
      |existing| + Sum(recordByteSizes[ackCursor..])
    }

    /** Sizes, offsets and the cap. */
    ghost predicate Accounted()
      reads this`ackCursor, this`recordByteSizes, this`estimatedSpoolBytes, this`ackedByteOffset
    {
      && ackCursor <= |recordByteSizes|
      && estimatedSpoolBytes == |existing| + Sum(recordByteSizes)
      && ackedByteOffset == Sum(recordByteSizes[..ackCursor])
      && (0 < maxSpoolBytes && |existing| <= maxSpoolBytes ==> Pending() <= maxSpoolBytes)
    }

    ghost predicate Measured()
      reads this`recordByteSizes, this`appended
    {
      recordByteSizes == Sizes(appended, show)
    }

    /** Every record appended is on disk, with the writer thread or queued, in order. */
    ghost predicate Conserved()
      reads this`appended, this`written, this`batch, this`writeQueue, this`disk
    {
      && appended == written + (batch + writeQueue)
      && disk == existing + Text(written)
    }

    ghost predicate Numbered()
      reads this`lastAppended, this`appended
    {
      && lastAppended == (if appended == [] then 0 else appended[|appended| - 1].sequence)
      && Consecutive(appended)
    }

    ghost predicate Valid()
      reads this
    {
      Accounted() && Measured() && Conserved() && Numbered()
    }

    /** A session over whatever spool and acknowledgement files are there. */
    constructor (show: Record -> string, read: string -> Option<Record>,
                 maxSpoolBytes: nat, disk: string, ackFile: Option<string>)
      ensures Valid() && this.show == show && this.read == read
      ensures this.maxSpoolBytes == maxSpoolBytes && existing == disk
      ensures appended == [] && written == [] && writeQueue == [] && batch == []
      ensures this.disk == disk && this.ackFile == ackFile
    {
      this.show, this.read := show, read;
      this.maxSpoolBytes := maxSpoolBytes;
      this.disk, this.ackFile, existing := disk, ackFile, disk;
      estimatedSpoolBytes, ackedByteOffset := |disk|, 0;
      recordByteSizes, ackCursor, lastAppended := [], 0, 0;
      writeQueue, batch, appended, written := [], [], [], [];
    }

    lemma PendingIsTextPastCursor()
      requires Valid()
      ensures Pending() == |existing| + |Text(appended[ackCursor..])|
    {
      SizesAddUp(appended[ackCursor..], show);
      assert Sizes(appended, show)[ackCursor..] == Sizes(appended[ackCursor..], show);
    }

    method PendingBytes() returns (pending: nat)
      requires Valid()
      ensures pending == Pending() == |existing| + |Text(appended[ackCursor..])|
      ensures 0 < maxSpoolBytes && |existing| <= maxSpoolBytes ==> pending <= maxSpoolBytes
    {
      SumSplits(recordByteSizes, ackCursor);
      PendingIsTextPastCursor();
      pending := estimatedSpoolBytes - ackedByteOffset;
    }

    method Append(msg: Record) returns (status: AppendStatus)
      requires Valid()
      modifies this
      ensures Valid()
      ensures status == SequenceGap <==>
              old(lastAppended) != 0 && msg.sequence != NextSequence(old(lastAppended))
      ensures status == SpoolFull <==>
              && !(old(lastAppended) != 0 && msg.sequence != NextSequence(old(lastAppended)))
              && 0 < maxSpoolBytes
              && old(Pending()) + |show(msg)| + 1 > maxSpoolBytes
      ensures appended == if status == Appended then old(appended) + [msg] else old(appended)
      ensures writeQueue == if status == Appended then old(writeQueue) + [msg] else old(writeQueue)
      ensures batch == old(batch) && disk == old(disk) && written == old(written)
      ensures ackFile == old(ackFile) && ackCursor == old(ackCursor)
      ensures Pending() == old(Pending()) + if status == Appended then |show(msg)| + 1 else 0
    {
      if lastAppended != 0 && msg.sequence != NextSequence(lastAppended) {
        return SequenceGap;
      }
      var line := show(msg);
      var recordBytes := |line| + 1;
      SumSplits(recordByteSizes, ackCursor);
      if maxSpoolBytes > 0 {
        var pending := estimatedSpoolBytes - ackedByteOffset;
        if pending + recordBytes > maxSpoolBytes {
          return SpoolFull;
        }
      }
      Enqueue(msg, recordBytes);
      status := Appended;
    }

    method Enqueue(msg: Record, recordBytes: nat)
      requires Valid() && recordBytes == |show(msg)| + 1
      requires lastAppended != 0 ==> msg.sequence == NextSequence(lastAppended)
      requires 0 < maxSpoolBytes ==> Pending() + recordBytes <= maxSpoolBytes
      modifies this`estimatedSpoolBytes, this`recordByteSizes, this`lastAppended, this`writeQueue, this`appended
      ensures Valid() && Pending() == old(Pending()) + recordBytes
      ensures appended == old(appended) + [msg] && writeQueue == old(writeQueue) + [msg]
    {
      SizesSnoc(appended, msg, show);
      CountBytes(recordBytes);
      Link(msg);
      assert Accounted();
      assert Measured();
    }

    method Link(msg: Record)
      requires Conserved() && Numbered()
      requires lastAppended != 0 ==> msg.sequence == NextSequence(lastAppended)
      modifies this`lastAppended, this`writeQueue, this`appended
      ensures Conserved() && Numbered()
      ensures appended == old(appended) + [msg] && writeQueue == old(writeQueue) + [msg]
    {
      QueueSnoc(written, batch, writeQueue, msg);
      ConsecutiveSnoc(appended, msg);
      lastAppended := msg.sequence;
      writeQueue := writeQueue + [msg];
      appended := appended + [msg];
    }

    method CountBytes(recordBytes: nat)
      requires Accounted()
      requires 0 < maxSpoolBytes ==> Pending() + recordBytes <= maxSpoolBytes
      modifies this`estimatedSpoolBytes, this`recordByteSizes
      ensures Accounted() && Pending() == old(Pending()) + recordBytes
      ensures recordByteSizes == old(recordByteSizes) + [recordBytes]
    {
      SumSnoc(recordByteSizes, recordBytes);
      SumSnoc(recordByteSizes[ackCursor..], recordBytes);
      assert (recordByteSizes + [recordBytes])[ackCursor..] == recordByteSizes[ackCursor..] + [recordBytes];
      assert (recordByteSizes + [recordBytes])[..ackCursor] == recordByteSizes[..ackCursor];
      estimatedSpoolBytes := estimatedSpoolBytes + recordBytes;
      recordByteSizes := recordByteSizes + [recordBytes];
    }

    /** The writer thread swaps the queue for an empty one. */
    method TakeBatch()
      requires Valid() && batch == []
      modifies this`writeQueue, this`batch
      ensures Valid() && batch == old(writeQueue) && writeQueue == []
    {
      assert [] + writeQueue == writeQueue + [];
      batch, writeQueue := writeQueue, [];
    }

    /** The writer thread appends its batch to the file, record by record. */
    method WriteBatch()
      requires Valid()
      modifies this`batch, this`disk, this`written
      ensures Valid() && batch == []
      ensures written == old(written) + old(batch)
      ensures disk == old(disk) + Text(old(batch))
    {
      TextAfterBatch(existing, written, batch, writeQueue, show);
      AppendToFile();
      written := written + batch;
      batch := [];
    }

    method AppendToFile()
      modifies this`disk
      ensures disk == old(disk) + Text(batch)
    {
      var i := 0;
      assert batch[..0] == [];
      while i < |batch|
        invariant i <= |batch| && disk == old(disk) + Text(batch[..i])
      {
        var line := show(batch[i]);
        FileTextSnoc(batch[..i], batch[i], show);
        Regroup(old(disk), Text(batch[..i]), line + "\n");
        assert batch[..i] + [batch[i]] == batch[..i + 1];
        disk := disk + (line + "\n");
        i := i + 1;
      }
      assert batch[..i] == batch;
    }

    method ReplayFrom(acked: Uint64) returns (result: seq<Record>)
      requires Valid()
      ensures result == Replay(disk, read, AboveAck(acked))
      ensures existing == "" && Holds(Lines(written, show), written, read) ==> result == Filter(written, AboveAck(acked))
    {
      result := [];
      var pos := 0;
      ghost var keep := AboveAck(acked);
      assert disk[0..] == disk;
      while pos < |disk|
        invariant pos <= |disk|
        invariant Replay(disk, read, keep) == result + Replay(disk[pos..], read, keep)
      {
        var line, next := GetLine(disk, pos);
        var m := read(line);
        ghost var before := result;
        if m.Some? && m.value.sequence > acked {
          result := result + [m.value];
        }
        assert result == before + Kept(m, keep);
        Regroup(before, Kept(m, keep), Replay(disk[next..], read, keep));
        pos := next;
      }
      assert disk[pos..] == "";
      if existing == "" && Holds(Lines(written, show), written, read) {
        FileTextIsLines(written, show);
        WholeFileReplays(Lines(written, show), written, read, keep);
      }
    }

    method GetLastAck() returns (acked: Uint64)
      ensures acked == LastAck(ackFile)
    {
      acked := LastAck(ackFile);
    }

    /** stored says whether the new acknowledgement file could be put in place. */
    method UpdateAck(sequence: Uint64, utc: string, stored: bool)
      requires Valid()
      modifies this`ackedByteOffset, this`ackCursor, this`ackFile
      ensures Valid()
      ensures LastAck(ackFile) == if old(LastAck(ackFile)) < sequence && stored then sequence else old(LastAck(ackFile))
      ensures old(ackCursor) <= ackCursor
      ensures ackCursor > old(ackCursor) ==> old(LastAck(ackFile)) < sequence && ackCursor <= sequence
      ensures old(LastAck(ackFile)) < sequence ==> ackCursor == |appended| || sequence <= ackCursor
      ensures old(Pending()) == Pending() + Sum(recordByteSizes[old(ackCursor)..ackCursor])
    {
      assert recordByteSizes[ackCursor..ackCursor] == [];
      var current := GetLastAck();
      if sequence <= current {
        return;
      }
      AdvanceCursor(sequence);
      if stored {
        StoreAck(sequence, utc);
      }
    }

    method StoreAck(sequence: Uint64, utc: string)
      modifies this`ackFile
      ensures LastAck(ackFile) == sequence
    {
      AckReadsBack(sequence, utc);
      ackFile := Some(AckText(sequence, utc));
    }

    method AdvanceCursor(sequence: Uint64)
      requires Accounted()
      modifies this`ackedByteOffset, this`ackCursor
      ensures Accounted() && old(ackCursor) <= ackCursor
      ensures ackCursor > old(ackCursor) ==> ackCursor <= sequence
      ensures ackCursor == |recordByteSizes| || sequence <= ackCursor
      ensures old(Pending()) == Pending() + Sum(recordByteSizes[old(ackCursor)..ackCursor])
    {
      assert recordByteSizes[ackCursor..ackCursor] == [];
      while ackCursor < sequence && ackCursor < |recordByteSizes|
        invariant Accounted() && old(ackCursor) <= ackCursor
        invariant ackCursor > old(ackCursor) ==> ackCursor <= sequence
        invariant old(Pending()) == Pending() + Sum(recordByteSizes[old(ackCursor)..ackCursor])
      {
        SumStep(recordByteSizes, 0, ackCursor);
        SumStep(recordByteSizes, old(ackCursor), ackCursor);
        ackedByteOffset := ackedByteOffset + recordByteSizes[ackCursor];
        ackCursor := ackCursor + 1;
      }
    }
  }
}
