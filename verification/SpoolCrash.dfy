/**
  The spool file of evidence records: what a replay reads back from it, and what is left of it when
  the process dies at any byte.
 */
module SpoolCrash {
  import opened Common
  import opened JsonText
  import opened EvidenceCodec
  import opened EvidenceRoundTrip
  import opened TornLine
  import opened LineFile
  import opened MergedLine

  import opened EvidenceSpool

  function SpoolText(ms: seq<Record>): string {
    FileText(ms, JsonLine)
  }

  /** Printed on one line, and found again in it. */
  predicate Readable(m: Record) {
    ClosesAtItsEnd(m.payload) && '\n' !in m.payload
  }

  predicate AllReadable(ms: seq<Record>) {
    forall i :: 0 <= i < |ms| ==> Readable(ms[i])
  }

  /** Every record whose payload is a printed object with no text that ends in a backslash is readable. */
  lemma ObjectPayloadIsReadable(m: Record, fields: Fields)
    requires m.payload == Print(Object(fields))
    requires NamedFieldKeys(fields) && MatchableFields(fields)
    ensures Readable(m)
  {
    ObjectCloses(fields);
    PrintHasNoNewline(Object(fields));
  }

  lemma PutTextHasNoNewline(key: string, s: string, after: string)
    requires '\n' !in key && '\n' !in after
    ensures '\n' !in PutText(key, s, after)
  {
    EscapedShape(s);
  }

  lemma PutHasNoNewline(f: Part, m: Record, after: string)
    requires !f.Payload? && '\n' !in after
    ensures '\n' !in [Lead(f)] + Put(f, m, after)
  {
    assert '\n' !in Key(f);
    if IsText(f) {
      PutTextHasNoNewline(Key(f), TextOf(m, f), after);
    }
  }

  lemma {:induction false} OnHasNoNewline(f: Part, m: Record, tail: string)
    requires '\n' !in tail
    ensures '\n' !in On(f, m, tail)
    decreases 8 - Rank(f)
  {
    if !f.Payload? {
      OnHasNoNewline(Next(f), m, tail);
      PutHasNoNewline(f, m, On(Next(f), m, tail));
    }
  }

  lemma LineHasNoNewline(m: Record)
    requires '\n' !in m.payload
    ensures '\n' !in JsonLine(m)
  {
    assert '\n' !in PAYLOAD_KEY;
    OnHasNoNewline(Version, m, PayloadTail(m));
  }

  lemma LineDecodesAtEnd(m: Record)
    requires Readable(m)
    ensures DecodesAtEnd(JsonLine(m), m, FromJsonLine)
  {
    LineHasNoNewline(m);
    forall k | 0 <= k <= |JsonLine(m)|
      ensures FromJsonLine(JsonLine(m)[..k]) == if k + 1 < |JsonLine(m)| then None else Some(m)
    {
      TornLineIsRejectedOrWhole(m, k);
    }
  }

  lemma LinesHold(ms: seq<Record>)
    requires AllReadable(ms)
    ensures Holds(Lines(ms, JsonLine), ms, FromJsonLine)
  {
    forall i | 0 <= i < |ms|
      ensures DecodesAtEnd(Lines(ms, JsonLine)[i], ms[i], FromJsonLine)
    {
      LineDecodesAtEnd(ms[i]);
    }
  }

  /** How many of the records still decode when only the first k bytes are left. */
  function SurvivingRecords(ms: seq<Record>, k: nat): (j: nat)
    ensures j <= |ms|
  {
    Surviving(Lines(ms, JsonLine), k)
  }

  /**
    A crash at any byte: whatever beginning of the spool file is left, a replay returns exactly the
    records above the acknowledged sequence among the first ones appended, each as it was appended.
   */
  lemma CrashKeepsAPrefix(ms: seq<Record>, k: nat, acked: Uint64)
    requires AllReadable(ms) && k <= |SpoolText(ms)|
    ensures Replay(SpoolText(ms)[..k], FromJsonLine, AboveAck(acked))
         == Filter(ms[..SurvivingRecords(ms, k)], AboveAck(acked))
  {
    LinesHold(ms);
    FileTextIsLines(ms, JsonLine);
    CutKeepsAPrefix(Lines(ms, JsonLine), ms, k, FromJsonLine, AboveAck(acked));
  }

  /** A record survives exactly when at most its closing brace and line break are missing. */
  lemma SurvivorsFit(ms: seq<Record>, k: nat, j: nat)
    requires AllReadable(ms) && 0 < j <= |ms|
    ensures j <= SurvivingRecords(ms, k) <==> |SpoolText(ms[..j])| <= k + 2
  {
    var lines := Lines(ms, JsonLine);
    LinesHold(ms);
    forall i | 0 <= i < |ms|
      ensures |lines[i]| > 1
    {
      assert DecodesAtEnd(lines[i], ms[i], FromJsonLine);
    }
    assert lines[..j] == Lines(ms[..j], JsonLine);
    FileTextIsLines(ms[..j], JsonLine);
    SurvivingIsLargestThatFits(lines, k, j);
  }

  lemma WholeSpoolReplays(ms: seq<Record>, acked: Uint64)
    requires AllReadable(ms)
    ensures Replay(SpoolText(ms), FromJsonLine, AboveAck(acked)) == Filter(ms, AboveAck(acked))
  {
    LinesHold(ms);
    FileTextIsLines(ms, JsonLine);
    WholeFileReplays(Lines(ms, JsonLine), ms, FromJsonLine, AboveAck(acked));
  }

  /** What a replay makes of a torn tail that the next records were appended to. */
  lemma RecordsAfterTornTail(torn: Record, next: Record, more: seq<Record>, k: nat, keep: Record -> bool)
    requires Readable(torn) && Readable(next) && AllReadable(more) && k <= |JsonLine(torn)|
    ensures Replay(JsonLine(torn)[..k] + SpoolText([next] + more), FromJsonLine, keep) ==
            Kept(Merged(torn, next, CutOf(torn, k)), keep) + Filter(more, keep)
  {
    LineHasNoNewline(torn);
    LineHasNoNewline(next);
    MergedLineReads(torn, next, k);
    ReplayMerged(JsonLine(torn)[..k], next, more, JsonLine, FromJsonLine, keep);
    LinesHold(more);
    FileTextIsLines(more, JsonLine);
    WholeFileReplays(Lines(more, JsonLine), more, FromJsonLine, keep);
  }

  /**
    A session that goes on after a crash: every whole record before the torn one and every record
    after the first new one is replayed; in place of those two, what their merged line decodes to.
   */
  lemma AppendAfterCrashReplays(before: seq<Record>, torn: Record, next: Record, more: seq<Record>, k: nat,
                                keep: Record -> bool)
    requires AllReadable(before) && Readable(torn) && Readable(next) && AllReadable(more) && k <= |JsonLine(torn)|
    ensures Replay(SpoolText(before) + (JsonLine(torn)[..k] + SpoolText([next] + more)), FromJsonLine, keep) ==
            Filter(before, keep) + (Kept(Merged(torn, next, CutOf(torn, k)), keep) + Filter(more, keep))
  {
    RecordsAfterTornTail(torn, next, more, k, keep);
    LinesHold(before);
    FileTextIsLines(before, JsonLine);
    ReplayAfterWholeLines(Lines(before, JsonLine), before, JsonLine(torn)[..k] + SpoolText([next] + more),
                          FromJsonLine, keep);
  }

  /** When all but the last brace and line break is there, the next record is lost and the torn one is not. */
  lemma RecordAfterTornTailIsLost(torn: Record, next: Record, more: seq<Record>, k: nat, keep: Record -> bool)
    requires Readable(torn) && Readable(next) && AllReadable(more)
    requires |JsonLine(torn)| - 1 <= k <= |JsonLine(torn)|
    ensures Replay(JsonLine(torn)[..k] + SpoolText([next] + more), FromJsonLine, keep) ==
            Kept(Some(torn), keep) + Filter(more, keep)
  {
    LengthOfOn(Version, torn);
    WholeCut(Version, torn, k);
    RecordsAfterTornTail(torn, next, more, k, keep);
  }

  // ---------------------------------------------------------------------------
  // A spool of evidence records
  // ---------------------------------------------------------------------------

  /** A spool that prints and reads lines as the evidence codec does. */
  method OpenSpool(maxSpoolBytes: nat, disk: string, ackFile: Option<string>) returns (spool: Spool)
    ensures fresh(spool) && spool.Valid() && spool.show == JsonLine && spool.read == FromJsonLine
    ensures spool.disk == disk && spool.ackFile == ackFile && spool.maxSpoolBytes == maxSpoolBytes
    ensures spool.existing == disk && spool.appended == [] && spool.written == []
  {
    spool := new Spool(JsonLine, FromJsonLine, maxSpoolBytes, disk, ackFile);
  }

  /** In a fresh session of readable records, a replay gives what was flushed and is above the ack. */
  method ReplayFlushed(spool: Spool, acked: Uint64) returns (result: seq<Record>)
    requires spool.Valid() && spool.show == JsonLine && spool.read == FromJsonLine
    requires spool.existing == "" && AllReadable(spool.written)
    ensures result == Filter(spool.written, AboveAck(acked))
  {
    LinesHold(spool.written);
    result := spool.ReplayFrom(acked);
  }

  /** Restarted over what a crash left of that session's file, a spool replays a beginning of it. */
  method ReplayAfterRestart(ghost before: seq<Record>, ghost k: nat, disk: string, acked: Uint64)
    returns (result: seq<Record>)
    requires AllReadable(before) && k <= |SpoolText(before)| && disk == SpoolText(before)[..k]
    ensures result == Filter(before[..SurvivingRecords(before, k)], AboveAck(acked))
  {
    var spool := OpenSpool(0, disk, None);
    result := spool.ReplayFrom(acked);
    CrashKeepsAPrefix(before, k, acked);
  }
}
