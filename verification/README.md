# A verified model of the AIR playout engine

AIR is RetroVue's playout engine: a tick loop driven by integer and rational arithmetic, which keeps a
durable trail of evidence of what aired. This project models its four hardest parts in Dafny and proves
what each of them is for. `dafny verify dfyconfig.toml` checks everything.

The project in four groups:

- **Seams, fences and evidence.** `SeamScheduler` is the scheduler of the tick loop, `EvidenceTrail` the
  callbacks that turn its steps into events, `PlayoutRun` whole runs of both with arbitrarily late swaps and
  takes, `SegmentTiming` when each segment of a run ends and the evidence an undisturbed run leaves,
  `FrameAuthority` the choice of one tick's frame and the swap that follows it.
- **The evidence path.** `JsonText` and `EvidenceCodec` are the hand-written printer and parsers, `KeySearch` why a
  search for a key ends where the key was printed, `EvidenceRoundTrip`, `TornLine` and `MergedLine` what comes
  back from whole lines, torn ones, and torn ones the next record was appended to, `LineFile`, `EvidenceSpool`
  and `SpoolCrash` the spool and its file, `PayloadExtract` and `EvidenceMessages` the client's substring
  extractors, `EvidencePath` the way from emitter to Core, `Delivery` the protocol with its interleavings.
- **Buffers and clocks.** `AudioBuffer`, `AudioClock`, `VideoBuffer`, `RingBuffer`, `Cadence`.
- **Plans and joins.** `BlockPlan` and `JoinInProgress`.

`Rational` holds the rounding that all frame arithmetic rests on, `Common` two things everyone needs.

How the model relates to the program:

- An object whose methods update its fields is a class; each method is tied to a function of its old state,
  or states the new contents, and the theorems are about those functions. Loops are loops.
- Threads are machines. One step is one load, store or critical section, and a theorem about runs covers
  every interleaving. Steps are sequentially consistent: the acquire and release orders of the ring's indices
  and of the fill generation are taken to give that.
- Integers are unbounded, except where a width matters: record fields, the parsers' ranges, the 32-bit cast of
  an extracted field, the 64-bit value that means "no fence", the successor of the largest sequence number.
- Clocks, file errors, what threads find in a buffer and what Core sends are parameters or steps. Bytes of a
  string are characters. A decoder is an arbitrary sequence of frames; a picture is a number or a segment.

## What was found

Each item is a lemma; where the code falls short of a promise, the exact condition is proved.

- *A last string that ends in a backslash loses the record.* The payload matcher looks one character back for
  an escape and overlooks the closing quote (`LastBackslashLosesRecord`); a record is read back exactly when
  the matcher closes at the payload's own end (`RoundTripIsExact`).
- *Appending after a torn tail merges two records.* The spool contract (SP-CRASH-002 in
  `pkg/air/docs/contracts/AirExecutionEvidenceSpoolContract_v0.1.md`) wants appending to resume after the last
  valid record; the code appends to the unfinished line. Records before and after the two are replayed
  (`AppendAfterCrashReplays`); of the two comes back what the merged line decodes to, for every cut
  (`MergedLineReads`). Within a session the next record is recovered exactly when the cut comes before the torn
  sequence number and splits no name or version (`RecoveredInSessionExactly`; `NextIsRecoveredExactly` for any two
  records). Cut in the number, the next record comes back under a truncated old number
  (`CutSequenceGivesHybrid`, `OldSequenceComesBack`); cut in the payload outside its strings,
  both are lost (`CutInPayloadSwallowsNext`); cut at the end, the next one is (`RecordAfterTornTailIsLost`).
- *A record can be stranded for a session.* If a live write fails before the spool's writer has flushed the
  record, and the client reconnects and replays before it does, the record is in no hand until the session
  after (`DroppedRecordCanBeStranded`; `DrainedSessionIsComplete` gives the exact condition).
- *A frame can be stamped with a segment that does not become active.* Popping one of exactly two frames makes
  the incoming segment ineligible again, and the swap is deferred (`PopCanLoseItsSegment`,
  `TickMatchesExactly`). A forced swap corrects the stamp, not the picture (`PictureMatchesExactly`,
  `HeldPictureCanBeOlder`).
- *The fill thread's cadence gate never holds a decode back*: its budget and threshold are seeded the other way
  round (`FillGateAlwaysDecodes`), although its comments describe a decode rate bounded by the source.
- *Sources faster than the output, but not a whole number of times, drift* (`SourceKeepsTimeExactly`).
- *An audio generation of zero turns the stale-push check off* (`StalePushIsRefusedExactly`), and zero is what a
  thread captures before the buffer's first reset.
- *A fill thread between its reads of the producer and of the generation outlives its stop.* After a detached stop
  with a flush, a frame of an old session can enter exactly if some thread then holds an old producer and either
  has not read its generation or read it after the stop's bump and has not tested the flag (`StaleFrameExactly`);
  `StaleFrameAfterRestart` is a run in which the next session shows such a frame.
- *The ring's Size is wrong exactly when a pop passes its first load* (`SizeAcrossTwoLoads`).
- *A join before the block starts takes the asset offset of the segment that arrived first*, not of the one with
  index 0 (`EarlyJoinIsRightExactly`, `EarlyJoinCanBeWrong`).
- *Carriage returns and tabs reach Core still escaped* (`TextComesBackExactly`), *the least 64-bit number does not
  reach it* (`Int64ComesBack`), and *a BLOCK_START never carries the fence tick the client looks for*
  (`BlockStartArrives`).

## Model

| member | source | states |
|---|---|---|
| Rational.FramesCeilIsLeastCover | pkg/air/include/retrovue/blockplan/RationalFps.hpp:92-97 | the frame count of a duration covers it, and one frame less does not |
| Rational.FramesCeilSuperadditive | pkg/air/include/retrovue/blockplan/RationalFps.hpp:92-97 | rounding two durations up separately never gives fewer frames than rounding their sum: why late swaps cannot make a block end early |
| SeamScheduler.EnforceEstablishesInvariant | pkg/air/src/blockplan/PipelineManager.cpp:4184-4262 | whatever the durations and however late the tick, the repaired seam is ahead, not past a fence still ahead, and a segment seam has a successor and lies before the fence |
| SeamScheduler.ActivateEstablishesInvariant | pkg/air/src/blockplan/PipelineManager.cpp:4137-4171 | the same after a block goes live, for any boundaries the producer gives |
| SeamScheduler.ReanchorEstablishesInvariant | pkg/air/src/blockplan/PipelineManager.cpp:1267-1276 | the same after the clock start moved the fence epoch |
| SeamScheduler.SwapEstablishesInvariant | pkg/air/src/blockplan/PipelineManager.cpp:4662-4699 | the same after every segment swap |
| SeamScheduler.FenceIsFirstFrameAtOrAfter | pkg/air/src/blockplan/PipelineManager.cpp:1026-1031 | the fence is the first frame that starts at the block's end or after it |
| SeamScheduler.SwapRebasesOnTick | pkg/air/src/blockplan/PipelineManager.cpp:4662-4699 | from the durations: the segment that went live ends after its own frames, or a second's if it has none, counted from the swap; by a segment seam if it has a successor and the fence is later |
| SeamScheduler.LastSegmentEndsInBlockSeam | pkg/air/src/blockplan/PipelineManager.cpp:4683-4697 | so the last segment never waits for a successor that does not exist |
| SeamScheduler.Scheduler.UpdateNextSeamFrame | pkg/air/src/blockplan/PipelineManager.cpp:4157-4171 | the loop's fields become the specified state: the nearer of planned seam and fence, the fence on a tie |
| SeamScheduler.Scheduler.ComputeSegmentSeamFrames | pkg/air/src/blockplan/PipelineManager.cpp:4137-4151 | one planned seam for each boundary, counted from activation |
| SeamScheduler.Scheduler.EnforceNextSeamInvariant | pkg/air/src/blockplan/PipelineManager.cpp:4184-4262 | the in-place repair is the specified one |
| SeamScheduler.Scheduler.ActivateBlock | pkg/air/src/blockplan/PipelineManager.cpp:2385-2423 | activation sets fence, activation tick, plan and next seam together |
| SeamScheduler.Scheduler.ReanchorFenceEpoch | pkg/air/src/blockplan/PipelineManager.cpp:1267-1276 | the clock start's epoch moves the fence, recomputes the seam and repairs it |
| SeamScheduler.Scheduler.EnterPaddedGap | pkg/air/src/blockplan/PipelineManager.cpp:2364-2367 | a gap owns no timeline: no fence, no seam |
| SeamScheduler.Scheduler.PerformSegmentSwap | pkg/air/src/blockplan/PipelineManager.cpp:4555-4699 | the swap advances the segment by one, and its seam is the swap tick plus its own frames, or the fence if that comes first |
| EvidenceTrail.Callbacks.BlockStarted | pkg/air/src/playout_service.cpp:899-930 | overwrites the live activation and emits the start at its tick |
| EvidenceTrail.Callbacks.SegmentStarted | pkg/air/src/playout_service.cpp:940-1012 | closes the outgoing segment when it aired frames, opens the next, marks a join in progress once |
| EvidenceTrail.Callbacks.BlockCompleted | pkg/air/src/playout_service.cpp:845-898 | closes the open segment of this block and emits its fence with the frames since activation |
| EvidenceTrail.SwapReads | pkg/air/src/playout_service.cpp:940-1012 | a swap's events continue the grammar and add exactly the frames since the last start |
| EvidenceTrail.CompletionReads | pkg/air/src/playout_service.cpp:845-898 | a completion's events close the grammar: the fence total is the sum of the block's counts |
| PlayoutRun.StackedReachesFence | pkg/air/src/blockplan/PipelineManager.cpp:4662-4699 | segment by segment, frames rounded up from activation reach at least the fence |
| PlayoutRun.RunKeepsInvariant | pkg/air/src/blockplan/PipelineManager.cpp:2385-2423 | every action of every run keeps seams, timeline and evidence in agreement |
| PlayoutRun.EveryRun | pkg/air/src/blockplan/PipelineManager.cpp:1026-1031 | over every run with arbitrarily late swaps, at the session's rate and epoch: no block seam before its fence, no activation before its start's frame, every segment seam has a successor, the evidence follows the grammar, only the first start joins |
| PlayoutRun.FirstBlockPremiseIsExact | pkg/air/src/blockplan/PipelineManager.cpp:1026-1046 | the first block goes live in time exactly when it starts at or before the epoch |
| PlayoutRun.EveryPromptRun | pkg/air/src/blockplan/PipelineManager.cpp:4137-4171 | with nothing deferred, at the session's rate and epoch, activation is exact, and the fence fires on time exactly when the block spans a frame boundary; each start is on the tick the fence before it reported |
| SegmentTiming.EverySegmentEndsWhenDue | pkg/air/src/blockplan/PipelineManager.cpp:4662-4699 | over every run with arbitrarily late swaps: the live block is the one fed last, and its live segment ends its own frames after it really went live, by a segment seam if it has a successor, a known boundary and the fence later, else at the fence; a gap has no seam and no fence |
| SegmentTiming.PromptEvidenceIsThePlans | pkg/air/src/playout_service.cpp:845-1012 | with nothing deferred, segment i goes live at activation plus the frames of those before it, and the whole trail is the plan's, event by event: names, durations, frame counts, fences, truncation and the join flag |
| PlayoutRun.ShortSession | pkg/air/src/playout_service.cpp:845-1012 | a session of one block with two segments, written out event by event |
| FrameAuthority.TickLoop.SelectFrame | pkg/air/src/blockplan/PipelineManager.cpp:1688-2043 | the cascade's branches pick the specified frame, stamp and held state |
| FrameAuthority.TickLoop.PostTake | pkg/air/src/blockplan/PipelineManager.cpp:2616-2850 | the gates perform, force or defer the swap, and restamp, as specified |
| FrameAuthority.TickLoop.RunTick | pkg/air/src/blockplan/PipelineManager.cpp:1504-2921 | a whole tick without a block take, with its skip and its underflow stop |
| FrameAuthority.SentExactly | pkg/air/src/blockplan/PipelineManager.cpp:1688-2080 | from what a tick finds: when fresh content is sent and of which segment, when a held picture, when pad, when nothing, and when the loop stops |
| FrameAuthority.SwapsExactly | pkg/air/src/blockplan/PipelineManager.cpp:2616-2850 | from what a tick finds: when the incoming segment becomes active |
| FrameAuthority.OrdinaryTickShowsActive | pkg/air/src/blockplan/PipelineManager.cpp:1785-1800 | with no seam and no repeat due, a frame that is there is sent, as the active segment's |
| FrameAuthority.SuppliedRunSendsNoPad | pkg/air/src/blockplan/PipelineManager.cpp:1785-2080 | over every run whose ticks find a frame and no pad seam, no tick sends pad or is lost, and each that advances sends fresh content |
| FrameAuthority.TickMatchesExactly | pkg/air/src/blockplan/PipelineManager.cpp:2616-2921 | with an agreeing held frame, the emitted frame is pad or stamped with the active segment, exactly unless a frame came out of B and B then lost its eligibility |
| FrameAuthority.SteadyTickKeepsAuthority | pkg/air/src/blockplan/PipelineManager.cpp:1504-1522 | when B's eligibility does not change within the tick, the frame matches and the held frame still agrees |
| FrameAuthority.EveryTickMatches | pkg/air/src/blockplan/PipelineManager.cpp:2916-2921 | so over every run of ticks between block takes |
| FrameAuthority.PopCanLoseItsSegment | pkg/air/src/blockplan/PipelineManager.cpp:4539-4549 | an input on which the pop itself breaks it: two frames ready, one taken |
| FrameAuthority.RepeatNeedsAgreement | pkg/air/src/blockplan/PipelineManager.cpp:2033-2036 | a repeat matches exactly when the held stamp is the active segment |
| FrameAuthority.PictureMatchesExactly | pkg/air/src/blockplan/PipelineManager.cpp:2834-2856 | whatever is held: the picture, not its stamp, is of the segment active after the tick exactly unless a swap overtook it, its segment was lost, or the held picture was decoded for another segment |
| FrameAuthority.HeldPictureCanBeOlder | pkg/air/src/blockplan/PipelineManager.cpp:2008-2014 | an input on which a hold shows old content under the pad segment's stamp |
| JsonText.JsonEscape | pkg/air/src/evidence/EvidenceEmitter.cpp:16-28 | the appending loop is the character-wise escape of section 7 of RFC 8259 restricted to five characters |
| JsonText.EscapedShape | pkg/air/src/evidence/EvidenceSpool.cpp:17-29 | an escaped string has no raw line break, and each of its quotes follows a backslash |
| JsonText.DecimalRoundTrip | pkg/air/src/evidence/EvidenceSpool.cpp:57-74 | a printed number is read back |
| JsonText.FindExtends | pkg/air/src/evidence/EvidenceSpool.cpp:33-37 | text appended later does not move where a key was found |
| EvidenceCodec.ToJsonLine | pkg/air/src/evidence/EvidenceSpool.cpp:111-127 | the printer's pieces make the specified line |
| EvidenceCodec.ParseJsonStringValue | pkg/air/src/evidence/EvidenceSpool.cpp:33-55 | the scanning loop reads the text after the key up to its closing quote, and moves the position past it |
| EvidenceCodec.ParseJsonUint64Value | pkg/air/src/evidence/EvidenceSpool.cpp:57-74 | a run of digits and spaces, in range, or failure |
| EvidenceCodec.ParseJsonUint32Value | pkg/air/src/evidence/EvidenceSpool.cpp:76-83 | the same within 32 bits |
| EvidenceCodec.ParsePayloadObject | pkg/air/src/evidence/EvidenceSpool.cpp:86-107 | blanks, an opening brace, and text up to the matching one |
| EvidenceCodec.ParseJsonLine | pkg/air/src/evidence/EvidenceSpool.cpp:129-142 | the parser that carries a position through the line is the specified function of the line |
| EvidenceRoundTrip.RoundTripIsExact | pkg/air/src/evidence/EvidenceSpool.cpp:111-142 | parse after print is the identity, for all header strings, exactly when the brace matcher takes the whole payload as one object |
| EvidenceRoundTrip.MissingPayloadBecomesEmpty | pkg/air/src/evidence/EvidenceSpool.cpp:121-124 | a payload that is no object comes back as an empty one, nothing else changed |
| EvidenceRoundTrip.OutsideValue | pkg/air/src/evidence/EvidenceSpool.cpp:92-103 | the matcher passes over any printed value, nested or not, and comes out at its depth, when no text ends in a backslash |
| EvidenceRoundTrip.ObjectRecordsRoundTrip | pkg/air/src/evidence/EvidenceSpool.cpp:86-142 | every record with a printed object payload whose texts do not end in a backslash is read back as it was |
| EvidenceRoundTrip.LastBackslashLosesRecord | pkg/air/src/evidence/EvidenceSpool.cpp:97-100 | a payload whose last string ends in a backslash is never read back |
| EvidenceRoundTrip.OneTextRoundTripIsExact | pkg/air/src/evidence/EvidenceSpool.cpp:97-100 | for a payload that is one text, it is read back exactly when the text does not end in a backslash |
| TornLine.ParseRecordExtends | pkg/air/src/evidence/EvidenceSpool.cpp:129-142 | a parse that succeeded gives the same record whatever text follows |
| TornLine.TornLineIsRejectedOrWhole | pkg/air/src/evidence/EvidenceSpool.cpp:129-142 | the first k characters of a line are rejected, unless at most the final brace is missing: then they decode to the same record |
| LineFile.GetLine | pkg/air/src/evidence/EvidenceSpool.cpp:266-267 | one line up to its break or the end of the file, and where the next begins |
| LineFile.CutKeepsAPrefix | pkg/air/src/evidence/EvidenceSpool.cpp:260-275 | for any codec whose torn lines behave like that, a file cut anywhere replays a prefix of its values |
| SpoolCrash.ObjectPayloadIsReadable | pkg/air/src/evidence/EvidenceSpool.cpp:86-107 | what the crash theorems ask of a record holds for every printed object payload whose texts do not end in a backslash |
| SpoolCrash.CrashKeepsAPrefix | pkg/air/src/evidence/EvidenceSpool.cpp:244-275 | for any byte prefix of the spool file, a replay gives exactly the records above the ack among the first ones appended |
| SpoolCrash.SurvivorsFit | pkg/air/src/evidence/EvidenceSpool.cpp:247-248 | a record survives exactly when at most its closing brace and line break are missing |
| SpoolCrash.WholeSpoolReplays | pkg/air/src/evidence/EvidenceSpool.cpp:260-275 | a whole file replays every appended record above the ack |
| MergedLine.MergedLineReads | pkg/air/src/evidence/EvidenceSpool.cpp:33-142 | for every cut of a torn line: what it decodes to with the next record's line behind it, by the place of the cut |
| MergedLine.NextIsRecoveredExactly | pkg/air/src/evidence/EvidenceSpool.cpp:33-142 | for every cut and any two records: the next record comes out as it was exactly when the fields already complete agree with its own and the value that was cut is read as its own |
| MergedLine.RecoveredInSessionExactly | pkg/air/src/evidence/EvidenceSpool.cpp:33-142 | for two records of one session: exactly when the cut comes before the torn sequence number and splits neither a name nor the version, but for a brace |
| MergedLine.CutSequenceGivesHybrid | pkg/air/src/evidence/EvidenceSpool.cpp:57-74 | a cut in the sequence number gives the next record under the number its remaining digits make |
| MergedLine.OldSequenceComesBack | pkg/air/src/evidence/EvidenceSpool.cpp:57-74 | an input: 12 cut after its first digit brings back record 1 with the body of record 13 |
| MergedLine.CutInPayloadSwallowsNext | pkg/air/src/evidence/EvidenceSpool.cpp:86-107 | cut in its payload outside a string, the line is lost with the next record; cut just before it, the next line becomes the payload |
| SpoolCrash.RecordsAfterTornTail | pkg/air/src/evidence/EvidenceSpool.cpp:244-275 | for every cut: a replay gives what the merged line decodes to, then every later record |
| SpoolCrash.AppendAfterCrashReplays | pkg/air/src/evidence/EvidenceSpool.cpp:244-275 | and before them every whole record of the file |
| SpoolCrash.RecordAfterTornTailIsLost | pkg/air/src/evidence/EvidenceSpool.cpp:244-275 | with only the closing brace and line break missing, or the line break alone, the torn record is replayed and the next one is not |
| SpoolCrash.ReplayFlushed | pkg/air/src/evidence/EvidenceSpool.cpp:260-275 | a spool that prints and parses as the codec does replays, in a fresh session of readable records, exactly those flushed and above the ack |
| SpoolCrash.ReplayAfterRestart | pkg/air/src/evidence/EvidenceSpool.cpp:148-175 | restarted over what a crash left, it replays a beginning of that session's records above the ack |
| EvidenceSpool.Spool.constructor | pkg/air/src/evidence/EvidenceSpool.cpp:148-175 | a session counts the bytes of the file it finds, and nothing appended yet |
| EvidenceSpool.Spool.Append | pkg/air/src/evidence/EvidenceSpool.cpp:190-217 | a gap is refused, then a record over the cap, exactly; else it is queued last and pending grows by its bytes; a refusal changes nothing |
| EvidenceSpool.Spool.PendingBytes | pkg/air/src/evidence/EvidenceSpool.cpp:277-279 | pending is the file found at the start plus the serialized records past the ack cursor, and within the cap |
| EvidenceSpool.PastCursorIsAboveAck | pkg/air/src/evidence/EvidenceSpool.cpp:285-290 | in a session numbered from one, those are exactly the records above the acknowledged sequence |
| EvidenceSpool.Spool.TakeBatch | pkg/air/src/evidence/EvidenceSpool.cpp:231-232 | the swap keeps disk, batch and queue the appended records in order |
| EvidenceSpool.Spool.WriteBatch | pkg/air/src/evidence/EvidenceSpool.cpp:244-251 | appends the batch's lines to the file and keeps that order |
| EvidenceSpool.Spool.ReplayFrom | pkg/air/src/evidence/EvidenceSpool.cpp:260-275 | the loop is the specified replay; on a fresh file of readable records, exactly those written and above the ack |
| EvidenceSpool.Spool.UpdateAck | pkg/air/src/evidence/EvidenceSpool.cpp:281-335 | a lower or equal ack does nothing; a greater one frees exactly the bytes of the newly acked records; the durable ack never goes back |
| EvidenceSpool.AckReadsBack | pkg/air/src/evidence/EvidenceSpool.cpp:308-347 | a stored acknowledgement is read back |
| EvidenceSpool.TornAckNeverClaimsMore | pkg/air/src/evidence/EvidenceSpool.cpp:313-347 | an acknowledgement file cut at any byte never claims more than was acknowledged |
| PayloadExtract.ReadString | pkg/air/src/evidence/GrpcEvidenceClient.cpp:20-37 | the scanning loop is the specified extractor |
| PayloadExtract.ReadInt64 | pkg/air/src/evidence/GrpcEvidenceClient.cpp:38-54 | the signed extractor, with its range check on the magnitude |
| PayloadExtract.ReadUint64 | pkg/air/src/evidence/GrpcEvidenceClient.cpp:56-69 | the unsigned extractor |
| PayloadExtract.ReadBool | pkg/air/src/evidence/GrpcEvidenceClient.cpp:78-87 | the flag extractor |
| PayloadExtract.NoKeyInValue | pkg/air/src/evidence/GrpcEvidenceClient.cpp:20-25 | no suffix of an escaped value can be taken for a key and its colon |
| PayloadExtract.KeyIsFoundWherePrinted | pkg/air/src/evidence/GrpcEvidenceClient.cpp:20-87 | searching any printed flat payload for a key ends at the field with that key, or nowhere |
| PayloadExtract.TextComesBackExactly | pkg/air/src/evidence/GrpcEvidenceClient.cpp:27-36 | a text is recovered exactly when it has no carriage return and no tab |
| PayloadExtract.TextComesBack | pkg/air/src/evidence/GrpcEvidenceClient.cpp:27-36 | and otherwise those two stay as their escapes |
| PayloadExtract.Int64ComesBack | pkg/air/src/evidence/GrpcEvidenceClient.cpp:38-54 | a signed number is recovered, except the least one |
| PayloadExtract.Int32ComesBack | pkg/air/src/evidence/GrpcEvidenceClient.cpp:71-76 | a 32-bit number survives the cast |
| PayloadExtract.Uint64ComesBack | pkg/air/src/evidence/GrpcEvidenceClient.cpp:56-69 | an unsigned number is recovered |
| PayloadExtract.BoolComesBack | pkg/air/src/evidence/GrpcEvidenceClient.cpp:78-87 | a flag is recovered |
| PayloadExtract.AbsentKeyIsNotFound | pkg/air/src/evidence/GrpcEvidenceClient.cpp:20-87 | a key that was not printed is not found, whatever the values say |
| EvidenceMessages.BlockStartArrives | pkg/air/src/evidence/GrpcEvidenceClient.cpp:149-155 | every field of a BLOCK_START arrives; its fence tick stays zero |
| EvidenceMessages.SegmentStartArrives | pkg/air/src/evidence/GrpcEvidenceClient.cpp:157-165 | every looked-up field of a SEGMENT_START arrives |
| EvidenceMessages.SegmentEndArrives | pkg/air/src/evidence/GrpcEvidenceClient.cpp:167-179 | every looked-up field of a SEGMENT_END arrives |
| EvidenceMessages.BlockFenceArrives | pkg/air/src/evidence/GrpcEvidenceClient.cpp:181-191 | every field of a BLOCK_FENCE arrives |
| EvidenceMessages.ChannelTerminatedArrives | pkg/air/src/evidence/GrpcEvidenceClient.cpp:193-198 | every field of a CHANNEL_TERMINATED arrives |
| EvidenceMessages.EveryPayloadArrives | pkg/air/src/evidence/GrpcEvidenceClient.cpp:133-201 | what the emitter prints and what the client rebuilds agree, for all five payloads and all strings |
| EvidencePath.ReplayedAsSent | pkg/air/src/evidence/GrpcEvidenceClient.cpp:293-318 | a record replayed from the spool gives Core the same message as one sent live |
| Delivery.SpooledKept | pkg/air/src/evidence/EvidenceSpool.cpp:211-251 | every step keeps disk, writer's batch and queue the appended records in order |
| Delivery.AcksKept | pkg/air/src/evidence/GrpcEvidenceClient.cpp:339-371 | no step lowers the durable ack or lets any ack exceed Core's gapless prefix |
| Delivery.RunKeepsInv | pkg/air/src/evidence/GrpcEvidenceClient.cpp:260-371 | every run of appends, flushes, sessions, writes, failures and acks keeps the protocol's invariant |
| Delivery.NothingIsLostOrOverclaimed | pkg/air/src/evidence/GrpcEvidenceClient.cpp:260-371 | in every reachable state the spool is complete and in order, and no ack claims a record Core lacks |
| Delivery.DurableAckNeverDecreases | pkg/air/src/evidence/EvidenceSpool.cpp:281-290 | across any two points of any run |
| Delivery.ReplayBeginsFromAck | pkg/air/src/evidence/GrpcEvidenceClient.cpp:294-296 | the replay owes exactly the records on disk above the ack the client then holds |
| Delivery.SessionStreamsInOrder | pkg/air/src/evidence/GrpcEvidenceClient.cpp:293-333 | at every moment of a session, what it has written and what is left of the replay are those records, then every record handed over that was still queued when the replay began or came later; each once, in order, nothing else |
| Delivery.ReplayAwaitsAck | pkg/air/src/evidence/GrpcEvidenceClient.cpp:279-291 | whatever an earlier stream was told, nothing is replayed or sent live on a new one before its first ack was read |
| Delivery.AckTakesEffect | pkg/air/src/evidence/GrpcEvidenceClient.cpp:347-371 | the first ack of a stream counts as it is, a later one if greater, and a stored one is durable |
| Delivery.StoredAcksKeepUp | pkg/air/src/evidence/GrpcEvidenceClient.cpp:347-371 | while the ack file can be written, the durable ack never lags behind the client's |
| Delivery.FinishedReplayLeavesNoGap | pkg/air/src/evidence/GrpcEvidenceClient.cpp:293-304 | a session that finished its replay leaves Core every record then on disk, with no gap, and sent first exactly those above the ack it began from, in order |
| Delivery.DrainedSessionIsComplete | pkg/air/src/evidence/GrpcEvidenceClient.cpp:306-333 | a session with nothing left to send has delivered everything exactly if each dropped record was received or on disk when its replay began |
| Delivery.DroppedRecordCanBeStranded | pkg/air/src/evidence/GrpcEvidenceClient.cpp:306-333 | a reachable state in which that fails |
| AudioBuffer.AudioLookaheadBuffer.Push | pkg/air/src/blockplan/AudioLookaheadBuffer.cpp:41-77 | appends the frame's samples, or nothing for a stale generation or an empty frame |
| AudioBuffer.AudioLookaheadBuffer.TryPopSamples | pkg/air/src/blockplan/AudioLookaheadBuffer.cpp:79-154 | returns exactly the next n samples across any frame sizes, or changes no samples |
| AudioBuffer.AudioLookaheadBuffer.DrainFront | pkg/air/src/blockplan/AudioLookaheadBuffer.cpp:127-149 | one queued frame is consumed whole or split, and the order is kept |
| AudioBuffer.AudioLookaheadBuffer.Reset | pkg/air/src/blockplan/AudioLookaheadBuffer.cpp:201-221 | empties the buffer and starts a new generation |
| AudioBuffer.AudioLookaheadBuffer.DepthSamples | pkg/air/src/blockplan/AudioLookaheadBuffer.cpp:176-179 | depth is what was pushed less what was popped |
| AudioBuffer.CurrentPushIsAcceptedExactly | pkg/air/src/blockplan/AudioLookaheadBuffer.cpp:41-53 | a push with the current generation is refused only if it has no samples |
| AudioBuffer.StalePushIsRefusedExactly | pkg/air/src/blockplan/AudioLookaheadBuffer.cpp:45-53 | an old generation is refused exactly when it is not zero |
| AudioClock.Emitter.SamplesThisTick | pkg/air/src/blockplan/PipelineManager.cpp:3023-3027 | the count that brings the total to the exact rational number |
| AudioClock.Emitter.EmitTick | pkg/air/src/blockplan/PipelineManager.cpp:2928-3191 | the tick adds exactly that count; the samples are the next ones of the buffer they come from, behind any silence pushed there, or else injected silence, and exactly when; a pad tick that pops where it pushed never injects |
| AudioClock.PadTick | pkg/air/src/blockplan/PipelineManager.cpp:2931-2955 | on one buffer, push and pop cancel: no underflow, unchanged depth, order kept |
| AudioClock.WholeDurationStaysTight | pkg/air/src/blockplan/OutputClock.cpp:17-34 | with a whole frame duration, video leads audio by 0, 1 or 2 units of 90 kHz at every tick |
| AudioClock.DriftAtWholeSeconds | pkg/air/src/blockplan/PipelineManager.cpp:1321-1325 | after t times num ticks the difference is exactly t times the rounding error |
| AudioClock.ClocksStayTogetherExactly | pkg/air/src/blockplan/PipelineManager.cpp:1321-1325 | so the bound holds for ever exactly when num divides 90000 den |
| VideoBuffer.Store.Push | pkg/air/src/blockplan/VideoLookaheadBuffer.cpp:790-815 | drops the oldest frames down to the cap, then appends, and counts both |
| VideoBuffer.Store.TryPopFrame | pkg/air/src/blockplan/VideoLookaheadBuffer.cpp:854-869 | the oldest frame, or an underflow that changes nothing else |
| VideoBuffer.HardCap | pkg/air/include/retrovue/blockplan/VideoLookaheadBuffer.hpp:280-283 | the greater of 200 frames and four times the target |
| VideoBuffer.OnlyFullQueuesDrop | pkg/air/src/blockplan/VideoLookaheadBuffer.cpp:790-815 | a push drops exactly one frame, the oldest, exactly when the queue is full; no other step drops any |
| VideoBuffer.QueueIsBoundedAndCounted | pkg/air/src/blockplan/VideoLookaheadBuffer.cpp:790-815 | over every interleaving: depth within the cap, pushed = popped + dropped + flushed + depth, and the queue is the end of what was pushed |
| VideoBuffer.StaleFrameExactly | pkg/air/src/blockplan/VideoLookaheadBuffer.cpp:225-284 | over every run up to the return of a detached flushing stop: a frame of a session started before can enter afterwards exactly if some thread then holds such a session's producer and has not read its generation, or read it after the bump and has not tested the flag |
| VideoBuffer.StoppedSessionsStayOut | pkg/air/src/blockplan/VideoLookaheadBuffer.cpp:225-253 | when no thread is in that place, no frame of those sessions is queued or ever enters, whatever the run |
| VideoBuffer.StaleFrameAfterRestart | pkg/air/src/blockplan/VideoLookaheadBuffer.cpp:274-284 | a run in which the stop has returned, the next session runs, and the queue holds the first session's frame |
| RingBuffer.Ring.Push | pkg/air/src/buffer/FrameRingBuffer.cpp:28-44 | appends unless the requested capacity is reached |
| RingBuffer.Ring.Pop | pkg/air/src/buffer/FrameRingBuffer.cpp:58-74 | takes the first frame unless empty |
| RingBuffer.Ring.Peek | pkg/air/src/buffer/FrameRingBuffer.cpp:46-56 | shows the first frame and takes nothing |
| RingBuffer.Ring.Size | pkg/air/src/buffer/FrameRingBuffer.cpp:76-85 | the number of frames inside |
| RingBuffer.Ring.IsFull | pkg/air/src/buffer/FrameRingBuffer.cpp:112-118 | full exactly at the requested capacity |
| RingBuffer.CopyInKeeps | pkg/air/src/buffer/FrameRingBuffer.cpp:37-38 | writing the free slot disturbs no frame that is inside |
| RingBuffer.RunKeepsInv | pkg/air/src/buffer/FrameRingBuffer.cpp:28-74 | every interleaving of loads, copies and publishing stores keeps each frame in its slot |
| RingBuffer.FramesComeOutInOrder | pkg/air/src/buffer/FrameRingBuffer.cpp:28-74 | nothing lost, duplicated or reordered, and never more than the capacity inside |
| RingBuffer.NoSlotIsWrittenWhileReadable | pkg/air/src/buffer/FrameRingBuffer.cpp:32-41 | the slot being written is readable by no one, not even by a consumer in the middle of its copy |
| RingBuffer.RefusalsAreTrue | pkg/air/src/buffer/FrameRingBuffer.cpp:32-35 | the check refuses a push exactly when the ring is full at that moment and lets it through otherwise; the same for a pop and an empty ring |
| RingBuffer.PushAloneAppendsExactly | pkg/air/src/buffer/FrameRingBuffer.cpp:28-44 | from every reachable state, a push that runs alone appends its frame exactly when the ring is not full |
| RingBuffer.PopAloneTakesExactly | pkg/air/src/buffer/FrameRingBuffer.cpp:58-74 | and a pop that runs alone takes the oldest frame exactly when there is one |
| RingBuffer.IndicesTellTheSize | pkg/air/src/buffer/FrameRingBuffer.cpp:76-85 | the two indices read together are the exact size |
| RingBuffer.SizeAcrossTwoLoads | pkg/air/src/buffer/FrameRingBuffer.cpp:76-85 | with steps between its two loads, Size tells the difference of what was pushed at the first and popped at the second, modulo the slots: the difference itself exactly when the consumer has not passed the first load |
| Cadence.SnapIsExact | pkg/air/include/retrovue/blockplan/BlockPlanSessionTypes.hpp:131-151 | a measured rate becomes the standard rate it is near, any other stays, whatever the table's order; snapping again changes nothing |
| Cadence.FrameSelection.Init | pkg/air/src/blockplan/PipelineManager.cpp:3982-4046 | a new block's cadence starts from zero, for the snapped and sanitized rate |
| Cadence.FrameSelection.Refresh | pkg/air/src/blockplan/PipelineManager.cpp:4056-4117 | a usable source of the same snapped rate keeps its budget, any other restarts |
| Cadence.FrameSelection.Tick | pkg/air/src/blockplan/PipelineManager.cpp:1688-1697 | one tick of the accumulator |
| Cadence.AdvancesClosedForm | pkg/air/src/blockplan/PipelineManager.cpp:1688-1697 | n ticks advance exactly min(n, floor(n in/out)) times |
| Cadence.OnlyUsableSourcesAreHeldBack | pkg/air/src/blockplan/PipelineManager.cpp:3982-4046 | pad, a source that decodes nothing and a rate outside 10 to 120 advance on every tick, any other as often as its own rate asks |
| Cadence.ModeTellsTheRatio | pkg/air/src/blockplan/TickProducer.cpp:59-78 | OFF for equal rates, DROP with step k for a source k times as fast, REPEAT for every other pair |
| Cadence.TickProducer.UpdateResampleMode | pkg/air/src/blockplan/TickProducer.cpp:59-78 | OFF, DROP and CADENCE from exact rational comparison |
| Cadence.TickProducer.TryGetFrame | pkg/air/src/blockplan/TickProducer.cpp:497-528 | DROP takes a step of source frames, shows the first and keeps the audio of all, also when the source ends early |
| Cadence.SourceKeepsTimeExactly | pkg/air/src/blockplan/TickProducer.cpp:59-78 | consumed source frames are floor(n in/out) for every n exactly when in is at most out or a multiple of it |
| Cadence.MediaTimeIsWithinAFrame | pkg/air/src/blockplan/TickProducer.cpp:505-525 | then media time is never a full source frame off |
| Cadence.FillGateAlwaysDecodes | pkg/air/src/blockplan/VideoLookaheadBuffer.cpp:299-307 | the fill thread's gate lets every cycle decode |
| JoinInProgress.ApplyJip | tools/burn_in.py:95-126 | the walker's loop is the specified list of remaining segments, filled to the block |
| JoinInProgress.JoinedShowsTheRest | tools/burn_in.py:95-126 | millisecond t of the result is millisecond t + offset of the input, then pad |
| JoinInProgress.JoinedFillsTheBlockExactly | tools/burn_in.py:118-126 | the result lasts exactly the block, exactly when what is left fits |
| JoinInProgress.WholeBlockShows | tools/burn_in.py:783-907 | the composed block shows the episode up to ten seconds before its end, filler up to there if there is any, and pad |
| JoinInProgress.ComposeBlock | tools/burn_in.py:783-907 | the three-case arithmetic shows what the walker's result on episode, filler and pad shows, and is it exactly unless the join falls inside a part without URI; always the block's duration |
| BlockPlan.BlockPlanValidator.Validate | pkg/air/src/blockplan/BlockPlanValidator.cpp:23-53 | the checks in order, and the error of the first that fails |
| BlockPlan.BlockPlanValidator.ValidateSegmentIndices | pkg/air/src/blockplan/BlockPlanValidator.cpp:87-119 | accepts exactly indices that sort to 0, 1, 2 and so on |
| BlockPlan.BlockPlanValidator.ValidateDurationSum | pkg/air/src/blockplan/BlockPlanValidator.cpp:123-147 | accepts exactly positive durations that add up to the block |
| BlockPlan.BlockPlanValidator.ValidateAssets | pkg/air/src/blockplan/BlockPlanValidator.cpp:152-194 | the error of the first segment, in arrival order, that has one |
| BlockPlan.BlockPlanValidator.ComputeBoundaries | pkg/air/src/blockplan/BlockPlanValidator.cpp:198-236 | running totals over the segments in index order |
| BlockPlan.SortedIsContiguousExactly | pkg/air/src/blockplan/BlockPlanValidator.cpp:97-116 | the sorted check is the order-free one: every index is there |
| BlockPlan.AcceptedExactly | pkg/air/src/blockplan/BlockPlanValidator.cpp:23-53 | a plan is accepted exactly when it is acceptable, stated without order |
| BlockPlan.FirstUnplayableDecides | pkg/air/src/blockplan/BlockPlanValidator.cpp:152-194 | the first segment in arrival order whose asset or offset is wrong decides the error |
| BlockPlan.AcceptedBoundariesTile | pkg/air/src/blockplan/BlockPlanValidator.cpp:198-236 | an accepted plan's boundaries tile the block in index order, without gap or overlap |
| BlockPlan.ArrivalOrderIsIrrelevant | pkg/air/src/blockplan/BlockPlanValidator.cpp:202-213 | whatever order its segments arrive in |
| BlockPlan.ComputeJoinParameters | pkg/air/src/blockplan/BlockPlanValidator.cpp:264-330 | the loops compute the specified join |
| BlockPlan.FindSegmentForCT | pkg/air/src/blockplan/BlockPlanValidator.cpp:333-343 | the first boundary that holds the content time |
| BlockPlan.MidBlockJoinAgreesWithWalker | pkg/air/src/blockplan/BlockPlanValidator.cpp:289-319 | every mid-block join succeeds, in the segment and at the asset offset of the first segment the join-in-progress walker keeps |
| BlockPlan.MidBlockJoinShowsThePlan | pkg/air/src/blockplan/BlockPlanValidator.cpp:289-319 | so it shows what the plan shows at that time |
| BlockPlan.LateJoinIsRefused | pkg/air/src/blockplan/BlockPlanValidator.cpp:245-274 | a join at the end or later is stale |
| BlockPlan.EarlyJoinIsRightExactly | pkg/air/src/blockplan/BlockPlanValidator.cpp:282-287 | an early join waits for the start; its asset offset is right exactly when the segment that arrived first has the offset of the one with index 0 |
| BlockPlan.EarlyJoinCanBeWrong | pkg/air/src/blockplan/BlockPlanValidator.cpp:282-287 | an accepted plan for which it is not |

## Left out

- Decoding, scaling, encoding, muxing, sockets, gRPC transport, metrics and logging: foreign calls and I/O.
- Pixel and gain arithmetic, fades and fingerprints: a frame is an opaque value.
- Wall-clock waits, thread joins, the reaper and the emission gate: the clock does not appear, delays are arbitrary.
- The legacy channel path, the preloader and the scripts: thin wrappers.
- The bounded feed queue and the emitter's degraded flag: they would add easy members only.
- Recovery after a full spool: the emitter's sequence has already advanced, so the next append is a gap; the
  delivery machine has no refused appends.
- std::sort and RationalFps normalisation: sorting is specified, rates are given.
- Cadence.SnapIsExact: the comparison of a rate with a standard one is exact, where the code rounds it to a double.
- EvidenceTrail.Callbacks.BlockStarted: wall-clock times and UUIDs are not modelled; they only travel with the event.
- EvidenceTrail.Callbacks.SegmentStarted: neither are wall-clock times, asset frames and UUIDs.
- EvidenceTrail.Callbacks.BlockCompleted: neither are wall-clock times, asset frames and the early-exhaustion flag.
- Block takes inside the frame cascade: they reset the segment context and are covered as seams only.
- EvidenceSpool.Spool.constructor: a restart over an existing file is modelled, but its old records are not
  counted towards the ack cursor, as in the code; the byte statements therefore name the file found at the start.
- JoinInProgress.ComposeBlock: segment indices, identifiers and the alignment assertion on the block's start are not
  part of the model.
- VideoBuffer.StaleFrameExactly: fill phases, parking and the wait for space only decide when a thread pushes; the
  machine lets it push, skip a cycle or exit at any time. The session's stop signal is such an exit.
- RingBuffer.RunKeepsInv: weak memory is not modelled; a load sees the latest store.
