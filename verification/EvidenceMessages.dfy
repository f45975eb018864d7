/**
  The five evidence payloads: how the emitter prints them, and the wire message the delivery client
  rebuilds from the printed text.
 */
module EvidenceMessages {
  import opened Common
  import opened JsonText
  import opened PayloadExtract

  datatype Payload =
    | BlockStart(blockId: string, swapTick: Uint64, startUtcMs: Int64, primed: bool)
    | SegmentStart(blockId: string, eventId: string, segmentIndex: Int32, startUtcMs: Int64,
                   assetStartFrame: Int64, scheduledDurationMs: Int64, joinInProgress: bool,
                   segmentUuid: string, assetUuid: string, segmentType: string)
    | SegmentEnd(blockId: string, eventIdRef: string, startUtcMs: Int64, endUtcMs: Int64,
                 assetStartFrame: Int64, assetEndFrame: Int64, durationMs: Int64, durationFrames: Int64,
                 status: string, reason: string, fallbackFrames: Uint64,
                 segmentUuid: string, segmentTypeName: string, assetUuid: string)
    | BlockFence(blockId: string, swapTick: Uint64, fenceTick: Uint64, endUtcMs: Int64, ctAtFenceMs: Uint64,
                 totalFrames: Uint64, truncated: bool, earlyExhaustion: bool, primed: bool)
    | ChannelTerminated(terminationUtcMs: Int64, reason: string, detail: string)

  // ---------------------------------------------------------------------------
  // Printing
  // ---------------------------------------------------------------------------

  const BLOCK_START_KEYS := ["block_id", "swap_tick", "actual_start_utc_ms", "primed_success"]
  const SEGMENT_START_KEYS := ["block_id", "event_id", "segment_index", "actual_start_utc_ms", "asset_start_frame",
                               "scheduled_duration_ms", "join_in_progress", "segment_uuid", "asset_uuid",
                               "segment_type"]
  const SEGMENT_END_KEYS := ["block_id", "event_id_ref", "actual_start_utc_ms", "actual_end_utc_ms",
                             "asset_start_frame", "asset_end_frame", "computed_duration_ms",
                             "computed_duration_frames", "status", "reason", "fallback_frames_used",
                             "segment_uuid", "segment_type_name", "asset_uuid"]
  const BLOCK_FENCE_KEYS := ["block_id", "swap_tick", "fence_tick", "actual_end_utc_ms", "ct_at_fence_ms",
                             "total_frames_emitted", "truncated_by_fence", "early_exhaustion", "primed_success"]
  const CHANNEL_TERMINATED_KEYS := ["termination_utc_ms", "reason", "detail"]

  function Keys(p: Payload): seq<string> {
    match p
    case BlockStart(_, _, _, _) => BLOCK_START_KEYS
    case SegmentStart(_, _, _, _, _, _, _, _, _, _) => SEGMENT_START_KEYS
    case SegmentEnd(_, _, _, _, _, _, _, _, _, _, _, _, _, _) => SEGMENT_END_KEYS
    case BlockFence(_, _, _, _, _, _, _, _, _) => BLOCK_FENCE_KEYS
    case ChannelTerminated(_, _, _) => CHANNEL_TERMINATED_KEYS
  }

  function Values(p: Payload): (values: seq<Json>)
    ensures |values| == |Keys(p)|
    ensures forall i :: 0 <= i < |values| ==> !values[i].Object?
  {
    match p
    case BlockStart(blockId, swapTick, start, primed) => [Text(blockId), Number(swapTick), Number(start), Flag(primed)]
    case SegmentStart(blockId, eventId, index, start, frame, duration, join, uuid, asset, kind) =>
      [Text(blockId), Text(eventId), Number(index), Number(start), Number(frame), Number(duration), Flag(join),
       Text(uuid), Text(asset), Text(kind)]
    case SegmentEnd(blockId, ref, start, end, first, last, ms, frames, status, reason, fallback, uuid, kind, asset) =>
      [Text(blockId), Text(ref), Number(start), Number(end), Number(first), Number(last), Number(ms), Number(frames),
       Text(status), Text(reason), Number(fallback), Text(uuid), Text(kind), Text(asset)]
    case BlockFence(blockId, swapTick, fence, end, ct, total, truncated, early, primed) =>
      [Text(blockId), Number(swapTick), Number(fence), Number(end), Number(ct), Number(total), Flag(truncated),
       Flag(early), Flag(primed)]
    case ChannelTerminated(utc, reason, detail) => [Number(utc), Text(reason), Text(detail)]
  }

  function Build(keys: seq<string>, values: seq<Json>): Fields
    requires |keys| == |values|
  {
    if keys == [] then NoFields else Field(keys[0], values[0], Build(keys[1..], values[1..]))
  }

  function PayloadFields(p: Payload): Fields {
    Build(Keys(p), Values(p))
  }

  function PayloadJson(p: Payload): string {
    Print(Object(PayloadFields(p)))
  }

  // ---------------------------------------------------------------------------
  // The wire message
  // ---------------------------------------------------------------------------

  datatype Message =
    | NoBody
    | BlockStartBody(blockId: string, swapTick: Uint64, fenceTick: Uint64, startUtcMs: Int64, primed: bool)
    | SegmentStartBody(blockId: string, eventId: string, segmentIndex: Int32, startUtcMs: Int64,
                       assetStartFrame: Int64, scheduledDurationMs: Int64, joinInProgress: bool)
    | SegmentEndBody(blockId: string, eventIdRef: string, startUtcMs: Int64, endUtcMs: Int64,
                     assetStartFrame: Int64, assetEndFrame: Int64, durationMs: Int64, durationFrames: Int64,
                     status: string, reason: string, fallbackFrames: Uint64)
    | BlockFenceBody(blockId: string, swapTick: Uint64, fenceTick: Uint64, endUtcMs: Int64, ctAtFenceMs: Uint64,
                     totalFrames: Uint64, truncated: bool, earlyExhaustion: bool, primed: bool)
    | ChannelTerminatedBody(terminationUtcMs: Int64, reason: string, detail: string)

  /** A field that is not found keeps the message's default. */
  function StringOf(json: string, key: string): string {
    var r := ExtractString(json, key);
    if r.Some? then r.value else ""
  }

  function Int64Of(json: string, key: string): Int64 {
    var r := ExtractInt64(json, key);
    if r.Some? then r.value else 0
  }

  function Int32Of(json: string, key: string): Int32 {
    var r := ExtractInt32(json, key);
    if r.Some? then r.value else 0
  }

  function Uint64Of(json: string, key: string): Uint64 {
    var r := ExtractUint64(json, key);
    if r.Some? then r.value else 0
  }

  function BoolOf(json: string, key: string): bool {
    var r := ExtractBool(json, key);
    r.Some? && r.value
  }

  function PayloadType(p: Payload): string {
    match p
    case BlockStart(_, _, _, _) => "BLOCK_START"
    case SegmentStart(_, _, _, _, _, _, _, _, _, _) => "SEGMENT_START"
    case SegmentEnd(_, _, _, _, _, _, _, _, _, _, _, _, _, _) => "SEGMENT_END"
    case BlockFence(_, _, _, _, _, _, _, _, _) => "BLOCK_FENCE"
    case ChannelTerminated(_, _, _) => "CHANNEL_TERMINATED"
  }

  function ToProto(payloadType: string, j: string): Message {
    if payloadType == "BLOCK_START" then ReadBlockStart(j)
    else if payloadType == "SEGMENT_START" then ReadSegmentStart(j)
    else if payloadType == "SEGMENT_END" then ReadSegmentEnd(j)
    else if payloadType == "BLOCK_FENCE" then ReadBlockFence(j)
    else if payloadType == "CHANNEL_TERMINATED" then ReadChannelTerminated(j)
    else NoBody
  }

  function ReadBlockStart(j: string): Message {
    BlockStartBody(StringOf(j, "block_id"), Uint64Of(j, "swap_tick"), Uint64Of(j, "fence_tick"),
                   Int64Of(j, "actual_start_utc_ms"), BoolOf(j, "primed_success"))
  }

  function ReadSegmentStart(j: string): Message {
    SegmentStartBody(StringOf(j, "block_id"), StringOf(j, "event_id"), Int32Of(j, "segment_index"),
                     Int64Of(j, "actual_start_utc_ms"), Int64Of(j, "asset_start_frame"),
                     Int64Of(j, "scheduled_duration_ms"), BoolOf(j, "join_in_progress"))
  }

  function ReadSegmentEnd(j: string): Message {
    SegmentEndBody(StringOf(j, "block_id"), StringOf(j, "event_id_ref"), Int64Of(j, "actual_start_utc_ms"),
                   Int64Of(j, "actual_end_utc_ms"), Int64Of(j, "asset_start_frame"), Int64Of(j, "asset_end_frame"),
                   Int64Of(j, "computed_duration_ms"), Int64Of(j, "computed_duration_frames"),
                   StringOf(j, "status"), StringOf(j, "reason"), Uint64Of(j, "fallback_frames_used"))
  }

  function ReadBlockFence(j: string): Message {
    BlockFenceBody(StringOf(j, "block_id"), Uint64Of(j, "swap_tick"), Uint64Of(j, "fence_tick"),
                   Int64Of(j, "actual_end_utc_ms"), Uint64Of(j, "ct_at_fence_ms"), Uint64Of(j, "total_frames_emitted"),
                   BoolOf(j, "truncated_by_fence"), BoolOf(j, "early_exhaustion"), BoolOf(j, "primed_success"))
  }

  function ReadChannelTerminated(j: string): Message {
    ChannelTerminatedBody(Int64Of(j, "termination_utc_ms"), StringOf(j, "reason"), StringOf(j, "detail"))
  }

  // ---------------------------------------------------------------------------
  // Looking a field up
  // ---------------------------------------------------------------------------

  ghost predicate DistinctNames(keys: seq<string>) {
    && (forall i :: 0 <= i < |keys| ==> IsName(keys[i]))
    && (forall i, j :: 0 <= i < j < |keys| ==> keys[i] != keys[j])
  }

  lemma IdentityNames()
    ensures IsName("block_id") && IsName("event_id") && IsName("event_id_ref")
    ensures IsName("segment_uuid") && IsName("asset_uuid")
    ensures IsName("status") && IsName("reason") && IsName("detail")
  {
  }

  lemma TypeNames()
    ensures IsName("segment_type") && IsName("segment_type_name") && IsName("segment_index")
    ensures IsName("join_in_progress") && IsName("primed_success")
  {
  }

  lemma FlagNames()
    ensures IsName("truncated_by_fence") && IsName("early_exhaustion")
    ensures IsName("swap_tick") && IsName("fence_tick")
  {
  }

  lemma TimeNames()
    ensures IsName("actual_start_utc_ms") && IsName("actual_end_utc_ms") && IsName("termination_utc_ms")
    ensures IsName("scheduled_duration_ms") && IsName("ct_at_fence_ms")
  {
  }

  lemma FrameNames()
    ensures IsName("asset_start_frame") && IsName("asset_end_frame") && IsName("total_frames_emitted")
    ensures IsName("fallback_frames_used")
  {
  }

  lemma DurationNames()
    ensures IsName("computed_duration_ms") && IsName("computed_duration_frames")
  {
  }

  lemma SegmentKeysAreDistinctNames()
    ensures DistinctNames(SEGMENT_START_KEYS) && DistinctNames(SEGMENT_END_KEYS)
  {
    IdentityNames();
    TypeNames();
    TimeNames();
    FrameNames();
    DurationNames();
  }

  lemma BlockKeysAreDistinctNames()
    ensures DistinctNames(BLOCK_START_KEYS) && DistinctNames(BLOCK_FENCE_KEYS)
    ensures DistinctNames(CHANNEL_TERMINATED_KEYS)
  {
    IdentityNames();
    TypeNames();
    FlagNames();
    TimeNames();
    FrameNames();
  }

  lemma KeysAreDistinctNames(p: Payload)
    ensures DistinctNames(Keys(p))
  {
    SegmentKeysAreDistinctNames();
    BlockKeysAreDistinctNames();
  }

  lemma {:induction false} BuiltIsFlat(keys: seq<string>, values: seq<Json>)
    requires |keys| == |values| && DistinctNames(keys)
    requires forall i :: 0 <= i < |values| ==> !values[i].Object?
    ensures Flat(Build(keys, values))
  {
    if keys != [] {
      BuiltIsFlat(keys[1..], values[1..]);
    }
  }

  lemma {:induction false} NamedAt(keys: seq<string>, values: seq<Json>, i: nat)
    requires |keys| == |values| && i < |keys| && DistinctNames(keys)
    ensures var g := Named(Build(keys, values), keys[i]); g.Field? && g.value == values[i]
  {
    if i > 0 {
      NamedAt(keys[1..], values[1..], i - 1);
    }
  }

  lemma {:induction false} NotNamed(keys: seq<string>, values: seq<Json>, key: string)
    requires |keys| == |values| && key !in keys
    ensures Named(Build(keys, values), key).NoFields?
  {
    if keys != [] {
      NotNamed(keys[1..], values[1..], key);
    }
  }

  lemma FieldAt(p: Payload, i: nat)
    requires i < |Keys(p)|
    ensures Flat(PayloadFields(p)) && IsName(Keys(p)[i])
    ensures Named(PayloadFields(p), Keys(p)[i]).Field? && Named(PayloadFields(p), Keys(p)[i]).value == Values(p)[i]
  {
    KeysAreDistinctNames(p);
    BuiltIsFlat(Keys(p), Values(p));
    NamedAt(Keys(p), Values(p), i);
  }

  lemma TextAt(p: Payload, i: nat)
    requires i < |Keys(p)| && Values(p)[i].Text?
    ensures StringOf(PayloadJson(p), Keys(p)[i]) == Restored(Values(p)[i].s)
  {
    FieldAt(p, i);
    TextComesBack(PayloadFields(p), Keys(p)[i]);
  }

  /** The least 64-bit number is not read; the field keeps its default. */
  function Arrived(n: Int64): Int64 {
    if n == MIN_INT64 then 0 else n
  }

  lemma Int64At(p: Payload, i: nat)
    requires i < |Keys(p)| && Values(p)[i].Number? && MIN_INT64 <= Values(p)[i].n <= MAX_INT64
    ensures Int64Of(PayloadJson(p), Keys(p)[i]) == Arrived(Values(p)[i].n)
  {
    FieldAt(p, i);
    Int64ComesBack(PayloadFields(p), Keys(p)[i]);
  }

  lemma Int32At(p: Payload, i: nat)
    requires i < |Keys(p)| && Values(p)[i].Number? && -0x8000_0000 <= Values(p)[i].n <= 0x7FFF_FFFF
    ensures Int32Of(PayloadJson(p), Keys(p)[i]) == Values(p)[i].n
  {
    FieldAt(p, i);
    Int32ComesBack(PayloadFields(p), Keys(p)[i]);
  }

  lemma Uint64At(p: Payload, i: nat)
    requires i < |Keys(p)| && Values(p)[i].Number? && 0 <= Values(p)[i].n <= MAX_UINT64
    ensures Uint64Of(PayloadJson(p), Keys(p)[i]) == Values(p)[i].n
  {
    FieldAt(p, i);
    Uint64ComesBack(PayloadFields(p), Keys(p)[i]);
  }

  lemma BoolAt(p: Payload, i: nat)
    requires i < |Keys(p)| && Values(p)[i].Flag?
    ensures BoolOf(PayloadJson(p), Keys(p)[i]) == Values(p)[i].b
  {
    FieldAt(p, i);
    BoolComesBack(PayloadFields(p), Keys(p)[i]);
  }

  // ---------------------------------------------------------------------------
  // Every message carries what was emitted
  // ---------------------------------------------------------------------------

  /** The wire message that carries what the client looks up of a payload. */
  function Body(p: Payload): Message {
    match p
    case BlockStart(blockId, swapTick, start, primed) =>
      BlockStartBody(Restored(blockId), swapTick, 0, Arrived(start), primed)
    case SegmentStart(blockId, eventId, index, start, frame, duration, join, _, _, _) =>
      SegmentStartBody(Restored(blockId), Restored(eventId), index, Arrived(start), Arrived(frame),
                       Arrived(duration), join)
    case SegmentEnd(blockId, ref, start, end, first, last, ms, frames, status, reason, fallback, _, _, _) =>
      SegmentEndBody(Restored(blockId), Restored(ref), Arrived(start), Arrived(end), Arrived(first), Arrived(last),
                     Arrived(ms), Arrived(frames), Restored(status), Restored(reason), fallback)
    case BlockFence(blockId, swapTick, fence, end, ct, total, truncated, early, primed) =>
      BlockFenceBody(Restored(blockId), swapTick, fence, Arrived(end), ct, total, truncated, early, primed)
    case ChannelTerminated(utc, reason, detail) =>
      ChannelTerminatedBody(Arrived(utc), Restored(reason), Restored(detail))
  }

  /** A block's start never carries a fence tick: the client looks one up, the emitter prints none. */
  lemma BlockStartArrives(p: Payload)
    requires p.BlockStart?
    ensures ReadBlockStart(PayloadJson(p)) == Body(p)
  {
    TextAt(p, 0);
    Uint64At(p, 1);
    Int64At(p, 2);
    BoolAt(p, 3);
    NoFenceTick(p);
  }

  lemma NoFenceTick(p: Payload)
    requires p.BlockStart?
    ensures Uint64Of(PayloadJson(p), "fence_tick") == 0
  {
    FlagNames();
    FieldAt(p, 0);
    assert "fence_tick" !in BLOCK_START_KEYS;
    NotNamed(Keys(p), Values(p), "fence_tick");
    AbsentKeyIsNotFound(PayloadFields(p), "fence_tick");
  }

  lemma SegmentStartArrives(p: Payload)
    requires p.SegmentStart?
    ensures ReadSegmentStart(PayloadJson(p)) == Body(p)
  {
    TextAt(p, 0);
    TextAt(p, 1);
    Int32At(p, 2);
    Int64At(p, 3);
    Int64At(p, 4);
    Int64At(p, 5);
    BoolAt(p, 6);
  }

  lemma SegmentEndArrives(p: Payload)
    requires p.SegmentEnd?
    ensures ReadSegmentEnd(PayloadJson(p)) == Body(p)
  {
    SegmentEndNumbersArrive(p);
    TextAt(p, 0);
    TextAt(p, 1);
    TextAt(p, 8);
    TextAt(p, 9);
    Uint64At(p, 10);
  }

  lemma SegmentEndNumbersArrive(p: Payload)
    requires p.SegmentEnd?
    ensures var j := PayloadJson(p);
            && Int64Of(j, "actual_start_utc_ms") == Arrived(p.startUtcMs)
            && Int64Of(j, "actual_end_utc_ms") == Arrived(p.endUtcMs)
            && Int64Of(j, "asset_start_frame") == Arrived(p.assetStartFrame)
            && Int64Of(j, "asset_end_frame") == Arrived(p.assetEndFrame)
            && Int64Of(j, "computed_duration_ms") == Arrived(p.durationMs)
            && Int64Of(j, "computed_duration_frames") == Arrived(p.durationFrames)
  {
    Int64At(p, 2);
    Int64At(p, 3);
    Int64At(p, 4);
    Int64At(p, 5);
    Int64At(p, 6);
    Int64At(p, 7);
  }

  lemma BlockFenceArrives(p: Payload)
    requires p.BlockFence?
    ensures ReadBlockFence(PayloadJson(p)) == Body(p)
  {
    TextAt(p, 0);
    Uint64At(p, 1);
    Uint64At(p, 2);
    Int64At(p, 3);
    Uint64At(p, 4);
    Uint64At(p, 5);
    BoolAt(p, 6);
    BoolAt(p, 7);
    BoolAt(p, 8);
  }

  lemma ChannelTerminatedArrives(p: Payload)
    requires p.ChannelTerminated?
    ensures ReadChannelTerminated(PayloadJson(p)) == Body(p)
  {
    Int64At(p, 0);
    TextAt(p, 1);
    TextAt(p, 2);
  }

  function ReadAs(p: Payload, j: string): Message {
    match p
    case BlockStart(_, _, _, _) => ReadBlockStart(j)
    case SegmentStart(_, _, _, _, _, _, _, _, _, _) => ReadSegmentStart(j)
    case SegmentEnd(_, _, _, _, _, _, _, _, _, _, _, _, _, _) => ReadSegmentEnd(j)
    case BlockFence(_, _, _, _, _, _, _, _, _) => ReadBlockFence(j)
    case ChannelTerminated(_, _, _) => ReadChannelTerminated(j)
  }

  lemma DispatchFollowsType(p: Payload, j: string)
    ensures ToProto(PayloadType(p), j) == ReadAs(p, j)
  {
  }

  /**
    Every payload, whatever its strings hold, reaches Core field by field: texts with their carriage
    returns and tabs still escaped, numbers and flags as they were.
   */
  lemma EveryPayloadArrives(p: Payload)
    ensures ToProto(PayloadType(p), PayloadJson(p)) == Body(p)
  {
    DispatchFollowsType(p, PayloadJson(p));
    match p
    case BlockStart(_, _, _, _) => BlockStartArrives(p);
    case SegmentStart(_, _, _, _, _, _, _, _, _, _) => SegmentStartArrives(p);
    case SegmentEnd(_, _, _, _, _, _, _, _, _, _, _, _, _, _) => SegmentEndArrives(p);
    case BlockFence(_, _, _, _, _, _, _, _, _) => BlockFenceArrives(p);
    case ChannelTerminated(_, _, _) => ChannelTerminatedArrives(p);
  }
}
