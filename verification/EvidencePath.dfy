/**
  From the emitter to Core: printed, spooled, replayed after a crash and rebuilt as a wire message,
  or sent at once.
 */
module EvidencePath {
  import opened Common
  import opened JsonText
  import opened EvidenceCodec
  import opened EvidenceRoundTrip
  import opened EvidenceSpool
  import opened SpoolCrash
  import opened PayloadExtract
  import opened EvidenceMessages

  predicate NoTrailingBackslash(values: seq<Json>) {
    forall i :: 0 <= i < |values| ==> Matchable(values[i])
  }

  lemma {:induction false} BuiltIsMatchable(keys: seq<string>, values: seq<Json>)
    requires |keys| == |values| && DistinctNames(keys) && NoTrailingBackslash(values)
    requires forall i :: 0 <= i < |values| ==> !values[i].Object?
    ensures NamedFieldKeys(Build(keys, values)) && MatchableFields(Build(keys, values))
  {
    if keys != [] {
      BuiltIsMatchable(keys[1..], values[1..]);
    }
  }

  /**
    A record that went through the spool gives Core the same message as the one sent live, and both
    carry the payload's fields, as long as no text of the payload ends in a backslash.
   */
  lemma ReplayedAsSent(m: Record, p: Payload)
    requires m.payload == PayloadJson(p) && m.payloadType == PayloadType(p) && NoTrailingBackslash(Values(p))
    ensures Readable(m) && FromJsonLine(JsonLine(m)) == Some(m)
    ensures ToProto(m.payloadType, m.payload) == Body(p)
  {
    KeysAreDistinctNames(p);
    BuiltIsMatchable(Keys(p), Values(p));
    ObjectPayloadIsReadable(m, PayloadFields(p));
    RoundTripIsExact(m);
    EveryPayloadArrives(p);
  }
}
