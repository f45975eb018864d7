/**
  The spool's line format: one evidence record per line of JSON text, printed and parsed by hand.

  The parsers advance a position through the line. Their meaning is given on the text that is
  still ahead of that position; the methods are the loops and are proved equal to it.
 */
module EvidenceCodec {
  import opened Common
  import opened JsonText

  datatype Record = Record(
    schemaVersion: Uint32,
    channelId: string,
    sessionId: string,
    sequence: Uint64,
    eventUuid: string,
    emittedUtc: string,
    payloadType: string,
    payload: string)

  // ---------------------------------------------------------------------------
  // Printing
  // ---------------------------------------------------------------------------

  function PutUint(key: string, n: nat, after: string): string {
    KeyPattern(key) + (Decimal(n) + after)
  }

  function PutText(key: string, s: string, after: string): string {
    TextPattern(key) + (Escape(s) + ("\"" + after))
  }

  function PayloadText(payload: string): string {
    if payload == "" || payload[0] != '{' then "{}" else payload
  }

  const PAYLOAD_KEY := "\"payload\":"

  /** The parts of a line, in their order. */
  datatype Part = Version | Channel | Session | Sequence | Uuid | Utc | Kind | Payload

  function Rank(f: Part): nat {
    match f
    case Version => 1
    case Channel => 2
    case Session => 3
    case Sequence => 4
    case Uuid => 5
    case Utc => 6
    case Kind => 7
    case Payload => 8
  }

  function Next(f: Part): (g: Part)
    requires !f.Payload?
    ensures Rank(g) == Rank(f) + 1
  {
    match f
    case Version => Channel
    case Channel => Session
    case Session => Sequence
    case Sequence => Uuid
    case Uuid => Utc
    case Utc => Kind
    case Kind => Payload
  }

  function Key(f: Part): string {
    match f
    case Version => "schema_version"
    case Channel => "channel_id"
    case Session => "playout_session_id"
    case Sequence => "sequence"
    case Uuid => "event_uuid"
    case Utc => "emitted_utc"
    case Kind => "payload_type"
    case Payload => "payload"
  }

  predicate IsNumber(f: Part) {
    f.Version? || f.Sequence?
  }

  predicate IsText(f: Part) {
    !IsNumber(f) && !f.Payload?
  }

  function NumberOf(m: Record, f: Part): Uint64
    requires IsNumber(f)
  {
    if f.Version? then m.schemaVersion else m.sequence
  }

  function TextOf(m: Record, f: Part): string
    requires IsText(f)
  {
    match f
    case Channel => m.channelId
    case Session => m.sessionId
    case Uuid => m.eventUuid
    case Utc => m.emittedUtc
    case Kind => m.payloadType
  }

  function WithNumber(m: Record, f: Part, n: Uint64): Record
    requires IsNumber(f) && (f.Version? ==> n <= MAX_UINT32)
  {
    if f.Version? then m.(schemaVersion := n) else m.(sequence := n)
  }

  function WithText(m: Record, f: Part, s: string): Record
    requires IsText(f)
  {
    match f
    case Channel => m.(channelId := s)
    case Session => m.(sessionId := s)
    case Uuid => m.(eventUuid := s)
    case Utc => m.(emittedUtc := s)
    case Kind => m.(payloadType := s)
  }

  function Lead(f: Part): char {
    if f.Version? then '{' else ','
  }

  /** A part and what follows it. */
  function Put(f: Part, m: Record, after: string): string
    requires !f.Payload?
  {
    if IsNumber(f) then PutUint(Key(f), NumberOf(m, f), after) else PutText(Key(f), TextOf(m, f), after)
  }

  /** The line from the character before a part on, up to what its last part is. */
  function On(f: Part, m: Record, tail: string): string
    decreases 8 - Rank(f)
  {
    if f.Payload? then "," + tail else [Lead(f)] + Put(f, m, On(Next(f), m, tail))
  }

  function Line(m: Record, tail: string): string {
    On(Version, m, tail)
  }

  function PayloadTail(m: Record): string {
    PAYLOAD_KEY + (PayloadText(m.payload) + "}")
  }

  function JsonLine(m: Record): string {
    Line(m, PayloadTail(m))
  }

  /** Appends a piece to what is printed so far; what is still to come shrinks by it. */
  method Emit(o: string, piece: string, ghost after: string, ghost whole: string) returns (r: string)
    requires whole == o + (piece + after)
    ensures r == o + piece && whole == r + after
  {
    r := o + piece;
    Regroup(o, piece, after);
  }

  method EmitUint(o: string, key: string, n: nat, ghost after: string, ghost whole: string) returns (r: string)
    requires whole == o + PutUint(key, n, after)
    ensures whole == r + after
  {
    r := Emit(o, KeyPattern(key), Decimal(n) + after, whole);
    r := Emit(r, Decimal(n), after, whole);
  }

  method EmitText(o: string, key: string, s: string, ghost after: string, ghost whole: string) returns (r: string)
    requires whole == o + PutText(key, s, after)
    ensures whole == r + after
  {
    r := Emit(o, TextPattern(key), Escape(s) + ("\"" + after), whole);
    var escaped := JsonEscape(s);
    r := Emit(r, escaped, "\"" + after, whole);
    r := Emit(r, "\"", after, whole);
  }

  /** One part: the brace or comma before it, its key and its value. */
  method EmitPart(o: string, f: Part, m: Record, ghost tail: string, ghost whole: string) returns (r: string)
    requires !f.Payload? && whole == o + On(f, m, tail)
    ensures whole == r + On(Next(f), m, tail)
  {
    ghost var after := On(Next(f), m, tail);
    r := Emit(o, [Lead(f)], Put(f, m, after), whole);
    if IsNumber(f) {
      r := EmitUint(r, Key(f), NumberOf(m, f), after, whole);
    } else {
      r := EmitText(r, Key(f), TextOf(m, f), after, whole);
    }
  }

  method ToJsonLine(m: Record) returns (o: string)
    ensures o == JsonLine(m)
  {
    ghost var whole, tail := JsonLine(m), PayloadTail(m);
    assert whole == "" + whole;
    o := EmitPart("", Version, m, tail, whole);
    o := EmitPart(o, Channel, m, tail, whole);
    o := EmitPart(o, Session, m, tail, whole);
    o := EmitPart(o, Sequence, m, tail, whole);
    o := EmitPart(o, Uuid, m, tail, whole);
    o := EmitPart(o, Utc, m, tail, whole);
    o := EmitPart(o, Kind, m, tail, whole);
    o := Emit(o, ",", tail, whole);
    o := Emit(o, PAYLOAD_KEY, PayloadText(m.payload) + "}", whole);
    if m.payload == "" || m.payload[0] != '{' {
      o := Emit(o, "{}", "}", whole);
    } else {
      o := Emit(o, m.payload, "}", whole);
    }
    o := Emit(o, "}", "", whole);
  }

  // ---------------------------------------------------------------------------
  // Parsing: what each parser means on the text ahead
  // ---------------------------------------------------------------------------

  predicate IsEscapeLetter(c: char) {
    c == '"' || c == '\\' || c == 'n' || c == 'r' || c == 't'
  }

  function EscapedBy(c: char): char
    requires IsEscapeLetter(c)
  {
    if c == 'n' then '\n' else if c == 'r' then '\r' else if c == 't' then '\t' else c
  }

  function Prepend(c: char, r: Scan<string>): Scan<string> {
    match r
    case Fail => Fail
    case Got(s, rest) => Got([c] + s, rest)
  }

  /** A string value up to its closing quote. */
  function ScanText(t: string): Scan<string>
    decreases |t|
  {
    if t == "" then Fail
    else if t[0] == '\\' && |t| > 1 && IsEscapeLetter(t[1]) then Prepend(EscapedBy(t[1]), ScanText(t[2..]))
    else if t[0] == '"' then Got("", t[1..])
    else Prepend(t[0], ScanText(t[1..]))
  }

  function TextValue(t: string, key: string): Scan<string> {
    match FindAfter(t, TextPattern(key))
    case None => Fail
    case Some(r) => ScanText(r)
  }

  predicate InNumberRun(c: char) {
    IsDigit(c) || c == ' '
  }

  function NumberRun(t: string): (s: string)
    ensures |s| <= |t|
  {
    if t == "" || !InNumberRun(t[0]) then "" else [t[0]] + NumberRun(t[1..])
  }

  function ScanUint64(t: string): Scan<Uint64> {
    match Stoull(NumberRun(t))
    case None => Fail
    case Some(v) => Got(v, t[|NumberRun(t)|..])
  }

  function Uint64Value(t: string, key: string): Scan<Uint64> {
    match FindAfter(t, KeyPattern(key))
    case None => Fail
    case Some(r) => ScanUint64(r)
  }

  function Uint32Value(t: string, key: string): Scan<Uint32> {
    match Uint64Value(t, key)
    case Fail => Fail
    case Got(v, r) => if v > MAX_UINT32 then Fail else Got(v, r)
  }

  /** Outside strings: braces change the depth, a quote opens a string; done at depth zero. */
  function Outside(t: string, depth: nat): Option<string>
    decreases |t|, 1
  {
    if depth == 0 then Some(t)
    else if t == "" then None
    else if t[0] == '{' then Outside(t[1..], depth + 1)
    else if t[0] == '}' then Outside(t[1..], depth - 1)
    else if t[0] == '"' then Inside(t[1..], '"', depth)
    else Outside(t[1..], depth)
  }

  /** Inside a string: it ends at the first quote whose previous character is not a backslash. */
  function Inside(t: string, previous: char, depth: nat): Option<string>
    decreases |t|, 0
  {
    if t == "" then None
    else if t[0] == '"' && previous != '\\' then Outside(t[1..], depth)
    else Inside(t[1..], t[0], depth)
  }

  function SkipBlanks(t: string): string {
    if t != "" && (t[0] == ' ' || t[0] == '\t') then SkipBlanks(t[1..]) else t
  }

  lemma OutsideIsSuffix(t: string, depth: nat)
    ensures Outside(t, depth).Some? ==>
            |Outside(t, depth).value| <= |t| && Outside(t, depth).value == t[|t| - |Outside(t, depth).value|..]
    decreases |t|, 1
  {
    if depth > 0 && t != "" {
      InsideIsSuffix(t[1..], '"', depth);
      OutsideIsSuffix(t[1..], depth + 1);
      OutsideIsSuffix(t[1..], depth - 1);
      OutsideIsSuffix(t[1..], depth);
    }
  }

  lemma InsideIsSuffix(t: string, previous: char, depth: nat)
    ensures Inside(t, previous, depth).Some? ==>
            |Inside(t, previous, depth).value| <= |t| &&
            Inside(t, previous, depth).value == t[|t| - |Inside(t, previous, depth).value|..]
    decreases |t|, 0
  {
    if t != "" {
      OutsideIsSuffix(t[1..], depth);
      InsideIsSuffix(t[1..], t[0], depth);
    }
  }

  /** An object from its opening brace to the matching one. */
  function ScanObject(t: string): Scan<string> {
    if t == "" || t[0] != '{' then Fail
    else
      match Outside(t[1..], 1)
      case None => Fail
      case Some(rest) =>
        OutsideIsSuffix(t[1..], 1);
        Got(t[..|t| - |rest|], rest)
  }

  function ObjectValue(t: string): Scan<string> {
    match FindAfter(t, PAYLOAD_KEY)
    case None => Fail
    case Some(r) => ScanObject(SkipBlanks(r))
  }

  /** From one part on: each fills in its field and leaves the rest of the line to the next one. */
  function Parse(f: Part, t: string, m: Record): Scan<Record>
    decreases 8 - Rank(f)
  {
    if f.Version? then
      match Uint32Value(t, Key(f))
      case Fail => Fail
      case Got(n, rest) => Parse(Next(f), rest, WithNumber(m, f, n))
    else if f.Sequence? then
      match Uint64Value(t, Key(f))
      case Fail => Fail
      case Got(n, rest) => Parse(Next(f), rest, WithNumber(m, f, n))
    else if f.Payload? then
      match ObjectValue(t)
      case Fail => Fail
      case Got(payload, rest) => Got(m.(payload := payload), rest)
    else
      match TextValue(t, Key(f))
      case Fail => Fail
      case Got(s, rest) => Parse(Next(f), rest, WithText(m, f, s))
  }

  const BLANK := Record(0, "", "", 0, "", "", "", "")

  function ParseRecord(t: string): Scan<Record> {
    Parse(Version, t, BLANK)
  }

  function FromJsonLine(line: string): Option<Record> {
    if line == "" || line[0] != '{' || line[|line| - 1] != '}' then None
    else
      match ParseRecord(line)
      case Fail => None
      case Got(m, _) => Some(m)
  }

  // ---------------------------------------------------------------------------
  // Parsing: the loops
  // ---------------------------------------------------------------------------

  /** The text from a position is a parser's remainder; a failed parser stays where it was. */
  ghost function Outcome<T>(ok: bool, value: T, line: string, next: nat): Scan<T>
    requires next <= |line|
  {
    if ok then Got(value, line[next..]) else Fail
  }

  method ReadText(line: string, start: nat) returns (ok: bool, next: nat, out: string)
    requires start <= |line|
    ensures next <= |line| && ScanText(line[start..]) == Outcome(ok, out, line, next)
  {
    ghost var wanted := ScanText(line[start..]);
    ok, next, out := false, start, "";
    var i := start;
    assert wanted.Got? ==> "" + wanted.value == wanted.value;
    while i < |line|
      invariant start <= i <= |line| && !ok && next == start
      invariant wanted == Concat(out, ScanText(line[i..]))
    {
      assert line[i..][1..] == line[i + 1..];
      if line[i] == '\\' && i + 1 < |line| && IsEscapeLetter(line[i + 1]) {
        assert line[i..][2..] == line[i + 2..];
        ConcatStep(out, EscapedBy(line[i + 1]), ScanText(line[i + 2..]));
        out := out + [EscapedBy(line[i + 1])];
        i := i + 2;
        continue;
      }
      if line[i] == '"' {
        assert out + "" == out;
        return true, i + 1, out;
      }
      ConcatStep(out, line[i], ScanText(line[i + 1..]));
      out := out + [line[i]];
      i := i + 1;
    }
  }

  method ParseJsonStringValue(line: string, key: string, pos: nat) returns (ok: bool, next: nat, out: string)
    requires pos <= |line|
    ensures next <= |line| && TextValue(line[pos..], key) == Outcome(ok, out, line, next)
  {
    var search := TextPattern(key);
    match Find(line[pos..], search) {
      case None => return false, pos, "";
      case Some(at) =>
        assert line[pos..][at + |search|..] == line[pos + at + |search|..];
        ok, next, out := ReadText(line, pos + at + |search|);
    }
  }

  ghost function Concat(out: string, r: Scan<string>): Scan<string> {
    match r
    case Fail => Fail
    case Got(s, rest) => Got(out + s, rest)
  }

  lemma ConcatStep(out: string, c: char, r: Scan<string>)
    ensures Concat(out, Prepend(c, r)) == Concat(out + [c], r)
  {
    if r.Got? {
      assert out + ([c] + r.value) == (out + [c]) + r.value;
    }
  }

  method SkipNumberRun(line: string, start: nat) returns (end: nat)
    requires start <= |line|
    ensures start <= end <= |line| && NumberRun(line[start..]) == line[start..end]
  {
    end := start;
    while end < |line| && InNumberRun(line[end])
      invariant start <= end <= |line|
      invariant NumberRun(line[start..]) == line[start..end] + NumberRun(line[end..])
    {
      assert line[end..][1..] == line[end + 1..];
      assert line[start..end + 1] == line[start..end] + [line[end]];
      Regroup(line[start..end], [line[end]], NumberRun(line[end + 1..]));
      end := end + 1;
    }
    assert NumberRun(line[end..]) == "";
  }

  method ReadUint64(line: string, start: nat) returns (ok: bool, next: nat, out: Uint64)
    requires start <= |line|
    ensures next <= |line| && ScanUint64(line[start..]) == Outcome(ok, out, line, next)
  {
    var end := SkipNumberRun(line, start);
    assert line[start..][end - start..] == line[end..];
    var value := Stoull(line[start..end]);
    if end == start || value.None? {
      return false, start, 0;
    }
    return true, end, value.value;
  }

  method ParseJsonUint64Value(line: string, key: string, pos: nat) returns (ok: bool, next: nat, out: Uint64)
    requires pos <= |line|
    ensures next <= |line| && Uint64Value(line[pos..], key) == Outcome(ok, out, line, next)
  {
    var search := KeyPattern(key);
    match Find(line[pos..], search) {
      case None => return false, pos, 0;
      case Some(at) =>
        assert line[pos..][at + |search|..] == line[pos + at + |search|..];
        ok, next, out := ReadUint64(line, pos + at + |search|);
    }
  }

  method ParseJsonUint32Value(line: string, key: string, pos: nat) returns (ok: bool, next: nat, out: Uint32)
    requires pos <= |line|
    ensures next <= |line| && Uint32Value(line[pos..], key) == Outcome(ok, out, line, next)
  {
    var v;
    ok, next, v := ParseJsonUint64Value(line, key, pos);
    if !ok || v > MAX_UINT32 {
      return false, next, 0;
    }
    out := v;
  }

  /** From just after a string's opening quote to just after the quote that ends it. */
  method SkipString(line: string, from: nat, depth: nat) returns (i: nat)
    requires 0 < from <= |line|
    ensures from < i <= |line| + 1
    ensures Inside(line[from..], line[from - 1], depth) == if i <= |line| then Outside(line[i..], depth) else None
  {
    i := from;
    while i < |line| && (line[i] != '"' || line[i - 1] == '\\')
      invariant from <= i <= |line|
      invariant Inside(line[from..], line[from - 1], depth) == Inside(line[i..], line[i - 1], depth)
    {
      assert line[i..][1..] == line[i + 1..];
      i := i + 1;
    }
    assert i < |line| ==> line[i..][1..] == line[i + 1..];
    i := i + 1;
  }

  method MatchBraces(line: string, from: nat) returns (ok: bool, i: nat)
    requires from <= |line|
    ensures ok ==> from <= i <= |line|
    ensures Outside(line[from..], 1) == if ok then Some(line[i..]) else None
  {
    var depth := 1;
    i := from;
    while i < |line| && depth > 0
      invariant from <= i && depth >= 0
      invariant Outside(line[from..], 1) == if i <= |line| then Outside(line[i..], depth) else None
      invariant i > |line| ==> depth > 0
      decreases |line| - i
    {
      assert line[i..][1..] == line[i + 1..];
      if line[i] == '"' {
        i := SkipString(line, i + 1, depth);
      } else {
        if line[i] == '{' {
          depth := depth + 1;
        } else if line[i] == '}' {
          depth := depth - 1;
        }
        i := i + 1;
      }
    }
    ok := depth == 0;
  }

  method ParsePayloadObject(line: string, pos: nat) returns (ok: bool, next: nat, out: string)
    requires pos <= |line|
    ensures next <= |line| && ObjectValue(line[pos..]) == Outcome(ok, out, line, next)
  {
    ok, next, out := false, pos, "";
    match Find(line[pos..], PAYLOAD_KEY) {
      case None =>
      case Some(at) =>
        var start := pos + at + |PAYLOAD_KEY|;
        assert line[pos..][at + |PAYLOAD_KEY|..] == line[start..];
        ghost var r := line[start..];
        while start < |line| && (line[start] == ' ' || line[start] == '\t')
          invariant start <= |line|
          invariant SkipBlanks(r) == SkipBlanks(line[start..])
        {
          assert line[start..][1..] == line[start + 1..];
          start := start + 1;
        }
        assert SkipBlanks(r) == line[start..];
        if start >= |line| || line[start] != '{' {
          return;
        }
        assert line[start..][1..] == line[start + 1..];
        var closed, end := MatchBraces(line, start + 1);
        if closed {
          ok, next, out := true, end, line[start..end];
          assert line[start..][..end - start] == out;
        }
    }
  }

  method ParseJsonBody(line: string, from: nat, header: Record) returns (ok: bool, next: nat, m: Record)
    requires from <= |line|
    ensures next <= |line| && Parse(Uuid, line[from..], header) == Outcome(ok, m, line, next)
  {
    m := header;
    var uuid, utc, kind, payload;
    ok, next, uuid := ParseJsonStringValue(line, "event_uuid", from);
    if !ok { return; }
    m := m.(eventUuid := uuid);
    ok, next, utc := ParseJsonStringValue(line, "emitted_utc", next);
    if !ok { return; }
    m := m.(emittedUtc := utc);
    ok, next, kind := ParseJsonStringValue(line, "payload_type", next);
    if !ok { return; }
    m := m.(payloadType := kind);
    ok, next, payload := ParsePayloadObject(line, next);
    if !ok { return; }
    m := m.(payload := payload);
  }

  method ParseJsonHeader(line: string, from: nat) returns (ok: bool, next: nat, m: Record)
    requires from <= |line|
    ensures next <= |line| && ParseRecord(line[from..]) == Outcome(ok, m, line, next)
  {
    m := BLANK;
    var version, channel, session, sequence;
    ok, next, version := ParseJsonUint32Value(line, "schema_version", from);
    if !ok { return; }
    m := m.(schemaVersion := version);
    ok, next, channel := ParseJsonStringValue(line, "channel_id", next);
    if !ok { return; }
    m := m.(channelId := channel);
    ok, next, session := ParseJsonStringValue(line, "playout_session_id", next);
    if !ok { return; }
    m := m.(sessionId := session);
    ok, next, sequence := ParseJsonUint64Value(line, "sequence", next);
    if !ok { return; }
    ok, next, m := ParseJsonBody(line, next, m.(sequence := sequence));
  }

  method ParseJsonLine(line: string) returns (r: Option<Record>)
    ensures r == FromJsonLine(line)
  {
    if line == "" || line[0] != '{' || line[|line| - 1] != '}' {
      return None;
    }
    assert line[0..] == line;
    var ok, _, m := ParseJsonHeader(line, 0);
    return if ok then Some(m) else None;
  }
}
