/**
  What a reader of the spool gets back from a printed line.

  The header fields are recovered whatever they contain. The payload is copied to the line as it
  is and found again by matching braces, with a test for escaped quotes that looks one character
  back; it is recovered exactly when that matching closes at the payload's own end.
 */
module EvidenceRoundTrip {
  import opened Common
  import opened JsonText
  import opened EvidenceCodec

  // ---------------------------------------------------------------------------
  // Values
  // ---------------------------------------------------------------------------

  lemma ScanEscapedChar(c: char, later: string)
    ensures ScanText(EscapeChar(c) + later) == Prepend(c, ScanText(later))
  {
    var t := EscapeChar(c) + later;
    if |EscapeChar(c)| == 2 {
      assert t[2..] == later && IsEscapeLetter(t[1]) && EscapedBy(t[1]) == c;
    } else {
      assert t[1..] == later;
    }
  }

  lemma {:induction false} ScanTextEscaped(s: string, r: string)
    ensures ScanText(Escape(s) + ("\"" + r)) == Got(s, r)
  {
    if s == "" {
      var t := "\"" + r;
      assert Escape(s) + t == t && t[1..] == r;
    } else {
      ScanTextEscaped(s[1..], r);
      Regroup(EscapeChar(s[0]), Escape(s[1..]), "\"" + r);
      ScanEscapedChar(s[0], Escape(s[1..]) + ("\"" + r));
      assert [s[0]] + s[1..] == s;
    }
  }

  lemma TextReadsBack(c: char, key: string, s: string, after: string)
    requires c != '"'
    ensures TextValue([c] + PutText(key, s, after), key) == Got(s, after)
  {
    FindNext(c, TextPattern(key), Escape(s) + ("\"" + after));
    ScanTextEscaped(s, after);
  }

  lemma {:induction false} NumberRunOfDigits(d: string, r: string)
    requires AllDigits(d) && (r == "" || !InNumberRun(r[0]))
    ensures NumberRun(d + r) == d
  {
    if d == "" {
      assert d + r == r;
    } else {
      assert (d + r)[1..] == d[1..] + r;
      NumberRunOfDigits(d[1..], r);
    }
  }

  lemma UintReadsBack(c: char, key: string, n: Uint64, after: string)
    requires c != '"' && after != "" && !InNumberRun(after[0])
    ensures Uint64Value([c] + PutUint(key, n, after), key) == Got(n, after)
  {
    var d := Decimal(n);
    FindNext(c, KeyPattern(key), d + after);
    NumberRunOfDigits(d, after);
    assert d + "" == d;
    StoullOfDigits(d, "");
    DecimalRoundTrip(n);
    assert (d + after)[|d|..] == after;
  }

  // ---------------------------------------------------------------------------
  // Whole lines
  // ---------------------------------------------------------------------------

  function WithPayload(m: Record, r: Scan<string>): Scan<Record> {
    match r
    case Fail => Fail
    case Got(payload, rest) => Got(m.(payload := payload), rest)
  }

  /** The fields before a part from the first record, those from it on from the second. */
  function Joined(first: Record, second: Record, f: Part): Record {
    var r := Rank(f);
    Record(if r > 1 then first.schemaVersion else second.schemaVersion,
           if r > 2 then first.channelId else second.channelId,
           if r > 3 then first.sessionId else second.sessionId,
           if r > 4 then first.sequence else second.sequence,
           if r > 5 then first.eventUuid else second.eventUuid,
           if r > 6 then first.emittedUtc else second.emittedUtc,
           if r > 7 then first.payloadType else second.payloadType,
           second.payload)
  }

  function Filled(p: Record, f: Part, m: Record): Record
    requires !f.Payload?
  {
    if IsNumber(f) then WithNumber(p, f, NumberOf(m, f)) else WithText(p, f, TextOf(m, f))
  }

  lemma OnStarts(f: Part, m: Record, tail: string)
    ensures On(f, m, tail) != "" && On(f, m, tail)[0] == Lead(f)
  {
  }

  lemma PartReadsBack(f: Part, m: Record, after: string, p: Record)
    requires !f.Payload? && (IsNumber(f) ==> after != "" && after[0] == ',')
    ensures Parse(f, [Lead(f)] + Put(f, m, after), p) == Parse(Next(f), after, Filled(p, f, m))
  {
    if IsNumber(f) {
      UintReadsBack(Lead(f), Key(f), NumberOf(m, f), after);
    } else {
      TextReadsBack(Lead(f), Key(f), TextOf(m, f), after);
    }
  }

  lemma {:induction false} RestReadsBack(f: Part, m: Record, tail: string, p: Record)
    ensures Parse(f, On(f, m, tail), p) == WithPayload(Joined(p, m, f), ObjectValue("," + tail))
    decreases 8 - Rank(f)
  {
    if !f.Payload? {
      OnStarts(Next(f), m, tail);
      PartReadsBack(f, m, On(Next(f), m, tail), p);
      RestReadsBack(Next(f), m, tail, Filled(p, f, m));
    }
  }

  lemma LineReadsBack(m: Record, tail: string)
    ensures ParseRecord(Line(m, tail)) == WithPayload(m, ObjectValue("," + tail))
  {
    RestReadsBack(Version, m, tail, BLANK);
  }

  lemma ObjectReadsBack(t: string)
    requires t != "" && t[0] == '{'
    ensures ObjectValue("," + (PAYLOAD_KEY + t)) == ScanObject(t)
  {
    FindNext(',', PAYLOAD_KEY, t);
  }

  /** A line whose payload is any text p starting with a brace. */
  lemma PayloadReadsBack(m: Record, p: string, u: string)
    requires p != "" && p[0] == '{'
    ensures ParseRecord(Line(m, PAYLOAD_KEY + (p + u))) == WithPayload(m, ScanObject(p + u))
  {
    var t := p + u;
    var tail := PAYLOAD_KEY + t;
    LineReadsBack(m, tail);
    ObjectReadsBack(t);
  }

  /** The brace matcher takes the whole text as one object. */
  predicate ClosesAtItsEnd(p: string) {
    ScanObject(p) == Got(p, "")
  }

  lemma {:induction false} OutsideExtends(t: string, u: string, depth: nat)
    requires Outside(t, depth).Some?
    ensures Outside(t + u, depth) == Some(Outside(t, depth).value + u)
    decreases |t|, 1
  {
    if depth > 0 {
      assert (t + u)[1..] == t[1..] + u;
      if t[0] == '{' {
        OutsideExtends(t[1..], u, depth + 1);
      } else if t[0] == '}' {
        OutsideExtends(t[1..], u, depth - 1);
      } else if t[0] == '"' {
        InsideExtends(t[1..], u, '"', depth);
      } else {
        OutsideExtends(t[1..], u, depth);
      }
    }
  }

  lemma {:induction false} InsideExtends(t: string, u: string, previous: char, depth: nat)
    requires Inside(t, previous, depth).Some?
    ensures Inside(t + u, previous, depth) == Some(Inside(t, previous, depth).value + u)
    decreases |t|, 0
  {
    assert (t + u)[1..] == t[1..] + u;
    if t[0] == '"' && previous != '\\' {
      OutsideExtends(t[1..], u, depth);
    } else {
      InsideExtends(t[1..], u, t[0], depth);
    }
  }

  lemma ScanObjectExtends(t: string, u: string)
    requires ScanObject(t).Got?
    ensures ScanObject(t + u) == Got(ScanObject(t).value, ScanObject(t).rest + u)
  {
    assert (t + u)[1..] == t[1..] + u;
    OutsideExtends(t[1..], u, 1);
    var rest := Outside(t[1..], 1).value;
    OutsideIsSuffix(t[1..], 1);
    assert (t + u)[..|t + u| - |rest + u|] == t[..|t| - |rest|];
  }

  lemma {:induction false} OutsideRetracts(t: string, u: string, depth: nat)
    requires Outside(t + u, depth) == Some(u)
    ensures Outside(t, depth) == Some("")
    decreases |t|, 1
  {
    if depth == 0 {
      assert |t + u| == |u|;
    } else if t == "" {
      assert t + u == u;
      NeedsACharacter(u, depth);
    } else {
      assert (t + u)[1..] == t[1..] + u;
      if t[0] == '{' {
        OutsideRetracts(t[1..], u, depth + 1);
      } else if t[0] == '}' {
        OutsideRetracts(t[1..], u, depth - 1);
      } else if t[0] == '"' {
        InsideRetracts(t[1..], u, '"', depth);
      } else {
        OutsideRetracts(t[1..], u, depth);
      }
    }
  }

  lemma {:induction false} InsideRetracts(t: string, u: string, previous: char, depth: nat)
    requires Inside(t + u, previous, depth) == Some(u)
    ensures Inside(t, previous, depth) == Some("")
    decreases |t|, 0
  {
    if t == "" {
      assert t + u == u;
      OutsideIsSuffix(u[1..], depth);
      InsideIsSuffix(u[1..], u[0], depth);
    } else {
      assert (t + u)[1..] == t[1..] + u;
      if t[0] == '"' && previous != '\\' {
        OutsideRetracts(t[1..], u, depth);
      } else {
        InsideRetracts(t[1..], u, t[0], depth);
      }
    }
  }

  lemma NeedsACharacter(u: string, depth: nat)
    requires depth > 0
    ensures Outside(u, depth) != Some(u)
  {
    if u != "" {
      OutsideIsSuffix(u[1..], depth + 1);
      OutsideIsSuffix(u[1..], depth - 1);
      OutsideIsSuffix(u[1..], depth);
      InsideIsSuffix(u[1..], '"', depth);
    }
  }

  lemma ClosesBeforeBrace(p: string)
    requires p != "" && p[0] == '{'
    ensures (ScanObject(p + "}").Got? && ScanObject(p + "}").value == p) <==> ClosesAtItsEnd(p)
  {
    if ClosesAtItsEnd(p) {
      ScanObjectExtends(p, "}");
      assert "" + "}" == "}";
    }
    if ScanObject(p + "}").Got? && ScanObject(p + "}").value == p {
      var t := p[1..];
      assert (p + "}")[1..] == t + "}";
      OutsideIsSuffix(t + "}", 1);
      assert Outside(t + "}", 1).value == "}";
      OutsideRetracts(t, "}", 1);
      assert p[..|p|] == p;
    }
  }

  function Value<T>(r: Scan<T>): Option<T> {
    if r.Got? then Some(r.value) else None
  }

  lemma CompleteLineReads(m: Record, p: string, u: string)
    requires p != "" && p[0] == '{' && (p + u)[|p + u| - 1] == '}'
    ensures FromJsonLine(Line(m, PAYLOAD_KEY + (p + u))) == Value(WithPayload(m, ScanObject(p + u)))
  {
    LineEnds(m, p + u);
    PayloadReadsBack(m, p, u);
  }

  lemma PrintedLineReads(m: Record)
    ensures FromJsonLine(JsonLine(m)) == Value(WithPayload(m, ScanObject(PayloadText(m.payload) + "}")))
  {
    CompleteLineReads(m, PayloadText(m.payload), "}");
  }

  /**
    Reading back a printed line gives the record again exactly when the brace matcher, started on
    the payload alone, ends at the payload's last character. No other field matters.
   */
  lemma RoundTripIsExact(m: Record)
    ensures FromJsonLine(JsonLine(m)) == Some(m) <==> ClosesAtItsEnd(m.payload)
  {
    PrintedLineReads(m);
    var p := PayloadText(m.payload);
    if p == m.payload {
      ClosesBeforeBrace(p);
    } else {
      OutsideBracePair();
    }
  }

  lemma OutsideBracePair()
    ensures ScanObject("{}" + "}") == Got("{}", "}")
  {
    assert "{}" + "}" == "{}}";
    assert "{}}"[1..] == "}}";
    assert "}}"[1..] == "}";
    assert Outside("}", 0) == Some("}");
    assert "{}}"[..2] == "{}";
  }

  /** A record without an object payload comes back with an empty one, and nothing else changed. */
  lemma MissingPayloadBecomesEmpty(m: Record)
    requires m.payload == "" || m.payload[0] != '{'
    ensures FromJsonLine(JsonLine(m)) == Some(m.(payload := "{}"))
  {
    PrintedLineReads(m);
    OutsideBracePair();
  }

  // ---------------------------------------------------------------------------
  // Object payloads
  // ---------------------------------------------------------------------------

  predicate EndsInBackslash(s: string) {
    s != "" && s[|s| - 1] == '\\'
  }

  /** No text anywhere inside ends in a backslash. */
  predicate Matchable(j: Json) {
    match j
    case Text(s) => !EndsInBackslash(s)
    case Object(fields) => MatchableFields(fields)
    case _ => true
  }

  predicate MatchableFields(f: Fields) {
    f.Field? ==> Matchable(f.value) && MatchableFields(f.others)
  }

  /** The matcher leaves an escaped string at the quote that closes it. */
  lemma {:induction false} InsideEscaped(s: string, previous: char, r: string, depth: nat)
    requires if s == "" then previous != '\\' else !EndsInBackslash(s)
    ensures Inside(Escape(s) + ("\"" + r), previous, depth) == Outside(r, depth)
  {
    var t := Escape(s) + ("\"" + r);
    if s == "" {
      assert t == "\"" + r;
      assert t[1..] == r;
    } else {
      var piece := EscapeChar(s[0]);
      var later := Escape(s[1..]) + ("\"" + r);
      assert t == piece + later;
      InsideEscaped(s[1..], piece[|piece| - 1], r, depth);
      if |piece| == 2 {
        assert t[1..][1..] == later && t[0] == '\\' && t[1..][0] == piece[1];
      } else {
        assert t[1..] == later;
      }
    }
  }

  lemma {:induction false} EscapeName(key: string)
    requires forall i :: 0 <= i < |key| ==> InName(key[i])
    ensures Escape(key) == key
  {
    if key != "" {
      EscapeName(key[1..]);
      assert InName(key[0]);
      assert key == [key[0]] + key[1..];
    }
  }

  lemma {:induction false} OutsidePlain(a: string, r: string, depth: nat)
    requires depth > 0
    requires forall i :: 0 <= i < |a| ==> a[i] != '{' && a[i] != '}' && a[i] != '"'
    ensures Outside(a + r, depth) == Outside(r, depth)
  {
    if a == "" {
      assert a + r == r;
    } else {
      assert (a + r)[1..] == a[1..] + r;
      OutsidePlain(a[1..], r, depth);
    }
  }

  lemma OutsideText(s: string, r: string, depth: nat)
    requires depth > 0 && !EndsInBackslash(s)
    ensures Outside("\"" + (Escape(s) + ("\"" + r)), depth) == Outside(r, depth)
  {
    var t := Escape(s) + ("\"" + r);
    assert ("\"" + t)[1..] == t;
    InsideEscaped(s, '"', r, depth);
  }

  lemma OutsideKey(key: string, r: string, depth: nat)
    requires depth > 0 && IsName(key)
    ensures Outside(KeyPattern(key) + r, depth) == Outside(r, depth)
  {
    EscapeName(key);
    assert InName(key[|key| - 1]);
    assert KeyPattern(key) + r == "\"" + (Escape(key) + ("\"" + (":" + r)));
    OutsideText(key, ":" + r, depth);
    OutsidePlain(":", r, depth);
  }

  /** A printed value is balanced: the matcher comes out at the depth it went in with. */
  lemma {:induction false} OutsideValue(j: Json, r: string, depth: nat)
    requires depth > 0 && NamedKeys(j) && Matchable(j)
    ensures Outside(Print(j) + r, depth) == Outside(r, depth)
    decreases j, 1
  {
    match j
    case Text(s) =>
      assert Print(j) + r == "\"" + (Escape(s) + ("\"" + r));
      OutsideText(s, r, depth);
    case Number(n) => OutsidePlain(Signed(n), r, depth);
    case Flag(b) => OutsidePlain(Print(j), r, depth);
    case Object(fields) =>
      var inner := PrintFields(fields) + ("}" + r);
      assert Print(j) + r == "{" + inner;
      assert ("{" + inner)[1..] == inner;
      OutsideFields(fields, "}" + r, depth + 1);
      assert ("}" + r)[1..] == r;
  }

  lemma {:induction false} OutsideFields(f: Fields, r: string, depth: nat)
    requires depth > 0 && NamedFieldKeys(f) && MatchableFields(f)
    ensures Outside(PrintFields(f) + r, depth) == Outside(r, depth)
    decreases f, 0
  {
    match f
    case NoFields => assert "" + r == r;
    case Field(key, value, others) =>
      var more := if others.NoFields? then r else "," + (PrintFields(others) + r);
      assert PrintFields(f) + r == KeyPattern(key) + (Print(value) + more);
      OutsideKey(key, Print(value) + more, depth);
      OutsideValue(value, more, depth);
      if others.Field? {
        OutsidePlain(",", PrintFields(others) + r, depth);
        OutsideFields(others, r, depth);
      }
  }

  lemma ObjectCloses(fields: Fields)
    requires NamedFieldKeys(fields) && MatchableFields(fields)
    ensures ClosesAtItsEnd(Print(Object(fields)))
  {
    var p := Print(Object(fields));
    OutsideFields(fields, "}", 1);
    assert p[1..] == PrintFields(fields) + "}";
    assert "}"[1..] == "";
    assert p[..|p|] == p;
  }

  /**
    Every record whose payload is a printed object, however deeply nested, is read back as it was:
    its texts may hold quotes, braces, backslashes, line breaks or text that looks like a key, as
    long as none ends in a backslash.
   */
  lemma ObjectRecordsRoundTrip(m: Record, fields: Fields)
    requires m.payload == Print(Object(fields))
    requires NamedFieldKeys(fields) && MatchableFields(fields)
    ensures FromJsonLine(JsonLine(m)) == Some(m)
  {
    ObjectCloses(fields);
    RoundTripIsExact(m);
  }

  /** Once a quote that follows a backslash is the last quote, the matcher never gets past it. */
  lemma {:induction false} StuckInsideOutside(a: string, r: string, depth: nat)
    requires depth > 0 && '"' !in r
    ensures var end := Outside(a + ("\\\"" + r), depth); end.Some? ==> |end.value| > |r|
    decreases |a|, 1
  {
    var t := a + ("\\\"" + r);
    if a == "" {
      assert t == "\\\"" + r;
      assert t[1..][1..] == r && t[0] == '\\' && t[1..][0] == '"';
      StuckInside(r, '"', depth);
    } else {
      assert t[1..] == a[1..] + ("\\\"" + r);
      if t[0] == '{' {
        StuckInsideOutside(a[1..], r, depth + 1);
      } else if t[0] == '}' {
        if depth > 1 {
          StuckInsideOutside(a[1..], r, depth - 1);
        }
      } else if t[0] == '"' {
        StuckInsideInside(a[1..], '"', r, depth);
      } else {
        StuckInsideOutside(a[1..], r, depth);
      }
    }
  }

  lemma {:induction false} StuckInsideInside(a: string, previous: char, r: string, depth: nat)
    requires depth > 0 && '"' !in r
    ensures var end := Inside(a + ("\\\"" + r), previous, depth); end.Some? ==> |end.value| > |r|
    decreases |a|, 0
  {
    var t := a + ("\\\"" + r);
    if a == "" {
      assert t == "\\\"" + r;
      assert t[1..][1..] == r && t[0] == '\\' && t[1..][0] == '"';
      StuckInside(r, '"', depth);
    } else {
      assert t[1..] == a[1..] + ("\\\"" + r);
      if t[0] == '"' && previous != '\\' {
        StuckInsideOutside(a[1..], r, depth);
      } else {
        StuckInsideInside(a[1..], t[0], r, depth);
      }
    }
  }

  lemma {:induction false} StuckInside(r: string, previous: char, depth: nat)
    requires '"' !in r
    ensures Inside(r, previous, depth).None?
  {
    if r != "" {
      StuckInside(r[1..], r[0], depth);
    }
  }

  /**
    A payload whose last string ends in a backslash is never read back, whatever comes before it:
    the escaped backslash makes the matcher overlook the closing quote.
   */
  lemma LastBackslashLosesRecord(m: Record, before: string, after: string)
    requires m.payload == "{" + (before + ("\\\"" + after)) && '"' !in after
    ensures FromJsonLine(JsonLine(m)) != Some(m)
  {
    RoundTripIsExact(m);
    assert m.payload[1..] == before + ("\\\"" + after);
    StuckInsideOutside(before, after, 1);
  }

  /** For a payload that ends in its only text the condition is exact. */
  lemma OneTextRoundTripIsExact(m: Record, key: string, s: string)
    requires IsName(key) && m.payload == Print(Object(Field(key, Text(s), NoFields)))
    ensures FromJsonLine(JsonLine(m)) == Some(m) <==> !EndsInBackslash(s)
  {
    if EndsInBackslash(s) {
      var most, last := s[..|s| - 1], s[|s| - 1];
      assert s == most + [last];
      EscapeAppend(most, last);
      var before := KeyPattern(key) + ("\"" + (Escape(most) + "\\"));
      assert Print(Text(s)) + "" == "\"" + (Escape(s) + "\"");
      assert PrintFields(Field(key, Text(s), NoFields)) == KeyPattern(key) + (Print(Text(s)) + "");
      assert m.payload == "{" + (PrintFields(Field(key, Text(s), NoFields)) + "}");
      assert Escape(s) + "\"" == (Escape(most) + "\\") + "\\\"";
      assert m.payload == "{" + (before + ("\\\"" + "}"));
      LastBackslashLosesRecord(m, before, "}");
    } else {
      ObjectRecordsRoundTrip(m, Field(key, Text(s), NoFields));
    }
  }

  // ---------------------------------------------------------------------------
  // Lines cut short
  // ---------------------------------------------------------------------------

  lemma {:induction false} OnAppend(f: Part, m: Record, tail: string, u: string)
    ensures On(f, m, tail) + u == On(f, m, tail + u)
    decreases 8 - Rank(f)
  {
    if f.Payload? {
      Regroup(",", tail, u);
    } else {
      var after := On(Next(f), m, tail);
      Regroup([Lead(f)], Put(f, m, after), u);
      if IsNumber(f) {
        PutUintAppend(Key(f), NumberOf(m, f), after, u);
      } else {
        PutTextAppend(Key(f), TextOf(m, f), after, u);
      }
      OnAppend(Next(f), m, tail, u);
    }
  }

  lemma LineAppend(m: Record, tail: string, u: string)
    ensures Line(m, tail) + u == Line(m, tail + u)
  {
    OnAppend(Version, m, tail, u);
  }

  lemma PutTextAppend(key: string, s: string, after: string, u: string)
    ensures PutText(key, s, after) + u == PutText(key, s, after + u)
  {
    Regroup(TextPattern(key), Escape(s) + ("\"" + after), u);
    Regroup(Escape(s), "\"" + after, u);
    Regroup("\"", after, u);
  }

  lemma PutUintAppend(key: string, n: nat, after: string, u: string)
    ensures PutUint(key, n, after) + u == PutUint(key, n, after + u)
  {
    Regroup(KeyPattern(key), Decimal(n) + after, u);
    Regroup(Decimal(n), after, u);
  }

  lemma LineEnds(m: Record, end: string)
    requires end != ""
    ensures var line := Line(m, PAYLOAD_KEY + end);
            line[0] == '{' && line[|line| - 1] == end[|end| - 1]
  {
    var most, last := end[..|end| - 1], end[|end| - 1..];
    assert PAYLOAD_KEY + end == (PAYLOAD_KEY + most) + last;
    LineAppend(m, PAYLOAD_KEY + most, last);
  }
}
