/**
  Lines of which only a beginning reached the disk.

  Every parser is monotone: once it has its value, text added at the end changes nothing but what
  is left over. A proper beginning of a line therefore parses only if the whole line's parse had
  already finished by then, which happens at the last character alone.
 */
module TornLine {
  import opened Common
  import opened JsonText
  import opened EvidenceCodec
  import opened EvidenceRoundTrip

  function Longer<T>(r: Scan<T>, u: string): Scan<T> {
    match r
    case Fail => Fail
    case Got(v, rest) => Got(v, rest + u)
  }

  lemma {:induction false} ScanTextExtends(t: string, u: string)
    requires ScanText(t).Got?
    ensures ScanText(t + u) == Longer(ScanText(t), u)
    decreases |t|
  {
    assert (t + u)[1..] == t[1..] + u;
    if t[0] == '\\' && |t| > 1 && IsEscapeLetter(t[1]) {
      assert (t + u)[2..] == t[2..] + u;
      ScanTextExtends(t[2..], u);
    } else if t[0] != '"' {
      ScanTextExtends(t[1..], u);
    }
  }

  lemma TextValueExtends(t: string, u: string, key: string)
    requires TextValue(t, key).Got?
    ensures t != "" && TextValue(t + u, key) == Longer(TextValue(t, key), u)
  {
    FindExtends(t, u, TextPattern(key));
    ScanTextExtends(FindAfter(t, TextPattern(key)).value, u);
  }

  lemma {:induction false} NumberRunExtends(t: string, u: string)
    requires |NumberRun(t)| < |t|
    ensures NumberRun(t + u) == NumberRun(t)
  {
    if InNumberRun(t[0]) {
      assert (t + u)[1..] == t[1..] + u;
      NumberRunExtends(t[1..], u);
    }
  }

  lemma Uint64ValueExtends(t: string, u: string, key: string)
    requires Uint64Value(t, key).Got? && Uint64Value(t, key).rest != ""
    ensures t != "" && Uint64Value(t + u, key) == Longer(Uint64Value(t, key), u)
  {
    FindExtends(t, u, KeyPattern(key));
    var r := FindAfter(t, KeyPattern(key)).value;
    NumberRunExtends(r, u);
    var n := |NumberRun(r)|;
    assert (r + u)[n..] == r[n..] + u;
  }

  lemma Uint32ValueExtends(t: string, u: string, key: string)
    requires Uint32Value(t, key).Got? && Uint32Value(t, key).rest != ""
    ensures t != "" && Uint32Value(t + u, key) == Longer(Uint32Value(t, key), u)
  {
    Uint64ValueExtends(t, u, key);
  }

  lemma {:induction false} SkipBlanksExtends(t: string, u: string)
    requires SkipBlanks(t) != ""
    ensures SkipBlanks(t + u) == SkipBlanks(t) + u
  {
    if t[0] == ' ' || t[0] == '\t' {
      assert (t + u)[1..] == t[1..] + u;
      SkipBlanksExtends(t[1..], u);
    }
  }

  lemma ObjectValueExtends(t: string, u: string)
    requires ObjectValue(t).Got?
    ensures t != "" && ObjectValue(t + u) == Longer(ObjectValue(t), u)
  {
    FindExtends(t, u, PAYLOAD_KEY);
    var r := FindAfter(t, PAYLOAD_KEY).value;
    SkipBlanksExtends(r, u);
    ScanObjectExtends(SkipBlanks(r), u);
  }

  /** From any part on: what a parser found, it finds again however the text goes on. */
  lemma {:induction false} ParseExtends(f: Part, t: string, u: string, m: Record)
    requires Parse(f, t, m).Got?
    ensures t != "" && Parse(f, t + u, m) == Longer(Parse(f, t, m), u)
    decreases 8 - Rank(f)
  {
    if f.Payload? {
      ObjectValueExtends(t, u);
    } else if f.Version? {
      var r := Uint32Value(t, Key(f));
      ParseExtends(Next(f), r.rest, u, WithNumber(m, f, r.value));
      Uint32ValueExtends(t, u, Key(f));
    } else if f.Sequence? {
      var r := Uint64Value(t, Key(f));
      ParseExtends(Next(f), r.rest, u, WithNumber(m, f, r.value));
      Uint64ValueExtends(t, u, Key(f));
    } else {
      var r := TextValue(t, Key(f));
      ParseExtends(Next(f), r.rest, u, WithText(m, f, r.value));
      TextValueExtends(t, u, Key(f));
    }
  }

  lemma ParseRecordExtends(t: string, u: string)
    requires ParseRecord(t).Got?
    ensures t != "" && ParseRecord(t + u) == Longer(ParseRecord(t), u)
  {
    ParseExtends(Version, t, u, BLANK);
  }

  lemma WholeLineParses(m: Record)
    requires ClosesAtItsEnd(m.payload)
    ensures ParseRecord(JsonLine(m)) == Got(m, "}")
  {
    PayloadReadsBack(m, m.payload, "}");
    ScanObjectExtends(m.payload, "}");
    assert "" + "}" == "}";
  }

  lemma LineWithoutBrace(m: Record)
    requires ClosesAtItsEnd(m.payload)
    ensures var line := JsonLine(m);
            var shorter := Line(m, PAYLOAD_KEY + m.payload);
            line == shorter + "}" && FromJsonLine(shorter) == Some(m)
  {
    var p := m.payload;
    LineAppend(m, PAYLOAD_KEY + p, "}");
    Regroup(PAYLOAD_KEY, p, "}");
    assert p + "" == p;
    ClosedEndsInBrace(p);
    CompleteLineReads(m, p, "");
  }

  lemma ClosedEndsInBrace(p: string)
    requires ClosesAtItsEnd(p)
    ensures p[|p| - 1] == '}'
  {
    ClosingBrace(p[1..], 1);
  }

  /** Only a closing brace brings the matcher to depth zero. */
  lemma {:induction false} ClosingBrace(t: string, depth: nat)
    requires depth > 0 && Outside(t, depth) == Some("")
    ensures t != "" && t[|t| - 1] == '}'
    decreases |t|, 1
  {
    if t[0] == '{' {
      ClosingBrace(t[1..], depth + 1);
    } else if t[0] == '}' {
      if depth > 1 {
        ClosingBrace(t[1..], depth - 1);
      }
    } else if t[0] == '"' {
      ClosingBraceInside(t[1..], '"', depth);
    } else {
      ClosingBrace(t[1..], depth);
    }
  }

  lemma {:induction false} ClosingBraceInside(t: string, previous: char, depth: nat)
    requires depth > 0 && Inside(t, previous, depth) == Some("")
    ensures t != "" && t[|t| - 1] == '}'
    decreases |t|, 0
  {
    if t[0] == '"' && previous != '\\' {
      ClosingBrace(t[1..], depth);
    } else {
      ClosingBraceInside(t[1..], t[0], depth);
    }
  }

  lemma TooShortFails(m: Record, t: string, u: string)
    requires ClosesAtItsEnd(m.payload) && JsonLine(m) == t + u && |u| > 1
    ensures FromJsonLine(t) == None
  {
    WholeLineParses(m);
    if ParseRecord(t).Got? {
      ParseRecordExtends(t, u);
    }
  }

  /** A line that a decoder reads whole and without its last character, and no further cut. */
  lemma CutsOf<R>(line: string, shorter: string, k: nat, decode: string -> Option<R>, r: R)
    requires line == shorter + "}" && k <= |line| && decode(line) == Some(r) && decode(shorter) == Some(r)
    requires k + 1 < |line| ==> decode(line[..k]) == None
    ensures decode(line[..k]) == if k + 1 < |line| then None else Some(r)
  {
    assert k == |line| ==> line[..k] == line;
    assert k + 1 == |line| ==> line[..k] == shorter;
  }

  lemma CutInTwo(line: string, k: nat)
    requires k <= |line|
    ensures line == line[..k] + line[k..] && |line[k..]| == |line| - k
  {
  }

  lemma CutIsTooShort(m: Record, line: string, k: nat)
    requires ClosesAtItsEnd(m.payload) && line == JsonLine(m) && k + 1 < |line|
    ensures FromJsonLine(line[..k]) == None
  {
    CutInTwo(line, k);
    TooShortFails(m, line[..k], line[k..]);
  }

  /**
    The first k characters of a printed line are rejected, unless all that is missing is the final
    brace; then they decode to the very record that was printed.
   */
  lemma TornLineIsRejectedOrWhole(m: Record, k: nat)
    requires ClosesAtItsEnd(m.payload) && k <= |JsonLine(m)|
    ensures FromJsonLine(JsonLine(m)[..k]) == if k + 1 < |JsonLine(m)| then None else Some(m)
  {
    var line := JsonLine(m);
    RoundTripIsExact(m);
    LineWithoutBrace(m);
    if k + 1 < |line| {
      CutIsTooShort(m, line, k);
    }
    CutsOf(line, Line(m, PAYLOAD_KEY + m.payload), k, FromJsonLine, m);
  }
}
