/**
  A line of which only a beginning reached the disk, followed on the same line by the next record.

  The parser takes from the torn line the parts that are complete, the part that the cut left
  unfinished as far as it goes, and everything else from the record that follows. Which record
  comes out is stated for every place of the cut.
 */
module MergedLine {
  import opened Common
  import opened JsonText
  import opened KeySearch
  import opened EvidenceCodec
  import opened EvidenceRoundTrip
  import opened TornLine

  // ---------------------------------------------------------------------------
  // Where the cut falls
  // ---------------------------------------------------------------------------

  datatype Cut =
    | Before(part: Part)                    // its key is not complete
    | InNumber(part: Part, digits: string)  // its key is, and so many digits are there
    | InText(part: Part, read: string)      // its key is, and so many characters can be read
    | InPayload(text: string)               // the payload is not complete
    | Whole                                 // at most the last brace is missing

  /** The characters of a text whose escaped form is cut: a cut inside an escape leaves its backslash. */
  function ReadOf(s: string, k: nat): string {
    if s == "" || k == 0 then ""
    else if k < |EscapeChar(s[0])| then "\\"
    else [s[0]] + ReadOf(s[1..], k - |EscapeChar(s[0])|)
  }

  /** What a part's parser searches for. */
  function PatternOf(f: Part): string {
    if IsText(f) then TextPattern(Key(f)) else KeyPattern(Key(f))
  }

  /** Where the value of a part starts, counted from the character before the part. */
  function ValueStart(f: Part): nat {
    match f
    case Version => 18
    case Channel => 15
    case Session => 23
    case Sequence => 12
    case Uuid => 15
    case Utc => 16
    case Kind => 17
    case Payload => 11
  }

  lemma ValueStartsAfterPattern(f: Part)
    ensures ValueStart(f) == 1 + |PatternOf(f)|
  {
  }

  /** How long the value is, without the quote that closes a text. */
  function ValueLength(m: Record, f: Part): nat {
    if f.Payload? then |m.payload|
    else if IsNumber(f) then |Decimal(NumberOf(m, f))|
    else |Escape(TextOf(m, f))|
  }

  /** Where the next part starts. */
  function PartLength(m: Record, f: Part): nat {
    ValueStart(f) + ValueLength(m, f) + if IsText(f) then 1 else 0
  }

  /** The place of a cut after k characters of the line from one part on. */
  function CutFrom(f: Part, m: Record, k: nat): Cut
    decreases 8 - Rank(f)
  {
    if k < ValueStart(f) then Before(f)
    else
      var i := k - ValueStart(f);
      if f.Payload? then (if i < |m.payload| then InPayload(m.payload[..i]) else Whole)
      else if i <= ValueLength(m, f) then
        if IsNumber(f) then InNumber(f, Decimal(NumberOf(m, f))[..i]) else InText(f, ReadOf(TextOf(m, f), i))
      else CutFrom(Next(f), m, k - PartLength(m, f))
  }

  /** The place of a cut after k characters of a record's line. */
  function CutOf(m: Record, k: nat): Cut {
    CutFrom(Version, m, k)
  }

  // ---------------------------------------------------------------------------
  // Which record comes out
  // ---------------------------------------------------------------------------

  /**
    What the merged line decodes to. A text that was cut ends where the next record's first quote
    follows its opening brace; a number that was cut is the number its digits make, if there are any.
   */
  function Merged(torn: Record, next: Record, cut: Cut): Option<Record> {
    MergedWith(torn, next, JsonLine(next), cut)
  }

  function MergedWith(torn: Record, next: Record, later: string, cut: Cut): Option<Record> {
    match cut
    case Before(f) => Some(Joined(torn, next, f))
    case InNumber(f, digits) =>
      if digits == "" || !AllDigits(digits) || !IsNumber(f) then None
      else
        var n, max := DecimalValue(digits), if f.Version? then MAX_UINT32 else MAX_UINT64;
        if n > max then None else Some(WithNumber(Joined(torn, next, f), f, n))
    case InText(f, read) => if IsText(f) then Some(WithText(Joined(torn, next, f), f, read + "{")) else None
    case InPayload(text) => Value(WithPayload(torn, ScanObject(text + later)))
    case Whole => Some(torn)
  }

  // ---------------------------------------------------------------------------
  // The next record is found from anywhere in its own line
  // ---------------------------------------------------------------------------

  lemma KeyIsName(f: Part)
    ensures IsName(Key(f))
  {
  }

  lemma SearchesForBoth(key: string)
    requires IsName(key)
    ensures SearchesFor(KeyPattern(key), key) && SearchesFor(TextPattern(key), key)
    ensures '{' !in KeyPattern(key) && '{' !in TextPattern(key)
  {
    forall i | 0 <= i < |key|
      ensures key[i] != '{'
    {
      assert InName(key[i]);
    }
  }

  lemma SkipsText(other: string, s: string, after: string, pat: string, key: string)
    requires SearchesFor(pat, key) && IsName(other) && other != key && after != "" && after[0] == ','
    ensures FindAfter("," + PutText(other, s, after), pat) == FindAfter(after, pat)
  {
    var value := Escape(s) + ("\"" + after);
    FindStepPlain(',', PutText(other, s, after), pat);
    Regroup(KeyPattern(other), "\"", value);
    FindSkipsKey(other, "\"" + value, pat, key);
    assert Print(Text(s)) + after == "\"" + value by {
      Regroup("\"", Escape(s) + "\"", after);
      Regroup(Escape(s), "\"", after);
    }
    FindSkipsValue(Text(s), after, pat, key);
  }

  lemma SkipsUint(c: char, other: string, n: nat, after: string, pat: string, key: string)
    requires SearchesFor(pat, key) && IsName(other) && other != key && after != "" && after[0] == ',' && c != '"'
    ensures FindAfter([c] + PutUint(other, n, after), pat) == FindAfter(after, pat)
  {
    FindStepPlain(c, PutUint(other, n, after), pat);
    FindSkipsKey(other, Decimal(n) + after, pat, key);
    FindSkipsPlain(Decimal(n), after, pat);
  }

  /** The text that follows a quote after an opening brace: the first key without its first quote. */
  lemma SkipsHalfKey(other: string, n: nat, after: string, pat: string, key: string)
    requires SearchesFor(pat, key) && IsName(other) && after != "" && after[0] == ','
    ensures FindAfter(("{" + PutUint(other, n, after))[2..], pat) == FindAfter(after, pat)
  {
    var rest := Decimal(n) + after;
    assert ("{" + PutUint(other, n, after))[2..] == other + ("\":" + rest);
    forall i | 0 <= i < |other|
      ensures other[i] != '"'
    {
      assert InName(other[i]);
    }
    FindSkipsPlain(other, "\":" + rest, pat);
    FindSkipsColon(rest, pat, key);
    FindSkipsPlain(Decimal(n), after, pat);
  }

  lemma KeysDiffer(f: Part, g: Part)
    requires Rank(f) < Rank(g)
    ensures Key(f) != Key(g)
  {
  }

  lemma SearchesForPart(f: Part)
    ensures SearchesFor(PatternOf(f), Key(f)) && '{' !in PatternOf(f)
  {
    KeyIsName(f);
    SearchesForBoth(Key(f));
  }

  /** A search passes over every part before the one it is for. */
  lemma {:induction false} PartsAreSkipped(f: Part, g: Part, m: Record, tail: string)
    requires Rank(f) <= Rank(g)
    ensures FindAfter(On(f, m, tail), PatternOf(g)) == FindAfter(On(g, m, tail), PatternOf(g))
    decreases Rank(g) - Rank(f)
  {
    if Rank(f) < Rank(g) {
      var after := On(Next(f), m, tail);
      SearchesForPart(g);
      KeyIsName(f);
      KeysDiffer(f, g);
      OnStarts(Next(f), m, tail);
      if IsNumber(f) {
        SkipsUint(Lead(f), Key(f), NumberOf(m, f), after, PatternOf(g), Key(g));
      } else {
        SkipsText(Key(f), TextOf(m, f), after, PatternOf(g), Key(g));
      }
      PartsAreSkipped(Next(f), g, m, tail);
    } else {
      SameRank(f, g);
    }
  }

  lemma SameRank(f: Part, g: Part)
    requires Rank(f) == Rank(g)
    ensures f == g
  {
  }

  /** A parser reads the same from any text in which its pattern is found at the same place. */
  lemma SameSearchSameParse(f: Part, t: string, u: string, p: Record)
    requires FindAfter(t, PatternOf(f)) == FindAfter(u, PatternOf(f))
    ensures Parse(f, t, p) == Parse(f, u, p)
  {
    assert KeyPattern(Key(Payload)) == PAYLOAD_KEY;
  }

  /** The next record's line gives each parser its fields from its own on, also without the first two characters. */
  lemma LineResumes(f: Part, next: Record, p: Record)
    requires ClosesAtItsEnd(next.payload)
    ensures Parse(f, JsonLine(next), p) == Got(Joined(p, next, f), "}")
    ensures !f.Version? ==> Parse(f, JsonLine(next)[2..], p) == Got(Joined(p, next, f), "}")
  {
    var tail := PayloadTail(next);
    PartsAreSkipped(Version, f, next, tail);
    SameSearchSameParse(f, JsonLine(next), On(f, next, tail), p);
    RestReadsBack(f, next, tail, p);
    PayloadReadsHere(next);
    if !f.Version? {
      OnStarts(Channel, next, tail);
      SearchesForPart(f);
      KeyIsName(Version);
      SkipsHalfKey(Key(Version), next.schemaVersion, On(Channel, next, tail), PatternOf(f), Key(f));
      PartsAreSkipped(Channel, f, next, tail);
      SameSearchSameParse(f, JsonLine(next)[2..], On(f, next, tail), p);
    }
  }

  lemma PayloadReadsHere(next: Record)
    requires ClosesAtItsEnd(next.payload)
    ensures ObjectValue("," + PayloadTail(next)) == Got(next.payload, "}")
  {
    ObjectReadsBack(next.payload + "}");
    ScanObjectExtends(next.payload, "}");
    assert "" + "}" == "}";
  }

  /** All that is used of the next record's line. */
  ghost predicate Resumable(later: string, next: Record) {
    && |later| >= 2 && later[0] == '{' && later[1] == '"'
    && (forall f: Part, p: Record :: Parse(f, later, p) == Got(Joined(p, next, f), "}"))
    && (forall f: Part, p: Record :: !f.Version? ==> Parse(f, later[2..], p) == Got(Joined(p, next, f), "}"))
  }

  lemma LineIsResumable(next: Record)
    requires ClosesAtItsEnd(next.payload)
    ensures Resumable(JsonLine(next), next)
  {
    assert KeyPattern(Key(Version))[0] == '"';
    forall f: Part, p: Record
      ensures Parse(f, JsonLine(next), p) == Got(Joined(p, next, f), "}")
      ensures !f.Version? ==> Parse(f, JsonLine(next)[2..], p) == Got(Joined(p, next, f), "}")
    {
      LineResumes(f, next, p);
    }
  }

  // ---------------------------------------------------------------------------
  // One part, cut or whole
  // ---------------------------------------------------------------------------

  /** A brace, then the quote that opens a key, which closes the text. */
  lemma ScanBrace(later: string)
    requires |later| >= 2 && later[0] == '{' && later[1] == '"'
    ensures ScanText(later) == Got("{", later[2..])
    ensures ScanText("\\" + later) == Got("\\{", later[2..])
  {
    var t := later[1..];
    assert t[0] == '"' && t[1..] == later[2..];
    assert ScanText(t) == Got("", later[2..]);
    assert ScanText(later) == Prepend('{', ScanText(t));
    assert ['{'] + "" == "{" && ['\\'] + "{" == "\\{";
    assert ("\\" + later)[1..] == later && ("\\" + later)[1] == '{';
    assert ScanText("\\" + later) == Prepend('\\', ScanText(later));
  }

  lemma {:induction false} ScanCutText(s: string, k: nat, later: string)
    requires k <= |Escape(s)| && |later| >= 2 && later[0] == '{' && later[1] == '"'
    ensures ScanText(Escape(s)[..k] + later) == Got(ReadOf(s, k) + "{", later[2..])
  {
    if s == "" || k == 0 {
      assert Escape(s)[..k] + later == later;
      assert ReadOf(s, k) + "{" == "{";
      ScanBrace(later);
    } else {
      var piece := EscapeChar(s[0]);
      if k < |piece| {
        assert Escape(s)[..k] == "\\";
        ScanBrace(later);
      } else {
        var cut := Escape(s[1..])[..k - |piece|];
        assert Escape(s)[..k] == piece + cut;
        ScanCutText(s[1..], k - |piece|, later);
        Regroup(piece, cut, later);
        ScanEscapedChar(s[0], cut + later);
        Regroup([s[0]], ReadOf(s[1..], k - |piece|), "{");
      }
    }
  }

  lemma CutAfter(a: string, b: string, k: nat)
    requires |a| <= k <= |a| + |b|
    ensures (a + b)[..k] == a + b[..k - |a|]
  {
  }

  /** The printed value, without the quotes of a text. */
  function ValueText(m: Record, f: Part): string
    requires !f.Payload?
  {
    if IsNumber(f) then Decimal(NumberOf(m, f)) else Escape(TextOf(m, f))
  }

  /** A part that is cut inside its value or later, put together from what is there. */
  lemma PartPrefix(f: Part, m: Record, after: string, k: nat)
    requires !f.Payload? && ValueStart(f) <= k <= |[Lead(f)] + Put(f, m, after)|
    ensures var start, n, t := ValueStart(f), ValueLength(m, f), ([Lead(f)] + Put(f, m, after))[..k];
            if k <= start + n then t == [Lead(f)] + (PatternOf(f) + ValueText(m, f)[..k - start])
            else t == [Lead(f)] + Put(f, m, after[..k - PartLength(m, f)])
  {
    var pat, value := PatternOf(f), ValueText(m, f);
    ValueStartsAfterPattern(f);
    var rest := if IsText(f) then "\"" + after else after;
    var start, n := ValueStart(f), |value|;
    assert Put(f, m, after) == pat + (value + rest);
    CutAfter([Lead(f)], pat + (value + rest), k);
    CutAfter(pat, value + rest, k - 1);
    if k <= start + n {
      assert (value + rest)[..k - start] == value[..k - start];
    } else {
      CutAfter(value, rest, k - start);
      if IsText(f) {
        CutAfter("\"", after, k - start - n);
      }
    }
  }

  lemma PartAppend(f: Part, m: Record, after: string, u: string)
    requires !f.Payload?
    ensures [Lead(f)] + Put(f, m, after) + u == [Lead(f)] + Put(f, m, after + u)
  {
    Regroup([Lead(f)], Put(f, m, after), u);
    if IsNumber(f) {
      PutUintAppend(Key(f), NumberOf(m, f), after, u);
    } else {
      PutTextAppend(Key(f), TextOf(m, f), after, u);
    }
  }

  lemma NoDigitsNoNumber(later: string)
    requires later != "" && later[0] == '{'
    ensures ScanUint64(later).Fail?
  {
    assert NumberRun(later) == "" && SkipSpaces("") == "" && DigitsOf("") == "";
  }

  lemma CutDigitsRead(d: string, later: string)
    requires d != "" && AllDigits(d) && DecimalValue(d) <= MAX_UINT64 && later != "" && later[0] == '{'
    ensures ScanUint64(d + later) == Got(DecimalValue(d), later)
  {
    NumberRunOfDigits(d, later);
    assert d + "" == d && (d + later)[|d|..] == later;
    StoullOfDigits(d, "");
  }

  /** The first digits of a number are digits, and make a number that is no greater. */
  lemma DigitsStay(n: nat, digits: string, k: nat)
    requires k <= |Decimal(n)| && digits == Decimal(n)[..k]
    ensures AllDigits(digits) && DecimalValue(digits) <= n
  {
    DecimalPrefixIsSmaller(Decimal(n), k);
    DecimalRoundTrip(n);
  }

  // What a part's parser makes of a cut line, by the place of the cut.

  lemma CutBeforeValue(f: Part, t: string, later: string, p: Record)
    requires |t| < ValueStart(f) && (t != "" ==> t[0] == Lead(f)) && later != "" && later[0] == '{'
    ensures Parse(f, t + later, p) == Parse(f, later, p)
  {
    SearchesForPart(f);
    ValueStartsAfterPattern(f);
    CutKeyIsPassedOver(t, later, PatternOf(f));
    SameSearchSameParse(f, t + later, later, p);
  }

  lemma FindsValue(f: Part, value: string, later: string)
    ensures FindAfter([Lead(f)] + (PatternOf(f) + value) + later, PatternOf(f)) == Some(value + later)
  {
    Regroup([Lead(f)], PatternOf(f) + value, later);
    Regroup(PatternOf(f), value, later);
    SearchesForPart(f);
    FindNext(Lead(f), PatternOf(f), value + later);
  }

  lemma CutTextValue(f: Part, s: string, i: nat, later: string)
    requires IsText(f) && i <= |Escape(s)| && |later| >= 2 && later[0] == '{' && later[1] == '"'
    ensures TextValue([Lead(f)] + (PatternOf(f) + Escape(s)[..i]) + later, Key(f)) ==
            Got(ReadOf(s, i) + "{", later[2..])
  {
    FindsValue(f, Escape(s)[..i], later);
    ScanCutText(s, i, later);
  }

  lemma TextIsTaken(f: Part, t: string, torn: Record, next: Record, later: string, p: Record, s: string)
    requires IsText(f) && Resumable(later, next) && p == Joined(torn, p, f)
    requires TextValue(t, Key(f)) == Got(s, later[2..])
    ensures Parse(f, t, p) == Got(WithText(Joined(torn, next, f), f, s), "}")
  {
    assert Parse(Next(f), later[2..], WithText(p, f, s)) == Got(Joined(WithText(p, f, s), next, Next(f)), "}");
  }

  lemma CutInNumber(f: Part, torn: Record, next: Record, later: string, i: nat, p: Record)
    requires IsNumber(f) && Resumable(later, next) && p == Joined(torn, p, f) && i <= |Decimal(NumberOf(torn, f))|
    ensures Value(Parse(f, [Lead(f)] + (PatternOf(f) + Decimal(NumberOf(torn, f))[..i]) + later, p)) ==
            MergedWith(torn, next, later, InNumber(f, Decimal(NumberOf(torn, f))[..i]))
  {
    var digits := Decimal(NumberOf(torn, f))[..i];
    var t := [Lead(f)] + (PatternOf(f) + digits) + later;
    FindsValue(f, digits, later);
    DigitsStay(NumberOf(torn, f), digits, i);
    if digits == "" {
      assert digits + later == later;
      NoDigitsNoNumber(later);
    } else {
      CutDigitsRead(digits, later);
    }
    NumberIsTaken(f, t, torn, next, later, p, digits);
  }

  lemma NumberIsTaken(f: Part, t: string, torn: Record, next: Record, later: string, p: Record, digits: string)
    requires IsNumber(f) && Resumable(later, next) && p == Joined(torn, p, f)
    requires AllDigits(digits) && DecimalValue(digits) <= NumberOf(torn, f)
    requires Uint64Value(t, Key(f)) == if digits == "" then Fail else Got(DecimalValue(digits), later)
    ensures Value(Parse(f, t, p)) == MergedWith(torn, next, later, InNumber(f, digits))
  {
    if digits != "" {
      var q := WithNumber(p, f, DecimalValue(digits));
      assert Parse(Next(f), later, q) == Got(Joined(q, next, Next(f)), "}");
    }
  }

  lemma CutPast(f: Part, torn: Record, rest: string, later: string, p: Record)
    requires !f.Payload? && (IsNumber(f) ==> rest != "" && rest[0] == ',')
    ensures Parse(f, [Lead(f)] + Put(f, torn, rest) + later, p) == Parse(Next(f), rest + later, Filled(p, f, torn))
  {
    PartAppend(f, torn, rest, later);
    PartReadsBack(f, torn, rest + later, p);
  }

  lemma CutInPayload(torn: Record, next: Record, later: string, i: nat, p: Record)
    requires ClosesAtItsEnd(torn.payload) && p == Joined(torn, p, Payload)
    requires i < |torn.payload| && later != "" && later[0] == '{'
    ensures Value(Parse(Payload, "," + (PAYLOAD_KEY + (torn.payload[..i] + later)), p)) ==
            MergedWith(torn, next, later, InPayload(torn.payload[..i]))
  {
    ObjectReadsBack(torn.payload[..i] + later);
  }

  lemma CutPastPayload(torn: Record, u: string, p: Record)
    requires ClosesAtItsEnd(torn.payload) && p == Joined(torn, p, Payload)
    ensures Value(Parse(Payload, "," + (PAYLOAD_KEY + (torn.payload + u)), p)) == Some(torn)
  {
    ObjectReadsBack(torn.payload + u);
    ScanObjectExtends(torn.payload, u);
  }

  /** A line that is cut inside its payload or later, from the comma before it on. */
  lemma PayloadPrefix(body: string, k: nat, later: string)
    requires 1 + |PAYLOAD_KEY| <= k <= |"," + (PAYLOAD_KEY + (body + "}"))|
    ensures var i, t := k - 1 - |PAYLOAD_KEY|, ("," + (PAYLOAD_KEY + (body + "}")))[..k] + later;
            if i < |body| then t == "," + (PAYLOAD_KEY + (body[..i] + later))
            else t == "," + (PAYLOAD_KEY + (body + ("}"[..i - |body|] + later)))
  {
    var i := k - 1 - |PAYLOAD_KEY|;
    var left := (body + "}")[..i];
    CutAfter(",", PAYLOAD_KEY + (body + "}"), k);
    CutAfter(PAYLOAD_KEY, body + "}", k - 1);
    Regroup(",", PAYLOAD_KEY + left, later);
    Regroup(PAYLOAD_KEY, left, later);
    if i < |body| {
      assert left == body[..i];
    } else {
      CutAfter(body, "}", i);
      Regroup(body, "}"[..i - |body|], later);
    }
  }

  lemma CutPayload(torn: Record, next: Record, later: string, k: nat, p: Record)
    requires Resumable(later, next) && ClosesAtItsEnd(torn.payload) && p == Joined(torn, p, Payload)
    requires k <= |"," + PayloadTail(torn)|
    ensures Value(Parse(Payload, ("," + PayloadTail(torn))[..k] + later, p)) ==
            MergedWith(torn, next, later, CutFrom(Payload, torn, k))
  {
    var start, body := ValueStart(Payload), torn.payload;
    if k < start {
      CutBeforeValue(Payload, ("," + PayloadTail(torn))[..k], later, p);
    } else {
      PayloadPrefix(body, k, later);
      if k < start + |body| {
        CutInPayload(torn, next, later, k - start, p);
      } else {
        CutPastPayload(torn, "}"[..k - start - |body|] + later, p);
      }
    }
  }

  lemma CutFromNumber(f: Part, m: Record, k: nat)
    requires IsNumber(f) && ValueStart(f) <= k <= ValueStart(f) + ValueLength(m, f)
    ensures CutFrom(f, m, k) == InNumber(f, Decimal(NumberOf(m, f))[..k - ValueStart(f)])
  {
  }

  lemma CutFromText(f: Part, m: Record, k: nat)
    requires IsText(f) && ValueStart(f) <= k <= ValueStart(f) + ValueLength(m, f)
    ensures CutFrom(f, m, k) == InText(f, ReadOf(TextOf(m, f), k - ValueStart(f)))
  {
  }

  lemma CutHereBefore(f: Part, torn: Record, next: Record, later: string, k: nat, p: Record, after: string)
    requires !f.Payload? && Resumable(later, next) && p == Joined(torn, p, f)
    requires k < ValueStart(f) && k <= |[Lead(f)] + Put(f, torn, after)|
    ensures Value(Parse(f, ([Lead(f)] + Put(f, torn, after))[..k] + later, p)) ==
            MergedWith(torn, next, later, CutFrom(f, torn, k))
  {
    CutBeforeValue(f, ([Lead(f)] + Put(f, torn, after))[..k], later, p);
    assert Parse(f, later, p) == Got(Joined(p, next, f), "}");
  }

  lemma CutHereNumber(f: Part, torn: Record, next: Record, later: string, k: nat, p: Record, after: string)
    requires !f.Payload? && Resumable(later, next) && p == Joined(torn, p, f)
    requires IsNumber(f)
    requires ValueStart(f) <= k <= ValueStart(f) + ValueLength(torn, f) <= |[Lead(f)] + Put(f, torn, after)|
    ensures Value(Parse(f, ([Lead(f)] + Put(f, torn, after))[..k] + later, p)) ==
            MergedWith(torn, next, later, CutFrom(f, torn, k))
  {
    PartPrefix(f, torn, after, k);
    CutFromNumber(f, torn, k);
    CutInNumber(f, torn, next, later, k - ValueStart(f), p);
  }

  lemma CutHereText(f: Part, torn: Record, next: Record, later: string, k: nat, p: Record, after: string)
    requires !f.Payload? && Resumable(later, next) && p == Joined(torn, p, f)
    requires IsText(f)
    requires ValueStart(f) <= k <= ValueStart(f) + ValueLength(torn, f) <= |[Lead(f)] + Put(f, torn, after)|
    ensures Value(Parse(f, ([Lead(f)] + Put(f, torn, after))[..k] + later, p)) ==
            MergedWith(torn, next, later, CutFrom(f, torn, k))
  {
    var i := k - ValueStart(f);
    PartPrefix(f, torn, after, k);
    CutFromText(f, torn, k);
    CutTextValue(f, TextOf(torn, f), i, later);
    TextIsTaken(f, ([Lead(f)] + Put(f, torn, after))[..k] + later, torn, next, later, p,
                ReadOf(TextOf(torn, f), i) + "{");
  }

  lemma CutHere(f: Part, torn: Record, next: Record, later: string, k: nat, p: Record, after: string)
    requires !f.Payload? && Resumable(later, next) && p == Joined(torn, p, f)
    requires k <= ValueStart(f) + ValueLength(torn, f) <= |[Lead(f)] + Put(f, torn, after)|
    ensures Value(Parse(f, ([Lead(f)] + Put(f, torn, after))[..k] + later, p)) ==
            MergedWith(torn, next, later, CutFrom(f, torn, k))
  {
    if k < ValueStart(f) {
      CutHereBefore(f, torn, next, later, k, p, after);
    } else if IsNumber(f) {
      CutHereNumber(f, torn, next, later, k, p, after);
    } else {
      CutHereText(f, torn, next, later, k, p, after);
    }
  }

  lemma CutFurther(f: Part, torn: Record, later: string, k: nat, p: Record, after: string)
    requires !f.Payload? && after != "" && after[0] == ','
    requires ValueStart(f) + ValueLength(torn, f) < k <= |[Lead(f)] + Put(f, torn, after)|
    ensures PartLength(torn, f) <= k <= PartLength(torn, f) + |after|
    ensures Parse(f, ([Lead(f)] + Put(f, torn, after))[..k] + later, p) ==
            Parse(Next(f), after[..k - PartLength(torn, f)] + later, Filled(p, f, torn))
  {
    PutLength(f, torn, after);
    PartPrefix(f, torn, after, k);
    CutPast(f, torn, after[..k - PartLength(torn, f)], later, p);
  }

  lemma PutLength(f: Part, m: Record, after: string)
    requires !f.Payload?
    ensures |[Lead(f)] + Put(f, m, after)| == PartLength(m, f) + |after|
  {
    ValueStartsAfterPattern(f);
  }

  lemma FilledAgrees(f: Part, torn: Record, p: Record)
    requires !f.Payload? && p == Joined(torn, p, f)
    ensures Filled(p, f, torn) == Joined(torn, Filled(p, f, torn), Next(f))
  {
  }

  lemma OnPut(f: Part, m: Record, tail: string)
    requires !f.Payload?
    ensures On(f, m, tail) == [Lead(f)] + Put(f, m, On(Next(f), m, tail))
    ensures |On(f, m, tail)| == PartLength(m, f) + |On(Next(f), m, tail)|
  {
    PutLength(f, m, On(Next(f), m, tail));
  }

  lemma CutGoesOn(f: Part, torn: Record, next: Record, later: string, k: nat, p: Record, after: string)
    requires !f.Payload? && Resumable(later, next) && p == Joined(torn, p, f)
    requires after != "" && after[0] == ','
    requires ValueStart(f) + ValueLength(torn, f) < k <= PartLength(torn, f) + |after|
    requires PartLength(torn, f) <= k &&
             Value(Parse(Next(f), after[..k - PartLength(torn, f)] + later, Filled(p, f, torn))) ==
             MergedWith(torn, next, later, CutFrom(Next(f), torn, k - PartLength(torn, f)))
    ensures k <= |[Lead(f)] + Put(f, torn, after)|
    ensures Value(Parse(f, ([Lead(f)] + Put(f, torn, after))[..k] + later, p)) ==
            MergedWith(torn, next, later, CutFrom(f, torn, k))
  {
    PutLength(f, torn, after);
    CutFurther(f, torn, later, k, p, after);
  }

  /** From any part on, and so from the first, the parser takes what Merged says. */
  lemma {:induction false} CutReads(f: Part, torn: Record, next: Record, later: string, k: nat, p: Record)
    requires Resumable(later, next) && ClosesAtItsEnd(torn.payload) && p == Joined(torn, p, f)
    requires k <= |On(f, torn, PayloadTail(torn))|
    ensures Value(Parse(f, On(f, torn, PayloadTail(torn))[..k] + later, p)) ==
            MergedWith(torn, next, later, CutFrom(f, torn, k))
    decreases 8 - Rank(f)
  {
    if f.Payload? {
      CutPayload(torn, next, later, k, p);
    } else {
      var tail := PayloadTail(torn);
      var after := On(Next(f), torn, tail);
      OnPut(f, torn, tail);
      if k <= ValueStart(f) + ValueLength(torn, f) {
        CutHere(f, torn, next, later, k, p, after);
      } else {
        OnStarts(Next(f), torn, tail);
        FilledAgrees(f, torn, p);
        CutReads(Next(f), torn, next, later, k - PartLength(torn, f), Filled(p, f, torn));
        CutGoesOn(f, torn, next, later, k, p, after);
      }
    }
  }

  /** The length of a line from one part on. */
  function LengthOn(f: Part, m: Record): nat
    decreases 8 - Rank(f)
  {
    if f.Payload? then ValueStart(f) + |m.payload| + 1 else PartLength(m, f) + LengthOn(Next(f), m)
  }

  lemma {:induction false} LengthOfOn(f: Part, m: Record)
    requires ClosesAtItsEnd(m.payload)
    ensures |On(f, m, PayloadTail(m))| == LengthOn(f, m)
    decreases 8 - Rank(f)
  {
    if f.Payload? {
      ValueStartsAfterPattern(f);
    } else {
      OnPut(f, m, PayloadTail(m));
      LengthOfOn(Next(f), m);
    }
  }

  lemma CutFromNext(f: Part, m: Record, k: nat)
    requires !f.Payload? && k > ValueStart(f) + ValueLength(m, f)
    ensures PartLength(m, f) <= k && CutFrom(f, m, k) == CutFrom(Next(f), m, k - PartLength(m, f))
  {
  }

  lemma LengthOnNext(f: Part, m: Record)
    requires !f.Payload?
    ensures LengthOn(f, m) == PartLength(m, f) + LengthOn(Next(f), m)
    ensures LengthOn(Next(f), m) > 2 && PartLength(m, f) >= ValueStart(f) + ValueLength(m, f)
  {
  }

  lemma WholeIsFurther(f: Part, m: Record, k: nat)
    requires !f.Payload? && LengthOn(f, m) <= k + 1
    ensures PartLength(m, f) <= k && LengthOn(Next(f), m) <= k - PartLength(m, f) + 1
    ensures CutFrom(f, m, k) == CutFrom(Next(f), m, k - PartLength(m, f))
  {
    LengthOnNext(f, m);
    CutFromNext(f, m, k);
  }

  /** Whole is the place of a cut that leaves out one character at most. */
  lemma {:induction false} WholeCut(f: Part, m: Record, k: nat)
    requires LengthOn(f, m) <= k + 1
    ensures CutFrom(f, m, k) == Whole
    decreases 8 - Rank(f)
  {
    if f.Payload? {
      WholePayload(m, k);
    } else {
      WholeIsFurther(f, m, k);
      WholeCut(Next(f), m, k - PartLength(m, f));
    }
  }

  lemma WholePayload(m: Record, k: nat)
    requires LengthOn(Payload, m) <= k + 1
    ensures CutFrom(Payload, m, k) == Whole
  {
  }

  /**
    For every cut of the torn line: what the torn line and the next record's line decode to, read as
    the one line they have become.
   */
  lemma MergedLineReads(torn: Record, next: Record, k: nat)
    requires ClosesAtItsEnd(torn.payload) && ClosesAtItsEnd(next.payload) && k <= |JsonLine(torn)|
    ensures FromJsonLine(JsonLine(torn)[..k] + JsonLine(next)) == Merged(torn, next, CutOf(torn, k))
  {
    LineIsResumable(next);
    LineEnds(next, next.payload + "}");
    OnStarts(Version, torn, PayloadTail(torn));
    CutReads(Version, torn, next, JsonLine(next), k, BLANK);
    MergedIsALine(JsonLine(torn)[..k], JsonLine(next));
  }

  lemma MergedIsALine(head: string, line: string)
    requires line != "" && line[0] == '{' && line[|line| - 1] == '}' && (head == "" || head[0] == '{')
    ensures FromJsonLine(head + line) == Value(ParseRecord(head + line))
  {
    assert (head + line)[|head + line| - 1] == '}';
  }

  // ---------------------------------------------------------------------------
  // When the next record comes out as it was
  // ---------------------------------------------------------------------------

  predicate Same(a: Record, b: Record, f: Part) {
    if f.Payload? then a.payload == b.payload
    else if IsNumber(f) then NumberOf(a, f) == NumberOf(b, f)
    else TextOf(a, f) == TextOf(b, f)
  }

  /** The parts before one are the same in both records. */
  ghost predicate AgreeBefore(a: Record, b: Record, f: Part) {
    forall g: Part :: Rank(g) < Rank(f) ==> Same(a, b, g)
  }

  lemma JoinedIsSecondExactly(a: Record, b: Record, f: Part)
    ensures Joined(a, b, f) == b <==> AgreeBefore(a, b, f)
  {
    if AgreeBefore(a, b, f) {
      assert Rank(f) > 1 ==> Same(a, b, Version);
      assert Rank(f) > 2 ==> Same(a, b, Channel);
      assert Rank(f) > 3 ==> Same(a, b, Session);
      assert Rank(f) > 4 ==> Same(a, b, Sequence);
      assert Rank(f) > 5 ==> Same(a, b, Uuid);
      assert Rank(f) > 6 ==> Same(a, b, Utc);
      assert Rank(f) > 7 ==> Same(a, b, Kind);
    }
  }

  /** The complete parts agree with the next record's, and so does what the cut part is read as. */
  ghost predicate Recovers(torn: Record, next: Record, cut: Cut) {
    RecoversWith(torn, next, JsonLine(next), cut)
  }

  ghost predicate RecoversWith(torn: Record, next: Record, later: string, cut: Cut) {
    match cut
    case Before(f) => AgreeBefore(torn, next, f)
    case InNumber(f, digits) =>
      && IsNumber(f) && AgreeBefore(torn, next, f)
      && digits != "" && AllDigits(digits) && DecimalValue(digits) == NumberOf(next, f)
    case InText(f, read) => IsText(f) && AgreeBefore(torn, next, f) && read + "{" == TextOf(next, f)
    case InPayload(text) =>
      AgreeBefore(torn, next, Payload) && Value(ScanObject(text + later)) == Some(next.payload)
    case Whole => torn == next
  }

  lemma WithTextIsExact(a: Record, b: Record, f: Part, s: string)
    requires IsText(f)
    ensures WithText(Joined(a, b, f), f, s) == b <==> AgreeBefore(a, b, f) && s == TextOf(b, f)
  {
    JoinedIsSecondExactly(a, b, f);
  }

  lemma WithNumberIsExact(a: Record, b: Record, f: Part, n: Uint64)
    requires IsNumber(f) && (f.Version? ==> n <= MAX_UINT32)
    ensures WithNumber(Joined(a, b, f), f, n) == b <==> AgreeBefore(a, b, f) && n == NumberOf(b, f)
  {
    JoinedIsSecondExactly(a, b, f);
  }

  lemma WithPayloadIsExact(a: Record, b: Record, payload: string)
    ensures a.(payload := payload) == b <==> AgreeBefore(a, b, Payload) && payload == b.payload
  {
    JoinedIsSecondExactly(a, b, Payload);
    assert a.(payload := payload) == Joined(a, b, Payload).(payload := payload);
  }

  lemma MergedIsNextExactly(torn: Record, next: Record, cut: Cut)
    ensures Merged(torn, next, cut) == Some(next) <==> Recovers(torn, next, cut)
  {
    match cut
    case Before(f) => JoinedIsSecondExactly(torn, next, f);
    case InNumber(f, digits) =>
      if digits != "" && AllDigits(digits) && IsNumber(f) {
        var n := DecimalValue(digits);
        if n <= MAX_UINT64 && (f.Version? ==> n <= MAX_UINT32) {
          WithNumberIsExact(torn, next, f, n);
        }
      }
    case InText(f, read) =>
      if IsText(f) {
        WithTextIsExact(torn, next, f, read + "{");
      }
    case InPayload(text) =>
      var r := ScanObject(text + JsonLine(next));
      if r.Got? {
        WithPayloadIsExact(torn, next, r.value);
      }
    case Whole =>
  }

  /** For every cut: the record after a torn tail comes out as it was exactly when Recovers says so. */
  lemma NextIsRecoveredExactly(torn: Record, next: Record, k: nat)
    requires ClosesAtItsEnd(torn.payload) && ClosesAtItsEnd(next.payload) && k <= |JsonLine(torn)|
    ensures FromJsonLine(JsonLine(torn)[..k] + JsonLine(next)) == Some(next) <==>
            Recovers(torn, next, CutOf(torn, k))
  {
    MergedLineReads(torn, next, k);
    MergedIsNextExactly(torn, next, CutOf(torn, k));
  }

  // ---------------------------------------------------------------------------
  // Within one session
  // ---------------------------------------------------------------------------

  /** Two records of one session, the second appended later. */
  predicate Later(torn: Record, next: Record) {
    && torn.schemaVersion == next.schemaVersion && torn.channelId == next.channelId
    && torn.sessionId == next.sessionId && torn.sequence < next.sequence
  }

  /** What a cut leaves of a value is a beginning of it. */
  ghost predicate IsCutOf(m: Record, cut: Cut) {
    match cut
    case InNumber(f, digits) => IsNumber(f) && digits <= Decimal(NumberOf(m, f))
    case InText(f, read) => IsText(f) && exists i :: 0 <= i <= |Escape(TextOf(m, f))| && read == ReadOf(TextOf(m, f), i)
    case _ => true
  }

  lemma {:induction false} CutFromIsCut(f: Part, m: Record, k: nat)
    ensures IsCutOf(m, CutFrom(f, m, k))
    decreases 8 - Rank(f)
  {
    if !f.Payload? && k > ValueStart(f) + ValueLength(m, f) {
      CutFromIsCut(Next(f), m, k - PartLength(m, f));
    } else if IsText(f) && k >= ValueStart(f) {
      assert CutFrom(f, m, k).read == ReadOf(TextOf(m, f), k - ValueStart(f));
    }
  }

  /** A number with a digit missing is a smaller number. */
  lemma MissingDigitIsLess(n: nat, digits: string)
    requires digits <= Decimal(n) && digits != "" && digits != Decimal(n)
    ensures AllDigits(digits) && DecimalValue(digits) < n
  {
    var d := Decimal(n);
    assert |digits| < |d|;
    assert |d| > 1;
    assert d == Decimal(n / 10) + [DigitChar(n % 10)];
    assert digits == Decimal(n / 10)[..|digits|];
    DecimalPrefixIsSmaller(Decimal(n / 10), |digits|);
    DecimalRoundTrip(n / 10);
  }

  /**
    In a session, the record after a torn tail is recovered exactly when the cut comes before the
    torn sequence number starts, and neither leaves the version with a digit missing nor splits the
    channel or session name, save where what is left of the name ends it but for a brace.
   */
  lemma RecoveredInSessionExactly(torn: Record, next: Record, k: nat)
    requires ClosesAtItsEnd(torn.payload) && ClosesAtItsEnd(next.payload) && k <= |JsonLine(torn)|
    requires Later(torn, next)
    ensures FromJsonLine(JsonLine(torn)[..k] + JsonLine(next)) == Some(next) <==>
            match CutOf(torn, k)
            case Before(f) => Rank(f) <= Rank(Sequence)
            case InNumber(f, digits) => f.Version? && digits == Decimal(torn.schemaVersion)
            case InText(f, read) => (f.Channel? || f.Session?) && read + "{" == TextOf(torn, f)
            case _ => false
  {
    NextIsRecoveredExactly(torn, next, k);
    CutFromIsCut(Version, torn, k);
    RecoversInSession(torn, next, JsonLine(next), CutOf(torn, k));
  }

  lemma RecoversInSession(torn: Record, next: Record, later: string, cut: Cut)
    requires Later(torn, next) && IsCutOf(torn, cut)
    ensures RecoversWith(torn, next, later, cut) <==>
            match cut
            case Before(f) => Rank(f) <= Rank(Sequence)
            case InNumber(f, digits) => f.Version? && digits == Decimal(torn.schemaVersion)
            case InText(f, read) => (f.Channel? || f.Session?) && read + "{" == TextOf(torn, f)
            case _ => false
  {
    match cut
    case Before(f) => AgreesInSession(torn, next, f);
    case InNumber(f, digits) =>
      AgreesInSession(torn, next, f);
      NumberInSession(torn, next, f, digits);
    case InText(f, read) =>
      AgreesInSession(torn, next, f);
      TextInSession(torn, next, f);
    case InPayload(_) => AgreesInSession(torn, next, Payload);
    case Whole =>
  }

  lemma TextInSession(torn: Record, next: Record, f: Part)
    requires Later(torn, next) && IsText(f)
    ensures Rank(f) <= Rank(Sequence) <==> f.Channel? || f.Session?
    ensures Rank(f) <= Rank(Sequence) ==> TextOf(next, f) == TextOf(torn, f)
  {
  }

  lemma NumberInSession(torn: Record, next: Record, f: Part, digits: string)
    requires Later(torn, next) && IsNumber(f) && digits <= Decimal(NumberOf(torn, f))
    ensures digits != "" && AllDigits(digits) && DecimalValue(digits) == NumberOf(next, f) <==>
            f.Version? && digits == Decimal(torn.schemaVersion)
  {
    var n := NumberOf(torn, f);
    DecimalRoundTrip(n);
    if digits != "" && digits != Decimal(n) {
      MissingDigitIsLess(n, digits);
    }
  }

  lemma AgreesInSession(torn: Record, next: Record, f: Part)
    requires Later(torn, next)
    ensures AgreeBefore(torn, next, f) <==> Rank(f) <= Rank(Sequence)
  {
    assert !Same(torn, next, Sequence);
    forall g: Part | Rank(g) < Rank(Sequence)
      ensures Same(torn, next, g)
    {
    }
  }

  /**
    A cut inside the torn sequence number gives a record nobody appended: the next record under the
    number that the remaining digits make, which is none that the session has yet to use.
   */
  lemma CutSequenceGivesHybrid(torn: Record, next: Record, k: nat)
    requires ClosesAtItsEnd(torn.payload) && ClosesAtItsEnd(next.payload) && k <= |JsonLine(torn)|
    requires Later(torn, next) && CutOf(torn, k).InNumber? && CutOf(torn, k).part.Sequence?
    ensures var digits := CutOf(torn, k).digits;
            && digits <= Decimal(torn.sequence) && AllDigits(digits) && DecimalValue(digits) <= torn.sequence
            && FromJsonLine(JsonLine(torn)[..k] + JsonLine(next)) ==
               if digits == "" then None else Some(next.(sequence := DecimalValue(digits)))
  {
    MergedLineReads(torn, next, k);
    CutFromIsCut(Version, torn, k);
    MergedSequence(torn, next, JsonLine(next), CutOf(torn, k).digits);
  }

  lemma MergedSequence(torn: Record, next: Record, later: string, digits: string)
    requires Later(torn, next) && digits <= Decimal(torn.sequence)
    ensures AllDigits(digits) && DecimalValue(digits) <= torn.sequence
    ensures MergedWith(torn, next, later, InNumber(Sequence, digits)) ==
            if digits == "" then None else Some(next.(sequence := DecimalValue(digits)))
  {
    DigitsStay(torn.sequence, digits, |digits|);
    AgreesInSession(torn, next, Sequence);
    JoinedIsSecondExactly(torn, next, Sequence);
  }

  // ---------------------------------------------------------------------------
  // A cut inside the payload
  // ---------------------------------------------------------------------------

  /** The depth the matcher is at after a text, if it is then outside strings and not done before. */
  function DepthAfter(t: string, depth: nat): Option<nat>
    decreases |t|, 1
  {
    if t == "" then Some(depth)
    else if depth == 0 then None
    else if t[0] == '{' then DepthAfter(t[1..], depth + 1)
    else if t[0] == '}' then DepthAfter(t[1..], depth - 1)
    else if t[0] == '"' then DepthAfterString(t[1..], '"', depth)
    else DepthAfter(t[1..], depth)
  }

  function DepthAfterString(t: string, previous: char, depth: nat): Option<nat>
    decreases |t|, 0
  {
    if t == "" then None
    else if t[0] == '"' && previous != '\\' then DepthAfter(t[1..], depth)
    else DepthAfterString(t[1..], t[0], depth)
  }

  lemma {:induction false} OutsideGoesOn(t: string, u: string, depth: nat)
    requires DepthAfter(t, depth).Some?
    ensures Outside(t + u, depth) == Outside(u, DepthAfter(t, depth).value)
    decreases |t|, 1
  {
    if t == "" {
      assert t + u == u;
    } else {
      assert (t + u)[1..] == t[1..] + u;
      if t[0] == '{' {
        OutsideGoesOn(t[1..], u, depth + 1);
      } else if t[0] == '}' {
        OutsideGoesOn(t[1..], u, depth - 1);
      } else if t[0] == '"' {
        InsideGoesOn(t[1..], u, '"', depth);
      } else {
        OutsideGoesOn(t[1..], u, depth);
      }
    }
  }

  lemma {:induction false} InsideGoesOn(t: string, u: string, previous: char, depth: nat)
    requires DepthAfterString(t, previous, depth).Some?
    ensures Inside(t + u, previous, depth) == Outside(u, DepthAfterString(t, previous, depth).value)
    decreases |t|, 0
  {
    assert (t + u)[1..] == t[1..] + u;
    if t[0] == '"' && previous != '\\' {
      OutsideGoesOn(t[1..], u, depth);
    } else {
      InsideGoesOn(t[1..], u, t[0], depth);
    }
  }

  /** What closes from one depth takes a deeper matcher up by as much. */
  lemma {:induction false} OutsideDeeper(t: string, depth: nat, more: nat)
    requires Outside(t, depth).Some?
    ensures Outside(t, depth + more) == Outside(Outside(t, depth).value, more)
    decreases |t|, 1
  {
    if depth > 0 {
      if t[0] == '{' {
        OutsideDeeper(t[1..], depth + 1, more);
      } else if t[0] == '}' {
        OutsideDeeper(t[1..], depth - 1, more);
      } else if t[0] == '"' {
        InsideDeeper(t[1..], '"', depth, more);
      } else {
        OutsideDeeper(t[1..], depth, more);
      }
    }
  }

  lemma {:induction false} InsideDeeper(t: string, previous: char, depth: nat, more: nat)
    requires Inside(t, previous, depth).Some?
    ensures Inside(t, previous, depth + more) == Outside(Inside(t, previous, depth).value, more)
    decreases |t|, 0
  {
    if t[0] == '"' && previous != '\\' {
      OutsideDeeper(t[1..], depth, more);
    } else {
      InsideDeeper(t[1..], t[0], depth, more);
    }
  }

  /**
    Cut in its payload, outside the payload's strings, the line is lost with the next record: the
    payload stays open to the end. Cut just before the payload, it takes the next line for its payload.
   */
  lemma CutInPayloadSwallowsNext(torn: Record, next: Record, k: nat, text: string)
    requires ClosesAtItsEnd(torn.payload) && ClosesAtItsEnd(next.payload) && ClosesAtItsEnd(JsonLine(next))
    requires k <= |JsonLine(torn)| && CutOf(torn, k) == InPayload(text)
    requires text == "" || (text[0] == '{' && DepthAfter(text[1..], 1).Some? && DepthAfter(text[1..], 1).value > 0)
    ensures FromJsonLine(JsonLine(torn)[..k] + JsonLine(next)) ==
            if text == "" then Some(torn.(payload := JsonLine(next))) else None
  {
    MergedLineReads(torn, next, k);
    OpenObjectSwallows(text, JsonLine(next));
  }

  lemma OpenObjectSwallows(text: string, line: string)
    requires ClosesAtItsEnd(line)
    requires text == "" || (text[0] == '{' && DepthAfter(text[1..], 1).Some?)
    requires text != "" ==> DepthAfter(text[1..], 1).value > 0
    ensures ScanObject(text + line) == if text == "" then Got(line, "") else Fail
  {
    if text == "" {
      assert text + line == line;
    } else {
      assert (text + line)[1..] == text[1..] + line;
      OutsideGoesOn(text[1..], line, 1);
      ClosedTextStaysInside(line, DepthAfter(text[1..], 1).value);
    }
  }

  lemma ClosedTextStaysInside(line: string, depth: nat)
    requires ClosesAtItsEnd(line) && depth > 0
    ensures Outside(line, depth) == None
  {
    OutsideDeeper(line[1..], 1, depth);
    assert Outside("", depth) == None;
  }

  // ---------------------------------------------------------------------------
  // Written out
  // ---------------------------------------------------------------------------

  /** One record of a session named c and s, written out. */
  function Sample(sequence: Uint64): Record {
    Record(1, "c", "s", sequence, "u", "t", "k", "{}")
  }

  lemma SampleIsReadable(sequence: Uint64)
    ensures ClosesAtItsEnd(Sample(sequence).payload)
  {
    assert "{}"[1..] == "}" && "}"[1..] == "" && "{}"[..2] == "{}";
    assert Outside("", 0) == Some("");
  }

  /** Cut after the first digit of 12, the line goes on with record 13, and record 1 comes back. */
  lemma OldSequenceComesBack()
    ensures var torn, next := Sample(12), Sample(13);
            exists k :: 0 <= k <= |JsonLine(torn)| &&
              FromJsonLine(JsonLine(torn)[..k] + JsonLine(next)) == Some(next.(sequence := 1))
  {
    var torn, next := Sample(12), Sample(13);
    var start := PartLength(torn, Version) + PartLength(torn, Channel) + PartLength(torn, Session);
    var k := start + ValueStart(Sequence) + 1;
    SampleIsReadable(12);
    SampleIsReadable(13);
    TwelveStartsWithOne();
    CutInSampleSequence(k, start);
    OnPut(Version, torn, PayloadTail(torn));
    OnPut(Channel, torn, PayloadTail(torn));
    OnPut(Session, torn, PayloadTail(torn));
    OnPut(Sequence, torn, PayloadTail(torn));
    CutSequenceGivesHybrid(torn, next, k);
  }

  lemma TwelveStartsWithOne()
    ensures |Decimal(12)| == 2 && Decimal(12)[..1] == "1" && DecimalValue("1") == 1
  {
    assert Decimal(12) == Decimal(1) + [DigitChar(2)] && Decimal(1) == [DigitChar(1)];
    assert "1"[..0] == "";
  }

  lemma CutInSampleSequence(k: nat, start: nat)
    requires start == PartLength(Sample(12), Version) + PartLength(Sample(12), Channel) + PartLength(Sample(12), Session)
    requires k == start + ValueStart(Sequence) + 1
    ensures CutOf(Sample(12), k) == InNumber(Sequence, "1")
  {
    var m := Sample(12);
    TwelveStartsWithOne();
    assert CutFrom(Version, m, k) == CutFrom(Channel, m, k - PartLength(m, Version));
    assert CutFrom(Channel, m, k - PartLength(m, Version)) ==
           CutFrom(Session, m, k - PartLength(m, Version) - PartLength(m, Channel));
  }
}
