/**
  The delivery client's field extractors: each searches the payload text for a quoted key and a
  colon, and reads the value that follows. Nothing else in the payload is parsed, so they are right
  only because no value, once escaped, can contain what they search for.
 */
module PayloadExtract {
  import opened Common
  import opened JsonText
  import opened KeySearch

  const MIN_INT64: int := -0x8000_0000_0000_0000
  const MAX_INT64: int := 0x7FFF_FFFF_FFFF_FFFF

  type Int64 = n: int | MIN_INT64 <= n <= MAX_INT64
  type Int32 = n: int | -0x8000_0000 <= n <= 0x7FFF_FFFF

  // ---------------------------------------------------------------------------
  // What the extractors compute
  // ---------------------------------------------------------------------------

  predicate IsKnownEscape(c: char) {
    c == '"' || c == '\\' || c == 'n'
  }

  /** A string value up to its closing quote; only three of the five escapes are undone. */
  function ScanValue(t: string): Option<string>
    decreases |t|
  {
    if t == "" then None
    else if t[0] == '\\' && |t| > 1 && IsKnownEscape(t[1]) then
      Prepended(if t[1] == 'n' then '\n' else t[1], ScanValue(t[2..]))
    else if t[0] == '"' then Some("")
    else Prepended(t[0], ScanValue(t[1..]))
  }

  function Prepended(c: char, r: Option<string>): Option<string> {
    match r
    case None => None
    case Some(s) => Some([c] + s)
  }

  function ExtractString(json: string, key: string): Option<string> {
    match FindAfter(json, TextPattern(key))
    case None => None
    case Some(t) => ScanValue(t)
  }

  function SkipBlanks(t: string): string {
    if t != "" && t[0] == ' ' then SkipBlanks(t[1..]) else t
  }

  /** std::stoll and std::stoull on a run of digits: None when out of range. */
  function Bounded(digits: string, max: nat): Option<nat>
    requires AllDigits(digits)
  {
    if digits == "" || DecimalValue(digits) > max then None else Some(DecimalValue(digits))
  }

  function ScanInt64(t: string): Option<Int64> {
    var u := SkipBlanks(t);
    var negative := u != "" && u[0] == '-';
    match Bounded(DigitsOf(if negative then u[1..] else u), MAX_INT64)
    case None => None
    case Some(v) =>
      var n: int := v;
      Some(if negative then -n else n)
  }

  function ExtractInt64(json: string, key: string): Option<Int64> {
    match FindAfter(json, KeyPattern(key))
    case None => None
    case Some(t) => ScanInt64(t)
  }

  function ExtractUint64(json: string, key: string): Option<Uint64> {
    match FindAfter(json, KeyPattern(key))
    case None => None
    case Some(t) => Bounded(DigitsOf(SkipBlanks(t)), MAX_UINT64)
  }

  /** static_cast<int32_t>: the low 32 bits, read as a signed number. */
  function Low32(v: Int64): Int32 {
    var low := v % 0x1_0000_0000;
    if low > 0x7FFF_FFFF then low - 0x1_0000_0000 else low
  }

  function ExtractInt32(json: string, key: string): Option<Int32> {
    match ExtractInt64(json, key)
    case None => None
    case Some(v) => Some(Low32(v))
  }

  function ExtractBool(json: string, key: string): Option<bool> {
    match FindAfter(json, KeyPattern(key))
    case None => None
    case Some(t) =>
      var u := SkipBlanks(t);
      if "true" <= u then Some(true) else if "false" <= u then Some(false) else None
  }

  // ---------------------------------------------------------------------------
  // The extractors' loops
  // ---------------------------------------------------------------------------

  ghost function Joined(out: string, r: Option<string>): Option<string> {
    match r
    case None => None
    case Some(s) => Some(out + s)
  }

  lemma JoinedStep(out: string, c: char, r: Option<string>)
    ensures Joined(out, Prepended(c, r)) == Joined(out + [c], r)
  {
    if r.Some? {
      Regroup(out, [c], r.value);
    }
  }

  method ReadString(json: string, key: string) returns (r: Option<string>)
    ensures r == ExtractString(json, key)
  {
    var found := FindAfter(json, TextPattern(key));
    if found.None? {
      return None;
    }
    r := ReadValue(found.value);
  }

  method ReadValue(t: string) returns (r: Option<string>)
    ensures r == ScanValue(t)
  {
    var i, out := 0, "";
    ghost var wanted := ScanValue(t);
    assert t[0..] == t;
    assert wanted.Some? ==> "" + wanted.value == wanted.value;
    while i < |t|
      invariant i <= |t|
      invariant wanted == Joined(out, ScanValue(t[i..]))
    {
      assert t[i..][1..] == t[i + 1..];
      if t[i] == '\\' && i + 1 < |t| && IsKnownEscape(t[i + 1]) {
        var c := if t[i + 1] == 'n' then '\n' else t[i + 1];
        assert t[i..][2..] == t[i + 2..];
        JoinedStep(out, c, ScanValue(t[i + 2..]));
        out := out + [c];
        i := i + 2;
      } else if t[i] == '"' {
        assert out + "" == out;
        return Some(out);
      } else {
        JoinedStep(out, t[i], ScanValue(t[i + 1..]));
        out := out + [t[i]];
        i := i + 1;
      }
    }
    return None;
  }

  method SkipBlanksFrom(t: string) returns (start: nat)
    ensures start <= |t| && t[start..] == SkipBlanks(t)
  {
    start := 0;
    assert t[0..] == t;
    while start < |t| && t[start] == ' '
      invariant start <= |t| && SkipBlanks(t) == SkipBlanks(t[start..])
    {
      assert t[start..][1..] == t[start + 1..];
      start := start + 1;
    }
  }

  method DigitsEnd(t: string, start: nat) returns (end: nat)
    requires start <= |t|
    ensures start <= end <= |t| && t[start..end] == DigitsOf(t[start..])
  {
    end := start;
    while end < |t| && IsDigit(t[end])
      invariant start <= end <= |t|
      invariant DigitsOf(t[start..]) == t[start..end] + DigitsOf(t[end..])
    {
      assert t[end..][1..] == t[end + 1..];
      assert t[start..end + 1] == t[start..end] + [t[end]];
      Regroup(t[start..end], [t[end]], DigitsOf(t[end + 1..]));
      end := end + 1;
    }
    assert DigitsOf(t[end..]) == "";
  }

  method ReadInt64(json: string, key: string) returns (r: Option<Int64>)
    ensures r == ExtractInt64(json, key)
  {
    var found := FindAfter(json, KeyPattern(key));
    if found.None? {
      return None;
    }
    r := ReadSigned(found.value);
  }

  method ReadSigned(t: string) returns (r: Option<Int64>)
    ensures r == ScanInt64(t)
  {
    var start := SkipBlanksFrom(t);
    var negative := start < |t| && t[start] == '-';
    assert negative ==> t[start..][1..] == t[start + 1..];
    if negative {
      start := start + 1;
    }
    var end := DigitsEnd(t, start);
    var v := Bounded(t[start..end], MAX_INT64);
    if v.None? {
      return None;
    }
    var n: int := v.value;
    return Some(if negative then -n else n);
  }

  method ReadUint64(json: string, key: string) returns (r: Option<Uint64>)
    ensures r == ExtractUint64(json, key)
  {
    var found := FindAfter(json, KeyPattern(key));
    if found.None? {
      return None;
    }
    var start := SkipBlanksFrom(found.value);
    var end := DigitsEnd(found.value, start);
    return Bounded(found.value[start..end], MAX_UINT64);
  }

  method ReadBool(json: string, key: string) returns (r: Option<bool>)
    ensures r == ExtractBool(json, key)
  {
    var found := FindAfter(json, KeyPattern(key));
    if found.None? {
      return None;
    }
    var start := SkipBlanksFrom(found.value);
    if "true" <= found.value[start..] {
      return Some(true);
    }
    return if "false" <= found.value[start..] then Some(false) else None;
  }

  // ---------------------------------------------------------------------------
  // A key is found only where it was printed
  // ---------------------------------------------------------------------------

  predicate Flat(f: Fields) {
    f.Field? ==> !f.value.Object? && IsName(f.key) && Flat(f.others)
  }

  /** The fields from the first one with this key on. */
  function Named(f: Fields, key: string): (g: Fields)
    ensures g.Field? ==> g.key == key
    ensures Flat(f) ==> Flat(g)
  {
    if f.NoFields? || f.key == key then f else Named(f.others, key)
  }

  /** What follows a field's value in the printed object. */
  function Closing(others: Fields): string {
    if others.NoFields? then "}" else "," + (PrintFields(others) + "}")
  }

  lemma FieldStart(g: Fields)
    requires g.Field?
    ensures PrintFields(g) + "}" == KeyPattern(g.key) + (Print(g.value) + Closing(g.others))
  {
    var more := if g.others.NoFields? then "" else "," + PrintFields(g.others);
    Regroup(KeyPattern(g.key), Print(g.value) + more, "}");
    Regroup(Print(g.value), more, "}");
    Regroup(",", PrintFields(g.others), "}");
  }

  lemma {:induction false} FindSkipsToNamed(f: Fields, pat: string, key: string)
    requires Flat(f) && SearchesFor(pat, key)
    ensures FindAfter(PrintFields(f) + "}", pat) == FindAfter(PrintFields(Named(f, key)) + "}", pat)
  {
    if f.Field? && f.key != key {
      var more := Closing(f.others);
      FieldStart(f);
      FindSkipsKey(f.key, Print(f.value) + more, pat, key);
      FindSkipsValue(f.value, more, pat, key);
      if f.others.Field? {
        FindSkipsPlain(",", PrintFields(f.others) + "}", pat);
      } else {
        assert PrintFields(f.others) + "}" == more;
      }
      FindSkipsToNamed(f.others, pat, key);
    }
  }

  lemma ObjectSearch(f: Fields, pat: string, key: string)
    requires Flat(f) && SearchesFor(pat, key)
    ensures FindAfter(Print(Object(f)), pat) == FindAfter(PrintFields(Named(f, key)) + "}", pat)
  {
    FindSkipsPlain("{", PrintFields(f) + "}", pat);
    FindSkipsToNamed(f, pat, key);
  }

  /** Searching a printed object for a key ends at the field with that key, or nowhere. */
  lemma KeyIsFoundWherePrinted(f: Fields, key: string)
    requires Flat(f) && IsName(key)
    ensures var g := Named(f, key);
            FindAfter(Print(Object(f)), KeyPattern(key)) ==
            if g.NoFields? then None else Some(Print(g.value) + Closing(g.others))
  {
    ObjectSearch(f, KeyPattern(key), key);
    FindFirstField(Named(f, key), KeyPattern(key));
  }

  lemma FindFirstField(g: Fields, pat: string)
    requires pat != "" && pat[0] == '"' && (g.Field? ==> pat == KeyPattern(g.key))
    ensures FindAfter(PrintFields(g) + "}", pat) ==
            if g.NoFields? then None else Some(Print(g.value) + Closing(g.others))
  {
    if g.Field? {
      var after := Print(g.value) + Closing(g.others);
      FieldStart(g);
      FindHere(pat, after);
    } else {
      assert PrintFields(g) + "}" == "}";
      assert "}"[1..] == "";
    }
  }

  // ---------------------------------------------------------------------------
  // Values come back
  // ---------------------------------------------------------------------------

  /** The two escapes the extractor does not know stay as they were printed. */
  function RestoredChar(c: char): string {
    if c == '\r' then "\\r" else if c == '\t' then "\\t" else [c]
  }

  function Restored(s: string): string {
    if s == "" then "" else RestoredChar(s[0]) + Restored(s[1..])
  }

  lemma {:induction false} RestoredIsExact(s: string)
    ensures |Restored(s)| >= |s|
    ensures Restored(s) == s <==> '\r' !in s && '\t' !in s
  {
    if s != "" {
      RestoredIsExact(s[1..]);
      assert s == [s[0]] + s[1..];
      if s[0] != '\r' && s[0] != '\t' {
        assert Restored(s)[1..] == Restored(s[1..]);
      }
    }
  }

  lemma ScanPlain(c: char, later: string)
    requires c != '\\' && c != '"'
    ensures ScanValue([c] + later) == Prepended(c, ScanValue(later))
  {
    assert ([c] + later)[1..] == later;
  }

  lemma ScanKnownPair(c: char, later: string)
    requires IsKnownEscape(c)
    ensures ScanValue(['\\', c] + later) == Prepended(if c == 'n' then '\n' else c, ScanValue(later))
  {
    assert (['\\', c] + later)[2..] == later;
  }

  lemma ScanUnknownPair(c: char, later: string)
    requires c == 'r' || c == 't'
    ensures ScanValue(['\\', c] + later) == Prepended('\\', Prepended(c, ScanValue(later)))
  {
    assert (['\\', c] + later)[1..] == [c] + later;
    ScanPlain(c, later);
  }

  lemma ScanEscapedChar(c: char, later: string)
    requires ScanValue(later).Some?
    ensures ScanValue(EscapeChar(c) + later) == Some(RestoredChar(c) + ScanValue(later).value)
  {
    if c == '\r' || c == '\t' {
      var letter := if c == '\r' then 'r' else 't';
      assert EscapeChar(c) == ['\\', letter] && RestoredChar(c) == ['\\'] + [letter];
      ScanUnknownPair(letter, later);
      Regroup(['\\'], [letter], ScanValue(later).value);
    } else if c == '"' || c == '\\' || c == '\n' {
      var letter := if c == '\n' then 'n' else c;
      assert EscapeChar(c) == ['\\', letter];
      ScanKnownPair(letter, later);
    } else {
      ScanPlain(c, later);
    }
  }

  lemma {:induction false} ScanValueEscaped(s: string, r: string)
    ensures ScanValue(Escape(s) + ("\"" + r)) == Some(Restored(s))
  {
    if s == "" {
      assert Escape(s) + ("\"" + r) == "\"" + r;
    } else {
      ScanValueEscaped(s[1..], r);
      Regroup(EscapeChar(s[0]), Escape(s[1..]), "\"" + r);
      ScanEscapedChar(s[0], Escape(s[1..]) + ("\"" + r));
    }
  }

  lemma ValueStart(v: Json, others: Fields)
    ensures Print(v) + Closing(others) != ""
    ensures Closing(others) != "" && !IsDigit(Closing(others)[0])
  {
  }

  lemma TextFieldStart(g: Fields)
    requires g.Field? && g.value.Text?
    ensures PrintFields(g) + "}" == TextPattern(g.key) + (Escape(g.value.s) + ("\"" + Closing(g.others)))
  {
    var s, closing := Escape(g.value.s), Closing(g.others);
    FieldStart(g);
    Regroup("\"", s + "\"", closing);
    Regroup(s, "\"", closing);
    Regroup(KeyPattern(g.key), "\"", s + ("\"" + closing));
  }

  /** A text comes back as printed, except that carriage returns and tabs stay escaped. */
  lemma TextComesBack(f: Fields, key: string)
    requires Flat(f) && IsName(key) && Named(f, key).Field? && Named(f, key).value.Text?
    ensures ExtractString(Print(Object(f)), key) == Some(Restored(Named(f, key).value.s))
  {
    var g := Named(f, key);
    var rest := Escape(g.value.s) + ("\"" + Closing(g.others));
    ObjectSearch(f, TextPattern(key), key);
    TextFieldStart(g);
    FindHere(TextPattern(key), rest);
    ScanValueEscaped(g.value.s, Closing(g.others));
  }

  lemma TextComesBackExactly(f: Fields, key: string)
    requires Flat(f) && IsName(key) && Named(f, key).Field? && Named(f, key).value.Text?
    ensures var s := Named(f, key).value.s;
            ExtractString(Print(Object(f)), key) == Some(s) <==> '\r' !in s && '\t' !in s
  {
    TextComesBack(f, key);
    RestoredIsExact(Named(f, key).value.s);
  }

  lemma DecimalStarts(n: nat, r: string)
    requires r != "" && !IsDigit(r[0])
    ensures SkipBlanks(Decimal(n) + r) == Decimal(n) + r
    ensures (Decimal(n) + r)[0] != '-'
    ensures DigitsOf(Decimal(n) + r) == Decimal(n) && DecimalValue(Decimal(n)) == n
  {
    var d := Decimal(n);
    assert (d + r)[0] == d[0];
    DigitsStopAt(d, r);
    DecimalRoundTrip(n);
  }

  lemma SignedScans(n: Int64, r: string)
    requires r != "" && !IsDigit(r[0])
    ensures ScanInt64(Signed(n) + r) == if n == MIN_INT64 then None else Some(n)
  {
    if n < 0 {
      var k: int := n;
      var m: nat := -k;
      DecimalStarts(m, r);
      assert Signed(n) + r == "-" + (Decimal(m) + r);
      assert ("-" + (Decimal(m) + r))[1..] == Decimal(m) + r;
    } else {
      DecimalStarts(n, r);
    }
  }

  /** A signed 64-bit number comes back, except the least one: its magnitude does not fit. */
  lemma Int64ComesBack(f: Fields, key: string)
    requires Flat(f) && IsName(key) && Named(f, key).Field? && Named(f, key).value.Number?
    requires MIN_INT64 <= Named(f, key).value.n <= MAX_INT64
    ensures var n := Named(f, key).value.n;
            ExtractInt64(Print(Object(f)), key) == if n == MIN_INT64 then None else Some(n)
  {
    var g := Named(f, key);
    KeyIsFoundWherePrinted(f, key);
    ValueStart(g.value, g.others);
    SignedScans(g.value.n, Closing(g.others));
  }

  lemma Low32OfInt32(v: Int32)
    ensures Low32(v) == v
  {
  }

  lemma Int32ComesBack(f: Fields, key: string)
    requires Flat(f) && IsName(key) && Named(f, key).Field? && Named(f, key).value.Number?
    requires -0x8000_0000 <= Named(f, key).value.n <= 0x7FFF_FFFF
    ensures ExtractInt32(Print(Object(f)), key) == Some(Named(f, key).value.n)
  {
    Int64ComesBack(f, key);
    Low32OfInt32(Named(f, key).value.n);
  }

  lemma Uint64ComesBack(f: Fields, key: string)
    requires Flat(f) && IsName(key) && Named(f, key).Field? && Named(f, key).value.Number?
    requires 0 <= Named(f, key).value.n <= MAX_UINT64
    ensures ExtractUint64(Print(Object(f)), key) == Some(Named(f, key).value.n)
  {
    var g := Named(f, key);
    KeyIsFoundWherePrinted(f, key);
    ValueStart(g.value, g.others);
    DecimalStarts(g.value.n, Closing(g.others));
  }

  lemma BoolComesBack(f: Fields, key: string)
    requires Flat(f) && IsName(key) && Named(f, key).Field? && Named(f, key).value.Flag?
    ensures ExtractBool(Print(Object(f)), key) == Some(Named(f, key).value.b)
  {
    var g := Named(f, key);
    var t := Print(g.value) + Closing(g.others);
    KeyIsFoundWherePrinted(f, key);
    assert t[0] == (if g.value.b then 't' else 'f');
    if g.value.b {
      assert "true" <= t;
    } else {
      assert "false" <= t;
    }
  }

  /** A key that was not printed is not found, whatever the values say. */
  lemma AbsentKeyIsNotFound(f: Fields, key: string)
    requires Flat(f) && IsName(key) && Named(f, key).NoFields?
    ensures ExtractInt64(Print(Object(f)), key) == None && ExtractUint64(Print(Object(f)), key) == None
    ensures ExtractInt32(Print(Object(f)), key) == None && ExtractBool(Print(Object(f)), key) == None
    ensures ExtractString(Print(Object(f)), key) == None
  {
    KeyIsFoundWherePrinted(f, key);
    ObjectSearch(f, TextPattern(key), key);
    assert PrintFields(NoFields) + "}" == "}";
    assert "}"[1..] == "";
  }
}
