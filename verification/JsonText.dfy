/**
  The text layer shared by the evidence emitter, the spool and the delivery client:
  escaping, decimal numbers, substring search and the printed form of JSON payloads.

  Strings are sequences of characters that stand for the bytes of a std::string.
 */
module JsonText {
  import opened Common

  /** What a parser leaves: the value and the text after it. */
  datatype Scan<+T> = Fail | Got(value: T, rest: string)

  const MAX_UINT32: nat := 0xFFFF_FFFF
  const MAX_UINT64: nat := 0xFFFF_FFFF_FFFF_FFFF

  type Uint32 = n: nat | n <= MAX_UINT32
  type Uint64 = n: nat | n <= MAX_UINT64

  // ---------------------------------------------------------------------------
  // Escaping
  // ---------------------------------------------------------------------------

  function EscapeChar(c: char): string {
    if c == '"' then "\\\""
    else if c == '\\' then "\\\\"
    else if c == '\n' then "\\n"
    else if c == '\r' then "\\r"
    else if c == '\t' then "\\t"
    else [c]
  }

  function Escape(s: string): string {
    if s == "" then "" else EscapeChar(s[0]) + Escape(s[1..])
  }

  lemma EscapeAppend(s: string, c: char)
    ensures Escape(s + [c]) == Escape(s) + EscapeChar(c)
  {
    if s == "" {
      assert s + [c] == [c];
      assert Escape([c]) == EscapeChar(c) + Escape("");
    } else {
      assert (s + [c])[1..] == s[1..] + [c];
      EscapeAppend(s[1..], c);
    }
  }

  method JsonEscape(s: string) returns (out: string)
    ensures out == Escape(s)
  {
    out := "";
    for i := 0 to |s|
      invariant out == Escape(s[..i])
    {
      var c := s[i];
      EscapeAppend(s[..i], c);
      assert s[..i + 1] == s[..i] + [c];
      if c == '"' { out := out + "\\\""; }
      else if c == '\\' { out := out + "\\\\"; }
      else if c == '\n' { out := out + "\\n"; }
      else if c == '\r' { out := out + "\\r"; }
      else if c == '\t' { out := out + "\\t"; }
      else { out := out + [c]; }
    }
    assert s[..|s|] == s;
  }

  /** An escaped string holds no raw line break, and each of its quotes follows a backslash. */
  lemma {:induction false} EscapedShape(s: string)
    ensures '\n' !in Escape(s) && '\r' !in Escape(s) && '\t' !in Escape(s)
    ensures forall i :: 0 <= i < |Escape(s)| && Escape(s)[i] == '"' ==> i > 0 && Escape(s)[i - 1] == '\\'
  {
    if s != "" {
      EscapedShape(s[1..]);
      var head, tail := EscapeChar(s[0]), Escape(s[1..]);
      forall i | 0 <= i < |Escape(s)| && Escape(s)[i] == '"'
        ensures i > 0 && Escape(s)[i - 1] == '\\'
      {
        if i >= |head| {
          assert tail[i - |head|] == '"';
        }
      }
    }
  }

  // ---------------------------------------------------------------------------
  // Decimal numbers
  // ---------------------------------------------------------------------------

  predicate IsDigit(c: char) {
    '0' <= c <= '9'
  }

  function DigitChar(d: nat): (c: char)
    requires d < 10
    ensures IsDigit(c) && DigitValue(c) == d
  {
    '0' + d as char
  }

  function DigitValue(c: char): nat
    requires IsDigit(c)
  {
    (c - '0') as nat
  }

  predicate AllDigits(s: string) {
    forall i :: 0 <= i < |s| ==> IsDigit(s[i])
  }

  function Decimal(n: nat): (s: string)
    ensures s != "" && AllDigits(s)
  {
    if n < 10 then [DigitChar(n)] else Decimal(n / 10) + [DigitChar(n % 10)]
  }

  function DecimalValue(s: string): nat
    requires AllDigits(s)
  {
    if s == "" then 0 else 10 * DecimalValue(s[..|s| - 1]) + DigitValue(s[|s| - 1])
  }

  lemma {:induction false} DecimalRoundTrip(n: nat)
    ensures DecimalValue(Decimal(n)) == n
  {
    if n < 10 {
      assert Decimal(n)[..0] == "";
    } else {
      DecimalRoundTrip(n / 10);
      assert Decimal(n)[..|Decimal(n)| - 1] == Decimal(n / 10);
    }
  }

  lemma {:induction false} DecimalPrefixIsSmaller(d: string, k: nat)
    requires AllDigits(d) && k <= |d|
    ensures DecimalValue(d[..k]) <= DecimalValue(d)
  {
    if k < |d| {
      DecimalPrefixIsSmaller(d[..|d| - 1], k);
      assert d[..|d| - 1][..k] == d[..k];
    } else {
      assert d[..k] == d;
    }
  }

  function Signed(n: int): string {
    if n < 0 then "-" + Decimal(-n) else Decimal(n)
  }

  /** The longest run of digits a text starts with. */
  function DigitsOf(t: string): (s: string)
    ensures AllDigits(s)
  {
    if t == "" || !IsDigit(t[0]) then "" else [t[0]] + DigitsOf(t[1..])
  }

  lemma {:induction false} DigitsStopAt(d: string, r: string)
    requires AllDigits(d) && (r == "" || !IsDigit(r[0]))
    ensures DigitsOf(d + r) == d
  {
    if d != "" {
      assert (d + r)[1..] == d[1..] + r;
      DigitsStopAt(d[1..], r);
    } else {
      assert d + r == r;
    }
  }

  predicate IsSpace(c: char) {
    c == ' ' || 9 as char <= c <= 13 as char
  }

  function SkipSpaces(t: string): string {
    if t != "" && IsSpace(t[0]) then SkipSpaces(t[1..]) else t
  }

  /** std::stoull: white space, a sign, then digits; no digit, or too large a number, throws. */
  function Stoull(t: string): Option<Uint64> {
    var u := SkipSpaces(t);
    var signed := u != "" && (u[0] == '+' || u[0] == '-');
    var digits := DigitsOf(if signed then u[1..] else u);
    if digits == "" then None
    else
      var v := DecimalValue(digits);
      if v > MAX_UINT64 then None
      else Some(if signed && u[0] == '-' && v > 0 then MAX_UINT64 + 1 - v else v)
  }

  lemma StoullOfDigits(d: string, r: string)
    requires d != "" && AllDigits(d) && (r == "" || !IsDigit(r[0]))
    ensures Stoull(d + r) == if DecimalValue(d) > MAX_UINT64 then None else Some(DecimalValue(d))
  {
    DigitsStopAt(d, r);
  }

  // ---------------------------------------------------------------------------
  // Substring search
  // ---------------------------------------------------------------------------

  /** std::string::find from the start of t: where pat first occurs. */
  function Find(t: string, pat: string): (r: Option<nat>)
    ensures r.Some? ==> r.value + |pat| <= |t|
  {
    if pat <= t then Some(0)
    else if t == "" then None
    else
      match Find(t[1..], pat)
      case None => None
      case Some(i) => Some(i + 1)
  }

  /** The text after the first occurrence of pat. */
  function FindAfter(t: string, pat: string): Option<string> {
    match Find(t, pat)
    case None => None
    case Some(i) => Some(t[i + |pat|..])
  }

  /** No occurrence of pat in a + b starts within a. */
  predicate StartsNowhereIn(a: string, b: string, pat: string) {
    forall i :: 0 <= i < |a| ==> !(pat <= (a + b)[i..])
  }

  lemma {:induction false} FindSkips(a: string, b: string, pat: string)
    requires StartsNowhereIn(a, b, pat)
    ensures FindAfter(a + b, pat) == FindAfter(b, pat)
  {
    if a == "" {
      assert a + b == b;
    } else {
      assert (a + b)[0..] == a + b;
      assert (a + b)[1..] == a[1..] + b;
      forall i | 0 <= i < |a[1..]|
        ensures !(pat <= (a[1..] + b)[i..])
      {
        assert (a[1..] + b)[i..] == (a + b)[i + 1..];
      }
      FindSkips(a[1..], b, pat);
      match Find(a[1..] + b, pat) {
        case None =>
        case Some(i) => assert (a + b)[i + 1 + |pat|..] == (a[1..] + b)[i + |pat|..];
      }
    }
  }

  lemma FindHere(pat: string, b: string)
    ensures FindAfter(pat + b, pat) == Some(b)
  {
    assert pat <= pat + b;
  }

  /** A pattern that follows one foreign character is found right there. */
  lemma FindNext(c: char, pat: string, b: string)
    requires pat != "" && pat[0] != c
    ensures FindAfter([c] + (pat + b), pat) == Some(b)
  {
    FindSkips([c], pat + b, pat);
    FindHere(pat, b);
  }

  /** Text appended later cannot change where an occurrence was found. */
  lemma {:induction false} FindExtends(t: string, u: string, pat: string)
    requires FindAfter(t, pat).Some?
    ensures FindAfter(t + u, pat) == Some(FindAfter(t, pat).value + u)
  {
    var i := Find(t, pat).value;
    if pat <= t {
      assert pat <= t + u;
      assert (t + u)[|pat|..] == t[|pat|..] + u;
    } else {
      assert !(pat <= t + u) by {
        assert (t + u)[..|pat|] == t[..|pat|];
      }
      assert FindAfter(t[1..], pat).value == t[i + |pat|..];
      FindExtends(t[1..], u, pat);
      assert (t + u)[1..] == t[1..] + u;
      var j := Find(t[1..] + u, pat).value;
      assert (t + u)[j + 1 + |pat|..] == (t[1..] + u)[j + |pat|..];
    }
  }

  // ---------------------------------------------------------------------------
  // JSON payloads as the emitter prints them
  // ---------------------------------------------------------------------------

  datatype Json =
    | Text(s: string)
    | Number(n: int)
    | Flag(b: bool)
    | Object(fields: Fields)

  datatype Fields = NoFields | Field(key: string, value: Json, others: Fields)

  function Print(j: Json): string {
    match j
    case Text(s) => "\"" + (Escape(s) + "\"")
    case Number(n) => Signed(n)
    case Flag(b) => if b then "true" else "false"
    case Object(fields) => "{" + (PrintFields(fields) + "}")
  }

  function PrintFields(f: Fields): string {
    match f
    case NoFields => ""
    case Field(key, value, others) =>
      KeyPattern(key) + (Print(value) + (if others.NoFields? then "" else "," + PrintFields(others)))
  }

  /** How a key introduces its value. */
  function KeyPattern(key: string): string {
    "\"" + key + "\":"
  }

  /** How a key introduces a text. */
  function TextPattern(key: string): string {
    KeyPattern(key) + "\""
  }

  /** Keys are fixed names: no character that JSON gives a meaning, no white space. */
  predicate InName(c: char) {
    && c != '"' && c != '\\' && c != ':' && c != ',' && c != '{' && c != '}'
    && c != '\n' && c != '\r' && c != '\t' && c != ' '
  }

  predicate IsName(key: string) {
    key != "" && forall i :: 0 <= i < |key| ==> InName(key[i])
  }

  predicate NamedKeys(j: Json) {
    j.Object? ==> NamedFieldKeys(j.fields)
  }

  predicate NamedFieldKeys(f: Fields) {
    f.Field? ==> IsName(f.key) && NamedKeys(f.value) && NamedFieldKeys(f.others)
  }

  lemma PrintHasNoNewline(j: Json)
    requires NamedKeys(j)
    ensures '\n' !in Print(j)
  {
    match j
    case Text(s) => EscapedShape(s);
    case Number(n) =>
    case Flag(b) =>
    case Object(fields) => FieldsHaveNoNewline(fields);
  }

  lemma FieldsHaveNoNewline(f: Fields)
    requires NamedFieldKeys(f)
    ensures '\n' !in PrintFields(f)
  {
    if f.Field? {
      PrintHasNoNewline(f.value);
      FieldsHaveNoNewline(f.others);
    }
  }
}
