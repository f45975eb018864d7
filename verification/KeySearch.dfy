/**
  Searching printed text for a quoted key and its colon: nothing that was escaped, no number, no flag
  and no other key can be taken for it.
 */
module KeySearch {
  import opened Common
  import opened JsonText

  lemma FindStep(c: char, t: string, pat: string)
    requires !(pat <= [c] + t)
    ensures FindAfter([c] + t, pat) == FindAfter(t, pat)
  {
    assert ([c] + t)[1..] == t;
    match Find(t, pat) {
      case None =>
      case Some(i) => assert ([c] + t)[i + 1 + |pat|..] == t[i + |pat|..];
    }
  }

  /** The text starts with a name that a quote and a colon follow. */
  predicate Introduces(x: string, t: string) {
    if x == "" then "\":" <= t else t != "" && t[0] == x[0] && Introduces(x[1..], t[1..])
  }

  lemma {:induction false} IntroducesIsPrefix(x: string, t: string)
    ensures Introduces(x, t) <==> x + "\":" <= t
  {
    var p := x + "\":";
    if x == "" {
      assert p == "\":";
    } else if t != "" {
      IntroducesIsPrefix(x[1..], t[1..]);
      assert p == [x[0]] + (x[1..] + "\":");
      assert t == [t[0]] + t[1..];
      assert p <= t <==> x[0] == t[0] && x[1..] + "\":" <= t[1..] by {
        PrefixStep(x[0], x[1..] + "\":", t[0], t[1..]);
      }
    }
  }

  lemma PrefixStep(a: char, x: string, b: char, y: string)
    ensures [a] + x <= [b] + y <==> a == b && x <= y
  {
    if [a] + x <= [b] + y {
      assert ([a] + x)[0] == ([b] + y)[0];
      assert x == ([b] + y)[..|x| + 1][1..] == y[..|x|];
    }
    if a == b && x <= y {
      assert ([b] + y)[..|x| + 1] == [b] + y[..|x|];
    }
  }

  /** The text after a quote is not a key and its colon: not inside an escaped value, nor at its end. */
  lemma {:induction false} NoKeyInValue(x: string, s: string, r: string)
    requires forall i :: 0 <= i < |x| ==> InName(x[i])
    requires r != "" && r[0] != ':'
    ensures !Introduces(x, Escape(s) + ("\"" + r))
  {
    var t := Escape(s) + ("\"" + r);
    if s == "" {
      assert t == "\"" + r;
      assert t[1] == r[0];
      assert x != "" ==> InName(x[0]);
    } else {
      var later := Escape(s[1..]) + ("\"" + r);
      assert t == EscapeChar(s[0]) + later;
      assert t[0] == EscapeChar(s[0])[0] && t[0] != '"';
      if x != "" && t[0] == x[0] {
        assert InName(x[0]);
        assert t[1..] == later;
        NoKeyInValue(x[1..], s[1..], r);
      }
    }
  }

  /** Two names before a quote and a colon are the same name. */
  lemma {:induction false} NamesAgree(x: string, y: string, r: string)
    requires forall i :: 0 <= i < |x| ==> InName(x[i])
    requires forall i :: 0 <= i < |y| ==> InName(y[i])
    ensures Introduces(x, y + ("\":" + r)) ==> x == y
  {
    var t := y + ("\":" + r);
    assert x != "" ==> InName(x[0]);
    assert y != "" ==> InName(y[0]);
    assert t[0] == if y == "" then '"' else y[0];
    if x != "" && y != "" {
      assert t[1..] == y[1..] + ("\":" + r);
      NamesAgree(x[1..], y[1..], r);
      assert x == [x[0]] + x[1..] && y == [y[0]] + y[1..];
    }
  }

  lemma {:induction false} FindSkipsPlain(a: string, r: string, pat: string)
    requires pat != "" && pat[0] == '"' && '"' !in a
    ensures FindAfter(a + r, pat) == FindAfter(r, pat)
  {
    if a == "" {
      assert a + r == r;
    } else {
      assert a + r == [a[0]] + (a[1..] + r);
      FindStepPlain(a[0], a[1..] + r, pat);
      FindSkipsPlain(a[1..], r, pat);
    }
  }

  /** A search for a key, or for a key and the start of a text. */
  predicate SearchesFor(pat: string, key: string) {
    IsName(key) && KeyPattern(key) <= pat && pat[0] == '"'
  }

  lemma FindStepPlain(c: char, t: string, pat: string)
    requires pat != "" && pat[0] == '"' && c != '"'
    ensures FindAfter([c] + t, pat) == FindAfter(t, pat)
  {
    assert ([c] + t)[0] == c;
    FindStep(c, t, pat);
  }

  /** A quote is passed over when no key and colon follow it. */
  lemma FindStepQuote(t: string, pat: string, key: string)
    requires SearchesFor(pat, key) && !Introduces(key, t)
    ensures FindAfter(['"'] + t, pat) == FindAfter(t, pat)
  {
    IntroducesIsPrefix(key, t);
    assert KeyPattern(key) == ['"'] + (key + "\":");
    PrefixStep('"', key + "\":", '"', t);
    PrefixOfPrefix(KeyPattern(key), pat, ['"'] + t);
    FindStep('"', t, pat);
  }

  lemma PrefixOfPrefix(a: string, b: string, c: string)
    requires a <= b
    ensures b <= c ==> a <= c
  {
  }

  lemma FindSkipsChar(c: char, s: string, r: string, pat: string, key: string)
    requires SearchesFor(pat, key) && r != "" && r[0] != ':'
    ensures var later := Escape(s) + ("\"" + r);
            FindAfter(EscapeChar(c) + later, pat) == FindAfter(later, pat)
  {
    var later := Escape(s) + ("\"" + r);
    if |EscapeChar(c)| == 1 {
      FindStepPlain(c, later, pat);
    } else {
      var x := EscapeChar(c)[1];
      assert EscapeChar(c) == ['\\'] + [x];
      Regroup(['\\'], [x], later);
      FindSkipsPair(x, s, r, pat, key);
    }
  }

  lemma {:induction false} FindSkipsEscaped(s: string, r: string, pat: string, key: string)
    requires SearchesFor(pat, key) && r != "" && r[0] != ':' && !InName(r[0])
    ensures FindAfter(Escape(s) + ("\"" + r), pat) == FindAfter(r, pat)
  {
    if s == "" {
      assert Escape(s) + ("\"" + r) == ['"'] + r;
      FindSkipsClosing(r, pat, key);
    } else {
      Regroup(EscapeChar(s[0]), Escape(s[1..]), "\"" + r);
      FindSkipsChar(s[0], s[1..], r, pat, key);
      FindSkipsEscaped(s[1..], r, pat, key);
    }
  }

  lemma FindSkipsClosing(r: string, pat: string, key: string)
    requires SearchesFor(pat, key) && r != "" && !InName(r[0])
    ensures FindAfter(['"'] + r, pat) == FindAfter(r, pat)
  {
    assert InName(key[0]);
    FindStepQuote(r, pat, key);
  }

  lemma FindSkipsPair(c: char, s: string, r: string, pat: string, key: string)
    requires SearchesFor(pat, key) && r != "" && r[0] != ':'
    ensures var later := Escape(s) + ("\"" + r);
            FindAfter(['\\'] + ([c] + later), pat) == FindAfter(later, pat)
  {
    var later := Escape(s) + ("\"" + r);
    FindStepPlain('\\', [c] + later, pat);
    if c == '"' {
      NoKeyInValue(key, s, r);
      FindStepQuote(later, pat, key);
    } else {
      FindStepPlain(c, later, pat);
    }
  }

  lemma FindSkipsValue(v: Json, r: string, pat: string, key: string)
    requires !v.Object? && SearchesFor(pat, key) && r != "" && r[0] != ':' && !InName(r[0])
    ensures FindAfter(Print(v) + r, pat) == FindAfter(r, pat)
  {
    match v
    case Text(s) =>
      var t := Escape(s) + ("\"" + r);
      assert Print(v) + r == ['"'] + t;
      NoKeyInValue(key, s, r);
      FindStepQuote(t, pat, key);
      FindSkipsEscaped(s, r, pat, key);
    case Number(n) => FindSkipsPlain(Signed(n), r, pat);
    case Flag(b) => FindSkipsPlain(Print(v), r, pat);
  }

  lemma FindSkipsKey(other: string, r: string, pat: string, key: string)
    requires SearchesFor(pat, key) && IsName(other) && other != key
    ensures FindAfter(KeyPattern(other) + r, pat) == FindAfter(r, pat)
  {
    var t := other + ("\":" + r);
    assert KeyPattern(other) + r == ['"'] + t;
    NamesAgree(key, other, r);
    FindStepQuote(t, pat, key);
    FindSkipsPlain(other, "\":" + r, pat);
    FindSkipsColon(r, pat, key);
  }

  lemma FindSkipsColon(r: string, pat: string, key: string)
    requires SearchesFor(pat, key)
    ensures FindAfter("\":" + r, pat) == FindAfter(r, pat)
  {
    assert "\":" + r == ['"'] + ([':'] + r);
    assert InName(key[0]);
    FindStepQuote([':'] + r, pat, key);
    FindStepPlain(':', r, pat);
  }

  /** A key that a cut leaves incomplete is searched for in the text that follows the cut. */
  lemma CutKeyIsPassedOver(t: string, later: string, pat: string)
    requires pat != "" && '{' !in pat && later != "" && later[0] == '{'
    requires t == "" || (t[0] != pat[0] && |t| <= |pat|)
    ensures FindAfter(t + later, pat) == FindAfter(later, pat)
  {
    forall i | 0 <= i < |t|
      ensures !(pat <= (t + later)[i..])
    {
      var rest := (t + later)[i..];
      assert rest[0] == t[i];
      if i > 0 {
        assert rest[|t| - i] == '{';
      }
    }
    FindSkips(t, later, pat);
  }
}
