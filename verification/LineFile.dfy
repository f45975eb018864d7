/**
  A text file of lines that each hold one value, written by appending and read by std::getline.

  The reader skips lines that do not decode. When a line cut short decodes only if at most its last
  character is missing, the reader of any beginning of the file gets a beginning of the values.
 */
module LineFile {
  import opened Common

  function JoinLines(lines: seq<string>): string {
    if lines == [] then "" else (lines[0] + "\n") + JoinLines(lines[1..])
  }

  /** The file after appending each value on a line of its own. */
  function FileText<R>(ms: seq<R>, show: R -> string): string {
    if ms == [] then "" else (show(ms[0]) + "\n") + FileText(ms[1..], show)
  }

  function Lines<R>(ms: seq<R>, show: R -> string): (lines: seq<string>)
    ensures |lines| == |ms| && forall i :: 0 <= i < |ms| ==> lines[i] == show(ms[i])
  {
    seq(|ms|, i requires 0 <= i < |ms| => show(ms[i]))
  }

  lemma {:induction false} FileTextIsLines<R>(ms: seq<R>, show: R -> string)
    ensures FileText(ms, show) == JoinLines(Lines(ms, show))
  {
    if ms != [] {
      assert Lines(ms, show)[1..] == Lines(ms[1..], show);
      FileTextIsLines(ms[1..], show);
    }
  }

  lemma {:induction false} FileTextAppend<R>(a: seq<R>, b: seq<R>, show: R -> string)
    ensures FileText(a + b, show) == FileText(a, show) + FileText(b, show)
  {
    if a == [] {
      assert a + b == b;
    } else {
      assert (a + b)[1..] == a[1..] + b;
      FileTextAppend(a[1..], b, show);
      Regroup(show(a[0]) + "\n", FileText(a[1..], show), FileText(b, show));
    }
  }

  lemma FileTextOne<R>(m: R, show: R -> string)
    ensures FileText([m], show) == show(m) + "\n"
  {
    assert [m][1..] == [];
    assert (show(m) + "\n") + "" == show(m) + "\n";
  }

  lemma FileTextSnoc<R>(ms: seq<R>, m: R, show: R -> string)
    ensures FileText(ms + [m], show) == FileText(ms, show) + (show(m) + "\n")
  {
    FileTextAppend(ms, [m], show);
    FileTextOne(m, show);
  }

  /** The bytes each value takes in the file. */
  function Sizes<R>(ms: seq<R>, show: R -> string): (sizes: seq<nat>)
    ensures |sizes| == |ms|
  {
    seq(|ms|, i requires 0 <= i < |ms| => |show(ms[i])| + 1)
  }

  lemma SizesSnoc<R>(ms: seq<R>, m: R, show: R -> string)
    ensures Sizes(ms + [m], show) == Sizes(ms, show) + [|show(m)| + 1]
  {
  }

  function Sum(sizes: seq<nat>): nat {
    if sizes == [] then 0 else sizes[0] + Sum(sizes[1..])
  }

  lemma {:induction false} SumAppend(a: seq<nat>, b: seq<nat>)
    ensures Sum(a + b) == Sum(a) + Sum(b)
  {
    if a == [] {
      assert a + b == b;
    } else {
      assert (a + b)[1..] == a[1..] + b;
      SumAppend(a[1..], b);
    }
  }

  lemma SumSnoc(sizes: seq<nat>, size: nat)
    ensures Sum(sizes + [size]) == Sum(sizes) + size
  {
    SumAppend(sizes, [size]);
    assert [size][1..] == [];
  }

  lemma SumSplits(sizes: seq<nat>, cursor: nat)
    requires cursor <= |sizes|
    ensures Sum(sizes) == Sum(sizes[..cursor]) + Sum(sizes[cursor..])
  {
    SumAppend(sizes[..cursor], sizes[cursor..]);
    assert sizes[..cursor] + sizes[cursor..] == sizes;
  }

  lemma SumStep(sizes: seq<nat>, from: nat, cursor: nat)
    requires from <= cursor < |sizes|
    ensures Sum(sizes[from..cursor + 1]) == Sum(sizes[from..cursor]) + sizes[cursor]
    ensures Sum(sizes[cursor..]) == sizes[cursor] + Sum(sizes[cursor + 1..])
  {
    SumSnoc(sizes[from..cursor], sizes[cursor]);
    assert sizes[from..cursor] + [sizes[cursor]] == sizes[from..cursor + 1];
    assert sizes[cursor..][1..] == sizes[cursor + 1..];
  }

  /** The sizes of some values add up to the text they take in the file. */
  lemma {:induction false} SizesAddUp<R>(ms: seq<R>, show: R -> string)
    ensures Sum(Sizes(ms, show)) == |FileText(ms, show)|
  {
    if ms != [] {
      assert Sizes(ms, show)[1..] == Sizes(ms[1..], show);
      SizesAddUp(ms[1..], show);
    }
  }

  /** What std::getline extracts: up to the next line break, or to the end of the file. */
  function LineOf(t: string): (line: string)
    ensures |line| <= |t|
  {
    if t == "" || t[0] == '\n' then "" else [t[0]] + LineOf(t[1..])
  }

  function AfterLine(t: string): string {
    var n := |LineOf(t)|;
    if n == |t| then "" else t[n + 1..]
  }

  function Kept<R>(r: Option<R>, keep: R -> bool): seq<R> {
    if r.Some? && keep(r.value) then [r.value] else []
  }

  /** The values a reader of the file keeps, in file order. */
  function Replay<R>(t: string, decode: string -> Option<R>, keep: R -> bool): seq<R>
    decreases |t|
  {
    if t == "" then [] else Kept(decode(LineOf(t)), keep) + Replay(AfterLine(t), decode, keep)
  }

  function Filter<R>(ms: seq<R>, keep: R -> bool): seq<R> {
    if ms == [] then [] else Kept(Some(ms[0]), keep) + Filter(ms[1..], keep)
  }

  /** One std::getline on the text from a position. */
  method GetLine(file: string, pos: nat) returns (line: string, next: nat)
    requires pos < |file|
    ensures pos < next <= |file|
    ensures line == LineOf(file[pos..]) && file[next..] == AfterLine(file[pos..])
  {
    line := "";
    var i := pos;
    while i < |file| && file[i] != '\n'
      invariant pos <= i <= |file|
      invariant LineOf(file[pos..]) == line + LineOf(file[i..])
      invariant |line| == i - pos
    {
      assert file[i..][1..] == file[i + 1..];
      line := line + [file[i]];
      i := i + 1;
    }
    assert LineOf(file[i..]) == "";
    next := if i == |file| then i else i + 1;
    assert i < |file| ==> file[pos..][i - pos + 1..] == file[i + 1..];
    assert file[|file|..] == "";
  }

  lemma {:induction false} LineOfBroken(a: string, r: string)
    requires '\n' !in a
    ensures LineOf(a + "\n" + r) == a && AfterLine(a + "\n" + r) == r
  {
    var t := a + "\n" + r;
    if a == "" {
      assert t == "\n" + r;
    } else {
      assert t[1..] == a[1..] + "\n" + r;
      LineOfBroken(a[1..], r);
    }
    assert t[|a| + 1..] == r;
  }

  lemma {:induction false} LineOfUnbroken(a: string)
    requires '\n' !in a
    ensures LineOf(a) == a && AfterLine(a) == ""
  {
    if a != "" {
      LineOfUnbroken(a[1..]);
    }
  }

  lemma ReplayFirst<R>(line: string, rest: string, decode: string -> Option<R>, keep: R -> bool)
    requires '\n' !in line
    ensures Replay(line + "\n" + rest, decode, keep) == Kept(decode(line), keep) + Replay(rest, decode, keep)
  {
    LineOfBroken(line, rest);
  }

  lemma ReplayLast<R>(line: string, decode: string -> Option<R>, keep: R -> bool)
    requires '\n' !in line && line != ""
    ensures Replay(line, decode, keep) == Kept(decode(line), keep)
  {
    LineOfUnbroken(line);
    assert Replay("", decode, keep) == [];
  }

  /** A line appended to an unfinished one becomes part of it; what follows is read as ever. */
  lemma ReplayMerged<R>(head: string, m: R, more: seq<R>, show: R -> string,
                        decode: string -> Option<R>, keep: R -> bool)
    requires '\n' !in head && '\n' !in show(m)
    ensures Replay(head + FileText([m] + more, show), decode, keep) ==
            Kept(decode(head + show(m)), keep) + Replay(FileText(more, show), decode, keep)
  {
    var rest := FileText(more, show);
    assert ([m] + more)[1..] == more;
    assert head + ((show(m) + "\n") + rest) == (head + show(m)) + "\n" + rest;
    ReplayFirst(head + show(m), rest, decode, keep);
  }

  // ---------------------------------------------------------------------------
  // A file cut at any character
  // ---------------------------------------------------------------------------

  /** A line cut short decodes to its value when at most the last character is missing, else not at all. */
  ghost predicate DecodesAtEnd<R>(line: string, m: R, decode: string -> Option<R>) {
    && '\n' !in line && |line| > 1
    && forall k :: 0 <= k <= |line| ==> decode(line[..k]) == if k + 1 < |line| then None else Some(m)
  }

  ghost predicate Holds<R>(lines: seq<string>, ms: seq<R>, decode: string -> Option<R>) {
    |lines| == |ms| && forall i :: 0 <= i < |ms| ==> DecodesAtEnd(lines[i], ms[i], decode)
  }

  lemma FirstHolds<R>(lines: seq<string>, ms: seq<R>, decode: string -> Option<R>)
    requires ms != [] && Holds(lines, ms, decode)
    ensures '\n' !in lines[0] && decode(lines[0]) == Some(ms[0]) && |lines[0]| > 1
    ensures Holds(lines[1..], ms[1..], decode)
  {
    assert DecodesAtEnd(lines[0], ms[0], decode);
    assert lines[0][..|lines[0]|] == lines[0];
  }

  /** How many lines still decode from the first k characters. */
  function Surviving(lines: seq<string>, k: nat): (j: nat)
    ensures j <= |lines|
  {
    if lines == [] || k + 1 < |lines[0]| then 0
    else 1 + Surviving(lines[1..], if k <= |lines[0]| then 0 else k - |lines[0]| - 1)
  }

  /** Those that end at most two characters after the cut. */
  lemma {:induction false} SurvivingIsLargestThatFits(lines: seq<string>, k: nat, j: nat)
    requires j <= |lines| && forall i :: 0 <= i < |lines| ==> |lines[i]| > 1
    ensures j <= Surviving(lines, k) <==> j == 0 || |JoinLines(lines[..j])| <= k + 2
  {
    if j > 0 {
      var size := |lines[0]| + 1;
      JoinedStep(lines, j);
      if k + 2 >= size {
        SurvivingIsLargestThatFits(lines[1..], if k < size then 0 else k - size, j - 1);
        if j > 1 {
          JoinedStep(lines[1..], j - 1);
        }
      }
    }
  }

  lemma JoinedStep(lines: seq<string>, j: nat)
    requires 0 < j <= |lines|
    ensures |JoinLines(lines[..j])| == |lines[0]| + 1 + |JoinLines(lines[1..][..j - 1])|
  {
    assert lines[..j][1..] == lines[1..][..j - 1];
  }

  lemma CutAfter(a: string, b: string, k: nat)
    requires |a| <= k <= |a| + |b|
    ensures (a + b)[..k] == a + b[..k - |a|]
  {
  }

  lemma FilterStep<R>(ms: seq<R>, j: nat, keep: R -> bool)
    requires 0 < j <= |ms|
    ensures Filter(ms[..j], keep) == Kept(Some(ms[0]), keep) + Filter(ms[1..][..j - 1], keep)
  {
    assert ms[..j][1..] == ms[1..][..j - 1];
  }

  lemma ReplayTorn<R>(line: string, rest: string, m: R, k: nat, decode: string -> Option<R>, keep: R -> bool)
    requires DecodesAtEnd(line, m, decode) && k <= |line|
    ensures Replay((line + "\n" + rest)[..k], decode, keep) == if k + 1 < |line| then [] else Kept(Some(m), keep)
  {
    assert (line + "\n" + rest)[..k] == line[..k];
    if k > 0 {
      ReplayLast(line[..k], decode, keep);
    }
  }

  lemma CutInFirstLine<R>(
    lines: seq<string>, ms: seq<R>, k: nat, decode: string -> Option<R>, keep: R -> bool)
    requires ms != [] && Holds(lines, ms, decode) && k <= |lines[0]|
    ensures Replay(JoinLines(lines)[..k], decode, keep) == Filter(ms[..Surviving(lines, k)], keep)
  {
    assert DecodesAtEnd(lines[0], ms[0], decode);
    ReplayTorn(lines[0], JoinLines(lines[1..]), ms[0], k, decode, keep);
    if k + 1 >= |lines[0]| {
      if |lines| > 1 {
        assert DecodesAtEnd(lines[1], ms[1], decode);
      }
      assert Surviving(lines[1..], 0) == 0;
      FilterStep(ms, 1, keep);
    }
  }

  lemma CutAfterFirstLine<R>(lines: seq<string>, k: nat, decode: string -> Option<R>, keep: R -> bool)
    requires lines != [] && '\n' !in lines[0] && |lines[0]| < k <= |JoinLines(lines)|
    ensures Replay(JoinLines(lines)[..k], decode, keep) ==
            Kept(decode(lines[0]), keep) + Replay(JoinLines(lines[1..])[..k - |lines[0]| - 1], decode, keep)
  {
    var line, rest := lines[0], JoinLines(lines[1..]);
    CutAfter(line + "\n", rest, k);
    ReplayFirst(line, rest[..k - |line| - 1], decode, keep);
  }

  lemma {:induction false} CutKeepsAPrefix<R>(
    lines: seq<string>, ms: seq<R>, k: nat, decode: string -> Option<R>, keep: R -> bool)
    requires Holds(lines, ms, decode) && k <= |JoinLines(lines)|
    ensures Replay(JoinLines(lines)[..k], decode, keep) == Filter(ms[..Surviving(lines, k)], keep)
  {
    if ms != [] && k <= |lines[0]| {
      CutInFirstLine(lines, ms, k, decode, keep);
    } else if ms != [] {
      var left := k - |lines[0]| - 1;
      FirstHolds(lines, ms, decode);
      CutAfterFirstLine(lines, k, decode, keep);
      CutKeepsAPrefix(lines[1..], ms[1..], left, decode, keep);
      FilterStep(ms, Surviving(lines, k), keep);
    }
  }

  /** Nothing is missing from a file that is complete. */
  lemma {:induction false} WholeFileReplays<R>(
    lines: seq<string>, ms: seq<R>, decode: string -> Option<R>, keep: R -> bool)
    requires Holds(lines, ms, decode)
    ensures Replay(JoinLines(lines), decode, keep) == Filter(ms, keep)
  {
    if ms != [] {
      FirstHolds(lines, ms, decode);
      ReplayFirst(lines[0], JoinLines(lines[1..]), decode, keep);
      WholeFileReplays(lines[1..], ms[1..], decode, keep);
    }
  }

  /** Whole lines in front of any text are read first. */
  lemma {:induction false} ReplayAfterWholeLines<R>(
    lines: seq<string>, ms: seq<R>, rest: string, decode: string -> Option<R>, keep: R -> bool)
    requires Holds(lines, ms, decode)
    ensures Replay(JoinLines(lines) + rest, decode, keep) == Filter(ms, keep) + Replay(rest, decode, keep)
  {
    if ms == [] {
      assert JoinLines(lines) + rest == rest;
    } else {
      var line, others := lines[0], JoinLines(lines[1..]);
      FirstHolds(lines, ms, decode);
      Regroup(line + "\n", others, rest);
      ReplayFirst(line, others + rest, decode, keep);
      ReplayAfterWholeLines(lines[1..], ms[1..], rest, decode, keep);
      Regroup(Kept(Some(ms[0]), keep), Filter(ms[1..], keep), Replay(rest, decode, keep));
    }
  }
}
