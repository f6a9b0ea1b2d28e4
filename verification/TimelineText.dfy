/** How timeline entries are read off a text that grows. */
module TimelineText {
  import opened Text
  import opened Patterns
  import opened CompiledTruth

  lemma {:induction false} FirstLineConcat(a: string, b: string)
    requires OneLine(a) && (b != "" ==> IsLineBreak(b[0]))
    ensures FirstLine(a + b) == a
  {
    if a == "" {
      assert a + b == b;
    } else {
      ConsAppend(a, b);
      FirstLineConcat(a[1..], b);
    }
  }

  lemma FirstLineWhole(a: string)
    requires OneLine(a)
    ensures FirstLine(a) == a
  {
    FirstLineConcat(a, "");
    assert a + "" == a;
  }

  /** A break inside `a` ends the first line of every continuation of `a`. */
  lemma FirstLineInside(a: string, b: string)
    requires |FirstLine(a)| < |a|
    ensures FirstLine(a + b) == FirstLine(a)
  {
    var k := |FirstLine(a)|;
    FirstLineConcat(a[..k], a[k..] + b);
    assert a[..k] + (a[k..] + b) == a + b;
  }

  lemma EntriesStep(s: string)
    requires s != ""
    ensures Entries(s) == EntryOfLine(FirstLine(s)) + Entries(AfterFirstLine(s))
  {
    hide EntryOfLine, FirstLine, AfterFirstLine;
    assert SplitLines(s)[1..] == SplitLines(AfterFirstLine(s));
  }

  lemma BlankLineHasNoEntry(line: Line)
    requires Blank(line)
    ensures EntryOfLine(line) == []
  {
    BlankStrip(line);
  }

  lemma {:induction false} EntriesBlank(w: string)
    requires Blank(w)
    ensures Entries(w) == []
    decreases |w|
  {
    hide EntryOfLine, FirstLine, AfterFirstLine;
    if w != "" {
      EntriesStep(w);
      BlankPieces(w);
      BlankLineHasNoEntry(FirstLine(w));
      EntriesBlank(AfterFirstLine(w));
    }
  }

  lemma BlankPieces(w: string)
    requires Blank(w) && w != ""
    ensures Blank(FirstLine(w)) && Blank(AfterFirstLine(w))
  {
  }

  lemma DropAcross(a: string, b: string, k: nat)
    requires k <= |a|
    ensures (a + b)[k..] == a[k..] + b
  {
  }

  /** A carriage return that ends `a` is the only break that a newline after `a` changes. */
  lemma AfterFirstLineInside(a: string, b: string)
    requires a != "" && |FirstLine(a)| < |a|
    requires a[|a| - 1] != '\r' || |FirstLine(a)| < |a| - 1
    ensures AfterFirstLine(a + b) == AfterFirstLine(a) + b
  {
    hide FirstLine, OneLine;
    FirstLineInside(a, b);
    var s, k := a + b, |FirstLine(a)|;
    assert s[k] == a[k] && (k + 1 < |a| ==> s[k + 1] == a[k + 1]);
    DropAcross(a, b, k + 1);
    if k + 2 <= |a| {
      DropAcross(a, b, k + 2);
    }
  }

  /** Entries before a newline and entries after it do not disturb each other. */
  lemma {:induction false} EntriesJoin(a: string, b: string)
    ensures Entries(a + ['\n'] + b) == Entries(a) + Entries(b)
    decreases |a|
  {
    hide EntryOfLine, Entries, FirstLine, AfterFirstLine;
    var s, rest := a + ['\n'] + b, ['\n'] + b;
    assert s == a + rest;
    EntriesStep(s);
    if |FirstLine(a)| == |a| {
      JoinWholeLine(a, b);
    } else if a[|a| - 1] == '\r' && |FirstLine(a)| == |a| - 1 {
      JoinCarriageReturn(a, b);
    } else {
      EntriesStep(a);
      FirstLineInside(a, rest);
      AfterFirstLineInside(a, rest);
      assert AfterFirstLine(a) + rest == AfterFirstLine(a) + ['\n'] + b;
      EntriesJoin(AfterFirstLine(a), b);
    }
  }

  lemma JoinWholeLine(a: string, b: string)
    requires OneLine(a)
    ensures Entries(a + ['\n'] + b) == Entries(a) + Entries(b)
  {
    hide EntryOfLine, Entries, FirstLine, OneLine, IsLineBreak;
    var s, k := a + ['\n'] + b, |a|;
    assert s == a + (['\n'] + b);
    FirstLineConcat(a, ['\n'] + b) by { assert IsLineBreak('\n') by { NewlineBreaks(); } }
    EntriesStep(s);
    assert s[k] == '\n' && s[k + 1..] == b;
    assert AfterFirstLine(s) == b;
    if a == "" {
      BlankLineHasNoEntry(a);
      EntriesBlank(a);
    } else {
      FirstLineWhole(a);
      EntriesStep(a);
      EntriesBlank("");
      assert AfterFirstLine(a) == "";
    }
  }

  lemma NewlineBreaks()
    ensures IsLineBreak('\n')
  {
  }

  lemma JoinCarriageReturn(a: string, b: string)
    requires a != "" && a[|a| - 1] == '\r' && |FirstLine(a)| == |a| - 1
    ensures Entries(a + ['\n'] + b) == Entries(a) + Entries(b)
  {
    hide EntryOfLine, Entries, FirstLine, OneLine, IsLineBreak;
    var s, k := a + ['\n'] + b, |a| - 1;
    assert s == a + (['\n'] + b);
    FirstLineInside(a, ['\n'] + b);
    EntriesStep(s);
    EntriesStep(a);
    EntriesBlank("");
    assert s[k] == '\r' && s[k + 1] == '\n' && s[k + 2..] == b;
    assert AfterFirstLine(s) == b && AfterFirstLine(a) == "";
  }

  /** White space after the last solid character holds no entry. */
  lemma {:induction false} EntriesIgnoreTrailing(r: string, w: string)
    requires Blank(w) && (r != "" ==> !IsSpace(r[|r| - 1]))
    ensures Entries(r + w) == Entries(r)
    decreases |r|
  {
    hide EntryOfLine, Entries, FirstLine, AfterFirstLine;
    var s := r + w;
    if r == "" {
      assert s == w;
      EntriesBlank(w);
      EntriesBlank(r);
    } else {
      EntriesStep(s);
      EntriesStep(r);
      if |FirstLine(r)| == |r| {
        TrailingOnLastLine(r, w);
      } else {
        FirstLineInside(r, w);
        AfterFirstLineInside(r, w);
        AfterIsSuffix(r);
        EntriesIgnoreTrailing(AfterFirstLine(r), w);
      }
    }
  }

  lemma AfterIsSuffix(s: string)
    requires s != ""
    ensures |FirstLine(s)| <= |s| - |AfterFirstLine(s)|
    ensures AfterFirstLine(s) == s[|s| - |AfterFirstLine(s)|..]
  {
  }

  lemma TrailingOnLastLine(r: string, w: string)
    requires OneLine(r) && r != "" && Blank(w)
    ensures EntryOfLine(FirstLine(r + w)) == EntryOfLine(r)
    ensures FirstLine(r) == r
    ensures Entries(AfterFirstLine(r + w)) == []
    ensures Entries(AfterFirstLine(r)) == []
  {
    hide Strip, Entries, ParseEntry, FirstLine;
    FirstLineWhole(r);
    var f, rest := FirstLine(w), w[|FirstLine(w)|..];
    assert w == f + rest;
    Assoc(r, f, rest);
    FirstLineConcat(r + f, rest);
    StripAppendBlank(r, f);
    AfterIsSuffix(r + w);
    EntriesBlank(AfterFirstLine(r + w));
    EntriesBlank(AfterFirstLine(r));
  }

  lemma EntriesTrim(s: string)
    ensures Entries(RStrip(s)) == Entries(s)
  {
    hide Entries, RStrip;
    var r := RStrip(s);
    EntriesIgnoreTrailing(r, s[|r|..]);
    assert r + s[|r|..] == s;
  }

  lemma EntriesLastNewline(s: string)
    ensures Entries(s + ['\n']) == Entries(s)
  {
    EntriesJoin(s, "");
    EntriesBlank("");
    assert s + ['\n'] + "" == s + ['\n'];
  }

  lemma {:induction false} EntriesTrimNewlines(s: string)
    ensures Entries(RStripNewlines(s)) == Entries(s)
  {
    hide Entries;
    if EndsWithNewline(s) {
      EntriesLastNewline(s[..|s| - 1]);
      assert s[..|s| - 1] + ['\n'] == s;
      EntriesTrimNewlines(s[..|s| - 1]);
    }
  }

  /** What is read as an entry is a single line. */
  lemma EntriesAreLines(text: string)
    ensures forall e | e in Entries(text) :: OneLine(e.raw)
  {
    hide OneLine;
    RawsAreLines(SplitLines(text));
  }

  lemma {:induction false} RawsAreLines(lines: seq<Line>)
    ensures forall e | e in EntriesOfLines(lines) :: OneLine(e.raw)
  {
    hide OneLine, Strip;
    if lines != [] { RawsAreLines(lines[1..]); }
  }

  /** A line with an entry is one entry. */
  lemma EntriesOfLine(line: string)
    requires OneLine(line)
    ensures Entries(line) == EntryOfLine(line)
  {
    hide EntryOfLine;
    if line == "" {
      BlankLineHasNoEntry(line);
    } else {
      FirstLineWhole(line);
      EntriesStep(line);
    }
  }
}
