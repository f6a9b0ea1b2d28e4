/** What is read of one timeline line, for every line (src/mimir/compiled_truth.py:124-154). */
module EntryLines {
  import opened Text
  import opened CompiledTruth
  import opened TimelineText
  import opened Revision
  import FactLists

  /** Four digits, two and two, with hyphens between them. */
  predicate DateShaped(d: string) {
    |d| == 10 && forall i | 0 <= i < 10 :: if i in {4, 7} then d[i] == '-' else '0' <= d[i] <= '9'
  }

  /** The line starts with a date, and text follows it. */
  predicate Dated(line: string, d: string, rest: string) {
    DateShaped(d) && rest != "" && line == "- " + d + ": " + rest
  }

  /** A dated line is parted into its date, and its source if it has a marker. */
  lemma DatedLine(line: Line, d: string, rest: string)
    requires Dated(line, d, rest)
    ensures BULLET <= line
    ensures var e := ParseEntry(line);
      && e.raw == line && e.date == d
      && match FindSource(rest)
         case None => !e.hasSource && e.description == rest && e.source == ""
         case Some((before, source)) => e.hasSource && e.description == RStripDots(before) && e.source == source
  {
    hide FindSource, RStripDots, OneLine;
    DateText(d, rest);
    assert line[..2] == "- ";
  }

  /** Any other line is a description as a whole, without date and source. */
  lemma UndatedLine(line: Line)
    requires BULLET <= line && forall d, rest :: !Dated(line, d, rest)
    ensures ParseEntry(line) == TimelineEntry(line, "", line[2..], "", false)
  {
    hide FindSource, RStripDots, OneLine;
    var text := line[2..];
    if |text| > 12 && IsDate(text[..10]) && text[10..12] == ": " {
      var d, rest := text[..10], text[12..];
      assert line == "- " + text && text == d + ": " + rest;
      assert Dated(line, d, rest);
    }
  }

  /** The trailing dots and spaces of a description are dropped, all of them. */
  lemma {:induction false} DotsAreTrimmed(s: string)
    ensures var r := RStripDots(s);
      && r <= s && (forall i | |r| <= i < |s| :: s[i] == '.' || s[i] == ' ')
      && (r != "" ==> r[|r| - 1] != '.' && r[|r| - 1] != ' ')
  {
    if s != "" && s[|s| - 1] in ". " { DotsAreTrimmed(s[..|s| - 1]); }
  }

  /** `[Source: c]` with some text but no closing bracket inside starts the text. */
  predicate MarkerStarts(s: string, c: string) {
    c != "" && ']' !in c && "[Source: " + c + "]" <= s
  }

  lemma {:induction false} BracketMeans(s: string, c: string)
    ensures UpToBracket(s) == Some(c) <==> ']' !in c && c + "]" <= s
  {
    if s != "" && s[0] != ']' {
      if c == "" {
        assert !(c + "]" <= s);
      } else {
        BracketMeans(s[1..], c[1..]);
        assert c == [c[0]] + c[1..];
        BracketStep(s, c);
      }
    } else if s != "" {
      assert c + "]" <= s <==> c == "" || (c[0] == ']' && c + "]" <= s);
    }
  }

  lemma BracketStep(s: string, c: string)
    requires s != "" && c != ""
    ensures c + "]" <= s <==> c[0] == s[0] && c[1..] + "]" <= s[1..]
    ensures UpToBracket(s[1..]) == Some(c[1..]) && c[0] == s[0] ==> c == [s[0]] + UpToBracket(s[1..]).value
  {
    assert (c + "]")[1..] == c[1..] + "]";
    ConsPrefix(c[0], c[1..] + "]", s);
    assert [c[0]] + (c[1..] + "]") == c + "]";
  }

  lemma MarkerHere(s: string)
    ensures SourceHere(s) <==> exists c :: MarkerStarts(s, c)
    ensures forall c | MarkerStarts(s, c) :: UpToBracket(s[9..]) == Some(c)
  {
    hide UpToBracket;
    forall c ensures MarkerStarts(s, c) <==> SOURCE_OPEN <= s && c != "" && UpToBracket(s[9..]) == Some(c) {
      if SOURCE_OPEN <= s { BracketMeans(s[9..], c); }
      MarkerSplit(s, c);
    }
  }

  lemma MarkerSplit(s: string, c: string)
    ensures SOURCE_OPEN + c + "]" <= s <==> SOURCE_OPEN <= s && c + "]" <= s[9..]
  {
    Assoc(SOURCE_OPEN, c, "]");
    var m := c + "]";
    if SOURCE_OPEN + m <= s {
      assert SOURCE_OPEN <= SOURCE_OPEN + m;
      assert m == (SOURCE_OPEN + m)[9..] == s[..|SOURCE_OPEN + m|][9..] == s[9..][..|m|];
    }
    if SOURCE_OPEN <= s && m <= s[9..] {
      assert s == SOURCE_OPEN + s[9..];
    }
  }

  /** The source of a text is that of its first whole marker, and there is none exactly without one. */
  lemma {:induction false} SourceIsFirst(s: string)
    ensures FindSource(s).None? ==> forall k | 0 <= k <= |s| :: forall c :: !MarkerStarts(s[k..], c)
    ensures FindSource(s).Some? ==>
      var (before, c) := FindSource(s).value;
      && before <= s && MarkerStarts(s[|before|..], c)
      && forall k | 0 <= k < |before| :: forall d :: !MarkerStarts(s[k..], d)
  {
    hide SourceHere, MarkerStarts;
    MarkerHere(s);
    assert s[0..] == s;
    if SourceHere(s) {
      var c :| MarkerStarts(s, c);
    } else if s != "" {
      SourceIsFirst(s[1..]);
      assert forall k | 0 < k <= |s| :: s[k..] == s[1..][k - 1..];
    }
  }

  /** White space around a line makes no difference to what is read of it. */
  lemma PaddedLine(w: Line, line: Line, z: Line)
    requires Blank(w) && Blank(z)
    ensures OneLine(w + line + z) && Entries(w + line + z) == Entries(line)
  {
    hide Strip, ParseEntry, OneLine, Blank;
    OneLineConcat(w, line);
    OneLineConcat(w + line, z);
    PaddedStrip(w, line, z);
    EntriesOfLine(w + line + z);
    EntriesOfLine(line);
  }

  lemma PaddedStrip(w: string, line: string, z: string)
    requires Blank(w) && Blank(z)
    ensures Strip(w + line + z) == Strip(line)
  {
    hide LStrip, RStrip;
    StripAppendBlank(w + line, z);
    FactLists.LStripAppend(w, line);
  }
}
