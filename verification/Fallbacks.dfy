/**
 The mutators on pages that mention a heading, but not as one that the searches find
 (src/mimir/compiled_truth.py:288-324).
 */
module Fallbacks {
  import opened Text
  import opened Patterns
  import opened CompiledTruth
  import opened TimelineText
  import opened PageShape
  import opened PageEdits
  import opened ZoneLens
  import opened ZoneCreation
  import opened Revision
  import opened ZoneScope
  import opened CreatedPages
  import opened FactLists
  import opened HeadingSearch

  // ---- An entry behind a heading that is none ----

  lemma FallbackText(content: string, e: string, lead: string, rest: string)
    requires PlainFront(content) && Contains(content, TIMELINE_HEADING)
    requires Locate(content, TIMELINE_HEADING, false, true).None?
    requires Before(content, TIMELINE_HEADING) == SplitFrontmatter(content).before + lead
    requires rest == Behind(content, TIMELINE_HEADING)
    ensures AppendTimelineEntry(content, e)
      == SplitFrontmatter(content).before + (lead + (TIMELINE_HEADING + ("\n\n" + (RStripNewlines(e) + rest))))
  {
    hide Contains, Locate, SplitFrontmatter, Before, RStripNewlines;
    var b, line := Before(content, TIMELINE_HEADING), RStripNewlines(e);
    var s := content[|b|..];
    assert content == b + s && s == TIMELINE_HEADING + s[|TIMELINE_HEADING|..];
    assert content[..|b| + |TIMELINE_HEADING|] == b + TIMELINE_HEADING;
    Assoc(b + TIMELINE_HEADING + "\n\n", line, rest);
    Assoc(b + TIMELINE_HEADING, "\n\n", line + rest);
    Assoc(b, TIMELINE_HEADING, "\n\n" + (line + rest));
    Assoc(SplitFrontmatter(content).before, lead, TIMELINE_HEADING + ("\n\n" + (line + rest)));
  }

  /** The first line of a zone that starts with a line of text continues that line. */
  lemma {:induction false} FirstLineContinues(a: Line, z: string)
    ensures FirstLine(a + z) == a + FirstLine(z)
  {
    if a == "" {
      assert a + z == z;
    } else {
      ConsAppend(a, z);
      assert OneLine(a[1..]);
      FirstLineContinues(a[1..], z);
    }
  }

  lemma AfterFirstLineContinues(a: Line, z: string)
    requires a != ""
    ensures AfterFirstLine(a + z) == if z == "" then "" else AfterFirstLine(z)
  {
    hide FirstLine, IsLineBreak, OneLine;
    FirstLineContinues(a, z);
    var s, k := a + z, |FirstLine(z)|;
    assert k < |z| ==> s[|a| + k] == z[k] && s[|a| + k + 1..] == z[k + 1..];
    assert k + 1 < |z| ==> s[|a| + k + 1] == z[k + 1] && s[|a| + k + 2..] == z[k + 2..];
  }

  /** A bullet line stays the entry that it is only with white space behind it. */
  lemma BulletContinues(a: Line, f: Line)
    requires BULLET <= Strip(a)
    ensures OneLine(a + f) && BULLET <= Strip(a + f)
    ensures Blank(f) ==> Strip(a + f) == Strip(a)
    ensures !Blank(f) ==> |Strip(a + f)| > |Strip(a)|
  {
    hide LStrip, RStrip, OneLine, Blank, IsSpace;
    OneLineConcat(a, f);
    if Blank(f) {
      StripAppendBlank(a, f);
    } else {
      LStripAppend(a, f);
      BlankStrip(a);
      RStripPrepend(LStrip(a), f);
      BlankStrip(f);
      TrimmedLonger(LStrip(a), RStrip(f));
    }
  }

  lemma TrimmedLonger(l: string, r: string)
    requires r != "" && BULLET <= RStrip(l)
    ensures BULLET <= l + r && |l + r| > |RStrip(l)|
  {
    hide RStrip;
    assert l[..2] == RStrip(l)[..2] == BULLET;
    assert (l + r)[..2] == l[..2];
  }

  /** A bullet line is the only entry of a zone that it starts, if nothing else on the line and no entry follows it. */
  lemma OnlyEntry(a: Line, z: string)
    requires BULLET <= Strip(a)
    ensures Entries(a + z) == Entries(a) <==> Blank(FirstLine(z)) && Entries(z) == []
    ensures Entries(a) != []
  {
    hide Strip, FirstLine, AfterFirstLine, Entries, OneLine, ParseEntry;
    EntriesOfLine(a);
    FilledLine(a);
    FirstLineContinues(a, z);
    AfterFirstLineContinues(a, z);
    EntriesStep(a + z);
    BulletContinues(a, FirstLine(z));
    ParsedRaw(Strip(a));
    ParsedRaw(Strip(a + FirstLine(z)));
    if z == "" {
      EntriesBlank("");
      assert a + z == a;
      assert FirstLine(z) == "";
    } else {
      EntriesStep(z);
      var x, y, rest := ParseEntry(Strip(a)), ParseEntry(Strip(a + FirstLine(z))), Entries(AfterFirstLine(z));
      assert Entries(a + z) == [y] + rest && Entries(a) == [x];
      assert [y] + rest == [x] <==> y == x && rest == [] by { assert ([y] + rest)[0] == y; }
      if Blank(FirstLine(z)) { BlankLineHasNoEntry(FirstLine(z)); }
    }
  }

  lemma FilledLine(a: string)
    requires BULLET <= Strip(a)
    ensures a != ""
  {
  }

  lemma ParsedRaw(a: Line)
    requires BULLET <= a
    ensures ParseEntry(a).raw == a
  {
  }

  lemma {:induction false} LineSection(w: string, r: string)
    requires '\n' !in w
    ensures TakeSection(w + r, SECTION, false).before == w + TakeSection(r, SECTION, false).before
  {
    if w == "" {
      assert w + r == r;
    } else {
      ConsAppend(w, r);
      LineSection(w[1..], r);
      ConsAppend(w, TakeSection(r, SECTION, false).before);
    }
  }

  /** A line that starts no section starts a zone as it would start any text. */
  lemma LineZone(w: string, r: string)
    requires w != "" && '\n' !in w && w[0] != '#'
    ensures TakeSection(w + r, SECTION, true).before == w + TakeSection(r, SECTION, false).before
  {
    hide TakeSection;
    assert (w + r)[0] == w[0] && SECTION[0] == '#';
    LineSection(w, r);
    SectionStart(w + r);
  }

  lemma SectionStart(s: string)
    requires s != "" && !(SECTION <= s)
    ensures TakeSection(s, SECTION, true) == TakeSection(s, SECTION, false)
  {
  }

  lemma BulletLine(w: Line)
    requires BULLET <= Strip(w)
    ensures w != "" && '\n' !in w && w[0] != '#' && !Blank(w)
  {
    hide RStrip, LStrip, IsSpace;
    BlankStrip(w);
    NoNewline(w);
    assert LStrip(w)[0] == BULLET[0];
    LStripStep(w);
    HashIsSolid();
  }

  lemma HashIsSolid()
    ensures !IsSpace('#')
  {
  }

  /** The zone that is parsed behind the inserted line. */
  lemma FallbackZone(lead: string, line: Line, rest: string)
    requires Locate(lead, TIMELINE_HEADING, true, true).None? && Locate(rest, TIMELINE_HEADING, true, false).None?
    requires BULLET <= Strip(line)
    ensures ExtractZone(lead + (TIMELINE_HEADING + ("\n\n" + (line + rest))), TIMELINE_HEADING)
      == if Ended(lead) then RStrip(line + TakeSection(rest, SECTION, false).before) else ""
  {
    hide Locate, TakeSection, RStrip, Strip, Unblanked, HeadingLike, OneLine;
    HeadingFacts();
    var x := TIMELINE_HEADING + ("\n\n" + (line + rest));
    BulletLine(line);
    LocateSection(lead, x, TIMELINE_HEADING, true, true);
    if Ended(lead) {
      HeadingView("", TIMELINE_HEADING, "\n\n", line + rest, true) by { NoMention(TIMELINE_HEADING); }
      FallbackAssoc(line + rest);
      SolidSkip(line, rest);
      NoGapOnLine(line);
      UnblankedSame(line);
      LineZone(line, rest);
    } else {
      HeadingInLine(TIMELINE_HEADING, TIMELINE_HEADING, line + rest);
      LocateStart(line + rest, TIMELINE_HEADING, true, true);
      assert (line + rest)[1..] == line[1..] + rest;
      RestOfLinePast(line[1..], rest, TIMELINE_HEADING);
    }
  }

  lemma NoMention(h: string)
    requires HeadingLike(h)
    ensures Count("", h) == 0 && Gap("\n\n")
  {
  }

  lemma FallbackAssoc(y: string)
    ensures "" + (TIMELINE_HEADING + "\n\n") + y == TIMELINE_HEADING + ("\n\n" + y)
  {
    Assoc(TIMELINE_HEADING, "\n\n", y);
  }

  /**
   On a page that mentions the Timeline heading, but nowhere as a heading, an appended line is written
   behind the first mention.  It shows as the page's Timeline exactly if that mention starts a line and
   nothing follows it on this line, and no entry up to the next section.
   */
  lemma AppendFallback(content: string, e: string)
    requires PlainFront(content) && Contains(content, TIMELINE_HEADING)
    requires Locate(content, TIMELINE_HEADING, false, true).None?
    requires OneLine(RStripNewlines(e)) && BULLET <= Strip(RStripNewlines(e))
    ensures TimelineOf(content) == []
    ensures var z := TakeSection(Behind(content, TIMELINE_HEADING), SECTION, false).before;
      TimelineOf(AppendTimelineEntry(content, e)) == Entries(e)
      <==> OwnLine(content, TIMELINE_HEADING) && Blank(FirstLine(z)) && Entries(z) == []
  {
    hide Contains, Locate, SplitFrontmatter, Before, Behind, RStripNewlines, TakeSection, Strip, OwnLine, Entries,
      RStrip, PlainFront, AppendTimelineEntry, OneLine, FirstLine, Blank;
    HeadingFacts();
    var front, line := SplitFrontmatter(content).before, RStripNewlines(e);
    var lead, rest := FirstMention(content, TIMELINE_HEADING);
    var x, y := TIMELINE_HEADING + rest, TIMELINE_HEADING + ("\n\n" + (line + rest));
    NothingThere(content, front, lead, rest, TIMELINE_HEADING);
    FallbackText(content, e, lead, rest);
    assert SECTION <= x && SECTION <= y by { MentionIsSection(rest); MentionIsSection("\n\n" + (line + rest)); }
    FrontStays(content, lead, x, y) by { PlainIsFenced(content); }
    FallbackZone(lead, line, rest);
    EntriesBlank("") by { EmptyIsBlank(); }
    EntriesTrimNewlines(e);
    var z := TakeSection(rest, SECTION, false).before;
    OnlyEntry(line, z);
    EntriesTrim(line + z);
  }

  lemma MentionIsSection(rest: string)
    ensures SECTION <= TIMELINE_HEADING + rest && SECTION <= TRUTH_HEADING + rest
  {
  }

  /** Where the page's search finds nothing, the parser's finds nothing in the pieces of the page. */
  lemma NothingThere(content: string, front: string, lead: string, rest: string, h: string)
    requires HeadingLike(h) && Locate(content, h, false, true).None?
    requires PlainFront(content) && front == SplitFrontmatter(content).before
    requires exists k | k in {TRUTH_HEADING, TIMELINE_HEADING} :: content == front + (lead + (k + rest))
    ensures Locate(lead, h, true, true).None? && Locate(rest, h, true, false).None?
    ensures Locate(StripFrontmatter(content), h, true, true).None?
  {
    hide Locate, SplitFrontmatter, PlainFront, HeadingLike;
    var k :| k in {TRUTH_HEADING, TIMELINE_HEADING} && content == front + (lead + (k + rest));
    BodyOf(content, lead + (k + rest));
    NoneBehind(front, lead + (k + rest), h, true, true, true);
    NoneBehind(front + lead + k, rest, h, true, true, false) by {
      Assoc(lead, k, rest);
      Assoc(front, lead + k, rest);
      Assoc(front, lead, k);
    }
    MentionIsSection(rest);
    LocateSection(lead, k + rest, h, true, true);
  }

  // ---- What is read of a truth behind a heading ----

  /** Text inside other text is trimmed to less than that, unless all of it is blank. */
  lemma ShorterInside(a: string, b: string, s: string)
    requires a != "" && a + b <= s && !Blank(s)
    ensures RStrip(b) != RStrip(s)
  {
    hide RStrip, IsSpace;
    BlankStrip(s);
    var r := RStrip(b);
    if r != "" {
      PrefixInside(a, b, r, s);
      SolidCharacter(s, a, r, |r| - 1);
    }
  }

  lemma PrefixInside(a: string, b: string, r: string, s: string)
    requires a + b <= s && r <= b
    ensures a + r <= s
  {
    assert a + r == (a + b)[..|a + r|] == s[..|a + r|];
  }

  /** A zone ends at the latest where a section is known to start. */
  lemma ShortZone(w: string, rest: string)
    requires Ended(w) && SECTION <= rest
    ensures TakeSection(w + rest, SECTION, true).before <= w
  {
    hide TakeSection, HasMarkerLine;
    var s := w + rest;
    TakeSectionIsShortest(s, SECTION, true);
    assert s[|w|..] == rest;
    assert MarkerAt(s, |w|, SECTION, true);
    var cut := TakeSection(s, SECTION, true);
    assert cut.before == s[..|cut.before|] == w[..|cut.before|];
  }

  /** A truth that brings the heading along is never read back by that heading. */
  lemma OwnHeadingReadsLess(t: string, rest: string)
    requires Locate(RewrittenZone(t), TRUTH_HEADING, true, true).Some? && SECTION <= rest
    ensures var after := Locate(RewrittenZone(t), TRUTH_HEADING, true, true).value.after;
      RStrip(TakeSection(after + rest, SECTION, true).before) != RStrip(t)
    ensures !Blank(t)
  {
    hide Locate, TakeSection, RStrip, SkipBlank, RStripNewlines, Blank, RewrittenZone;
    var n := RewrittenZone(t);
    FoundInside(n);
    var cut := Locate(n, TRUTH_HEADING, true, true).value;
    assert EndsWithNewline(n) by { EndsZone(t); }
    assert n == cut.before + cut.after;
    assert Ended(cut.after);
    ShortZone(cut.after, rest);
    var zone := TakeSection(cut.after + rest, SECTION, true).before;
    assert cut.before + zone <= n by { assert n[..|cut.before + zone|] == cut.before + zone; }
    ShorterInside(cut.before, zone, n);
    WrittenTrimmed(t);
  }

  lemma FoundInside(n: string)
    requires Locate(n, TRUTH_HEADING, true, true).Some?
    ensures Locate(n, TRUTH_HEADING, true, true).value.before != "" && !Blank(n)
  {
    hide Locate, SkipBlank, HeadingLike, Blank;
    HeadingFacts();
    var cut := Locate(n, TRUTH_HEADING, true, true).value;
    var k := LocateIsLeftmost(n, TRUTH_HEADING, true, true);
    MentionIsSolid(n, k, TRUTH_HEADING);
    assert n == cut.before + cut.after;
    assert |cut.after| < |n|;
  }

  lemma WrittenTrimmed(t: string)
    ensures RStrip(RewrittenZone(t)) == RStrip(t)
    ensures Blank(RewrittenZone(t)) <==> Blank(t)
  {
    hide RStrip, RStripNewlines;
    var r := RStripNewlines(t);
    assert RewrittenZone(t) == r + "\n\n";
    RStripTwoNewlines(r);
    TrimmedNewlines(t);
    BlankStrip(t);
    BlankStrip(RewrittenZone(t));
  }

  lemma MentionIsSolid(s: string, k: nat, h: string)
    requires k <= |s| && HeadingLike(h) && h <= s[k..]
    ensures !Blank(s)
  {
    assert s[k] == s[k..][0] == h[0] == SECTION[0];
    assert !IsSpace('#');
  }

  /** What the parser reads of a truth that was written behind a new heading in front of a section. */
  lemma InsertedZone(lead: string, t: string, rest: string)
    requires Locate(lead, TRUTH_HEADING, true, true).None? && Locate(rest, TRUTH_HEADING, true, true).None?
    requires SECTION <= rest
    ensures ExtractZone(lead + (TRUTH_HEADING + ("\n\n" + (RewrittenZone(t) + rest))), TRUTH_HEADING) == RStrip(t)
      <==> Blank(t) || (Ended(lead) && Faithful(t))
  {
    hide Locate, TakeSection, RStrip, Unblanked, HeadingLike, RStripNewlines, Faithful, Blank;
    HeadingFacts();
    var n := RewrittenZone(t);
    var x := TRUTH_HEADING + ("\n\n" + (n + rest));
    MentionIsSection("\n\n" + (n + rest));
    LocateSection(lead, x, TRUTH_HEADING, true, true);
    if Ended(lead) {
      HeadingView("", TRUTH_HEADING, "\n\n", n + rest, true) by { NoMention(TRUTH_HEADING); }
      assert "" + (TRUTH_HEADING + "\n\n") + (n + rest) == x by { Assoc(TRUTH_HEADING, "\n\n", n + rest); }
      ReadBackExact(t, rest);
    } else {
      HeadingInLine(TRUTH_HEADING, TRUTH_HEADING, n + rest);
      LocateSection(n, rest, TRUTH_HEADING, true, true);
      BlankStrip(t);
      if Locate(n, TRUTH_HEADING, true, true).Some? {
        OwnHeadingReadsLess(t, rest);
      }
    }
  }

  /**
   On a page on which the search finds no Compiled Truth heading, whether or not one is mentioned, and
   that mentions the Timeline heading in any way, a rewritten truth is read back exactly if it is blank, or
   it would be read back anywhere and the first mention of the Timeline heading starts a line.
   */
  lemma RewriteInsertsAnywhere(content: string, t: string)
    requires PlainFront(content) && Contains(content, TIMELINE_HEADING)
    requires Locate(content, TRUTH_HEADING, false, true).None?
    ensures CompiledTruthOf(RewriteCompiledTruth(content, t)) == RStrip(t)
      <==> Blank(t) || (OwnLine(content, TIMELINE_HEADING) && Faithful(t))
  {
    hide Contains, Locate, SplitFrontmatter, Before, Behind, RStripNewlines, OwnLine, RStrip, PlainFront, Faithful,
      RewriteCompiledTruth, RewrittenZone, HeadingLike;
    HeadingFacts();
    var front := SplitFrontmatter(content).before;
    var lead, r := FirstMention(content, TIMELINE_HEADING);
    var rest := TIMELINE_HEADING + r;
    var y := TRUTH_HEADING + ("\n\n" + (RewrittenZone(t) + rest));
    NothingThere(content, front, lead, r, TRUTH_HEADING);
    Assoc(front, lead, rest);
    NoneBehind(front + lead, rest, TRUTH_HEADING, true, true, true);
    InsertedAnywhere(content, t, front, lead, rest);
    MentionIsSection(r);
    MentionIsSection("\n\n" + (RewrittenZone(t) + rest));
    FrontStays(content, lead, rest, y) by { PlainIsFenced(content); }
    InsertedZone(lead, t, rest);
  }

  lemma PlainIsFenced(content: string)
    requires PlainFront(content)
    ensures Fenced(content)
  {
  }

  lemma InsertedAnywhere(content: string, t: string, front: string, lead: string, rest: string)
    requires Contains(content, TIMELINE_HEADING) && Locate(content, TRUTH_HEADING, false, true).None?
    requires content == front + (lead + rest) && Before(content, TIMELINE_HEADING) == front + lead
    ensures RewriteCompiledTruth(content, t)
      == front + (lead + (TRUTH_HEADING + ("\n\n" + (RewrittenZone(t) + rest))))
  {
    hide Contains, Locate, RStripNewlines, Before;
    Assoc(front, lead, rest);
    assert content[|front + lead|..] == rest;
    InsertedAssoc(front, lead, TRUTH_HEADING, RStripNewlines(t), rest);
    InsertedPieces(front, lead, RewrittenZone(t) + rest);
  }

  lemma InsertedPieces(front: string, lead: string, y: string)
    ensures front + (lead + (TRUTH_HEADING + "\n\n")) + y == front + (lead + (TRUTH_HEADING + ("\n\n" + y)))
  {
    Assoc(TRUTH_HEADING, "\n\n", y);
    Assoc(lead, TRUTH_HEADING + "\n\n", y);
    Assoc(front, lead + (TRUTH_HEADING + "\n\n"), y);
  }

  // ---- A truth created behind a heading without a line of its own ----

  lemma {:induction false} GapAtEnd(y: string, q: string)
    requires q in {"\n", "\n\n"} && SkipBlank(y).None?
    ensures SkipBlank(y + q).Some? ==> SkipBlank(y + q).value == ""
  {
    if y == "" {
      assert y + q == q;
      assert "\n\n"[1..] == "\n" && "\n"[1..] == "";
      assert SkipBlank("").None? && SkipBlank("\n") == Some("");
    } else {
      ConsAppend(y, q);
      if IsSpace(y[0]) { GapAtEnd(y[1..], q); }
    }
  }

  lemma FoundAtEnd(s: string, q: string, h: string, bol: bool)
    requires q in {"\n", "\n\n"} && HeadingLike(h) && HeadingHere(s + q, h, true, bol) && !HeadingHere(s, h, true, bol)
    ensures SkipBlank((s + q)[|h|..]).value == ""
  {
    hide SkipBlank;
    HeadingInFront(s, q, h);
    assert (s + q)[|h|..] == s[|h|..] + q;
    GapAtEnd(s[|h|..], q);
  }

  /** A heading that newlines at the end complete is followed by nothing. */
  lemma {:induction false} CompletedAtEnd(s: string, q: string, h: string, bol: bool)
    requires q in {"\n", "\n\n"} && HeadingLike(h) && Locate(s, h, true, bol).None?
    ensures Locate(s + q, h, true, bol).Some? ==> Locate(s + q, h, true, bol).value.after == ""
    decreases |s|
  {
    hide SkipBlank, HeadingLike, HeadingHere;
    if s == "" {
      assert s + q == q;
      NewlinesHold(q, h, bol);
    } else {
      ConsAppend(s, q);
      LocateStart(s + q, h, true, bol);
      LocateStart(s, h, true, bol);
      if HeadingHere(s + q, h, true, bol) {
        FoundAtEnd(s, q, h, bol);
      } else {
        CompletedAtEnd(s[1..], q, h, s[0] == '\n');
      }
    }
  }

  lemma HeadingInFront(s: string, q: string, h: string)
    requires q in {"\n", "\n\n"} && HeadingLike(h) && h <= s + q
    ensures h <= s
  {
    assert s + q == s + ['\n'] + q[1..];
    PrefixAcross(s, '\n', q[1..], h);
  }

  lemma NewlinesHold(q: string, h: string, bol: bool)
    requires q in {"\n", "\n\n"} && HeadingLike(h)
    ensures Locate(q, h, true, bol).None?
  {
    assert h[0] == SECTION[0];
    assert "\n\n"[1..] == "\n" && "\n"[1..] == "";
  }

  /** One newline completes a heading as two do. */
  lemma SecondNewline(s: string, h: string)
    requires HeadingLike(h)
    ensures Locate(s + "\n" + "\n", h, true, true).None? <==> Locate(s + "\n", h, true, true).None?
  {
    hide Locate, HeadingLike;
    var p := s + "\n";
    if Locate(p, h, true, true).None? {
      LocatePast(p, "\n", h, true);
      NewlinesHold("\n", h, true);
    } else {
      FoundExtends(p, "\n", h, true);
    }
  }

  /** What the parser reads of a truth that was written behind a new heading at the end of a page. */
  lemma CreatedZone(body: string, q: string, t: string)
    requires q in {"\n", "\n\n"} && Locate(body, TRUTH_HEADING, true, true).None? && EndsWithNewline(body + q)
    ensures ExtractZone(body + q + (TRUTH_HEADING + "\n\n") + (RStripNewlines(t) + "\n"), TRUTH_HEADING) == RStrip(t)
      <==> Blank(t) || (Faithful(t) && Locate(body + q, TRUTH_HEADING, true, true).None?)
  {
    hide Locate, TakeSection, RStrip, Unblanked, HeadingLike, RStripNewlines, Faithful, Blank;
    HeadingFacts();
    var w := RStripNewlines(t) + "\n";
    var x := TRUTH_HEADING + "\n\n" + w;
    Assoc(body + q, TRUTH_HEADING + "\n\n", w);
    Assoc(TRUTH_HEADING, "\n\n", w);
    MentionIsSection("\n\n" + w);
    LocateSection(body + q, x, TRUTH_HEADING, true, true);
    BlankStrip(t);
    if Locate(body + q, TRUTH_HEADING, true, true).None? {
      HeadingView("", TRUTH_HEADING, "\n\n", w, true) by { NoMention(TRUTH_HEADING); }
      assert "" + (TRUTH_HEADING + "\n\n") + w == x;
      CreatedReadBack(t);
      ReadBackExact(t, "");
    } else {
      CompletedAtEnd(body, q, TRUTH_HEADING, true);
      assert "" + x == x;
      SectionStops(x);
    }
  }

  /**
   On a page on which the search finds no Compiled Truth heading, and that mentions no Timeline heading, a
   rewritten truth is read back exactly if it is blank, or it would be read back anywhere and the page does
   not end in a line that is a Compiled Truth heading but for its newline.
   */
  lemma RewriteCreatesAnywhere(content: string, t: string)
    requires Extendable(content) && !Contains(content, TIMELINE_HEADING)
    requires Locate(content, TRUTH_HEADING, false, true).None?
    ensures CompiledTruthOf(RewriteCompiledTruth(content, t)) == RStrip(t) <==>
      Blank(t) || (Faithful(t) && Locate(StripFrontmatter(content) + "\n", TRUTH_HEADING, true, true).None?)
  {
    hide Contains, Locate, SplitFrontmatter, RStripNewlines, RStrip, Faithful, HeadingLike, Extendable, ExtractZone,
      Blank;
    HeadingFacts();
    var cut, w := SplitFrontmatter(content), RStripNewlines(t) + "\n";
    var t0 := if EndsWithNewline(content) then "" else "\n";
    CreatedText(content, t0, TRUTH_HEADING, w);
    FrontmatterExtends(content, t0 + "\n" + TRUTH_HEADING + "\n\n" + w);
    CreatedText(cut.after, t0, TRUTH_HEADING, w);
    assert cut.before + cut.after == content;
    assert (cut.after + (t0 + "\n"))[|cut.after + (t0 + "\n")| - 1] == '\n';
    NoneBehind(cut.before, cut.after, TRUTH_HEADING, true, true, true);
    SecondNewline(cut.after, TRUTH_HEADING);
    Assoc(cut.after, t0, "\n");
    JoinedNewlines();
    assert cut.after + "" == cut.after;
    CreatedZone(cut.after, t0 + "\n", t);
  }

  lemma JoinedNewlines()
    ensures "" + "\n" == "\n" && "\n" + "\n" == "\n\n"
  {
  }
}
