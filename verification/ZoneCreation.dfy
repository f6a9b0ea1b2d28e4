/** The mutators on pages that lack a zone: the section they create is the one that is parsed. */
module ZoneCreation {
  import opened Text
  import opened Patterns
  import opened CompiledTruth
  import opened TimelineText
  import opened PageShape
  import opened PageEdits
  import opened PageRecognition
  import opened ZoneLens
  import opened TimelineLog

  /** Text after the page cannot change what its frontmatter is. */
  predicate Extendable(content: string) {
    var cut := SplitFrontmatter(content);
    if cut.before == "" then !("---\n" <= content + "\n") else cut.after != ""
  }

  lemma NoFenceLater(content: string, x: string)
    requires !("---\n" <= content + "\n") && (x == "" || x[0] == '\n')
    ensures !("---\n" <= content + x)
  {
    var s := content + x;
    if x == "" {
      assert s == content;
    } else {
      assert s[|content|] == '\n';
      assert content + "\n" == s[..|content| + 1];
    }
  }

  lemma ClosedFrontmatter(content: string)
    requires SplitFrontmatter(content).before != ""
    ensures Settled(SplitFrontmatter(content).before, StripFrontmatter(content))
  {
    hide AfterClosing;
    var cut := SplitFrontmatter(content);
    assert cut.before + cut.after == content;
    assert "---\n" <= cut.before;
  }

  lemma FrontmatterExtends(content: string, x: string)
    requires Extendable(content) && (x == "" || x[0] == '\n')
    ensures SplitFrontmatter(content + x) == Cut(SplitFrontmatter(content).before, StripFrontmatter(content) + x)
  {
    hide AfterClosing, Settled;
    var cut := SplitFrontmatter(content);
    if cut.before == "" {
      NoFenceLater(content, x);
    } else {
      ClosedFrontmatter(content);
      SplitSettled(cut.before, cut.after, x);
      Assoc(cut.before, cut.after, x);
    }
  }

  lemma {:induction false} CountSuffix(a: string, b: string, h: string)
    ensures Count(b, h) <= Count(a + b, h)
  {
    if a == "" {
      assert a + b == b;
    } else {
      ConsAppend(a, b);
      CountSuffix(a[1..], b, h);
    }
  }

  /** The line-ended start of a section that is created at the end of the page. */
  function NewLead(body: string, content: string): string {
    body + (if EndsWithNewline(content) then "" else "\n") + "\n"
  }

  lemma NewLeadLacks(content: string, h: string)
    requires !Contains(content, h) && HeadingLike(h)
    ensures Count(NewLead(StripFrontmatter(content), content), h) == 0
  {
    hide Count, HeadingLike, Contains;
    var cut := SplitFrontmatter(content);
    ContainsIffCount(content, h);
    CountSuffix(cut.before, cut.after, h);
    CountNewlines(h);
    var t := if EndsWithNewline(content) then "" else "\n";
    CountLineEnd(cut.after, h);
    CountLineEnd(cut.after + t, h);
    assert cut.after + "" == cut.after;
  }

  lemma CountLineEnd(a: string, h: string)
    requires HeadingLike(h)
    ensures Count(a + "\n", h) == Count(a, h)
  {
    hide Count;
    CountAcross(a, '\n', "", h);
    CountNoHash("", h);
    assert a + ['\n'] + "" == a + "\n";
  }

  lemma CountNewlines(h: string)
    requires HeadingLike(h)
    ensures Count("\n", h) == 0
  {
    CountNoHash("\n", h);
  }

  /** A section with heading `h` created at the end of the page is the one that the parser finds. */
  lemma CreatedSection(content: string, h: string, x: string)
    requires Extendable(content) && !Contains(content, h) && HeadingLike(h)
    ensures var c := content + (if EndsWithNewline(content) then "" else "\n") + "\n" + h + "\n\n" + x;
      && Locate(StripFrontmatter(c), h, true, true).Some?
      && Locate(StripFrontmatter(c), h, true, true).value.after == Unblanked(x)
  {
    hide Count, HeadingLike, Contains, Locate, SkipBlank, Unblanked, BlankStart, SplitFrontmatter, Extendable;
    var t := if EndsWithNewline(content) then "" else "\n";
    var c := content + t + "\n" + h + "\n\n" + x;
    var y := t + "\n" + h + "\n\n" + x;
    CreatedText(content, t, h, x);
    FrontmatterExtends(content, y);
    var body := StripFrontmatter(content);
    CreatedText(body, t, h, x);
    NewLeadLacks(content, h);
    HeadingView(NewLead(body, content), h, "\n\n", x, true);
  }

  lemma CreatedText(content: string, t: string, h: string, x: string)
    ensures content + t + "\n" + h + "\n\n" + x == content + (t + "\n" + h + "\n\n" + x)
    ensures content + (t + "\n" + h + "\n\n" + x) == content + t + "\n" + (h + "\n\n") + x
  {
    Assoc(content, t, "\n");
    Assoc(content, t + "\n", h);
    Assoc(content, t + "\n" + h, "\n\n");
    Assoc(content, t + "\n" + h + "\n\n", x);
    Assoc(content + t + "\n", h, "\n\n");
  }

  /** A Timeline that an append creates holds exactly the appended entries. */
  lemma AppendCreates(content: string, e: string)
    requires Extendable(content) && !Contains(content, TIMELINE_HEADING) && !HasMarkerLine(e, SECTION, true)
    ensures TimelineOf(AppendTimelineEntry(content, e)) == Entries(e)
  {
    hide Contains, Locate, HasMarkerLine, Entries, Unblanked, RStripNewlines, SplitFrontmatter, RStrip, TakeSection,
      Extendable;
    HeadingFacts();
    var line := RStripNewlines(e);
    CreatedSection(content, TIMELINE_HEADING, line + "\n");
    TrimmedNewlines(e);
    NoMarkerInNothing();
    MarkerAcross(line, "", SECTION, true);
    assert line + ['\n'] + "" == line + "\n";
    assert AppendTimelineEntry(content, e) == content + (if EndsWithNewline(content) then "" else "\n")
      + "\n" + TIMELINE_HEADING + "\n\n" + (line + "\n");
    NoMarkerUnblanked(line + "\n");
    var u := Unblanked(line + "\n");
    TakeSectionConcat(u, "", SECTION, true);
    assert u + "" == u;
    EntriesTrim(u);
    EntriesUnblanked(line + "\n");
    EntriesTrimNewlines(e);
    EntriesLastNewline(line);
  }

  lemma NoMarkerUnblanked(n: string)
    requires !HasMarkerLine(n, SECTION, true)
    ensures !HasMarkerLine(Unblanked(n), SECTION, true)
  {
    hide HasMarkerLine, Unblanked, BlankStart;
    UnblankedParts(n);
    var b, u := BlankStart(n), Unblanked(n);
    if b != "" {
      assert b[..|b| - 1] + ['\n'] + u == n;
      MarkerAcross(b[..|b| - 1], u, SECTION, true);
    } else {
      assert b + u == u;
    }
  }

  // ---- A created Compiled Truth ----

  lemma RStripCons(c: char, a: string, b: string)
    requires RStrip(a) == RStrip(b)
    ensures RStrip([c] + a) == RStrip([c] + b)
  {
    hide RStrip;
    var r := RStrip(a);
    if r == "" && IsSpace(c) {
      RStripUnique([c] + a, "");
      RStripUnique([c] + b, "");
    } else {
      RStripUnique([c] + a, [c] + r);
      RStripUnique([c] + b, [c] + r);
    }
  }

  lemma TakeStep(a: string, bol: bool)
    requires a != "" && !(bol && SECTION <= a)
    ensures TakeSection(a, SECTION, bol).before == [a[0]] + TakeSection(a[1..], SECTION, a[0] == '\n').before
  {
  }

  lemma NewlineSection(bol: bool)
    ensures RStrip(TakeSection("\n", SECTION, bol).before) == RStrip(TakeSection("", SECTION, bol).before)
  {
    TakeStep("\n", bol);
    assert "\n"[1..] == "";
    BlankStrip("\n");
    BlankStrip("");
  }

  /** A final newline changes nothing of a trimmed section. */
  lemma {:induction false} SectionLastNewline(a: string, bol: bool)
    ensures RStrip(TakeSection(a + "\n", SECTION, bol).before) == RStrip(TakeSection(a, SECTION, bol).before)
    decreases |a|
  {
    if a == "" {
      NewlineSection(bol);
      assert a + "\n" == "\n";
    } else {
      hide RStrip, TakeSection;
      HeadingFacts();
      PrefixAcross(a, '\n', "", SECTION);
      assert a + ['\n'] + "" == a + "\n";
      if bol && SECTION <= a {
        SectionStops(a);
        SectionStops(a + "\n");
      } else {
        ConsAppend(a, "\n");
        SectionLastNewline(a[1..], a[0] == '\n');
        TakeStep(a, bol);
        TakeStep(a + "\n", bol);
        RStripCons(a[0], TakeSection(a[1..] + "\n", SECTION, a[0] == '\n').before,
          TakeSection(a[1..], SECTION, a[0] == '\n').before);
      }
    }
  }

  lemma SectionStops(a: string)
    requires SECTION <= a
    ensures TakeSection(a, SECTION, true).before == ""
  {
  }

  lemma CreatedReadBack(t: string)
    ensures RStrip(TakeSection(Unblanked(RStripNewlines(t) + "\n"), SECTION, true).before) == RStrip(ReadBack(t, ""))
  {
    hide TakeSection, RStrip, Unblanked, RStripNewlines;
    var r := RStripNewlines(t);
    TrimmedNewlines(t);
    if Blank(r) {
      BlankSkip(r + "\n", "");
      assert r + "\n" + "" == r + "\n";
      ReadBlank(t, "");
      SectionOfNothing();
    } else {
      SolidSkip(r, "\n");
      WrittenSolid(t, "");
      var u := Unblanked(r);
      Assoc(u, "\n", "\n");
      assert "\n\n" + "" == "\n" + "\n";
      SectionLastNewline(u + "\n", true);
    }
  }

  lemma SectionOfNothing()
    ensures TakeSection("", SECTION, true).before == ""
  {
  }

  /** A truth written into a page without zones is read back under the same condition as a rewritten one. */
  lemma RewriteCreates(content: string, t: string)
    requires Extendable(content) && !Contains(content, TRUTH_HEADING) && !Contains(content, TIMELINE_HEADING)
    ensures CompiledTruthOf(RewriteCompiledTruth(content, t)) == RStrip(t) <==> Blank(t) || Faithful(t)
  {
    hide Contains, Locate, Unblanked, RStripNewlines, SplitFrontmatter, RStrip, TakeSection, Extendable, Faithful,
      ReadBack;
    HeadingFacts();
    CreatedSection(content, TRUTH_HEADING, RStripNewlines(t) + "\n");
    assert RewriteCompiledTruth(content, t) == content + (if EndsWithNewline(content) then "" else "\n")
      + "\n" + TRUTH_HEADING + "\n\n" + (RStripNewlines(t) + "\n");
    CreatedReadBack(t);
    ReadBackExact(t, "");
  }

  // ---- A Compiled Truth inserted before the Timeline ----

  /** A page whose only zone is one Timeline, under the heading that the parser finds. */
  predicate TimelineOnly(content: string) {
    && (SplitFrontmatter(content).before == "" ==> !("---\n" <= content))
    && Count(content, TRUTH_HEADING) == 0 && Count(content, TIMELINE_HEADING) == 1
    && AfterHeading(content, false).Some?
  }

  lemma {:induction false} BeforeUnique(a: string, b: string, h: string)
    requires HeadingLike(h) && Count(a, h) == 0 && Breaks(a) && h <= b
    ensures Contains(a + b, h) && Before(a + b, h) == a
  {
    hide HeadingLike;
    if a == "" {
      assert a + b == b;
    } else {
      HeadingSpares(a, h);
      PrefixOfLine(a, b, h);
      ConsAppend(a, b);
      if |a| > 1 {
        BeforeUnique(a[1..], b, h);
      } else {
        assert a[1..] + b == b;
      }
    }
  }

  lemma HeadingSpares(a: string, h: string)
    requires HeadingLike(h) && Breaks(a) && a != ""
    ensures a[|a| - 1] !in h
  {
  }

  /** Such a page, with an empty Compiled Truth before its Timeline. */
  lemma InsertedShape(content: string) returns (p: Shape)
    requires TimelineOnly(content)
    ensures p.Valid() && p.truthFirst && p.gap1 == "\n\n" && p.zone1 == "" && p.between == ""
    ensures content == (p.front + p.lead) + p.Section2()
    ensures AfterHeading(content, false) == Some(p.After2())
  {
    hide TakeSection, HasMarkerLine, SkipBlank, Count, HeadingLike, Locate, SplitFrontmatter, Settled;
    HeadingFacts();
    var body := StripFrontmatter(content);
    var lead, gap, after := FoundHeading(body, TIMELINE_HEADING);
    var cut := TakeSection(after, SECTION, true);
    p := Shape(SplitFrontmatter(content).before, lead, true, "\n\n", "", "", gap, cut.before, cut.after);
    SectionEnds(after);
    SkipBlankPrefix(cut.before, cut.after);
    Assoc(p.front, lead, p.Section2());
    InsertedSettled(content, p.front, lead, TIMELINE_HEADING + (gap + after));
    InsertedCounts(p, content);
    EmptyZoneText();
  }

  lemma EmptyZoneText()
    ensures ZoneText("") && Lacks("")
  {
    HeadingFacts();
  }

  lemma InsertedSettled(content: string, front: string, lead: string, section: string)
    requires SplitFrontmatter(content) == Cut(front, lead + section)
    requires front == "" ==> !("---\n" <= content)
    requires SECTION <= section
    ensures Settled(front, lead + TRUTH_HEADING)
  {
    var start, x := lead + SECTION, section[3..];
    if front == "" {
      assert content == lead + section;
      NoOpening(lead, section);
    } else {
      hide Settled, SplitFrontmatter;
      assert section == SECTION + x;
      Assoc(lead, SECTION, x);
      SettledStart(content, start, x);
      SplitSettled(front, start, TRUTH_HEADING[3..]);
      assert TRUTH_HEADING == SECTION + TRUTH_HEADING[3..];
      Assoc(lead, SECTION, TRUTH_HEADING[3..]);
    }
  }

  /** A heading after `lead` opens no frontmatter that another section there does not open. */
  lemma NoOpening(lead: string, section: string)
    requires SECTION <= section && !("---\n" <= lead + section)
    ensures !("---\n" <= lead + TRUTH_HEADING)
  {
    if |lead| < 4 {
      assert (lead + TRUTH_HEADING)[|lead|] == '#';
    } else {
      assert (lead + TRUTH_HEADING)[..4] == lead[..4] == (lead + section)[..4];
    }
  }

  lemma InsertedCounts(p: Shape, content: string)
    requires Settled(p.front, p.lead + p.Heading1())
    requires p.truthFirst && content == (p.front + p.lead) + p.Section2()
    requires Count(content, TRUTH_HEADING) == 0 && Count(content, TIMELINE_HEADING) == 1
    requires Ended(p.lead) && Gap(p.gap2) && (p.tail == "" || Ended(p.zone2))
    ensures Lacks(p.front) && Lacks(p.lead) && Lacks(p.zone2) && Lacks(p.tail)
  {
    hide Count, HeadingLike, Settled;
    HeadingFacts();
    if p.front != "" {
      SettledFrontEnds(p.front, p.lead + p.Heading1());
    }
    InsertedCount(p, TRUTH_HEADING);
    InsertedCount(p, TIMELINE_HEADING);
  }

  lemma InsertedCount(p: Shape, k: string)
    requires k in {TRUTH_HEADING, TIMELINE_HEADING}
    requires p.truthFirst && Breaks(p.front)
    requires Ended(p.lead) && Gap(p.gap2) && (p.tail == "" || Ended(p.zone2))
    ensures Count((p.front + p.lead) + p.Section2(), k)
      == Count(p.front, k) + Count(p.lead, k) + (if k == TIMELINE_HEADING then 1 else 0)
        + Count(p.zone2, k) + Count(p.tail, k)
  {
    hide Count, HeadingLike;
    HeadingFacts();
    CountJoinHeading(p.front, p.lead, k);
    CountJoinHeading(p.front + p.lead, p.Section2(), k);
    CountHeadingLine(p.Heading2(), p.gap2, k);
    Assoc(p.Heading2(), p.gap2, p.After2());
    CountJoinHeading(p.Heading2() + p.gap2, p.After2(), k);
    if p.tail == "" {
      CountNoHash("", k);
      assert p.zone2 + p.tail == p.zone2;
    } else {
      CountJoinHeading(p.zone2, p.tail, k);
    }
  }

  lemma InsertedText(content: string, p: Shape, t: string)
    requires TimelineOnly(content) && p.Valid() && p.truthFirst && p.gap1 == "\n\n"
    requires content == (p.front + p.lead) + p.Section2()
    ensures RewriteCompiledTruth(content, t)
      == p.BeforeZone(true) + (RewrittenZone(t) + p.Section2())
  {
    hide Contains, Locate, RStripNewlines, SplitFrontmatter, TakeSection, Count, Shape.Valid, Shape.Section2,
      AfterHeading, HeadingLike;
    HeadingFacts();
    ContainsIffCount(content, TRUTH_HEADING);
    FrontLead(p);
    Section2Start(p);
    BeforeUnique(p.front + p.lead, p.Section2(), TIMELINE_HEADING);
    var before, r := p.front + p.lead, RStripNewlines(t);
    assert content[|before|..] == p.Section2();
    InsertedAssoc(p.front, p.lead, TRUTH_HEADING, r, p.Section2());
  }

  lemma Section2Start(p: Shape)
    ensures p.Heading2() <= p.Section2()
  {
  }

  lemma InsertedAssoc(front: string, lead: string, h: string, r: string, rest: string)
    ensures (front + lead) + h + "\n\n" + (r + "\n") + "\n" + rest
      == front + (lead + (h + "\n\n")) + (r + ['\n'] + "\n" + rest)
  {
    Assoc(front, lead, h + "\n\n");
    Assoc(front + lead, h, "\n\n");
    var s := (front + lead) + h + "\n\n";
    Assoc(s, r + "\n", "\n");
    Assoc(s, r + "\n" + "\n", rest);
  }

  /** A truth inserted before the Timeline is read back under the same condition as a rewritten one. */
  lemma RewriteInserts(content: string, t: string)
    requires TimelineOnly(content)
    ensures CompiledTruthOf(RewriteCompiledTruth(content, t)) == RStrip(t) <==> Blank(t) || Faithful(t)
  {
    hide TimelineOnly, Shape.Valid, Shape.BeforeZone, Shape.Section2, RewriteCompiledTruth, RewrittenZone, SkipBlank,
      Faithful, RStrip, Locate, SplitFrontmatter, TakeSection, Unblanked, BlankStart, AfterHeading;
    var p := InsertedShape(content);
    InsertedText(content, p, t);
    ContinuedView(p, true, RewrittenZone(t) + p.Section2());
    AfterZoneIsSection(p, true);
    EmptyBetween(p);
    ReadBackExact(t, p.Section2());
  }

  lemma EmptyBetween(p: Shape)
    requires p.truthFirst && p.between == ""
    ensures p.AfterZone(true) == p.Section2()
  {
    hide Shape.Section2;
  }

  /** The page then keeps both zones apart, with the same Timeline. */
  lemma RewriteInsertsZone(content: string, t: string)
    requires TimelineOnly(content) && Clean(t)
    ensures var c := RewriteCompiledTruth(content, t);
      && TwoZoned(c)
      && TimelineOf(c) == TimelineOf(content)
      && (TimelineOpen(c) <==> TimelineOpen(content))
  {
    hide TimelineOnly, Shape.Valid, Shape.BeforeZone, Shape.Section2, RewriteCompiledTruth, RewrittenZone, SkipBlank,
      RStrip, Locate, SplitFrontmatter, TakeSection, Unblanked, BlankStart, Clean, Shape.Content, Shape.Open, TwoZoned,
      Shape.WithZone, Entries;
    var p := InsertedShape(content);
    InsertedText(content, p, t);
    EmptyBetween(p);
    RewrittenZoneClean(t);
    WithZoneValid(p, true, RewrittenZone(t));
    WithZoneContent(p, true, RewrittenZone(t));
    WithZoneParts(p, true, RewrittenZone(t));
    var q := p.WithZone(true, RewrittenZone(t));
    ShapeIsTwoZoned(q);
    ParsedShape(q);
    InsertedTimeline(content, p);
    InsertedOpen(p, q, t);
  }

  lemma InsertedTimeline(content: string, p: Shape)
    requires p.Valid() && p.truthFirst && AfterHeading(content, false) == Some(p.After2())
    ensures TimelineOf(content) == Entries(p.Zone(false))
    ensures TimelineOpen(content) <==> p.Open()
  {
    hide Shape.Valid, RStrip, Locate, SplitFrontmatter, TakeSection, Entries, Shape.Open;
    SecondView(p);
    EntriesTrim(p.Zone(false));
    ShapeOpen(p);
  }

  lemma InsertedOpen(p: Shape, q: Shape, t: string)
    requires p.truthFirst && q == p.WithZone(true, RewrittenZone(t))
    ensures q.Open() <==> p.Open()
  {
  }
}
