/** Pages on which a zone was created: what later operations find there (src/mimir/compiled_truth.py:263-324). */
module CreatedPages {
  import opened Text
  import opened Patterns
  import opened CompiledTruth
  import opened PageShape
  import opened PageEdits
  import opened PageRecognition
  import opened ZoneLens
  import opened ZoneCreation

  // ---- Writing a created truth again ----

  /** On an inserted truth a second rewrite fully replaces the first under the exact condition of any rewritten one. */
  lemma RewriteInsertsTwice(content: string, a: string, b: string)
    requires TimelineOnly(content)
    ensures RewriteCompiledTruth(RewriteCompiledTruth(content, a), b) == RewriteCompiledTruth(content, b)
      <==> !Blank(a) && Faithful(a)
  {
    hide TimelineOnly, Shape.Valid, Shape.Content, RewriteCompiledTruth, Faithful, Blank, TwoZoned, TimelineOpen,
      Shape.Open;
    var p := InsertedShape(content);
    InsertedLikeRewritten(content, p, a);
    InsertedLikeRewritten(content, p, b);
    ShapeIsTwoZoned(p);
    PutPut(p.Content(), a, b);
  }

  lemma InsertedLikeRewritten(content: string, p: Shape, t: string)
    requires TimelineOnly(content) && p.Valid() && p.truthFirst && p.gap1 == "\n\n" && p.between == ""
    requires content == (p.front + p.lead) + p.Section2()
    ensures RewriteCompiledTruth(content, t) == RewriteCompiledTruth(p.Content(), t)
  {
    hide TimelineOnly, Shape.Valid, Shape.Content, Shape.BeforeZone, Shape.Section2, RewriteCompiledTruth,
      RewrittenZone, Shape.AfterZone;
    InsertedText(content, p, t);
    FirstWrite(p, t);
    EmptyBetween(p);
  }

  /** The text of a truth created at the end of a page without zones, before the truth itself. */
  function CreatedStart(content: string): string {
    content + (if EndsWithNewline(content) then "" else "\n") + "\n"
  }

  lemma CreatedLead(content: string, h: string)
    requires !Contains(content, h) && HeadingLike(h)
    ensures Count(CreatedStart(content), h) == 0 && EndsWithNewline(CreatedStart(content))
  {
    hide Count, HeadingLike, Contains;
    ContainsIffCount(content, h);
    var t := if EndsWithNewline(content) then "" else "\n";
    CountLineEnd(content, h);
    CountLineEnd(content + t, h);
    assert content + "" == content;
  }

  /**
   On a truth created at the end of the page, a second rewrite leaves what a first one would have written,
   and one more newline, under the same condition.
   */
  lemma RewriteCreatesTwice(content: string, a: string, b: string)
    requires !Contains(content, TRUTH_HEADING) && !Contains(content, TIMELINE_HEADING)
    ensures RewriteCompiledTruth(RewriteCompiledTruth(content, a), b) == RewriteCompiledTruth(content, b) + "\n"
      <==> !Blank(a) && Faithful(a)
  {
    assert Gap("\n\n");
    hide Contains, Count, HeadingLike, Locate, TakeSection, SkipBlank, Unblanked, BlankStart, RStripNewlines,
      HasMarkerLine, Blank, Faithful, Gap;
    HeadingFacts();
    var p := CreatedStart(content);
    var start, x := p + (TRUTH_HEADING + "\n\n"), RStripNewlines(a) + "\n";
    var c := RewriteCompiledTruth(content, a);
    CreatedAssoc(p, RStripNewlines(a) + "\n");
    CreatedAssoc(p, RStripNewlines(b) + "\n");
    CreatedLead(content, TRUTH_HEADING);
    HeadingView(p, TRUTH_HEADING, "\n\n", x, false);
    LocateContains(c, TRUTH_HEADING, false, true);
    var k, r := BlankStart(x), TakeSection(Unblanked(x), SECTION, true).after;
    var n := RStripNewlines(b) + "\n" + "\n";
    assert RewriteCompiledTruth(c, b) == start + k + (n + r) by {
      Assoc(start + k, RStripNewlines(b) + "\n", "\n");
      Assoc(start + k, n, r);
    }
    assert RewriteCompiledTruth(content, b) + "\n" == start + (n + "") by {
      Assoc(start, RStripNewlines(b) + "\n", "\n");
      assert n + "" == n;
    }
    assert (start + k + (n + r) == start + (n + "")) <==> (k == "" && r == "") by { SameText(start, k, n, r); }
    CreatedRest(a);
  }

  lemma SameText(start: string, k: string, n: string, r: string)
    ensures start + k + (n + r) == start + (n + "") <==> k == "" && r == ""
  {
    assert |start + k + (n + r)| == |start| + |k| + |n| + |r|;
    if k == "" && r == "" { assert start + k == start; }
  }

  lemma CreatedAssoc(p: string, body: string)
    ensures p + TRUTH_HEADING + "\n\n" + body == p + (TRUTH_HEADING + "\n\n") + body
  {
    Assoc(p, TRUTH_HEADING, "\n\n");
  }

  /** What a later rewrite would keep of a created truth: nothing, exactly if it is solid and faithful. */
  lemma CreatedRest(a: string)
    ensures var x := RStripNewlines(a) + "\n";
      BlankStart(x) == "" && TakeSection(Unblanked(x), SECTION, true).after == "" <==> !Blank(a) && Faithful(a)
  {
    hide TakeSection, SkipBlank, HasMarkerLine, Unblanked, RStripNewlines, Blank;
    var r := RStripNewlines(a);
    var x := r + "\n";
    TrimmedNewlines(a);
    UnblankedParts(x);
    TakeSectionIsShortest(Unblanked(x), SECTION, true);
    if Blank(a) {
      BlankLine(r);
      BlankSkip(x, "");
      assert x + "" == x;
    } else {
      SolidSkip(r, "\n");
      SolidPrefix(r, a);
      UnblankedSame(r);
      UnblankedSame(x);
      StartIsEmpty(x);
      NoMarkerInNothing();
      MarkerAcross(r, "", SECTION, true);
      assert r + ['\n'] + "" == x;
    }
  }

  lemma StartIsEmpty(x: string)
    ensures BlankStart(x) == "" <==> Unblanked(x) == x
  {
    hide SkipBlank;
    UnblankedParts(x);
  }

  lemma BlankLine(r: string)
    requires Blank(r)
    ensures Gap(r + "\n")
  {
  }

  // ---- Creating the Timeline of a page that has a truth ----

  /** A page whose only zone is one Compiled Truth, under the heading that the parser finds. */
  predicate TruthOnly(content: string) {
    && Extendable(content)
    && Count(content, TRUTH_HEADING) == 1 && Count(content, TIMELINE_HEADING) == 0
    && AfterHeading(content, true).Some?
  }

  /** A heading that is found stays found, whatever is written at the end. */
  lemma {:induction false} FoundExtends(s: string, w: string, h: string, bol: bool)
    requires Locate(s, h, true, bol).Some?
    ensures Locate(s + w, h, true, bol).Some?
    decreases |s|
  {
    hide SkipBlank;
    if HeadingHere(s, h, true, bol) {
      GapExtends(s[|h|..], w);
      assert (s + w)[|h|..] == s[|h|..] + w && h <= s + w;
    } else {
      assert s != "";
      ConsAppend(s, w);
      FoundExtends(s[1..], w, h, s[0] == '\n');
    }
  }

  lemma CreatedCounts(content: string, line: string)
    requires !Contains(content, TIMELINE_HEADING) && Lacks(line)
    ensures var c := CreatedStart(content) + (TIMELINE_HEADING + "\n\n") + (line + "\n");
      && Count(c, TIMELINE_HEADING) == 1
      && Count(c, TRUTH_HEADING) == Count(content, TRUTH_HEADING)
  {
    hide Count, HeadingLike, Contains;
    HeadingFacts();
    CreatedCount(content, line, TIMELINE_HEADING);
    CreatedCount(content, line, TRUTH_HEADING);
    ContainsIffCount(content, TIMELINE_HEADING);
  }

  lemma CreatedCount(content: string, line: string, h: string)
    requires HeadingLike(h) && (h == TIMELINE_HEADING || h[3] != TIMELINE_HEADING[3])
    ensures Count(CreatedStart(content) + (TIMELINE_HEADING + "\n\n") + (line + "\n"), h)
      == Count(content, h) + (if h == TIMELINE_HEADING then 1 else 0) + Count(line, h)
  {
    hide Count, HeadingLike;
    HeadingFacts();
    var t := if EndsWithNewline(content) then "" else "\n";
    CountLineEnd(content, h);
    CountLineEnd(content + t, h);
    assert content + "" == content;
    CountHeadingLine(TIMELINE_HEADING, "\n\n", h);
    CountLineEnd(line, h);
    var p := CreatedStart(content);
    CountJoinHeading(p, TIMELINE_HEADING + "\n\n", h);
    CountJoinHeading(p + (TIMELINE_HEADING + "\n\n"), line + "\n", h);
  }

  /** The Timeline that an append creates behind a truth makes a well-formed page with exactly the appended entries. */
  lemma AppendCreatesZone(content: string, e: string)
    requires TruthOnly(content) && Clean(e)
    ensures var c := AppendTimelineEntry(content, e);
      WellFormed(c) && TimelineOf(c) == Entries(e)
  {
    hide Count, HeadingLike, Locate, Contains, SkipBlank, Unblanked, TimelineOf, Entries, SplitFrontmatter,
      RStripNewlines, HasMarkerLine, Extendable;
    HeadingFacts();
    ContainsIffCount(content, TIMELINE_HEADING);
    AppendCreates(content, e);
    var line := RStripNewlines(e);
    var t := if EndsWithNewline(content) then "" else "\n";
    var y := t + "\n" + TIMELINE_HEADING + "\n\n" + (line + "\n");
    var c := AppendTimelineEntry(content, e);
    assert c == content + t + "\n" + TIMELINE_HEADING + "\n\n" + (line + "\n") by {
      Assoc(content + t + "\n" + TIMELINE_HEADING + "\n\n", line, "\n");
    }
    CreatedText(content, t, TIMELINE_HEADING, line + "\n");
    assert y[0] == '\n';
    FrontmatterExtends(content, y);
    CreatedSection(content, TIMELINE_HEADING, line + "\n");
    FoundExtends(StripFrontmatter(content), y, TRUTH_HEADING, true);
    CleanTrim(e);
    CreatedCounts(content, line);
    LineHasNoSection(line);
    if SplitFrontmatter(content).before == "" { ExtendedFront(content, y); }
  }

  lemma LineHasNoSection(line: string)
    requires Clean(line)
    ensures !(SECTION <= Unblanked(line + "\n"))
  {
    hide Lacks, Unblanked, Count;
    CleanEmpty();
    CleanJoin(line, "");
    assert line + ['\n'] + "" == line + "\n";
    NoMarkerUnblanked(line + "\n");
  }

  lemma ExtendedFront(content: string, y: string)
    requires Extendable(content) && SplitFrontmatter(content).before == "" && y != "" && y[0] == '\n'
    ensures !("---\n" <= content + y)
  {
    hide SplitFrontmatter;
    NoFenceLater(content, y);
  }
}
