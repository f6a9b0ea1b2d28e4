/**
 The mutators on every page on which they find a zone where the parser does: with one zone or both, among
 other sections and further mentions of the headings (src/mimir/compiled_truth.py:275-318).
 */
module AgreedPages {
  import opened Text
  import opened Patterns
  import opened CompiledTruth
  import opened TimelineText
  import opened PageShape
  import opened PageEdits
  import opened PageRecognition
  import opened ZoneLens
  import opened TimelineLog
  import opened ZoneCreation
  import opened HeadingSearch
  import opened Fallbacks

  /** The mutator finds a zone where the parser does, whatever else the page holds. */
  predicate Agreed(content: string, truth: bool) {
    && Fenced(content)
    && AfterHeading(content, truth).Some? && Locate(content, HeadingOf(truth), false, true).Some?
    && Locate(content, HeadingOf(truth), false, true).value.after == AfterHeading(content, truth).value
  }

  /** Such a page in pieces: the first heading that is found, and a body that has none before it. */
  lemma AgreedParts(content: string, truth: bool) returns (lead: string, gap: string, after: string)
    requires Agreed(content, truth)
    ensures var front, h := SplitFrontmatter(content).before, HeadingOf(truth);
      && content == front + (lead + (h + (gap + after)))
      && Locate(content, h, false, true) == Some(Cut(front + (lead + (h + gap)), after))
    ensures Gap(gap) && Ended(lead) && Locate(lead, HeadingOf(truth), true, true).None?
    ensures Locate(SplitFrontmatter(content).before + lead, HeadingOf(truth), false, true).None?
    ensures AfterHeading(content, truth) == Some(after) && SkipBlank(after).None? && Fenced(content)
  {
    hide Locate, SplitFrontmatter, HeadingLike, Gap, SkipBlank;
    HeadingFacts();
    var cut, h := SplitFrontmatter(content), HeadingOf(truth);
    lead, gap, after := FoundHeading(cut.after, h);
    var p, x := cut.before + lead, h + (gap + after);
    assert content == cut.before + (lead + x);
    Assoc(cut.before, lead, x);
    MentionIsSection(gap + after);
    LocateSection(p, x, h, false, true);
    assert Locate(p, h, false, true).None?;
    assert p + "" == p;
    NoneBehind(cut.before, lead, h, true, true, true);
    AgreedCut(cut.before, lead, h, gap, after);
    assert Locate(content, h, false, true).value.before + after == content;
    SameStart(Locate(content, h, false, true).value.before, cut.before + (lead + (h + gap)), after);
  }

  lemma SameStart(a: string, b: string, s: string)
    requires a + s == b + s
    ensures a == b
  {
    assert |a| == |b|;
    assert a == (a + s)[..|a|] && b == (b + s)[..|b|];
  }

  lemma AgreedCut(front: string, lead: string, h: string, gap: string, after: string)
    ensures front + (lead + (h + (gap + after))) == front + (lead + (h + gap)) + after
  {
    Assoc(h, gap, after);
    Assoc(lead, h + gap, after);
    Assoc(front, lead + (h + gap), after);
  }

  /** A rewrite where the mutator finds the heading. */
  lemma LocatedWrite(content: string, t: string, before: string, after: string)
    requires Locate(content, TRUTH_HEADING, false, true) == Some(Cut(before, after))
    ensures RewriteCompiledTruth(content, t) == before + (RewrittenZone(t) + TakeSection(after, SECTION, true).after)
  {
    hide Contains, Locate, RStripNewlines, TakeSection, Before;
    var r, rest := RStripNewlines(t), TakeSection(after, SECTION, true).after;
    LocateContains(content, TRUTH_HEADING, false, true);
    Assoc(before, r + "\n", "\n");
    Assoc(before, RewrittenZone(t), rest);
  }

  /**
   On every page whose truth the mutator looks for where the parser finds it, with or without a Timeline
   and whatever other headings, a rewritten truth is read back exactly if it is blank or faithful.
   */
  lemma RewriteReadBack(content: string, t: string)
    requires Agreed(content, true)
    ensures CompiledTruthOf(RewriteCompiledTruth(content, t)) == RStrip(t) <==> Blank(t) || Faithful(t)
  {
    hide Locate, SplitFrontmatter, RStrip, Faithful, HeadingLike, Blank, Gap, TakeSection, Unblanked, HasMarkerLine,
      RewriteCompiledTruth, RewrittenZone;
    HeadingFacts();
    var front := SplitFrontmatter(content).before;
    var lead, gap, after := AgreedParts(content, true);
    var x := RewrittenZone(t) + TakeSection(after, SECTION, true).after;
    var y := TRUTH_HEADING + (gap + x);
    LocatedWrite(content, t, front + (lead + (TRUTH_HEADING + gap)), after);
    AgreedCut(front, lead, TRUTH_HEADING, gap, x);
    MentionIsSection(gap + after);
    MentionIsSection(gap + x);
    FrontStays(content, lead, TRUTH_HEADING + (gap + after), y);
    LocateSection(lead, y, TRUTH_HEADING, true, true);
    HeadingView("", TRUTH_HEADING, gap, x, true) by { NoMention(TRUTH_HEADING); }
    assert "" + (TRUTH_HEADING + gap) + x == y by { Assoc(TRUTH_HEADING, gap, x); }
    SectionEnds(after);
    ReadBackExact(t, TakeSection(after, SECTION, true).after);
  }

  /** What the mutator finds with other text behind the heading. */
  lemma FoundAgain(p: string, h: string, gap: string, x: string)
    requires HeadingLike(h) && Gap(gap) && Locate(p, h, false, true).None?
    ensures Locate(p + (h + gap) + x, h, false, true) == Some(Cut(p + (h + gap) + BlankStart(x), Unblanked(x)))
  {
    hide Locate, HeadingLike, Gap, Unblanked, BlankStart;
    var c, y := p + (h + gap) + x, h + gap + x;
    Assoc(p, h + gap, x);
    assert SECTION <= y by { OpensSection("", h, gap + x); Assoc(h, gap, x); assert "" + y == y; }
    LocateSection(p, y, h, false, true);
    HeadingView("", h, gap, x, false) by { NoMention(h); }
    assert "" + (h + gap) + x == y;
    LocateAnywhere(y, h, LineStartBehind(p, true));
    UnblankedParts(x);
    Assoc(p + (h + gap), BlankStart(x), Unblanked(x));
    SameStart(Locate(c, h, false, true).value.before, p + (h + gap) + BlankStart(x), Unblanked(x));
  }

  lemma LocateAnywhere(s: string, h: string, bol: bool)
    ensures Locate(s, h, false, bol) == Locate(s, h, false, true)
  {
  }

  /**
   On every such page a second rewrite fully replaces the first exactly if the first truth was faithful and
   not blank.
   */
  lemma RewriteReplaces(content: string, a: string, b: string)
    requires Agreed(content, true)
    ensures RewriteCompiledTruth(RewriteCompiledTruth(content, a), b) == RewriteCompiledTruth(content, b)
      <==> !Blank(a) && Faithful(a)
  {
    hide Locate, SplitFrontmatter, Faithful, HeadingLike, Blank, Gap, TakeSection, Unblanked, HasMarkerLine,
      RewriteCompiledTruth, RewrittenZone, KeptBefore, KeptAfter, BlankStart;
    HeadingFacts();
    var front := SplitFrontmatter(content).before;
    var lead, gap, after := AgreedParts(content, true);
    var start, rest := front + (lead + (TRUTH_HEADING + gap)), TakeSection(after, SECTION, true).after;
    var x := RewrittenZone(a) + rest;
    SectionEnds(after);
    LocatedWrite(content, a, start, after);
    LocatedWrite(content, b, start, after);
    Assoc(front, lead, TRUTH_HEADING + gap);
    FoundAgain(front + lead, TRUTH_HEADING, gap, x);
    LocatedWrite(start + x, b, start + BlankStart(x), Unblanked(x));
    KeptAre(a, rest);
    if Blank(a) {
      KeptOfBlank(a, rest);
      KeptRest(a, rest);
    } else {
      KeptOfSolid(a, rest);
    }
    SameWrite(start, KeptBefore(a, rest), RewrittenZone(b), KeptAfter(a, rest), rest);
  }

  lemma KeptAre(a: string, rest: string)
    ensures KeptBefore(a, rest) == BlankStart(RewrittenZone(a) + rest)
    ensures KeptAfter(a, rest) == TakeSection(Unblanked(RewrittenZone(a) + rest), SECTION, true).after
  {
  }

  /** The pages that keep both zones apart are among these. */
  lemma TwoZonedAgree(content: string, truth: bool)
    requires TwoZoned(content)
    ensures Agreed(content, truth)
  {
    hide Shape.Valid, Shape.Content, Shape.Body, Shape.BeforeZone, Locate, SplitFrontmatter, TakeSection, Count;
    var p := Recognize(content);
    FrontView(p);
    ZoneViewByName(p, truth);
  }

  // ---- Appending ----

  /** The text behind the heading: a zone, and the section that follows it. */
  lemma ZoneBehind(after: string) returns (z: string, r: string)
    requires SkipBlank(after).None?
    ensures after == z + r && TakeSection(after, SECTION, true) == Cut(z, r)
    ensures SectionOrEnd(r) && !HasMarkerLine(z, SECTION, true)
    ensures r != "" && z != "" ==> EndsWithNewline(z)
    ensures z == "" && r != "" <==> SECTION <= after
  {
    hide TakeSection, HasMarkerLine, SkipBlank;
    var cut := TakeSection(after, SECTION, true);
    z, r := cut.before, cut.after;
    SectionEnds(after);
    SectionHasNoMarker(after, SECTION, true);
    TakeSectionIsShortest(after, SECTION, true);
    assert after[0..] == after;
    assert z == "" ==> after == r;
    assert MarkerAt(after, 0, SECTION, true) <==> SECTION <= after;
  }

  lemma NoMarkerAppended(z: string, r: string, e: string)
    requires !HasMarkerLine(z, SECTION, true) && !HasMarkerLine(e, SECTION, true)
    ensures !HasMarkerLine(AppendedZone(z, r, e), SECTION, true)
  {
    hide HasMarkerLine, RStripNewlines;
    var k, l := RStripNewlines(z), RStripNewlines(e);
    TrimmedNewlines(z);
    TrimmedNewlines(e);
    NoMarkerInNothing();
    MarkerAcross("", l, SECTION, true);
    MarkerAcross(k, ['\n'] + l, SECTION, true);
    assert "" + ['\n'] + l == ['\n'] + l;
    var w := WithEntry(z, l);
    assert k == "" ==> w == "" + ['\n'] + l;
    assert k != "" ==> w == k + ['\n'] + (['\n'] + l);
    MarkerAcross(w, "", SECTION, true);
    assert w + ['\n'] + "" == w + "\n" && w + "" == w;
  }

  /** Blank lines in front of a zone are skipped without a look at the section behind it. */
  lemma UnblankedBefore(n: string, r: string)
    requires SectionOrEnd(r) && (r != "" ==> EndsWithNewline(n))
    ensures Unblanked(n + r) == Unblanked(n) + r
  {
    hide SkipBlank, Unblanked;
    if r == "" {
      assert n + r == n && Unblanked(n) + r == Unblanked(n);
    } else if Blank(n) {
      assert r[0] == SECTION[0];
      BlankSkip(n, r);
      BlankSkip(n, "");
      assert n + "" == n && "" + r == r;
    } else {
      SolidSkip(n, r);
    }
  }

  /** What the parser reads of a zone without section lines, in front of a section. */
  lemma ReadZone(n: string, r: string)
    requires SectionOrEnd(r) && (r != "" ==> EndsWithNewline(n)) && !HasMarkerLine(n, SECTION, true)
    ensures Entries(RStrip(TakeSection(Unblanked(n + r), SECTION, true).before)) == Entries(n)
  {
    hide SkipBlank, Unblanked, HasMarkerLine, TakeSection, Entries, RStrip, BlankStart;
    UnblankedBefore(n, r);
    UnblankedParts(n);
    NoMarkerUnblanked(n);
    var u := Unblanked(n);
    if u != "" && r != "" {
      assert (BlankStart(n) + u)[|n| - 1] == u[|u| - 1];
    }
    TakeSectionConcat(u, r, SECTION, true);
    EntriesTrim(u);
    EntriesUnblanked(n);
  }

  /** The page with other text behind the heading that both searches find. */
  lemma AgreedTimeline(content: string, lead: string, gap: string, after: string, x: string)
    requires Fenced(content) && Gap(gap) && Ended(lead) && Locate(lead, TIMELINE_HEADING, true, true).None?
    requires content == SplitFrontmatter(content).before + (lead + (TIMELINE_HEADING + (gap + after)))
    ensures TimelineOf(SplitFrontmatter(content).before + (lead + (TIMELINE_HEADING + (gap + x))))
      == Entries(RStrip(TakeSection(Unblanked(x), SECTION, true).before))
  {
    hide Locate, SplitFrontmatter, HeadingLike, Gap, TakeSection, Unblanked, Entries, RStrip;
    HeadingFacts();
    var y := TIMELINE_HEADING + (gap + x);
    MentionIsSection(gap + after);
    MentionIsSection(gap + x);
    FrontStays(content, lead, TIMELINE_HEADING + (gap + after), y);
    LocateSection(lead, y, TIMELINE_HEADING, true, true);
    HeadingView("", TIMELINE_HEADING, gap, x, true) by { NoMention(TIMELINE_HEADING); }
    assert "" + (TIMELINE_HEADING + gap) + x == y by { Assoc(TIMELINE_HEADING, gap, x); }
  }

  /** What an append leaves behind the heading. */
  lemma AppendedBehind(content: string, e: string, before: string, after: string) returns (x: string)
    requires Locate(content, TIMELINE_HEADING, false, true) == Some(Cut(before, after)) && SkipBlank(after).None?
    ensures AppendTimelineEntry(content, e) == before + x
    ensures SECTION <= after ==> SECTION <= x
    ensures !(SECTION <= after) ==>
      var cut := TakeSection(after, SECTION, true); x == AppendedZone(cut.before, cut.after, e) + cut.after
  {
    hide Locate, TakeSection, TakeBody, RStripNewlines, HasMarkerLine, Contains, Before, SkipBlank;
    var line, body := RStripNewlines(e), TakeBody(after, SECTION);
    LocateContains(content, TIMELINE_HEADING, false, true);
    x := WithEntry(body.before, line) + body.after;
    Assoc(before, WithEntry(body.before, line), body.after);
    if SECTION <= after {
      BodyOfSection(after);
      TrimmedSection(body.before);
    } else {
      var z, r := ZoneBehind(after);
      MarkerWithoutStart(z, SECTION);
      TakeBodyConcat(z, r, SECTION);
      KeptText(z, line);
      if r != "" { Assoc(WithEntry(z, line), "\n", r); }
    }
  }

  /**
   On every page whose Timeline the mutator looks for where the parser finds it, an append of text without
   section lines adds exactly its entries if and only if no section follows the heading directly, or there
   is nothing to add.
   */
  lemma AppendShows(content: string, e: string)
    requires Agreed(content, false) && !HasMarkerLine(e, SECTION, true)
    ensures TimelineOf(AppendTimelineEntry(content, e)) == TimelineOf(content) + Entries(e)
      <==> TimelineOpen(content) || Entries(e) == []
  {
    hide Locate, SplitFrontmatter, Gap, TakeSection, Unblanked, Entries, RStrip, HasMarkerLine, AppendTimelineEntry,
      SkipBlank, Agreed, AfterHeading, Fenced, AppendedZone, TimelineOf;
    var front := SplitFrontmatter(content).before;
    var lead, gap, after := AgreedParts(content, false);
    var before := front + (lead + (TIMELINE_HEADING + gap));
    var z, r := ZoneBehind(after);
    var x := AppendedBehind(content, e, before, after);
    AgreedCut(front, lead, TIMELINE_HEADING, gap, x);
    AgreedTimeline(content, lead, gap, after, after);
    AgreedTimeline(content, lead, gap, after, x);
    UnblankedSame(after);
    OpenIs(content, after);
    if SECTION <= after {
      SectionIsSolid(after);
      SectionIsSolid(x);
      EntriesBlank("");
      EntriesTrim("");
      assert [] + Entries(e) == Entries(e);
    } else {
      NoMarkerAppended(z, r, e);
      AppendedEntries(z, r, e);
      AppendedEnds(z, r, e);
      ReadZone(z, r);
      ReadZone(AppendedZone(z, r, e), r);
    }
  }

  lemma OpenIs(content: string, after: string)
    requires AfterHeading(content, false) == Some(after)
    ensures TimelineOpen(content) <==> !(SECTION <= after)
  {
    hide AfterHeading;
  }

  lemma AppendedEnds(z: string, r: string, e: string)
    ensures r != "" ==> EndsWithNewline(AppendedZone(z, r, e))
  {
    hide RStripNewlines;
  }
}
