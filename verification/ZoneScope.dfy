/** When a rewrite by arbitrary text leaves the Timeline where the parser found it. */
module ZoneScope {
  import opened Text
  import opened Patterns
  import opened CompiledTruth
  import opened PageShape
  import opened PageEdits
  import opened PageRecognition
  import opened ZoneLens
  import opened HeadingSearch

  lemma GapAcross(y: string, q: string)
    requires EndsWithNewline(y)
    ensures SkipBlank(y + q).Some? <==> SkipBlank(y).Some?
  {
    hide SkipBlank;
    if Blank(y) {
      LineOfBlanksIsGap(y);
      GapExtends(y, q);
    } else {
      SolidSkip(y, q);
    }
  }

  lemma HeadingHereAcross(x: string, q: string, h: string, bol: bool)
    requires EndsWithNewline(x) && HeadingLike(h)
    ensures HeadingHere(x + q, h, true, bol) <==> HeadingHere(x, h, true, bol)
  {
    hide SkipBlank;
    PrefixOfLine(x, q, h);
    if h <= x {
      var y := x[|h|..];
      assert x[|x| - 1] !in h;
      assert |h| < |x|;
      assert (x + q)[|h|..] == y + q;
      GapAcross(y, q);
    }
  }

  /** Lines without the heading are passed over. */
  lemma {:induction false} LocatePast(p: string, q: string, h: string, bol: bool)
    requires HeadingLike(h) && EndsWithNewline(p) && Locate(p, h, true, bol).None?
    ensures Locate(p + q, h, true, bol).None? <==> Locate(q, h, true, true).None?
    ensures Locate(p + q, h, true, bol).Some? ==>
      Locate(p + q, h, true, bol).value.after == Locate(q, h, true, true).value.after
    decreases |p|
  {
    hide SkipBlank, HeadingLike, HeadingHere;
    HeadingHereAcross(p, q, h, bol);
    ConsAppend(p, q);
    if |p| > 1 {
      LocatePast(p[1..], q, h, p[0] == '\n');
    } else {
      assert p[1..] + q == q;
    }
  }

  /** The page's Timeline comes after its Compiled Truth. */
  predicate TruthFirst(content: string) {
    && AfterHeading(content, true).Some? && AfterHeading(content, false).Some?
    && |AfterHeading(content, true).value| > |AfterHeading(content, false).value|
  }

  lemma TruthFirstShape(p: Shape)
    requires p.Valid()
    ensures TruthFirst(p.Content()) <==> p.truthFirst
  {
    hide Locate, SplitFrontmatter, TakeSection, Shape.Valid, Shape.Content, Shape.Body, Shape.BeforeZone;
    FrontView(p);
    ZoneViewByName(p, true);
    ZoneViewByName(p, false);
    HeadingFacts();
    assert |p.Rest1()| > |p.After2()|;
  }

  /** The rewritten body of a page whose Compiled Truth comes first. */
  lemma TruthFirstBody(p: Shape, t: string)
    requires p.Valid() && p.truthFirst
    ensures StripFrontmatter(RewriteCompiledTruth(p.Content(), t))
      == (p.lead + (p.Heading1() + p.gap1)) + (RewrittenZone(t) + p.Rest1())
  {
    hide Shape.Valid, Shape.Content, RewriteCompiledTruth, RewrittenZone, SplitFrontmatter, Locate, Shape.Rest1,
      BlankStart, Unblanked;
    FirstWrite(p, t);
    var x := RewrittenZone(t) + p.Rest1();
    ContinuedView(p, true, x);
    var b := p.lead + (p.Heading1() + p.gap1);
    Assoc(p.front, b, x);
    SameTail(p.front, StripFrontmatter(p.BeforeZone(true) + x), b + x);
  }

  lemma NoTimelineBeforeTruth(p: Shape)
    requires p.Valid() && p.truthFirst
    ensures var b := p.lead + (p.Heading1() + p.gap1);
      EndsWithNewline(b) && Count(b, TIMELINE_HEADING) == 0
  {
    hide Count, HasMarkerLine, SkipBlank, Settled, HeadingLike;
    HeadingFacts();
    CountHeadingLine(p.Heading1(), p.gap1, TIMELINE_HEADING);
    CountJoinHeading(p.lead, p.Heading1() + p.gap1, TIMELINE_HEADING);
  }

  lemma {:induction false} AbsentIsNotLocated(s: string, h: string, bol: bool)
    requires Count(s, h) == 0
    ensures Locate(s, h, true, bol).None?
  {
    if Locate(s, h, true, bol).Some? {
      LocateContains(s, h, true, bol);
      ContainsIffCount(s, h);
    }
  }

  lemma TimelineBehindTruth(p: Shape)
    requires p.Valid() && p.truthFirst
    ensures Locate(p.Rest1(), TIMELINE_HEADING, true, true).Some?
    ensures Locate(p.Rest1(), TIMELINE_HEADING, true, true).value.after == p.After2()
    ensures SECTION <= p.Rest1()
  {
    hide Count, Locate, Settled, HasMarkerLine, SkipBlank, HeadingLike;
    HeadingFacts();
    OpensSection(p.between, p.Heading2(), p.gap2 + p.After2());
    ZoneView(p.zone2, p.tail);
    SectionView(p.between, p.Heading2(), p.gap2, p.After2(), true);
  }

  lemma RewriteBeforeTimeline(content: string, t: string)
    requires TwoZoned(content) && TruthFirst(content)
    ensures AfterHeading(RewriteCompiledTruth(content, t), false) == AfterHeading(content, false)
      <==> Locate(RStripNewlines(t) + ['\n'] + "\n", TIMELINE_HEADING, true, true).None?
  {
    hide TwoZoned, TimelineOpen, Shape.Valid, Shape.Open, Shape.Content, RewriteCompiledTruth, Locate, SplitFrontmatter,
      RStripNewlines, HeadingLike, Count, Shape.Rest1, Shape.Body, IsSpace, Shape.After2, TruthFirst;
    HeadingFacts();
    var p := Recognize(content);
    TruthFirstShape(p);
    var b, n, r := p.lead + (p.Heading1() + p.gap1), RewrittenZone(t), p.Rest1();
    TruthFirstBody(p, t);
    NoTimelineBeforeTruth(p);
    AbsentIsNotLocated(b, TIMELINE_HEADING, true);
    LocatePast(b, n + r, TIMELINE_HEADING, true);
    TimelineBehindTruth(p);
    TimelineAfter(p);
    EndsZone(t);
    if Locate(n, TIMELINE_HEADING, true, true).None? {
      LocatePast(n, r, TIMELINE_HEADING, true);
    } else {
      LocateSection(n, r, TIMELINE_HEADING, true, true);
      RestIsLonger(p);
    }
  }

  /** A page whose Timeline comes first, rewritten: everything up to the truth's heading stays. */
  lemma RewriteBehindTimeline(content: string, t: string)
    requires TwoZoned(content) && !TruthFirst(content)
    ensures TimelineZone(RewriteCompiledTruth(content, t)) == TimelineZone(content)
    ensures AfterHeading(RewriteCompiledTruth(content, t), false).Some?
  {
    hide TwoZoned, TimelineOpen, Shape.Valid, Shape.Open, Shape.Content, RewriteCompiledTruth, Locate, SplitFrontmatter,
      RStripNewlines, HeadingLike, Count, Shape.Body, IsSpace, TruthFirst, SkipBlank, TakeSection, RewrittenZone;
    var p := Recognize(content);
    TruthFirstShape(p);
    var rest := p.between + (TRUTH_HEADING + (p.gap2 + (RewrittenZone(t) + p.tail)));
    var y := p.zone1 + rest;
    FirstWrite(p, t);
    TimelineFirstText(p, RewrittenZone(t) + p.tail);
    ContinuedView(p, false, y);
    TimelineFirstZone(p, rest) by { BetweenOpens(p, p.gap2 + (RewrittenZone(t) + p.tail)); }
    UnblankedParts(y);
    FrontView(p);
    ZoneViewByName(p, false);
  }

  lemma TimelineFirstText(p: Shape, x: string)
    requires !p.truthFirst
    ensures p.BeforeZone(true) + x
      == p.BeforeZone(false) + (p.zone1 + (p.between + (TRUTH_HEADING + (p.gap2 + x))))
  {
    var h1, h2, zb := p.Heading1() + p.gap1, TRUTH_HEADING + p.gap2, p.zone1 + p.between;
    Assoc(TRUTH_HEADING, p.gap2, x);
    Assoc(p.zone1, p.between, h2 + x);
    Assoc(p.front, p.lead + (h1 + zb) + h2, x);
    Assoc(p.front, p.Lead2() + h2, x);
    Assoc(p.Lead2(), h2, x);
    Assoc(p.lead, h1 + zb, h2 + x);
    Assoc(h1, zb, h2 + x);
    Assoc(p.lead, h1, zb + (h2 + x));
    Assoc(p.front, p.lead + h1, zb + (h2 + x));
  }

  lemma BetweenOpens(p: Shape, x: string)
    requires p.Valid()
    ensures SECTION <= p.between + (TRUTH_HEADING + x)
  {
    hide Count, Settled, HasMarkerLine, SkipBlank, HeadingLike;
    HeadingFacts();
    OpensSection(p.between, TRUTH_HEADING, x);
  }

  lemma TimelineFirstZone(p: Shape, rest: string)
    requires p.Valid() && SECTION <= rest
    ensures SkipBlank(p.zone1 + rest).None? && TakeSection(p.zone1 + rest, SECTION, true).before == p.zone1
  {
    hide Count, Settled, HasMarkerLine, SkipBlank, HeadingLike, TakeSection;
    ZoneView(p.zone1, rest);
  }

  /**
   A rewrite with any text leaves the Timeline as it was where the Timeline comes first.  Where the
   Compiled Truth comes first, it leaves all text after the Timeline heading as it was if and only if the
   new truth does not bring a Timeline heading line of its own.
   */
  lemma RewriteKeepsTimelineText(content: string, t: string)
    requires TwoZoned(content)
    ensures TruthFirst(content) ==>
      (AfterHeading(RewriteCompiledTruth(content, t), false) == AfterHeading(content, false)
       <==> Locate(RStripNewlines(t) + ['\n'] + "\n", TIMELINE_HEADING, true, true).None?)
    ensures !TruthFirst(content) || Locate(RStripNewlines(t) + ['\n'] + "\n", TIMELINE_HEADING, true, true).None? ==>
      && TimelineZone(RewriteCompiledTruth(content, t)) == TimelineZone(content)
      && TimelineOf(RewriteCompiledTruth(content, t)) == TimelineOf(content)
  {
    hide Locate, TruthFirst, RewriteCompiledTruth, TakeSection, RStripNewlines, SplitFrontmatter, Entries, RStrip;
    if TruthFirst(content) {
      RewriteBeforeTimeline(content, t);
    } else {
      RewriteBehindTimeline(content, t);
    }
  }

  lemma EndsZone(t: string)
    ensures EndsWithNewline(RewrittenZone(t))
  {
  }

  lemma RestIsLonger(p: Shape)
    ensures |p.Rest1()| > |p.After2()|
  {
    HeadingFacts();
  }

  lemma TimelineAfter(p: Shape)
    requires p.Valid() && p.truthFirst
    ensures AfterHeading(p.Content(), false) == Some(p.After2())
  {
    hide Shape.Valid, Shape.Content, Locate, SplitFrontmatter, Shape.Body, Shape.BeforeZone, TakeSection;
    FrontView(p);
    ZoneViewByName(p, false);
  }
}
