/**
 The Compiled Truth zone as a lens on the page: what is written is read back, a second write replaces
 the first, and nothing outside the zone moves.
 */
module ZoneLens {
  import opened Text
  import opened Patterns
  import opened CompiledTruth
  import opened PageShape
  import opened PageEdits
  import opened PageRecognition

  // ---- A page continued by any text after a zone heading ----

  lemma HeadingView(lead: string, h: string, gap: string, x: string, anchored: bool)
    requires HeadingLike(h) && Count(lead, h) == 0 && Gap(gap)
    requires Breaks(lead) && (anchored ==> Ended(lead))
    ensures Locate(lead + (h + gap) + x, h, anchored, true)
      == Some(Cut(lead + (h + gap) + BlankStart(x), Unblanked(x)))
  {
    hide HeadingLike, SkipBlank, Locate, Count, BlankStart, Unblanked, Gap;
    UnblankedParts(x);
    var b, u := BlankStart(x), Unblanked(x);
    GapJoin(gap, b);
    SectionView(lead, h, gap + b, u, anchored);
    Assoc(gap, b, u);
    Assoc(h, gap, x);
    Assoc(lead, h + gap, x);
    Assoc(h, gap, b);
    Assoc(lead, h + gap, b);
  }

  /** Whatever follows a zone heading, the two searches find that heading. */
  lemma ContinuedView(p: Shape, truth: bool, x: string)
    requires p.Valid()
    ensures Locate(p.BeforeZone(truth) + x, HeadingOf(truth), false, true)
      == Some(Cut(p.BeforeZone(truth) + BlankStart(x), Unblanked(x)))
    ensures SplitFrontmatter(p.BeforeZone(truth) + x).before == p.front
    ensures Locate(StripFrontmatter(p.BeforeZone(truth) + x), HeadingOf(truth), true, true).Some?
    ensures Locate(StripFrontmatter(p.BeforeZone(truth) + x), HeadingOf(truth), true, true).value.after == Unblanked(x)
  {
    hide HeadingLike, SkipBlank, Locate, Count, BlankStart, Unblanked, Settled, SplitFrontmatter, ZoneText;
    HeadingFacts();
    if truth == p.truthFirst {
      FrontLead(p);
      ContinuedParts(p, p.lead, p.Heading1(), p.gap1, x);
    } else {
      SecondLead(p);
      ContinuedParts(p, p.Lead2(), p.Heading2(), p.gap2, x);
    }
  }

  lemma ContinuedParts(p: Shape, lead: string, h: string, gap: string, x: string)
    requires p.Valid() && HeadingLike(h) && Gap(gap) && Ended(lead) && Breaks(p.front + lead)
    requires Count(lead, h) == 0 && Count(p.front + lead, h) == 0
    requires (lead == p.lead && h == p.Heading1()) || lead == p.Lead2()
    ensures var c := p.front + (lead + (h + gap)) + x;
      && Locate(c, h, false, true) == Some(Cut(p.front + (lead + (h + gap)) + BlankStart(x), Unblanked(x)))
      && SplitFrontmatter(c) == Cut(p.front, lead + (h + gap) + x)
      && Locate(lead + (h + gap) + x, h, true, true)
        == Some(Cut(lead + (h + gap) + BlankStart(x), Unblanked(x)))
  {
    hide HeadingLike, SkipBlank, Locate, Count, BlankStart, Unblanked, Settled, SplitFrontmatter, ZoneText, Lacks, Gap;
    HeadingView(lead, h, gap, x, true);
    HeadingView(p.front + lead, h, gap, x, false);
    Assoc(p.front, lead, h + gap);
    Assoc(p.front, lead + (h + gap), x);
    var start := p.lead + p.Heading1();
    HeadingFacts();
    var rest := if lead == p.lead && h == p.Heading1() then gap + x
      else p.gap1 + (p.zone1 + p.between) + ((h + gap) + x);
    StartOfLead(p, lead, h, gap, x);
    SplitSettled(p.front, start, rest);
  }

  lemma StartOfLead(p: Shape, lead: string, h: string, gap: string, x: string)
    ensures lead == p.lead && h == p.Heading1() ==>
      lead + (h + gap) + x == p.lead + p.Heading1() + (gap + x)
    ensures lead == p.Lead2() ==>
      lead + (h + gap) + x == p.lead + p.Heading1() + (p.gap1 + (p.zone1 + p.between) + ((h + gap) + x))
  {
    var zb := p.zone1 + p.between;
    Assoc(h, gap, x);
    Assoc(p.lead, h, gap);
    Assoc(p.lead + h, gap, x);
    Assoc(p.Heading1(), p.gap1, zb);
    Assoc(p.lead, p.Heading1(), p.gap1 + zb);
    Assoc(p.lead + p.Heading1(), p.gap1 + zb, h + gap + x);
    Assoc(p.lead + p.Heading1() + (p.gap1 + zb), h + gap, x);
  }

  // ---- Reading back what was written ----

  /** Text that neither starts with a blank line nor starts a section of its own. */
  predicate Faithful(t: string) {
    SkipBlank(t).None? && !HasMarkerLine(t, SECTION, true)
  }

  predicate SectionOrEnd(after: string) {
    after == "" || SECTION <= after
  }

  lemma {:induction false} SolidSkip(r: string, w: string)
    requires !Blank(r)
    ensures Unblanked(r + w) == Unblanked(r) + w
    ensures SkipBlank(r + w).None? <==> SkipBlank(r).None?
  {
    hide LStrip, RStrip;
    var s := r + w;
    ConsAppend(r, w);
    assert s != "" && s[0] == r[0];
    if IsSpace(r[0]) {
      SolidSkip(r[1..], w);
    } else {
      assert SkipBlank(s).None? && SkipBlank(r).None?;
    }
  }

  lemma {:induction false} BlankSkip(n: string, after: string)
    requires Gap(n) && (after == "" || !IsSpace(after[0]))
    ensures Unblanked(n + after) == after
    ensures SkipBlank(n + after) == Some(after)
  {
    SkipGap(n, after);
  }

  lemma RStripPrepend(b: string, u: string)
    requires !Blank(u)
    ensures RStrip(b + u) == b + RStrip(u)
  {
    hide RStrip;
    var r := RStrip(u);
    assert r != "" by { BlankStrip(u); }
    assert (b + r)[|b + r| - 1] == r[|r| - 1];
    forall i | |b + r| <= i < |b + u| ensures IsSpace((b + u)[i]) {
      assert (b + u)[i] == u[i - |b|];
    }
    assert b + u == (b + r) + u[|r|..];
    RStripUnique(b + u, b + r);
  }

  lemma {:induction false} TrimmedNewlines(t: string)
    ensures Blank(t) <==> Blank(RStripNewlines(t))
    ensures RStrip(t) == RStrip(RStripNewlines(t))
    ensures HasMarkerLine(t, SECTION, true) <==> HasMarkerLine(RStripNewlines(t), SECTION, true)
  {
    hide HasMarkerLine, RStrip;
    if EndsWithNewline(t) {
      var i := t[..|t| - 1];
      TrimmedNewlines(i);
      assert t == i + ['\n'] + "";
      assert t == i + "\n";
      RStripAppendBlank(i, "\n");
      MarkerAcross(i, "", SECTION, true);
      NoMarkerInNothing();
    }
  }

  lemma NoMarkerInNothing()
    ensures !HasMarkerLine("", SECTION, true)
  {
  }

  /** The zone that is read after `t` was written before `after`. */
  function ReadBack(t: string, after: string): string {
    TakeSection(Unblanked(RewrittenZone(t) + after), SECTION, true).before
  }

  lemma ReadBlank(t: string, after: string)
    requires Blank(t) && SectionOrEnd(after)
    ensures ReadBack(t, after) == ""
  {
    var n := RewrittenZone(t);
    assert after != "" ==> after[0] == SECTION[0];
    BlankSkip(n, after);
  }

  lemma WrittenSolid(t: string, after: string)
    requires !Blank(t)
    ensures Unblanked(RewrittenZone(t) + after) == Unblanked(RStripNewlines(t)) + ("\n\n" + after)
    ensures SkipBlank(t).None? <==> Unblanked(RStripNewlines(t)) == RStripNewlines(t)
  {
    hide SkipBlank, HasMarkerLine, Unblanked, RStrip, RStripNewlines, Blank;
    var r := RStripNewlines(t);
    TrimmedNewlines(t);
    assert ['\n'] + "\n" == "\n\n";
    Assoc(r, ['\n'], "\n");
    Assoc(r, "\n\n", after);
    SolidSkip(r, "\n\n" + after);
    SolidPrefix(r, t);
    UnblankedSame(r);
  }

  /** Solid text starts blank or not together with any text that it starts. */
  lemma SolidPrefix(r: string, t: string)
    requires !Blank(r) && r <= t
    ensures SkipBlank(t).None? <==> SkipBlank(r).None?
  {
    SolidSkip(r, t[|r|..]);
    assert r + t[|r|..] == t;
  }

  lemma UnblankedLength(r: string)
    ensures |Unblanked(r)| == |r| <==> Unblanked(r) == r
  {
  }

  lemma UnblankedSame(r: string)
    ensures SkipBlank(r).None? <==> Unblanked(r) == r
  {
  }

  /** Solid text without a section line is read back up to its blank start. */
  lemma ReadPlain(t: string, after: string)
    requires !Blank(t) && SectionOrEnd(after)
    requires !HasMarkerLine(Unblanked(RStripNewlines(t)), SECTION, true)
    ensures ReadBack(t, after) == Unblanked(RStripNewlines(t)) + "\n\n"
  {
    hide SkipBlank, HasMarkerLine, Unblanked, TakeSection;
    var u := Unblanked(RStripNewlines(t));
    WrittenSolid(t, after);
    NoMarkerInNothing();
    MarkerAcross("", "", SECTION, true);
    MarkerAcross(u, "\n", SECTION, true);
    assert "" + ['\n'] + "" == "\n" && u + ['\n'] + "\n" == u + "\n\n";
    Assoc(u, "\n\n", after);
    TakeSectionConcat(u + "\n\n", after, SECTION, true);
  }

  /** A section line in the text ends the zone before that line. */
  lemma ReadCut(u: string, w: string)
    requires HasMarkerLine(u, SECTION, true)
    ensures var k := |TakeSection(u + w, SECTION, true).before|; k < |u| && u[k] == '#'
  {
    hide HasMarkerLine, TakeSection;
    TakeSectionIsShortest(u, SECTION, true);
    TakeSectionIsShortest(u + w, SECTION, true);
    var n := |TakeSection(u, SECTION, true).before|;
    assert TakeSection(u, SECTION, true).before + TakeSection(u, SECTION, true).after == u;
    assert (u + w)[n..] == u[n..] + w;
    assert MarkerAt(u + w, n, SECTION, true);
    var k := |TakeSection(u + w, SECTION, true).before|;
    assert (u + w)[k..][0] == SECTION[0];
  }

  lemma SolidRest(r: string)
    requires !Blank(r)
    ensures !Blank(Unblanked(r))
  {
    hide SkipBlank;
    UnblankedParts(r);
  }

  lemma SolidCharacter(t: string, b: string, u: string, k: nat)
    requires b + u <= t && k < |u| && !IsSpace(u[k])
    ensures |RStrip(t)| > |b| + k
  {
    hide RStrip;
    assert t[|b| + k] == (b + u)[|b| + k] == u[k];
  }

  /** A section line in the text is never read back. */
  lemma CutIsShorter(t: string, after: string)
    requires !Blank(t) && HasMarkerLine(Unblanked(RStripNewlines(t)), SECTION, true)
    ensures RStrip(ReadBack(t, after)) != RStrip(t)
  {
    hide SkipBlank, HasMarkerLine, TakeSection, RStrip, BlankStart, Unblanked, RStripNewlines;
    var r, k := RStripNewlines(t), |ReadBack(t, after)|;
    assert k < |Unblanked(r)| && Unblanked(r)[k] == '#' by {
      WrittenSolid(t, after);
      ReadCut(Unblanked(r), "\n\n" + after);
    }
    UnblankedParts(r);
    SolidCharacter(t, BlankStart(r), Unblanked(r), k);
  }

  lemma RStripTwoNewlines(u: string)
    ensures RStrip(u + "\n\n") == RStrip(u)
  {
    hide RStrip;
    RStripAppendBlank(u, "\n\n");
  }

  /** A blank start is lost. */
  lemma PlainReadBack(t: string, after: string)
    requires !Blank(t) && SectionOrEnd(after)
    requires !HasMarkerLine(Unblanked(RStripNewlines(t)), SECTION, true)
    ensures RStrip(ReadBack(t, after)) == RStrip(t) <==> SkipBlank(t).None?
  {
    hide SkipBlank, HasMarkerLine, TakeSection, RStrip, BlankStart, Unblanked, RStripNewlines, ReadBack;
    var r := RStripNewlines(t);
    var b, u := BlankStart(r), Unblanked(r);
    TrimmedNewlines(t);
    WrittenSolid(t, after);
    UnblankedParts(r);
    SolidRest(r);
    RStripPrepend(b, u);
    ReadPlain(t, after);
    RStripTwoNewlines(u);
  }

  /** Exactly blank and faithful texts are read back, right-trimmed. */
  lemma ReadBackExact(t: string, after: string)
    requires SectionOrEnd(after)
    ensures RStrip(ReadBack(t, after)) == RStrip(t) <==> Blank(t) || Faithful(t)
  {
    hide SkipBlank, HasMarkerLine, TakeSection, RStrip, BlankStart, Unblanked, ReadBack, RStripNewlines;
    BlankStrip(t);
    if Blank(t) {
      ReadBlank(t, after);
      BlankStrip("");
    } else {
      TrimmedNewlines(t);
      WrittenSolid(t, after);
      if HasMarkerLine(Unblanked(RStripNewlines(t)), SECTION, true) {
        CutIsShorter(t, after);
      } else {
        PlainReadBack(t, after);
      }
    }
  }

  lemma TruthAfterRewrite(p: Shape, t: string)
    requires p.Valid()
    ensures CompiledTruthOf(RewriteCompiledTruth(p.Content(), t)) == RStrip(ReadBack(t, p.AfterZone(true)))
  {
    hide Locate, TakeSection, Shape.Valid, Shape.Content, Shape.BeforeZone, Shape.AfterZone, Shape.WithZone,
      RStrip, BlankStart, Unblanked, SplitFrontmatter, RewriteCompiledTruth, RewrittenZone;
    RewriteText(p, t);
    WithZoneContent(p, true, RewrittenZone(t));
    ContinuedView(p, true, RewrittenZone(t) + p.AfterZone(true));
  }

  /**
   Parsing after a rewrite gives back the new truth, right-trimmed, exactly when that truth is blank or
   has neither a blank first line nor a line that starts a section.
   */
  lemma PutGet(content: string, t: string)
    requires TwoZoned(content)
    ensures CompiledTruthOf(RewriteCompiledTruth(content, t)) == RStrip(t) <==> Blank(t) || Faithful(t)
  {
    hide TwoZoned, Shape.Valid, Shape.Content, Shape.AfterZone, CompiledTruthOf, RewriteCompiledTruth,
      Faithful, RStrip, ReadBack, TimelineOpen, Shape.Open;
    var p := Recognize(content);
    TruthAfterRewrite(p, t);
    AfterZoneIsSection(p, true);
    ReadBackExact(t, p.AfterZone(true));
  }

  // ---- Writing twice ----

  /** What a later rewrite keeps of the text that a first one wrote: blank lines before, a rest after. */
  function KeptBefore(t: string, after: string): string {
    BlankStart(RewrittenZone(t) + after)
  }

  function KeptAfter(t: string, after: string): string {
    TakeSection(Unblanked(RewrittenZone(t) + after), SECTION, true).after
  }

  lemma KeptOfBlank(t: string, after: string)
    requires Blank(t) && SectionOrEnd(after)
    ensures KeptBefore(t, after) != ""
  {
    var n := RewrittenZone(t);
    assert after != "" ==> after[0] == SECTION[0];
    BlankSkip(n, after);
  }

  lemma KeptBeforeOfSolid(t: string, after: string)
    requires !Blank(t)
    ensures |KeptBefore(t, after)| == |RStripNewlines(t)| - |Unblanked(RStripNewlines(t))|
  {
    hide SkipBlank, HasMarkerLine, TakeSection, BlankStart, Unblanked, RStripNewlines;
    WrittenSolid(t, after);
    UnblankedParts(RewrittenZone(t) + after);
  }

  lemma KeptAfterOfPlain(t: string, after: string)
    requires !Blank(t) && SectionOrEnd(after)
    requires !HasMarkerLine(Unblanked(RStripNewlines(t)), SECTION, true)
    ensures KeptAfter(t, after) == after
  {
    hide SkipBlank, HasMarkerLine, TakeSection, Unblanked, RStripNewlines, RewrittenZone;
    ReadPlain(t, after);
    WrittenSolid(t, after);
    var b := Unblanked(RStripNewlines(t)) + "\n\n";
    Assoc(Unblanked(RStripNewlines(t)), "\n\n", after);
    SameTail(b, KeptAfter(t, after), after);
  }

  lemma SameTail(b: string, x: string, y: string)
    requires b + x == b + y
    ensures x == y
  {
    assert x == (b + x)[|b|..] && y == (b + y)[|b|..];
  }

  lemma KeptAfterOfCut(t: string, after: string)
    requires !Blank(t) && HasMarkerLine(Unblanked(RStripNewlines(t)), SECTION, true)
    ensures |KeptAfter(t, after)| > |after|
  {
    hide SkipBlank, HasMarkerLine, TakeSection, Unblanked, RStripNewlines, RewrittenZone;
    WrittenSolid(t, after);
    ReadCut(Unblanked(RStripNewlines(t)), "\n\n" + after);
  }

  lemma KeptOfSolid(t: string, after: string)
    requires !Blank(t) && SectionOrEnd(after)
    ensures |KeptBefore(t, after)| + |KeptAfter(t, after)| >= |after|
    ensures KeptBefore(t, after) == "" && KeptAfter(t, after) == after <==> Faithful(t)
    ensures |KeptBefore(t, after)| + |KeptAfter(t, after)| == |after| ==> Faithful(t)
  {
    hide SkipBlank, HasMarkerLine, KeptBefore, KeptAfter, Unblanked, RStripNewlines;
    TrimmedNewlines(t);
    WrittenSolid(t, after);
    KeptBeforeOfSolid(t, after);
    UnblankedLength(RStripNewlines(t));
    if HasMarkerLine(Unblanked(RStripNewlines(t)), SECTION, true) {
      KeptAfterOfCut(t, after);
    } else {
      KeptAfterOfPlain(t, after);
    }
  }

  lemma SecondWrite(p: Shape, a: string, b: string)
    requires p.Valid()
    ensures var after := p.AfterZone(true);
      RewriteCompiledTruth(RewriteCompiledTruth(p.Content(), a), b)
        == p.BeforeZone(true) + KeptBefore(a, after) + (RewrittenZone(b) + KeptAfter(a, after))
  {
    hide Locate, TakeSection, Shape.Valid, Shape.Content, Shape.BeforeZone, Shape.AfterZone, Shape.WithZone,
      BlankStart, Unblanked, SplitFrontmatter, Contains, RStripNewlines, Before;
    var x := RewrittenZone(a) + p.AfterZone(true);
    RewriteText(p, a);
    WithZoneContent(p, true, RewrittenZone(a));
    ContinuedView(p, true, x);
    var c := p.BeforeZone(true) + x;
    LocateContains(c, TRUTH_HEADING, false, true);
    var start := p.BeforeZone(true) + BlankStart(x);
    assert RewriteCompiledTruth(c, b) == start + (RStripNewlines(b) + "\n") + "\n" + KeptAfter(a, p.AfterZone(true));
    Assoc(start, RStripNewlines(b) + "\n", "\n");
    Assoc(start, RewrittenZone(b), KeptAfter(a, p.AfterZone(true)));
  }

  lemma FirstWrite(p: Shape, b: string)
    requires p.Valid()
    ensures RewriteCompiledTruth(p.Content(), b) == p.BeforeZone(true) + (RewrittenZone(b) + p.AfterZone(true))
  {
    hide RewriteCompiledTruth, Shape.Valid, Shape.Content, Shape.BeforeZone, Shape.AfterZone, Shape.WithZone,
      RewrittenZone;
    RewriteText(p, b);
    WithZoneContent(p, true, RewrittenZone(b));
  }

  lemma SameWrite(s: string, k: string, n: string, r: string, after: string)
    requires |k| + |r| >= |after| || k != ""
    ensures s + k + (n + r) == s + (n + after) ==> |k| + |r| == |after|
    ensures k == "" && r == after ==> s + k + (n + r) == s + (n + after)
  {
    assert |s + k + (n + r)| == |s| + |k| + |n| + |r|;
    assert |s + (n + after)| == |s| + |n| + |after|;
    if k == "" { assert s + k == s; }
  }

  /** A second rewrite fully replaces the first exactly when the first truth was solid and faithful. */
  lemma PutPut(content: string, a: string, b: string)
    requires TwoZoned(content)
    ensures RewriteCompiledTruth(RewriteCompiledTruth(content, a), b) == RewriteCompiledTruth(content, b)
      <==> !Blank(a) && Faithful(a)
  {
    hide TwoZoned, Shape.Valid, Shape.Content, Shape.AfterZone, Shape.BeforeZone, RewriteCompiledTruth,
      Faithful, KeptBefore, KeptAfter, TimelineOpen, Shape.Open, RewrittenZone;
    var p := Recognize(content);
    var after := p.AfterZone(true);
    AfterZoneIsSection(p, true);
    SecondWrite(p, a, b);
    FirstWrite(p, b);
    if Blank(a) {
      KeptOfBlank(a, after);
      KeptRest(a, after);
    } else {
      KeptOfSolid(a, after);
    }
    SameWrite(p.BeforeZone(true), KeptBefore(a, after), RewrittenZone(b), KeptAfter(a, after), after);
  }

  lemma KeptRest(t: string, after: string)
    requires Blank(t) && SectionOrEnd(after)
    ensures KeptAfter(t, after) == after
  {
    var n := RewrittenZone(t);
    assert after != "" ==> after[0] == SECTION[0];
    BlankSkip(n, after);
  }

  // ---- Locality ----

  /** A rewrite replaces the zone's text and keeps every character before and after it. */
  lemma RewriteIsLocal(content: string, t: string) returns (before: string, zone: string, after: string)
    requires TwoZoned(content)
    ensures content == before + (zone + after)
    ensures RewriteCompiledTruth(content, t) == before + ((RStripNewlines(t) + ['\n'] + "\n") + after)
    ensures AfterHeading(content, true) == Some(zone + after)
    ensures RStrip(zone) == CompiledTruthOf(content) && !HasMarkerLine(zone, SECTION, true)
    ensures SectionOrEnd(after)
  {
    hide TwoZoned, Shape.Valid, Shape.Content, Shape.AfterZone, Shape.Zone, Shape.BeforeZone, RewriteCompiledTruth,
      TimelineOpen, Shape.Open, Locate, RStripNewlines, RStrip, HasMarkerLine, SplitFrontmatter, Shape.Body;
    var p := Recognize(content);
    before, zone, after := p.BeforeZone(true), p.Zone(true), p.AfterZone(true);
    ZoneSplit(p, true);
    FirstWrite(p, t);
    FrontView(p);
    ZoneViewByName(p, true);
    ParsedZone(p, true);
    ZoneIsText(p, true);
    AfterZoneIsSection(p, true);
  }
}
