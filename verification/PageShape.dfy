/**
 Pages that keep both zones apart, seen as their pieces.  A page text is the concatenation of the
 frontmatter, the text before the first zone, the two zones with their headings in either order,
 and whatever surrounds them.
 */
module PageShape {
  import opened Text
  import opened Patterns
  import opened CompiledTruth

  datatype Shape = Shape(
    front: string, lead: string, truthFirst: bool,
    gap1: string, zone1: string, between: string,
    gap2: string, zone2: string, tail: string)
  {
    function Heading1(): string { if truthFirst then TRUTH_HEADING else TIMELINE_HEADING }
    function Heading2(): string { if truthFirst then TIMELINE_HEADING else TRUTH_HEADING }

    function After2(): string { zone2 + tail }
    function Section2(): string { Heading2() + (gap2 + After2()) }
    function Rest1(): string { between + Section2() }
    function After1(): string { zone1 + Rest1() }
    function Section1(): string { Heading1() + (gap1 + After1()) }
    function Body(): string { lead + Section1() }
    function Content(): string { front + Body() }

    /** The body up to the zone of the second heading, without that heading. */
    function Lead2(): string { lead + ((Heading1() + gap1) + (zone1 + between)) }

    function BeforeZone1(): string { front + (lead + (Heading1() + gap1)) }
    function BeforeZone2(): string { front + (Lead2() + (Heading2() + gap2)) }

    /** The text before and after the zone of the Compiled Truth, or of the Timeline. */
    function BeforeZone(truth: bool): string { if truth == truthFirst then BeforeZone1() else BeforeZone2() }
    function AfterZone(truth: bool): string { if truth == truthFirst then Rest1() else tail }
    function Zone(truth: bool): string { if truth == truthFirst then zone1 else zone2 }

    /** The page with `n` written after a zone's heading; blank lines in front of `n` join the heading's. */
    function WithZone(truth: bool, n: string): Shape {
      if truth == truthFirst then this.(gap1 := gap1 + BlankStart(n), zone1 := Unblanked(n))
      else this.(gap2 := gap2 + BlankStart(n), zone2 := Unblanked(n))
    }

    predicate Valid() {
      && Settled(front, lead + Heading1())
      && Ended(lead) && Ended(between)
      && Gap(gap1) && Gap(gap2)
      && ZoneText(zone1) && Ended(zone1) && (between == "" || SECTION <= between)
      && ZoneText(zone2) && (tail == "" || (SECTION <= tail && Ended(zone2)))
      && Lacks(front) && Lacks(lead) && Lacks(between) && Lacks(tail)
    }

    /** The Timeline has text, or nothing follows it. */
    predicate Open() {
      if truthFirst then zone2 != "" || tail == "" else zone1 != ""
    }
  }

  /** The heading of a zone. */
  function HeadingOf(truth: bool): string {
    if truth then TRUTH_HEADING else TIMELINE_HEADING
  }

  /** The blank lines at the start of a text, and the text without them. */
  function BlankStart(n: string): string {
    n[..|n| - |Unblanked(n)|]
  }

  function Unblanked(n: string): (r: string)
    ensures |r| <= |n|
  {
    match SkipBlank(n) case Some(rest) => rest case None => n
  }

  predicate Ended(s: string) {
    s == "" || EndsWithNewline(s)
  }

  predicate Lacks(s: string) {
    Count(s, TRUTH_HEADING) == 0 && Count(s, TIMELINE_HEADING) == 0
  }

  /** Text that can stand in a zone: no section starts in it, and it mentions no zone heading. */
  predicate Clean(s: string) {
    !HasMarkerLine(s, SECTION, true) && Lacks(s)
  }

  /** A zone's text: clean, and without a blank line in front. */
  predicate ZoneText(z: string) {
    Clean(z) && SkipBlank(z).None?
  }

  /** `front` is the closed frontmatter of every text that continues `front + rest`, or there is none. */
  predicate Settled(front: string, rest: string) {
    if front == "" then !("---\n" <= rest)
    else "---\n" <= front && AfterClosing((front + rest)[4..]) == Some(rest)
  }

  // ---- Headings ----

  /** What the two headings have in common, and how they differ. */
  predicate HeadingLike(h: string) {
    && |h| > 3 && SECTION <= h
    && '\n' !in h && '-' !in h
    && forall i | 2 <= i < |h| :: h[i] != '#'
  }

  lemma HeadingIsHeadingLike(h: string)
    requires h in {TRUTH_HEADING, TIMELINE_HEADING}
    ensures HeadingLike(h)
  {
    assert '\n' !in h && '-' !in h;
    assert forall i | 2 <= i < |h| :: h[i] != '#';
  }

  lemma HeadingFacts()
    ensures HeadingLike(TRUTH_HEADING) && HeadingLike(TIMELINE_HEADING)
    ensures TRUTH_HEADING[3] != TIMELINE_HEADING[3]
  {
    HeadingIsHeadingLike(TRUTH_HEADING);
    HeadingIsHeadingLike(TIMELINE_HEADING);
  }

  lemma {:induction false} CountNoHash(s: string, h: string)
    requires HeadingLike(h) && forall i | 0 <= i < |s| :: s[i] != '#'
    ensures Count(s, h) == 0
  {
    assert h[0] == SECTION[0] == '#';
    if s != "" { CountNoHash(s[1..], h); }
  }

  lemma CountHeadingLine(head: string, g: string, h: string)
    requires HeadingLike(head) && HeadingLike(h) && Blank(g)
    requires h == head || h[3] != head[3]
    ensures Count(head + g, h) == if h == head then 1 else 0
  {
    var s := head + g;
    assert s[1..][1..] == s[2..];
    assert s[1..][1] == head[2];
    CountNoHash(s[2..], h);
    assert h <= s ==> s[3] == h[3];
  }

  lemma CountJoin(a: string, b: string, h: string)
    requires h != "" && (a == "" || a[|a| - 1] !in h)
    ensures Count(a + b, h) == Count(a, h) + Count(b, h)
  {
    if a == "" {
      assert a + b == b;
    } else {
      var i, c := a[..|a| - 1], a[|a| - 1];
      CountAcross(i, c, b, h);
      CountAcross(i, c, "", h);
      assert i + [c] + b == a + b;
      assert i + [c] + "" == a;
    }
  }

  /** No heading can begin before the end of `a` and run past it. */
  predicate Breaks(a: string) {
    a == "" || EndsWithNewline(a) || a[|a| - 1] == '-'
  }

  lemma CountJoinHeading(a: string, b: string, h: string)
    requires HeadingLike(h) && Breaks(a)
    ensures Count(a + b, h) == Count(a, h) + Count(b, h)
  {
    CountJoin(a, b, h);
  }

  // ---- Frontmatter ----

  lemma {:induction false} AfterClosingExtend(t: string, r: string, x: string)
    requires AfterClosing(t) == Some(r) && r != ""
    ensures AfterClosing(t + x) == Some(r + x)
  {
    if "\n---" <= t {
      assert |t| > 4;
      var k := if "\n---\n" <= t then 5 else 4;
      assert "\n---\n" <= t + x <==> "\n---\n" <= t;
      assert (t + x)[k..] == t[k..] + x;
    } else {
      assert (t + x)[1..] == t[1..] + x;
      assert "\n---" <= t + x ==> "\n---" <= t;
      AfterClosingExtend(t[1..], r, x);
    }
  }

  lemma SplitSettled(front: string, rest: string, x: string)
    requires Settled(front, rest) && (|rest| > 3 || (front != "" && rest != ""))
    ensures SplitFrontmatter(front + (rest + x)) == Cut(front, rest + x)
    ensures Settled(front, rest + x)
  {
    var s := front + (rest + x);
    if front == "" {
      assert s == rest + x;
      assert "---\n" <= rest + x ==> "---\n" <= rest;
    } else {
      assert s[4..] == (front + rest)[4..] + x;
      AfterClosingExtend((front + rest)[4..], rest, x);
      assert s[..|s| - |rest + x|] == front;
    }
  }

  // ---- The pieces are what the patterns find ----

  lemma FrontView(p: Shape)
    requires p.Valid()
    ensures SplitFrontmatter(p.Content()) == Cut(p.front, p.Body())
  {
    hide HeadingLike, Settled, SplitFrontmatter, Lacks, ZoneText, Gap, Shape.After1;
    HeadingFacts();
    BodyStart(p);
    SplitSettled(p.front, p.lead + p.Heading1(), p.gap1 + p.After1());
  }

  lemma BodyStart(p: Shape)
    ensures p.Body() == p.lead + p.Heading1() + (p.gap1 + p.After1())
    ensures |p.lead + p.Heading1()| > 3
  {
    hide Shape.After1;
  }

  /** Text in which a heading's section follows `lead`: the pattern finds the section's start. */
  lemma SectionView(lead: string, h: string, gap: string, after: string, anchored: bool)
    requires HeadingLike(h) && Count(lead, h) == 0 && Gap(gap) && SkipBlank(after).None?
    requires Breaks(lead) && (anchored ==> Ended(lead))
    ensures Locate(lead + (h + (gap + after)), h, anchored, true) == Some(Cut(lead + (h + gap), after))
  {
    hide SkipBlank, Locate, Count, HasMarkerLine;
    var head := h + gap;
    assert h + (gap + after) == head + after;
    assert (head + after)[|h|..] == gap + after;
    SkipGap(gap, after);
    LocateAfter(lead, head, after, h, anchored, true);
  }

  lemma ZoneView(z: string, rest: string)
    requires ZoneText(z) && (rest == "" || (SECTION <= rest && Ended(z)))
    ensures SkipBlank(z + rest).None?
    ensures TakeSection(z + rest, SECTION, true) == Cut(z, rest)
  {
    hide SkipBlank, HasMarkerLine, TakeSection;
    assert rest != "" ==> rest[0] == SECTION[0] == '#';
    SkipBlankExtend(z, rest);
    TakeSectionConcat(z, rest, SECTION, true);
  }

  lemma SettledFrontEnds(front: string, rest: string)
    requires Settled(front, rest) && front != ""
    ensures Breaks(front)
  {
    AfterClosingEnds((front + rest)[4..]);
    var t := (front + rest)[4..];
    assert t[..|t| - |rest|] == front[4..];
  }

  lemma {:induction false} AfterClosingEnds(t: string)
    requires AfterClosing(t).Some?
    ensures var k := |t| - |AfterClosing(t).value|;
      k > 0 && t[k - 1] in "\n-"
  {
    if !("\n---" <= t) { AfterClosingEnds(t[1..]); }
  }

  lemma OpensSection(a: string, h: string, b: string)
    requires HeadingLike(h) && (a == "" || SECTION <= a)
    ensures SECTION <= a + (h + b)
  {
    hide HeadingLike;
    if a == "" {
      HeadingPrefix(h, b);
      assert a + (h + b) == h + b;
    }
  }

  lemma HeadingPrefix(h: string, b: string)
    requires HeadingLike(h)
    ensures SECTION <= h + b
  {
  }

  lemma FirstZone(p: Shape)
    requires p.Valid()
    ensures SkipBlank(p.After1()).None?
    ensures TakeSection(p.After1(), SECTION, true) == Cut(p.zone1, p.Rest1())
  {
    hide HeadingLike, Settled, TakeSection, Count, ZoneText, SkipBlank, Gap, Lacks;
    HeadingFacts();
    OpensSection(p.between, p.Heading2(), p.gap2 + p.After2());
    ZoneView(p.zone1, p.Rest1());
  }

  lemma FirstView(p: Shape)
    requires p.Valid()
    ensures Locate(p.Body(), p.Heading1(), true, true) == Some(Cut(p.lead + (p.Heading1() + p.gap1), p.After1()))
    ensures Locate(p.Content(), p.Heading1(), false, true)
      == Some(Cut(p.BeforeZone1(), p.After1()))
  {
    hide HeadingLike, Settled, Locate, Count, ZoneText, SkipBlank, Gap, Shape.After1;
    HeadingFacts();
    FirstZone(p);
    SectionView(p.lead, p.Heading1(), p.gap1, p.After1(), true);
    FrontLead(p);
    SectionView(p.front + p.lead, p.Heading1(), p.gap1, p.After1(), false);
    Assoc(p.front, p.lead, p.Section1());
    Assoc(p.front, p.lead, p.Heading1() + p.gap1);
  }

  /** Neither heading occurs before the first section, and none can begin there. */
  lemma FrontLead(p: Shape)
    requires p.Valid()
    ensures Lacks(p.front + p.lead)
    ensures Breaks(p.front + p.lead)
  {
    hide Count, ZoneText, SkipBlank, Gap;
    HeadingFacts();
    if p.front != "" {
      SettledFrontEnds(p.front, p.lead + p.Heading1());
    }
    CountJoinHeading(p.front, p.lead, TRUTH_HEADING);
    CountJoinHeading(p.front, p.lead, TIMELINE_HEADING);
  }

  lemma SecondLead(p: Shape)
    requires p.Valid()
    ensures Count(p.Lead2(), p.Heading2()) == 0
    ensures Count(p.front + p.Lead2(), p.Heading2()) == 0
    ensures EndsWithNewline(p.Lead2())
  {
    hide Count, HasMarkerLine, SkipBlank, Settled, HeadingLike;
    HeadingFacts();
    var h, line := p.Heading2(), p.Heading1() + p.gap1;
    CountHeadingLine(p.Heading1(), p.gap1, h);
    CountJoinHeading(p.zone1, p.between, h);
    CountJoinHeading(line, p.zone1 + p.between, h);
    CountJoinHeading(p.lead, line + (p.zone1 + p.between), h);
    if p.front != "" {
      SettledFrontEnds(p.front, p.lead + p.Heading1());
    }
    CountJoinHeading(p.front, p.Lead2(), h);
  }

  lemma SecondView(p: Shape)
    requires p.Valid()
    ensures Locate(p.Body(), p.Heading2(), true, true)
      == Some(Cut(p.Lead2() + (p.Heading2() + p.gap2), p.After2()))
    ensures Locate(p.Content(), p.Heading2(), false, true)
      == Some(Cut(p.BeforeZone2(), p.After2()))
    ensures TakeSection(p.After2(), SECTION, true) == Cut(p.zone2, p.tail)
  {
    hide HeadingLike, Settled, Locate, TakeSection, Count, ZoneText, SkipBlank, Gap;
    hide Shape.Lead2, Shape.Body, Shape.Content;
    HeadingFacts();
    SecondLead(p);
    ZoneView(p.zone2, p.tail);
    SecondPosition(p);
    SectionView(p.Lead2(), p.Heading2(), p.gap2, p.After2(), true);
    SectionView(p.front + p.Lead2(), p.Heading2(), p.gap2, p.After2(), false);
    Assoc(p.front, p.Lead2(), p.Heading2() + p.gap2);
  }

  lemma SecondPosition(p: Shape)
    ensures p.Body() == p.Lead2() + p.Section2()
    ensures p.Content() == p.front + p.Lead2() + p.Section2()
  {
    hide Shape.Section2;
    var zb, line, s2 := p.zone1 + p.between, p.Heading1() + p.gap1, p.Section2();
    Assoc(p.zone1, p.between, s2);
    Assoc(p.Heading1(), p.gap1, zb + s2);
    Assoc(line, zb, s2);
    Assoc(p.lead, line + zb, s2);
    Assoc(p.front, p.Lead2(), s2);
  }

  // ---- Clean text ----

  lemma CleanJoin(a: string, b: string)
    ensures Clean(a + ['\n'] + b) <==> Clean(a) && Clean(b)
  {
    hide HasMarkerLine, Count;
    HeadingFacts();
    MarkerAcross(a, b, SECTION, true);
    CountAcross(a, '\n', b, TRUTH_HEADING);
    CountAcross(a, '\n', b, TIMELINE_HEADING);
  }

  lemma CleanEmpty()
    ensures Clean("")
  {
    HeadingFacts();
  }

  lemma {:induction false} CleanTrim(s: string)
    ensures Clean(RStripNewlines(s)) <==> Clean(s)
  {
    hide Clean;
    if EndsWithNewline(s) {
      CleanEmpty();
      CleanJoin(s[..|s| - 1], "");
      assert s[..|s| - 1] + ['\n'] + "" == s;
      CleanTrim(s[..|s| - 1]);
    }
  }

  lemma UnblankedParts(n: string)
    ensures n == BlankStart(n) + Unblanked(n)
    ensures SkipBlank(Unblanked(n)).None?
    ensures BlankStart(n) == "" || Gap(BlankStart(n))
    ensures SkipBlank(n).None? ==> Unblanked(n) == n
  {
    SkipBlankIsLongest(n);
    if SkipBlank(n).Some? { SkipBlankOnce(n); }
  }

  lemma UnblankedClean(n: string)
    requires Clean(n)
    ensures Clean(Unblanked(n))
    ensures Ended(n) ==> Ended(Unblanked(n))
  {
    hide Clean;
    UnblankedParts(n);
    var b, u := BlankStart(n), Unblanked(n);
    if b != "" {
      CleanJoin(b[..|b| - 1], u);
      assert b[..|b| - 1] + ['\n'] + u == n;
    }
  }

  // ---- Both zones, by name ----

  /** The unanchored and the anchored heading search agree on a valid page, and find its zones. */
  lemma ZoneViewByName(p: Shape, truth: bool)
    requires p.Valid()
    ensures Locate(p.Content(), HeadingOf(truth), false, true)
      == Some(Cut(p.BeforeZone(truth), p.Zone(truth) + p.AfterZone(truth)))
    ensures Locate(p.Body(), HeadingOf(truth), true, true).Some?
    ensures Locate(p.Body(), HeadingOf(truth), true, true).value.after == p.Zone(truth) + p.AfterZone(truth)
    ensures TakeSection(p.Zone(truth) + p.AfterZone(truth), SECTION, true)
      == Cut(p.Zone(truth), p.AfterZone(truth))
  {
    hide Locate, TakeSection, Settled, Gap, ZoneText, Lacks;
    hide Shape.BeforeZone1, Shape.BeforeZone2, Shape.Lead2, Shape.Rest1, Shape.Body, Shape.Content;
    FirstZone(p);
    FirstView(p);
    SecondView(p);
  }

  lemma ZoneSplit(p: Shape, truth: bool)
    requires p.Valid()
    ensures p.Content() == p.BeforeZone(truth) + (p.Zone(truth) + p.AfterZone(truth))
  {
    hide Locate, TakeSection, Settled, Gap, ZoneText, Lacks, Shape.Content, Shape.Zone, Shape.AfterZone,
      Shape.BeforeZone;
    ZoneViewByName(p, truth);
  }

  lemma AfterZoneIsSection(p: Shape, truth: bool)
    requires p.Valid()
    ensures p.AfterZone(truth) == "" || (SECTION <= p.AfterZone(truth) && Ended(p.Zone(truth)))
  {
    hide HasMarkerLine, Settled, Gap, SkipBlank, Lacks, HeadingLike;
    HeadingFacts();
    OpensSection(p.between, p.Heading2(), p.gap2 + p.After2());
  }

  /** Parsing gives each zone, trimmed at its end. */
  lemma ParsedZone(p: Shape, truth: bool)
    requires p.Valid()
    ensures ExtractZone(StripFrontmatter(p.Content()), HeadingOf(truth)) == RStrip(p.Zone(truth))
  {
    hide Locate, TakeSection, Settled, Gap, ZoneText, Lacks, Shape.Content, Shape.Zone, Shape.AfterZone,
      Shape.BeforeZone, SplitFrontmatter, RStrip, Shape.Body;
    FrontView(p);
    ZoneViewByName(p, truth);
  }

  // ---- Writing into a zone ----

  /** A page stays valid when clean, line-ended text replaces a zone, and only that zone changes. */
  lemma WithZoneValid(p: Shape, truth: bool, n: string)
    requires p.Valid() && Clean(n)
    requires Ended(n) || p.AfterZone(truth) == ""
    ensures p.WithZone(truth, n).Valid()
  {
    hide Settled, Lacks, HasMarkerLine, SkipBlank, Clean, BlankStart, Unblanked, Gap;
    UnblankedParts(n);
    UnblankedClean(n);
    AfterZone1Solid(p);
    GapJoin(p.gap1, BlankStart(n));
    GapJoin(p.gap2, BlankStart(n));
  }

  lemma GapJoin(g: string, b: string)
    requires Gap(g) && (b == "" || Gap(b))
    ensures Gap(g + b)
  {
  }

  lemma WithZoneParts(p: Shape, truth: bool, n: string)
    ensures p.WithZone(truth, n).Zone(truth) == Unblanked(n)
    ensures p.WithZone(truth, n).Zone(!truth) == p.Zone(!truth)
    ensures p.WithZone(truth, n).AfterZone(truth) == p.AfterZone(truth)
    ensures p.WithZone(truth, n).front == p.front
  {
    hide BlankStart, Unblanked;
  }

  lemma AfterZone1Solid(p: Shape)
    ensures p.Rest1() != ""
  {
    HeadingFacts();
  }

  lemma WithZoneContent(p: Shape, truth: bool, n: string)
    ensures p.WithZone(truth, n).Content() == p.BeforeZone(truth) + (n + p.AfterZone(truth))
  {
    hide BlankStart, Unblanked;
    UnblankedParts(n);
    var q, b, u := p.WithZone(truth, n), BlankStart(n), Unblanked(n);
    if truth == p.truthFirst {
      WrittenText(p.front, p.lead, p.Heading1(), p.gap1, b, u, p.Rest1());
    } else {
      WrittenText(p.front, p.Lead2(), p.Heading2(), p.gap2, b, u, p.tail);
      SecondPosition(q);
      Assoc(q.front, q.Lead2(), q.Section2());
    }
  }

  lemma WrittenText(front: string, lead: string, h: string, g: string, b: string, u: string, rest: string)
    ensures front + (lead + (h + (g + b + (u + rest)))) == front + (lead + (h + g)) + (b + u + rest)
  {
    Assoc(g, b, u + rest);
    Assoc(b, u, rest);
    Assoc(h, g, b + u + rest);
    Assoc(lead, h + g, b + u + rest);
    Assoc(front, lead + (h + g), b + u + rest);
  }
}
