/** The pages whose two zones every operation keeps apart, by conditions one can check on the text. */
module PageRecognition {
  import opened Text
  import opened Patterns
  import opened CompiledTruth
  import opened PageShape

  /** What follows a zone's heading, as the parser finds it. */
  function AfterHeading(content: string, truth: bool): Option<string> {
    match Locate(StripFrontmatter(content), HeadingOf(truth), true, true)
    case None => None
    case Some(cut) => Some(cut.after)
  }

  /**
   The frontmatter is closed or absent; each zone heading is written once in the page, and there as a
   line of its own.
   */
  predicate TwoZoned(content: string) {
    && (SplitFrontmatter(content).before == "" ==> !("---\n" <= content))
    && Count(content, TRUTH_HEADING) == 1 && Count(content, TIMELINE_HEADING) == 1
    && AfterHeading(content, true).Some? && AfterHeading(content, false).Some?
  }

  /** The text of the Timeline, up to the next section, and what follows it. */
  function TimelineZone(content: string): string {
    match AfterHeading(content, false)
    case None => ""
    case Some(x) => TakeSection(x, SECTION, true).before
  }

  function BehindTimeline(content: string): string {
    match AfterHeading(content, false)
    case None => ""
    case Some(x) => TakeSection(x, SECTION, true).after
  }

  /** No other section starts where the Timeline's text would. */
  predicate TimelineOpen(content: string) {
    AfterHeading(content, false).Some? && !(SECTION <= AfterHeading(content, false).value)
  }

  predicate WellFormed(content: string) {
    TwoZoned(content) && TimelineOpen(content)
  }

  // ---- Every valid shape is such a page ----

  lemma CountContent(p: Shape, k: string)
    requires k in {TRUTH_HEADING, TIMELINE_HEADING}
    requires Ended(p.lead) && Ended(p.between) && Breaks(p.front) && Gap(p.gap1) && Gap(p.gap2)
    requires Ended(p.zone1) && (p.tail == "" || Ended(p.zone2))
    ensures Count(p.Content(), k) == 1 + Count(p.front, k) + Count(p.lead, k) + Count(p.zone1, k)
      + Count(p.between, k) + Count(p.zone2 + p.tail, k)
  {
    hide Count, HeadingLike;
    HeadingFacts();
    CountJoinHeading(p.front, p.Body(), k);
    CountJoinHeading(p.lead, p.Section1(), k);
    CountHeadingLine(p.Heading1(), p.gap1, k);
    Assoc(p.Heading1(), p.gap1, p.After1());
    CountJoinHeading(p.Heading1() + p.gap1, p.After1(), k);
    CountJoinHeading(p.zone1, p.Rest1(), k);
    CountJoinHeading(p.between, p.Section2(), k);
    CountHeadingLine(p.Heading2(), p.gap2, k);
    Assoc(p.Heading2(), p.gap2, p.After2());
    CountJoinHeading(p.Heading2() + p.gap2, p.After2(), k);
  }

  /** A valid shape writes out a page that the conditions accept; open shapes are open pages. */
  lemma ShapeIsTwoZoned(p: Shape)
    requires p.Valid()
    ensures TwoZoned(p.Content())
    ensures TimelineOpen(p.Content()) <==> p.Open()
  {
    hide Count, Locate, Settled, HeadingLike, HasMarkerLine, SkipBlank, Shape.Body, Shape.BeforeZone;
    FrontView(p);
    ZoneViewByName(p, true);
    ZoneViewByName(p, false);
    ShapeCounts(p);
    if p.front == "" { ShapeFront(p); }
    ShapeOpen(p);
  }

  lemma ShapeCounts(p: Shape)
    requires p.Valid()
    ensures Count(p.Content(), TRUTH_HEADING) == 1 && Count(p.Content(), TIMELINE_HEADING) == 1
  {
    hide Count, HeadingLike, HasMarkerLine, SkipBlank, Settled;
    HeadingFacts();
    if p.front != "" {
      SettledFrontEnds(p.front, p.lead + p.Heading1());
    }
    CountContent(p, TRUTH_HEADING);
    CountContent(p, TIMELINE_HEADING);
    if p.tail == "" {
      assert p.zone2 + p.tail == p.zone2;
    } else {
      CountJoinHeading(p.zone2, p.tail, TRUTH_HEADING);
      CountJoinHeading(p.zone2, p.tail, TIMELINE_HEADING);
    }
  }

  lemma ShapeFront(p: Shape)
    requires p.Valid() && p.front == ""
    ensures !("---\n" <= p.Content())
  {
    hide HeadingLike, Lacks, ZoneText, Gap, Shape.After1;
    BodyStart(p);
    assert p.Content() == p.Body();
  }

  lemma ShapeOpen(p: Shape)
    requires p.Valid()
    ensures SECTION <= p.Zone(false) + p.AfterZone(false) <==> !p.Open()
  {
    hide Settled, Lacks, SkipBlank, Gap, Shape.Rest1, HeadingLike;
    var z, after := p.Zone(false), p.AfterZone(false);
    AfterZoneIsSection(p, false);
    RestIsNotEmpty(p);
    if z == "" {
      assert z + after == after;
    } else {
      assert HasMarkerLine(z, SECTION, true) ==> false;
      assert !(SECTION <= z);
      if after != "" {
        HeadingFacts();
        PrefixOfLine(z, after, SECTION);
      } else {
        assert z + after == z;
      }
    }
  }

  lemma RestIsNotEmpty(p: Shape)
    ensures p.Rest1() != ""
  {
    HeadingFacts();
  }

  // ---- Every such page has a valid shape ----

  /** A heading that the parser finds in a body: the text before it, its blank lines, and what follows. */
  lemma FoundHeading(body: string, h: string) returns (lead: string, gap: string, after: string)
    requires Locate(body, h, true, true).Some?
    ensures body == lead + (h + (gap + after))
    ensures Gap(gap) && Ended(lead) && SkipBlank(after).None?
    ensures after == Locate(body, h, true, true).value.after
  {
    hide SkipBlank, Locate;
    var k := LocateIsLeftmost(body, h, true, true);
    lead := body[..k];
    var line := body[k..];
    var t := line[|h|..];
    SkipBlankIsLongest(t);
    SkipBlankOnce(t);
    after := SkipBlank(t).value;
    gap := t[..|t| - |after|];
    assert gap + after == t;
    assert h + t == line;
    assert lead + line == body;
  }

  lemma {:induction false} SectionHasNoMarker(s: string, marker: string, bol: bool)
    requires marker != ""
    ensures !HasMarkerLine(TakeSection(s, marker, bol).before, marker, bol)
    decreases |s|
  {
    if s != "" && !(bol && marker <= s) {
      SectionHasNoMarker(s[1..], marker, s[0] == '\n');
      var b := TakeSection(s, marker, bol).before;
      assert b[1..] == TakeSection(s[1..], marker, s[0] == '\n').before;
      assert b <= s;
    }
  }

  lemma {:induction false} SkipBlankPrefix(a: string, b: string)
    requires SkipBlank(a + b).None?
    ensures SkipBlank(a).None?
  {
    if a != "" {
      ConsAppend(a, b);
      if IsSpace(a[0]) { SkipBlankPrefix(a[1..], b); }
    }
  }

  lemma {:induction false} AfterClosingTruncate(t: string, r: string, x: string)
    requires AfterClosing(t + x) == Some(r + x) && r != ""
    ensures AfterClosing(t) == Some(r)
    decreases |t|
  {
    var s := t + x;
    assert |t| >= |r| + 4;
    assert "\n---" <= s <==> "\n---" <= t;
    assert "\n---\n" <= s <==> "\n---\n" <= t;
    if "\n---" <= t {
      var k := if "\n---\n" <= t then 5 else 4;
      assert s[k..] == t[k..] + x;
      SameHead(t[k..], r, x);
    } else {
      ConsAppend(t, x);
      AfterClosingTruncate(t[1..], r, x);
    }
  }

  lemma SameHead(a: string, b: string, x: string)
    requires a + x == b + x
    ensures a == b
  {
    assert a == (a + x)[..|a|] && b == (b + x)[..|b|];
  }

  lemma BehindFence(front: string, start: string, x: string)
    requires |front| >= 4
    ensures (front + (start + x))[4..] == (front + start)[4..] + x
  {
    Assoc(front, start, x);
  }

  lemma FenceLength(content: string)
    requires SplitFrontmatter(content).before != ""
    ensures var front := SplitFrontmatter(content).before;
      && |front| >= 4 && "---\n" <= front
      && AfterClosing(content[4..]) == Some(SplitFrontmatter(content).after)
  {
    hide AfterClosing;
    var front := SplitFrontmatter(content).before;
    assert front <= content;
  }

  /** A page whose frontmatter is closed or absent stays so under any later text. */
  lemma SettledStart(content: string, start: string, x: string)
    requires SplitFrontmatter(content).before == "" ==> !("---\n" <= content)
    requires StripFrontmatter(content) == start + x && start != ""
    ensures Settled(SplitFrontmatter(content).before, start)
  {
    var front := SplitFrontmatter(content).before;
    assert content == front + (start + x);
    if front == "" {
      assert content == start + x;
      assert "---\n" <= start ==> "---\n" <= content;
    } else {
      hide AfterClosing, SplitFrontmatter;
      FenceLength(content);
      BehindFence(front, start, x);
      AfterClosingTruncate((front + start)[4..], start, x);
    }
  }

  /** The later heading stands in what the earlier heading's zone leaves over. */
  lemma LaterHeading(x: string, h1: string, g1: string, a1: string, y: string, s2: string)
    returns (zone: string, between: string)
    requires HeadingLike(h1) && Gap(g1)
    requires x + (h1 + (g1 + a1)) == y + s2 && |x| < |y| && Ended(y) && SECTION <= s2
    ensures a1 == zone + (between + s2)
    ensures TakeSection(a1, SECTION, true) == Cut(zone, between + s2)
    ensures Ended(zone) && Ended(between) && (between == "" || SECTION <= between)
    ensures y == x + ((h1 + g1) + (zone + between))
  {
    hide TakeSection, HasMarkerLine;
    var body, line := x + (h1 + (g1 + a1)), h1 + g1;
    Assoc(h1, g1, a1);
    Assoc(x, line, a1);
    var j := HeadingBeyond(x, line, |h1|, a1, y, s2);
    TakeSectionIsShortest(a1, SECTION, true);
    var cut := TakeSection(a1, SECTION, true);
    assert MarkerAt(a1, j, SECTION, true);
    zone, between := cut.before, a1[|cut.before|..j];
    assert cut.after == a1[|zone|..] == between + s2;
    assert a1[..j] == zone + between;
    assert y == x + line + a1[..j];
    Assoc(x, line, a1[..j]);
    BetweenIsSection(a1, |zone|, j);
  }

  lemma HeadingBeyond(x: string, line: string, n: nat, a1: string, y: string, s2: string) returns (j: nat)
    requires 3 < n < |line|
    requires (forall i | 0 <= i < n :: line[i] != '\n') && forall i | n <= i < |line| :: IsSpace(line[i])
    requires x + line + a1 == y + s2 && |x| < |y| && Ended(y) && SECTION <= s2
    ensures j <= |a1| && a1[j..] == s2 && y == x + line + a1[..j]
    ensures j == 0 || a1[j - 1] == '\n'
  {
    var body := x + line + a1;
    assert body[|y| - 1] == y[|y| - 1] == '\n';
    assert body[|y|] == s2[0] == SECTION[0] == '#';
    assert |y| - 1 < |x| + |line| ==> body[|y| - 1] == line[|y| - 1 - |x|];
    assert |y| >= |x| + |line|;
    j := |y| - |x| - |line|;
    assert body[|y|..] == s2 == a1[j..];
    assert body[..|y|] == y == x + line + a1[..j];
  }

  lemma BetweenIsSection(a: string, i: nat, j: nat)
    requires i <= j <= |a| && (i == |a| || MarkerAt(a, i, SECTION, true))
    requires j == 0 || a[j - 1] == '\n'
    ensures Ended(a[i..j]) && Ended(a[..i])
    ensures a[i..j] == "" || SECTION <= a[i..j]
  {
    var b := a[i..j];
    if i < j {
      assert b[|b| - 1] == a[j - 1];
      assert SECTION <= a[i..];
      PrefixOfLine(b, a[j..], SECTION);
      assert b + a[j..] == a[i..];
    }
  }

  /** The pieces of a page in which the headings were found in this order. */
  lemma Assemble(content: string, truthFirst: bool, lead: string, gap1: string, a1: string,
                 lead2: string, gap2: string, a2: string) returns (p: Shape)
    requires TwoZoned(content)
    requires StripFrontmatter(content) == lead + (HeadingOf(truthFirst) + (gap1 + a1))
    requires StripFrontmatter(content) == lead2 + (HeadingOf(!truthFirst) + (gap2 + a2))
    requires Gap(gap1) && Ended(lead) && SkipBlank(a1).None?
    requires Gap(gap2) && Ended(lead2) && SkipBlank(a2).None?
    requires |lead| < |lead2|
    ensures p.Valid() && p.Content() == content && p.truthFirst == truthFirst
    ensures p.zone2 + p.tail == a2 && p.zone1 + p.Rest1() == a1
  {
    hide TakeSection, HasMarkerLine, SkipBlank, Count, HeadingLike, Locate, SplitFrontmatter, Settled;
    HeadingFacts();
    HeadingPrefix(HeadingOf(!truthFirst), gap2 + a2);
    var section2 := HeadingOf(!truthFirst) + (gap2 + a2);
    var zone1, between := LaterHeading(lead, HeadingOf(truthFirst), gap1, a1, lead2, section2);
    var cut := TakeSection(a2, SECTION, true);
    p := Shape(SplitFrontmatter(content).before, lead, truthFirst, gap1, zone1, between, gap2, cut.before, cut.after);
    assert p.Body() == StripFrontmatter(content);
    assert p.Content() == content;
    SectionEnds(a2);
    SectionEnds(a1);
    Assoc(p.lead, p.Heading1(), gap1 + a1);
    SettledStart(content, p.lead + p.Heading1(), gap1 + a1);
    AssembledLacks(p);
    SkipBlankPrefix(zone1, p.Rest1());
    SkipBlankPrefix(cut.before, cut.after);
  }

  lemma SectionEnds(a: string)
    ensures var cut := TakeSection(a, SECTION, true);
      && (cut.after == "" || (SECTION <= cut.after && Ended(cut.before)))
      && !HasMarkerLine(cut.before, SECTION, true)
  {
    hide HasMarkerLine;
    TakeSectionIsShortest(a, SECTION, true);
    SectionHasNoMarker(a, SECTION, true);
    var cut := TakeSection(a, SECTION, true);
    assert a[|cut.before|..] == cut.after;
  }

  /** Two headings in a page that has each once leave none for the other pieces. */
  lemma AssembledLacks(p: Shape)
    requires TwoZoned(p.Content())
    requires Ended(p.lead) && Ended(p.between) && Gap(p.gap1) && Gap(p.gap2)
    requires Ended(p.zone1) && (p.tail == "" || Ended(p.zone2))
    requires Settled(p.front, p.lead + p.Heading1())
    ensures Lacks(p.front) && Lacks(p.lead) && Lacks(p.zone1) && Lacks(p.between) && Lacks(p.zone2) && Lacks(p.tail)
  {
    hide Count, HeadingLike, Locate, SplitFrontmatter, Settled;
    HeadingFacts();
    if p.front != "" {
      SettledFrontEnds(p.front, p.lead + p.Heading1());
    }
    CountContent(p, TRUTH_HEADING);
    CountContent(p, TIMELINE_HEADING);
    if p.tail == "" {
      assert p.zone2 + p.tail == p.zone2;
      CountNoHash("", TRUTH_HEADING);
      CountNoHash("", TIMELINE_HEADING);
    } else {
      CountJoinHeading(p.zone2, p.tail, TRUTH_HEADING);
      CountJoinHeading(p.zone2, p.tail, TIMELINE_HEADING);
    }
  }

  /** A page that meets the conditions falls into the pieces of a valid shape. */
  lemma Recognize(content: string) returns (p: Shape)
    requires TwoZoned(content)
    ensures p.Valid() && p.Content() == content
    ensures TimelineOpen(content) <==> p.Open()
  {
    hide Locate, SplitFrontmatter, Count, SkipBlank, Shape.Valid, Shape.Content, Shape.Open, Gap;
    var body := StripFrontmatter(content);
    var x, gx, ax := FoundHeading(body, TRUTH_HEADING);
    var y, gy, ay := FoundHeading(body, TIMELINE_HEADING);
    if |x| < |y| {
      p := Assemble(content, true, x, gx, ax, y, gy, ay);
    } else if |y| < |x| {
      p := Assemble(content, false, y, gy, ay, x, gx, ax);
    } else {
      OneHeadingAtATime(x, gx + ax, y, gy + ay);
      assert false;
    }
    ShapeIsTwoZoned(p);
  }

  lemma OneHeadingAtATime(x: string, s: string, y: string, t: string)
    requires |x| == |y|
    ensures x + (TRUTH_HEADING + s) != y + (TIMELINE_HEADING + t)
  {
    HeadingFacts();
    var a, b := x + (TRUTH_HEADING + s), y + (TIMELINE_HEADING + t);
    assert a[|x| + 3] == TRUTH_HEADING[3];
    assert b[|y| + 3] == TIMELINE_HEADING[3];
  }

  /** The conditions describe exactly the pages that valid shapes write out. */
  lemma TwoZonedMeansShape(content: string)
    ensures TwoZoned(content) <==> exists p: Shape :: p.Valid() && p.Content() == content
    ensures WellFormed(content) <==> exists p: Shape :: p.Valid() && p.Open() && p.Content() == content
  {
    hide Shape.Valid, Shape.Open, Shape.Content, TwoZoned, TimelineOpen;
    forall p: Shape | p.Valid() && p.Content() == content
      ensures TwoZoned(content) && (TimelineOpen(content) <==> p.Open())
    {
      ShapeIsTwoZoned(p);
    }
    if TwoZoned(content) {
      var p := Recognize(content);
    }
  }
}
