/** Merging facts into an entity page (src/ravn/adapters/tools/entity_extractor.py:326-343). */
module FactMerge {
  import opened Text
  import opened Patterns
  import opened CompiledTruth
  import opened PageShape
  import opened PageEdits
  import opened PageRecognition
  import opened ZoneLens
  import opened TimelineLog
  import opened Revision
  import opened PageJourney
  import opened Evidence
  import opened EntityPages
  import opened FactLists

  // ---- Merging facts ----

  /** The truth with new facts written under it. */
  function MergedTruth(truth: string, facts: seq<string>): string {
    if Blank(truth) then FactTruth(facts) else truth + ("\n" + FactLines(facts))
  }

  function MergeFacts(content: string, facts: seq<string>): string {
    RewriteCompiledTruth(content, MergedTruth(CompiledTruthOf(content), facts))
  }

  lemma {:induction false} MarkerInPrefix(r: string, z: string, marker: string, bol: bool)
    requires r <= z && HasMarkerLine(r, marker, bol)
    ensures HasMarkerLine(z, marker, bol)
    decreases |r|
  {
    if !(bol && marker <= r) {
      assert r[1..] <= z[1..] && r[0] == z[0];
      MarkerInPrefix(r[1..], z[1..], marker, r[0] == '\n');
    } else {
      assert marker <= z;
    }
  }

  lemma TruthIsText(content: string)
    requires TwoZoned(content)
    ensures ZoneText(CompiledTruthOf(content))
  {
    hide TwoZoned, Shape.Valid, Shape.Content, CompiledTruthOf, RStrip, Lacks, HasMarkerLine, SkipBlank, TimelineOpen,
      Shape.Open, Shape.Zone, TimelineOf, SplitFrontmatter;
    TruthLacks(content);
    TruthStartsSolid(content);
    var p := Recognize(content);
    ParsedShape(p);
    ZoneIsText(p, true);
    var z, r := p.Zone(true), RStrip(p.Zone(true));
    if HasMarkerLine(r, SECTION, true) {
      MarkerInPrefix(r, z, SECTION, true);
    }
  }

  /** The merged truth is clean text that is read back. */
  lemma MergedIsText(content: string, facts: seq<string>)
    requires TwoZoned(content) && facts != [] && forall f | f in facts :: PlainFact(f)
    ensures var m := MergedTruth(CompiledTruthOf(content), facts); Clean(m) && Faithful(m)
  {
    hide TwoZoned, CompiledTruthOf, RStrip, SkipBlank, PlainFact, FactTruth, HasMarkerLine, Lacks, Blank, FactLines;
    var truth := CompiledTruthOf(content);
    if Blank(truth) {
      FactTruthIsText(facts);
    } else {
      TruthIsText(content);
      FactLinesClean(facts);
      var lines := FactLines(facts);
      CleanJoin(truth, lines);
      assert ['\n'] == "\n";
      Assoc(truth, "\n", lines);
      SkipBlankSolid(truth, "\n" + lines);
    }
  }

  /** A merge rewrites the truth to the merged one and keeps the page and its Timeline. */
  lemma MergeKeeps(content: string, facts: seq<string>)
    requires TwoZoned(content) && facts != [] && forall f | f in facts :: PlainFact(f)
    ensures var c := MergeFacts(content, facts);
      && TwoZoned(c) && (TimelineOpen(c) <==> TimelineOpen(content)) && TimelineOf(c) == TimelineOf(content)
      && CompiledTruthOf(c) == RStrip(MergedTruth(CompiledTruthOf(content), facts))
      && SplitFrontmatter(c).before == SplitFrontmatter(content).before
  {
    hide TwoZoned, TimelineOpen, CompiledTruthOf, TimelineOf, SplitFrontmatter, RewriteCompiledTruth, Clean, Faithful,
      MergedTruth, RStrip, Blank, PlainFact;
    var m := MergedTruth(CompiledTruthOf(content), facts);
    MergedIsText(content, facts);
    RewriteKeeps(content, m);
    PutGet(content, m);
  }

  /**
   On every page a merge is one rewrite: by the truth with the facts under it, which are read back, or, where
   there is no truth, by one with these key facts.
   */
  lemma MergeIsRewrite(content: string, facts: seq<string>) returns (t: string)
    requires facts != [] && forall f | f in facts :: PlainFact(f)
    ensures MergeFacts(content, facts) == RewriteCompiledTruth(content, t)
    ensures var truth := CompiledTruthOf(content);
      && (!Blank(truth) ==> truth + "\n" <= t && Bullets(t[|truth| + 1..]) == ReadFacts(facts))
      && (Blank(truth) ==> FactsOfTruth(t) == ReadFacts(facts))
  {
    hide CompiledTruthOf, RewriteCompiledTruth, Blank, PlainFact, FactLines, Bullets, ReadFacts, FactTruth,
      FactsOfTruth;
    var truth := CompiledTruthOf(content);
    t := MergedTruth(truth, facts);
    if Blank(truth) {
      FactTruthReadBack(facts);
    } else {
      Assoc(truth, "\n", FactLines(facts));
      assert t[|truth| + 1..] == FactLines(facts);
      FactsHaveNoNewline(facts);
      FactsReadBack(facts);
    }
  }

  /** A truth that is not blank stands whole in front of the merged facts, which are read back off what follows it. */
  lemma MergePreserves(content: string, facts: seq<string>)
    requires TwoZoned(content) && facts != [] && forall f | f in facts :: PlainFact(f)
    ensures var truth, merged := CompiledTruthOf(content), CompiledTruthOf(MergeFacts(content, facts));
      !Blank(truth) ==> truth + "\n" <= merged && Bullets(merged[|truth| + 1..]) == ReadFacts(facts)
  {
    hide TwoZoned, TimelineOpen, CompiledTruthOf, TimelineOf, SplitFrontmatter, RewriteCompiledTruth, RStrip, Blank,
      PlainFact, FactLines, MergeFacts, Bullets, ReadFacts, OneLine, Lacks;
    var truth, lines := CompiledTruthOf(content), FactLines(facts);
    MergeKeeps(content, facts);
    if !Blank(truth) {
      FactLinesStep(facts);
      DashIsSolid(lines);
      RStripPrepend(truth + "\n", lines);
      Assoc(truth, "\n", lines);
      assert (truth + "\n" + RStrip(lines))[|truth| + 1..] == RStrip(lines);
      BulletsTrimmed(lines);
      FactsHaveNoNewline(facts);
      FactsReadBack(facts);
    }
  }

  lemma FactsHaveNoNewline(facts: seq<string>)
    requires forall f | f in facts :: PlainFact(f)
    ensures forall f | f in facts :: '\n' !in f
  {
    hide OneLine, Lacks;
    forall f | f in facts ensures '\n' !in f {
      assert PlainFact(f);
      NoNewline(f);
    }
  }

  // ---- Which facts are seen ----

  lemma {:induction false} LocatedIsLonger(s: string, h: string, anchored: bool, bol: bool)
    requires Locate(s, h, anchored, bol).Some?
    ensures |s| > |h|
    decreases |s|
  {
    if !HeadingHere(s, h, anchored, bol) {
      LocatedIsLonger(s[1..], h, anchored, s[0] == '\n');
    }
  }

  lemma HeadingExtends(s: string, w: string, h: string, anchored: bool, bol: bool)
    requires |s| > |h| && !IsSpace(s[|s| - 1])
    ensures HeadingHere(s + w, h, anchored, bol) <==> HeadingHere(s, h, anchored, bol)
    ensures HeadingHere(s, h, anchored, bol) ==>
      SkipBlank((s + w)[|h|..]) == Some(SkipBlank(s[|h|..]).value + w)
  {
    hide SkipBlank;
    assert h <= s + w <==> h <= s by { assert (s + w)[..|h|] == s[..|h|]; }
    var x := s[|h|..];
    assert (s + w)[|h|..] == x + w;
    assert x[|x| - 1] == s[|s| - 1];
    SolidSkip(x, w);
  }

  /** Text appended to solid text leaves the heading where it was found. */
  lemma {:induction false} LocateExtends(s: string, w: string, h: string, anchored: bool, bol: bool)
    requires Locate(s, h, anchored, bol).Some? && !IsSpace(s[|s| - 1])
    ensures Locate(s + w, h, anchored, bol).Some?
    ensures Locate(s + w, h, anchored, bol).value.after == Locate(s, h, anchored, bol).value.after + w
    decreases |s|
  {
    hide HeadingHere, SkipBlank;
    LocatedIsLonger(s, h, anchored, bol);
    HeadingExtends(s, w, h, anchored, bol);
    if !HeadingHere(s, h, anchored, bol) {
      LocatedIsLonger(s[1..], h, anchored, s[0] == '\n');
      ConsAppend(s, w);
      LocateExtends(s[1..], w, h, anchored, s[0] == '\n');
    }
  }

  lemma {:induction false} MarkerNeedsRoom(a: string, marker: string, bol: bool)
    requires HasMarkerLine(a, marker, bol)
    ensures |a| >= |marker|
    decreases |a|
  {
    if a != "" && !(bol && marker <= a) { MarkerNeedsRoom(a[1..], marker, a[0] == '\n'); }
  }

  /** Text behind a line with the marker does not reach the section before it. */
  lemma {:induction false} SectionBefore(a: string, w: string, marker: string, bol: bool)
    requires marker != "" && HasMarkerLine(a, marker, bol)
    ensures TakeSection(a + w, marker, bol).before == TakeSection(a, marker, bol).before
    decreases |a|
  {
    MarkerNeedsRoom(a, marker, bol);
    assert marker <= a + w <==> marker <= a by { assert (a + w)[..|marker|] == a[..|marker|]; }
    if !(bol && marker <= a) {
      ConsAppend(a, w);
      SectionBefore(a[1..], w, marker, a[0] == '\n');
    }
  }

  lemma {:induction false} NoMarkerOnLine(s: string, marker: string, bol: bool)
    requires marker != "" && '\n' !in s && !(bol && marker <= s)
    ensures !HasMarkerLine(s, marker, bol)
    decreases |s|
  {
    if s != "" { NoMarkerOnLine(s[1..], marker, false); }
  }

  lemma {:induction false} FactLinesAreOneSection(facts: seq<string>)
    requires forall f | f in facts :: PlainFact(f)
    ensures !HasMarkerLine(FactLines(facts), SUBSECTION, true)
  {
    hide HasMarkerLine, PlainFact;
    NoMarkerOnLine("", SUBSECTION, true);
    if facts != [] {
      var s := "- " + facts[0];
      FactOnLine(facts[0]);
      NoMarkerOnLine(s, SUBSECTION, true);
      if |facts| > 1 {
        FactLinesAreOneSection(facts[1..]);
        MarkerAcross(s, FactLines(facts[1..]), SUBSECTION, true);
      }
    }
  }

  lemma FactOnLine(f: string)
    requires PlainFact(f)
    ensures '\n' !in "- " + f && !(SUBSECTION <= "- " + f)
  {
    NoNewline(f);
    assert ("- " + f)[0] == '-';
  }

  /** The key facts of a truth, when it has a list of them, and the text from that list on. */
  function FactList(truth: string): Option<string> {
    match Locate(truth, KEY_FACTS, false, true)
    case None => None
    case Some(cut) => Some(cut.after)
  }

  lemma WholeSection(s: string)
    requires !HasMarkerLine(s, SUBSECTION, true)
    ensures TakeSection(s, SUBSECTION, true).before == s
  {
    TakeSectionConcat(s, "", SUBSECTION, true);
    assert s + "" == s;
  }

  const OTHER_SUBSECTIONS: string := "### Relationships\n\n### Assessment"

  lemma FactTruthParts(facts: seq<string>)
    ensures FactTruth(facts) == "### Key Facts\n\n" + (FactLines(facts) + "\n\n" + OTHER_SUBSECTIONS)
    ensures FactLines(facts) + "\n\n" + OTHER_SUBSECTIONS == FactLines(facts) + ("\n\n" + OTHER_SUBSECTIONS)
  {
    hide FactLines;
    var l := FactLines(facts);
    assert "### Key Facts\n" + ['\n'] == "### Key Facts\n\n";
    assert ['\n'] + SUBSECTIONS == "\n\n" + OTHER_SUBSECTIONS;
    Assoc(l, ['\n'], SUBSECTIONS);
    Assoc(l, "\n\n", OTHER_SUBSECTIONS);
  }

  lemma FactSection(facts: seq<string>)
    requires forall f | f in facts :: PlainFact(f)
    ensures var z := FactLines(facts) + "\n\n";
      && TakeSection(z + OTHER_SUBSECTIONS, SUBSECTION, true) == Cut(z, OTHER_SUBSECTIONS)
      && Bullets(z) == ReadFacts(facts)
  {
    hide PlainFact, Bullets, TakeSection, HasMarkerLine, FactLines, RStrip;
    var l := FactLines(facts);
    FactLinesAreOneSection(facts);
    NoMarkerOnLine("", SUBSECTION, true);
    MarkerAcross("", "", SUBSECTION, true);
    MarkerAcross(l, "\n", SUBSECTION, true);
    assert "" + ['\n'] + "" == "\n" && l + ['\n'] + "\n" == l + "\n\n";
    TakeSectionConcat(l + "\n\n", OTHER_SUBSECTIONS, SUBSECTION, true);
    FactBullets(facts);
    BulletsTrimmed(l);
    BulletsTrimmed(l + "\n\n");
    RStripAppendBlank(l, "\n\n");
  }

  lemma FactBullets(facts: seq<string>)
    requires forall f | f in facts :: PlainFact(f)
    ensures Bullets(FactLines(facts)) == ReadFacts(facts)
  {
    hide Bullets, FactLines, OneLine, Lacks;
    forall f | f in facts ensures '\n' !in f { NoNewline(f); }
    FactsReadBack(facts);
  }

  function FactsOn(facts: seq<string>): string {
    FactLines(facts) + "\n\n" + OTHER_SUBSECTIONS
  }

  lemma FactTruthLocated(facts: seq<string>)
    requires facts != []
    ensures FactList(FactTruth(facts)) == Some(FactsOn(facts))
    ensures FactsOfTruth(FactTruth(facts)) == Bullets(TakeSection(FactsOn(facts), SUBSECTION, true).before)
  {
    hide Bullets, TakeSection, FactLines, Locate, FactTruth, SkipBlank, FactsOn;
    var after := FactsOn(facts);
    FactTruthParts(facts);
    FactsOnIs(facts);
    SolidStart(after);
    SkipGap("\n\n", after);
    var t := "### Key Facts\n\n" + after;
    assert t[|KEY_FACTS|..] == "\n\n" + after && KEY_FACTS <= t;
    LocateHere("### Key Facts\n\n", after, KEY_FACTS, false, true);
  }

  lemma FactsOnIs(facts: seq<string>)
    requires facts != []
    ensures FactsOn(facts) == FactLines(facts) + "\n\n" + OTHER_SUBSECTIONS
    ensures FactsOn(facts) != "" && FactsOn(facts)[0] == '-'
  {
    hide FactLines;
    FactLinesStep(facts);
  }

  /** A truth written from facts lists these facts, in a section that another one follows. */
  lemma FactTruthReadBack(facts: seq<string>)
    requires facts != [] && forall f | f in facts :: PlainFact(f)
    ensures FactsOfTruth(FactTruth(facts)) == ReadFacts(facts)
    ensures Closed(FactTruth(facts))
  {
    hide PlainFact, Bullets, TakeSection, HasMarkerLine, FactLines, FactTruth, FactList, FactsOfTruth, FactsOn;
    FactTruthLocated(facts);
    FactsOnIs(facts);
    FactSection(facts);
    TakeSectionIsShortest(FactsOn(facts), SUBSECTION, true);
  }

  /** The truth has a list of key facts, and another subsection behind it. */
  predicate Closed(truth: string) {
    FactList(truth).Some? && HasMarkerLine(FactList(truth).value, SUBSECTION, true)
  }

  // ---- A heading among merged lines ----

  lemma AnyLineStart(s: string, h: string, x: bool, y: bool)
    ensures Locate(s, h, false, x) == Locate(s, h, false, y)
  {
    assert HeadingHere(s, h, false, x) <==> HeadingHere(s, h, false, y);
  }

  lemma {:induction false} GapPassed(g: string, b: string)
    requires Blank(g)
    ensures FactList(g + b) == FactList(b)
  {
    hide SkipBlank;
    if g == "" {
      assert g + b == b;
    } else {
      ConsAppend(g, b);
      assert (g + b)[0] == g[0] != '#';
      GapPassed(g[1..], b);
      AnyLineStart((g + b)[1..], KEY_FACTS, true, g[0] == '\n');
    }
  }

  predicate EndsInHeading(s: string) {
    |KEY_FACTS| <= |s| && s[|s| - |KEY_FACTS|..] == KEY_FACTS
  }

  /**
   Behind solid text without a list, the list is the text that follows a heading at its end, or the one further
   on.
   */
  lemma {:induction false} ListBehind(s: string, g: string, b: string)
    requires (s != "" ==> !IsSpace(s[|s| - 1])) && FactList(s).None?
    requires Gap(g) && b != "" && !IsSpace(b[0])
    ensures FactList(s + (g + b)) == if EndsInHeading(s) then Some(b) else FactList(b)
    decreases |s|
  {
    hide SkipBlank, HeadingHere, FactList, EndsInHeading, Gap;
    var w := g + b;
    if s == "" {
      assert s + w == w;
      GapPassed(g, b) by { GapIsBlank(g); }
      EndStep(s);
    } else {
      ConsAppend(s, w);
      ListStep(s);
      ListStep(s + w);
      EndStep(s);
      HeadingAtEnd(s, g, b);
      if s != KEY_FACTS {
        assert s[1..] != "" ==> s[1..][|s| - 2] == s[|s| - 1];
        ListBehind(s[1..], g, b);
      }
    }
  }

  lemma GapIsBlank(g: string)
    requires Gap(g)
    ensures Blank(g)
  {
  }

  lemma ListStep(s: string)
    requires s != ""
    ensures HeadingHere(s, KEY_FACTS, false, true) ==>
      KEY_FACTS <= s && FactList(s).Some? && FactList(s) == SkipBlank(s[|KEY_FACTS|..])
    ensures !HeadingHere(s, KEY_FACTS, false, true) ==> FactList(s) == FactList(s[1..])
  {
    hide SkipBlank;
    AnyLineStart(s[1..], KEY_FACTS, true, s[0] == '\n');
  }

  lemma EndStep(s: string)
    ensures s == "" ==> !EndsInHeading(s)
    ensures s == KEY_FACTS ==> EndsInHeading(s)
    ensures s != "" && s != KEY_FACTS ==> (EndsInHeading(s) <==> EndsInHeading(s[1..]))
  {
    if |s| > |KEY_FACTS| {
      assert s[|s| - |KEY_FACTS|..] == s[1..][|s| - 1 - |KEY_FACTS|..];
    } else if |s| == |KEY_FACTS| {
      assert s[0..] == s;
    }
  }

  lemma HeadingAtEnd(s: string, g: string, b: string)
    requires s != "" && !IsSpace(s[|s| - 1]) && !HeadingHere(s, KEY_FACTS, false, true)
    requires Gap(g) && b != "" && !IsSpace(b[0])
    ensures HeadingHere(s + (g + b), KEY_FACTS, false, true) <==> s == KEY_FACTS
    ensures s == KEY_FACTS ==> SkipBlank((s + (g + b))[|KEY_FACTS|..]) == Some(b)
  {
    hide SkipBlank;
    var n, w := |KEY_FACTS|, g + b;
    SolidStart(b);
    SkipGap(g, b);
    if s == KEY_FACTS {
      assert (s + w)[n..] == w;
    } else if |s| > n {
      HeadingExtends(s, w, KEY_FACTS, false, true);
    } else if KEY_FACTS <= s + w {
      HeadingHasNoGap(s, g, b);
    }
  }

  lemma HeadingHasNoGap(s: string, g: string, b: string)
    requires Gap(g) && s != KEY_FACTS && |s| <= |KEY_FACTS|
    ensures !(KEY_FACTS <= s + (g + b))
  {
    var k, x := |s|, s + (g + b);
    HeadingSpaces();
    assert x[k] == g[0] && (|g| > 1 ==> x[k + 1] == g[1]);
    assert x[..k] == s;
    assert |g| == 1 ==> g[0] == '\n';
    if k == |KEY_FACTS| {
      assert KEY_FACTS <= x <==> x[..k] == KEY_FACTS;
    }
  }

  /** The heading has no line break, and a word behind each of its spaces. */
  lemma HeadingSpaces()
    ensures forall i | 0 <= i < |KEY_FACTS| && IsSpace(KEY_FACTS[i]) ::
      KEY_FACTS[i] != '\n' && i + 1 < |KEY_FACTS| && !IsSpace(KEY_FACTS[i + 1])
  {
  }

  // ---- Whether merged facts are seen ----

  lemma TruthEnds(content: string)
    ensures var t := CompiledTruthOf(content); !Blank(t) ==> t != "" && !IsSpace(t[|t| - 1])
  {
    hide Locate, TakeSection;
  }

  lemma BlankHasNoList(truth: string)
    requires Blank(truth)
    ensures FactList(truth).None?
  {
    BlankHolds(truth, KEY_FACTS);
    if FactList(truth).Some? {
      LocateContains(truth, KEY_FACTS, false, true);
    }
  }

  lemma {:induction false} BlankHolds(s: string, h: string)
    requires Blank(s) && h != "" && !IsSpace(h[0])
    ensures !Contains(s, h)
  {
    if s != "" { BlankHolds(s[1..], h); }
  }

  /** The facts that are seen of a merge under a heading that one of the facts brings along. */
  function BehindHeading(facts: seq<string>): seq<string> {
    if |facts| <= 1 then []
    else if EndsInHeading(RStrip("- " + facts[0])) then ReadFacts(facts[1..])
    else BehindHeading(facts[1..])
  }

  /** What a merge adds to the key facts that are seen. */
  function SeenFacts(truth: string, facts: seq<string>): seq<string> {
    match FactList(truth)
    case Some(list) =>
      if HasMarkerLine(list, SUBSECTION, true) then []
      else ReadFacts(if Dangling(list) then [""] + facts else facts)
    case None =>
      if Blank(truth) || EndsInHeading(truth) then ReadFacts(facts) else BehindHeading(facts)
  }

  lemma FactsOfList(truth: string)
    ensures FactsOfTruth(truth) == match FactList(truth)
      case None => []
      case Some(list) => Bullets(TakeSection(list, SUBSECTION, true).before)
  {
  }

  lemma TrimmedLines(facts: seq<string>)
    requires facts != [] && forall f | f in facts :: PlainFact(f)
    ensures var lines := RStrip(FactLines(facts));
      && lines != "" && lines[0] == '-' && !IsSpace(lines[|lines| - 1])
      && !HasMarkerLine(lines, SUBSECTION, true)
      && Bullets(lines) == ReadFacts(facts)
      && Bullets("-\n" + lines) == ReadFacts([""] + facts)
  {
    hide Bullets, HasMarkerLine, FactLines, PlainFact, RStrip, Blank;
    var all := FactLines(facts);
    var lines := RStrip(all);
    FactLinesStep(facts);
    FactLinesAreOneSection(facts);
    assert lines != "" by { DashIsSolid(all); BlankStrip(all); }
    if HasMarkerLine(lines, SUBSECTION, true) {
      MarkerInPrefix(lines, all, SUBSECTION, true);
    }
    FactBullets(facts);
    BulletsTrimmed(all);
    DashedFacts(facts);
    BulletsTrimmed("-\n" + all);
    DashIsSolid(all);
    RStripPrepend("-\n", all);
  }

  lemma DashIsSolid(s: string)
    requires s != "" && s[0] == '-'
    ensures !Blank(s) && !IsSpace(s[0])
  {
  }

  lemma DashedFacts(facts: seq<string>)
    requires facts != [] && forall f | f in facts :: PlainFact(f)
    ensures Bullets("-\n" + FactLines(facts)) == ReadFacts([""] + facts)
  {
    hide Bullets, FactLines, RStrip, UpToNewline, AfterNewline, OneLine, Lacks;
    FactLinesStep(facts);
    DashIsSolid(FactLines(facts));
    DashTakesLine(FactLines(facts));
    assert facts[0] in facts;
    NoNewline(facts[0]);
    FactLinesCut(facts);
    FactBullets(facts[1..]);
    var dashed := [""] + facts;
    assert dashed[0] == "" && dashed[1] == facts[0] && dashed[2..] == facts[1..];
    EmptyIsBlank();
  }

  lemma SectionAcross(list: string, lines: string)
    requires !HasMarkerLine(list, SUBSECTION, true) && !HasMarkerLine(lines, SUBSECTION, true)
    ensures TakeSection(list, SUBSECTION, true).before == list
    ensures TakeSection(list + ("\n" + lines), SUBSECTION, true).before == list + ("\n" + lines)
  {
    hide HasMarkerLine, TakeSection;
    MarkerAcross(list, lines, SUBSECTION, true);
    assert list + ['\n'] + lines == list + ("\n" + lines);
    WholeSection(list);
    WholeSection(list + ("\n" + lines));
  }

  /** Facts written under a truth, as far as they are seen. */
  lemma MergedFacts(truth: string, facts: seq<string>)
    requires !Blank(truth) && !IsSpace(truth[|truth| - 1]) && facts != [] && forall f | f in facts :: PlainFact(f)
    ensures FactsOfTruth(truth + ("\n" + RStrip(FactLines(facts)))) == FactsOfTruth(truth) + SeenFacts(truth, facts)
  {
    hide PlainFact, Bullets, Locate, TakeSection, HasMarkerLine, RStrip, FactLines, FactList, FactsOfTruth, Dangling,
      BehindHeading, ReadFacts, EndsInHeading;
    var lines := RStrip(FactLines(facts));
    var w := "\n" + lines;
    TrimmedLines(facts);
    FactsOfList(truth);
    FactsOfList(truth + w);
    if FactList(truth).Some? {
      var list := FactList(truth).value;
      ListExtends(truth, w);
      if HasMarkerLine(list, SUBSECTION, true) {
        SectionBefore(list, w, SUBSECTION, true);
      } else {
        SectionAcross(list, lines);
        BulletsJoin(list, lines);
      }
    } else {
      DashIsSolid(lines);
      ListBehind(truth, "\n", lines);
      if EndsInHeading(truth) {
        WholeSection(lines);
      } else {
        HeadedLines(facts);
        FactsOfList(lines);
      }
    }
  }

  lemma ListExtends(s: string, w: string)
    requires FactList(s).Some? && !IsSpace(s[|s| - 1])
    ensures FactList(s + w) == Some(FactList(s).value + w)
  {
    hide Locate;
    LocateExtends(s, w, KEY_FACTS, false, true);
  }

  /** Among the lines of facts alone, a list is found only behind a fact that ends in the heading. */
  lemma {:induction false} HeadedLines(facts: seq<string>)
    requires facts != [] && forall f | f in facts :: PlainFact(f)
    ensures FactsOfTruth(RStrip(FactLines(facts))) == BehindHeading(facts)
  {
    hide PlainFact, Bullets, TakeSection, HasMarkerLine, RStrip, FactLines, FactList, FactsOfTruth, ReadFacts,
      EndsInHeading;
    FactsOfList(RStrip(FactLines(facts)));
    if |facts| == 1 {
      assert PlainFact(facts[0]);
      FactOnLine(facts[0]);
      FactLinesStep(facts);
      NoListOnLine(RStrip("- " + facts[0]));
    } else {
      var b := RStrip(FactLines(facts[1..]));
      ListInLines(facts);
      TrimmedLines(facts[1..]);
      FactsOfList(b);
      if EndsInHeading(RStrip("- " + facts[0])) {
        WholeSection(b);
      } else {
        HeadedLines(facts[1..]);
      }
    }
  }

  /** The list that is found from the first of several lines on. */
  lemma ListInLines(facts: seq<string>)
    requires |facts| > 1 && forall f | f in facts :: PlainFact(f)
    ensures var b := RStrip(FactLines(facts[1..]));
      FactList(RStrip(FactLines(facts))) == if EndsInHeading(RStrip("- " + facts[0])) then Some(b) else FactList(b)
  {
    hide PlainFact, Bullets, RStrip, FactLines, FactList, EndsInHeading, Gap, ReadFacts, HasMarkerLine, Blank, IsSpace;
    var line := "- " + facts[0];
    var s, b := RStrip(line), RStrip(FactLines(facts[1..]));
    assert PlainFact(facts[0]);
    FactOnLine(facts[0]);
    DashIsSolid(line);
    BlankStrip(line);
    NoListOnLine(s);
    FirstOfLines(facts);
    ListBehind(s, line[|s|..] + "\n", b);
  }

  /** The trimmed lines of several facts: the first, trimmed, a gap, and the others. */
  lemma FirstOfLines(facts: seq<string>)
    requires |facts| > 1 && forall f | f in facts :: PlainFact(f)
    ensures var line, b := "- " + facts[0], RStrip(FactLines(facts[1..]));
      && RStrip(FactLines(facts)) == RStrip(line) + ((line[|RStrip(line)|..] + "\n") + b)
      && Gap(line[|RStrip(line)|..] + "\n")
      && b != "" && b[0] == '-' && !Blank(b) && !IsSpace(b[|b| - 1])
  {
    hide PlainFact, Bullets, RStrip, FactLines, Gap, ReadFacts, HasMarkerLine, Blank, IsSpace;
    var line, rest := "- " + facts[0], FactLines(facts[1..]);
    FactLinesStep(facts);
    FactLinesStep(facts[1..]);
    TrimmedLines(facts[1..]);
    DashIsSolid(rest);
    LinesBehind(line, RStrip(line), rest);
    DashIsSolid(RStrip(rest));
  }

  lemma LinesBehind(line: string, s: string, rest: string)
    requires s == RStrip(line) && !Blank(rest)
    ensures RStrip(line + ("\n" + rest)) == s + ((line[|s|..] + "\n") + RStrip(rest))
    ensures Gap(line[|s|..] + "\n")
  {
    hide RStrip, Gap;
    var b := RStrip(rest);
    RStripPrepend(line + "\n", rest);
    Assoc(line, "\n", rest);
    assert line == s + line[|s|..];
    Assoc(s, line[|s|..], "\n");
    Assoc(s, line[|s|..] + "\n", b);
    BlankThenNewline(line[|s|..]);
  }

  lemma BlankThenNewline(w: string)
    requires Blank(w)
    ensures Gap(w + "\n")
  {
  }

  lemma NoListOnLine(s: string)
    requires '\n' !in s
    ensures FactList(s).None?
  {
    hide SkipBlank;
    NoHeadingOnLine(s, KEY_FACTS, true);
  }

  lemma {:induction false} NoHeadingOnLine(s: string, h: string, bol: bool)
    requires '\n' !in s
    ensures Locate(s, h, false, bol).None?
  {
    if h <= s { NoGapOnLine(s[|h|..]); }
    if s != "" { NoHeadingOnLine(s[1..], h, s[0] == '\n'); }
  }

  /**
   What is seen of merged facts, on every page and for any facts: all of them where the key facts are the
   truth's last subsection, or the truth was empty or ends in their heading; none where another subsection
   follows; and where the page has no key facts, only those behind a fact that brings the heading along.
   */
  lemma MergeIsSeen(content: string, facts: seq<string>)
    requires TwoZoned(content) && facts != [] && forall f | f in facts :: PlainFact(f)
    ensures ExtractKeyFacts(MergeFacts(content, facts))
      == ExtractKeyFacts(content) + SeenFacts(CompiledTruthOf(content), facts)
  {
    hide TwoZoned, CompiledTruthOf, MergeFacts, PlainFact, FactList, FactsOfTruth, RStrip, FactTruth, HasMarkerLine,
      Dangling, FactLines, Blank, TimelineOf, TimelineOpen, SplitFrontmatter, BehindHeading, ReadFacts, Closed;
    var truth := CompiledTruthOf(content);
    MergeKeeps(content, facts);
    TruthEnds(content);
    if Blank(truth) {
      FactTruthReadBack(facts);
      FactTruthTrimmed(facts);
      BlankHasNoList(truth);
      FactsOfList(truth);
      assert [] + ReadFacts(facts) == ReadFacts(facts);
    } else {
      MergedFacts(truth, facts);
      FactLinesStep(facts);
      DashIsSolid(FactLines(facts));
      RStripPrepend(truth + "\n", FactLines(facts));
      Assoc(truth, "\n", FactLines(facts));
      Assoc(truth, "\n", RStrip(FactLines(facts)));
    }
  }

  lemma FactTruthTrimmed(facts: seq<string>)
    requires forall f | f in facts :: PlainFact(f)
    ensures RStrip(FactTruth(facts)) == FactTruth(facts)
  {
    hide FactTruth, PlainFact, ZoneText;
    FactTruthIsText(facts);
    RStripUnique(FactTruth(facts), FactTruth(facts));
  }

  // ---- Closed key facts ----

  /** A merge under closed key facts shows nothing and leaves them closed. */
  lemma MergeKeepsClosed(content: string, facts: seq<string>)
    requires TwoZoned(content) && facts != [] && forall f | f in facts :: PlainFact(f)
    requires Closed(CompiledTruthOf(content))
    ensures var c := MergeFacts(content, facts);
      Closed(CompiledTruthOf(c)) && ExtractKeyFacts(c) == ExtractKeyFacts(content)
  {
    hide TwoZoned, CompiledTruthOf, MergeFacts, PlainFact, FactList, FactsOfTruth, RStrip, FactTruth, HasMarkerLine,
      Dangling, FactLines, Blank, TimelineOf, TimelineOpen, SplitFrontmatter, BehindHeading, ReadFacts;
    var truth := CompiledTruthOf(content);
    MergeIsSeen(content, facts);
    MergeKeeps(content, facts);
    TruthEnds(content);
    if Blank(truth) {
      BlankHasNoList(truth);
    } else {
      var list, lines := FactList(truth).value, FactLines(facts);
      FactLinesStep(facts);
      DashIsSolid(lines);
      RStripPrepend(truth + "\n", lines);
      Assoc(truth, "\n", lines);
      Assoc(truth, "\n", RStrip(lines));
      ListExtends(truth, "\n" + RStrip(lines));
      MarkerInPrefix(list, list + ("\n" + RStrip(lines)), SUBSECTION, true);
    }
    assert ExtractKeyFacts(content) + [] == ExtractKeyFacts(content);
  }
}
