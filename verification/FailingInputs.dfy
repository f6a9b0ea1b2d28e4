/** Inputs on which the code does not do what its documentation says of it. */
module FailingInputs {
  import opened Text
  import opened Patterns
  import opened CompiledTruth
  import opened PageShape
  import opened PageRecognition
  import opened TimelineLog
  import opened TimelineText
  import opened PageEdits
  import opened ZoneLens
  import opened ZoneScope
  import opened ZoneCreation
  import opened HeadingSearch
  import opened Fallbacks
  import opened Revision
  import opened Calendar
  import opened SortedText
  import opened Evidence
  import opened EntityPages
  import opened FactLists
  import opened FactMerge
  import opened SourceMarkers
  import opened EntityUpdates
  import GatewayConfig
  import Catalog

  // ---- Appending ----

  /** An empty Timeline right before another section. */
  const EMPTY_TIMELINE: string :=
    TRUTH_HEADING + ("\n\n" + "Likes tea.\n\n") + (TIMELINE_HEADING + ("\n\n" + "## Notes\n"))

  const ENTRY: string := "- 2024-01-01: Likes tea. [Source: chat]"

  lemma {:induction false} NoHashNoSection(s: string, bol: bool)
    requires '#' !in s
    ensures !HasMarkerLine(s, SECTION, bol)
    decreases |s|
  {
    if s != "" { NoHashNoSection(s[1..], s[0] == '\n'); }
  }

  lemma EmptyTimelineShape() returns (p: Shape)
    ensures p.Valid() && !p.Open() && p.Content() == EMPTY_TIMELINE
  {
    hide Count, HasMarkerLine, Lacks, SkipBlank, Gap;
    p := TeaShape("", "## Notes\n");
    TeaZone();
    LacksNoHash("");
    NoHashNoSection("", true);
    NotesLack();
    assert ("" + TRUTH_HEADING)[0] == '#' && SECTION <= "## Notes\n" && Ended("");
    TeaText("", "## Notes\n");
    assert "" + "## Notes\n" == "## Notes\n";
  }

  /** A page with a truth of one line, and the given Timeline and rest. */
  function TeaShape(timeline: string, tail: string): Shape {
    Shape("", "", true, "\n\n", "Likes tea.\n\n", "", "\n\n", timeline, tail)
  }

  lemma TeaZone()
    ensures ZoneText("Likes tea.\n\n") && Ended("Likes tea.\n\n") && Gap("\n\n") && SkipBlank("").None?
  {
    hide Count, HasMarkerLine, Lacks;
    LacksNoHash("Likes tea.\n\n");
    NoHashNoSection("Likes tea.\n\n", true);
    SolidStart("Likes tea.\n\n");
  }

  lemma NotesLack()
    ensures Lacks("## Notes\n")
  {
    hide Count, Lacks;
    LacksNoHash(" Notes\n");
    LacksAfterHash(" Notes\n");
    var s := "# Notes\n";
    assert "#" + " Notes\n" == s;
    LacksBehind("#" + s) by { assert ("#" + s)[1..] == s && ("#" + s)[3] == 'N'; }
    assert "#" + s == "## Notes\n";
  }

  lemma TeaText(timeline: string, tail: string)
    ensures TeaShape(timeline, tail).Content()
      == TRUTH_HEADING + ("\n\n" + "Likes tea.\n\n") + (TIMELINE_HEADING + ("\n\n" + (timeline + tail)))
  {
    var p, rest := TeaShape(timeline, tail), TIMELINE_HEADING + ("\n\n" + (timeline + tail));
    Assoc("\n\n", "Likes tea.\n\n", rest);
    Assoc(TRUTH_HEADING, "\n\n" + "Likes tea.\n\n", rest);
    assert p.Content() == p.Body() == p.Section1();
  }

  /** The entry is a good one, the page has both zones, and the entry does not show in its Timeline. */
  lemma MisplacedEntry()
    ensures TwoZoned(EMPTY_TIMELINE) && Entries(ENTRY) != []
    ensures TimelineOf(AppendTimelineEntry(EMPTY_TIMELINE, ENTRY)) == []
  {
    hide TwoZoned, TimelineOpen, Shape.Valid, Shape.Open, Shape.Content, AppendTimelineEntry, TimelineOf, Entries,
      ParseEntry, OneLine;
    var p := EmptyTimelineShape();
    ShapeIsTwoZoned(p);
    AppendMisplaced(EMPTY_TIMELINE, ENTRY);
    EntryIsOneLine();
    StripSolid(ENTRY);
    EntriesOfLine(ENTRY);
  }

  lemma EntryIsOneLine()
    ensures OneLine(ENTRY) && BULLET <= ENTRY
  {
    hide OneLine;
    PlainWord(ENTRY);
  }

  // ---- Dropping and losing text ----

  /** A well-formed page with one entry, and blank lines at its end. */
  const LOG_PAGE: string :=
    TRUTH_HEADING + ("\n\n" + "Likes tea.\n\n") + (TIMELINE_HEADING + ("\n\n" + (ENTRY + "\n\n\n")))

  lemma LogPageShape() returns (p: Shape)
    ensures p == TeaShape(ENTRY + "\n\n\n", "") && p.Valid() && p.Open() && p.Content() == LOG_PAGE
  {
    hide Count, HasMarkerLine, Lacks, SkipBlank, Gap;
    var zone := ENTRY + "\n\n\n";
    p := TeaShape(zone, "");
    TeaZone();
    LacksNoHash("");
    EntryIsTrimmed();
    NotInJoin(ENTRY, "\n\n\n", '#');
    LacksNoHash(zone);
    NoHashNoSection(zone, true);
    SolidStart(zone);
    assert ("" + TRUTH_HEADING)[0] == '#' && Ended("");
    TeaText(zone, "");
    assert zone + "" == zone;
  }

  lemma LogPageParts()
    ensures WellFormed(LOG_PAGE) && TruthFirst(LOG_PAGE) && AfterHeading(LOG_PAGE, false).Some?
    ensures TimelineZone(LOG_PAGE) == ENTRY + "\n\n\n" && BehindTimeline(LOG_PAGE) == ""
  {
    hide Shape.Valid, Shape.Open, Shape.Content, Shape.Body, Shape.BeforeZone, TruthFirst, TwoZoned, TimelineOpen,
      Locate, TakeSection, SplitFrontmatter;
    var p := LogPageShape();
    ShapeIsTwoZoned(p);
    TruthFirstShape(p);
    FrontView(p);
    ZoneViewByName(p, false);
  }

  lemma EntryIsTrimmed()
    ensures RStripNewlines(ENTRY) == ENTRY && ENTRY != "" && ENTRY[0] != '\n' && !IsSpace(ENTRY[0]) && '#' !in ENTRY
  {
  }

  /** An append changes more of the page than to insert its line: a newline at the end of the Timeline is gone. */
  lemma DroppedNewline()
    ensures WellFormed(LOG_PAGE) && !Inserted(LOG_PAGE, AppendTimelineEntry(LOG_PAGE, ENTRY))
  {
    hide WellFormed, AppendTimelineEntry, TimelineZone, BehindTimeline, Inserted, EndsWith, RStripNewlines, TruthFirst;
    LogPageParts();
    EndsInText(ENTRY, "\n\n\n");
    EntryIsTrimmed();
    AppendPreserves(LOG_PAGE, ENTRY);
  }

  lemma EndsInText(s: string, t: string)
    ensures EndsWith(s + t, t)
  {
    assert (s + t)[|s + t| - |t|..] == t;
  }

  /** A rewrite by the Timeline's own heading empties the Timeline of every page whose truth comes first. */
  lemma TimelineIsLost(content: string)
    requires TwoZoned(content) && TruthFirst(content)
    ensures TimelineOf(RewriteCompiledTruth(content, TIMELINE_HEADING)) == []
  {
    hide TwoZoned, TimelineOpen, Shape.Valid, Shape.Open, Shape.Content, RewriteCompiledTruth, Locate,
      SplitFrontmatter, HeadingLike, Count, Shape.Rest1, Shape.Body, TruthFirst, TakeSection, Unblanked,
      RewrittenZone, Entries, RStrip, Gap;
    HeadingFacts();
    var p := Recognize(content);
    TruthFirstShape(p);
    var b, r, h := p.lead + (p.Heading1() + p.gap1), p.Rest1(), TIMELINE_HEADING + "\n\n";
    TruthFirstBody(p, TIMELINE_HEADING);
    NoTimelineBeforeTruth(p);
    AbsentIsNotLocated(b, TIMELINE_HEADING, true);
    HeadingRewritten();
    LocatePast(b, h + r, TIMELINE_HEADING, true);
    TimelineBehindTruth(p);
    assert "" + h + r == h + r;
    HeadingView("", TIMELINE_HEADING, "\n\n", r, true) by { NoMention(TIMELINE_HEADING); }
    SectionIsSolid(r);
    EntriesBlank("") by { EmptyIsBlank(); }
    EntriesTrim("");
  }

  lemma HeadingRewritten()
    ensures RewrittenZone(TIMELINE_HEADING) == TIMELINE_HEADING + "\n\n"
  {
    assert ['\n'] + "\n" == "\n\n";
    Assoc(TIMELINE_HEADING, ['\n'], "\n");
  }

  /** The page had an entry, and has none after the rewrite. */
  lemma LostTimeline()
    ensures WellFormed(LOG_PAGE) && TimelineOf(LOG_PAGE) == Entries(ENTRY) != []
    ensures TimelineOf(RewriteCompiledTruth(LOG_PAGE, TIMELINE_HEADING)) == []
  {
    hide TwoZoned, TimelineOpen, TruthFirst, TimelineOf, RewriteCompiledTruth, Entries, TimelineZone, BehindTimeline,
      OneLine, ParseEntry, AfterHeading;
    LogPageParts();
    TimelineIsLost(LOG_PAGE);
    ZoneEntries(LOG_PAGE);
    EntriesBeforeNewlines(ENTRY);
    EntryIsOneLine();
    StripSolid(ENTRY);
    EntriesOfLine(ENTRY);
  }

  lemma ZoneEntries(content: string)
    requires AfterHeading(content, false).Some?
    ensures TimelineOf(content) == Entries(TimelineZone(content))
  {
    hide Entries, Locate, SplitFrontmatter, TakeSection, RStrip;
    EntriesTrim(TimelineZone(content));
  }

  lemma EntriesBeforeNewlines(s: string)
    ensures Entries(s + "\n\n\n") == Entries(s)
  {
    hide Entries;
    EntriesLastNewline(s);
    EntriesLastNewline(s + ['\n']);
    EntriesLastNewline(s + ['\n'] + ['\n']);
    assert s + ['\n'] + ['\n'] + ['\n'] == s + "\n\n\n";
  }

  /** A truth that is a section is not read back. */
  lemma UnreadTruth()
    ensures WellFormed(LOG_PAGE) && CompiledTruthOf(RewriteCompiledTruth(LOG_PAGE, "## Notes")) != RStrip("## Notes")
  {
    hide TwoZoned, TimelineOpen, RewriteCompiledTruth, CompiledTruthOf, RStrip, TruthFirst, TimelineZone,
      BehindTimeline, Blank, HasMarkerLine, SkipBlank;
    LogPageParts();
    NotesIsSection();
    PutGet(LOG_PAGE, "## Notes");
  }

  lemma NotesIsSection()
    ensures HasMarkerLine("## Notes", SECTION, true) && !Blank("## Notes")
  {
    assert "## Notes"[0] == '#';
  }

  // ---- Headings that are none ----

  lemma {:induction false} NoHashNotLocated(s: string, h: string, anchored: bool, bol: bool)
    requires '#' !in s && h != "" && h[0] == '#'
    ensures Locate(s, h, anchored, bol).None?
    decreases |s|
  {
    if s != "" { NoHashNotLocated(s[1..], h, anchored, s[0] == '\n'); }
  }

  /** A heading at the start, with text or nothing behind it, is all that is mentioned. */
  lemma StartNotLocated(h: string, x: string, bol: bool)
    requires HeadingLike(h) && '#' !in x && SkipBlank(x).None?
    ensures Locate(h + x, h, false, bol).None?
  {
    hide SkipBlank, HeadingLike;
    var s := h + x;
    assert s[|h|..] == x;
    assert s != "" && s[1..] != "" by { BehindHash(h, x); }
    LocateStart(s, h, false, bol);
    LocateStart(s[1..], h, false, s[0] == '\n');
    BehindHash(h, x);
    NoHashNotLocated(s[1..][1..], h, false, s[1] == '\n');
  }

  lemma BehindHash(h: string, x: string)
    requires HeadingLike(h) && '#' !in x
    ensures var s := h + x;
      |s| > 1 && h[0] == '#' && !(h <= s[1..]) && '#' !in s[1..][1..]
  {
    var s := h + x;
    assert h[0] == SECTION[0] && h[1] == SECTION[1] && h[2] == SECTION[2];
    assert s[1..][1] == s[2] == h[2];
    assert s[1..][1..] == h[2..] + x;
    NotInJoin(h[2..], x, '#') by { assert forall i | 0 <= i < |h[2..]| :: h[2..][i] == h[i + 2]; }
  }

  const EVENTS: string := " of events"

  /**
   The page has a section "Timeline of events" and no Timeline.  An appended entry cuts that heading in
   two, and is read with the rest of the heading as part of it.
   */
  lemma GluedEntry()
    ensures var content := TIMELINE_HEADING + (EVENTS + "\n");
      && Contains(content, TIMELINE_HEADING)
      && AppendTimelineEntry(content, ENTRY) == TIMELINE_HEADING + ("\n\n" + (ENTRY + (EVENTS + "\n")))
      && TimelineOf(AppendTimelineEntry(content, ENTRY)) != Entries(ENTRY)
  {
    hide Entries, Locate, TakeSection, FirstLine, SplitFrontmatter, OneLine, Strip, TimelineOf, HeadingLike,
      AppendTimelineEntry, Contains, Before, Behind, OwnLine, Blank, RStripNewlines;
    HeadingFacts();
    var x := EVENTS + "\n";
    EventsNotBlank();
    StartNotLocated(TIMELINE_HEADING, x, true);
    StartsPage(TIMELINE_HEADING, x);
    EntryIsOneLine();
    StripSolid(ENTRY);
    EntryIsTrimmed();
    FallbackText(TIMELINE_HEADING + x, ENTRY, "", x);
    AppendFallback(TIMELINE_HEADING + x, ENTRY);
    LineSection(EVENTS, "\n");
    FirstLineContinues(EVENTS, TakeSection("\n", SECTION, false).before);
    SolidInside(EVENTS, FirstLine(TakeSection("\n", SECTION, false).before));
  }

  lemma EventsNotBlank()
    ensures OneLine(EVENTS) && '\n' !in EVENTS && !Blank(EVENTS) && '#' !in EVENTS + "\n"
      && SkipBlank(EVENTS + "\n").None?
  {
    assert EVENTS + "\n" == " of events\n" && !IsSpace(EVENTS[1]);
    assert (EVENTS + "\n")[1..] == "of events\n";
  }

  lemma SolidInside(a: string, b: string)
    requires !Blank(a)
    ensures !Blank(a + b)
  {
    var i :| 0 <= i < |a| && !IsSpace(a[i]);
    assert (a + b)[i] == a[i];
  }

  lemma StartsPage(h: string, x: string)
    requires HeadingLike(h)
    ensures var c := h + x;
      && SplitFrontmatter(c) == Cut("", c) && PlainFront(c)
      && Contains(c, h) && Before(c, h) == "" && Behind(c, h) == x
  {
    hide Count;
    LacksNoHash("");
    assert (h + x)[0] == SECTION[0] && (h + x)[0..] == h + x;
  }

  /** The page ends in its heading.  A truth is written behind a second one, and none is read. */
  lemma UnfinishedHeading()
    ensures CompiledTruthOf(RewriteCompiledTruth(TRUTH_HEADING, "Likes tea.")) != RStrip("Likes tea.")
    ensures RewriteCompiledTruth(TRUTH_HEADING, "Likes tea.")
      == TRUTH_HEADING + "\n" + "\n" + TRUTH_HEADING + "\n\n" + ("Likes tea." + "\n")
  {
    hide Locate, SplitFrontmatter, RStripNewlines, RStrip, Faithful, HeadingLike, CompiledTruthOf, RewriteCompiledTruth,
      Before, Behind, Contains;
    HeadingFacts();
    var h := TRUTH_HEADING;
    assert h + "" == h;
    NothingNotBlank();
    StartNotLocated(h, "", true);
    StartsPage(h, "");
    TruthMentionsNoTimeline();
    HeadingNotOpening(h);
    RewriteCreatesAnywhere(h, "Likes tea.");
    HeadingWithNewline(h);
    TeaNotBlank();
    CreatedAtEnd(h, "Likes tea.");
  }

  lemma NothingNotBlank()
    ensures SkipBlank("").None? && '#' !in ""
  {
  }

  lemma TruthMentionsNoTimeline()
    ensures !Contains(TRUTH_HEADING, TIMELINE_HEADING)
  {
    HeadingFacts();
    CountHeadingLine(TRUTH_HEADING, "", TIMELINE_HEADING);
    assert TRUTH_HEADING + "" == TRUTH_HEADING;
    ContainsIffCount(TRUTH_HEADING, TIMELINE_HEADING);
  }

  lemma HeadingNotOpening(h: string)
    requires HeadingLike(h) && SplitFrontmatter(h).before == ""
    ensures Extendable(h)
  {
    hide SplitFrontmatter;
    assert (h + "\n")[0] == SECTION[0];
  }

  lemma HeadingWithNewline(h: string)
    requires HeadingLike(h) && SplitFrontmatter(h) == Cut("", h)
    ensures Locate(StripFrontmatter(h) + "\n", h, true, true).Some?
  {
    hide SplitFrontmatter;
    var s := h + "\n";
    assert s[|h|..] == "\n" && "\n"[1..] == "";
    assert SkipBlank("\n") == Some("");
  }

  lemma TeaNotBlank()
    ensures !Blank("Likes tea.") && RStripNewlines("Likes tea.") == "Likes tea."
  {
    assert !IsSpace("Likes tea."[0]);
  }

  lemma CreatedAtEnd(content: string, t: string)
    requires Locate(content, TRUTH_HEADING, false, true).None? && !Contains(content, TIMELINE_HEADING)
    requires !EndsWithNewline(content) && RStripNewlines(t) == t
    ensures RewriteCompiledTruth(content, t) == content + "\n" + "\n" + TRUTH_HEADING + "\n\n" + (t + "\n")
  {
    hide Locate, Contains, RStripNewlines;
  }

  // ---- Revising a fact of two lines ----

  lemma NoSourceInLine(p: Line)
    requires '[' !in p
    ensures forall e | e in Entries(p) :: !e.hasSource
  {
    hide Strip, FindSource, IsDate;
    EntriesOfLine(p);
    if BULLET <= Strip(p) {
      NotInPart(p, Strip(p), '[') by { StripIsPart(p); }
      NoSourceWithoutBracket(Strip(p)[2..]);
      if |Strip(p)| > 14 { NoSourceWithoutBracket(Strip(p)[2..][12..]); }
    }
  }

  lemma StripIsPart(p: string)
    ensures exists k | 0 <= k <= |p| :: Strip(p) <= p[k..]
  {
    assert LStrip(p) == p[|p| - |LStrip(p)|..];
  }

  lemma NotInPart(p: string, s: string, c: char)
    requires c !in p && exists k | 0 <= k <= |p| :: s <= p[k..]
    ensures c !in s
  {
    var k :| 0 <= k <= |p| && s <= p[k..];
    assert forall i | 0 <= i < |s| :: s[i] == p[k + i];
  }

  lemma NoEntryInLine(q: Line)
    requires q != "" && !IsSpace(q[0]) && q[0] != '-'
    ensures Entries(q) == []
  {
    EntriesOfLine(q);
    assert LStrip(q) == q;
  }

  /** The two lines of a record whose quoted fact has a line break. */
  function FirstPart(today: string, a: string): string {
    "- " + today + ": belief revised: \"" + a
  }

  function SecondPart(b: string, newFact: string, attribution: string): string {
    b + "\" \U{2192} \"" + newFact + "\". [Source: " + attribution + "]"
  }

  lemma RevisionInTwo(today: string, a: string, b: string, newFact: string, attribution: string)
    ensures RevisionEntry(today, a + ['\n'] + b, newFact, attribution)
      == FirstPart(today, a) + ['\n'] + SecondPart(b, newFact, attribution)
  {
    var x := "- " + today + ": belief revised: \"";
    var p := x + a + ['\n'];
    Assoc(x, a, ['\n']);
    Assoc(x, a + ['\n'], b);
    Assoc(p, b, "\" \U{2192} \"");
    Assoc(p, b + "\" \U{2192} \"", newFact);
    Assoc(p, b + "\" \U{2192} \"" + newFact, "\". [Source: ");
    Assoc(p, b + "\" \U{2192} \"" + newFact + "\". [Source: ", attribution);
    Assoc(p, b + "\" \U{2192} \"" + newFact + "\". [Source: " + attribution, "]");
  }

  lemma FirstPartIsLine(today: string, a: string)
    requires OneLine(today) && OneLine(a) && '[' !in today && '[' !in a
    ensures OneLine(FirstPart(today, a)) && '[' !in FirstPart(today, a)
  {
    hide OneLine;
    FixedTextIsOneLine();
    OneLineConcat("- ", today);
    OneLineConcat("- " + today, ": belief revised: \"");
    OneLineConcat("- " + today + ": belief revised: \"", a);
    NotInJoin("- ", today, '[');
    NotInJoin("- " + today, ": belief revised: \"", '[');
    NotInJoin("- " + today + ": belief revised: \"", a, '[');
  }

  lemma SecondPartIsLine(b: string, newFact: string, attribution: string)
    requires OneLine(b) && OneLine(newFact) && OneLine(attribution) && b != ""
    ensures var q := SecondPart(b, newFact, attribution); OneLine(q) && q != "" && q[0] == b[0]
  {
    hide OneLine;
    FixedTextIsOneLine();
    var t := "\" \U{2192} \"";
    OneLineConcat("\". ", SOURCE_OPEN);
    assert "\". " + SOURCE_OPEN == "\". [Source: ";
    OneLineConcat(b, t);
    OneLineConcat(b + t, newFact);
    OneLineConcat(b + t + newFact, "\". [Source: ");
    OneLineConcat(b + t + newFact + "\". [Source: ", attribution);
    OneLineConcat(b + t + newFact + "\". [Source: " + attribution, "]");
  }

  /** A line break in the quoted fact parts the record from its source. */
  lemma BrokenRevision()
    ensures forall e | e in Entries(RevisionEntry(DAY, "tea" + ['\n'] + "or mate", "tea", "chat")) :: !e.hasSource
  {
    hide Entries, OneLine, RevisionEntry, FirstPart, SecondPart, IsSpace, Lacks;
    var p, q := FirstPart(DAY, "tea"), SecondPart("or mate", "tea", "chat");
    RevisionInTwo(DAY, "tea", "or mate", "tea", "chat");
    PlainTexts();
    FirstPartIsLine(DAY, "tea");
    SecondPartIsLine("or mate", "tea", "chat");
    EntriesJoin(p, q);
    NoSourceInLine(p);
    NoEntryInLine(q);
  }

  lemma PlainTexts()
    ensures OneLine(DAY) && OneLine("tea") && OneLine("or mate") && OneLine("chat")
    ensures '[' !in DAY && '[' !in "tea" && "or mate"[0] == 'o' && !IsSpace('o')
  {
    hide OneLine, Lacks;
    PlainWord("tea");
    PlainWord("or mate");
    PlainWord("chat");
    DayIsDate();
    DateIsOneLine(DAY);
    NotIn(DAY, '[');
    NotIn("tea", '[');
  }

  // ---- Ingesting again ----

  const DAY: string := "2024-02-29"
  const HIDING: IngestedSource := IngestedSource("src_1", "[Source: chat]")
  const ADA: EntityFinding := EntityFinding("Ada", Person, High, ["likes tea"])

  lemma {:induction false} FirstMarker(before: string, z: string)
    requires '[' !in before && SourceHere(z)
    ensures FindSource(before + z) == Some((before, UpToBracket(z[|SOURCE_OPEN|..]).value))
  {
    hide UpToBracket;
    if before == "" {
      assert before + z == z;
    } else {
      ConsAppend(before, z);
      assert (before + z)[0] == before[0] && SOURCE_OPEN[0] == '[';
      FirstMarker(before[1..], z);
      assert before == [before[0]] + before[1..];
    }
  }

  lemma HidingTitle()
    ensures !SelfCiting(HIDING)
  {
    hide FindSource, UpToBracket, Contains, SourceHere;
    var c, before, after := "chat", "Detected in source '", "'. ";
    MarkerIsSource(c);
    var z := Marker(c) + after;
    MarkerContinues(c, after);
    FirstMarker(before, z);
    assert Marker(c) == "[Source: chat]" by { MarkerIs(c); }
    assert Detected(HIDING.title) == before + z by { Assoc(before, Marker(c), after); }
    assert !Contains(c, HIDING.id) by { ShorterHolds(c, HIDING.id); }
  }

  lemma MarkerContinues(c: string, after: string)
    requires c != "" && ']' !in c
    ensures SourceHere(Marker(c) + after) && UpToBracket((Marker(c) + after)[|SOURCE_OPEN|..]) == Some(c)
  {
    hide UpToBracket;
    MarkerIsSource(c);
    var x := Marker(c)[|SOURCE_OPEN|..];
    UpToBracketAppend(x, after);
    assert (Marker(c) + after)[|SOURCE_OPEN|..] == x + after;
  }

  lemma {:induction false} ShorterHolds(s: string, h: string)
    requires |s| < |h|
    ensures !Contains(s, h)
  {
    if s != "" { ShorterHolds(s[1..], h); }
  }

  lemma AdaIsPlain()
    ensures PlainEntity(ADA) && PlainSource(HIDING) && IsDate(DAY)
  {
    hide Count, Lacks, OneLine;
    PlainWord("Ada");
    PlainWord("likes tea");
    PlainWord("[Source: chat]");
    PlainWord("src_1");
  }

  lemma PlainWord(s: string)
    requires forall i | 0 <= i < |s| :: ' ' <= s[i] <= '~' && s[i] != '#'
    ensures OneLine(s) && Lacks(s)
  {
    hide Lacks;
    LacksNoHash(s);
  }

  /** A source whose title carries a source marker is ingested a second time, and its line written again. */
  lemma IngestedTwice()
    ensures var first := Written(None, ADA, HIDING, DAY);
      && first.Some?
      && Written(first, ADA, HIDING, DAY).Some?
      && TimelineOf(Written(first, ADA, HIDING, DAY).value)
         == Entries(TimelineLine(HIDING, DAY)) + Entries(TimelineLine(HIDING, DAY))
      && |Entries(TimelineLine(HIDING, DAY))| == 1
  {
    hide SelfCiting, TimelineOf, TimelineLine, EntityPage, PlainEntity, IsDate, Cites, Entries, Updated, WellFormed,
      OneLine, Lacks, SourceRecord;
    AdaIsPlain();
    HidingTitle();
    var first := Written(None, ADA, HIDING, DAY);
    IngestLogsOnce(None, ADA, HIDING, DAY);
    ReingestChangesNothing(None, ADA, HIDING, DAY, [], ADA, DAY);
    NobodyElseCites(first.value);
    IngestLogsOnce(first, ADA, HIDING, DAY);
    LineIsOneEntry(HIDING, DAY);
    var x := SourceRecord(HIDING, DAY);
    assert [] + [x] + [x] == [x] + [x];
  }

  lemma NobodyElseCites(c: string)
    ensures After(c, []) == c && !Cites(TimelineOf(c)[|TimelineOf(c)|..], HIDING.id)
  {
  }

  // ---- The latest support ----

  const TEA: IngestedSource := IngestedSource("src_2", "likes tea")

  /** A page that an ingest created, and a line appended under a date that does not exist. */
  function UnrealPage(): string {
    AppendTimelineEntry(
      EntityPage(ADA, TEA.id, TimelineLine(TEA, DAY)), FormattedEntry("2024-02-30", "likes tea", "chat"))
  }

  lemma TeaIsPlain()
    ensures PlainEntity(ADA) && PlainSource(TEA) && IsDate(DAY)
  {
    hide Count, Lacks;
    AdaIsPlain();
    PlainWord("likes tea");
    PlainWord("src_2");
  }

  lemma UnrealLine()
    ensures var line := FormattedEntry("2024-02-30", "likes tea", "chat");
      Clean(line) && BULLET <= line && Entries(line) == [TimelineEntry(line, "2024-02-30", "likes tea", "chat", true)]
  {
    hide Entries, Lacks, HasMarkerLine, OneLine, OpensSource, Marker, FormattedEntry;
    var d, t, line := "2024-02-30", "likes tea", FormattedEntry("2024-02-30", "likes tea", "chat");
    PlainWord(t);
    PlainWord("chat");
    NoOpening(t + ". ");
    EntryReadBack(d, t, "chat");
    FormattedLine(d, t, "chat");
    UnrealText();
    LacksNoHash(line);
    assert SECTION[0] == '#' && line[0] == BULLET[0];
    NoMarkerInLine(line, true);
  }

  lemma UnrealText()
    ensures '#' !in FormattedEntry("2024-02-30", "likes tea", "chat")
  {
    hide Marker;
    var head, m := "- " + "2024-02-30" + ": ", Marker("chat");
    NotInJoin("- ", "2024-02-30", '#');
    NotInJoin("- " + "2024-02-30", ": ", '#');
    MarkerIs("chat");
    NotInJoin("chat", "]", '#');
    NotInJoin(SOURCE_OPEN, "chat" + "]", '#');
    NotInJoin(". ", m, '#');
    NotInJoin("likes tea", ". " + m, '#');
    NotInJoin(head, "likes tea" + (". " + m), '#');
    Assoc("likes tea", ". ", m);
  }

  lemma NotInJoin(a: string, b: string, c: char)
    requires c !in a && c !in b
    ensures c !in a + b
  {
  }

  lemma {:induction false} NoOpening(s: string)
    requires '[' !in s
    ensures !OpensSource(s)
  {
    assert SOURCE_OPEN[0] == '[';
    if s != "" { NoOpening(s[1..]); }
  }

  lemma TeaOpensNothing()
    ensures !OpensSource("Detected in source 'likes tea'" + ". ")
  {
    hide OpensSource;
    var d := "Detected in source 'likes tea'";
    assert '[' !in d && '[' !in ". ";
    NotInJoin(d, ". ", '[');
    NoOpening(d + ". ");
  }

  lemma TeaTitle()
    ensures Detected(TEA.title) == "Detected in source 'likes tea'" + ". "
  {
    assert "Detected in source '" + "likes tea" == "Detected in source 'likes tea";
    assert "'. " == "'" + ". " && "Detected in source 'likes tea" + "'" == "Detected in source 'likes tea'";
    Assoc("Detected in source 'likes tea", "'", ". ");
  }

  /** The line of the created page, read back. */
  lemma TeaLine()
    ensures PlainSource(TEA) && IsDate(DAY)
    ensures var e := SourceRecord(TEA, DAY); e.date == DAY && e.description == "Detected in source 'likes tea'"
  {
    hide OpensSource, IsDate, Detected, Citation, TimelineLine, SourceRecord, OneLine, Lacks;
    TeaIsPlain();
    TeaCitation();
    TeaTitle();
    TeaOpensNothing();
    LineReadBack(TEA, DAY, "Detected in source 'likes tea'");
  }

  lemma LineReadBack(source: IngestedSource, date: string, d: string)
    requires Detected(source.title) == d + ". " && d != "" && d[|d| - 1] == '\''
    requires !OpensSource(d + ". ") && IsDate(date) && PlainSource(source)
    requires Citation(source.id, date) != "" && ']' !in Citation(source.id, date)
    ensures SourceRecord(source, date).date == date && SourceRecord(source, date).description == d
  {
    hide OpensSource, IsDate, Detected, Citation, SourceRecord, OneLine, Lacks, Entries, FormattedEntry, TimelineLine;
    TimelineLineIsFormatted(source, date, d);
    LineIsOneEntry(source, date);
    FormattedLine(date, d, Citation(source.id, date));
    EntryReadBack(date, d, Citation(source.id, date));
  }

  lemma DayIsDate()
    ensures IsDate(DAY)
  {
  }

  lemma NotIn(s: string, c: char)
    requires forall i | 0 <= i < |s| :: s[i] != c
    ensures c !in s
  {
  }

  lemma TeaCitation()
    ensures Citation(TEA.id, DAY) != "" && ']' !in Citation(TEA.id, DAY)
  {
    hide IsDate, Citation;
    DayIsDate();
    NotIn("src_2", ']');
    CitationStarts(TEA.id, DAY);
  }

  /**
   On this page the latest real support, of the leap day, is hidden by the later line of a day that does not
   exist: at no time does the fact weaken, for every tokenizer under which both lines support it.
   */
  lemma UnrealDateHidesLatest(tok: Tokenizer, cfg: EvidenceConfig, now: real)
    requires Overlaps(tok("likes tea"), tok("Detected in source 'likes tea'"), cfg)
    requires Overlaps(tok("likes tea"), tok("likes tea"), cfg)
    ensures ExtractKeyFacts(UnrealPage()) == ["likes tea"]
    ensures RealDate(DAY) && StrLe(DAY, "2024-02-30")
    ensures var evidence := EvidenceOf(tok, cfg, now, "likes tea", TimelineOf(UnrealPage()), []);
      evidence.trend == Stable && evidence.supportingDates == [DAY, "2024-02-30"]
  {
    hide TimelineOf, TimelineLine, EntityPage, PlainEntity, IsDate, SourceRecord, WellFormed, FormattedEntry,
      AppendTimelineEntry, OneLine, Lacks, Clean, Entries, CompiledTruthOf, FactTruth, FactsOfTruth, RealDate, StrLe,
      SplitFrontmatter, SortStrings;
    var page := EntityPage(ADA, TEA.id, TimelineLine(TEA, DAY));
    var added := FormattedEntry("2024-02-30", "likes tea", "chat");
    TeaIsPlain();
    NewPageIsWellFormed(ADA, TEA, DAY);
    UnrealLine();
    AppendGrows(page, added);
    TeaLine();
    var a, b := SourceRecord(TEA, DAY), TimelineEntry(added, "2024-02-30", "likes tea", "chat", true);
    assert TimelineOf(UnrealPage()) == [a] + [b];
    SupportDatesConcat(tok, cfg, "likes tea", [a], [b]);
    OneSupport(tok, cfg, a);
    OneSupport(tok, cfg, b);
    LeapDay();
    DifferAt(DAY, "2024-02-30", 8);
    SortedPair(DAY, "2024-02-30");
    UnrealTrend(cfg, now);
    TeaFacts();
  }

  lemma OneSupport(tok: Tokenizer, cfg: EvidenceConfig, e: TimelineEntry)
    requires Supports(tok, cfg, "likes tea", e)
    ensures SupportDates(tok, cfg, "likes tea", [e]) == [e.date]
  {
    assert SupportDates(tok, cfg, "likes tea", []) == [];
  }

  lemma SortedPair(a: string, b: string)
    requires StrLe(a, b)
    ensures SortStrings([a] + [b]) == [a, b]
  {
    hide StrLe;
    assert [a] + [b] == [a, b] && [a, b][1..] == [b] && [b][1..] == [];
    assert SortStrings([b]) == [b];
  }

  lemma UnrealTrend(cfg: EvidenceConfig, now: real)
    requires !RealDate("2024-02-30")
    ensures DeriveTrend([DAY, "2024-02-30"], cfg, now) == Stable
  {
    hide RealDate;
  }

  lemma TeaFacts()
    ensures FactsOfTruth(FactTruth(ListedFacts(ADA.keyFacts))) == ["likes tea"]
  {
    hide FactTruth, FactsOfTruth, PlainFact, ReadFacts, IsDate, PlainSource;
    TeaIsPlain();
    assert ListedFacts(ADA.keyFacts) == ADA.keyFacts == ["likes tea"];
    FactTruthReadBack(ADA.keyFacts);
    TeaIsTrimmed();
  }

  lemma TeaIsTrimmed()
    ensures ReadFacts(["likes tea"]) == ["likes tea"]
  {
    hide ReadFacts;
    TrimmedFacts(["likes tea"]);
  }

  // ---- The catalog ----

  /** A provider lists `fast`, an alias of `mid`, which is itself an alias of the configured model `big`. */
  const SHADOWING: GatewayConfig.Config := GatewayConfig.Config(
    [GatewayConfig.Provider("p", ["fast"], 0.0)], [GatewayConfig.ModelConfig("big", "vendor", "")],
    map["fast" := "mid", "mid" := "big"], GatewayConfig.Failover, map[], 0.5)

  /** The catalog lists the configured model twice. */
  lemma ListedTwice(entries: seq<Catalog.Entry>)
    requires Catalog.IsCatalog(SHADOWING, entries)
    ensures !GatewayConfig.Distinct(Catalog.Ids(entries))
  {
    var p := SHADOWING.providers[0];
    assert p in SHADOWING.providers && "fast" in p.models && GatewayConfig.ResolveAlias(SHADOWING, "fast") == "mid";
    assert Catalog.Served(SHADOWING, "mid");
    assert Catalog.IsConfigured(SHADOWING, "big") && GatewayConfig.ResolveAlias(SHADOWING, "mid") == "big";
    assert !Catalog.IsConfigured(SHADOWING, "mid");
    hide Catalog.IsCatalog, Catalog.Served;
    Catalog.CatalogIsDistinct(SHADOWING, entries);
  }

  /** The configured model `old` is also an alias of `new`, which a provider serves. */
  const RENAMED: GatewayConfig.Config := GatewayConfig.Config(
    [GatewayConfig.Provider("p", ["new"], 0.0)], [GatewayConfig.ModelConfig("old", "vendor", "")],
    map["old" := "new"], GatewayConfig.Failover, map[], 0.5)

  /** The entry of `old` shows no provider; the router finds one for it. */
  lemma KeysDisagree(entries: seq<Catalog.Entry>)
    requires Catalog.IsCatalog(RENAMED, entries)
    ensures Catalog.ListsCanonical(RENAMED) && |entries| > 0 && Catalog.IdOf(entries[0].about) == "old"
    ensures entries[0].providerKeys != GatewayConfig.ProvidersForModel(RENAMED, "old")
  {
    assert |RENAMED.models| == 1 && RENAMED.providers[0] in RENAMED.providers;
    assert GatewayConfig.ResolveAlias(RENAMED, "old") == "new";
    assert Catalog.ListsCanonical(RENAMED);
    Catalog.KeysAgree(RENAMED, entries, 0);
  }
}
