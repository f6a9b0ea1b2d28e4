/** The Timeline as an append-only log: what one append or one rewrite does to the parsed entries. */
module TimelineLog {
  import opened Text
  import opened Patterns
  import opened CompiledTruth
  import opened TimelineText
  import opened PageShape
  import opened PageEdits
  import opened PageRecognition
  import opened ZoneLens

  lemma ParsedShape(p: Shape)
    requires p.Valid()
    ensures TimelineOf(p.Content()) == Entries(p.Zone(false))
    ensures CompiledTruthOf(p.Content()) == RStrip(p.Zone(true))
    ensures SplitFrontmatter(p.Content()).before == p.front
  {
    hide Shape.Valid, Shape.Content, Shape.Zone, ExtractZone, StripFrontmatter, Entries, RStrip, SplitFrontmatter,
      Shape.Body;
    ParsedZone(p, true);
    ParsedZone(p, false);
    EntriesTrim(p.Zone(false));
    FrontView(p);
  }

  lemma EntriesUnblanked(n: string)
    ensures Entries(Unblanked(n)) == Entries(n)
  {
    hide Entries, BlankStart, Unblanked;
    UnblankedParts(n);
    var b := BlankStart(n);
    if b != "" {
      assert b[..|b| - 1] + ['\n'] + Unblanked(n) == n;
      EntriesJoin(b[..|b| - 1], Unblanked(n));
      EntriesBlank(b[..|b| - 1]);
    } else {
      assert b + Unblanked(n) == Unblanked(n);
    }
  }

  /** Rewriting with clean text keeps the page two-zoned, its Timeline, and its frontmatter. */
  lemma RewriteKeeps(content: string, t: string)
    requires TwoZoned(content) && Clean(t)
    ensures var c := RewriteCompiledTruth(content, t);
      && TwoZoned(c)
      && (TimelineOpen(c) <==> TimelineOpen(content))
      && TimelineOf(c) == TimelineOf(content)
      && SplitFrontmatter(c).before == SplitFrontmatter(content).before
  {
    hide TwoZoned, TimelineOpen, Shape.Valid, Shape.Open, Shape.Content, Shape.Zone, Shape.WithZone,
      RewriteCompiledTruth, TimelineOf, Entries, RewrittenZone, SplitFrontmatter, Unblanked;
    var p := Recognize(content);
    var q := p.WithZone(true, RewrittenZone(t));
    RewriteOnPage(p, t);
    ShapeIsTwoZoned(q);
    WithZoneParts(p, true, RewrittenZone(t));
    ParsedShape(p);
    ParsedShape(q);
  }

  /** On an open page an append adds its entries after all others, and keeps the rest of the page. */
  lemma AppendGrows(content: string, e: string)
    requires WellFormed(content) && Clean(e)
    ensures var c := AppendTimelineEntry(content, e);
      && WellFormed(c)
      && TimelineOf(c) == TimelineOf(content) + Entries(e)
      && CompiledTruthOf(c) == CompiledTruthOf(content)
      && SplitFrontmatter(c).before == SplitFrontmatter(content).before
  {
    hide TwoZoned, TimelineOpen, Shape.Valid, Shape.Open, Shape.Content, Shape.Zone, Shape.WithZone, Shape.AfterZone,
      AppendTimelineEntry, TimelineOf, CompiledTruthOf, Entries, AppendedZone, SplitFrontmatter, Unblanked, RStrip;
    var p := Recognize(content);
    var n := AppendedZone(p.Zone(false), p.AfterZone(false), e);
    var q := p.WithZone(false, n);
    AppendOnPage(p, e);
    ShapeIsTwoZoned(q);
    WithZoneParts(p, false, n);
    ParsedShape(p);
    ParsedShape(q);
    EntriesUnblanked(n);
    AppendedEntries(p.Zone(false), p.AfterZone(false), e);
  }

  // ---- A Timeline heading that another section follows at once ----

  lemma BodyOfSection(x: string)
    requires SECTION <= x
    ensures SECTION <= TakeBody(x, SECTION).before
  {
    assert x[1..][1..] == x[2..] && x[2..][1..] == x[3..];
    assert x[0] == '#' && x[1..][0] == '#' && x[2..][0] == ' ';
    var b := TakeBody(x, SECTION).before;
    var b1 := TakeBody(x[1..], SECTION).before;
    var b2 := TakeBody(x[2..], SECTION).before;
    assert b == [x[0]] + b1;
    assert b1 == [x[1]] + b2;
    assert b2 == [x[2]] + TakeBody(x[3..], SECTION).before;
  }

  lemma TrimmedSection(b: string)
    requires SECTION <= b
    ensures SECTION <= RStripNewlines(b)
  {
    var r := RStripNewlines(b);
    assert b[2] == ' ';
  }

  lemma MisplacedText(p: Shape, e: string) returns (y: string)
    requires p.Valid() && !p.Open()
    ensures SECTION <= y && AppendTimelineEntry(p.Content(), e) == p.BeforeZone(false) + y
  {
    hide Locate, TakeBody, Contains, Shape.Content, Shape.BeforeZone, RStripNewlines, Before,
      Shape.Rest1, ZoneText, Settled, Gap, TimelineOpen, TwoZoned, Shape.Zone, Shape.AfterZone, Shape.Valid, Shape.Open;
    var x, line := p.Zone(false) + p.AfterZone(false), RStripNewlines(e);
    ZoneViewByName(p, false);
    ShapeOpen(p);
    LocateContains(p.Content(), TIMELINE_HEADING, false, true);
    BodyOfSection(x);
    var body := TakeBody(x, SECTION);
    TrimmedSection(body.before);
    y := WithEntry(body.before, line) + body.after;
    Assoc(p.BeforeZone(false), WithEntry(body.before, line), body.after);
  }

  /** There the entry lands in the other section, and the Timeline stays empty. */
  lemma AppendMisplaced(content: string, e: string)
    requires TwoZoned(content) && !TimelineOpen(content)
    ensures TimelineOf(AppendTimelineEntry(content, e)) == []
    ensures TimelineOf(content) == []
  {
    hide TwoZoned, TimelineOpen, Shape.Valid, Shape.Content, Shape.BeforeZone,
      AppendTimelineEntry, Entries, SplitFrontmatter, Locate, SkipBlank, RStrip;
    var p := Recognize(content);
    var y := MisplacedText(p, e);
    ContinuedView(p, false, y);
    SectionIsSolid(y);
    EntriesBlank("");
    EmptyZone(p);
    ParsedShape(p);
    assert RStrip("") == "";
  }

  lemma SectionIsSolid(y: string)
    requires SECTION <= y
    ensures Unblanked(y) == y && TakeSection(y, SECTION, true).before == ""
  {
    assert y[0] == SECTION[0];
  }

  lemma EmptyZone(p: Shape)
    requires p.Valid() && !p.Open()
    ensures p.Zone(false) == ""
  {
    hide ZoneText, Settled, Gap, Lacks;
  }

  /**
   Appending clean text adds exactly its entries to the Timeline if and only if the Timeline has text
   or no section follows it directly (or there is nothing to add).
   */
  lemma AppendExact(content: string, e: string)
    requires TwoZoned(content) && Clean(e)
    ensures TimelineOf(AppendTimelineEntry(content, e)) == TimelineOf(content) + Entries(e)
      <==> TimelineOpen(content) || Entries(e) == []
  {
    hide TwoZoned, TimelineOpen, AppendTimelineEntry, TimelineOf, CompiledTruthOf, Entries, SplitFrontmatter;
    if TimelineOpen(content) {
      AppendGrows(content, e);
    } else {
      AppendMisplaced(content, e);
    }
  }

  // ---- What an append leaves of the text ----

  predicate Newlines(w: string) {
    forall i | 0 <= i < |w| :: w[i] == '\n'
  }

  /** What an append writes between the text that it keeps and the text that follows the Timeline. */
  function AddedText(zone: string, e: string, after: string): string {
    (if zone == "" then "" else "\n") + "\n" + RStripNewlines(e) + if after == "" then "" else "\n"
  }

  lemma KeptZone(z: string)
    requires SkipBlank(z).None?
    ensures RStripNewlines(z) == "" <==> z == ""
  {
    if z != "" && RStripNewlines(z) == "" {
      LineOfBlanksIsGap(z);
    }
  }

  lemma AppendedZoneText(z: string, after: string, e: string)
    requires SkipBlank(z).None?
    ensures AppendedZone(z, after, e) == RStripNewlines(z) + AddedText(z, e, after)
  {
    hide RStripNewlines, SkipBlank;
    KeptZone(z);
    var k, line, sep := RStripNewlines(z), RStripNewlines(e), if z == "" then "" else "\n";
    Assoc(k, sep, "\n");
    Assoc(k, sep + "\n", line);
    Assoc(k, sep + "\n" + line, if after == "" then "" else "\n");
  }

  /**
   An append drops nothing but newlines at the end of the Timeline, all of them, and inserts the entry
   there; every other character keeps its place.
   */
  lemma AppendIsLocal(content: string, e: string) returns (kept: string, dropped: string)
    requires WellFormed(content)
    ensures content == kept + (dropped + BehindTimeline(content)) && SectionOrEnd(BehindTimeline(content))
    ensures Newlines(dropped) && TimelineZone(content) == RStripNewlines(TimelineZone(content)) + dropped
    ensures AppendTimelineEntry(content, e)
      == kept + (AddedText(TimelineZone(content), e, BehindTimeline(content)) + BehindTimeline(content))
  {
    hide TwoZoned, TimelineOpen, Shape.Valid, Shape.Open, Shape.Content, Shape.Zone, Shape.AfterZone, Shape.BeforeZone,
      Shape.WithZone, AppendTimelineEntry, RStripNewlines, Locate, TakeSection, SplitFrontmatter, SkipBlank,
      HasMarkerLine, AppendedZone, Shape.Body, Lacks, AddedText;
    var p := Recognize(content);
    var z, after := p.Zone(false), p.AfterZone(false);
    var k, added := RStripNewlines(z), AddedText(z, e, after);
    kept, dropped := p.BeforeZone(false) + k, z[|k|..];
    ZoneSplit(p, false);
    FrontView(p);
    ZoneViewByName(p, false);
    AfterZoneIsSection(p, false);
    ZoneIsText(p, false);
    AppendText(p, e);
    WithZoneContent(p, false, AppendedZone(z, after, e));
    AppendedZoneText(z, after, e);
    assert k + dropped == z;
    Assoc(p.BeforeZone(false), k, dropped + after);
    Assoc(k, dropped, after);
    Assoc(p.BeforeZone(false), k, added + after);
    Assoc(k, added, after);
  }

  /** Some text was inserted into `s`, and nothing else was done to it. */
  predicate Inserted(s: string, result: string) {
    |s| <= |result| && exists k | 0 <= k <= |s| :: s[..k] <= result && s[k..] == result[|result| - (|s| - k)..]
  }

  predicate EndsWith(s: string, t: string) {
    |t| <= |s| && s[|s| - |t|..] == t
  }

  /**
   An appended line leaves the existing text in place, only inserted into, if and only if the Timeline is
   empty or ends in few newlines: at most two where it is the last section, at most three elsewhere.  In a
   last section the text is then a prefix of the new one.
   */
  lemma AppendPreserves(content: string, e: string)
    requires WellFormed(content) && RStripNewlines(e) != "" && RStripNewlines(e)[0] != '\n'
    ensures Inserted(content, AppendTimelineEntry(content, e))
      <==> !EndsWith(TimelineZone(content), if BehindTimeline(content) == "" then "\n\n\n" else "\n\n\n\n")
    ensures BehindTimeline(content) == "" ==>
      (content <= AppendTimelineEntry(content, e) <==> !EndsWith(TimelineZone(content), "\n\n\n"))
  {
    hide WellFormed, AppendTimelineEntry, RStripNewlines, AddedText, TimelineZone, BehindTimeline, EndsWith, Inserted;
    var zone, after := TimelineZone(content), BehindTimeline(content);
    var kept, dropped := AppendIsLocal(content, e);
    var added := AddedText(zone, e, after);
    AddedShape(zone, e, after);
    ZoneOfWellFormed(content);
    KeptZone(zone);
    TrailingNewlines(RStripNewlines(zone), dropped);
    if zone == "" {
      PlainInsertion(kept, dropped, added, after);
    } else {
      InsertedIff(kept, dropped, added, after);
    }
    if after == "" {
      PrefixPart(kept, dropped, added);
      assert dropped + after == dropped && added + after == added;
      NewlinePrefix(dropped, added);
    }
  }

  lemma PrefixPart(a: string, b: string, c: string)
    ensures a + b <= a + c <==> b <= c
  {
    if a + b <= a + c {
      assert b == (a + b)[|a|..] && c == (a + c)[|a|..];
    }
  }

  lemma NewlinePrefix(w: string, a: string)
    requires Newlines(w) && (w == "" || (|a| > 2 && a[0] == '\n' && a[1] == '\n' && a[2] != '\n'))
    ensures w <= a <==> |w| <= 2
  {
    assert |w| > 2 ==> w[2] == '\n';
  }

  lemma ZoneOfWellFormed(content: string)
    requires WellFormed(content)
    ensures SkipBlank(TimelineZone(content)).None?
  {
    hide TwoZoned, TimelineOpen, Shape.Valid, Shape.Open, Shape.Content, Shape.Zone, Shape.AfterZone,
      Shape.BeforeZone, Locate, TakeSection, SplitFrontmatter, SkipBlank, HasMarkerLine, Shape.Body, Lacks;
    var p := Recognize(content);
    FrontView(p);
    ZoneViewByName(p, false);
    ZoneIsText(p, false);
  }

  /** Added text: two newlines and the line, or one in an empty Timeline, and a newline where a section follows. */
  lemma AddedShape(z: string, e: string, after: string)
    requires RStripNewlines(e) != "" && RStripNewlines(e)[0] != '\n'
    ensures var a := AddedText(z, e, after);
      && |a| > 1 && a[0] == '\n'
      && (z == "" ==> a[1] != '\n')
      && (z != "" ==> |a| > 2 && a[1] == '\n' && a[2] != '\n')
      && (after == "" ==> a[|a| - 1] != '\n')
      && (z != "" && after != "" ==> |a| > 3 && a[|a| - 1] == '\n' && a[|a| - 2] != '\n')
  {
  }

  lemma PlainInsertion(kept: string, w: string, a: string, after: string)
    requires w <= a
    ensures Inserted(kept + (w + after), kept + (a + after))
  {
    var s, r, k := kept + (w + after), kept + (a + after), |kept| + |w|;
    assert s[..k] == kept + w && r[..k] == kept + w;
    assert s[k..] == after == r[|r| - |after|..];
  }

  /** Newlines replaced by text that starts with two of them, and ends in one where something follows. */
  lemma InsertedIff(kept: string, w: string, a: string, after: string)
    requires Newlines(w)
    requires |a| > 2 && a[0] == '\n' && a[1] == '\n' && a[2] != '\n'
    requires after == "" ==> a[|a| - 1] != '\n'
    requires after != "" ==> |a| > 3 && a[|a| - 1] == '\n' && a[|a| - 2] != '\n'
    ensures Inserted(kept + (w + after), kept + (a + after)) <==> |w| <= if after == "" then 2 else 3
  {
    var s, r := kept + (w + after), kept + (a + after);
    if |w| <= 2 {
      PlainInsertion(kept, w, a, after);
    } else if |w| == 3 && after != "" {
      var k := |kept| + 2;
      assert s[..k] == kept + w[..2] && r[..k] == kept + a[..2] && w[..2] == a[..2];
      assert s[k..] == w[2..] + after && r[|r| - (|s| - k)..] == a[|a| - 1..] + after;
      assert w[2..] == "\n" == a[|a| - 1..];
    } else if Inserted(s, r) {
      var k :| 0 <= k <= |s| && s[..k] <= r && s[k..] == r[|r| - (|s| - k)..];
      NotInserted(kept, w, a, after, k);
    }
  }

  lemma NotInserted(kept: string, w: string, a: string, after: string, k: nat)
    requires Newlines(w) && |w| > (if after == "" then 2 else 3)
    requires |a| > 2 && a[2] != '\n' && (after == "" ==> a[|a| - 1] != '\n')
    requires after != "" ==> a[|a| - 2] != '\n'
    requires var s, r := kept + (w + after), kept + (a + after); |s| <= |r| && k <= |s|
    ensures var s, r := kept + (w + after), kept + (a + after); !(s[..k] <= r && s[k..] == r[|r| - (|s| - k)..])
  {
    var s, r := kept + (w + after), kept + (a + after);
    if k > |kept| + 2 {
      var i := |kept| + 2;
      assert s[..k][i] == w[2] == '\n' && r[i] == a[2];
    } else {
      var j := if after == "" then 1 else 2;
      var i := |kept| + |w| - j;
      assert s[k..][i - k] == s[i] == w[|w| - j] == '\n';
      assert r[|r| - (|s| - k)..][i - k] == r[|r| - |s| + i] == a[|a| - j];
    }
  }

  lemma TrailingNewlines(k: string, w: string)
    requires Newlines(w) && !EndsWithNewline(k) && (k == "" ==> w == "")
    ensures EndsWith(k + w, "\n\n\n") <==> |w| > 2
    ensures EndsWith(k + w, "\n\n\n\n") <==> |w| > 3
  {
    NewlinesAtEnd(k, w, "\n\n\n");
    NewlinesAtEnd(k, w, "\n\n\n\n");
  }

  lemma NewlinesAtEnd(k: string, w: string, n: string)
    requires Newlines(w) && Newlines(n) && !EndsWithNewline(k) && (k == "" ==> w == "") && n != ""
    ensures EndsWith(k + w, n) <==> |w| >= |n|
  {
    var s := k + w;
    if |w| >= |n| {
      assert s[|s| - |n|..] == w[|w| - |n|..] == n;
    } else if |n| <= |s| {
      assert s[|s| - |n|..][|n| - |w| - 1] == s[|k| - 1] == k[|k| - 1];
    }
  }
}
