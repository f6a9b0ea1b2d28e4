/** What the two text mutators do to the pieces of a page. */
module PageEdits {
  import opened Text
  import opened Patterns
  import opened CompiledTruth
  import opened PageShape
  import opened TimelineText

  /** The text that a rewrite leaves after the Compiled Truth heading. */
  function RewrittenZone(truth: string): string {
    RStripNewlines(truth) + ['\n'] + "\n"
  }

  /** The text that an append leaves after the Timeline heading. */
  function AppendedZone(zone: string, after: string, entry: string): string {
    WithEntry(zone, RStripNewlines(entry)) + if after == "" then "" else "\n"
  }

  lemma {:induction false} LocateContains(s: string, h: string, anchored: bool, bol: bool)
    requires Locate(s, h, anchored, bol).Some?
    ensures Contains(s, h)
    decreases |s|
  {
    hide SkipBlank;
    if !HeadingHere(s, h, anchored, bol) {
      LocateContains(s[1..], h, anchored, s[0] == '\n');
    }
  }

  lemma RewrittenZoneClean(t: string)
    requires Clean(t)
    ensures Clean(RewrittenZone(t)) && Ended(RewrittenZone(t))
  {
    hide Clean;
    var r := RStripNewlines(t);
    CleanTrim(t);
    CleanEmpty();
    CleanJoin("", "");
    CleanJoin(r, "\n");
    assert "" + ['\n'] + "" == "\n";
  }

  /** A rewrite replaces the Compiled Truth zone and keeps everything around it. */
  lemma RewriteOnPage(p: Shape, t: string)
    requires p.Valid() && Clean(t)
    ensures RewriteCompiledTruth(p.Content(), t) == p.WithZone(true, RewrittenZone(t)).Content()
    ensures p.WithZone(true, RewrittenZone(t)).Valid()
    ensures p.WithZone(true, RewrittenZone(t)).Open() <==> p.Open()
  {
    hide Clean, Locate, TakeSection, Contains, ZoneText, Lacks, Settled, Gap, BlankStart, Unblanked;
    hide Shape.Valid;
    var n := RewrittenZone(t);
    RewrittenZoneClean(t);
    WithZoneValid(p, true, n);
    RewriteText(p, t);
  }

  lemma RewriteText(p: Shape, t: string)
    requires p.Valid()
    ensures RewriteCompiledTruth(p.Content(), t) == p.WithZone(true, RewrittenZone(t)).Content()
  {
    hide Locate, TakeSection, Contains, Shape.Valid, Shape.Content, Shape.BeforeZone, Shape.AfterZone,
      Shape.Zone, Shape.WithZone, RStripNewlines, Before;
    var content, after := p.Content(), p.AfterZone(true);
    ZoneViewByName(p, true);
    LocateContains(content, TRUTH_HEADING, false, true);
    WithZoneContent(p, true, RewrittenZone(t));
    var body := RStripNewlines(t) + ['\n'];
    Assoc(p.BeforeZone(true) + body, "\n", after);
    Assoc(p.BeforeZone(true), body, "\n");
    Assoc(p.BeforeZone(true), body + "\n", after);
  }

  // ---- Appending ----

  lemma MarkerWithoutStart(s: string, marker: string)
    requires marker != "" && !HasMarkerLine(s, marker, true)
    ensures !HasMarkerLine(s, marker, false)
  {
    if s != "" {
      assert !HasMarkerLine(s[1..], marker, s[0] == '\n');
    }
  }

  lemma AppendedZoneClean(z: string, after: string, e: string)
    requires Clean(z) && Clean(e)
    ensures Clean(AppendedZone(z, after, e))
    ensures after == "" || EndsWithNewline(AppendedZone(z, after, e))
  {
    hide Clean;
    var k, l := RStripNewlines(z), RStripNewlines(e);
    CleanTrim(z);
    CleanTrim(e);
    CleanEmpty();
    CleanJoin("", l);
    CleanJoin(k, ['\n'] + l);
    assert "" + ['\n'] + l == ['\n'] + l;
    var w := WithEntry(z, l);
    assert k == "" ==> w == "" + ['\n'] + l;
    assert k != "" ==> w == k + ['\n'] + (['\n'] + l);
    CleanJoin(w, "");
    assert w + ['\n'] + "" == w + "\n";
    assert w + "" == w;
  }

  lemma AppendedEntries(z: string, after: string, e: string)
    ensures Entries(AppendedZone(z, after, e)) == Entries(z) + Entries(e)
  {
    hide Entries;
    var k, l := RStripNewlines(z), RStripNewlines(e);
    EntriesTrimNewlines(z);
    EntriesTrimNewlines(e);
    EntriesBlank("");
    EntriesJoin("", l);
    EntriesJoin(k, ['\n'] + l);
    assert "" + ['\n'] + l == ['\n'] + l;
    var w := WithEntry(z, l);
    assert k == "" ==> w == "" + ['\n'] + l;
    assert k != "" ==> w == k + ['\n'] + (['\n'] + l);
    EntriesLastNewline(w);
    assert w + "" == w;
  }

  /** The text after the Timeline heading divides into the zone and what an append leaves behind it. */
  lemma TimelineBody(p: Shape)
    requires p.Valid() && p.Open()
    ensures var z, after := p.Zone(false), p.AfterZone(false);
      && (after == "" || EndsWithNewline(z))
      && TakeBody(z + after, SECTION) == if after == "" then Cut(z, "") else Cut(z[..|z| - 1], "\n" + after)
  {
    hide HasMarkerLine, TakeBody, Settled, Gap, SkipBlank, Shape.Rest1;
    HeadingFacts();
    AfterZoneIsSection(p, false);
    MarkerWithoutStart(p.Zone(false), SECTION);
    TakeBodyConcat(p.Zone(false), p.AfterZone(false), SECTION);
  }

  lemma AppendText(p: Shape, e: string)
    requires p.Valid() && p.Open()
    ensures AppendTimelineEntry(p.Content(), e)
      == p.WithZone(false, AppendedZone(p.Zone(false), p.AfterZone(false), e)).Content()
  {
    hide Locate, TakeSection, TakeBody, Contains, Shape.Valid, Shape.Open, Shape.Content, Shape.BeforeZone,
      Shape.AfterZone, Shape.Zone, Shape.WithZone, RStripNewlines, Before;
    var content, z, after := p.Content(), p.Zone(false), p.AfterZone(false);
    ZoneViewByName(p, false);
    TimelineBody(p);
    LocateContains(content, TIMELINE_HEADING, false, true);
    WithZoneContent(p, false, AppendedZone(z, after, e));
    var line := RStripNewlines(e);
    KeptText(z, line);
    if after == "" {
      AppendedAtEnd(p.BeforeZone(false), WithEntry(z, line));
    } else {
      AppendedBefore(p.BeforeZone(false), WithEntry(z, line), after);
    }
  }

  lemma AppendedAtEnd(before: string, w: string)
    ensures before + w + "" == before + (w + "" + "")
  {
  }

  lemma AppendedBefore(before: string, w: string, after: string)
    ensures before + w + ("\n" + after) == before + (w + "\n" + after)
  {
    Assoc(w, "\n", after);
    Assoc(before, w, "\n" + after);
  }

  /** The newline before the next section is not part of what an append keeps. */
  lemma KeptText(z: string, line: string)
    ensures EndsWithNewline(z) ==> WithEntry(z[..|z| - 1], line) == WithEntry(z, line)
  {
  }

  lemma {:induction false} SkipBlankSolid(a: string, x: string)
    requires !Blank(a) && SkipBlank(a).None?
    ensures SkipBlank(a + x).None?
  {
    ConsAppend(a, x);
    if IsSpace(a[0]) {
      SkipBlankSolid(a[1..], x);
    }
  }

  lemma {:induction false} LineOfBlanksIsGap(z: string)
    requires Blank(z) && EndsWithNewline(z)
    ensures SkipBlank(z).Some?
  {
    if |z| > 1 { LineOfBlanksIsGap(z[1..]); }
  }

  /** A zone that something follows keeps its first line when an entry is appended. */
  lemma AppendedZoneSolid(z: string, after: string, e: string)
    requires SkipBlank(z).None? && EndsWithNewline(z)
    ensures SkipBlank(AppendedZone(z, after, e)).None?
    ensures AppendedZone(z, after, e) != ""
  {
    hide SkipBlank, RStripNewlines;
    if Blank(z) {
      LineOfBlanksIsGap(z);
    }
    var k := RStripNewlines(z);
    assert !Blank(k);
    SkipBlankTrimmed(z);
    var n := AppendedZone(z, after, e);
    assert k <= n;
    SkipBlankSolid(k, n[|k|..]);
    assert k + n[|k|..] == n;
  }

  lemma {:induction false} SkipBlankTrimmed(z: string)
    requires SkipBlank(z).None? && !Blank(RStripNewlines(z))
    ensures SkipBlank(RStripNewlines(z)).None?
  {
    var k := RStripNewlines(z);
    if SkipBlank(k).Some? {
      SkipBlankIsLongest(k);
      var n := |k| - |SkipBlank(k).value|;
      assert k[..n] == z[..n];
      SkipBlankIsLongest(z);
    }
  }

  /** An append on an open page writes after the Timeline's last entry and changes nothing else. */
  lemma AppendOnPage(p: Shape, e: string)
    requires p.Valid() && p.Open() && Clean(e)
    ensures var q := p.WithZone(false, AppendedZone(p.Zone(false), p.AfterZone(false), e));
      && AppendTimelineEntry(p.Content(), e) == q.Content()
      && q.Valid() && q.Open()
  {
    hide Clean, Locate, TakeSection, Contains, ZoneText, Lacks, Settled, Gap, BlankStart, Unblanked;
    hide Shape.Valid, Shape.Open, Shape.Content, WithEntry, AppendTimelineEntry, AppendedZone;
    var z, after := p.Zone(false), p.AfterZone(false);
    var n := AppendedZone(z, after, e);
    AppendText(p, e);
    ZoneIsText(p, false);
    AppendedZoneClean(z, after, e);
    WithZoneValid(p, false, n);
    StaysOpen(p, e);
  }

  lemma ZoneIsText(p: Shape, truth: bool)
    requires p.Valid()
    ensures ZoneText(p.Zone(truth)) && Clean(p.Zone(truth)) && SkipBlank(p.Zone(truth)).None?
  {
    hide Settled, Lacks, HasMarkerLine, SkipBlank, Gap;
  }

  lemma StaysOpen(p: Shape, e: string)
    requires p.Valid() && p.Open()
    ensures p.WithZone(false, AppendedZone(p.Zone(false), p.AfterZone(false), e)).Open()
  {
    hide Settled, Lacks, HasMarkerLine, SkipBlank, Gap, Shape.Rest1, BlankStart, Unblanked, AppendedZone;
    var z, after := p.Zone(false), p.AfterZone(false);
    if EndsWithNewline(z) {
      ZoneIsText(p, false);
      AppendedZoneSolid(z, after, e);
      UnblankedParts(AppendedZone(z, after, e));
    } 
  }
}
