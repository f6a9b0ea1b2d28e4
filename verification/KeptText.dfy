/** What the mutators keep of a page, whatever the page is (src/mimir/compiled_truth.py:263-324). */
module KeptText {
  import opened Text
  import opened Patterns
  import opened CompiledTruth
  import opened TimelineText
  import opened PageShape
  import opened PageEdits
  import opened PageRecognition
  import opened ZoneLens
  import opened TimelineLog
  import opened ZoneCreation
  import opened ZoneScope
  import FactLists
  import opened Revision
  import opened HeadingSearch
  import opened Fallbacks

  // ---- All text but newlines ----

  /** The text around what an append drops and adds, and what stands around the entry in the added text. */
  datatype Around = Around(kept: string, dropped: string, start: string, end: string, rest: string)

  /** A blank line in front of what is written behind some text. */
  function LineBreaks(kept: string): string {
    if EndsWithNewline(kept) then "\n" else "\n\n"
  }

  /**
   An append drops nothing but newlines at one place, and writes the entry there behind a blank line, or
   behind a new Timeline heading and a blank line; every other character of the page stays.
   */
  lemma AppendKeepsText(content: string, e: string) returns (a: Around)
    ensures content == a.kept + (a.dropped + a.rest)
    ensures AppendTimelineEntry(content, e) == a.kept + ((a.start + (RStripNewlines(e) + a.end)) + a.rest)
    ensures Newlines(a.dropped)
    ensures Contains(content, "## Timeline") ==> a.start == LineBreaks(a.kept) && a.end == ""
    ensures !Contains(content, "## Timeline") ==>
      a.kept == content && a.start == LineBreaks(content) + "## Timeline\n\n" && a.end == "\n"
  {
    hide Contains, Locate, RStripNewlines, TakeBody, Before;
    var line := RStripNewlines(e);
    if !Contains(content, TIMELINE_HEADING) {
      a := AppendedAtPageEnd(content, line);
    } else if Locate(content, TIMELINE_HEADING, false, true).Some? {
      var cut := Locate(content, TIMELINE_HEADING, false, true).value;
      LocatedEnds(content, TIMELINE_HEADING, true);
      a := AppendedInBody(cut.before, TakeBody(cut.after, SECTION), line);
    } else {
      var idx := |Before(content, TIMELINE_HEADING)| + |TIMELINE_HEADING|;
      a := Around(content[..idx], "", "\n\n", "", content[idx..]);
      assert content == content[..idx] + ("" + content[idx..]);
      assert line + "" == line;
      MentionEnds(content);
      Assoc(content[..idx], "\n\n", line);
      Assoc(content[..idx], "\n\n" + line, content[idx..]);
    }
  }

  lemma AppendedAtPageEnd(content: string, line: string) returns (a: Around)
    ensures content == a.kept + (a.dropped + a.rest) && a.dropped == "" && a.kept == content
    ensures content + (if EndsWithNewline(content) then "" else "\n") + "\n" + TIMELINE_HEADING + "\n\n" + line + "\n"
      == a.kept + ((a.start + (line + a.end)) + a.rest)
    ensures a.end == "\n" && a.start == LineBreaks(content) + "## Timeline\n\n"
  {
    var t := if EndsWithNewline(content) then "" else "\n";
    var start := t + "\n" + TIMELINE_HEADING + "\n\n";
    a := Around(content, "", start, "\n", "");
    CreatedText(content, t, TIMELINE_HEADING, line + "\n");
    Assoc(content + t + "\n" + TIMELINE_HEADING + "\n\n", line, "\n");
    Assoc(start, line, "\n");
    assert start + (line + "\n") + "" == start + (line + "\n");
    assert content + ("" + "") == content;
    JoinedNewlines();
    assert TIMELINE_HEADING + "\n\n" == "## Timeline\n\n" by { TimelineStart(); }
    Assoc(t + "\n", TIMELINE_HEADING, "\n\n");
  }

  lemma TimelineStart()
    ensures TIMELINE_HEADING + "\n\n" == "## Timeline\n\n"
  {
  }

  /** What is found of a heading ends in a newline. */
  lemma {:induction false} LocatedEnds(s: string, h: string, bol: bool)
    requires Locate(s, h, false, bol).Some?
    ensures EndsWithNewline(Locate(s, h, false, bol).value.before)
    decreases |s|
  {
    hide SkipBlank;
    var cut := Locate(s, h, false, bol).value;
    if HeadingHere(s, h, false, bol) {
      var y := s[|h|..];
      SkipBlankIsLongest(y);
      var g := y[..|y| - |SkipBlank(y).value|];
      assert cut.before == h + g;
    } else {
      LocatedEnds(s[1..], h, s[0] == '\n');
    }
  }

  lemma MentionEnds(content: string)
    requires Contains(content, TIMELINE_HEADING)
    ensures var idx := |Before(content, TIMELINE_HEADING)| + |TIMELINE_HEADING|;
      idx <= |content| && content[..idx] != "" && !EndsWithNewline(content[..idx])
  {
    hide Contains, Before;
    var b := Before(content, TIMELINE_HEADING);
    var s := content[|b|..];
    var n := |TIMELINE_HEADING| - 1;
    assert content[|b| + n] == s[n] == TIMELINE_HEADING[n];
  }

  lemma AppendedInBody(before: string, body: Cut, line: string) returns (a: Around)
    requires EndsWithNewline(before)
    ensures before + (body.before + body.after) == a.kept + (a.dropped + a.rest)
    ensures before + WithEntry(body.before, line) + body.after == a.kept + ((a.start + (line + a.end)) + a.rest)
    ensures Newlines(a.dropped) && a.start == LineBreaks(a.kept) && a.end == ""
    ensures a.dropped != "" ==> !EndsWithNewline(a.kept) || a.kept == before
  {
    hide RStripNewlines;
    var k := RStripNewlines(body.before);
    var dropped, start := body.before[|k|..], (if k == "" then "" else "\n") + "\n";
    a := Around(before + k, dropped, start, "", body.after);
    assert k + dropped == body.before && line + "" == line;
    Assoc(before, k, dropped);
    Assoc(before + k, dropped, body.after);
    Assoc(before, body.before, body.after);
    Assoc(k, if k == "" then "" else "\n", "\n");
    Assoc(k, start, line);
    Assoc(before, k, start + line);
    Assoc(before + k, start + line, body.after);
    JoinedNewlines();
    assert k != "" ==> (before + k)[|before + k| - 1] == k[|k| - 1];
    assert k == "" ==> before + k == before;
  }

  /** A page without a mention of the Timeline keeps all its text in front of what an append creates. */
  lemma AppendedBehindPage(content: string, e: string)
    requires !Contains(content, "## Timeline")
    ensures content <= AppendTimelineEntry(content, e)
  {
    hide Contains, RStripNewlines, EndsWithNewline;
    var t := if EndsWithNewline(content) then "" else "\n";
    CreatedText(content, t, TIMELINE_HEADING, RStripNewlines(e) + "\n");
    Assoc(content + t + "\n" + TIMELINE_HEADING + "\n\n", RStripNewlines(e), "\n");
  }

  /**
   A rewrite replaces one stretch of text without a section line, at most, and keeps everything before and
   behind it; what it writes there is the new truth, with newlines around it or behind a new heading.
   */
  lemma RewriteKeepsText(content: string, t: string) returns (a: Around)
    ensures content == a.kept + (a.dropped + a.rest)
    ensures RewriteCompiledTruth(content, t) == a.kept + ((a.start + (RStripNewlines(t) + a.end)) + a.rest)
    ensures !HasMarkerLine(a.dropped, SECTION, true)
    ensures Locate(content, "## Compiled Truth", false, true).Some? ==>
      EndsWithNewline(a.kept) && a.start == "" && a.end == "\n\n" && SectionOrEnd(a.rest)
    ensures Locate(content, "## Compiled Truth", false, true).None? && Contains(content, "## Timeline") ==>
      && a.kept == Before(content, "## Timeline") && a.dropped == ""
      && a.start == "## Compiled Truth\n\n" && a.end == "\n\n"
    ensures Locate(content, "## Compiled Truth", false, true).None? && !Contains(content, "## Timeline") ==>
      a.kept == content && a.start == LineBreaks(content) + "## Compiled Truth\n\n" && a.end == "\n"
  {
    hide Contains, Locate, RStripNewlines, TakeSection, Before, HasMarkerLine;
    var r := RStripNewlines(t);
    NoMarkerInNothing();
    if Locate(content, TRUTH_HEADING, false, true).Some? {
      LocateContains(content, TRUTH_HEADING, false, true);
      var cut := Locate(content, TRUTH_HEADING, false, true).value;
      LocatedEnds(content, TRUTH_HEADING, true);
      a := WrittenInZone(cut.before, cut.after, r);
    } else if Contains(content, TIMELINE_HEADING) {
      a := WrittenBefore(Before(content, TIMELINE_HEADING), content, r);
    } else {
      a := WrittenAtEnd(content, r);
    }
  }

  lemma WrittenInZone(before: string, after: string, r: string) returns (a: Around)
    ensures before + after == a.kept + (a.dropped + a.rest)
    ensures before + (r + "\n") + "\n" + TakeSection(after, SECTION, true).after
      == a.kept + ((a.start + (r + a.end)) + a.rest)
    ensures !HasMarkerLine(a.dropped, SECTION, true)
    ensures a.kept == before && a.start == "" && a.end == "\n\n" && SectionOrEnd(a.rest)
  {
    hide TakeSection, HasMarkerLine;
    var cut := TakeSection(after, SECTION, true);
    SectionEnds(after);
    a := Around(before, cut.before, "", "\n\n", cut.after);
    assert "" + (r + "\n\n") == r + "\n" + "\n";
    Assoc(before, r + "\n", "\n");
    Assoc(before, r + "\n" + "\n", cut.after);
  }

  lemma WrittenBefore(before: string, content: string, r: string) returns (a: Around)
    requires before <= content
    ensures content == a.kept + (a.dropped + a.rest) && a.dropped == ""
    ensures before + TRUTH_HEADING + "\n\n" + (r + "\n") + "\n" + content[|before|..]
      == a.kept + ((a.start + (r + a.end)) + a.rest)
    ensures a.kept == before && a.end == "\n\n" && a.start == "## Compiled Truth\n\n"
  {
    var start, rest := TRUTH_HEADING + "\n\n", content[|before|..];
    a := Around(before, "", start, "\n\n", rest);
    assert before + ("" + rest) == content;
    assert r + "\n" + "\n" == r + "\n\n";
    Assoc(before, TRUTH_HEADING, "\n\n");
    Assoc(before + start, r + "\n", "\n");
    Assoc(before, start, r + "\n\n");
    Assoc(before, start + (r + "\n\n"), rest);
    TruthStart();
  }

  lemma TruthStart()
    ensures TRUTH_HEADING + "\n\n" == "## Compiled Truth\n\n"
  {
  }

  lemma WrittenAtEnd(content: string, r: string) returns (a: Around)
    ensures content == a.kept + (a.dropped + a.rest) && a.dropped == "" && a.kept == content
    ensures content + (if EndsWithNewline(content) then "" else "\n") + "\n" + TRUTH_HEADING + "\n\n" + (r + "\n")
      == a.kept + ((a.start + (r + a.end)) + a.rest)
    ensures a.end == "\n" && a.start == LineBreaks(content) + "## Compiled Truth\n\n"
  {
    var t := if EndsWithNewline(content) then "" else "\n";
    var start := t + "\n" + TRUTH_HEADING + "\n\n";
    a := Around(content, "", start, "\n", "");
    CreatedText(content, t, TRUTH_HEADING, r + "\n");
    Assoc(start, r, "\n");
    assert start + (r + "\n") + "" == start + (r + "\n");
    assert content + ("" + "") == content;
    JoinedNewlines();
    TruthStart();
    Assoc(t + "\n", TRUTH_HEADING, "\n\n");
  }

  /** A page without a found truth and without a mention of the Timeline stands whole before a created truth. */
  lemma RewrittenBehindPage(content: string, t: string)
    requires !Contains(content, "## Timeline") && Locate(content, "## Compiled Truth", false, true).None?
    ensures content <= RewriteCompiledTruth(content, t)
  {
    hide Contains, RStripNewlines, EndsWithNewline, Locate;
    var s := if EndsWithNewline(content) then "" else "\n";
    CreatedText(content, s, TRUTH_HEADING, RStripNewlines(t) + "\n");
  }

  /** A revision is made on any page exactly if its Compiled Truth holds the fact. */
  lemma RevisionIsMade(content: string, oldFact: string, newFact: string, attribution: string, today: string)
    ensures ReviseBelief(content, oldFact, newFact, attribution, today).Some? <==>
      exists k | 0 <= k <= |CompiledTruthOf(content)| :: oldFact <= CompiledTruthOf(content)[k..]
  {
    hide Contains, CompiledTruthOf, RewriteCompiledTruth, AppendTimelineEntry, RevisionEntry, ReplaceFirst;
    ContainsMeans(CompiledTruthOf(content), oldFact);
  }

  /**
   A revision that is made writes the truth with the fact replaced, and then its record, each where a rewrite
   and an append write, and all other text of the page stays, whatever the page is.
   */
  lemma RevisionKeepsText(content: string, oldFact: string, newFact: string, attribution: string, today: string)
    returns (w: Around, a: Around)
    requires Contains(CompiledTruthOf(content), oldFact)
    ensures content == w.kept + (w.dropped + w.rest) && !HasMarkerLine(w.dropped, SECTION, true)
    ensures var truth := ReplaceFirst(CompiledTruthOf(content), oldFact, newFact);
      w.kept + ((w.start + (RStripNewlines(truth) + w.end)) + w.rest) == a.kept + (a.dropped + a.rest)
    ensures Newlines(a.dropped)
    ensures ReviseBelief(content, oldFact, newFact, attribution, today)
      == Some(a.kept + ((a.start + (RevisionEntry(today, oldFact, newFact, attribution) + a.end)) + a.rest))
  {
    hide Contains, CompiledTruthOf, RewriteCompiledTruth, AppendTimelineEntry, RevisionEntry, ReplaceFirst,
      HasMarkerLine, Locate, RStripNewlines, Before;
    var truth := ReplaceFirst(CompiledTruthOf(content), oldFact, newFact);
    var record := RevisionEntry(today, oldFact, newFact, attribution);
    w := RewriteKeepsText(content, truth);
    a := AppendKeepsText(RewriteCompiledTruth(content, truth), record);
    RevisionEntryShape(today, oldFact, newFact, attribution);
    assert RStripNewlines(record) == record by { assert IsSpace('\n'); SolidIsTrimmed(record); }
  }

  lemma SolidIsTrimmed(s: string)
    requires s != "" && !IsSpace(s[|s| - 1])
    ensures RStripNewlines(s) == s
  {
  }

  // ---- The other zone beside a created one ----

  /** Newlines at the end belong to a gap, or follow everything that a gap leaves. */
  lemma {:induction false} GapTakesNewlines(y: string, q: string)
    requires q in {"\n", "\n\n"} && SkipBlank(y).Some?
    ensures SkipBlank(y + q) == Some(if Blank(SkipBlank(y).value) then "" else SkipBlank(y).value + q)
  {
    hide IsSpace;
    ConsAppend(y, q);
    if SkipBlank(y[1..]).Some? {
      GapTakesNewlines(y[1..], q);
    } else {
      GapBeforeNewlines(y[1..], q);
    }
  }

  lemma {:induction false} GapBeforeNewlines(y: string, q: string)
    requires q in {"\n", "\n\n"} && SkipBlank(y).None?
    ensures SkipBlank(y + q) == if Blank(y) then Some("") else None
  {
    if y == "" {
      assert y + q == q;
      assert "\n\n"[1..] == "\n" && "\n"[1..] == "";
      assert SkipBlank("").None? && SkipBlank("\n") == Some("");
    } else {
      ConsAppend(y, q);
      if IsSpace(y[0]) {
        GapBeforeNewlines(y[1..], q);
        assert Blank(y) <==> Blank(y[1..]) by { FactLists.BlankStep(y); }
      }
    }
  }

  lemma HereBeforeNewlines(s: string, q: string, h: string, bol: bool)
    requires q in {"\n", "\n\n"} && HeadingLike(h) && HeadingHere(s, h, true, bol)
    ensures HeadingHere(s + q, h, true, bol)
    ensures var w := SkipBlank(s[|h|..]).value; SkipBlank((s + q)[|h|..]).value == if Blank(w) then "" else w + q
  {
    hide SkipBlank, Blank;
    assert h <= s + q && (s + q)[|h|..] == s[|h|..] + q;
    GapTakesNewlines(s[|h|..], q);
  }

  /** Where newlines at the end complete a heading, it was the last text of all. */
  lemma CompletedIsLast(s: string, q: string, h: string, bol: bool, from: bool)
    requires q in {"\n", "\n\n"} && HeadingLike(h) && s != ""
    requires HeadingHere(s + q, h, true, bol) && !HeadingHere(s, h, true, bol)
    ensures Locate(s[1..], h, true, from).None?
  {
    hide SkipBlank, Count, Locate, HeadingLike;
    HeadingInFront(s, q, h);
    var y := s[|h|..];
    assert (s + q)[|h|..] == y + q && s == h + y;
    GapBeforeNewlines(y, q);
    CountHeadingLine(h, y, h);
    OneLess(s, h);
    AbsentIsNotLocated(s[1..], h, from);
  }

  lemma OneLess(s: string, h: string)
    requires s != "" && h <= s && Count(s, h) == 1
    ensures Count(s[1..], h) == 0
  {
  }

  /** A heading that is found stays found when newlines follow the text. */
  lemma {:induction false} FoundBeforeNewlines(s: string, q: string, h: string, bol: bool)
    requires q in {"\n", "\n\n"} && HeadingLike(h) && Locate(s, h, true, bol).Some?
    ensures var w := Locate(s, h, true, bol).value.after;
      && Locate(s + q, h, true, bol).Some?
      && Locate(s + q, h, true, bol).value.after == if Blank(w) then "" else w + q
    decreases |s|
  {
    hide SkipBlank, HeadingLike, HeadingHere, Blank;
    if s == "" { NothingLocated(h, true, bol); }
    ConsAppend(s, q);
    LocateStart(s, h, true, bol);
    LocateStart(s + q, h, true, bol);
    if HeadingHere(s, h, true, bol) {
      HereBeforeNewlines(s, q, h, bol);
    } else {
      if HeadingHere(s + q, h, true, bol) {
        CompletedIsLast(s, q, h, bol, s[0] == '\n');
      }
      FoundBeforeNewlines(s[1..], q, h, s[0] == '\n');
    }
  }

  /** A section behind a line-ended text changes nothing of the zone that the text starts. */
  lemma {:induction false} ZoneBeforeSection(v: string, x: string, bol: bool)
    requires SECTION <= x && Ended(v) && (v == "" ==> bol)
    ensures TakeSection(v + x, SECTION, bol).before == TakeSection(v, SECTION, bol).before
    decreases |v|
  {
    hide TakeSection;
    if v == "" {
      assert v + x == x;
      SectionStops(x);
      SectionOfNothing();
    } else {
      ConsAppend(v, x);
      PrefixOfLine(v, x, SECTION);
      if bol && SECTION <= v {
        SectionStops(v);
        SectionStops(v + x);
      } else {
        assert |v| == 1 ==> v[0] == '\n';
        ZoneBeforeSection(v[1..], x, v[0] == '\n');
        TakeStep(v, bol);
        TakeStep(v + x, bol);
      }
    }
  }

  lemma ZoneBeforeNewlines(w: string, q: string)
    requires q in {"\n", "\n\n"}
    ensures RStrip(TakeSection(w + q, SECTION, true).before) == RStrip(TakeSection(w, SECTION, true).before)
  {
    hide TakeSection, RStrip;
    SectionLastNewline(w, true);
    SectionLastNewline(w + "\n", true);
    assert "\n" + "\n" == "\n\n";
    Assoc(w, "\n", "\n");
  }

  lemma BlankZone(w: string)
    requires Blank(w)
    ensures RStrip(TakeSection(w, SECTION, true).before) == ""
  {
    hide TakeSection, RStrip;
    var z := TakeSection(w, SECTION, true);
    assert forall i | 0 <= i < |z.before| :: z.before[i] == w[i] by { assert w == z.before + z.after; }
    BlankStrip(z.before);
  }

  /** A zone is read as before when newlines and another section's heading follow the page. */
  lemma ZoneBeside(body: string, q: string, x: string, h: string)
    requires q in {"\n", "\n\n"} && HeadingLike(h) && SECTION <= x && EndsWithNewline(body + q)
    requires Locate(body + q, h, true, true).Some?
    ensures ExtractZone(body + q + x, h) == ExtractZone(body, h)
  {
    hide TakeSection, RStrip, Locate, HeadingLike, Blank;
    LocateSection(body + q, x, h, true, true);
    var v := Locate(body + q, h, true, true).value.after;
    assert Ended(v) by { AfterEnds(body + q, h); }
    ZoneBeforeSection(v, x, true);
    if Locate(body, h, true, true).Some? {
      FoundBeforeNewlines(body, q, h, true);
      var w := Locate(body, h, true, true).value.after;
      if Blank(w) { BlankZone(w); BlankZone("") by { FactLists.EmptyIsBlank(); } } else { ZoneBeforeNewlines(w, q); }
    } else {
      CompletedAtEnd(body, q, h, true);
      BlankZone("") by { FactLists.EmptyIsBlank(); }
    }
  }

  lemma AfterEnds(s: string, h: string)
    requires EndsWithNewline(s) && Locate(s, h, true, true).Some?
    ensures Ended(Locate(s, h, true, true).value.after)
  {
    hide Locate;
    var cut := Locate(s, h, true, true).value;
    assert cut.before + cut.after == s;
  }

  /** A search for one heading that comes to the other one at the start of a line goes on behind it. */
  lemma OtherHeading(h: string, k: string, r: string)
    requires h in {TRUTH_HEADING, TIMELINE_HEADING} && k in {TRUTH_HEADING, TIMELINE_HEADING} && h != k
    ensures var s := h + ("\n\n" + r);
      && (Locate(s, k, true, true).None? <==> Locate(r, k, true, true).None?)
      && (Locate(s, k, true, true).Some? ==>
          Locate(s, k, true, true).value.after == Locate(r, k, true, true).value.after)
  {
    hide Locate, HeadingLike, SkipBlank;
    HeadingFacts();
    var s := h + ("\n\n" + r);
    HeadingInLine(h, k, r);
    assert s != "" && !(k <= s) by { assert s[3] == h[3] && |k| > 3 && |h| > 3; }
    LocateStart(s, k, true, true);
    LocateStart(s, k, true, false);
  }

  /** What is read of zone `k` where a section `h` was created at the end of the page. */
  lemma ReadBeside(content: string, h: string, k: string, w: string)
    requires Extendable(content)
    requires h in {TRUTH_HEADING, TIMELINE_HEADING} && k in {TRUTH_HEADING, TIMELINE_HEADING} && h != k
    ensures var c := content + (if EndsWithNewline(content) then "" else "\n") + "\n" + h + "\n\n" + w;
      && SplitFrontmatter(c).before == SplitFrontmatter(content).before
      && ExtractZone(StripFrontmatter(c), k)
        == if Locate(StripFrontmatter(content) + "\n", k, true, true).Some?
           then ExtractZone(StripFrontmatter(content), k) else ExtractZone(w, k)
  {
    hide Locate, SplitFrontmatter, HeadingLike, Extendable, TakeSection, RStrip;
    HeadingFacts();
    var cut := SplitFrontmatter(content);
    var t := if EndsWithNewline(content) then "" else "\n";
    var q, x := t + "\n", h + ("\n\n" + w);
    CreatedText(content, t, h, w);
    FrontmatterExtends(content, t + "\n" + h + "\n\n" + w);
    CreatedText(cut.after, t, h, w);
    JoinedNewlines();
    Assoc(cut.after, t, "\n");
    Assoc(h, "\n\n", w);
    Assoc(cut.after + q, h, "\n\n" + w);
    Assoc(cut.after + q, h + "\n\n", w);
    SecondNewline(cut.after, k);
    assert SECTION <= x && (cut.after + q)[|cut.after + q| - 1] == '\n' by { MentionIsSection("\n\n" + w); }
    assert cut.after + "" == cut.after;
    if Locate(cut.after + q, k, true, true).Some? {
      ZoneBeside(cut.after, q, x, k);
    } else {
      LocateSection(cut.after + q, x, k, true, true);
      OtherHeading(h, k, w);
    }
  }

  /**
   An append that creates the Timeline keeps the frontmatter and the Compiled Truth.  Only a page that has
   no truth can get one, from a heading line that the appended text brings along.
   */
  lemma AppendCreatesBeside(content: string, e: string)
    requires Extendable(content) && !Contains(content, "## Timeline")
    ensures var c := AppendTimelineEntry(content, e);
      && SplitFrontmatter(c).before == SplitFrontmatter(content).before
      && CompiledTruthOf(c)
        == if Locate(StripFrontmatter(content) + "\n", "## Compiled Truth", true, true).Some?
           then CompiledTruthOf(content)
           else ExtractZone(RStripNewlines(e) + "\n", "## Compiled Truth")
    ensures !Contains(RStripNewlines(e) + "\n", "## Compiled Truth") ==>
      CompiledTruthOf(AppendTimelineEntry(content, e)) == CompiledTruthOf(content)
  {
    hide Contains, Locate, RStripNewlines, SplitFrontmatter, Extendable, ExtractZone;
    var t, line := if EndsWithNewline(content) then "" else "\n", RStripNewlines(e);
    Assoc(content + t + "\n" + TIMELINE_HEADING + "\n\n", line, "\n");
    ReadBeside(content, TIMELINE_HEADING, TRUTH_HEADING, line + "\n");
    NotReadBeside(StripFrontmatter(content), line + "\n", TRUTH_HEADING);
  }

  /** Nothing is read of a heading that is not mentioned, before or behind a newline. */
  lemma NotReadBeside(body: string, w: string, h: string)
    requires h in {TRUTH_HEADING, TIMELINE_HEADING}
    ensures !Contains(w, h) ==> ExtractZone(w, h) == ""
    ensures Locate(body + "\n", h, true, true).None? ==> ExtractZone(body, h) == ""
  {
    hide Contains, Locate, TakeSection, RStrip;
    HeadingFacts();
    if Locate(w, h, true, true).Some? { LocateContains(w, h, true, true); }
    if Locate(body, h, true, true).Some? { FoundBeforeNewlines(body, "\n", h, true); }
  }

  /**
   A rewrite that creates the Compiled Truth at the end of a page keeps the frontmatter, and the page, which
   had no Timeline, reads one only off a heading line of the new truth.
   */
  lemma RewriteCreatesBeside(content: string, t: string)
    requires Extendable(content) && !Contains(content, "## Timeline")
    requires Locate(content, "## Compiled Truth", false, true).None?
    ensures var c := RewriteCompiledTruth(content, t);
      && SplitFrontmatter(c).before == SplitFrontmatter(content).before
      && TimelineOf(c) == Entries(ExtractZone(RStripNewlines(t) + "\n", "## Timeline"))
    ensures TimelineOf(content) == []
  {
    hide Contains, Locate, RStripNewlines, SplitFrontmatter, Extendable, ExtractZone, Count, Entries;
    HeadingFacts();
    var cut := SplitFrontmatter(content);
    ReadBeside(content, TRUTH_HEADING, TIMELINE_HEADING, RStripNewlines(t) + "\n");
    assert cut.before + cut.after == content;
    ContainsIffCount(content, TIMELINE_HEADING);
    CountSuffix(cut.before, cut.after, TIMELINE_HEADING);
    CountLineEnd(cut.after, TIMELINE_HEADING);
    AbsentIsNotLocated(cut.after + "\n", TIMELINE_HEADING, true);
    NotReadBeside(cut.after, "", TIMELINE_HEADING);
    EntriesBlank("") by { FactLists.EmptyIsBlank(); }
  }
}
