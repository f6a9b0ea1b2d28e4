/** Compliant pages stay compliant, and superseded facts stay readable. */
module PageJourney {
  import opened Text
  import opened Patterns
  import opened CompiledTruth
  import opened PageShape
  import opened PageEdits
  import opened PageRecognition
  import opened ZoneLens
  import opened TimelineLog
  import opened Revision
  import opened PageHistory

  // ---- Compliance ----

  lemma ZonesPresent(content: string)
    requires TwoZoned(content)
    ensures Contains(StripFrontmatter(content), TRUTH_HEADING)
    ensures Contains(StripFrontmatter(content), TIMELINE_HEADING)
  {
    hide Contains, Locate, SplitFrontmatter, Count;
    LocateContains(StripFrontmatter(content), TRUTH_HEADING, true, true);
    LocateContains(StripFrontmatter(content), TIMELINE_HEADING, true, true);
  }

  /** The texts of an edit carry an attribution. */
  predicate Sourced(edit: Edit) {
    match edit
    case Append(entry) =>
      var line := Strip(RStripNewlines(entry));
      OneLine(line) && BULLET <= line && ParseEntry(line).hasSource
    case Rewrite(truth) => true
    case Revise(o, n, a, d) => a != "" && a[0] != ']'
  }

  lemma RecordIsSourced(o: string, n: string, a: string, d: string)
    requires IsDate(d) && OneLine(o) && OneLine(n) && OneLine(a) && ReadSourced(RevisionEntry(d, o, n, a), d)
    ensures RevisionRecord(o, n, a, d).hasSource
  {
    hide RevisionEntry, IsDate, OneLine, Entries, ParseEntry;
    DateIsOneLine(d);
    RevisionIsOneEntry(d, o, n, a);
  }

  lemma LoggedIsSourced(content: string, edit: Edit)
    requires Allowed(content, edit) && Sourced(edit)
    ensures forall e | e in Logged(content, edit) :: e.hasSource
  {
    hide CompiledTruthOf, Contains, ParseEntry, RevisionEntry, Strip, IsDate, Clean, OneLine, Lacks, ReplaceFirst;
    if edit.Revise? && Contains(CompiledTruthOf(content), edit.oldFact) {
      RevisionIsSourced(edit.today, edit.oldFact, edit.newFact, edit.attribution);
      RecordIsSourced(edit.oldFact, edit.newFact, edit.attribution, edit.today);
    }
  }

  lemma {:induction false} LogIsSourced(content: string, edits: seq<Edit>)
    requires AllAllowed(content, edits) && forall e | e in edits :: Sourced(e)
    ensures forall e | e in Log(content, edits) :: e.hasSource
    decreases |edits|
  {
    hide Apply, Logged, Allowed, Sourced;
    if edits != [] {
      LoggedIsSourced(content, edits[0]);
      LogIsSourced(Apply(content, edits[0]), edits[1..]);
    }
  }

  /** A page that validates keeps validating along every history of attributed edits. */
  lemma CompliantForever(content: string, edits: seq<Edit>, yaml: string -> Meta)
    requires WellFormed(content) && AllAllowed(content, edits) && Compliant(content, yaml)
    requires forall e | e in edits :: Sourced(e)
    ensures Compliant(Run(content, edits), yaml)
  {
    hide Apply, TwoZoned, TimelineOpen, Contains, TimelineOf, SplitFrontmatter, Run, AllAllowed, Log, Sourced;
    RunLogs(content, edits);
    LogIsSourced(content, edits);
    ZonesPresent(Run(content, edits));
  }

  // ---- The journey of a belief ----

  /** A new fact stays whole where it is written: it is not blank, and trimming does not reach its end. */
  predicate Stays(truth: string, o: string, n: string) {
    !Blank(n) && (!IsSpace(n[|n| - 1]) || !Blank(Behind(truth, o)))
  }

  lemma TruthStartsSolid(content: string)
    requires TwoZoned(content)
    ensures SkipBlank(CompiledTruthOf(content)).None?
  {
    hide TwoZoned, Shape.Valid, Shape.Content, CompiledTruthOf, RStrip, Lacks, HasMarkerLine, SkipBlank, TimelineOpen,
      Shape.Open, Shape.Zone, TimelineOf, SplitFrontmatter;
    var p := Recognize(content);
    ParsedShape(p);
    ZoneIsText(p, true);
    PrefixStartsSolid(p.Zone(true), RStrip(p.Zone(true)));
  }

  lemma PrefixStartsSolid(z: string, r: string)
    requires SkipBlank(z).None? && r <= z
    ensures SkipBlank(r).None?
  {
    assert r + z[|r|..] == z;
    SkipBlankPrefix(r, z[|r|..]);
  }

  lemma {:induction false} BlankLineStart(b: string)
    requires SkipBlank(b).None? && Blank(b)
    ensures '\n' !in b
  {
    if b != "" { BlankLineStart(b[1..]); }
  }

  /** Text with a solid character on its first line starts with no blank line. */
  lemma {:induction false} SolidFirstLine(b: string, n: string)
    requires '\n' !in b && Blank(b) && '\n' !in n && !Blank(n)
    ensures SkipBlank(b + n).None?
    decreases |b| + |n|
  {
    if b != "" {
      ConsAppend(b, n);
      SolidFirstLine(b[1..], n);
    } else {
      assert b + n == n;
      if IsSpace(n[0]) { SolidFirstLine("", n[1..]); assert "" + n[1..] == n[1..]; }
    }
  }

  lemma RevisedStartsSolid(truth: string, o: string, n: string)
    requires SkipBlank(truth).None? && Contains(truth, o) && OneLine(n) && !Blank(n)
    ensures SkipBlank(ReplaceFirst(truth, o, n)).None?
  {
    assert '\n' !in n by { assert IsLineBreak('\n'); }
    hide SkipBlank, Contains, Before, OneLine, Blank;
    var b, r := ReplaceParts(truth, o, n);
    PrefixStartsSolid(truth, b);
    if Blank(b) {
      BlankLineStart(b);
      SolidFirstLine(b, n);
    } else {
      SkipBlankSolid(b, n);
    }
    NotBlankWith(b, n);
    SkipBlankSolid(b + n, r);
  }

  lemma NotBlankWith(b: string, n: string)
    requires !Blank(n)
    ensures !Blank(b + n)
  {
    var i :| 0 <= i < |n| && !IsSpace(n[i]);
    assert (b + n)[|b| + i] == n[i];
  }

  /** Trimming the end keeps a text exactly when something solid is behind it or at its own end. */
  lemma TrimKeeps(b: string, n: string, r: string)
    requires !Blank(n)
    ensures b + n <= RStrip(b + n + r) <==> !IsSpace(n[|n| - 1]) || !Blank(r)
  {
    if !Blank(r) {
      hide RStrip;
      RStripPrepend(b + n, r);
    } else {
      TrimKeepsEnd(b, n);
      hide RStrip;
      RStripAppendBlank(b + n, r);
    }
  }

  lemma TrimKeepsEnd(b: string, n: string)
    requires !Blank(n)
    ensures b + n <= RStrip(b + n) <==> !IsSpace(n[|n| - 1])
  {
    hide RStrip;
    var s := b + n;
    assert s[|s| - 1] == n[|n| - 1];
    if !IsSpace(n[|n| - 1]) { RStripUnique(s, s); }
  }

  lemma RevisedHolds(truth: string, o: string, n: string)
    requires Contains(truth, o) && !Blank(n)
    ensures Before(truth, o) + n <= RStrip(ReplaceFirst(truth, o, n)) <==> Stays(truth, o, n)
    ensures Stays(truth, o, n) ==> Contains(RStrip(ReplaceFirst(truth, o, n)), n)
  {
    var b, r := ReplaceParts(truth, o, n);
    RestBehind(truth, o, b, r);
    hide Contains, Before, RStrip, Blank, ReplaceFirst, Behind, IsSpace;
    TrimKeeps(b, n, r);
    if b + n <= RStrip(b + n + r) {
      PrefixHolds(RStrip(b + n + r), b, n);
    }
  }

  lemma PrefixHolds(k: string, b: string, n: string)
    requires b + n <= k
    ensures Contains(k, n)
  {
    hide Contains;
    assert n <= k[|b|..];
    ContainsAt(k, |b|, n);
  }

  lemma RestBehind(truth: string, o: string, b: string, r: string)
    requires Contains(truth, o) && b == Before(truth, o) && truth == b + o + r
    ensures Behind(truth, o) == r
  {
    hide Contains, Before;
    assert truth[|b| + |o|..] == r;
  }

  /**
   A revision leaves the truth as it was replaced, trimmed, if and only if that is blank or starts with no
   blank line.  A new fact that is not blank stands there as it was written, unless it ends the truth in
   white space of its own.
   */
  lemma RevisionIsHeld(content: string, o: string, n: string, a: string, d: string)
    requires WellFormed(content) && Contains(CompiledTruthOf(content), o)
    requires RevisionAllowed(content, o, n, a, d)
    ensures ReviseBelief(content, o, n, a, d).Some?
    ensures var truth := CompiledTruthOf(content);
      var c, r := ReviseBelief(content, o, n, a, d).value, ReplaceFirst(truth, o, n);
      && (CompiledTruthOf(c) == RStrip(r) <==> Blank(r) || SkipBlank(r).None?)
      && (!Blank(n) ==> CompiledTruthOf(c) == RStrip(r))
      && (!Blank(n) ==> (Before(truth, o) + n <= CompiledTruthOf(c) <==> Stays(truth, o, n)))
      && (Stays(truth, o, n) ==> Contains(CompiledTruthOf(c), n))
  {
    hide TwoZoned, TimelineOpen, CompiledTruthOf, TimelineOf, SplitFrontmatter, RewriteCompiledTruth, ReviseBelief,
      RevisionEntry, Contains, ReplaceFirst, Lacks, OneLine, RStrip, Blank, IsDate, SkipBlank, HasMarkerLine,
      ParseEntry, Before, Behind;
    var truth := CompiledTruthOf(content);
    ReviseExact(content, o, n, a, d);
    TruthStartsSolid(content);
    PutGet(content, ReplaceFirst(truth, o, n));
    if !Blank(n) {
      RevisedStartsSolid(truth, o, n);
      RevisedHolds(truth, o, n);
    }
  }

  datatype Step = Step(newFact: string, attribution: string, today: string)

  /** The revisions fact → steps[0] → steps[1] → … of one belief. */
  function Chain(content: string, fact: string, steps: seq<Step>): Option<string>
    decreases |steps|
  {
    if steps == [] then Some(content)
    else match ReviseBelief(content, fact, steps[0].newFact, steps[0].attribution, steps[0].today)
      case None => None
      case Some(c) => Chain(c, steps[0].newFact, steps[1..])
  }

  predicate ChainAllowed(content: string, fact: string, steps: seq<Step>)
    decreases |steps|
  {
    steps == [] ||
    var s := steps[0];
    && Stays(CompiledTruthOf(content), fact, s.newFact)
    && RevisionAllowed(content, fact, s.newFact, s.attribution, s.today)
    && var next := ReviseBelief(content, fact, s.newFact, s.attribution, s.today);
      next.Some? ==> ChainAllowed(next.value, s.newFact, steps[1..])
  }

  /** The fact that step `i` supersedes. */
  function FactBefore(fact: string, steps: seq<Step>, i: nat): string
    requires i <= |steps|
  {
    if i == 0 then fact else steps[i - 1].newFact
  }

  lemma {:induction false} ContainsMiddle(a: string, h: string, c: string)
    ensures Contains(a + h + c, h)
  {
    var s := a + h + c;
    assert s[|a|..] == h + c;
    ContainsAt(s, |a|, h);
  }

  lemma EntryHoldsOldFact(d: string, o: string, n: string, a: string)
    ensures Contains(RevisionEntry(d, o, n, a), o)
  {
    hide Contains;
    RevisionEntryParts(d, o, n, a);
    var x := "- " + d + ": belief revised: \"";
    var tail := SOURCE_OPEN + (a + "]");
    var y := "\" \U{2192} \"" + n + "\". ";
    Assoc(x + o, "\" \U{2192} \"", n);
    Assoc(x + o, "\" \U{2192} \"" + n, "\". ");
    Assoc(x + o, y, tail);
    ContainsMiddle(x, o, y + tail);
  }

  /** The timeline entry at position `k` is the record of step `i`, and so holds the superseded fact. */
  predicate Records(entry: TimelineEntry, fact: string, steps: seq<Step>, i: nat)
    requires i < |steps|
  {
    && entry.raw == RevisionEntry(steps[i].today, FactBefore(fact, steps, i), steps[i].newFact, steps[i].attribution)
    && Contains(entry.raw, FactBefore(fact, steps, i))
  }

  /**
   A chain of revisions is never refused; the last fact stands in the zone, and the Timeline grows by
   exactly the records of the superseded facts, in order.
   */
  lemma {:induction false} ChainKeepsJourney(content: string, fact: string, steps: seq<Step>)
    requires WellFormed(content) && Contains(CompiledTruthOf(content), fact) && ChainAllowed(content, fact, steps)
    ensures Chain(content, fact, steps).Some?
    ensures var c, m := Chain(content, fact, steps).value, |TimelineOf(content)|;
      && WellFormed(c)
      && Contains(CompiledTruthOf(c), FactBefore(fact, steps, |steps|))
      && TimelineOf(content) <= TimelineOf(c) && |TimelineOf(c)| == m + |steps|
      && forall k | m <= k < m + |steps| :: Records(TimelineOf(c)[k], fact, steps, k - m)
    decreases |steps|
  {
    hide WellFormed, CompiledTruthOf, TimelineOf, SplitFrontmatter, RewriteCompiledTruth, ReviseBelief,
      RevisionEntry, Contains, ReplaceFirst, RevisionAllowed, RStrip, ParseEntry, Stays, Blank, SkipBlank, Before;
    if steps != [] {
      var s, rest := steps[0], steps[1..];
      ReviseExact(content, fact, s.newFact, s.attribution, s.today);
      RevisionIsHeld(content, fact, s.newFact, s.attribution, s.today);
      var next := ReviseBelief(content, fact, s.newFact, s.attribution, s.today).value;
      ChainKeepsJourney(next, s.newFact, rest);
      var c, m := Chain(next, s.newFact, rest).value, |TimelineOf(content)|;
      EntryHoldsOldFact(s.today, fact, s.newFact, s.attribution);
      RecordIsRaw(content, fact, s.newFact, s.attribution, s.today);
      forall k | m <= k < m + |steps| ensures Records(TimelineOf(c)[k], fact, steps, k - m) {
        if k > m {
          assert Records(TimelineOf(c)[k], s.newFact, rest, k - m - 1);
        }
      }
    }
  }

  lemma RecordIsRaw(content: string, o: string, n: string, a: string, d: string)
    requires RevisionAllowed(content, o, n, a, d)
    ensures RevisionRecord(o, n, a, d).raw == RevisionEntry(d, o, n, a)
  {
    hide RevisionEntry, IsDate, OneLine, Clean, ReplaceFirst, CompiledTruthOf, Lacks;
  }
}
