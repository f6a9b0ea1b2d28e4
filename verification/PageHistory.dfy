/** Whole histories of a page: appends, rewrites and belief revisions in any order. */
module PageHistory {
  import opened Text
  import opened CompiledTruth
  import opened TimelineText
  import opened PageShape
  import opened PageRecognition
  import opened TimelineLog
  import opened Revision

  datatype Edit =
    | Append(entry: string)
    | Rewrite(truth: string)
    | Revise(oldFact: string, newFact: string, attribution: string, today: string)

  /** The page after an edit; a refused revision leaves it as it was. */
  function Apply(content: string, edit: Edit): string {
    match edit
    case Append(entry) => AppendTimelineEntry(content, entry)
    case Rewrite(truth) => RewriteCompiledTruth(content, truth)
    case Revise(o, n, a, d) =>
      match ReviseBelief(content, o, n, a, d)
      case Some(c) => c
      case None => content
  }

  /** What the format asks of an edit's texts. */
  predicate Allowed(content: string, edit: Edit) {
    match edit
    case Append(entry) => Clean(entry) && OneLine(RStripNewlines(entry)) && BULLET <= Strip(RStripNewlines(entry))
    case Rewrite(truth) => Clean(truth)
    case Revise(o, n, a, d) => Contains(CompiledTruthOf(content), o) ==> RevisionAllowed(content, o, n, a, d)
  }

  /** The entry that records a revision. */
  function RevisionRecord(o: string, n: string, a: string, d: string): TimelineEntry
    requires IsDate(d) && OneLine(o) && OneLine(n) && OneLine(a)
  {
    RevisionEntryIsLine(d, o, n, a);
    ParseEntry(RevisionEntry(d, o, n, a))
  }

  /** The timeline entries that an edit leaves: one for an append or a revision that is made, else none. */
  function Logged(content: string, edit: Edit): (r: seq<TimelineEntry>)
    requires Allowed(content, edit)
    ensures |r| == if edit.Append? || (edit.Revise? && Contains(CompiledTruthOf(content), edit.oldFact)) then 1 else 0
  {
    match edit
    case Append(entry) => [ParseEntry(Strip(RStripNewlines(entry)))]
    case Rewrite(truth) => []
    case Revise(o, n, a, d) =>
      if Contains(CompiledTruthOf(content), o) then
        [RevisionRecord(o, n, a, d)]
      else []
  }

  /** A revision that is made rewrites the truth, logs one line, and keeps the page well-formed. */
  lemma ReviseExact(content: string, o: string, n: string, a: string, d: string)
    requires WellFormed(content) && Contains(CompiledTruthOf(content), o)
    requires RevisionAllowed(content, o, n, a, d)
    ensures ReviseBelief(content, o, n, a, d).Some?
    ensures var c := ReviseBelief(content, o, n, a, d).value;
      && WellFormed(c)
      && TimelineOf(c) == TimelineOf(content) + [RevisionRecord(o, n, a, d)]
      && CompiledTruthOf(c)
        == CompiledTruthOf(RewriteCompiledTruth(content, ReplaceFirst(CompiledTruthOf(content), o, n)))
      && SplitFrontmatter(c).before == SplitFrontmatter(content).before
  {
    hide TwoZoned, TimelineOpen, CompiledTruthOf, TimelineOf, SplitFrontmatter, RewriteCompiledTruth,
      AppendTimelineEntry, RevisionEntry, Contains, ReplaceFirst, Clean, Lacks, OneLine, Entries;
    var truth := CompiledTruthOf(content);
    var t := ReplaceFirst(truth, o, n);
    RewriteKeeps(content, t);
    RevisionEntryClean(content, o, n, a, d);
    AppendGrows(RewriteCompiledTruth(content, t), RevisionEntry(d, o, n, a));
    DateIsOneLine(d);
    RevisionIsOneEntry(d, o, n, a);
  }

  /** Every allowed edit keeps the page well-formed and adds to the Timeline what it logs, and nothing else. */
  lemma ApplyLogs(content: string, edit: Edit)
    requires WellFormed(content) && Allowed(content, edit)
    ensures WellFormed(Apply(content, edit))
    ensures TimelineOf(Apply(content, edit)) == TimelineOf(content) + Logged(content, edit)
    ensures SplitFrontmatter(Apply(content, edit)).before == SplitFrontmatter(content).before
  {
    hide TwoZoned, TimelineOpen, CompiledTruthOf, TimelineOf, SplitFrontmatter, RewriteCompiledTruth,
      AppendTimelineEntry, RevisionEntry, Contains, ReplaceFirst, Clean, Lacks, OneLine, Entries, ParseEntry, Strip,
      RStripNewlines;
    match edit
    case Append(entry) =>
      AppendGrows(content, entry);
      EntriesTrimNewlines(entry);
      EntriesOfLine(RStripNewlines(entry));
    case Rewrite(truth) =>
      RewriteKeeps(content, truth);
    case Revise(o, n, a, d) =>
      if Contains(CompiledTruthOf(content), o) {
        ReviseExact(content, o, n, a, d);
      }
  }

  // ---- Histories ----

  function Run(content: string, edits: seq<Edit>): string
    decreases |edits|
  {
    if edits == [] then content else Run(Apply(content, edits[0]), edits[1..])
  }

  predicate AllAllowed(content: string, edits: seq<Edit>)
    decreases |edits|
  {
    edits == [] || (Allowed(content, edits[0]) && AllAllowed(Apply(content, edits[0]), edits[1..]))
  }

  function Log(content: string, edits: seq<Edit>): seq<TimelineEntry>
    requires AllAllowed(content, edits)
    decreases |edits|
  {
    if edits == [] then []
    else Logged(content, edits[0]) + Log(Apply(content, edits[0]), edits[1..])
  }

  /** The number of edits that record something: appends, and revisions of a fact that is held. */
  function Recorded(content: string, edits: seq<Edit>): nat
    decreases |edits|
  {
    if edits == [] then 0
    else
      (if edits[0].Append? || (edits[0].Revise? && Contains(CompiledTruthOf(content), edits[0].oldFact)) then 1 else 0)
      + Recorded(Apply(content, edits[0]), edits[1..])
  }

  lemma {:induction false} RunLogs(content: string, edits: seq<Edit>)
    requires WellFormed(content) && AllAllowed(content, edits)
    ensures WellFormed(Run(content, edits))
    ensures TimelineOf(Run(content, edits)) == TimelineOf(content) + Log(content, edits)
    ensures |Log(content, edits)| == Recorded(content, edits)
    ensures SplitFrontmatter(Run(content, edits)).before == SplitFrontmatter(content).before
    decreases |edits|
  {
    hide WellFormed, TimelineOf, SplitFrontmatter, Apply, Logged, Allowed, CompiledTruthOf, Contains;
    if edits != [] {
      ApplyLogs(content, edits[0]);
      RunLogs(Apply(content, edits[0]), edits[1..]);
    }
  }

  lemma {:induction false} RunSplit(content: string, edits: seq<Edit>, i: nat)
    requires i <= |edits|
    ensures Run(content, edits) == Run(Run(content, edits[..i]), edits[i..])
    ensures AllAllowed(content, edits) <==>
      AllAllowed(content, edits[..i]) && AllAllowed(Run(content, edits[..i]), edits[i..])
    decreases |edits|
  {
    hide Apply, Allowed;
    if i == 0 {
      assert edits[0..] == edits;
    } else {
      var rest := edits[1..];
      RunSplit(Apply(content, edits[0]), rest, i - 1);
      assert edits[..i][1..] == rest[..i - 1] && edits[i..] == rest[i - 1..];
    }
  }

  /**
   Along any history the page stays well-formed, and the Timeline of every earlier state, followed by
   one entry for each recorded edit since, is the Timeline of every later state.
   */
  lemma HistoryIsAppendOnly(content: string, edits: seq<Edit>, i: nat, j: nat)
    requires WellFormed(content) && AllAllowed(content, edits) && i <= j <= |edits|
    ensures var earlier, later := Run(content, edits[..i]), Run(content, edits[..j]);
      && WellFormed(earlier) && WellFormed(later)
      && TimelineOf(earlier) <= TimelineOf(later)
      && |TimelineOf(later)| == |TimelineOf(earlier)| + Recorded(earlier, edits[i..j])
      && SplitFrontmatter(later).before == SplitFrontmatter(content).before
  {
    hide WellFormed, TimelineOf, SplitFrontmatter, Run, AllAllowed, Recorded;
    var upto := edits[..j];
    RunSplit(content, edits, j);
    RunSplit(content, upto, i);
    assert upto[..i] == edits[..i] && upto[i..] == edits[i..j];
    RunLogs(content, upto);
    RunLogs(content, edits[..i]);
    RunLogs(Run(content, edits[..i]), edits[i..j]);
  }
}
