/** The two-zone page: parsing, validation and the two text mutators (src/mimir/compiled_truth.py). */
module CompiledTruth {
  import opened Text
  import opened Patterns

  const TRUTH_HEADING: string := "## Compiled Truth"
  const TIMELINE_HEADING: string := "## Timeline"
  const SECTION: string := "## "

  datatype PageType = Directive | Decision | Goal | Preference | Observation | Entity | Topic
  datatype Confidence = High | Medium | Low
  datatype EntityType = Person | Project | Concept | Technology | Organization | Strategy

  /** The frontmatter fields of a page; absent and unknown values are both `None`, absent lists empty. */
  datatype Meta = Meta(
    pageType: Option<PageType>, confidence: Option<Confidence>, entityType: Option<EntityType>,
    relatedEntities: seq<string>, sourceIds: seq<string>)

  const NO_META := Meta(None, None, None, [], [])

  datatype TimelineEntry =
    TimelineEntry(raw: string, date: string, description: string, source: string, hasSource: bool)

  datatype Page = Page(raw: string, meta: Meta, compiledTruth: string, timelineEntries: seq<TimelineEntry>)

  datatype ValidationError =
    | MissingCompiledTruth
    | MissingTimeline
    | TimelineEntryNoSource(raw: string)
    | EntityTypeMismatch

  // ---- Frontmatter ----

  /** `(.*?)\n---\n?`: what remains after the line that closes the frontmatter. */
  function AfterClosing(s: string): (r: Option<string>)
    ensures r.Some? ==> 4 <= |s| && |r.value| <= |s| - 4 && r.value == s[|s| - |r.value|..]
  {
    if "\n---" <= s then Some(if "\n---\n" <= s then s[5..] else s[4..])
    else if s == "" then None
    else AfterClosing(s[1..])
  }

  /** The frontmatter block with its delimiters, and the body. */
  function SplitFrontmatter(content: string): (c: Cut)
    ensures c.before + c.after == content
  {
    if "---\n" <= content && AfterClosing(content[4..]).Some? then
      var body := AfterClosing(content[4..]).value;
      TailOfTail(content, 4, |body|);
      Cut(content[..|content| - |body|], body)
    else Cut("", content)
  }

  function StripFrontmatter(content: string): string {
    SplitFrontmatter(content).after
  }

  /** `yaml` reads the opaque block; a page without one has no fields. */
  function ParseMeta(content: string, yaml: string -> Meta): Meta {
    var front := SplitFrontmatter(content).before;
    if front == "" then NO_META else yaml(front)
  }

  // ---- Parsing ----

  function ExtractZone(body: string, heading: string): string {
    match Locate(body, heading, true, true)
    case None => ""
    case Some(cut) => RStrip(TakeSection(cut.after, SECTION, true).before)
  }

  predicate IsDigit(c: char) {
    '0' <= c <= '9'
  }

  /** `\d{4}-\d{2}-\d{2}`. */
  predicate IsDate(s: string) {
    && |s| == 10
    && s[4] == '-' && s[7] == '-'
    && forall i | 0 <= i < 10 && i != 4 && i != 7 :: IsDigit(s[i])
  }

  /** `[^\]]+\]`: the text up to the first closing bracket. */
  function UpToBracket(s: string): Option<string> {
    if s == "" then None
    else if s[0] == ']' then Some("")
    else match UpToBracket(s[1..])
      case None => None
      case Some(t) => Some([s[0]] + t)
  }

  const SOURCE_OPEN: string := "[Source: "

  predicate SourceHere(s: string) {
    SOURCE_OPEN <= s && UpToBracket(s[|SOURCE_OPEN|..]).Some? && UpToBracket(s[|SOURCE_OPEN|..]).value != ""
  }

  /** The leftmost `\[Source: ([^\]]+)\]`: the text before it, and its content. */
  function FindSource(s: string): Option<(string, string)> {
    if SourceHere(s) then Some(("", UpToBracket(s[|SOURCE_OPEN|..]).value))
    else if s == "" then None
    else match FindSource(s[1..])
      case None => None
      case Some((before, source)) => Some(([s[0]] + before, source))
  }

  function RStripDots(s: string): string {
    if s != "" && s[|s| - 1] in ". " then RStripDots(s[..|s| - 1]) else s
  }

  const BULLET: string := "- "

  /** The entry written on a stripped line that starts with `- `. */
  function ParseEntry(stripped: Line): TimelineEntry
    requires BULLET <= stripped
  {
    var text := stripped[2..];
    if |text| > 12 && IsDate(text[..10]) && text[10..12] == ": " then
      var rest := text[12..];
      match FindSource(rest)
      case Some((before, source)) =>
        TimelineEntry(stripped, text[..10], RStripDots(before), source, true)
      case None =>
        TimelineEntry(stripped, text[..10], rest, "", false)
    else
      TimelineEntry(stripped, "", text, "", false)
  }

  /** The entry of one line, if it is a bullet. */
  function EntryOfLine(line: Line): seq<TimelineEntry> {
    if BULLET <= Strip(line) then [ParseEntry(Strip(line))] else []
  }

  function EntriesOfLines(lines: seq<Line>): seq<TimelineEntry> {
    if lines == [] then [] else EntryOfLine(lines[0]) + EntriesOfLines(lines[1..])
  }

  /** All timeline entries written in a text. */
  function Entries(text: string): seq<TimelineEntry> {
    EntriesOfLines(SplitLines(text))
  }

  lemma {:induction false} EntriesOfLinesConcat(a: seq<Line>, b: seq<Line>)
    ensures EntriesOfLines(a + b) == EntriesOfLines(a) + EntriesOfLines(b)
  {
    if a == [] {
      assert a + b == b;
    } else {
      assert (a + b)[1..] == a[1..] + b;
      EntriesOfLinesConcat(a[1..], b);
    }
  }

  lemma EntriesOfLinesSnoc(lines: seq<Line>, i: nat)
    requires i < |lines|
    ensures EntriesOfLines(lines[..i + 1]) == EntriesOfLines(lines[..i]) + EntryOfLine(lines[i])
  {
    hide EntryOfLine;
    EntriesOfLinesConcat(lines[..i], [lines[i]]);
    assert lines[..i + 1] == lines[..i] + [lines[i]];
    assert EntriesOfLines([lines[i]]) == EntryOfLine(lines[i]) + [];
  }

  method ParseTimelineEntries(timelineBody: string) returns (entries: seq<TimelineEntry>)
    ensures entries == Entries(timelineBody)
  {
    entries := [];
    var lines := SplitLines(timelineBody);
    for i := 0 to |lines|
      invariant entries == EntriesOfLines(lines[..i])
    {
      var stripped := Strip(lines[i]);
      EntriesOfLinesSnoc(lines, i);
      if !(BULLET <= stripped) {
        continue;
      }
      entries := entries + [ParseEntry(stripped)];
    }
    assert lines[..|lines|] == lines;
  }

  function CompiledTruthOf(content: string): string {
    ExtractZone(StripFrontmatter(content), TRUTH_HEADING)
  }

  function TimelineOf(content: string): seq<TimelineEntry> {
    Entries(ExtractZone(StripFrontmatter(content), TIMELINE_HEADING))
  }

  method ParsePage(content: string, yaml: string -> Meta) returns (page: Page)
    ensures page == Page(content, ParseMeta(content, yaml), CompiledTruthOf(content), TimelineOf(content))
  {
    var body := StripFrontmatter(content);
    var timelineBody := ExtractZone(body, TIMELINE_HEADING);
    var entries := ParseTimelineEntries(timelineBody);
    page := Page(content, ParseMeta(content, yaml), ExtractZone(body, TRUTH_HEADING), entries);
  }

  // ---- Validation ----

  predicate RequiresZones(meta: Meta) {
    meta.pageType in {Some(Entity), Some(Directive), Some(Decision)}
  }

  /** The page types that must have both zones. */
  predicate MustHaveZones(pageType: Option<PageType>) {
    match pageType
    case Some(Entity) => true
    case Some(Directive) => true
    case Some(Decision) => true
    case Some(Goal) => false
    case Some(Preference) => false
    case Some(Observation) => false
    case Some(Topic) => false
    case None => false
  }

  /** A page with nothing to report. */
  predicate Compliant(content: string, yaml: string -> Meta) {
    var meta := ParseMeta(content, yaml);
    var body := StripFrontmatter(content);
    && (MustHaveZones(meta.pageType) ==> Contains(body, "## Compiled Truth") && Contains(body, "## Timeline"))
    && (forall e | e in TimelineOf(content) :: e.hasSource)
    && (meta.pageType == Some(Entity) ==> meta.entityType.Some?)
  }

  function UnsourcedErrors(entries: seq<TimelineEntry>): seq<ValidationError> {
    if entries == [] then []
    else
      UnsourcedErrors(entries[..|entries| - 1])
      + if entries[|entries| - 1].hasSource then [] else [TimelineEntryNoSource(entries[|entries| - 1].raw)]
  }

  function ZoneErrors(meta: Meta, body: string): seq<ValidationError> {
    (if RequiresZones(meta) && !Contains(body, TRUTH_HEADING) then [MissingCompiledTruth] else [])
    + (if RequiresZones(meta) && !Contains(body, TIMELINE_HEADING) then [MissingTimeline] else [])
  }

  function ValidationErrors(content: string, yaml: string -> Meta): seq<ValidationError> {
    var meta := ParseMeta(content, yaml);
    ZoneErrors(meta, StripFrontmatter(content)) + UnsourcedErrors(TimelineOf(content))
    + (if meta.pageType == Some(Entity) && meta.entityType.None? then [EntityTypeMismatch] else [])
  }

  lemma {:induction false} UnsourcedErrorsMember(entries: seq<TimelineEntry>, error: ValidationError)
    ensures error in UnsourcedErrors(entries) <==>
      error.TimelineEntryNoSource? && exists e :: e in entries && !e.hasSource && e.raw == error.raw
  {
    if entries != [] {
      var init, last := entries[..|entries| - 1], entries[|entries| - 1];
      UnsourcedErrorsMember(init, error);
      assert entries == init + [last];
    }
  }

  /**
   Each error is reported exactly when its defect is present, and none is reported without a defect.  A
   missing zone is a defect of entity, directive and decision pages alone.
   */
  lemma ValidationMeaning(content: string, yaml: string -> Meta, raw: string)
    ensures var errors, meta, body := ValidationErrors(content, yaml), ParseMeta(content, yaml),
      StripFrontmatter(content);
      && (errors == [] <==> Compliant(content, yaml))
      && (MissingCompiledTruth in errors <==>
          meta.pageType in {Some(Entity), Some(Directive), Some(Decision)} && !Contains(body, "## Compiled Truth"))
      && (MissingTimeline in errors <==>
          meta.pageType in {Some(Entity), Some(Directive), Some(Decision)} && !Contains(body, "## Timeline"))
      && (TimelineEntryNoSource(raw) in errors <==>
          exists e :: e in TimelineOf(content) && !e.hasSource && e.raw == raw)
      && (EntityTypeMismatch in errors <==> meta.pageType == Some(Entity) && meta.entityType.None?)
  {
    hide TimelineOf, ParseMeta, StripFrontmatter, Contains;
    var entries := TimelineOf(content);
    UnsourcedErrorsMember(entries, TimelineEntryNoSource(raw));
    UnsourcedErrorsMember(entries, MissingCompiledTruth);
    UnsourcedErrorsMember(entries, MissingTimeline);
    UnsourcedErrorsMember(entries, EntityTypeMismatch);
    NoUnsourcedErrors(entries);
  }

  lemma {:induction false} NoUnsourcedErrors(entries: seq<TimelineEntry>)
    ensures UnsourcedErrors(entries) == [] <==> forall e | e in entries :: e.hasSource
  {
    if entries != [] {
      var init, last := entries[..|entries| - 1], entries[|entries| - 1];
      NoUnsourcedErrors(init);
      assert entries == init + [last];
    }
  }

  lemma {:induction false} UnsourcedJoin(a: seq<TimelineEntry>, b: seq<TimelineEntry>)
    ensures UnsourcedErrors(a + b) == UnsourcedErrors(a) + UnsourcedErrors(b)
  {
    if b == [] {
      assert a + b == a;
    } else {
      assert (a + b)[..|a + b| - 1] == a + b[..|b| - 1];
      UnsourcedJoin(a, b[..|b| - 1]);
    }
  }

  /** The place of an error in a report. */
  function Rank(e: ValidationError): nat {
    match e
    case MissingCompiledTruth => 0
    case MissingTimeline => 1
    case TimelineEntryNoSource(_) => 2
    case EntityTypeMismatch => 3
  }

  /**
   Errors are reported by kind: missing zones, entries without source, the entity type.  One more entry in
   the Timeline adds its error behind those of the earlier ones.
   */
  lemma ErrorsInOrder(content: string, yaml: string -> Meta, i: nat, j: nat)
    ensures var errors := ValidationErrors(content, yaml);
      i < j < |errors| ==>
        Rank(errors[i]) <= Rank(errors[j]) && (errors[i].TimelineEntryNoSource? || errors[i] != errors[j])
    ensures exists before, after ::
      && ValidationErrors(content, yaml) == before + UnsourcedErrors(TimelineOf(content)) + after
      && forall e | e in before + after :: !e.TimelineEntryNoSource?
  {
    hide TimelineOf, ParseMeta, StripFrontmatter, Contains;
    var meta, u := ParseMeta(content, yaml), UnsourcedErrors(TimelineOf(content));
    var zones := ZoneErrors(meta, StripFrontmatter(content));
    var last := if meta.pageType == Some(Entity) && meta.entityType.None? then [EntityTypeMismatch] else [];
    forall e | e in u ensures e.TimelineEntryNoSource? { UnsourcedErrorsMember(TimelineOf(content), e); }
    assert ValidationErrors(content, yaml) == zones + u + last;
    assert forall k | 0 <= k < |u| :: u[k] in u;
  }

  /** What the validator reports of a page, kind by kind. */
  method ValidatePage(content: string, yaml: string -> Meta) returns (errors: seq<ValidationError>)
    ensures errors == [] <==> Compliant(content, yaml)
    ensures var zones, body := MustHaveZones(ParseMeta(content, yaml).pageType), StripFrontmatter(content);
      && (MissingCompiledTruth in errors <==> zones && !Contains(body, "## Compiled Truth"))
      && (MissingTimeline in errors <==> zones && !Contains(body, "## Timeline"))
    ensures errors == ValidationErrors(content, yaml)
  {
    errors := CollectErrors(content, yaml);
    hide ValidationErrors, Compliant, TimelineOf, ParseMeta, StripFrontmatter, Contains;
    ValidationMeaning(content, yaml, "");
  }

  method CollectErrors(content: string, yaml: string -> Meta) returns (errors: seq<ValidationError>)
    ensures errors == ValidationErrors(content, yaml)
  {
    hide TimelineOf, CompiledTruthOf, ParseMeta, StripFrontmatter, RequiresZones, Contains;
    errors := [];
    var page := ParsePage(content, yaml);
    var body := StripFrontmatter(content);
    var requiresZones := RequiresZones(page.meta);
    if requiresZones && !Contains(body, TRUTH_HEADING) {
      errors := errors + [MissingCompiledTruth];
    }
    if requiresZones && !Contains(body, TIMELINE_HEADING) {
      errors := errors + [MissingTimeline];
    }
    ghost var zoneErrors := errors;
    assert zoneErrors == ZoneErrors(page.meta, body);
    hide ZoneErrors;
    var entries := page.timelineEntries;
    for i := 0 to |entries|
      invariant errors == zoneErrors + UnsourcedErrors(entries[..i])
    {
      assert entries[..i + 1][..i] == entries[..i];
      if !entries[i].hasSource {
        errors := errors + [TimelineEntryNoSource(entries[i].raw)];
      }
    }
    assert entries[..|entries|] == entries;
    if page.meta.pageType == Some(Entity) && page.meta.entityType.None? {
      errors := errors + [EntityTypeMismatch];
    }
  }

  // ---- Mutation ----

  /** The timeline text `existing` with an entry line after it. */
  function WithEntry(existing: string, entryLine: string): string {
    var kept := RStripNewlines(existing);
    kept + (if kept == "" then "" else "\n") + "\n" + entryLine
  }

  function AppendTimelineEntry(content: string, entry: string): string {
    var entryLine := RStripNewlines(entry);
    if Contains(content, TIMELINE_HEADING) then
      match Locate(content, TIMELINE_HEADING, false, true)
      case Some(cut) =>
        var body := TakeBody(cut.after, SECTION);
        cut.before + WithEntry(body.before, entryLine) + body.after
      case None =>
        var idx := |Before(content, TIMELINE_HEADING)| + |TIMELINE_HEADING|;
        content[..idx] + "\n\n" + entryLine + content[idx..]
    else
      content + (if EndsWithNewline(content) then "" else "\n")
      + "\n" + TIMELINE_HEADING + "\n\n" + entryLine + "\n"
  }

  function RewriteCompiledTruth(content: string, newTruth: string): string {
    var body := RStripNewlines(newTruth) + "\n";
    if Contains(content, TRUTH_HEADING) && Locate(content, TRUTH_HEADING, false, true).Some? then
      var cut := Locate(content, TRUTH_HEADING, false, true).value;
      cut.before + body + "\n" + TakeSection(cut.after, SECTION, true).after
    else if Contains(content, TIMELINE_HEADING) then
      var before := Before(content, TIMELINE_HEADING);
      before + TRUTH_HEADING + "\n\n" + body + "\n" + content[|before|..]
    else
      content + (if EndsWithNewline(content) then "" else "\n")
      + "\n" + TRUTH_HEADING + "\n\n" + body
  }

  /** The timeline line that records a revision on the day `today`. */
  function RevisionEntry(today: string, oldFact: string, newFact: string, attribution: string): string {
    "- " + today + ": belief revised: \"" + oldFact + "\" \U{2192} \"" + newFact + "\". [Source: " + attribution + "]"
  }

  /** `None` is the error of a fact that the Compiled Truth zone does not hold. */
  function ReviseBelief(
    content: string, oldFact: string, newFact: string, attribution: string, today: string): Option<string>
  {
    var truth := CompiledTruthOf(content);
    if !Contains(truth, oldFact) then None
    else
      var revised := RewriteCompiledTruth(content, ReplaceFirst(truth, oldFact, newFact));
      Some(AppendTimelineEntry(revised, RevisionEntry(today, oldFact, newFact, attribution)))
  }
}
