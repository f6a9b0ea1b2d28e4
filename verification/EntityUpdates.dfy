/** Ingesting sources into entity pages, over whole histories (src/ravn/adapters/tools/entity_extractor.py:175-343). */
module EntityUpdates {
  import opened Text
  import opened Patterns
  import opened CompiledTruth
  import opened PageShape
  import opened PageRecognition
  import opened PageHistory
  import opened PageJourney
  import opened TimelineLog
  import opened Revision
  import opened Evidence
  import opened EntityPages
  import opened FactLists
  import opened FactMerge
  import opened SourceMarkers

  // ---- Citations ----

  /** Some entry names the source. */
  predicate Cites(entries: seq<TimelineEntry>, id: string) {
    exists e :: e in entries && Contains(e.source, id)
  }

  /**
   The line of a source names it: the title carries no whole source marker and the id no closing bracket,
   or the title's marker names the source as well.
   */
  predicate SelfCiting(source: IngestedSource) {
    match FindSource(Detected(source.title))
    case None => ']' !in source.id
    case Some((_, marked)) => Contains(marked, source.id)
  }

  lemma {:induction false} ContainsHolds(s: string, h: string, c: char)
    requires Contains(s, h) && c in h
    ensures c in s
  {
    if h <= s {
      var i :| 0 <= i < |h| && h[i] == c;
      assert s[i] == c;
    } else {
      ContainsHolds(s[1..], h, c);
    }
  }

  lemma CitationHolds(s: string, id: string, date: string)
    requires Contains(s, Citation(id, date))
    ensures Contains(s, id)
  {
    hide Contains, Before;
    ContainsItself(id);
    assert Citation(id, date) == "mimir_ingest, " + id + (", " + date);
    AroundMiddle("mimir_ingest, ", id, ", " + date, id);
    var b := Before(s, Citation(id, date));
    var k := |b|;
    assert s == b + Citation(id, date) + s[k..][|Citation(id, date)|..];
    AroundMiddle(b, Citation(id, date), s[k..][|Citation(id, date)|..], id);
  }

  /**
   The recorded line is read as one entry with its date and a source exactly if title and id are single
   lines, and names its source then exactly if neither of them hides it.
   */
  lemma LineCitesSource(source: IngestedSource, date: string)
    requires IsDate(date)
    ensures ReadSourced(TimelineLine(source, date), date) <==> OneLine(source.title) && OneLine(source.id)
    ensures OneLine(source.title) && OneLine(source.id) ==>
      && Entries(TimelineLine(source, date)) == [SourceRecord(source, date)]
      && (Contains(SourceRecord(source, date).source, source.id) <==> SelfCiting(source))
  {
    hide OneLine, IsDate, TimelineLine, Entries, ReadSourced, SelfCiting, IsSpace, SourceRecord;
    var line := TimelineLine(source, date);
    LineParts(source, date);
    LineIsOneLine(source, date);
    ReadSourcedLine(line, date);
    if OneLine(line) {
      RecordCites(source, date);
    }
  }

  lemma RecordCites(source: IngestedSource, date: string)
    requires IsDate(date) && OneLine(source.title) && OneLine(source.id)
    ensures OneLine(TimelineLine(source, date)) && BULLET <= TimelineLine(source, date)
    ensures var e := ParseEntry(TimelineLine(source, date));
      && e == SourceRecord(source, date) && e.hasSource && e.date == date
      && (Contains(e.source, source.id) <==> SelfCiting(source))
  {
    hide IsDate, FindSource, Contains, Detected, Citation, SourceHere, UpToBracket, Marker, OneLine;
    LineIsBullet(source, date);
    var line, c := TimelineLine(source, date), Citation(source.id, date);
    var rest := Detected(source.title) + Marker(c);
    LineParts(source, date);
    CitationStarts(source.id, date);
    MarkerIs(c);
    SourceHereIff(c);
    SourceBehind(Detected(source.title), Marker(c));
    DateLength(date);
    DateText(date, rest);
    var found := FindSource(rest).value.1;
    if FindSource(Detected(source.title)).None? {
      if ']' in source.id {
        SourceHasNoBracket(rest);
        if Contains(found, source.id) { ContainsHolds(found, source.id, ']'); }
      } else {
        MarkerIsSource(c);
        CitationHolds(found, source.id, date);
      }
    }
  }

  lemma CitationStarts(id: string, date: string)
    requires IsDate(date)
    ensures var c := Citation(id, date); c != "" && c[0] != ']' && (']' !in id ==> ']' !in c)
  {
  }

  /**
   The recorded line is parsed back into its day, the title of the source that the entity was detected in,
   and the citation of its id, exactly if these are single lines and no source marker opens in the title.
   */
  lemma DetectionReadBack(source: IngestedSource, date: string)
    requires IsDate(date) && ']' !in source.id
    ensures var line, d := TimelineLine(source, date), "Detected in source '" + source.title + "'";
      Entries(line) == [TimelineEntry(line, date, d, "mimir_ingest, " + source.id + ", " + date, true)]
      <==> OneLine(source.title) && OneLine(source.id) && !OpensSource(d + ". ")
  {
    hide IsDate, OpensSource, OneLine, Entries, TimelineLine, FormattedEntry;
    var d, c := "Detected in source '" + source.title + "'", Citation(source.id, date);
    assert "'" + ". " == "'. ";
    Assoc("Detected in source '" + source.title, "'", ". ");
    TimelineLineIsFormatted(source, date, d);
    CitationStarts(source.id, date);
    assert d != "" && d[|d| - 1] == '\'';
    EntryReadBack(date, d, c);
    DetectionOneLine(source, date);
  }

  lemma DetectionOneLine(source: IngestedSource, date: string)
    requires IsDate(date)
    ensures OneLine("Detected in source '" + source.title + "'") <==> OneLine(source.title)
    ensures OneLine(Citation(source.id, date)) <==> OneLine(source.id)
  {
    hide OneLine, IsDate;
    DateIsOneLine(date);
    FixedPartsAreOneLine();
    assert OneLine("'") by { AposIsOneLine(); }
    OneLineConcat("Detected in source '", source.title);
    OneLineConcat("Detected in source '" + source.title, "'");
    OneLineConcat("mimir_ingest, ", source.id);
    OneLineConcat("mimir_ingest, " + source.id, ", ");
    OneLineConcat("mimir_ingest, " + source.id + ", ", date);
  }

  lemma AposIsOneLine()
    ensures OneLine("'")
  {
  }

  lemma TimelineLineIsFormatted(source: IngestedSource, date: string, d: string)
    requires Detected(source.title) == d + ". "
    ensures TimelineLine(source, date) == FormattedEntry(date, d, Citation(source.id, date))
  {
    hide Detected, Citation;
    MarkerIs(Citation(source.id, date));
    Assoc(d, ". ", Marker(Citation(source.id, date)));
  }

  /** A new page validates, given that its frontmatter is read as it was written. */
  lemma NewPageValidates(e: EntityFinding, source: IngestedSource, date: string, yaml: string -> Meta)
    requires PlainEntity(e) && PlainSource(source) && IsDate(date)
    requires yaml(NewFrontmatter(e, source.id)).pageType == Some(Entity)
    requires yaml(NewFrontmatter(e, source.id)).entityType == Some(e.entityType)
    ensures Compliant(EntityPage(e, source.id, TimelineLine(source, date)), yaml)
  {
    hide PlainFact, TwoZoned, TimelineOpen, TimelineOf, TimelineLine, EntityPage, IsDate, SplitFrontmatter, FactTruth,
      CompiledTruthOf, Contains, SelfCiting, SourceRecord, OneLine, Lacks, Entries;
    var page := EntityPage(e, source.id, TimelineLine(source, date));
    NewPageIsWellFormed(e, source, date);
    ZonesPresent(page);
    LineCitesSource(source, date);
  }

  // ---- Ingesting ----

  /** The page after an ingest of the source: `None` is a page left as it is, or one that is not created. */
  function Written(existing: Option<string>, e: EntityFinding, source: IngestedSource, date: string): Option<string> {
    if e.confidence == Low then None
    else match existing
      case Some(content) =>
        if Cites(TimelineOf(content), source.id) then None
        else Some(Updated(content, e, TimelineLine(source, date)))
      case None =>
        if e.confidence == High then Some(EntityPage(e, source.id, TimelineLine(source, date))) else None
  }

  function Updated(content: string, e: EntityFinding, line: string): string {
    var c := AppendTimelineEntry(content, line);
    if e.confidence == High && e.keyFacts != [] then MergeFacts(c, e.keyFacts) else c
  }

  /** The guard that keeps a source from being recorded twice. */
  method IsCited(content: string, id: string) returns (cited: bool)
    ensures cited == Cites(TimelineOf(content), id)
  {
    hide TimelineOf, Contains;
    var entries := TimelineOf(content);
    for i := 0 to |entries|
      invariant forall j | 0 <= j < i :: !Contains(entries[j].source, id)
    {
      if Contains(entries[i].source, id) {
        return true;
      }
    }
    return false;
  }

  /** What an ingest writes is a well-formed page whose Timeline gained exactly the source's line. */
  lemma IngestLogsOnce(existing: Option<string>, e: EntityFinding, source: IngestedSource, date: string)
    requires PlainEntity(e) && PlainSource(source) && IsDate(date)
    requires existing.Some? ==> WellFormed(existing.value)
    requires Written(existing, e, source, date).Some?
    ensures var c := Written(existing, e, source, date).value;
      && WellFormed(c)
      && TimelineOf(c) == (if existing.Some? then TimelineOf(existing.value) else []) + [SourceRecord(source, date)]
  {
    hide TwoZoned, TimelineOpen, TimelineOf, TimelineLine, EntityPage, AppendTimelineEntry, MergeFacts, Cites, IsDate,
      PlainFact, Clean, CompiledTruthOf, Entries, SplitFrontmatter, OneLine, Strip, RStripNewlines, FactTruth,
      SourceRecord, Lacks;
    var line := TimelineLine(source, date);
    LineIsOneEntry(source, date);
    if existing.Some? {
      AppendGrows(existing.value, line);
      if e.confidence == High && e.keyFacts != [] {
        MergeKeeps(AppendTimelineEntry(existing.value, line), e.keyFacts);
      }
    } else {
      NewPageIsWellFormed(e, source, date);
      assert [] + [SourceRecord(source, date)] == [SourceRecord(source, date)];
    }
  }

  /** Which findings are written: those of a page's new source, and confident ones of a new entity. */
  lemma IngestDecides(existing: Option<string>, e: EntityFinding, source: IngestedSource, date: string)
    ensures Written(existing, e, source, date).None? <==>
      match e.confidence
      case Low => true
      case Medium => existing == None || exists x :: x in TimelineOf(existing.value) && Contains(x.source, source.id)
      case High => existing != None && exists x :: x in TimelineOf(existing.value) && Contains(x.source, source.id)
  {
    hide TimelineOf, Contains, Updated, EntityPage, TimelineLine;
  }

  /** What is written into any page is that page with the line appended and, if confident, the facts merged into it. */
  lemma IngestWrites(content: string, e: EntityFinding, source: IngestedSource, date: string)
    requires Written(Some(content), e, source, date).Some?
    ensures var c, appended := Written(Some(content), e, source, date).value,
        AppendTimelineEntry(content, TimelineLine(source, date));
      && (e.confidence == High && e.keyFacts != [] ==> c == MergeFacts(appended, e.keyFacts))
      && (e.confidence == Medium || e.keyFacts == [] ==> c == appended)
  {
    hide Cites, TimelineOf, AppendTimelineEntry, MergeFacts, TimelineLine;
  }

  /** An ingest into a page merges the facts of a finding of high confidence, and otherwise leaves the truth alone. */
  lemma IngestMerges(content: string, e: EntityFinding, source: IngestedSource, date: string)
    requires WellFormed(content) && PlainEntity(e) && PlainSource(source) && IsDate(date)
    requires Written(Some(content), e, source, date).Some?
    ensures var c, truth := Written(Some(content), e, source, date).value, CompiledTruthOf(content);
      if e.confidence == High && e.keyFacts != [] then
        && ExtractKeyFacts(c) == ExtractKeyFacts(content) + SeenFacts(truth, e.keyFacts)
        && (!Blank(truth) ==> truth + "\n" <= CompiledTruthOf(c))
        && (!Blank(truth) ==> Bullets(CompiledTruthOf(c)[|truth| + 1..]) == ReadFacts(e.keyFacts))
      else CompiledTruthOf(c) == truth
  {
    hide TwoZoned, TimelineOpen, TimelineOf, TimelineLine, EntityPage, AppendTimelineEntry, MergeFacts, Cites, IsDate,
      PlainFact, Clean, CompiledTruthOf, Entries, SplitFrontmatter, OneLine, Strip, RStripNewlines, FactsOfTruth,
      SourceRecord, Lacks, SeenFacts, Blank, Bullets, ReadFacts;
    var line := TimelineLine(source, date);
    LineIsOneEntry(source, date);
    AppendGrows(content, line);
    if e.confidence == High && e.keyFacts != [] {
      MergeIsSeen(AppendTimelineEntry(content, line), e.keyFacts);
      MergePreserves(AppendTimelineEntry(content, line), e.keyFacts);
    }
  }

  // ---- Histories with ingests ----

  datatype Happening =
    | Edited(edit: Edit)
    | Ingested(finding: EntityFinding, source: IngestedSource, date: string)

  function Happen(content: string, h: Happening): string {
    match h
    case Edited(edit) => Apply(content, edit)
    case Ingested(finding, source, date) =>
      match Written(Some(content), finding, source, date)
      case Some(c) => c
      case None => content
  }

  predicate Possible(content: string, h: Happening) {
    match h
    case Edited(edit) => Allowed(content, edit)
    case Ingested(finding, source, date) => PlainEntity(finding) && PlainSource(source) && IsDate(date)
  }

  function After(content: string, hs: seq<Happening>): string
    decreases |hs|
  {
    if hs == [] then content else After(Happen(content, hs[0]), hs[1..])
  }

  predicate AllPossible(content: string, hs: seq<Happening>)
    decreases |hs|
  {
    hs == [] || (Possible(content, hs[0]) && AllPossible(Happen(content, hs[0]), hs[1..]))
  }

  lemma HappeningLogs(content: string, h: Happening)
    requires WellFormed(content) && Possible(content, h)
    ensures WellFormed(Happen(content, h)) && TimelineOf(content) <= TimelineOf(Happen(content, h))
  {
    hide WellFormed, TimelineOf, Written, Apply, Allowed, Logged, PlainEntity, PlainSource, IsDate, SplitFrontmatter,
      ParseEntry, TimelineLine;
    match h
    case Edited(edit) =>
      ApplyLogs(content, edit);
    case Ingested(finding, source, date) =>
      if Written(Some(content), finding, source, date).Some? {
        IngestLogsOnce(Some(content), finding, source, date);
      }
  }

  /** Edits and ingests in any order keep the page well-formed and only add to its Timeline. */
  lemma {:induction false} HappeningsLog(content: string, hs: seq<Happening>)
    requires WellFormed(content) && AllPossible(content, hs)
    ensures WellFormed(After(content, hs)) && TimelineOf(content) <= TimelineOf(After(content, hs))
    decreases |hs|
  {
    hide WellFormed, TimelineOf, Happen, Possible;
    if hs != [] {
      HappeningLogs(content, hs[0]);
      HappeningsLog(Happen(content, hs[0]), hs[1..]);
    }
  }

  /**
   However long after a source was ingested, and whatever edits and other ingests the page has seen since,
   ingesting the source again writes nothing: exactly if the source's own line names it, or a later line
   does, or the new finding is of low confidence.
   */
  lemma ReingestChangesNothing(
    existing: Option<string>, e: EntityFinding, source: IngestedSource, date: string, hs: seq<Happening>,
    again: EntityFinding, later: string)
    requires PlainEntity(e) && PlainSource(source) && IsDate(date)
    requires existing.Some? ==> WellFormed(existing.value)
    requires Written(existing, e, source, date).Some?
    requires AllPossible(Written(existing, e, source, date).value, hs)
    ensures var c := Written(existing, e, source, date).value;
      var now := After(c, hs);
      && TimelineOf(c) <= TimelineOf(now)
      && (Written(Some(now), again, source, later).None?
          <==> again.confidence == Low || SelfCiting(source) || Cites(TimelineOf(now)[|TimelineOf(c)|..], source.id))
  {
    hide WellFormed, TimelineOf, TimelineLine, EntityPage, AppendTimelineEntry, MergeFacts, IsDate, PlainEntity,
      SelfCiting, Updated, Contains, SourceRecord, AllPossible, After, Entries, OneLine, Lacks;
    var c, x := Written(existing, e, source, date).value, SourceRecord(source, date);
    IngestLogsOnce(existing, e, source, date);
    LineCitesSource(source, date);
    HappeningsLog(c, hs);
    var before, now := if existing.Some? then TimelineOf(existing.value) else [], TimelineOf(After(c, hs));
    assert !Cites(before, source.id);
    assert now == before + [x] + now[|TimelineOf(c)|..];
    CitesParts(before, x, now[|TimelineOf(c)|..], source.id);
  }

  lemma CitesParts(a: seq<TimelineEntry>, x: TimelineEntry, b: seq<TimelineEntry>, id: string)
    ensures Cites(a + [x] + b, id) <==> Cites(a, id) || Contains(x.source, id) || Cites(b, id)
  {
    hide Contains;
    var s := a + [x] + b;
    if e :| e in a && Contains(e.source, id) { assert e in s; }
    if Contains(x.source, id) { assert x in s; }
    if e :| e in b && Contains(e.source, id) { assert e in s; }
  }

  // ---- The facts of a created page ----

  /** What is not a rewrite of the truth by other hands. */
  predicate AddsOnly(h: Happening) {
    h.Ingested? || h.edit.Append?
  }

  lemma ClosedStaysClosed(content: string, h: Happening)
    requires WellFormed(content) && Closed(CompiledTruthOf(content)) && Possible(content, h) && AddsOnly(h)
    ensures var c := Happen(content, h);
      WellFormed(c) && Closed(CompiledTruthOf(c)) && ExtractKeyFacts(c) == ExtractKeyFacts(content)
  {
    hide TwoZoned, TimelineOpen, TimelineOf, TimelineLine, AppendTimelineEntry, MergeFacts, Cites, IsDate, PlainFact,
      Closed, PlainSource, Clean, CompiledTruthOf, Entries, SplitFrontmatter, OneLine, Strip, RStripNewlines,
      FactTruth, FactsOfTruth;
    HappeningLogs(content, h) by { WellFormedParts(content); }
    match h
    case Edited(edit) =>
      AppendGrows(content, edit.entry);
    case Ingested(finding, source, date) =>
      if Written(Some(content), finding, source, date).Some? {
        var line := TimelineLine(source, date);
        LineIsOneEntry(source, date);
        AppendGrows(content, line);
        if finding.confidence == High && finding.keyFacts != [] {
          MergeKeepsClosed(AppendTimelineEntry(content, line), finding.keyFacts);
        }
      }
  }

  lemma WellFormedParts(content: string)
    ensures WellFormed(content) <==> TwoZoned(content) && TimelineOpen(content)
  {
  }

  /**
   A created page shows the facts that it was written from, and through any appends and ingests since, with
   whatever facts these merge, it shows those facts and no others.
   */
  lemma NewPageKeepsItsFacts(e: EntityFinding, source: IngestedSource, date: string, hs: seq<Happening>)
    requires PlainEntity(e) && PlainSource(source) && IsDate(date)
    requires AllPossible(EntityPage(e, source.id, TimelineLine(source, date)), hs) && forall h | h in hs :: AddsOnly(h)
    ensures ExtractKeyFacts(After(EntityPage(e, source.id, TimelineLine(source, date)), hs))
      == ReadFacts(ListedFacts(e.keyFacts))
  {
    hide PlainFact, FactTruth, CompiledTruthOf, EntityPage, TimelineLine, WellFormed, FactsOfTruth, Closed,
      AllPossible, After, FactList, IsDate, PlainSource, HasMarkerLine, Blank, TimelineOf, SplitFrontmatter, AddsOnly,
      ReadFacts;
    NoFactsIsPlain();
    NewPageIsWellFormed(e, source, date);
    FactTruthReadBack(ListedFacts(e.keyFacts));
    ClosedThrough(EntityPage(e, source.id, TimelineLine(source, date)), hs);
  }

  lemma {:induction false} ClosedThrough(content: string, hs: seq<Happening>)
    requires WellFormed(content) && Closed(CompiledTruthOf(content))
    requires AllPossible(content, hs) && forall h | h in hs :: AddsOnly(h)
    ensures ExtractKeyFacts(After(content, hs)) == ExtractKeyFacts(content)
    decreases |hs|
  {
    hide WellFormed, Closed, CompiledTruthOf, FactsOfTruth, Happen, Possible, AddsOnly;
    if hs != [] {
      ClosedStaysClosed(content, hs[0]);
      ClosedThrough(Happen(content, hs[0]), hs[1..]);
    }
  }
}
