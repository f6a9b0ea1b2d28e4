/** Entity pages as an ingest writes them (src/ravn/adapters/tools/entity_extractor.py:284-343). */
module EntityPages {
  import opened Text
  import opened Patterns
  import opened CompiledTruth
  import opened TimelineText
  import opened PageShape
  import opened PageRecognition
  import opened TimelineLog
  import opened Revision

  datatype EntityFinding = EntityFinding(name: string, entityType: EntityType, confidence: Confidence,
    keyFacts: seq<string>)

  datatype IngestedSource = IngestedSource(id: string, title: string)

  function TypeName(t: EntityType): string {
    match t
    case Person => "person"
    case Project => "project"
    case Concept => "concept"
    case Technology => "technology"
    case Organization => "organization"
    case Strategy => "strategy"
  }

  function ConfidenceName(c: Confidence): string {
    match c case High => "high" case Medium => "medium" case Low => "low"
  }

  // ---- The texts ----

  function TimelineLine(source: IngestedSource, date: string): string {
    "- " + date + ": " + (Detected(source.title) + (SOURCE_OPEN + (Citation(source.id, date) + "]")))
  }

  function Detected(title: string): string {
    "Detected in source '" + title + "'. "
  }

  function Citation(id: string, date: string): string {
    "mimir_ingest, " + id + ", " + date
  }

  /** The bullets of a list of facts, one a line. */
  function FactLines(facts: seq<string>): string {
    if facts == [] then ""
    else if |facts| == 1 then "- " + facts[0]
    else "- " + facts[0] + ['\n'] + FactLines(facts[1..])
  }

  const NO_FACTS: string := "(no facts extracted)"

  function ListedFacts(facts: seq<string>): seq<string> {
    if facts == [] then [NO_FACTS] else facts
  }

  const SUBSECTIONS: string := "\n" + "### Relationships\n\n### Assessment"

  /** The truth of an entity of which nothing but these facts is known. */
  function FactTruth(facts: seq<string>): string {
    "### Key Facts\n" + ['\n'] + (FactLines(facts) + ['\n'] + SUBSECTIONS)
  }

  function NewTruth(facts: seq<string>): string {
    FactTruth(ListedFacts(facts)) + ['\n'] + "\n"
  }

  function NewFrontmatter(e: EntityFinding, sourceId: string): string {
    "---\n" + ("type: entity" + ("\n" + ("confidence: " + ConfidenceName(e.confidence) + ("\n"
    + ("entity_type: " + TypeName(e.entityType) + ("\n" + ("source_ids: [" + sourceId + "]" + "\n---\n")))))))
  }

  function NewLead(name: string): string {
    "\n# " + name + ['\n'] + "\n"
  }

  /** The page of an entity that had none. */
  function EntityPage(e: EntityFinding, sourceId: string, line: string): string {
    NewFrontmatter(e, sourceId) + (NewLead(e.name)
    + (TRUTH_HEADING + ("\n\n" + (NewTruth(e.keyFacts) + (TIMELINE_HEADING + ("\n\n" + (line + "\n")))))))
  }

  // ---- What is asked of the names, titles and facts ----

  /** A fact on a line of its own, without a zone heading. */
  predicate PlainFact(f: string) {
    OneLine(f) && Lacks(f)
  }

  predicate PlainEntity(e: EntityFinding) {
    Lacks(e.name) && forall f | f in e.keyFacts :: PlainFact(f)
  }

  predicate PlainSource(source: IngestedSource) {
    && OneLine(source.title) && Lacks(source.title)
    && OneLine(source.id) && Lacks(source.id)
  }

  // ---- A new page is well-formed ----

  lemma {:induction false} ClosesAfterLine(line: string, rest: string)
    requires '\n' !in line
    ensures AfterClosing(line + ("\n---\n" + rest)) == Some(rest)
  {
    var s := line + ("\n---\n" + rest);
    if line == "" {
      assert s == "\n---\n" + rest;
      assert "\n---" <= s && "\n---\n" <= s && s[5..] == rest;
    } else {
      ConsAppend(line, "\n---\n" + rest);
      assert s[0] == line[0];
      ClosesAfterLine(line[1..], rest);
    }
  }

  lemma {:induction false} PassesLine(line: string, rest: string)
    requires '\n' !in line && rest != "" && rest[0] != '-'
    ensures AfterClosing(line + ("\n" + rest)) == AfterClosing(rest)
  {
    var s := line + ("\n" + rest);
    if line == "" {
      assert s == "\n" + rest;
      assert s[1..] == rest && s[1] == rest[0];
      assert !("\n---" <= s);
    } else {
      ConsAppend(line, "\n" + rest);
      assert s[0] == line[0] && !("\n---" <= s);
      PassesLine(line[1..], rest);
    }
  }

  lemma FixedLines(e: EntityFinding)
    ensures '\n' !in ConfidenceName(e.confidence) && '\n' !in TypeName(e.entityType)
    ensures '#' !in ConfidenceName(e.confidence) && '#' !in TypeName(e.entityType)
  {
  }

  /** Whatever follows it, the new frontmatter ends where it was written. */
  lemma NewFrontmatterEnds(e: EntityFinding, sourceId: string, rest: string)
    requires OneLine(sourceId)
    ensures Settled(NewFrontmatter(e, sourceId), rest)
  {
    hide AfterClosing, ConfidenceName, TypeName;
    FixedLines(e);
    var a, b, c, d := "type: entity", "confidence: " + ConfidenceName(e.confidence),
      "entity_type: " + TypeName(e.entityType),
      "source_ids: [" + sourceId + "]";
    var z := "\n---\n";
    assert '\n' !in sourceId by { assert IsLineBreak('\n'); }
    ClosesAfterLine(d, rest);
    PassesLine(c, d + (z + rest));
    PassesLine(b, c + ("\n" + (d + (z + rest))));
    PassesLine(a, b + ("\n" + (c + ("\n" + (d + (z + rest))))));
    FourLines(a, b, c, d, z, rest);
    var front := NewFrontmatter(e, sourceId);
    assert front == "---\n" + (a + ("\n" + (b + ("\n" + (c + ("\n" + (d + z)))))));
    Assoc("---\n", a + ("\n" + (b + ("\n" + (c + ("\n" + (d + z)))))), rest);
    assert (front + rest)[4..] == (a + ("\n" + (b + ("\n" + (c + ("\n" + (d + z))))))) + rest;
  }

  lemma FourLines(a: string, b: string, c: string, d: string, z: string, rest: string)
    ensures (a + ("\n" + (b + ("\n" + (c + ("\n" + (d + z))))))) + rest
      == a + ("\n" + (b + ("\n" + (c + ("\n" + (d + (z + rest)))))))
  {
    Assoc(d, z, rest);
    Assoc("\n", d + z, rest);
    Assoc(c, "\n" + (d + z), rest);
    Assoc("\n", c + ("\n" + (d + z)), rest);
    Assoc(b, "\n" + (c + ("\n" + (d + z))), rest);
    Assoc("\n", b + ("\n" + (c + ("\n" + (d + z)))), rest);
    Assoc(a, "\n" + (b + ("\n" + (c + ("\n" + (d + z))))), rest);
  }

  lemma LacksNoHash(s: string)
    requires '#' !in s
    ensures Lacks(s)
  {
    hide Count;
    HeadingFacts();
    forall i | 0 <= i < |s| ensures s[i] != '#' { assert s[i] in s; }
    CountNoHash(s, TRUTH_HEADING);
    CountNoHash(s, TIMELINE_HEADING);
  }

  lemma HeadingsAreWords(c: char)
    requires c in "\n'-,[]"
    ensures c !in TRUTH_HEADING && c !in TIMELINE_HEADING
  {
  }

  /** Lacking text is kept apart from what precedes it by a character of no heading. */
  lemma LacksJoin(a: string, c: char, b: string)
    requires c in "\n'-,[]"
    ensures Lacks(a + [c] + b) <==> Lacks(a) && Lacks(b)
  {
    hide Count;
    HeadingFacts();
    HeadingsAreWords(c);
    CountAcross(a, c, b, TRUTH_HEADING);
    CountAcross(a, c, b, TIMELINE_HEADING);
  }

  lemma NewFrontmatterLacks(e: EntityFinding, sourceId: string)
    requires Lacks(sourceId)
    ensures Lacks(NewFrontmatter(e, sourceId))
  {
    hide ConfidenceName, TypeName, Lacks;
    FixedLines(e);
    var head := "---\n" + ("type: entity" + ("\n" + ("confidence: " + ConfidenceName(e.confidence) + ("\n"
      + ("entity_type: " + TypeName(e.entityType) + ("\n" + "source_ids: "))))));
    LacksNoHash(head);
    LacksNoHash("\n---\n");
    LacksJoin(sourceId, ']', "\n---\n");
    LacksJoin(head, '[', sourceId + [']'] + "\n---\n");
    IdApart(e, sourceId);
  }

  lemma IdApart(e: EntityFinding, sourceId: string)
    ensures NewFrontmatter(e, sourceId)
      == "---\n" + ("type: entity" + ("\n" + ("confidence: " + ConfidenceName(e.confidence) + ("\n"
      + ("entity_type: " + TypeName(e.entityType) + ("\n" + "source_ids: "))))))
      + ['['] + (sourceId + [']'] + "\n---\n")
  {
    hide ConfidenceName, TypeName;
    var c, t, z := "confidence: " + ConfidenceName(e.confidence), "entity_type: " + TypeName(e.entityType),
      ['['] + (sourceId + [']'] + "\n---\n");
    assert "source_ids: [" + sourceId + "]" + "\n---\n" == "source_ids: " + z;
    Assoc("\n", "source_ids: ", z);
    Assoc(t, "\n" + "source_ids: ", z);
    Assoc("\n", t + ("\n" + "source_ids: "), z);
    Assoc(c, "\n" + (t + ("\n" + "source_ids: ")), z);
    Assoc("\n", c + ("\n" + (t + ("\n" + "source_ids: "))), z);
    Assoc("type: entity", "\n" + (c + ("\n" + (t + ("\n" + "source_ids: ")))), z);
    Assoc("---\n", "type: entity" + ("\n" + (c + ("\n" + (t + ("\n" + "source_ids: "))))), z);
    var head := "---\n" + ("type: entity" + ("\n" + (c + ("\n" + (t + ("\n" + "source_ids: "))))));
    Assoc(head, ['['], sourceId + [']'] + "\n---\n");
  }

  /** A space in front of a text starts no heading. */
  lemma LacksAfterSpace(s: string)
    ensures Lacks(" " + s) <==> Lacks(s)
  {
    hide Count;
    HeadingFacts();
    CountAfterSpace(s, TRUTH_HEADING);
    CountAfterSpace(s, TIMELINE_HEADING);
  }

  lemma NewLeadLacks(name: string)
    requires Lacks(name)
    ensures Lacks(NewLead(name)) && EndsWithNewline(NewLead(name))
  {
    hide Lacks;
    LacksNoHash("\n");
    LacksNoHash("");
    LacksAfterSpace(name);
    LacksAfterHash(" " + name);
    LacksJoin("", '\n', "#" + (" " + name));
    assert "" + ['\n'] + ("#" + (" " + name)) == "\n# " + name;
    LacksJoin("\n# " + name, '\n', "\n");
  }

  lemma LacksAfterHash(s: string)
    requires Lacks(s) && (s == "" || s[0] != '#')
    ensures Lacks("#" + s)
  {
    assert ("#" + s)[1..] == s;
    assert s != "" ==> ("#" + s)[1] == s[0];
  }

  lemma SubheadingLacks(x: string)
    requires '#' !in x && x != "" && x[0] !in "CT"
    ensures Lacks("### " + x)
  {
    var t := "# " + x;
    LacksNoHash(" " + x);
    LacksAfterHash(" " + x);
    assert "#" + (" " + x) == t;
    LacksBehind("#" + t) by {
      assert ("#" + t)[1..] == t && ("#" + t)[3] == x[0];
    }
    LacksBehind("#" + ("#" + t)) by {
      assert ("#" + ("#" + t))[1..] == "#" + t && ("#" + ("#" + t))[2] == '#';
    }
    assert "#" + ("#" + t) == "### " + x;
  }

  /** Where no heading starts, none is added. */
  lemma LacksBehind(s: string)
    requires |s| > 3 && Lacks(s[1..]) && (s[2] != ' ' || s[3] !in "CT")
    ensures Lacks(s)
  {
    assert TRUTH_HEADING[2] == TIMELINE_HEADING[2] == ' ' && TRUTH_HEADING[3] == 'C' && TIMELINE_HEADING[3] == 'T';
    assert s[2] != TRUTH_HEADING[2] || s[3] != TRUTH_HEADING[3];
    assert s[2] != TIMELINE_HEADING[2] || s[3] != TIMELINE_HEADING[3];
  }

  lemma SubheadingClean(x: string)
    requires OneLine(x) && '#' !in x && x != "" && x[0] !in "CT"
    ensures Clean("### " + x)
  {
    hide HasMarkerLine, OneLine, Lacks;
    var s := "### " + x;
    FixedPartsAreOneLine();
    OneLineConcat("### ", x);
    assert s[2] == '#';
    NoMarkerInLine(s, true);
    SubheadingLacks(x);
  }

  lemma FactLineClean(f: string)
    requires PlainFact(f)
    ensures Clean("- " + f) && OneLine("- " + f)
  {
    hide HasMarkerLine, OneLine, Lacks;
    FixedPartsAreOneLine();
    OneLineConcat("- ", f);
    assert ("- " + f)[0] == '-';
    NoMarkerInLine("- " + f, true);
    LacksNoHash("");
    LacksAfterSpace(f);
    LacksJoin("", '-', " " + f);
    assert "" + ['-'] + (" " + f) == "- " + f;
  }

  lemma {:induction false} FactLinesClean(facts: seq<string>)
    requires forall f | f in facts :: PlainFact(f)
    ensures Clean(FactLines(facts))
  {
    hide Clean, PlainFact;
    if facts == [] {
      CleanEmpty();
    } else {
      FactLineClean(facts[0]);
      if |facts| > 1 {
        FactLinesClean(facts[1..]);
        CleanJoin("- " + facts[0], FactLines(facts[1..]));
      }
    }
  }

  lemma NoFactsIsPlain()
    ensures PlainFact(NO_FACTS)
  {
    hide Lacks;
    LacksNoHash(NO_FACTS);
  }

  lemma SubheadingsClean()
    ensures Clean("### Relationships") && Clean("### Assessment") && Clean("### Key Facts")
  {
    hide Clean;
    assert OneLine("Relationships") && OneLine("Assessment") && OneLine("Key Facts");
    SubheadingClean("Relationships");
    SubheadingClean("Assessment");
    SubheadingClean("Key Facts");
    SubheadingTexts();
  }

  lemma SubheadingTexts()
    ensures "### " + "Relationships" == "### Relationships" && "### " + "Assessment" == "### Assessment"
    ensures "### " + "Key Facts" == "### Key Facts"
  {
  }

  lemma SubsectionsClean()
    ensures Clean(SUBSECTIONS) && Clean("### Key Facts\n") && Clean("\n")
  {
    hide Clean;
    SubheadingsClean();
    CleanEmpty();
    CleanJoin("", "");
    CleanJoin("", "### Assessment");
    CleanJoin("### Relationships", "\n### Assessment");
    CleanJoin("", "### Relationships\n\n### Assessment");
    CleanJoin("### Key Facts", "");
    SubsectionLines();
  }

  lemma SubsectionLines()
    ensures "" + ['\n'] + "" == "\n" && "### Key Facts" + ['\n'] + "" == "### Key Facts\n"
    ensures "" + ['\n'] + "### Assessment" == "\n### Assessment"
    ensures "### Relationships" + ['\n'] + "\n### Assessment" == "### Relationships\n\n### Assessment"
    ensures "" + ['\n'] + "### Relationships\n\n### Assessment" == SUBSECTIONS
  {
    KeyFactsLine();
    AssessmentLine();
    RelationshipsLine();
    SubsectionsLine();
  }

  lemma KeyFactsLine()
    ensures "" + ['\n'] + "" == "\n" && "### Key Facts" + ['\n'] + "" == "### Key Facts\n"
  {
  }

  lemma AssessmentLine()
    ensures "" + ['\n'] + "### Assessment" == "\n### Assessment"
  {
  }

  lemma SubsectionsLine()
    ensures "" + ['\n'] + "### Relationships\n\n### Assessment" == SUBSECTIONS
  {
  }

  lemma RelationshipsLine()
    ensures "### Relationships" + ['\n'] + "\n### Assessment" == "### Relationships\n\n### Assessment"
  {
  }

  lemma FactTruthIsText(facts: seq<string>)
    requires forall f | f in facts :: PlainFact(f)
    ensures var t := FactTruth(facts);
      ZoneText(t) && t != "" && !IsSpace(t[0]) && !IsSpace(t[|t| - 1])
  {
    hide Clean, PlainFact, FactLines, SkipBlank;
    var lines, t := FactLines(facts), FactTruth(facts);
    FactLinesClean(facts);
    SubsectionsClean();
    CleanJoin(lines, SUBSECTIONS);
    CleanJoin("### Key Facts\n", lines + ['\n'] + SUBSECTIONS);
    assert t[0] == '#' && t[|t| - 1] == SUBSECTIONS[|SUBSECTIONS| - 1] == 't';
    SolidStart(t);
  }

  lemma NewTruthIsText(facts: seq<string>)
    requires forall f | f in facts :: PlainFact(f)
    ensures ZoneText(NewTruth(facts)) && Ended(NewTruth(facts))
    ensures RStrip(NewTruth(facts)) == FactTruth(ListedFacts(facts))
  {
    hide Clean, PlainFact, FactTruth, SkipBlank, RStrip;
    var t, n := FactTruth(ListedFacts(facts)), NewTruth(facts);
    NoFactsIsPlain();
    FactTruthIsText(ListedFacts(facts));
    SubsectionsClean();
    CleanJoin(t, "\n");
    SolidStart(n) by { assert n[0] == t[0]; }
    assert n[|n| - 1] == '\n' && n[|t|..] == "\n\n" && t <= n;
    RStripUnique(n, t);
  }

  lemma SolidStart(s: string)
    requires s != "" && !IsSpace(s[0])
    ensures SkipBlank(s).None?
  {
  }

  // ---- The timeline line ----

  lemma LineIsBullet(source: IngestedSource, date: string)
    requires OneLine(source.title) && OneLine(source.id) && IsDate(date)
    ensures OneLine(TimelineLine(source, date)) && BULLET <= TimelineLine(source, date)
  {
    hide OneLine, IsDate, TimelineLine;
    LineIsOneLine(source, date);
    LineParts(source, date);
  }

  /** The entry that records the detection in a source. */
  function SourceRecord(source: IngestedSource, date: string): TimelineEntry
    requires OneLine(source.title) && OneLine(source.id) && IsDate(date)
  {
    LineIsBullet(source, date);
    ParseEntry(TimelineLine(source, date))
  }

  lemma LineIsOneEntry(source: IngestedSource, date: string)
    requires PlainSource(source) && IsDate(date)
    ensures var line := TimelineLine(source, date);
      && Clean(line) && OneLine(line) && BULLET <= line && Strip(line) == line && RStripNewlines(line) == line
      && Entries(line) == [SourceRecord(source, date)]
  {
    hide OneLine, Entries, Strip, IsDate, Lacks, HasMarkerLine, TimelineLine, ParseEntry;
    var line := TimelineLine(source, date);
    LineParts(source, date);
    LineIsOneLine(source, date);
    LineLacks(source, date);
    NoMarkerInLine(line, true);
    StripSolid(line);
    EntriesOfLine(line);
  }

  lemma LineParts(source: IngestedSource, date: string)
    ensures var line := TimelineLine(source, date);
      && BULLET <= line && !(SECTION <= line) && !IsSpace(line[0]) && !IsSpace(line[|line| - 1])
        && line[|line| - 1] != '\n'
  {
    var a, z := date + ": " + (Detected(source.title) + (SOURCE_OPEN + Citation(source.id, date))), "]";
    var line := TimelineLine(source, date);
    assert line == "- " + (a + z);
    assert line[0] == '-' && line[1] == ' ' && line[|line| - 1] == ']';
  }

  lemma LineIsOneLine(source: IngestedSource, date: string)
    requires IsDate(date)
    ensures OneLine(TimelineLine(source, date)) <==> OneLine(source.title) && OneLine(source.id)
  {
    hide OneLine, IsDate;
    DateIsOneLine(date);
    FixedPartsAreOneLine();
    OneLineConcat("- ", date);
    OneLineConcat("- " + date, ": ");
    OneLineConcat("Detected in source '", source.title);
    OneLineConcat("Detected in source '" + source.title, "'. ");
    OneLineConcat("mimir_ingest, ", source.id);
    OneLineConcat("mimir_ingest, " + source.id, ", ");
    OneLineConcat("mimir_ingest, " + source.id + ", ", date);
    OneLineConcat(Citation(source.id, date), "]");
    OneLineConcat(SOURCE_OPEN, Citation(source.id, date) + "]");
    OneLineConcat(Detected(source.title), SOURCE_OPEN + (Citation(source.id, date) + "]"));
    OneLineConcat("- " + date + ": ", Detected(source.title) + (SOURCE_OPEN + (Citation(source.id, date) + "]")));
  }

  lemma FixedPartsAreOneLine()
    ensures OneLine("- ") && OneLine(": ") && OneLine("Detected in source '") && OneLine("'. ") && OneLine(SOURCE_OPEN)
    ensures OneLine("mimir_ingest, ") && OneLine(", ") && OneLine("]") && OneLine("### ")
  {
  }

  lemma LineLacks(source: IngestedSource, date: string)
    requires Lacks(source.title) && Lacks(source.id) && IsDate(date)
    ensures Lacks(TimelineLine(source, date))
  {
    hide Lacks, IsDate;
    DateIsOneLine(date);
    var head, mid, last := "- " + date + ": Detected in source ", ". [Source: mimir_ingest", " " + date + "]";
    LacksNoHash(head);
    LacksNoHash(mid);
    LacksNoHash(last);
    LacksAfterSpace(source.id);
    LacksJoin(" " + source.id, ',', last);
    LacksJoin(mid, ',', " " + source.id + [','] + last);
    LacksJoin(source.title, '\'', mid + [','] + (" " + source.id + [','] + last));
    LacksJoin(head, '\'', source.title + ['\''] + (mid + [','] + (" " + source.id + [','] + last)));
    TitleApart(source, date);
  }

  lemma TitleApart(source: IngestedSource, date: string)
    ensures TimelineLine(source, date) == "- " + date + ": Detected in source " + ['\'']
      + (source.title + ['\''] + (". [Source: mimir_ingest" + [','] + (" " + source.id + [','] + (" " + date + "]"))))
  {
    hide Detected, Citation;
    var h, t, i, z := "- " + date + ": ", source.title, source.id, " " + date + "]";
    var c, q := SOURCE_OPEN + (Citation(i, date) + "]"), ['\''];
    CitationApart(i, date);
    MarkerApart(" " + i + [','] + z);
    DetectedApart(t, c);
    Assoc(h, "Detected in source " + q, t + q + (". " + c));
    Assoc(h, "Detected in source ", q);
    Assoc("- " + date, ": ", "Detected in source ");
    assert ": " + "Detected in source " == ": Detected in source ";
  }

  lemma DetectedApart(t: string, c: string)
    ensures Detected(t) + c == ("Detected in source " + ['\'']) + (t + ['\''] + (". " + c))
  {
    var a, q := "Detected in source ", ['\''];
    assert "Detected in source '" == a + q && "'. " == q + ". ";
    Assoc(a + q, t, q + ". ");
    Assoc(a + q, t + (q + ". "), c);
    Assoc(t, q + ". ", c);
    Assoc(q, ". ", c);
    Assoc(t, q, ". " + c);
  }

  lemma MarkerApart(x: string)
    ensures ". " + (SOURCE_OPEN + ("mimir_ingest" + ([','] + x))) == ". [Source: mimir_ingest" + [','] + x
  {
    assert ". " + "[Source: " == ". [Source: " && ". [Source: " + "mimir_ingest" == ". [Source: mimir_ingest";
    Assoc(". ", SOURCE_OPEN, "mimir_ingest" + ([','] + x));
    Assoc(". [Source: ", "mimir_ingest", [','] + x);
    Assoc(". [Source: mimir_ingest", [','], x);
  }

  lemma CitationApart(id: string, date: string)
    ensures Citation(id, date) + "]" == "mimir_ingest" + ([','] + (" " + id + [','] + (" " + date + "]")))
  {
    assert "mimir_ingest, " == "mimir_ingest" + ([','] + " ") && ", " == [','] + " ";
  }

  // ---- The page ----

  /** The pieces of a new page. */
  function NewShape(e: EntityFinding, sourceId: string, line: string): Shape {
    Shape(NewFrontmatter(e, sourceId), NewLead(e.name), true, "\n\n", NewTruth(e.keyFacts), "", "\n\n", line + "\n", "")
  }

  lemma NewShapeIsValid(e: EntityFinding, source: IngestedSource, date: string)
    requires PlainEntity(e) && PlainSource(source) && IsDate(date)
    ensures var p := NewShape(e, source.id, TimelineLine(source, date));
      p.Valid() && p.Open() && p.Content() == EntityPage(e, source.id, TimelineLine(source, date))
  {
    hide Clean, Lacks, PlainFact, IsDate, OneLine, Strip, Entries, NewFrontmatter, NewTruth, TimelineLine, SkipBlank,
      Settled;
    var line := TimelineLine(source, date);
    var p := NewShape(e, source.id, line);
    NewFrontmatterEnds(e, source.id, p.lead + p.Heading1());
    NewFrontmatterLacks(e, source.id);
    NewLeadLacks(e.name);
    NewTruthIsText(e.keyFacts);
    LineIsOneEntry(source, date);
    CleanEmpty();
    CleanJoin(line, "");
    assert line + ['\n'] + "" == line + "\n";
    SolidStart(line + "\n") by { LineParts(source, date); }
    LacksNoHash("");
    assert Gap("\n\n") && EndsWithNewline(line + "\n");
    assert p.After2() == line + "\n" && p.Rest1() == p.Section2();
  }

  /**
   A page that the ingest creates is well-formed, its Timeline holds the one line that was written, and
   its truth is the one that was written, so that every theorem about histories starts from it.
   */
  lemma NewPageIsWellFormed(e: EntityFinding, source: IngestedSource, date: string)
    requires PlainEntity(e) && PlainSource(source) && IsDate(date)
    ensures var line := TimelineLine(source, date);
      var page := EntityPage(e, source.id, line);
      && WellFormed(page)
      && TimelineOf(page) == [SourceRecord(source, date)]
      && CompiledTruthOf(page) == FactTruth(ListedFacts(e.keyFacts))
      && SplitFrontmatter(page).before == NewFrontmatter(e, source.id)
  {
    hide Clean, Lacks, PlainFact, IsDate, OneLine, Strip, Entries, NewFrontmatter, NewTruth, TimelineLine, TwoZoned,
      TimelineOpen, CompiledTruthOf, TimelineOf, SplitFrontmatter, Shape.Valid, Shape.Open, Shape.Content, EntityPage,
      RStrip, FactTruth, SourceRecord;
    var line := TimelineLine(source, date);
    var p := NewShape(e, source.id, line);
    NewShapeIsValid(e, source, date);
    ShapeIsTwoZoned(p);
    ParsedShape(p);
    LineIsOneEntry(source, date);
    NewTruthIsText(e.keyFacts);
    EntriesLastNewline(line);
    assert line + ['\n'] == line + "\n";
  }
}
