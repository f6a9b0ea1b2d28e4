/** What a created entity page says of its entity (src/ravn/adapters/tools/entity_extractor.py:296-324). */
module PageFields {
  import opened Text
  import opened CompiledTruth
  import opened PageRecognition
  import opened Evidence
  import opened FactLists
  import opened EntityPages

  /** The value of the first line that names a field. */
  function FieldOf(text: string, key: string): Option<string>
    decreases |text|
  {
    if text == "" then None
    else if key + ": " <= text then Some(UpToNewline(text[|key| + 2..]))
    else FieldOf(AfterNewline(text), key)
  }

  /** A line that names the field gives its value. */
  lemma FieldHere(key: string, value: string, rest: string)
    requires '\n' !in value
    ensures FieldOf(key + ": " + value + ("\n" + rest), key) == Some(value)
  {
    hide UpToNewline, AfterNewline;
    var k := key + ": ";
    var s := k + value + ("\n" + rest);
    Assoc(k, value, "\n" + rest);
    assert k <= s && s[|k|..] == value + ("\n" + rest) && s != "";
    UpToAppend(value, "\n" + rest);
    NewlineFirst(rest);
    assert value + "" == value;
  }

  /** A line that starts otherwise is passed over. */
  lemma FieldPast(line: string, rest: string, key: string)
    requires line != "" && '\n' !in line && key != "" && key[0] != line[0]
    ensures FieldOf(line + ("\n" + rest), key) == FieldOf(rest, key)
  {
    hide UpToNewline, AfterNewline;
    var s, k := line + ("\n" + rest), key + ": ";
    assert s[0] == line[0] && k[0] == key[0];
    UpToAppend(line, "\n" + rest);
    NewlineFirst(rest);
  }

  lemma NewlineFirst(rest: string)
    ensures UpToNewline("\n" + rest) == "" && AfterNewline("\n" + rest) == rest
  {
    assert ("\n" + rest)[1..] == rest;
  }

  /** The words that the frontmatter uses. */
  predicate Spelled(e: EntityFinding, confidence: string, entityType: string) {
    && (match e.confidence
        case High => confidence == "high"
        case Medium => confidence == "medium"
        case Low => confidence == "low")
    && (match e.entityType
        case Person => entityType == "person"
        case Project => entityType == "project"
        case Concept => entityType == "concept"
        case Technology => entityType == "technology"
        case Organization => entityType == "organization"
        case Strategy => entityType == "strategy")
  }

  /** The frontmatter of a created page has the entity's type, the confidence and the source, each in its field. */
  lemma FieldsAreRead(e: EntityFinding, sourceId: string, confidence: string, entityType: string)
    requires OneLine(sourceId) && Spelled(e, confidence, entityType)
    ensures var front := NewFrontmatter(e, sourceId);
      && FieldOf(front, "type") == Some("entity")
      && FieldOf(front, "confidence") == Some(confidence)
      && FieldOf(front, "entity_type") == Some(entityType)
      && FieldOf(front, "source_ids") == Some("[" + sourceId + "]")
  {
    hide FieldOf, OneLine;
    var v := "[" + sourceId + "]";
    var a, b, c, d := "type" + ": " + "entity", "confidence" + ": " + confidence, "entity_type" + ": " + entityType,
      "source_ids" + ": " + v;
    NoNewline(sourceId);
    FieldLines(sourceId, confidence, entityType, a, b, c, d);
    var afterD := "---\n";
    var afterC := d + ("\n" + afterD);
    var afterB := c + ("\n" + afterC);
    var afterA := b + ("\n" + afterB);
    var rest := a + ("\n" + afterA);
    assert ConfidenceName(e.confidence) == confidence && TypeName(e.entityType) == entityType;
    FrontText(e, sourceId, afterA, rest);
    forall key | key in {"type", "confidence", "entity_type", "source_ids"}
      ensures FieldOf(NewFrontmatter(e, sourceId), key) == FieldOf(rest, key)
    {
      FieldPast("---", rest, key);
    }
    FieldHere("type", "entity", afterA);
    FieldPast(a, afterA, "confidence");
    FieldHere("confidence", confidence, afterB);
    FieldPast(a, afterA, "entity_type");
    FieldPast(b, afterB, "entity_type");
    FieldHere("entity_type", entityType, afterC);
    FieldPast(a, afterA, "source_ids");
    FieldPast(b, afterB, "source_ids");
    FieldPast(c, afterC, "source_ids");
    FieldHere("source_ids", v, afterD);
  }

  lemma FieldLines(
    sourceId: string, confidence: string, entityType: string, a: string, b: string, c: string, d: string)
    requires '\n' !in sourceId && '\n' !in confidence && '\n' !in entityType
    requires a == "type" + ": " + "entity" && b == "confidence" + ": " + confidence
    requires c == "entity_type" + ": " + entityType && d == "source_ids" + ": " + ("[" + sourceId + "]")
    ensures a[0] == 't' && b[0] == 'c' && c[0] == 'e' && d[0] == 's'
    ensures '\n' !in a && '\n' !in b && '\n' !in c && '\n' !in d && '\n' !in "[" + sourceId + "]"
    ensures a == "type: entity" && b == "confidence: " + confidence && c == "entity_type: " + entityType
    ensures d == "source_ids: [" + sourceId + "]"
  {
    assert "type" + ": " == "type: " && "confidence" + ": " == "confidence: ";
    assert "entity_type" + ": " == "entity_type: " && "source_ids" + ": " == "source_ids: ";
    assert "type: " + "entity" == "type: entity" && "source_ids: " + "[" == "source_ids: [";
    Assoc("source_ids: ", "[", sourceId);
    Assoc("source_ids: ", "[" + sourceId, "]");
  }

  lemma FrontText(e: EntityFinding, sourceId: string, afterA: string, rest: string)
    requires afterA == "confidence: " + ConfidenceName(e.confidence) + ("\n"
      + ("entity_type: " + TypeName(e.entityType) + ("\n" + ("source_ids: [" + sourceId + "]" + ("\n" + "---\n")))))
    requires rest == "type: entity" + ("\n" + afterA)
    ensures NewFrontmatter(e, sourceId) == "---" + ("\n" + rest)
  {
    assert "\n" + "---\n" == "\n---\n";
    assert "---" + "\n" == "---\n";
    Assoc("---", "\n", rest);
  }

  /** The body of a created page starts with the entity's name as its title. */
  lemma TitleIsName(e: EntityFinding, source: IngestedSource, date: string)
    requires PlainEntity(e) && PlainSource(source) && IsDate(date)
    ensures "\n# " + e.name + "\n" <= StripFrontmatter(EntityPage(e, source.id, TimelineLine(source, date)))
  {
    hide PlainEntity, PlainSource, IsDate, WellFormed, SplitFrontmatter, NewFrontmatter, TimelineLine, TimelineOf,
      CompiledTruthOf, NewTruth;
    NewPageIsWellFormed(e, source, date);
    var line := TimelineLine(source, date);
    var page, front := EntityPage(e, source.id, line), NewFrontmatter(e, source.id);
    var tail := TRUTH_HEADING + ("\n\n" + (NewTruth(e.keyFacts) + (TIMELINE_HEADING + ("\n\n" + (line + "\n")))));
    var cut := SplitFrontmatter(page);
    assert cut.before + cut.after == page == front + (NewLead(e.name) + tail);
    assert cut.after == page[|front|..] == NewLead(e.name) + tail;
    assert NewLead(e.name) == "\n# " + e.name + "\n" + "\n";
    assert ("\n# " + e.name + "\n") <= NewLead(e.name) <= NewLead(e.name) + tail;
  }
}
