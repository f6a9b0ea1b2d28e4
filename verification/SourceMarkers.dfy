/**
 Source markers in timeline entries, and entries read back as they were written
 (src/mimir/compiled_truth.py:124-154).
 */
module SourceMarkers {
  import opened Text
  import opened CompiledTruth
  import opened TimelineText
  import opened Revision
  import opened Evidence

  lemma {:induction false} UpToBracketAppend(a: string, r: string)
    ensures UpToBracket(a).Some? ==> UpToBracket(a + r) == UpToBracket(a)
    ensures UpToBracket(a).None? && UpToBracket(r).Some? ==> UpToBracket(a + r) == Some(a + UpToBracket(r).value)
    ensures UpToBracket(a).None? <==> ']' !in a
  {
    if a == "" {
      assert a + r == r;
      assert UpToBracket(r).Some? ==> a + UpToBracket(r).value == UpToBracket(r).value;
    } else {
      ConsAppend(a, r);
      UpToBracketAppend(a[1..], r);
      assert a == [a[0]] + a[1..];
      if UpToBracket(a[1..]).None? && UpToBracket(r).Some? {
        ConsAppend(a, UpToBracket(r).value);
      }
    }
  }

  lemma {:induction false} SourceNeedsBracket(s: string)
    requires ']' !in s
    ensures FindSource(s).None?
  {
    if SOURCE_OPEN <= s { UpToBracketAppend(s[|SOURCE_OPEN|..], ""); }
    if s != "" { SourceNeedsBracket(s[1..]); }
  }

  /** The marker `[Source: c]`. */
  function Marker(c: string): string {
    SOURCE_OPEN + (c + "]")
  }

  lemma MarkerIsSource(c: string)
    requires c != "" && ']' !in c
    ensures SourceHere(Marker(c)) && UpToBracket(Marker(c)[|SOURCE_OPEN|..]) == Some(c)
    ensures UpToBracket(Marker(c)) == Some(SOURCE_OPEN + c) && Marker(c)[0] == '['
  {
    assert Marker(c)[|SOURCE_OPEN|..] == c + "]";
    assert UpToBracket("]") == Some("");
    UpToBracketAppend(c, "]");
    UpToBracketAppend(SOURCE_OPEN, c + "]");
    assert c + "" == c;
  }

  /** A whole marker at the start of `z`, behind other text. */
  lemma MarkerBehind(before: string, z: string)
    requires SourceHere(z) && before != ""
    ensures SourceHere(before) ==> (
      && SourceHere(before + z)
      && UpToBracket((before + z)[|SOURCE_OPEN|..]) == UpToBracket(before[|SOURCE_OPEN|..]))
    ensures SourceHere(before + z) && !SourceHere(before) ==> (
      && ']' !in before
      && Contains(UpToBracket((before + z)[|SOURCE_OPEN|..]).value, UpToBracket(z[|SOURCE_OPEN|..]).value))
  {
    hide Contains, UpToBracket;
    var n, s, v := |SOURCE_OPEN|, before + z, UpToBracket(z[|SOURCE_OPEN|..]).value;
    OpenSpaces(before, z);
    assert z == SOURCE_OPEN + z[n..];
    UpToBracketAppend(SOURCE_OPEN, z[n..]);
    if SOURCE_OPEN <= s {
      var x := before[n..];
      assert s[n..] == x + z && before == SOURCE_OPEN + x;
      UpToBracketAppend(x, z);
      AroundMiddle(x + SOURCE_OPEN, v, "", v) by { ContainsItself(v); }
      assert x + SOURCE_OPEN + v + "" == x + (SOURCE_OPEN + v);
    }
  }

  /** A marker opens with its only bracket, so that none opens across the start of a bracket. */
  lemma OpenSpaces(before: string, z: string)
    requires z != "" && z[0] == '['
    ensures before != "" ==> (SOURCE_OPEN <= before + z <==> SOURCE_OPEN <= before)
  {
    var n, s := |SOURCE_OPEN|, before + z;
    assert s[|before|] == '[' && forall i | 0 < i < n :: SOURCE_OPEN[i] != '[';
    if |before| >= n { assert s[..n] == before[..n]; }
  }

  lemma ContainsItself(c: string)
    ensures Contains(c, c)
  {
    PrefixContains(c, c);
  }

  /** The source that is found: that of a whole marker in the text before, or else one that holds the marker's own. */
  lemma {:induction false} SourceBehind(before: string, z: string)
    requires SourceHere(z)
    ensures var found, f := FindSource(before + z), FindSource(before);
      && found.Some?
      && (f.Some? ==> found.value.1 == f.value.1)
      && (f.None? ==> Contains(found.value.1, UpToBracket(z[|SOURCE_OPEN|..]).value))
    decreases |before|
  {
    var v := UpToBracket(z[|SOURCE_OPEN|..]).value;
    hide Contains, UpToBracket, SourceHere;
    if before == "" {
      ContainsItself(v);
      SourceNeedsBracket("");
      assert before + z == z;
    } else {
      MarkerBehind(before, z);
      ConsAppend(before, z);
      if SourceHere(before + z) {
        if !SourceHere(before) { SourceNeedsBracket(before); }
      } else {
        SourceBehind(before[1..], z);
      }
    }
  }

  /** A source never holds a closing bracket. */
  lemma {:induction false} SourceHasNoBracket(s: string)
    ensures FindSource(s).Some? ==> ']' !in FindSource(s).value.1
  {
    if SOURCE_OPEN <= s { BracketEnds(s[|SOURCE_OPEN|..]); }
    if s != "" { SourceHasNoBracket(s[1..]); }
  }

  lemma {:induction false} BracketEnds(s: string)
    ensures UpToBracket(s).Some? ==> ']' !in UpToBracket(s).value
  {
    if s != "" { BracketEnds(s[1..]); }
  }

  /** A source marker opens in the text, other than one that closes at once. */
  predicate OpensSource(s: string) {
    s != "" && ((SOURCE_OPEN <= s && !(SOURCE_OPEN + "]" <= s)) || OpensSource(s[1..]))
  }

  lemma OpenedHere(before: string, z: string)
    requires z != "" && z[0] == '[' && UpToBracket(z).Some? && before != ""
    ensures SourceHere(before + z) <==> SOURCE_OPEN <= before && !(SOURCE_OPEN + "]" <= before)
  {
    hide UpToBracket;
    var n, s := |SOURCE_OPEN|, before + z;
    OpenSpaces(before, z);
    if SOURCE_OPEN <= before {
      var x := before[n..];
      assert before == SOURCE_OPEN + x && s[n..] == x + z;
      UpToBracketAppend(x, z);
      FirstBracket(x + z);
      assert (x + z)[0] == if x == "" then '[' else x[0];
      assert SOURCE_OPEN + "]" <= before <==> x != "" && x[0] == ']';
    }
  }

  lemma FirstBracket(s: string)
    requires s != "" && UpToBracket(s).Some?
    ensures UpToBracket(s).value == "" <==> s[0] == ']'
  {
  }

  /** The marker at the end is the one that is found exactly when none opens before it. */
  lemma {:induction false} SourceExact(before: string, c: string)
    requires c != "" && ']' !in c
    ensures var found := FindSource(before + Marker(c));
      && found.Some?
      && (!OpensSource(before) ==> found.value == (before, c))
      && (OpensSource(before) ==> |found.value.0| + |SOURCE_OPEN| <= |before|)
    decreases |before|
  {
    hide UpToBracket, Marker, SourceHere;
    if before == "" {
      MarkerIsSource(c);
      assert before + Marker(c) == Marker(c);
    } else {
      MarkerIsSource(c);
      OpenedHere(before, Marker(c));
      ConsAppend(before, Marker(c));
      if !SourceHere(before + Marker(c)) {
        SourceExact(before[1..], c);
        assert before == [before[0]] + before[1..];
      }
    }
  }

  /** An entry as the format writes it. */
  function FormattedEntry(date: string, description: string, source: string): string {
    "- " + date + ": " + (description + ". " + Marker(source))
  }

  /**
   An entry written in the format is read back field by field, exactly when its texts are single lines
   and no source marker opens in its description.
   */
  lemma EntryReadBack(date: string, description: string, source: string)
    requires IsDate(date) && description != "" && description[|description| - 1] !in ". "
    requires source != "" && ']' !in source
    ensures var line := FormattedEntry(date, description, source);
      Entries(line) == [TimelineEntry(line, date, description, source, true)]
      <==> OneLine(description) && OneLine(source) && !OpensSource(description + ". ")
  {
    hide IsDate, FindSource, Marker, OpensSource, RStripDots, ParseEntry, OneLine, IsSpace, Entries, ReadSourced;
    var line := FormattedEntry(date, description, source);
    FormattedLine(date, description, source);
    EntriesAreLines(line);
    ReadSourcedLine(line, date);
    if OneLine(line) {
      FormattedReadBack(date, description, source);
    }
  }

  lemma FormattedReadBack(date: string, description: string, source: string)
    requires IsDate(date) && description != "" && description[|description| - 1] !in ". "
    requires source != "" && ']' !in source && OneLine(FormattedEntry(date, description, source))
    ensures var line := FormattedEntry(date, description, source);
      && BULLET <= line
      && (ParseEntry(line) == TimelineEntry(line, date, description, source, true)
          <==> !OpensSource(description + ". "))
  {
    hide IsDate, FindSource, Marker, OpensSource, RStripDots, ParseEntry, OneLine;
    var before := description + ". ";
    var rest := before + Marker(source);
    SourceExact(before, source);
    Assoc(description, ". ", Marker(source));
    ParseFormatted(date, rest);
    DotsTrimmed(description);
    DotsShorten(FindSource(rest).value.0);
  }

  lemma FormattedLine(date: string, description: string, source: string)
    requires IsDate(date)
    ensures var line := FormattedEntry(date, description, source);
      && BULLET <= line && !IsSpace(line[0]) && !IsSpace(line[|line| - 1])
      && (OneLine(line) <==> OneLine(description) && OneLine(source))
  {
    hide OneLine, IsDate;
    var head, tail := "- " + date + ": ", ". " + Marker(source);
    var line := FormattedEntry(date, description, source);
    DateIsOneLine(date);
    FixedTextIsOneLine();
    assert OneLine(": ") && OneLine(". ") by { SeparatorsAreOneLine(); }
    OneLineConcat("- ", date);
    OneLineConcat("- " + date, ": ");
    OneLineConcat(source, "]");
    OneLineConcat(SOURCE_OPEN, source + "]");
    OneLineConcat(". ", Marker(source));
    OneLineConcat(description, tail);
    OneLineConcat(head, description + tail);
    Assoc(description, ". ", Marker(source));
    assert line == head + (description + tail);
    assert line[|line| - 1] == Marker(source)[|Marker(source)| - 1] == ']';
  }

  lemma SeparatorsAreOneLine()
    ensures OneLine(": ") && OneLine(". ")
  {
  }

  lemma ParseFormatted(date: string, rest: string)
    requires IsDate(date) && FindSource(rest).Some? && OneLine("- " + date + ": " + rest)
    ensures var line, found := "- " + date + ": " + rest, FindSource(rest).value;
      BULLET <= line && ParseEntry(line) == TimelineEntry(line, date, RStripDots(found.0), found.1, true)
  {
    hide IsDate, RStripDots, OneLine;
    DateLength(date);
    assert rest != "" by { SourceNeedsBracket(""); }
    DateText(date, rest);
    assert BULLET <= "- " + date + ": " + rest;
  }

  lemma DotsTrimmed(description: string)
    requires description != "" && description[|description| - 1] !in ". "
    ensures RStripDots(description + ". ") == description
  {
    var s := description + ". ";
    assert s[..|s| - 1] == description + ".";
    assert (description + ".")[..|description|] == description;
    assert RStripDots(description) == description;
    assert RStripDots(description + ".") == description;
  }

  lemma {:induction false} DotsShorten(s: string)
    ensures |RStripDots(s)| <= |s|
  {
    if s != "" && s[|s| - 1] in ". " { DotsShorten(s[..|s| - 1]); }
  }

  // ---- When a revision is sourced ----

  /** Some marker is found exactly when one opens in the text before, or is found in the text from `z` on. */
  lemma {:induction false} SourceIff(before: string, z: string)
    requires z != "" && z[0] == '[' && UpToBracket(z).Some?
    ensures FindSource(before + z).Some? <==> OpensSource(before) || FindSource(z).Some?
    decreases |before|
  {
    hide UpToBracket, SourceHere;
    if before == "" {
      assert before + z == z;
    } else {
      OpenedHere(before, z);
      ConsAppend(before, z);
      SourceIff(before[1..], z);
    }
  }

  lemma MarkerFound(a: string)
    ensures FindSource(Marker(a)).Some? <==> (a != "" && a[0] != ']') || FindSource(a + "]").Some?
    ensures Marker(a) != "" && Marker(a)[0] == '[' && UpToBracket(Marker(a)).Some?
  {
    hide SourceHere, FindSource, UpToBracket;
    var z, t := Marker(a), "Source: ";
    SourceHereIff(a);
    UpToBracketAppend(SOURCE_OPEN, a + "]");
    UpToBracketFound(a);
    assert z[1..] == t + (a + "]");
    FirstOrLater(z);
    if FindSource(t + (a + "]")).Some? { FindSourceNeedsBracket(t, a + "]"); }
    if FindSource(a + "]").Some? { LaterSource(t, a + "]"); }
  }

  lemma FirstOrLater(z: string)
    requires z != ""
    ensures FindSource(z).Some? <==> SourceHere(z) || FindSource(z[1..]).Some?
  {
    hide SourceHere;
  }

  lemma {:induction false} LaterSource(p: string, s: string)
    requires FindSource(s).Some?
    ensures FindSource(p + s).Some?
  {
    hide SourceHere;
    if p == "" {
      assert p + s == s;
    } else {
      ConsAppend(p, s);
      LaterSource(p[1..], s);
    }
  }

  /**
   The record of a revision is read as one entry with its date and a source if and only if its texts are
   single lines and a marker opens in the quoted facts, or the attribution starts with another character
   than `]`, or it holds a marker of its own.
   */
  lemma RevisionSourceExact(today: string, oldFact: string, newFact: string, attribution: string)
    requires IsDate(today)
    ensures ReadSourced(RevisionEntry(today, oldFact, newFact, attribution), today) <==>
      && OneLine(oldFact) && OneLine(newFact) && OneLine(attribution)
      && (|| OpensSource(RevisionRest(oldFact, newFact))
          || (attribution != "" && attribution[0] != ']')
          || FindSource(attribution + "]").Some?)
  {
    hide RevisionEntry, RevisionRest, IsDate, FindSource, SourceHere, OpensSource, UpToBracket, Marker, OneLine,
      ReadSourced;
    RevisionReadSourced(today, oldFact, newFact, attribution);
    MarkerFound(attribution);
    SourceIff(RevisionRest(oldFact, newFact), Marker(attribution));
    assert Marker(attribution) == SOURCE_OPEN + (attribution + "]") by { MarkerIs(attribution); }
  }

  /** What the record of a revision tells: the superseded fact, and the one in its place. */
  function Journey(oldFact: string, newFact: string): string {
    "belief revised: \"" + oldFact + "\" \U{2192} \"" + newFact + "\""
  }

  /**
   The record of a revision is parsed back into its day, the old and the new fact in this order, and its
   attribution, exactly if these are single lines and no source marker opens in the quoted facts.
   */
  lemma RevisionReadBack(today: string, oldFact: string, newFact: string, attribution: string)
    requires IsDate(today) && attribution != "" && ']' !in attribution
    ensures var line := RevisionEntry(today, oldFact, newFact, attribution);
      Entries(line) == [TimelineEntry(line, today, Journey(oldFact, newFact), attribution, true)]
      <==> && OneLine(oldFact) && OneLine(newFact) && OneLine(attribution)
           && !OpensSource(Journey(oldFact, newFact) + ". ")
  {
    hide IsDate, OpensSource, OneLine, Entries, RevisionEntry, FormattedEntry;
    var d := Journey(oldFact, newFact);
    JourneyIsFormatted(today, oldFact, newFact, attribution);
    assert d != "" && d[|d| - 1] == '"';
    EntryReadBack(today, d, attribution);
    JourneyOneLine(oldFact, newFact);
  }

  lemma JourneyIsFormatted(today: string, oldFact: string, newFact: string, attribution: string)
    requires IsDate(today)
    ensures RevisionEntry(today, oldFact, newFact, attribution)
      == FormattedEntry(today, Journey(oldFact, newFact), attribution)
  {
    hide IsDate, RevisionEntry, Marker;
    var d := "belief revised: \"" + oldFact + "\" \U{2192} \"" + newFact;
    RevisionEntryParts(today, oldFact, newFact, attribution);
    RevisionStartParts(today, oldFact, newFact);
    MarkerIs(attribution);
    assert "\"" + ". " == "\". ";
    Assoc(d, "\"", ". ");
    assert RevisionRest(oldFact, newFact) == Journey(oldFact, newFact) + ". ";
    Assoc("- " + today + ": ", Journey(oldFact, newFact) + ". ", Marker(attribution));
    Assoc(Journey(oldFact, newFact), ". ", Marker(attribution));
  }

  lemma JourneyOneLine(oldFact: string, newFact: string)
    ensures OneLine(Journey(oldFact, newFact)) <==> OneLine(oldFact) && OneLine(newFact)
  {
    hide OneLine;
    var a, b, z := "belief revised: \"", "\" \U{2192} \"", "\"";
    QuotesAreOneLine();
    OneLineConcat(a, oldFact);
    OneLineConcat(a + oldFact, b);
    OneLineConcat(a + oldFact + b, newFact);
    OneLineConcat(a + oldFact + b + newFact, z);
  }

  lemma QuotesAreOneLine()
    ensures OneLine("belief revised: \"") && OneLine("\" \U{2192} \"") && OneLine("\"")
  {
  }

  lemma MarkerIs(c: string)
    ensures Marker(c) == SOURCE_OPEN + (c + "]")
  {
  }
}
