/** Belief revision (src/mimir/learning.py:163-192): the rewritten fact and the line that records it. */
module Revision {
  import opened Text
  import opened Patterns
  import opened CompiledTruth
  import opened TimelineText
  import opened PageShape
  import opened PageEdits
  import opened PageRecognition
  import opened TimelineLog
  import opened ZoneCreation

  // ---- The recorded line ----

  function RevisionStart(today: string, oldFact: string, newFact: string): string {
    "- " + today + ": belief revised: \"" + oldFact + "\" \U{2192} \"" + newFact + "\". "
  }

  lemma RevisionEntryParts(today: string, oldFact: string, newFact: string, attribution: string)
    ensures RevisionEntry(today, oldFact, newFact, attribution)
      == RevisionStart(today, oldFact, newFact) + (SOURCE_OPEN + (attribution + "]"))
  {
    var s := RevisionStart(today, oldFact, newFact);
    var d := "- " + today + ": belief revised: \"" + oldFact + "\" \U{2192} \"" + newFact;
    assert "\". " + "[Source: " == "\". [Source: ";
    Assoc(d, "\". ", "[Source: ");
    Assoc(s, SOURCE_OPEN, attribution + "]");
    Assoc(s + SOURCE_OPEN, attribution, "]");
  }

  lemma OneLineConcat(a: string, b: string)
    ensures OneLine(a + b) <==> OneLine(a) && OneLine(b)
  {
    var s := a + b;
    assert a == s[..|a|] && b == s[|a|..];
  }

  lemma FixedTextIsOneLine()
    ensures OneLine("- ") && OneLine(": belief revised: \"") && OneLine("\" \U{2192} \"") && OneLine("\". ")
    ensures OneLine(SOURCE_OPEN) && OneLine("]")
  {
  }

  lemma RevisionStartOneLine(today: string, oldFact: string, newFact: string)
    ensures OneLine(RevisionStart(today, oldFact, newFact))
      <==> OneLine(today) && OneLine(oldFact) && OneLine(newFact)
  {
    hide OneLine;
    FixedTextIsOneLine();
    OneLineConcat("- ", today);
    OneLineConcat("- " + today, ": belief revised: \"");
    OneLineConcat("- " + today + ": belief revised: \"", oldFact);
    OneLineConcat("- " + today + ": belief revised: \"" + oldFact, "\" \U{2192} \"");
    OneLineConcat("- " + today + ": belief revised: \"" + oldFact + "\" \U{2192} \"", newFact);
    OneLineConcat("- " + today + ": belief revised: \"" + oldFact + "\" \U{2192} \"" + newFact, "\". ");
  }

  lemma RevisionEntryOneLine(today: string, oldFact: string, newFact: string, attribution: string)
    ensures OneLine(RevisionEntry(today, oldFact, newFact, attribution))
      <==> OneLine(today) && OneLine(oldFact) && OneLine(newFact) && OneLine(attribution)
  {
    hide OneLine, RevisionStart, RevisionEntry;
    FixedTextIsOneLine();
    RevisionEntryParts(today, oldFact, newFact, attribution);
    RevisionStartOneLine(today, oldFact, newFact);
    OneLineConcat(attribution, "]");
    OneLineConcat(SOURCE_OPEN, attribution + "]");
    OneLineConcat(RevisionStart(today, oldFact, newFact), SOURCE_OPEN + (attribution + "]"));
  }

  lemma StripSolid(s: string)
    requires s != "" && !IsSpace(s[0]) && !IsSpace(s[|s| - 1])
    ensures Strip(s) == s
  {
    RStripUnique(s, s);
  }

  lemma RevisionEntryShape(today: string, oldFact: string, newFact: string, attribution: string)
    ensures var e := RevisionEntry(today, oldFact, newFact, attribution);
      && BULLET <= e && !IsSpace(e[0]) && !IsSpace(e[|e| - 1])
  {
  }

  /** The recorded line is one entry, and its raw text is the line itself. */
  lemma RevisionIsOneEntry(today: string, oldFact: string, newFact: string, attribution: string)
    requires OneLine(today) && OneLine(oldFact) && OneLine(newFact) && OneLine(attribution)
    ensures var e := RevisionEntry(today, oldFact, newFact, attribution);
      OneLine(e) && BULLET <= e && Entries(e) == [ParseEntry(e)] && ParseEntry(e).raw == e
  {
    hide RevisionEntry, OneLine, Strip, Entries;
    var e := RevisionEntry(today, oldFact, newFact, attribution);
    RevisionEntryShape(today, oldFact, newFact, attribution);
    RevisionEntryOneLine(today, oldFact, newFact, attribution);
    StripSolid(e);
    EntriesOfLine(e);
  }

  lemma RevisionEntryIsLine(today: string, oldFact: string, newFact: string, attribution: string)
    requires IsDate(today) && OneLine(oldFact) && OneLine(newFact) && OneLine(attribution)
    ensures var e := RevisionEntry(today, oldFact, newFact, attribution); OneLine(e) && BULLET <= e
  {
    hide OneLine, IsDate, RevisionEntry;
    DateIsOneLine(today);
    RevisionEntryOneLine(today, oldFact, newFact, attribution);
    RevisionEntryShape(today, oldFact, newFact, attribution);
  }

  /** The text is read as one entry: itself, with that date and with a source. */
  predicate ReadSourced(text: string, date: string) {
    |Entries(text)| == 1 && var e := Entries(text)[0]; e.raw == text && e.date == date && e.hasSource
  }

  /** Only a single line is read so, and what is read of it is its own entry. */
  lemma ReadSourcedLine(text: string, date: string)
    requires BULLET <= text && !IsSpace(text[0]) && !IsSpace(text[|text| - 1])
    ensures OneLine(text) ==> Entries(text) == [ParseEntry(text)]
    ensures ReadSourced(text, date)
      <==> OneLine(text) && ParseEntry(text).date == date && ParseEntry(text).hasSource
  {
    hide OneLine, Strip, IsSpace, IsDate, FindSource;
    EntriesAreLines(text);
    if OneLine(text) {
      StripSolid(text);
      EntriesOfLine(text);
    }
  }

  // ---- Its attribution ----

  lemma {:induction false} UpToBracketFound(a: string)
    ensures UpToBracket(a + "]").Some?
    ensures UpToBracket(a + "]").value == "" <==> a == "" || a[0] == ']'
  {
    if a == "" {
      assert a + "]" == "]";
    } else {
      ConsAppend(a, "]");
      UpToBracketFound(a[1..]);
    }
  }

  lemma {:induction false} FindSourceAfter(before: string, s: string)
    requires SourceHere(s)
    ensures FindSource(before + s).Some?
  {
    hide SourceHere;
    if before == "" {
      assert before + s == s;
    } else {
      ConsAppend(before, s);
      FindSourceAfter(before[1..], s);
    }
  }

  lemma {:induction false} FindSourceNeedsBracket(before: string, s: string)
    requires '[' !in before && FindSource(before + s).Some?
    ensures FindSource(s).Some?
  {
    if before == "" {
      assert before + s == s;
    } else {
      ConsAppend(before, s);
      assert (before + s)[0] == before[0] && SOURCE_OPEN[0] == '[';
      FindSourceNeedsBracket(before[1..], s);
    }
  }

  lemma NoSourceWithoutBracket(s: string)
    requires '[' !in s
    ensures FindSource(s).None?
  {
    assert s + "" == s;
    if FindSource(s).Some? {
      FindSourceNeedsBracket(s, "");
    }
  }

  lemma SourceHereIff(attribution: string)
    ensures SourceHere(SOURCE_OPEN + (attribution + "]")) <==> attribution != "" && attribution[0] != ']'
  {
    hide UpToBracket;
    var t := attribution + "]";
    UpToBracketFound(attribution);
    assert (SOURCE_OPEN + t)[|SOURCE_OPEN|..] == t;
  }

  lemma SourceOnlyHere(attribution: string)
    requires '[' !in attribution && FindSource(SOURCE_OPEN + (attribution + "]")).Some?
    ensures SourceHere(SOURCE_OPEN + (attribution + "]"))
  {
    hide SourceHere;
    var s := SOURCE_OPEN + (attribution + "]");
    if !SourceHere(s) {
      assert s[1..] == SOURCE_OPEN[1..] + (attribution + "]");
      NoSourceWithoutBracket(s[1..]);
    }
  }

  lemma RevisionEntryRest(today: string, oldFact: string, newFact: string, attribution: string)
    requires IsDate(today)
    ensures var text := RevisionEntry(today, oldFact, newFact, attribution)[2..];
      && |text| > 12 && text[..10] == today && text[10..12] == ": "
      && text[12..] == RevisionRest(oldFact, newFact) + (SOURCE_OPEN + (attribution + "]"))
  {
    hide IsDate;
    var rest := RevisionRest(oldFact, newFact) + (SOURCE_OPEN + (attribution + "]"));
    RevisionEntryParts(today, oldFact, newFact, attribution);
    assert ": belief revised: \"" == ": " + "belief revised: \"";
    RevisionStartParts(today, oldFact, newFact);
    var e := RevisionEntry(today, oldFact, newFact, attribution);
    assert |today| == 10 by { DateLength(today); }
    Assoc("- " + today + ": ", RevisionRest(oldFact, newFact), SOURCE_OPEN + (attribution + "]"));
    DateText(today, rest);
    assert e == "- " + today + ": " + rest;
  }

  function RevisionRest(oldFact: string, newFact: string): string {
    "belief revised: \"" + oldFact + "\" \U{2192} \"" + newFact + "\". "
  }

  lemma DateLength(today: string)
    requires IsDate(today)
    ensures |today| == 10
  {
  }

  lemma RevisionStartParts(today: string, oldFact: string, newFact: string)
    ensures RevisionStart(today, oldFact, newFact) == "- " + today + ": " + RevisionRest(oldFact, newFact)
  {
    var d := "- " + today;
    assert ": belief revised: \"" == ": " + "belief revised: \"";
    Assoc(d, ": ", "belief revised: \"");
    Assoc(d + ": ", "belief revised: \"", oldFact);
    Assoc(d + ": ", "belief revised: \"" + oldFact, "\" \U{2192} \"");
    Assoc(d + ": ", "belief revised: \"" + oldFact + "\" \U{2192} \"", newFact);
    Assoc(d + ": ", "belief revised: \"" + oldFact + "\" \U{2192} \"" + newFact, "\". ");
  }

  lemma DateText(today: string, rest: string)
    requires |today| == 10 && |rest| > 0
    ensures var text := ("- " + today + ": " + rest)[2..];
      |text| > 12 && text[..10] == today && text[10..12] == ": " && text[12..] == rest
  {
    var text := ("- " + today + ": " + rest)[2..];
    assert text == today + ": " + rest;
  }

  /** The record of a revision is read with its date and a source: the one that is found behind the date. */
  lemma RevisionReadSourced(today: string, oldFact: string, newFact: string, attribution: string)
    requires IsDate(today)
    ensures ReadSourced(RevisionEntry(today, oldFact, newFact, attribution), today) <==>
      && OneLine(oldFact) && OneLine(newFact) && OneLine(attribution)
      && FindSource(RevisionRest(oldFact, newFact) + (SOURCE_OPEN + (attribution + "]"))).Some?
  {
    hide RevisionEntry, RevisionRest, IsDate, FindSource, SourceHere, OneLine, ReadSourced, IsSpace;
    var e := RevisionEntry(today, oldFact, newFact, attribution);
    DateIsOneLine(today);
    RevisionEntryOneLine(today, oldFact, newFact, attribution);
    RevisionEntryShape(today, oldFact, newFact, attribution);
    RevisionEntryRest(today, oldFact, newFact, attribution);
    ReadSourcedLine(e, today);
  }

  /**
   The record of a revision of single-line texts is read with its date and a source whenever the
   attribution starts with a character other than `]`; among texts without an opening bracket only then.
   */
  lemma RevisionIsSourced(today: string, oldFact: string, newFact: string, attribution: string)
    requires IsDate(today)
    ensures var line := RevisionEntry(today, oldFact, newFact, attribution);
      var lines := OneLine(oldFact) && OneLine(newFact) && OneLine(attribution);
      && (lines && attribution != "" && attribution[0] != ']' ==> ReadSourced(line, today))
      && ('[' !in oldFact && '[' !in newFact && '[' !in attribution && ReadSourced(line, today)
          ==> lines && attribution != "" && attribution[0] != ']')
  {
    hide RevisionEntry, RevisionRest, IsDate, FindSource, SourceHere, OneLine, ReadSourced;
    var s := SOURCE_OPEN + (attribution + "]");
    var start := RevisionRest(oldFact, newFact);
    RevisionReadSourced(today, oldFact, newFact, attribution);
    SourceHereIff(attribution);
    if SourceHere(s) {
      FindSourceAfter(start, s);
    } else if '[' !in oldFact && '[' !in newFact && '[' !in attribution && FindSource(start + s).Some? {
      RevisionRestHasNoBracket(oldFact, newFact);
      FindSourceNeedsBracket(start, s);
      SourceOnlyHere(attribution);
    }
  }

  lemma RevisionRestHasNoBracket(oldFact: string, newFact: string)
    requires '[' !in oldFact && '[' !in newFact
    ensures '[' !in RevisionRest(oldFact, newFact)
  {
    assert '[' !in "belief revised: \"" && '[' !in "\" \U{2192} \"" && '[' !in "\". ";
  }

  // ---- Which revisions are recorded cleanly ----

  /** What the caller of a revision supplies: single lines, and a truth that stays a zone text. */
  predicate RevisionAllowed(content: string, oldFact: string, newFact: string, attribution: string, today: string) {
    && IsDate(today)
    && OneLine(oldFact) && OneLine(newFact) && OneLine(attribution) && Lacks(attribution)
    && Clean(ReplaceFirst(CompiledTruthOf(content), oldFact, newFact))
  }

  lemma DateIsOneLine(today: string)
    requires IsDate(today)
    ensures OneLine(today) && '#' !in today
  {
  }

  lemma {:induction false} NoMarkerInLine(s: string, bol: bool)
    requires OneLine(s) && (bol ==> !(SECTION <= s))
    ensures !HasMarkerLine(s, SECTION, bol)
    decreases |s|
  {
    if s != "" { NoMarkerInLine(s[1..], s[0] == '\n'); }
  }

  lemma CountSeparated(a: string, c: char, b: string, h: string)
    requires HeadingLike(h) && c in "\":"
    requires c !in h
    ensures Count(a + [c] + b, h) == Count(a, h) + Count(b, h)
  {
    CountAcross(a, c, b, h);
  }

  lemma CountFixed(s: string, h: string)
    requires HeadingLike(h) && '#' !in s
    ensures Count(s, h) == 0
  {
    CountNoHash(s, h);
  }

  lemma HeadingsHaveNoQuotes()
    ensures forall h | h in {TRUTH_HEADING, TIMELINE_HEADING} :: '"' !in h && ':' !in h && ']' !in h
  {
    forall h | h in {TRUTH_HEADING, TIMELINE_HEADING} ensures '"' !in h && ':' !in h && ']' !in h {
      assert forall i | 0 <= i < |h| :: h[i] != '"' && h[i] != ':' && h[i] != ']';
    }
  }

  /** The quotation marks and the bracket keep the texts of an entry apart. */
  lemma EntryPieces(today: string, oldFact: string, newFact: string, attribution: string)
    ensures var a, b, c := "- " + today + ": belief revised: ", " \U{2192} ", ". [Source";
      RevisionEntry(today, oldFact, newFact, attribution)
        == a + ['"'] + (oldFact + ['"'] + (b + ['"'] + (newFact + ['"']
          + (c + [':'] + ((" " + attribution) + [']'] + "")))))
  {
    var a := "- " + today + ": belief revised: ";
    var t := (" " + attribution) + [']'] + "";
    assert t == " " + attribution + "]";
    assert ": belief revised: \"" == ": belief revised: " + ['"'];
    Assoc("- " + today, ": belief revised: ", ['"']);
    var s := a + ['"'];
    assert "\" \U{2192} \"" == ['"'] + (" \U{2192} " + ['"']);
    assert "\". [Source: " == ['"'] + (". [Source" + ([':'] + " "));
    EntryAssoc(s, oldFact, newFact, attribution);
  }

  lemma EntryAssoc(s: string, o: string, n: string, at: string)
    ensures s + o + (['"'] + (" \U{2192} " + ['"'])) + n + (['"'] + (". [Source" + ([':'] + " "))) + at + "]"
      == s + (o + ['"'] + (" \U{2192} " + ['"'] + (n + ['"'] + (". [Source" + [':'] + ((" " + at) + [']'] + "")))))
  {
    var t := (" " + at) + [']'] + "";
    var q, b, c := ['"'], " \U{2192} ", ". [Source";
    var x := c + [':'] + t;
    assert (c + ([':'] + " ")) + at + "]" == x by {
      assert t == " " + (at + "]");
      Assoc(c, [':'], " ");
      Assoc(c + [':'] + " ", at, "]");
      Assoc(c + [':'], " ", at + "]");
    }
    assert (q + (c + ([':'] + " "))) + at + "]" == q + x by {
      Assoc(q, c + ([':'] + " "), at);
      Assoc(q, (c + ([':'] + " ")) + at, "]");
    }
    var y := n + q + x;
    var z := b + q + y;
    var l := s + o + (q + (b + q)) + n;
    Assoc(l, q + (c + ([':'] + " ")), at);
    Assoc(l, q + (c + ([':'] + " ")) + at, "]");
    Assoc(s + o + (q + (b + q)), n, q + x);
    Assoc(n, q, x);
    Assoc(s + o, q + (b + q), y);
    Assoc(q, b + q, y);
    Assoc(s, o, q + z);
    Assoc(o, q, z);
  }

  lemma EntryCount(today: string, oldFact: string, newFact: string, attribution: string, h: string)
    requires h in {TRUTH_HEADING, TIMELINE_HEADING} && IsDate(today)
    ensures Count(RevisionEntry(today, oldFact, newFact, attribution), h)
      == Count(oldFact, h) + Count(newFact, h) + Count(attribution, h)
  {
    hide Count, HeadingLike, RevisionEntry, IsDate;
    HeadingFacts();
    HeadingsHaveNoQuotes();
    EntryPieces(today, oldFact, newFact, attribution);
    DateIsOneLine(today);
    var a, b, c, t := "- " + today + ": belief revised: ", " \U{2192} ", ". [Source", " " + attribution;
    var e5 := t + [']'] + "";
    var e4 := c + [':'] + e5;
    var e3 := newFact + ['"'] + e4;
    var e2 := b + ['"'] + e3;
    var e1 := oldFact + ['"'] + e2;
    CountSeparated(a, '"', e1, h);
    CountSeparated(oldFact, '"', e2, h);
    CountSeparated(b, '"', e3, h);
    CountSeparated(newFact, '"', e4, h);
    CountSeparated(c, ':', e5, h);
    CountHead(t, h);
    CountFixed(a, h);
    CountFixed(b, h);
    CountFixed(c, h);
    CountAfterSpace(attribution, h);
  }

  lemma CountHead(t: string, h: string)
    requires HeadingLike(h) && ']' !in h
    ensures Count(t + [']'] + "", h) == Count(t, h)
  {
    CountAcross(t, ']', "", h);
    CountNoHash("", h);
  }

  lemma CountAfterSpace(a: string, h: string)
    requires HeadingLike(h)
    ensures Count(" " + a, h) == Count(a, h)
  {
    assert (" " + a)[1..] == a;
    assert h[0] == SECTION[0];
  }

  lemma {:induction false} CountPrefix(a: string, b: string, h: string)
    ensures Count(a, h) <= Count(a + b, h)
  {
    if a == "" {
      assert h <= a ==> h <= a + b;
    } else {
      ConsAppend(a, b);
      assert h <= a ==> h <= a + b;
      CountPrefix(a[1..], b, h);
    }
  }

  lemma LacksInside(a: string, b: string, c: string)
    requires Lacks(a + b + c)
    ensures Lacks(b)
  {
    hide Count;
    CountPrefix(a + b, c, TRUTH_HEADING);
    CountSuffix(a, b, TRUTH_HEADING);
    CountPrefix(a + b, c, TIMELINE_HEADING);
    CountSuffix(a, b, TIMELINE_HEADING);
  }

  /** The text that a revision of the first occurrence divides a truth into. */
  lemma ReplaceParts(truth: string, oldFact: string, newFact: string) returns (b: string, r: string)
    requires Contains(truth, oldFact)
    ensures truth == b + oldFact + r && ReplaceFirst(truth, oldFact, newFact) == b + newFact + r
    ensures b == Before(truth, oldFact)
  {
    b := Before(truth, oldFact);
    var rest := truth[|b|..];
    assert truth == b + rest && oldFact <= rest;
    r := rest[|oldFact|..];
    assert rest == oldFact + r;
    Assoc(b, oldFact, r);
    assert truth[|b| + |oldFact|..] == r;
  }

  lemma PrefixLacks(z: string, r: string)
    requires Lacks(z) && r <= z
    ensures Lacks(r)
  {
    hide Lacks;
    assert "" + r + z[|r|..] == z;
    LacksInside("", r, z[|r|..]);
  }

  lemma TruthLacks(content: string)
    requires TwoZoned(content)
    ensures Lacks(CompiledTruthOf(content))
  {
    hide TwoZoned, Shape.Valid, Shape.Content, CompiledTruthOf, RStrip, Lacks, HasMarkerLine, SkipBlank, TimelineOpen,
      Shape.Open, Shape.Zone, TimelineOf, Entries, SplitFrontmatter;
    var p := Recognize(content);
    ParsedShape(p);
    ZoneIsText(p, true);
    var z := p.Zone(true);
    var r := RStrip(z);
    PrefixLacks(z, r);
  }

  lemma RevisionEntryClean(content: string, oldFact: string, newFact: string, attribution: string, today: string)
    requires TwoZoned(content) && Contains(CompiledTruthOf(content), oldFact)
    requires RevisionAllowed(content, oldFact, newFact, attribution, today)
    ensures Clean(RevisionEntry(today, oldFact, newFact, attribution))
  {
    hide TwoZoned, CompiledTruthOf, Contains, Count, HasMarkerLine, RevisionEntry, IsDate, OneLine, ReplaceFirst,
      Before;
    var e := RevisionEntry(today, oldFact, newFact, attribution);
    TruthLacks(content);
    var b, r := ReplaceParts(CompiledTruthOf(content), oldFact, newFact);
    LacksInside(b, oldFact, r);
    LacksInside(b, newFact, r);
    EntryCount(today, oldFact, newFact, attribution, TRUTH_HEADING);
    EntryCount(today, oldFact, newFact, attribution, TIMELINE_HEADING);
    DateIsOneLine(today);
    RevisionEntryOneLine(today, oldFact, newFact, attribution);
    RevisionEntryShape(today, oldFact, newFact, attribution);
    assert e[0] == BULLET[0] && SECTION[0] == '#';
    NoMarkerInLine(e, true);
  }
}
