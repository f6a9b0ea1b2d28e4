/** Evidence under page appends and source ingestion (src/mimir/learning.py:79-135, 195-275). */
module Consolidation {
  import opened Text
  import opened CompiledTruth
  import opened PageRecognition
  import opened PageHistory
  import opened Evidence
  import opened SortedText

  // ---- One appended line ----

  lemma AppendedSupport(tok: Tokenizer, cfg: EvidenceConfig, fact: string, entries: seq<TimelineEntry>,
    e: TimelineEntry)
    ensures SupportDates(tok, cfg, fact, entries + [e])
      == SupportDates(tok, cfg, fact, entries) + if Supports(tok, cfg, fact, e) then [e.date] else []
  {
    hide Supports;
    assert (entries + [e])[..|entries|] == entries;
  }

  /** The entry that an appended line is parsed into. */
  function LineEntry(line: string): TimelineEntry
    requires OneLine(RStripNewlines(line)) && BULLET <= Strip(RStripNewlines(line))
  {
    ParseEntry(Strip(RStripNewlines(line)))
  }

  /**
   An appended line raises the proof count by one for exactly the facts that it supports; the facts,
   their order, and every count that it does not support stay as they were.
   */
  lemma AppendCountsExactly(
    tok: Tokenizer, cfg: EvidenceConfig, now: real, content: string, line: string, sources: seq<Source>, i: nat)
    requires WellFormed(content) && Allowed(content, Append(line))
    ensures var after := AppendTimelineEntry(content, line);
      ExtractKeyFacts(after) == ExtractKeyFacts(content)
    ensures i < |ExtractKeyFacts(content)| ==>
      var before, after := PageEvidence(tok, cfg, now, content, sources)[i],
        PageEvidence(tok, cfg, now, AppendTimelineEntry(content, line), sources)[i];
      && after.fact == before.fact
      && after.sourceProofCount == before.sourceProofCount
      && after.proofCount == before.proofCount + (if Supports(tok, cfg, before.fact, LineEntry(line)) then 1 else 0)
      && (!Supports(tok, cfg, before.fact, LineEntry(line)) ==> after == before)
  {
    hide WellFormed, AppendTimelineEntry, FactsOfTruth, CompiledTruthOf, TimelineOf, Strip, RStripNewlines, ParseEntry,
      Supports, EvidenceOf;
    ApplyLogs(content, Append(line));
    AppendKeepsTruth(content, line);
    if i < |ExtractKeyFacts(content)| {
      AppendedEvidence(tok, cfg, now, ExtractKeyFacts(content)[i], TimelineOf(content), LineEntry(line), sources);
    }
  }

  lemma AppendedEvidence(
    tok: Tokenizer, cfg: EvidenceConfig, now: real, fact: string, entries: seq<TimelineEntry>, e: TimelineEntry,
    sources: seq<Source>)
    ensures var before, after := EvidenceOf(tok, cfg, now, fact, entries, sources),
        EvidenceOf(tok, cfg, now, fact, entries + [e], sources);
      && before.fact == after.fact == fact
      && after.proofCount == before.proofCount + (if Supports(tok, cfg, fact, e) then 1 else 0)
      && after.sourceProofCount == before.sourceProofCount
      && (!Supports(tok, cfg, fact, e) ==> after == before)
  {
    hide Supports, SourceProofs, SupportDates, DeriveTrend, SortStrings;
    AppendedSupport(tok, cfg, fact, entries, e);
    var dates := SupportDates(tok, cfg, fact, entries);
    assert dates + [] == dates;
  }

  lemma AppendKeepsTruth(content: string, line: string)
    requires WellFormed(content) && Allowed(content, Append(line))
    ensures CompiledTruthOf(AppendTimelineEntry(content, line)) == CompiledTruthOf(content)
  {
    TimelineLog.AppendGrows(content, line);
  }

  // ---- Sources ----

  datatype RawSource = RawSource(id: string, title: string, content: string)
  datatype WikiPage = WikiPage(path: string, title: string, content: string)

  function AsSource(s: RawSource): Source {
    Source(s.id, s.content)
  }

  /** A source bears on a page with this title. */
  predicate Bears(tok: Tokenizer, cfg: EvidenceConfig, source: RawSource, title: string) {
    && tok(title) != {}
    && (tok(title) <= tok(source.title + "\n" + source.content)
        || Overlaps(tok(title), tok(source.title), cfg))
  }

  function Bearing(tok: Tokenizer, cfg: EvidenceConfig, source: RawSource, pages: seq<WikiPage>): seq<string> {
    if pages == [] then []
    else
      var last := pages[|pages| - 1];
      Bearing(tok, cfg, source, pages[..|pages| - 1])
      + if Bears(tok, cfg, source, last.title) then [last.path] else []
  }

  /**
   The pages that a source bears on come in page order: those whose title has words, which either all occur
   in the source, or of which enough occur in the source's title.
   */
  lemma {:induction false} BearingPages(
    tok: Tokenizer, cfg: EvidenceConfig, source: RawSource, a: seq<WikiPage>, b: seq<WikiPage>)
    ensures Bearing(tok, cfg, source, a + b) == Bearing(tok, cfg, source, a) + Bearing(tok, cfg, source, b)
    ensures |b| == 1 ==>
      var words := tok(b[0].title);
      Bearing(tok, cfg, source, b)
        == if words != {} && (words <= tok(source.title + "\n" + source.content)
             || |words * tok(source.title)| >= cfg.minTokenOverlap)
           then [b[0].path] else []
  {
    if b == [] {
      assert a + b == a;
    } else {
      assert (a + b)[..|a + b| - 1] == a + b[..|b| - 1];
      BearingPages(tok, cfg, source, a, b[..|b| - 1]);
    }
  }

  method FindBearingPages(tok: Tokenizer, cfg: EvidenceConfig, source: RawSource, pages: seq<WikiPage>)
    returns (affected: seq<string>)
    ensures affected == Bearing(tok, cfg, source, pages)
  {
    var sourceTokens := tok(source.title + "\n" + source.content);
    var sourceTitleTokens := tok(source.title);
    affected := [];
    for i := 0 to |pages|
      invariant affected == Bearing(tok, cfg, source, pages[..i])
    {
      assert pages[..i + 1][..i] == pages[..i];
      var titleTokens := tok(pages[i].title);
      if titleTokens == {} {
        continue;
      }
      if titleTokens <= sourceTokens {
        affected := affected + [pages[i].path];
        continue;
      }
      if |titleTokens * sourceTitleTokens| >= cfg.minTokenOverlap {
        affected := affected + [pages[i].path];
      }
    }
    assert pages[..|pages|] == pages;
  }

  /** The dictionary of page contents: the last page with a path wins. */
  function ContentByPath(pages: seq<WikiPage>): (m: map<string, string>)
    ensures forall p | p in pages :: p.path in m
  {
    if pages == [] then map[]
    else
      var last := pages[|pages| - 1];
      assert pages == pages[..|pages| - 1] + [last];
      ContentByPath(pages[..|pages| - 1])[last.path := last.content]
  }

  lemma {:induction false} BearingHaveContent(tok: Tokenizer, cfg: EvidenceConfig, source: RawSource,
    pages: seq<WikiPage>)
    ensures forall path | path in Bearing(tok, cfg, source, pages) :: path in ContentByPath(pages)
  {
    hide Bears;
    if pages != [] {
      BearingHaveContent(tok, cfg, source, pages[..|pages| - 1]);
    }
  }

  /** The facts of a page that a source overlaps enough. */
  function ProvedFacts(tok: Tokenizer, cfg: EvidenceConfig, facts: seq<string>, source: Source): nat {
    if facts == [] then 0
    else
      ProvedFacts(tok, cfg, facts[..|facts| - 1], source)
      + if SourceProves(tok, cfg, facts[|facts| - 1], source) then 1 else 0
  }

  /** The (page, fact) pairs that a source strengthens, over the bearing pages. */
  function Pairs(
    tok: Tokenizer, cfg: EvidenceConfig, source: Source, paths: seq<string>, contents: map<string, string>): nat
    requires forall path | path in paths :: path in contents
  {
    if paths == [] then 0
    else
      Pairs(tok, cfg, source, paths[..|paths| - 1], contents)
      + ProvedFacts(tok, cfg, ExtractKeyFacts(contents[paths[|paths| - 1]]), source)
  }

  /** The last page with a path is the one that is looked at. */
  lemma {:induction false} ContentIsLast(pages: seq<WikiPage>, k: nat)
    requires k < |pages| && forall j | k < j < |pages| :: pages[j].path != pages[k].path
    ensures pages[k].path in ContentByPath(pages) && ContentByPath(pages)[pages[k].path] == pages[k].content
  {
    if k < |pages| - 1 {
      ContentIsLast(pages[..|pages| - 1], k);
    }
  }

  /** The facts, by their places, that share enough words with a text. */
  ghost function SharedFacts(tok: Tokenizer, cfg: EvidenceConfig, facts: seq<string>, text: string): set<nat> {
    set j: nat | j < |facts| && |tok(facts[j]) * tok(text)| >= cfg.minTokenOverlap
  }

  lemma {:induction false} ProvedFactsCount(tok: Tokenizer, cfg: EvidenceConfig, facts: seq<string>, source: RawSource)
    ensures ProvedFacts(tok, cfg, facts, AsSource(source)) == |SharedFacts(tok, cfg, facts, source.content)|
  {
    var all := SharedFacts(tok, cfg, facts, source.content);
    if facts == [] {
      assert all == {};
    } else {
      var n := |facts| - 1;
      ProvedFactsCount(tok, cfg, facts[..n], source);
      SharedSnoc(tok, cfg, facts, source.content, n);
    }
  }

  lemma SharedSnoc(tok: Tokenizer, cfg: EvidenceConfig, facts: seq<string>, text: string, n: nat)
    requires |facts| == n + 1
    ensures var few := SharedFacts(tok, cfg, facts[..n], text);
      |SharedFacts(tok, cfg, facts, text)|
        == |few| + if |tok(facts[n]) * tok(text)| >= cfg.minTokenOverlap then 1 else 0
  {
    var all, few := SharedFacts(tok, cfg, facts, text), SharedFacts(tok, cfg, facts[..n], text);
    forall j: nat ensures j in all <==> j in few || (j == n && |tok(facts[n]) * tok(text)| >= cfg.minTokenOverlap) {
      if j < n { assert facts[..n][j] == facts[j]; }
    }
    var last := if |tok(facts[n]) * tok(text)| >= cfg.minTokenOverlap then {n} else {};
    assert all == few + last && few !! last;
  }

  /** The number of facts, over some pages, that share enough words with the content of a source. */
  ghost function SharedOver(
    tok: Tokenizer, cfg: EvidenceConfig, paths: seq<string>, contents: map<string, string>, text: string): nat
    requires forall path | path in paths :: path in contents
  {
    if paths == [] then 0
    else
      SharedOver(tok, cfg, paths[..|paths| - 1], contents, text)
      + |SharedFacts(tok, cfg, ExtractKeyFacts(contents[paths[|paths| - 1]]), text)|
  }

  lemma {:induction false} PairsAreShared(
    tok: Tokenizer, cfg: EvidenceConfig, source: RawSource, paths: seq<string>, contents: map<string, string>)
    requires forall path | path in paths :: path in contents
    ensures Pairs(tok, cfg, AsSource(source), paths, contents) == SharedOver(tok, cfg, paths, contents, source.content)
  {
    hide ExtractKeyFacts, SharedFacts, ProvedFacts;
    if paths != [] {
      PairsAreShared(tok, cfg, source, paths[..|paths| - 1], contents);
      ProvedFactsCount(tok, cfg, ExtractKeyFacts(contents[paths[|paths| - 1]]), source);
    }
  }

  /** The facts whose count rose between two evidence lists. */
  function Risen(before: seq<FactEvidence>, after: seq<FactEvidence>): nat
    requires |before| == |after|
  {
    if before == [] then 0
    else
      Risen(before[..|before| - 1], after[..|after| - 1])
      + if after[|after| - 1].proofCount > before[|before| - 1].proofCount then 1 else 0
  }

  lemma OneMoreSource(
    tok: Tokenizer, cfg: EvidenceConfig, now: real, fact: string, entries: seq<TimelineEntry>,
    others: seq<Source>, source: Source)
    ensures EvidenceOf(tok, cfg, now, fact, entries, others + [source]).proofCount
      == EvidenceOf(tok, cfg, now, fact, entries, others).proofCount
        + if SourceProves(tok, cfg, fact, source) then 1 else 0
  {
    hide SupportDates, SortStrings, DeriveTrend, SourceProves;
    assert (others + [source])[..|others|] == others;
  }

  lemma {:induction false} RisenIsProved(
    tok: Tokenizer, cfg: EvidenceConfig, now: real, facts: seq<string>, entries: seq<TimelineEntry>,
    others: seq<Source>, source: Source, before: seq<FactEvidence>, after: seq<FactEvidence>)
    requires |before| == |after| == |facts|
    requires forall i | 0 <= i < |facts| :: before[i] == EvidenceOf(tok, cfg, now, facts[i], entries, others)
    requires forall i | 0 <= i < |facts| :: after[i] == EvidenceOf(tok, cfg, now, facts[i], entries, others + [source])
    ensures Risen(before, after) == ProvedFacts(tok, cfg, facts, source)
  {
    hide EvidenceOf, SourceProves;
    if facts != [] {
      var n := |facts| - 1;
      OneMoreSource(tok, cfg, now, facts[n], entries, others, source);
      RisenIsProved(tok, cfg, now, facts[..n], entries, others, source, before[..n], after[..n]);
    }
  }

  /**
   Consolidation reports the bearing pages, and as `strengthened` the number of their facts that the new
   source overlaps enough, whatever the other sources and the time are.
   */
  method ConsolidateSource(
    tok: Tokenizer, cfg: EvidenceConfig, now: real, source: RawSource, pages: seq<WikiPage>, others: seq<Source>)
    returns (bearing: seq<string>, strengthened: nat)
    ensures bearing == Bearing(tok, cfg, source, pages)
    ensures (forall path | path in bearing :: path in ContentByPath(pages))
      && strengthened == Pairs(tok, cfg, AsSource(source), bearing, ContentByPath(pages))
      && strengthened == SharedOver(tok, cfg, bearing, ContentByPath(pages), source.content)
  {
    hide Bears, Bearing, ContentByPath, ExtractKeyFacts, EvidenceOf, TimelineOf, ProvedFacts;
    bearing := FindBearingPages(tok, cfg, source, pages);
    BearingHaveContent(tok, cfg, source, pages);
    var contents := ContentByPath(pages);
    var all := others + [AsSource(source)];
    strengthened := 0;
    for i := 0 to |bearing|
      invariant strengthened == Pairs(tok, cfg, AsSource(source), bearing[..i], contents)
    {
      var content := contents[bearing[i]];
      var before := ComputePageEvidence(tok, cfg, now, content, others);
      var after := ComputePageEvidence(tok, cfg, now, content, all);
      var risen := CountRisen(before, after);
      strengthened := strengthened + risen;
      assert bearing[..i + 1][..i] == bearing[..i];
      RisenIsProved(tok, cfg, now, ExtractKeyFacts(content), TimelineOf(content), others, AsSource(source),
        before, after);
    }
    assert bearing[..|bearing|] == bearing;
    PairsAreShared(tok, cfg, source, bearing, contents);
  }

  method CountRisen(before: seq<FactEvidence>, after: seq<FactEvidence>) returns (n: nat)
    requires |before| == |after|
    ensures n == Risen(before, after)
  {
    n := 0;
    for i := 0 to |before|
      invariant n == Risen(before[..i], after[..i])
    {
      assert before[..i + 1][..i] == before[..i] && after[..i + 1][..i] == after[..i];
      if after[i].proofCount > before[i].proofCount {
        n := n + 1;
      }
    }
    assert before[..|before|] == before && after[..|after|] == after;
  }

  // ---- Ingesting many sources ----

  /** The (source, page, fact) triples of a list of sources. */
  function Triples(tok: Tokenizer, cfg: EvidenceConfig, sources: seq<RawSource>, pages: seq<WikiPage>): nat {
    if sources == [] then 0
    else
      var last := sources[|sources| - 1];
      BearingHaveContent(tok, cfg, last, pages);
      Triples(tok, cfg, sources[..|sources| - 1], pages)
      + Pairs(tok, cfg, AsSource(last), Bearing(tok, cfg, last, pages), ContentByPath(pages))
  }

  /** Sources ingested one at a time, each consolidated against all earlier ones. */
  method IngestAll(tok: Tokenizer, cfg: EvidenceConfig, nows: seq<real>, sources: seq<RawSource>, pages: seq<WikiPage>)
    returns (total: nat)
    requires |nows| == |sources|
    ensures total == Triples(tok, cfg, sources, pages)
  {
    hide Bearing, ContentByPath, Pairs;
    total := 0;
    var others: seq<Source> := [];
    for i := 0 to |sources|
      invariant total == Triples(tok, cfg, sources[..i], pages)
    {
      assert sources[..i + 1][..i] == sources[..i];
      var bearing, strengthened := ConsolidateSource(tok, cfg, nows[i], sources[i], pages, others);
      total := total + strengthened;
      others := others + [AsSource(sources[i])];
    }
    assert sources[..|sources|] == sources;
  }

  lemma {:induction false} TriplesConcat(
    tok: Tokenizer, cfg: EvidenceConfig, a: seq<RawSource>, b: seq<RawSource>, pages: seq<WikiPage>)
    ensures Triples(tok, cfg, a + b, pages) == Triples(tok, cfg, a, pages) + Triples(tok, cfg, b, pages)
  {
    hide Bearing, ContentByPath, Pairs;
    if b == [] {
      assert a + b == a;
    } else {
      assert (a + b)[..|a + b| - 1] == a + b[..|b| - 1];
      TriplesConcat(tok, cfg, a, b[..|b| - 1], pages);
    }
  }

  /** The total does not depend on the order in which the sources are ingested. */
  lemma {:induction false} TriplesIgnoreOrder(
    tok: Tokenizer, cfg: EvidenceConfig, a: seq<RawSource>, b: seq<RawSource>, pages: seq<WikiPage>)
    requires multiset(a) == multiset(b)
    ensures Triples(tok, cfg, a, pages) == Triples(tok, cfg, b, pages)
  {
    hide Triples;
    assert |a| == |multiset(a)| == |multiset(b)| == |b|;
    if a == [] {
      assert a == b;
    } else {
      var init, x := a[..|a| - 1], a[|a| - 1];
      var p, q := Extract(a, b);
      TriplesIgnoreOrder(tok, cfg, init, p + q, pages);
      TriplesConcat(tok, cfg, init, [x], pages);
      TriplesConcat(tok, cfg, p + [x], q, pages);
      TriplesConcat(tok, cfg, p, [x], pages);
      TriplesConcat(tok, cfg, p, q, pages);
      assert init + [x] == a;
    }
  }
}
