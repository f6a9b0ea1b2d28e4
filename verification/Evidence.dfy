/** Evidence counting over a page's key facts (src/mimir/learning.py:70-160). */
module Evidence {
  import opened Text
  import opened Patterns
  import opened CompiledTruth
  import opened Calendar
  import opened SortedText

  datatype EvidenceConfig = EvidenceConfig(
    minTokenOverlap: int, staleAfterDays: real, weakeningAfterDays: real, strengtheningMinProofs: int)

  datatype Trend = New | Strengthening | Stable | Weakening | Stale

  datatype FactEvidence = FactEvidence(
    fact: string, proofCount: nat, trend: Trend, latestSupport: Option<string>,
    supportingDates: seq<string>, sourceProofCount: nat)

  datatype Source = Source(id: string, content: string)

  /** The tokenizer; its words are compared only for equality. */
  type Tokenizer = string -> set<string>

  // ---- Key facts ----

  const KEY_FACTS: string := "### Key Facts"
  const SUBSECTION: string := "###"

  function UpToNewline(s: string): (r: string)
    ensures r <= s
  {
    if s == "" || s[0] == '\n' then "" else [s[0]] + UpToNewline(s[1..])
  }

  function AfterNewline(s: string): (r: string)
    ensures |r| <= |s| && (s != "" ==> |r| < |s|)
  {
    if s == "" then "" else if s[0] == '\n' then s[1..] else AfterNewline(s[1..])
  }

  /** A list item starts on the first line of `s` that is not blank. */
  predicate StartsBullet(s: string) {
    var t := LStrip(s);
    |t| > 1 && t[0] == '-' && IsSpace(t[1]) && LStrip(t[1..]) != ""
  }

  /** The text from the item's first solid character on. */
  function BulletText(s: string): (u: string)
    requires StartsBullet(s)
    ensures u != "" && |u| < |s| && !IsSpace(u[0])
  {
    LStrip(LStrip(s)[1..])
  }

  /** All matches of `^\s*-\s+(.*\S)\s*$`, searched from the start of a line. */
  function Bullets(s: string): seq<string>
    decreases |s|
  {
    if StartsBullet(s) then
      [RStrip(UpToNewline(BulletText(s)))] + Bullets(AfterNewline(BulletText(s)))
    else if s == "" then []
    else Bullets(AfterNewline(s))
  }

  function FactsOfTruth(truth: string): seq<string> {
    match Locate(truth, KEY_FACTS, false, true)
    case None => []
    case Some(cut) => Bullets(TakeSection(cut.after, SUBSECTION, true).before)
  }

  function ExtractKeyFacts(content: string): seq<string> {
    FactsOfTruth(CompiledTruthOf(content))
  }

  lemma AroundMiddle(b: string, m: string, a: string, f: string)
    requires Contains(m, f)
    ensures Contains(b + m + a, f)
  {
    var k := |Before(m, f)|;
    var s := b + m + a;
    assert m[k..] == f + m[k + |f|..];
    assert s[|b| + k..] == f + (m[k + |f|..] + a);
    ContainsAt(s, |b| + k, f);
  }

  lemma SuffixContains(s: string, k: nat, f: string)
    requires k <= |s| && Contains(s[k..], f)
    ensures Contains(s, f)
  {
    AroundMiddle(s[..k], s[k..], "", f);
    assert s[..k] + s[k..] + "" == s;
  }

  lemma PrefixContains(s: string, p: string)
    requires p <= s
    ensures Contains(s, p)
  {
  }

  lemma {:induction false} NewlineParts(s: string)
    ensures |UpToNewline(s)| + |AfterNewline(s)| <= |s|
    ensures AfterNewline(s) == s[|s| - |AfterNewline(s)|..]
  {
    if s != "" && s[0] != '\n' { NewlineParts(s[1..]); }
  }

  lemma BulletTextInside(s: string, f: string)
    requires StartsBullet(s) && Contains(BulletText(s), f)
    ensures Contains(s, f)
  {
    hide Contains;
    var t, u := LStrip(s), BulletText(s);
    SuffixContains(t[1..], |t| - 1 - |u|, f);
    SuffixContains(t, 1, f);
    SuffixContains(s, |s| - |t|, f);
  }

  lemma AfterNewlineInside(s: string, f: string)
    requires Contains(AfterNewline(s), f)
    ensures Contains(s, f)
  {
    hide Contains;
    NewlineParts(s);
    SuffixContains(s, |s| - |AfterNewline(s)|, f);
  }

  /** Every bullet is a solid text that stands in the list. */
  lemma {:induction false} BulletsAreHeld(s: string, f: string)
    requires f in Bullets(s)
    ensures Contains(s, f) && f != "" && !IsSpace(f[0]) && !IsSpace(f[|f| - 1])
    decreases |s|
  {
    hide Contains, RStrip, StartsBullet, BulletText, UpToNewline, AfterNewline, IsSpace;
    if StartsBullet(s) {
      var u := BulletText(s);
      if f == RStrip(UpToNewline(u)) {
        FirstBullet(u);
        PrefixContains(u, f);
      } else {
        BulletsAreHeld(AfterNewline(u), f);
        AfterNewlineInside(u, f);
      }
      BulletTextInside(s, f);
    } else {
      BulletsAreHeld(AfterNewline(s), f);
      AfterNewlineInside(s, f);
    }
  }

  lemma FirstBullet(u: string)
    requires u != "" && !IsSpace(u[0])
    ensures var f := RStrip(UpToNewline(u)); f <= u && f != "" && f[0] == u[0]
  {
    var l := UpToNewline(u);
    assert l[0] == u[0];
  }

  /** Every key fact is held in the Compiled Truth, so that a revision of it is never refused. */
  lemma KeyFactsAreHeld(content: string, f: string)
    requires f in ExtractKeyFacts(content)
    ensures Contains(CompiledTruthOf(content), f)
    ensures f != "" && !IsSpace(f[0]) && !IsSpace(f[|f| - 1])
    ensures forall n, a, d :: ReviseBelief(content, f, n, a, d).Some?
  {
    hide Contains, CompiledTruthOf, Locate, TakeSection, Bullets, RewriteCompiledTruth, AppendTimelineEntry;
    var truth := CompiledTruthOf(content);
    var cut := Locate(truth, KEY_FACTS, false, true).value;
    var part := TakeSection(cut.after, SUBSECTION, true);
    BulletsAreHeld(part.before, f);
    AroundMiddle(cut.before, part.before, part.after, f);
    Assoc(cut.before, part.before, part.after);
  }

  // ---- Trends ----

  /** `now` counts days on the scale of `ParseDate`. */
  function DeriveTrend(dates: seq<string>, cfg: EvidenceConfig, now: real): Trend {
    if dates == [] then New
    else match ParseDate(dates[|dates| - 1])
      case None => Stable
      case Some(latest) =>
        var age := now - latest as real;
        if age > cfg.staleAfterDays then Stale
        else if age > cfg.weakeningAfterDays then Weakening
        else if |dates| >= cfg.strengtheningMinProofs then Strengthening
        else Stable
  }

  /** The stages that a supported fact passes through. */
  function Stage(t: Trend): nat {
    match t case Weakening => 1 case Stale => 2 case _ => 0
  }

  /**
   As time passes a trend moves only forward through its stages; a fact without support stays new, and a
   fact whose latest support names no real day never ages.
   */
  lemma TrendAgesOneWay(dates: seq<string>, cfg: EvidenceConfig, now: real, later: real)
    requires now <= later
    ensures var a, b := DeriveTrend(dates, cfg, now), DeriveTrend(dates, cfg, later);
      && Stage(a) <= Stage(b)
      && (a == New <==> dates == []) && (b == New <==> dates == [])
      && (Stage(b) == 0 ==> a == b)
      && (dates != [] && ParseDate(dates[|dates| - 1]).None? ==> a == b == Stable)
  {
  }

  /** The last of the sorted supports is the latest day among those that name a real day, when it names one. */
  lemma LatestSupportIsLatest(dates: seq<string>, d: string)
    requires d in dates && RealDate(d)
    ensures var sorted := SortStrings(dates);
      && sorted != []
      && (RealDate(sorted[|sorted| - 1]) ==> ParseDate(d).value <= ParseDate(sorted[|sorted| - 1]).value)
      && StrLe(d, sorted[|sorted| - 1])
  {
    hide RealDate, ParseDate, StrLe;
    var sorted := SortStrings(dates);
    SortedAndSame(dates);
    assert d in multiset(dates);
    assert d in multiset(sorted);
    var i :| 0 <= i < |sorted| && sorted[i] == d;
    var last := sorted[|sorted| - 1];
    StrLeTotal(d, d);
    if RealDate(last) {
      DateOrder(d, last);
    }
  }

  /**
   The last of the sorted supports names a real day exactly when every support that names none is
   string-below one that does.
   */
  lemma LatestSupportIsReal(dates: seq<string>, d: string)
    requires d in dates && RealDate(d)
    ensures RealDate(SortStrings(dates)[|dates| - 1]) <==>
      forall u | u in dates && !RealDate(u) :: exists v :: v in dates && RealDate(v) && StrLe(u, v)
  {
    hide RealDate, StrLe, SortStrings;
    var sorted := SortStrings(dates);
    SortedAndSame(dates);
    var last := sorted[|sorted| - 1];
    assert last in multiset(sorted);
    assert last in dates;
    forall u | u in dates ensures StrLe(u, last) {
      assert u in multiset(dates);
      assert u in multiset(sorted);
      var i :| 0 <= i < |sorted| && sorted[i] == u;
      StrLeTotal(u, u);
    }
    if !RealDate(last) && exists v :: v in dates && RealDate(v) && StrLe(last, v) {
      var v :| v in dates && RealDate(v) && StrLe(last, v);
      StrLeTotal(v, last);
      assert false;
    }
  }

  lemma LeapDay()
    ensures RealDate("2024-02-29") && !RealDate("2024-02-30")
  {
  }

  lemma {:induction false} DifferAt(a: string, b: string, i: nat)
    requires i < |a| && i < |b| && a[..i] == b[..i] && a[i] < b[i]
    ensures StrLe(a, b) && !StrLe(b, a)
  {
    if i > 0 {
      assert a[0] == a[..i][0] == b[0];
      assert a[1..][..i - 1] == a[..i][1..] == b[1..][..i - 1];
      DifferAt(a[1..], b[1..], i - 1);
    }
  }

  // ---- Proofs ----

  predicate Overlaps(a: set<string>, b: set<string>, cfg: EvidenceConfig) {
    |a * b| >= cfg.minTokenOverlap
  }

  /** A timeline entry supports a fact. */
  predicate Supports(tok: Tokenizer, cfg: EvidenceConfig, fact: string, entry: TimelineEntry) {
    Overlaps(tok(fact), tok(entry.description), cfg)
  }

  predicate SourceProves(tok: Tokenizer, cfg: EvidenceConfig, fact: string, source: Source) {
    Overlaps(tok(fact), tok(source.content), cfg)
  }

  /** The dates of the supporting entries, in page order. */
  function SupportDates(tok: Tokenizer, cfg: EvidenceConfig, fact: string, entries: seq<TimelineEntry>): seq<string> {
    if entries == [] then []
    else
      var last := entries[|entries| - 1];
      SupportDates(tok, cfg, fact, entries[..|entries| - 1])
      + if Supports(tok, cfg, fact, last) then [last.date] else []
  }

  function SourceProofs(tok: Tokenizer, cfg: EvidenceConfig, fact: string, sources: seq<Source>): nat {
    if sources == [] then 0
    else
      SourceProofs(tok, cfg, fact, sources[..|sources| - 1])
      + if SourceProves(tok, cfg, fact, sources[|sources| - 1]) then 1 else 0
  }

  // ---- What the evidence of a fact is ----

  /** The entries that share enough words with the fact, by their places. */
  ghost function SupportPlaces(tok: Tokenizer, cfg: EvidenceConfig, fact: string, entries: seq<TimelineEntry>)
    : set<nat>
  {
    set i: nat | i < |entries| && |tok(fact) * tok(entries[i].description)| >= cfg.minTokenOverlap
  }

  /** The sources that do. */
  ghost function SourcePlaces(tok: Tokenizer, cfg: EvidenceConfig, fact: string, sources: seq<Source>): set<nat> {
    set i: nat | i < |sources| && |tok(fact) * tok(sources[i].content)| >= cfg.minTokenOverlap
  }

  /** A supporting entry names a real day no more than so many days ago. */
  ghost predicate SupportedWithin(
    tok: Tokenizer, cfg: EvidenceConfig, now: real, fact: string, entries: seq<TimelineEntry>, days: real)
  {
    exists i :: i in SupportPlaces(tok, cfg, fact, entries)
      && RealDate(entries[i].date) && now - ParseDate(entries[i].date).value as real <= days
  }

  /**
   The freshness of a fact whose latest support names a real day, and of one whose latest names none: the
   thresholds part the time since the real supports, and the number of supports decides among fresh facts.
   */
  ghost predicate TrendFits(
    tok: Tokenizer, cfg: EvidenceConfig, now: real, fact: string, entries: seq<TimelineEntry>, e: FactEvidence)
  {
    var supports := |SupportPlaces(tok, cfg, fact, entries)|;
    if supports == 0 then e.trend == New
    else if e.latestSupport.None? || !RealDate(e.latestSupport.value) then e.trend == Stable
    else
      var notStale := SupportedWithin(tok, cfg, now, fact, entries, cfg.staleAfterDays);
      var notWeak := SupportedWithin(tok, cfg, now, fact, entries, cfg.weakeningAfterDays);
      && (e.trend == Stale <==> !notStale)
      && (e.trend == Weakening <==> notStale && !notWeak)
      && (e.trend == Strengthening <==> notStale && notWeak && supports >= cfg.strengtheningMinProofs)
      && (e.trend == Stable <==> notStale && notWeak && supports < cfg.strengtheningMinProofs)
  }

  /** What the evidence of one fact says, entry by entry and source by source. */
  ghost predicate EvidenceFits(
    tok: Tokenizer, cfg: EvidenceConfig, now: real, fact: string, entries: seq<TimelineEntry>, sources: seq<Source>,
    e: FactEvidence)
  {
    && e.fact == fact
    && e.sourceProofCount == |SourcePlaces(tok, cfg, fact, sources)|
    && e.proofCount == |SupportPlaces(tok, cfg, fact, entries)| + |SourcePlaces(tok, cfg, fact, sources)|
    && Sorted(e.supportingDates)
    && (forall d :: multiset(e.supportingDates)[d] == |PlacesOn(SupportPlaces(tok, cfg, fact, entries), entries, d)|)
    && (e.latestSupport == if e.supportingDates == [] then None else Some(e.supportingDates[|e.supportingDates| - 1]))
    && TrendFits(tok, cfg, now, fact, entries, e)
  }

  /** Those of the places whose entries carry a date. */
  ghost function PlacesOn(places: set<nat>, entries: seq<TimelineEntry>, d: string): set<nat> {
    set i | i in places && i < |entries| && entries[i].date == d
  }

  lemma PlacesSnoc(tok: Tokenizer, cfg: EvidenceConfig, fact: string, entries: seq<TimelineEntry>, n: nat)
    requires |entries| == n + 1
    ensures SupportPlaces(tok, cfg, fact, entries)
      == SupportPlaces(tok, cfg, fact, entries[..n]) + if Supports(tok, cfg, fact, entries[n]) then {n} else {}
    ensures forall i | i in SupportPlaces(tok, cfg, fact, entries[..n]) :: i < n
  {
  }

  lemma PlacesOnSnoc(few: set<nat>, entries: seq<TimelineEntry>, n: nat, d: string)
    requires |entries| == n + 1 && forall i | i in few :: i < n
    ensures PlacesOn(few, entries, d) == PlacesOn(few, entries[..n], d)
    ensures PlacesOn(few + {n}, entries, d)
      == PlacesOn(few, entries[..n], d) + if entries[n].date == d then {n} else {}
    ensures n !in few && n !in PlacesOn(few, entries[..n], d)
  {
  }

  lemma DatesSnoc(
    tok: Tokenizer, cfg: EvidenceConfig, fact: string, entries: seq<TimelineEntry>, n: nat, d: string)
    requires |entries| == n + 1
    ensures var dates, more := SupportDates(tok, cfg, fact, entries[..n]), Supports(tok, cfg, fact, entries[n]);
      && |SupportDates(tok, cfg, fact, entries)| == |dates| + (if more then 1 else 0)
      && multiset(SupportDates(tok, cfg, fact, entries))[d]
        == multiset(dates)[d] + (if more && entries[n].date == d then 1 else 0)
  {
    hide Supports;
    var dates := SupportDates(tok, cfg, fact, entries[..n]);
    var more := if Supports(tok, cfg, fact, entries[n]) then [entries[n].date] else [];
    assert SupportDates(tok, cfg, fact, entries) == dates + more;
    assert multiset(dates + more) == multiset(dates) + multiset(more);
  }

  lemma NoSupport(tok: Tokenizer, cfg: EvidenceConfig, fact: string, entries: seq<TimelineEntry>, d: string)
    requires entries == []
    ensures SupportPlaces(tok, cfg, fact, entries) == {} && PlacesOn({}, entries, d) == {}
    ensures SupportDates(tok, cfg, fact, entries) == []
  {
  }

  lemma {:induction false} SupportDatesCount(
    tok: Tokenizer, cfg: EvidenceConfig, fact: string, entries: seq<TimelineEntry>, d: string)
    ensures |SupportDates(tok, cfg, fact, entries)| == |SupportPlaces(tok, cfg, fact, entries)|
    ensures multiset(SupportDates(tok, cfg, fact, entries))[d]
      == |PlacesOn(SupportPlaces(tok, cfg, fact, entries), entries, d)|
  {
    hide SupportPlaces, Supports, PlacesOn, SupportDates;
    if entries == [] {
      NoSupport(tok, cfg, fact, entries, d);
    } else {
      var n := |entries| - 1;
      SupportDatesCount(tok, cfg, fact, entries[..n], d);
      PlacesSnoc(tok, cfg, fact, entries, n);
      PlacesOnSnoc(SupportPlaces(tok, cfg, fact, entries[..n]), entries, n, d);
      var few := SupportPlaces(tok, cfg, fact, entries[..n]);
      assert few + {} == few;
      DatesSnoc(tok, cfg, fact, entries, n, d);
    }
  }

  lemma {:induction false} SourceProofsCount(tok: Tokenizer, cfg: EvidenceConfig, fact: string, sources: seq<Source>)
    ensures SourceProofs(tok, cfg, fact, sources) == |SourcePlaces(tok, cfg, fact, sources)|
  {
    if sources == [] {
      assert SourcePlaces(tok, cfg, fact, sources) == {};
    } else {
      hide SourcePlaces, SourceProves;
      var n := |sources| - 1;
      SourceProofsCount(tok, cfg, fact, sources[..n]);
      SourcesSnoc(tok, cfg, fact, sources, n);
      assert SourcePlaces(tok, cfg, fact, sources[..n]) + {} == SourcePlaces(tok, cfg, fact, sources[..n]);
    }
  }

  lemma SourcesSnoc(tok: Tokenizer, cfg: EvidenceConfig, fact: string, sources: seq<Source>, n: nat)
    requires |sources| == n + 1
    ensures var few := SourcePlaces(tok, cfg, fact, sources[..n]);
      && n !in few
      && SourcePlaces(tok, cfg, fact, sources) == few + if SourceProves(tok, cfg, fact, sources[n]) then {n} else {}
  {
    var all, few := SourcePlaces(tok, cfg, fact, sources), SourcePlaces(tok, cfg, fact, sources[..n]);
    forall i: nat ensures i in all <==> i in few || (i == n && SourceProves(tok, cfg, fact, sources[n])) {
      if i < n { assert sources[..n][i] == sources[i]; }
    }
    var last := if SourceProves(tok, cfg, fact, sources[n]) then {n} else {};
    assert all == few + last;
  }

  /** A date is among the supports exactly if a supporting entry carries it. */
  lemma SupportDateOf(tok: Tokenizer, cfg: EvidenceConfig, fact: string, entries: seq<TimelineEntry>, d: string)
    ensures d in SupportDates(tok, cfg, fact, entries) <==>
      exists i :: i in SupportPlaces(tok, cfg, fact, entries) && entries[i].date == d
  {
    hide SupportDates;
    SupportDatesCount(tok, cfg, fact, entries, d);
    var on := PlacesOn(SupportPlaces(tok, cfg, fact, entries), entries, d);
    assert d in SupportDates(tok, cfg, fact, entries) <==> multiset(SupportDates(tok, cfg, fact, entries))[d] > 0;
    if |on| > 0 {
      var i :| i in on;
      assert i in SupportPlaces(tok, cfg, fact, entries) && entries[i].date == d;
    } else {
      forall i | i in SupportPlaces(tok, cfg, fact, entries) ensures entries[i].date != d {
        assert i !in on;
      }
    }
  }

  /** Some support lies within so many days exactly if the latest does, when that names a real day. */
  lemma LatestWithin(
    tok: Tokenizer, cfg: EvidenceConfig, now: real, fact: string, entries: seq<TimelineEntry>, days: real)
    requires SupportDates(tok, cfg, fact, entries) != []
    ensures var sorted := SortStrings(SupportDates(tok, cfg, fact, entries));
      var last := sorted[|sorted| - 1];
      RealDate(last) ==>
        (SupportedWithin(tok, cfg, now, fact, entries, days) <==> now - ParseDate(last).value as real <= days)
  {
    hide SupportDates, RealDate, ParseDate, StrLe, SortStrings;
    var dates := SupportDates(tok, cfg, fact, entries);
    var sorted := SortStrings(dates);
    var last := sorted[|sorted| - 1];
    SortedAndSame(dates);
    if RealDate(last) {
      RealDatesAreDates(last);
      assert last in multiset(sorted);
      assert last in dates;
      SupportDateOf(tok, cfg, fact, entries, last);
      forall i | i in SupportPlaces(tok, cfg, fact, entries) && RealDate(entries[i].date)
        ensures ParseDate(entries[i].date).Some? && ParseDate(entries[i].date).value <= ParseDate(last).value
      {
        SupportDateOf(tok, cfg, fact, entries, entries[i].date);
        RealDatesAreDates(entries[i].date);
        LatestSupportIsLatest(dates, entries[i].date);
      }
    }
  }

  lemma ParsesReal()
    ensures forall d :: RealDate(d) <==> ParseDate(d).Some?
  {
    hide RealDate;
  }

  lemma TrendIsFit(
    tok: Tokenizer, cfg: EvidenceConfig, now: real, fact: string, entries: seq<TimelineEntry>, sources: seq<Source>)
    ensures TrendFits(tok, cfg, now, fact, entries, EvidenceOf(tok, cfg, now, fact, entries, sources))
  {
    hide SupportDates, RealDate, SupportPlaces, SortStrings, SourceProofs, SupportedWithin;
    var dates := SortStrings(SupportDates(tok, cfg, fact, entries));
    assert dates != [] ==> (RealDate(dates[|dates| - 1]) <==> ParseDate(dates[|dates| - 1]).Some?) by { ParsesReal(); }
    SupportDatesCount(tok, cfg, fact, entries, "");
    if dates != [] {
      LatestWithin(tok, cfg, now, fact, entries, cfg.staleAfterDays);
      LatestWithin(tok, cfg, now, fact, entries, cfg.weakeningAfterDays);
    }
  }

  lemma EvidenceIsFit(
    tok: Tokenizer, cfg: EvidenceConfig, now: real, fact: string, entries: seq<TimelineEntry>, sources: seq<Source>)
    ensures EvidenceFits(
      tok, cfg, now, fact, entries, sources, EvidenceOf(tok, cfg, now, fact, entries, sources))
  {
    hide SupportDates, SupportPlaces, SortStrings, SourceProofs, SourcePlaces, TrendFits, DeriveTrend;
    var dates := SupportDates(tok, cfg, fact, entries);
    TrendIsFit(tok, cfg, now, fact, entries, sources);
    SourceProofsCount(tok, cfg, fact, sources);
    SortedAndSame(dates);
    SupportDatesCount(tok, cfg, fact, entries, "");
    forall d
      ensures multiset(SortStrings(dates))[d] == |PlacesOn(SupportPlaces(tok, cfg, fact, entries), entries, d)|
    {
      SupportDatesCount(tok, cfg, fact, entries, d);
    }
  }

  function EvidenceOf(
    tok: Tokenizer, cfg: EvidenceConfig, now: real, fact: string, entries: seq<TimelineEntry>, sources: seq<Source>)
    : FactEvidence
  {
    var dates := SortStrings(SupportDates(tok, cfg, fact, entries));
    var proofs := SourceProofs(tok, cfg, fact, sources);
    FactEvidence(fact, |dates| + proofs, DeriveTrend(dates, cfg, now),
      if dates == [] then None else Some(dates[|dates| - 1]), dates, proofs)
  }

  function PageEvidence(tok: Tokenizer, cfg: EvidenceConfig, now: real, content: string, sources: seq<Source>)
    : seq<FactEvidence>
  {
    var facts, entries := ExtractKeyFacts(content), TimelineOf(content);
    seq(|facts|, i requires 0 <= i < |facts| => EvidenceOf(tok, cfg, now, facts[i], entries, sources))
  }

  method ComputePageEvidence(tok: Tokenizer, cfg: EvidenceConfig, now: real, content: string, sources: seq<Source>)
    returns (results: seq<FactEvidence>)
    ensures results == PageEvidence(tok, cfg, now, content, sources)
    ensures |results| == |ExtractKeyFacts(content)|
    ensures forall i | 0 <= i < |results| ::
      EvidenceFits(tok, cfg, now, ExtractKeyFacts(content)[i], TimelineOf(content), sources, results[i])
  {
    hide ExtractKeyFacts, EvidenceOf, TimelineOf, EvidenceFits;
    forall fact { EvidenceIsFit(tok, cfg, now, fact, TimelineOf(content), sources); }
    var entries := TimelineOf(content);
    var facts := ExtractKeyFacts(content);
    results := [];
    for i := 0 to |facts|
      invariant |results| == i
      invariant forall j | 0 <= j < i :: results[j] == EvidenceOf(tok, cfg, now, facts[j], entries, sources)
    {
      var evidence := ComputeFactEvidence(tok, cfg, now, facts[i], entries, sources);
      results := results + [evidence];
    }
  }

  method ComputeFactEvidence(
    tok: Tokenizer, cfg: EvidenceConfig, now: real, fact: string, entries: seq<TimelineEntry>, sources: seq<Source>)
    returns (evidence: FactEvidence)
    ensures evidence == EvidenceOf(tok, cfg, now, fact, entries, sources)
  {
    hide DeriveTrend, SortStrings;
    var factTokens := tok(fact);
    var supporting: seq<string> := [];
    for i := 0 to |entries|
      invariant supporting == SupportDates(tok, cfg, fact, entries[..i])
    {
      assert entries[..i + 1][..i] == entries[..i];
      if |factTokens * tok(entries[i].description)| >= cfg.minTokenOverlap {
        supporting := supporting + [entries[i].date];
      }
    }
    assert entries[..|entries|] == entries;
    var proofs: nat := 0;
    for i := 0 to |sources|
      invariant proofs == SourceProofs(tok, cfg, fact, sources[..i])
    {
      assert sources[..i + 1][..i] == sources[..i];
      if |factTokens * tok(sources[i].content)| >= cfg.minTokenOverlap {
        proofs := proofs + 1;
      }
    }
    assert sources[..|sources|] == sources;
    supporting := SortStrings(supporting);
    evidence := FactEvidence(fact, |supporting| + proofs, DeriveTrend(supporting, cfg, now),
      if supporting == [] then None else Some(supporting[|supporting| - 1]), supporting, proofs);
  }

  // ---- What the counts mean ----

  lemma {:induction false} SupportDatesConcat(
    tok: Tokenizer, cfg: EvidenceConfig, fact: string, a: seq<TimelineEntry>, b: seq<TimelineEntry>)
    ensures SupportDates(tok, cfg, fact, a + b)
      == SupportDates(tok, cfg, fact, a) + SupportDates(tok, cfg, fact, b)
  {
    hide Supports;
    if b == [] {
      assert a + b == a;
    } else {
      assert (a + b)[..|a + b| - 1] == a + b[..|b| - 1];
      SupportDatesConcat(tok, cfg, fact, a, b[..|b| - 1]);
    }
  }

  lemma SupportDatesMiddle(
    tok: Tokenizer, cfg: EvidenceConfig, fact: string, p: seq<TimelineEntry>, x: TimelineEntry, q: seq<TimelineEntry>)
    ensures multiset(SupportDates(tok, cfg, fact, p + [x] + q))
      == multiset(SupportDates(tok, cfg, fact, p + q)) + multiset(SupportDates(tok, cfg, fact, [x]))
  {
    hide SupportDates;
    SupportDatesConcat(tok, cfg, fact, p, q);
    SupportDatesConcat(tok, cfg, fact, p + [x], q);
    SupportDatesConcat(tok, cfg, fact, p, [x]);
  }

  lemma {:induction false} SupportDatesIgnoreOrder(
    tok: Tokenizer, cfg: EvidenceConfig, fact: string, a: seq<TimelineEntry>, b: seq<TimelineEntry>)
    requires multiset(a) == multiset(b)
    ensures multiset(SupportDates(tok, cfg, fact, a)) == multiset(SupportDates(tok, cfg, fact, b))
  {
    hide SupportDates;
    assert |a| == |multiset(a)| == |multiset(b)| == |b|;
    if a == [] {
      assert a == b;
    } else {
      var init, x := a[..|a| - 1], a[|a| - 1];
      var p, q := Extract(a, b);
      SupportDatesIgnoreOrder(tok, cfg, fact, init, p + q);
      SupportDatesMiddle(tok, cfg, fact, p, x, q);
      SupportDatesMiddle(tok, cfg, fact, init, x, []);
      assert init + [x] + [] == a && init + [] == init;
    }
  }

  /** Evidence does not depend on the order of the timeline entries. */
  lemma EvidenceIgnoresOrder(
    tok: Tokenizer, cfg: EvidenceConfig, now: real, fact: string,
    a: seq<TimelineEntry>, b: seq<TimelineEntry>, sources: seq<Source>)
    requires multiset(a) == multiset(b)
    ensures EvidenceOf(tok, cfg, now, fact, a, sources) == EvidenceOf(tok, cfg, now, fact, b, sources)
  {
    SupportDatesIgnoreOrder(tok, cfg, fact, a, b);
    SortIgnoresOrder(SupportDates(tok, cfg, fact, a), SupportDates(tok, cfg, fact, b));
  }

  /** Sources add to the proof count and to nothing else: no trend and no date comes from them. */
  lemma SourcesOnlyCount(
    tok: Tokenizer, cfg: EvidenceConfig, now: real, fact: string, entries: seq<TimelineEntry>, sources: seq<Source>)
    ensures EvidenceOf(tok, cfg, now, fact, entries, sources)
      == var plain := EvidenceOf(tok, cfg, now, fact, entries, []);
         var n := SourceProofs(tok, cfg, fact, sources);
         plain.(proofCount := plain.proofCount + n, sourceProofCount := n)
  {
  }
}
