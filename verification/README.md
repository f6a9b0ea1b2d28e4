# Verified model of Mímir, Bifröst, the Niuu host, identity and the devrunner

A Dafny model of the parts of the platform that keep state, cut strings or do arithmetic, with proofs of
what those parts promise together. `dafny verify dfyconfig.toml` checks all of it.

## What is modelled

**Mímir's two-zone page.** A wiki page is frontmatter, a rewritable `## Compiled Truth` zone and a `## Timeline` log.
The regular expressions of `compiled_truth.py` are modelled character by character (`Patterns`), with theorems that
say what each pattern finds: the leftmost heading, the longest run of blank lines, the shortest section.
`CompiledTruth` has the parser, the validator, the two mutators and the belief revision; `Frontmatter` and
`EntryLines` say what is read of the fence and of a line. `PageRecognition.WellFormed` is the set of pages that the
format means, stated by conditions that can be checked on the text, and `TwoZonedMeansShape` proves that these are
exactly the pages that fall into a `PageShape.Shape`: frontmatter, two zones in either order, and what surrounds them.
From there the lens laws (`ZoneLens`), the append-only log (`TimelineLog`), whole histories (`PageHistory`) and the
validity and journey of beliefs (`PageJourney`) follow. `ZoneCreation` covers the pages on which a zone has still to
be created, `CreatedPages` what later operations find there, `Fallbacks` the pages that mention a heading where no
search finds it, `AgreedPages` all pages on which both searches find the same one (`HeadingSearch`), `ZoneScope` what
a rewrite with arbitrary text can do to the Timeline, `KeptText` what the mutators keep of any page at all, and
`SourceMarkers` which source marker of a line is found.

**Evidence and consolidation.** `Evidence` counts proofs and derives trends over a page; `Calendar` proves that
sorting date strings sorts days; `Consolidation` proves that an appended line is counted exactly and that
ingesting sources conserves evidence in every order. The tokenizer is a parameter.

**Ingested entity pages.** `EntityPages` builds the pages that the entity extractor creates, `PageFields` reads their
fields, `FactLists` reads lists of facts back, `FactMerge` says what is seen of merged facts, `EntityUpdates` has the
ingest of a source into a page. A created page is well-formed, so that the theorems about histories have a beginning;
ingests extend it by one sourced line each.

**The host.** `HostPaths` has prefix dispatch, stripping and restoring, and the rewriting of published paths;
`ComponentMerge` the recursive in-place merge, on heap objects, proved against a left-biased deep merge.

**The LLM gateway.** `GatewayConfig` has the lookups, `Router` the candidate orders, round-robin counters,
latency estimates and the failover loop, `Catalog` the derived model index and its agreement with the router.
Costs, latencies and metric values are real numbers.

**Metrics.** `Labels` renders and reads back label sets, `Metrics` has the counter and the histogram.

**Tenants.** `Tenancy` has the materialised paths, the ancestor query, and session quotas over whole runs.

**Devrunner.** `Devrunner` is the reconcile and monitor state machine. A reconcile step, an exit and one look of the
monitor at one service are atomic steps; stopping a process that has already exited changes nothing.

`FailingInputs` holds inputs on which a promise of the documentation does not hold.

State that the source updates in place is a class whose `Valid()` ties the fields to a ghost history (of requests,
observations, events or latencies), so that each theorem about a history holds in every reachable state.

## Where the code and its documentation part

- `append_timeline_entry` says that existing content is never modified. It drops the newlines at the end of the Timeline
  (`AppendIsLocal`); on a well-formed page the old text stays in place exactly under the condition of `AppendPreserves`
  (`DroppedNewline` is a page without it). When the Timeline is empty and another section follows it directly, the entry
  is written into that other section and never shows in the Timeline (`AppendMisplaced`; `MisplacedEntry` is such a page).
  `AppendExact` is the exact condition on two-zoned pages, `AppendShows` on all on which mutator and parser find the same
  heading, and `AppendFallback` where the heading is mentioned and the mutator finds none (`GluedEntry`).
- `rewrite_compiled_truth` says that the Timeline zone is preserved. It is, unless the truth stands first and the new one
  carries a Timeline heading line of its own (`RewriteKeepsTimelineText`; `LostTimeline`).
- A rewritten truth is not always read back (`UnreadTruth`), nor fully replaced by a second one. On pages on which mutator
  and parser find the same heading, it is under exactly the conditions of `PutGet` and `PutPut` (`RewriteReadBack`,
  `RewriteReplaces`): no blank first line and no line that starts a section, and for `PutPut` some solid text. Where the
  mutator finds no heading, it depends on the page as well (`RewriteInsertsAnywhere`, `RewriteCreatesAnywhere`; on a page
  that ends in its heading, `UnfinishedHeading`, no solid truth is read).
- A belief revision records any text that it is given. One with a line break is parsed as several lines and never as that
  one entry (`RevisionSourceExact`); its source can be lost for good (`BrokenRevision`).
- `_merge_facts` says that new facts are appended under Key Facts. They are written at the end of the truth, and
  `MergeIsSeen` says which of them are key facts then: none where a subsection follows these, and without key facts
  none but what a fact's own heading introduces. A page that the ingest created has such subsections, so that no fact
  merged into it ever shows (`NewPageKeepsItsFacts`).
- Re-ingesting a source is promised to add nothing. That holds at any later time, unless the source's title or id hides
  its own citation (`ReingestChangesNothing`; `IngestedTwice` is such a source).
- The ancestor query compares paths as plain strings, so that `org1` is an "ancestor" of `org10`. Quotas stay safe
  all the same; a full `org1` can however refuse a start in `org10` (`QueryReturnsChain`, `StrayRefuses`). The check is
  exact iff no such row is full, or one of the chain is full as well (`CheckIsExact`).
- Trends age one way without any assumption on the order of the two thresholds (`TrendAgesOneWay`). A supporting entry
  that is dated on no real day can hide the latest real support for good (`LatestSupportIsReal`, `UnrealDateHidesLatest`).
- A configuration file that the devrunner cannot read counts as empty, and stops every service (`Devrunner.Runner.Reconcile`).
- What a mount publishes may be served by another one. `PublishedDispatchesBack` says exactly when that leads back all the
  same, as it does for the nested mounts that plugins declare (`NestedMountsComeBack`). The two wiki mounts are nested and
  drop different lengths; `InnerMountShadows` shows what that would do to a path `/mimir/mcp`, a hypothetical one, since
  the wiki has no route there.
- The catalog expands an alias once where the router expands it twice. Where the providers list canonical names, each
  once, they agree exactly under the condition of `KeysAgree` (`KeysDisagree` is a configuration without it); an alias that
  is itself served can put a configured model into the catalog twice (`CatalogIsDistinct`, `ListedTwice`).

## Model

| member | source | states |
|---|---|---|
| Patterns.SkipBlankIsLongest | src/mimir/compiled_truth.py:114-117 | `\s*\n` takes the longest run of white space that ends in a newline, and fails only where no such run starts |
| Patterns.LocateIsLeftmost | src/mimir/compiled_truth.py:114-118 | the heading search cuts behind the first position where the pattern matches, and fails only if there is none; anchored or not |
| Patterns.TakeSectionIsShortest | src/mimir/compiled_truth.py:114-121 | a zone ends right before the first line that starts with `## `, or at the end of the text |
| Patterns.TakeBodyIsShortest | src/mimir/compiled_truth.py:277-281 | the text that an append rewrites ends at the first newline that a section line follows |
| Frontmatter.FrontmatterIsFirst | src/mimir/compiled_truth.py:38-100 | a page has frontmatter iff it starts with a fence line and another fence follows, and it reaches to the first one and its newline |
| Frontmatter.FrontmatterIsRead | src/mimir/compiled_truth.py:92-109 | what stands between fences at the start of a page is what its fields are read of, whatever follows |
| Frontmatter.NoFrontmatterNoFields | src/mimir/compiled_truth.py:102-109 | a page that starts otherwise has no fields and is body as a whole |
| CompiledTruth.ParseTimelineEntries | src/mimir/compiled_truth.py:124-154 | the line loop yields the entries of all bullet lines in order: `Entries`, whose laws follow |
| TimelineText.EntriesJoin | src/mimir/compiled_truth.py:124-154 | entries before and after a newline do not disturb each other, for all texts and line breaks, `\r\n` included |
| TimelineText.EntriesTrim | src/mimir/compiled_truth.py:112-154 | right-trimming a zone loses no entry |
| EntryLines.DatedLine | src/mimir/compiled_truth.py:128-146 | a line of a bullet, a date, a colon and text is parted into the date, and the source and the trimmed description before it if a marker is found |
| EntryLines.UndatedLine | src/mimir/compiled_truth.py:129-139 | any other bullet line is a description as a whole, without date and source |
| EntryLines.SourceIsFirst | src/mimir/compiled_truth.py:141-143 | the source of a text is that of its first whole, not empty marker, and there is none only without one |
| EntryLines.DotsAreTrimmed | src/mimir/compiled_truth.py:143 | all dots and spaces at the end of a description are dropped, and nothing else |
| EntryLines.PaddedLine | src/mimir/compiled_truth.py:127-129 | white space around a line changes nothing of what is read of it |
| SourceMarkers.EntryReadBack | src/mimir/compiled_truth.py:124-154 | an entry written in the documented format is parsed back field by field as the only one, iff its texts are single lines and no source marker opens in its description |
| SourceMarkers.SourceBehind | src/mimir/compiled_truth.py:141-148 | a line that ends in a source marker has a source: that of a whole marker before it, or one that holds the last one's text |
| CompiledTruth.ParsePage | src/mimir/compiled_truth.py:172-202 | a page parses into its text, its truth zone, its timeline entries, and fields that only the frontmatter determines |
| CompiledTruth.ValidatePage | src/mimir/compiled_truth.py:205-260 | the validator reports nothing of exactly the compliant pages, and a missing zone iff the page is an entity, a directive or a decision and the body lacks that heading |
| CompiledTruth.ValidationMeaning | src/mimir/compiled_truth.py:205-260 | each error is reported iff its defect is present: a missing zone on entity, directive and decision pages alone, an entry without source, an entity page without entity type |
| CompiledTruth.ErrorsInOrder | src/mimir/compiled_truth.py:216-258 | errors come kind by kind, those of entries in the order of the Timeline |
| PageRecognition.TwoZonedMeansShape | src/mimir/compiled_truth.py:263-324 | the checkable conditions on the text hold of exactly the pages that fall into frontmatter, two zones in either order, and surroundings |
| PageShape.ZoneViewByName | src/mimir/compiled_truth.py:112-121 | on such a page the anchored search of the parser and the unanchored search of the mutators find the same heading and the same zone |
| PageShape.ParsedZone | src/mimir/compiled_truth.py:112-121 | the parser returns each zone, right-trimmed |
| ZoneLens.PutGet | src/mimir/compiled_truth.py:112-121 | parsing after a rewrite gives back the new truth, right-trimmed, iff it is blank or has no blank first line and no section line |
| FailingInputs.UnreadTruth | src/mimir/compiled_truth.py:297-318 | a well-formed page and a truth that is not read back |
| ZoneLens.PutPut | src/mimir/compiled_truth.py:297-318 | a second rewrite fully replaces the first iff the first truth was solid, with no blank first line and no section line |
| ZoneLens.RewriteIsLocal | src/mimir/compiled_truth.py:307-318 | a rewrite replaces the zone and keeps every character before and after it, for every new truth |
| ZoneScope.RewriteKeepsTimelineText | src/mimir/compiled_truth.py:297-318 | on every two-zoned page and for every new truth: the Timeline survives where it stands first, and where the truth does, the text after the Timeline heading survives iff the new truth brings no Timeline heading line |
| FailingInputs.LostTimeline | src/mimir/compiled_truth.py:297-318 | a well-formed page with an entry, and a rewrite after which its Timeline is empty |
| TimelineLog.RewriteKeeps | src/mimir/compiled_truth.py:297-318 | a rewrite with clean text keeps the page two-zoned, its Timeline, its frontmatter and whether its Timeline is open |
| TimelineLog.AppendGrows | src/mimir/compiled_truth.py:263-286 | on a well-formed page an append adds its entries after all others, and keeps truth, frontmatter and well-formedness |
| TimelineLog.AppendExact | src/mimir/compiled_truth.py:263-286 | on a two-zoned page an append adds exactly its entries iff the Timeline is not an empty one right before another section, or there is nothing to add |
| TimelineLog.AppendMisplaced | src/mimir/compiled_truth.py:275-286 | on such an empty Timeline the entry lands elsewhere and the Timeline stays empty |
| FailingInputs.MisplacedEntry | src/mimir/compiled_truth.py:275-286 | a page with an empty Timeline before another section, and a good entry that never shows in it |
| TimelineLog.AppendIsLocal | src/mimir/compiled_truth.py:263-286 | an append inserts its text at the end of the Timeline, drops all newlines there and no other character, and keeps everything else in place |
| TimelineLog.AppendPreserves | src/mimir/compiled_truth.py:263-286 | an appended line leaves the old page in place, only inserted into, iff the Timeline does not end in three newlines where it is the last section, or in four elsewhere |
| KeptText.AppendKeepsText | src/mimir/compiled_truth.py:263-294 | on every page and for every entry, an append drops nothing but newlines at one place and writes the entry there, behind a blank line or behind a new Timeline heading; every other character stays |
| KeptText.RewriteKeepsText | src/mimir/compiled_truth.py:297-324 | on every page and for every truth, a rewrite replaces at most one stretch without a section line, and keeps all text before and behind it |
| FailingInputs.DroppedNewline | src/mimir/compiled_truth.py:263-286 | a well-formed page that an append changes otherwise than by inserting |
| ZoneCreation.AppendCreates | src/mimir/compiled_truth.py:292-294 | a Timeline created by an append holds exactly the appended entries |
| KeptText.AppendedBehindPage | src/mimir/compiled_truth.py:292-294 | a page that does not mention the Timeline stands whole in front of what an append creates |
| KeptText.AppendCreatesBeside | src/mimir/compiled_truth.py:292-294 | it keeps its frontmatter and its Compiled Truth; only a page without a truth can get one, from a heading line in the entry |
| ZoneCreation.RewriteCreates | src/mimir/compiled_truth.py:323-324 | a truth written into a page without zones is read back under the exact condition of `PutGet` |
| KeptText.RewrittenBehindPage | src/mimir/compiled_truth.py:323-324 | so does a page without a truth that is found and without a mention of the Timeline in front of a created truth |
| KeptText.RewriteCreatesBeside | src/mimir/compiled_truth.py:323-324 | it keeps its frontmatter, and has no Timeline but what heading lines of the new truth bring |
| ZoneCreation.RewriteInserts | src/mimir/compiled_truth.py:316-321 | a truth inserted before a Timeline is read back under the exact condition of `PutGet` |
| ZoneCreation.RewriteInsertsZone | src/mimir/compiled_truth.py:316-321 | that insertion makes a two-zoned page with the same Timeline |
| CreatedPages.RewriteInsertsTwice | src/mimir/compiled_truth.py:297-321 | a second rewrite fully replaces an inserted truth under the exact condition of `PutPut` |
| CreatedPages.RewriteCreatesTwice | src/mimir/compiled_truth.py:297-324 | on a truth created at the end of a page a second rewrite leaves one more newline than the first would have, under the same exact condition |
| CreatedPages.AppendCreatesZone | src/mimir/compiled_truth.py:263-294 | a Timeline created behind a truth makes a well-formed page, with exactly the appended entries |
| Fallbacks.AppendFallback | src/mimir/compiled_truth.py:288-290 | on a page that mentions the Timeline heading only where the search does not find it, an appended line is the page's Timeline iff the first mention starts a line, nothing follows it on that line, and no entry follows up to the next section |
| FailingInputs.GluedEntry | src/mimir/compiled_truth.py:288-290 | a page with a section "Timeline of events": an appended entry splits that heading, and is not read as it was written |
| Fallbacks.RewriteInsertsAnywhere | src/mimir/compiled_truth.py:307-321 | on a page whose truth heading is absent or not found, and that mentions the Timeline heading, a new truth is read back iff it is blank, or faithful and that mention starts a line |
| Fallbacks.RewriteCreatesAnywhere | src/mimir/compiled_truth.py:307-324 | without a mention of the Timeline heading, it is read back iff it is blank, or faithful and the page does not end in a truth heading without its newline |
| FailingInputs.UnfinishedHeading | src/mimir/compiled_truth.py:307-324 | a page that ends in its truth heading: the rewritten truth is not read back |
| AgreedPages.AppendShows | src/mimir/compiled_truth.py:275-286 | on every page on which mutator and parser find the same Timeline heading, whatever else it holds, an append adds exactly its entries iff no section follows the heading directly or there is nothing to add |
| AgreedPages.RewriteReadBack | src/mimir/compiled_truth.py:307-314 | on every page on which they find the same truth heading, a new truth is read back under the exact condition of `PutGet` |
| AgreedPages.RewriteReplaces | src/mimir/compiled_truth.py:307-314 | and a second rewrite fully replaces a first under the exact condition of `PutPut` |
| AgreedPages.TwoZonedAgree | src/mimir/compiled_truth.py:275-314 | two-zoned pages are among these, for both headings |
| Revision.RevisionIsOneEntry | src/mimir/learning.py:187-191 | the line that a revision records parses to one entry whose raw text is the line |
| Revision.RevisionIsSourced | src/mimir/learning.py:187-191 | the record of a revision is parsed as one entry with its date and a source if its texts are single lines and the attribution is not empty and does not start with a closing bracket; among bracket-free texts only then |
| SourceMarkers.RevisionSourceExact | src/mimir/learning.py:187-191 | for all texts, the record is parsed as one entry with its date and a source iff they are single lines and a marker opens in the quoted facts, or the attribution makes one, or it holds one of its own |
| SourceMarkers.RevisionReadBack | src/mimir/learning.py:187-191 | the record is parsed back into its day, the old and the new fact in this order, and its attribution, iff these are single lines and no marker opens in the facts |
| KeptText.RevisionIsMade | src/mimir/learning.py:180-184 | on every page a revision is made iff the Compiled Truth holds the fact |
| KeptText.RevisionKeepsText | src/mimir/learning.py:180-192 | on every page a revision that is made writes the truth with the fact replaced and its record, where a rewrite and an append write, and keeps all other text |
| Text.ReplacesFirst | src/mimir/learning.py:185 | the fact is replaced at its first occurrence and nowhere else |
| FailingInputs.BrokenRevision | src/mimir/learning.py:187-191 | a revision of a fact with a line break, of whose record no source is read |
| PageHistory.ReviseExact | src/mimir/learning.py:163-192 | a revision that is made replaces the first occurrence of the fact, logs exactly its one entry, and keeps page and frontmatter intact |
| PageHistory.ApplyLogs | src/mimir/compiled_truth.py:263-324 | every allowed append, rewrite or revision keeps the page well-formed and adds to the Timeline exactly what it logs: one entry, or none for a rewrite |
| PageHistory.HistoryIsAppendOnly | src/mimir/learning.py:163-192 | along every history the Timeline of each earlier state is a prefix of each later one, longer by the number of recorded edits in between |
| PageJourney.CompliantForever | src/mimir/compiled_truth.py:205-260 | a page without validation errors has none after any history of attributed edits |
| PageJourney.RevisionIsHeld | src/mimir/learning.py:163-192 | for every new fact: the truth after a revision is the old one with the first occurrence replaced, trimmed, iff that starts with no blank line; the new fact stands there as written iff it does not end the truth in white space of its own |
| PageJourney.ChainKeepsJourney | src/mimir/learning.py:163-192 | a chain of revisions f0→…→fn whose facts stay as written is never refused, ends with fn in the zone, and the Timeline grows by records that hold f0…fn-1 in order |
| Evidence.KeyFactsAreHeld | src/mimir/learning.py:70-76 | every extracted key fact is a trimmed text of the Compiled Truth, so that revising it is never refused |
| FactLists.ListLine | src/mimir/learning.py:34-76 | a line is a fact iff it starts with a dash, white space follows that, and then text, which is the fact, trimmed |
| Evidence.ComputePageEvidence | src/mimir/learning.py:79-135 | for each key fact in page order: its supports are the entries and sources that share enough words with it, counted and dated; its trend is told by how many days ago the real supports were, threshold by threshold, and by their number |
| Evidence.TrendIsFit | src/mimir/learning.py:138-153 | with a real latest support a fact is stale iff no real support lies within the stale threshold, weakening iff one does but none within the weakening threshold, else strengthening iff enough entries support it, else stable; new without support, stable with an unreal latest one |
| Evidence.ComputeFactEvidence | src/mimir/learning.py:99-134 | one fact's counts, sorted support dates, latest support and trend, accumulated in one pass over entries and one over sources |
| Evidence.EvidenceIgnoresOrder | src/mimir/learning.py:79-135 | evidence does not depend on the order of the timeline entries |
| Evidence.SourcesOnlyCount | src/mimir/learning.py:116-131 | sources raise the proof count by the number that overlap enough, and change no trend and no date |
| Evidence.TrendAgesOneWay | src/mimir/learning.py:138-153 | as time passes a trend only moves forward to weakening and stale; `new` stays `new`; a latest support on no real day never ages |
| Evidence.LatestSupportIsLatest | src/mimir/learning.py:123-125 | the last date in string order, if it names a real day, is no earlier than any other real support |
| Evidence.LatestSupportIsReal | src/mimir/learning.py:123-160 | it names a real day iff no unreal date sorts above all real ones |
| FailingInputs.UnrealDateHidesLatest | src/mimir/learning.py:145-160 | a created page with one appended line of a day that does not exist: its key fact stays stable at all times, its real support hidden |
| Calendar.DateOrder | src/mimir/learning.py:124-160 | on real dates, string order is exactly the order of days, leap years included |
| Calendar.RealDateMeans | src/mimir/learning.py:156-160 | a date names a real day iff its month has that day, by the lengths of the months and the Gregorian leap years |
| Calendar.NotADate | src/mimir/learning.py:156-160 | what is not written as a date names no day |
| Calendar.DaysAdvanceByOne | src/mimir/learning.py:147-160 | the scale on which ages are counted advances by one from each real day to the next, across months and years |
| Consolidation.AppendCountsExactly | src/mimir/learning.py:79-135 | an appended line raises the proof count by one for exactly the facts that it supports, and changes nothing else |
| Consolidation.FindBearingPages | src/mimir/learning.py:195-220 | the loop returns the paths of exactly the pages whose titles the source covers, in page order |
| Consolidation.BearingPages | src/mimir/learning.py:195-220 | a page is among them iff its title has words that all occur in the source, or enough of which occur in the source's title |
| Consolidation.ContentIsLast | src/mimir/learning.py:264 | of several pages with one path the last is looked at |
| Consolidation.ConsolidateSource | src/mimir/learning.py:239-275 | `strengthened` is the number of facts, over the bearing pages, that share enough words with the content of the source, whatever the other sources and the time are |
| Consolidation.IngestAll | src/mimir/learning.py:239-275 | ingesting sources one at a time strengthens in total the number of (source, page, fact) triples |
| Consolidation.TriplesIgnoreOrder | src/mimir/learning.py:239-275 | that total is the same for every ingest order |
| EntityPages.NewPageIsWellFormed | src/ravn/adapters/tools/entity_extractor.py:284-324 | a page that the ingest creates is well-formed; its Timeline is the one line, its truth and frontmatter are those written |
| PageFields.FieldsAreRead | src/ravn/adapters/tools/entity_extractor.py:309-315 | the created frontmatter names the page's type, the confidence, the entity's type and the source, each in its field |
| PageFields.TitleIsName | src/ravn/adapters/tools/entity_extractor.py:316 | the body of the created page starts with the entity's name as its title |
| FactLists.BulletsJoin | src/mimir/learning.py:34-76 | two lists on consecutive lines are read one after the other, for all texts; an unfinished last item takes the next line as its text |
| FactLists.FactsReadBack | src/mimir/learning.py:34-76 | facts written one a line are read back trimmed, whatever their white space; only a blank one disturbs the next |
| EntityUpdates.NewPageValidates | src/mimir/compiled_truth.py:205-260 | a created page has no validation errors, given that its frontmatter is read as written |
| FactMerge.MergeIsSeen | src/ravn/adapters/tools/entity_extractor.py:326-343 | on every two-zoned page the key facts after a merge are those before and, behind them: all new ones where no subsection follows or the truth was empty or ends in their heading, none where one follows, and without key facts those behind a fact that brings the heading |
| FactMerge.MergeKeeps | src/ravn/adapters/tools/entity_extractor.py:326-343 | a merge keeps Timeline, frontmatter and both zones, and what it wrote as truth is read back, right-trimmed |
| FactMerge.MergePreserves | src/ravn/adapters/tools/entity_extractor.py:331-343 | a truth that is not blank stands whole in front of the merged facts, and these are read back off what follows it |
| FactMerge.MergeIsRewrite | src/ravn/adapters/tools/entity_extractor.py:331-343 | on every page a merge is one rewrite, by the truth with the facts under it or, without a truth, by one with these key facts |
| EntityUpdates.NewPageKeepsItsFacts | src/ravn/adapters/tools/entity_extractor.py:175-343 | through any list of appends and ingests a created page shows exactly the facts it was written from |
| EntityUpdates.LineCitesSource | src/ravn/adapters/tools/entity_extractor.py:284-294 | the recorded line is parsed as one entry with its date and a source iff title and id are single lines, and names its source then iff neither hides it |
| EntityUpdates.DetectionReadBack | src/ravn/adapters/tools/entity_extractor.py:284-294 | the recorded line is parsed back into its day, the source's title and the citation of its id, iff these are single lines and no marker opens in the title |
| EntityUpdates.IsCited | src/ravn/adapters/tools/entity_extractor.py:247-255 | the guard's loop answers whether some entry's source names the given one, which decides every re-ingest |
| EntityUpdates.IngestDecides | src/ravn/adapters/tools/entity_extractor.py:186-255 | a finding of low confidence is never written, one of medium confidence only into an existing page, and none into a page that cites the source |
| EntityUpdates.IngestWrites | src/ravn/adapters/tools/entity_extractor.py:257-264 | what is written into a page is that page with the line appended, and the facts of a confident finding merged into that |
| EntityUpdates.IngestMerges | src/ravn/adapters/tools/entity_extractor.py:257-262 | a finding of high confidence has its facts merged into an existing page, any other leaves the truth as it was |
| EntityUpdates.IngestLogsOnce | src/ravn/adapters/tools/entity_extractor.py:175-270 | what an ingest writes is a well-formed page whose Timeline gained exactly the source's line |
| EntityUpdates.HappeningsLog | src/ravn/adapters/tools/entity_extractor.py:175-270 | along every history of edits and ingests the page stays well-formed and its earlier Timelines are prefixes of the later ones |
| EntityUpdates.ReingestChangesNothing | src/ravn/adapters/tools/entity_extractor.py:233-270 | after any edits and ingests, ingesting a source again writes nothing iff the finding is of low confidence, or the source's own line names it, or a later line does |
| FailingInputs.IngestedTwice | src/ravn/adapters/tools/entity_extractor.py:245-255 | a source whose title carries a source marker, ingested twice: its line is written twice |
| HostPaths.DispatchPicksWinner | src/niuu/app.py:243-263 | the sorted search finds the longest mounted prefix on a segment boundary, the first registered among equals, and falls through iff none serves the path |
| HostPaths.WinnerIsUnique | src/niuu/app.py:246-263 | there is at most one such mount |
| HostPaths.Dispatcher.Dispatch | src/niuu/app.py:250-263 | the dispatch loop hands the winner the path without its prefix |
| HostPaths.EmptyBackendPrefix | src/niuu/app.py:308-320 | which mounts have an empty backend prefix |
| HostPaths.PrefixesOfPlugins | src/niuu/app.py:308-320 | the backend prefix of every mount: the gateway drops its public one, the wiki and its inner mount have their own, all other plugins keep theirs |
| HostPaths.PublishDeliverInverse | src/niuu/app.py:226-388 | with a backend prefix, publishing and delivering are mutual inverses between the backend paths under it and the paths that the mount serves |
| HostPaths.PublishDeliverRoot | src/niuu/app.py:308-388 | without one, the round trip fails for the backend root `/` alone, and for the two public spellings of it |
| HostPaths.PublishedDispatchesBack | src/niuu/app.py:226-388 | among all mounts, a path that one publishes comes back as the same backend path of the same plugin iff the winning mount, itself or one nested below it, belongs to that plugin and drops as much of its prefix, and the path is not that root |
| HostPaths.NestedPrefixes | src/niuu/app.py:308-320 | of two nested mounts of one plugin the backend prefixes are nested alike iff both drop the same length |
| HostPaths.NestedMountsComeBack | src/niuu/app.py:226-388 | paths that a mount publishes and one nested below it wins always come back to their plugin, other than the wiki and with Bifröst's mounts below its base path, except that root |
| HostPaths.PublisherWins | src/niuu/app.py:243-388 | a mount is itself handed what it publishes iff no longer mounted prefix serves it and no equal one came first |
| HostPaths.InnerMountShadows | src/niuu/app.py:308-320 | for a backend path `/mimir/mcp`, were there one: the inner wiki mount takes it, as another path |
| ComponentMerge.JsonDict.Merge | src/niuu/app.py:391-405 | the recursive in-place merge ends with the left-biased deep merge, on objects of the target or fresh ones |
| ComponentMerge.MergedAt | src/niuu/app.py:391-405 | at every key path: what is no dictionary in the target is unchanged, dictionaries stay, and a source value is taken over exactly where the target has nothing and nothing blocks the way |
| ComponentMerge.MergeAgain | src/niuu/app.py:391-405 | merging the same source again changes nothing |
| GatewayConfig.ListingMember | src/bifrost/config.py:904-907 | the providers of a model are exactly those that list it |
| GatewayConfig.ListingDistinct | src/bifrost/config.py:904-907 | a model's providers are distinct |
| GatewayConfig.ListingJoin | src/bifrost/config.py:904-907 | a model's providers stand in configuration order |
| GatewayConfig.StrategyIsEffective | src/bifrost/config.py:920-932 | the strategy of a name is the one configured for it, else that of what it is an alias of, else the general one |
| Router.SortIsStable | src/bifrost/router.py:174-207 | sorting by a key orders, permutes, and keeps the given order among equal keys |
| Router.CostOrder | src/bifrost/router.py:174-182 | cost-optimised candidates are a stable permutation of the providers, cheapest first |
| Router.LatencyOrder | src/bifrost/router.py:191-207 | latency-optimised candidates are a stable permutation: measured providers first by estimate, ties among them and all others in config order |
| Router.CounterIsTurns | src/bifrost/router.py:184-189 | after any interleaving of requests a model's counter is its number of round-robin requests modulo its providers |
| Router.CountersStayBounded | src/bifrost/router.py:184-189 | every stored counter stays below the number of providers of its model |
| Router.RoundRobinIsFair | src/bifrost/router.py:184-189 | after k round-robin requests for a model with n providers each has led ⌊k/n⌋ times, the first k mod n of them once more, over any interleaving with other models |
| Router.RoundRobinRotates | src/bifrost/router.py:135-189 | every round-robin candidate list is a rotation of all providers of the resolved model |
| Router.EwmaClosedForm | src/bifrost/router.py:126-133 | the latency estimate is the closed weighted sum of everything recorded |
| Router.EwmaBounded | src/bifrost/router.py:126-133 | it lies between the least and the greatest latency recorded |
| Router.ModelRouter.RecordLatency | src/bifrost/router.py:126-133 | recording extends the provider's recorded list by one and keeps every stored estimate that of its list |
| Router.ModelRouter.BuildCandidates | src/bifrost/router.py:135-207 | by the strategy of the name: the first provider alone, all in configuration order, cheapest first, fastest first with the unmeasured last, or from the place that the turns so far lead to; ties in configuration order, and an error iff no provider serves the model |
| Router.CandidatesAreArranged | src/bifrost/router.py:135-207 | the same of the candidates of any request, at any state of the counters and estimates |
| Router.PriceIsConfigured | src/bifrost/router.py:177-179 | the price that orders a provider is that of its entry |
| Router.FailoverStops | src/bifrost/router.py:233-256 | a request goes on after HTTP 429, 500, 502, 503, 504 and provider errors alone, and otherwise comes to the answer or error of that provider |
| Router.ModelRouter.TryInOrder | src/bifrost/router.py:233-256 | the failover loop returns the answer, or raises the error, of the first candidate that does not fail retryably, tries none after it, and fails as a whole iff all failed retryably |
| Router.ModelRouter.Complete | src/bifrost/router.py:209-256 | a whole request: candidates, failover, adapters created for exactly the tried providers, and only an answering provider's latency recorded |
| Catalog.ListModels | src/bifrost/catalog.py:34-121 | the loops build the catalog that `IsCatalog` describes entry by entry: configured models in order, then other served ones by first offer |
| Catalog.ListedMember | src/bifrost/catalog.py:42-120 | a model is listed iff it is configured, or served and neither configured nor an alias of a configured one |
| Catalog.EntryIsDescribed | src/bifrost/catalog.py:52-120 | configured models come first and in order; behind them each entry is of a served model that is not configured, as the configured model it is an alias of or by its first provider |
| Catalog.OffersInOrder | src/bifrost/catalog.py:42-46 | offers are collected provider by provider, each in the order of its list |
| Catalog.OfferedInOrder | src/bifrost/catalog.py:75-77 | models that are not configured come in the order of their first offers |
| Catalog.CatalogIsDistinct | src/bifrost/catalog.py:48-120 | there is one entry per model iff configured ids are distinct and no served unconfigured model is an alias of a configured one |
| FailingInputs.ListedTwice | src/bifrost/catalog.py:75-80 | a configuration with a chain of two aliases, whose configured model is listed twice |
| Catalog.GetModel | src/bifrost/catalog.py:124-130 | a lookup succeeds iff the name's target is in the catalog, and returns the first entry of that target |
| Catalog.AliasFindsEntry | src/bifrost/catalog.py:36-130 | an alias is listed under an entry iff it maps there, once, and then its target is the id of that entry and no other |
| Catalog.KeysAgree | src/bifrost/catalog.py:42-46 | with canonical, unrepeated listings an entry's providers are the router's providers of its id iff the id is canonical or nobody serves what it is an alias of |
| FailingInputs.KeysDisagree | src/bifrost/catalog.py:42-53 | a configured model that is also an alias: its entry shows no provider, and the router has one for it |
| Catalog.FailoverFollowsCatalog | src/bifrost/router.py:143-159 | failover tries exactly an entry's providers in the entry's order, refusing a model whose entry has none, iff the condition of `KeysAgree` holds |
| Catalog.ListAliases | src/bifrost/catalog.py:133-139 | the alias pairs, sorted by name, are exactly the mappings that are not to themselves |
| Labels.EscapeIsOnePass | src/bifrost/metrics.py:124-125 | the three successive replacements are the single-pass escape of the exposition format |
| Labels.ReadEscaped | src/bifrost/metrics.py:124-125 | a reader finds the closing quote where it was written and recovers the value, whatever follows |
| Labels.EscapedIsInert | src/bifrost/metrics.py:124-125 | no newline and no bare quote survives escaping |
| Labels.LabelsReadBack | src/bifrost/metrics.py:117-121 | a rendered label string is read back to the values it was rendered from |
| Labels.LabelsMustFit | src/bifrost/metrics.py:117-121 | rendering fails iff there are names and not as many values |
| Labels.LabelsAreUnique | src/bifrost/metrics.py:117-125 | for fixed names, two value tuples render alike iff they are equal |
| Labels.BucketLabelsAreLabels | src/bifrost/metrics.py:128-155 | reopening the base labels for a bucket renders the label list with the bound as one more label |
| Labels.BucketLabelsAreUnique | src/bifrost/metrics.py:128-155 | bucket lines of different keys or different printed bounds have different labels |
| Metrics.Histogram.Observe | src/bifrost/metrics.py:73-86 | an observation adds itself to sum, count and every bucket that covers it, under its own key alone, and every key keeps the buckets, sum and count of the values observed under it |
| Metrics.Histogram.Collect | src/bifrost/metrics.py:88-97 | collecting a key finds it iff it was observed: bucket i counts the values up to bound i, with their sum and number |
| Metrics.Counter.Inc | src/bifrost/metrics.py:45-48 | every key's value is the sum of its increments |
| Metrics.CountInto | src/bifrost/metrics.py:79-84 | one value increments exactly the buckets whose bound it does not exceed, and the last |
| Metrics.BucketsAreCumulative | src/bifrost/metrics.py:59-91 | with sorted bounds the buckets never decrease, up to the total count |
| Metrics.BucketDifference | src/bifrost/metrics.py:73-86 | two buckets differ by the number of values between their bounds |
| Metrics.OrderDoesNotMatter | src/bifrost/metrics.py:73-86 | the same observations in any order report the same buckets, sum and presence under every key |
| Tenancy.AncestorsAreTheChain | src/identity/service.py:50-85 | the tenants whose path is a dotted prefix of a tenant's path are exactly its parent-id chain |
| Tenancy.PathDeterminesTenant | src/identity/service.py:50-85 | two tenants never share a path |
| Tenancy.LeafIsLast | src/identity/service.py:128-134 | the last ancestor of a tenant's path is the tenant itself |
| Tenancy.AncestorsTopFirst | src/volundr/adapters/outbound/postgres_tenants.py:68-77 | ancestors come shortest path first, so that a refusal names the topmost full one |
| Tenancy.QueryReturnsChain | src/volundr/adapters/outbound/postgres_tenants.py:68-77 | the ancestor query returns the whole chain, and only the chain iff no other path is a plain string prefix |
| Tenancy.CheckQuota | src/identity/service.py:106-144 | allowed iff no returned ancestor is at its limit; a refusal names the topmost one that is |
| Tenancy.AdmittedStartIsSafe | src/identity/service.py:106-144 | a start that the check admits leaves every tenant at every level within its limit |
| Tenancy.CheckIsExact | src/identity/service.py:106-144 | a start is refused only if it would take a tenant of the chain past its limit, iff one of the chain is full or no row with a merely textual prefix is |
| Tenancy.StrayRefuses | src/volundr/adapters/outbound/postgres_tenants.py:68-77 | a concrete hierarchy in which a full tenant refuses a start outside it |
| Tenancy.NewPathIsEmpty | src/identity/service.py:71-85 | no session runs under a path that is still free, so that a new tenant starts within its limit |
| Tenancy.TenantService.CreateTenant | src/identity/service.py:50-85 | each error exactly when its cause holds, otherwise the new row; the paths stay a tree and the quota safe |
| Tenancy.TenantService.StartSession | src/identity/service.py:106-144 | with check and start in one step, quota safety is kept by every start |
| Tenancy.TenantService.UpdateTenantSettings | src/identity/service.py:277-302 | each given setting lands in its own field, absent ones and all else stay; the tree is kept, and the quota stays safe iff the new limit still covers the running sessions |
| Tenancy.TenantService.EnsureDefaultTenant | src/identity/service.py:196-209 | the default tenant exists afterwards, created at most once and with the default limits |
| Tenancy.TenantService.SyncTenantFromPrincipal | src/identity/service.py:174-194 | a dot-free claim ends with its tenant in the hierarchy, created at most once, as a root with the ordinary limits |
| Devrunner.AtMostOneLive | containers/devrunner/devrunner.py:236-297 | in every reachable state there is at most one live process per service name |
| Devrunner.RestartsAreBounded | containers/devrunner/devrunner.py:345-390 | at every moment of every run, restarts since the last configured start stay within the `max_restarts` of the entry that it started from, within five if that does not say, and are none under `never` |
| Devrunner.EntryBoundsRestarts | containers/devrunner/devrunner.py:299-390 | from the moment at which a service runs as an entry says, and up to its next configured start, it is restarted no more often than that entry allows |
| Devrunner.StartKeepsInvariant | containers/devrunner/devrunner.py:236-277 | a start that is due keeps the invariant: live processes managed, restart counts those of the event log |
| Devrunner.StopKeepsInvariant | containers/devrunner/devrunner.py:279-297 | a stop keeps it too, whether the process still runs or has exited |
| Devrunner.Runner.Exit | containers/devrunner/devrunner.py:345-352 | a process that exits by itself keeps the invariant and touches no other process |
| Devrunner.Runner.StopRemoved | containers/devrunner/devrunner.py:308-311 | exactly the services that are no longer configured are stopped and forgotten, and no other process is touched |
| Devrunner.Runner.StartAdded | containers/devrunner/devrunner.py:313-324 | the configured services that were not managed are started from their entries, field by field with the defaults of absent ones; it fails iff one of them lacks its command or port |
| Devrunner.Runner.UpdateChanged | containers/devrunner/devrunner.py:326-343 | the managed services whose command or port differs are restarted, all others are left alone; an incomplete entry fails at the comparison and leaves its service running |
| Devrunner.Runner.Reconcile | containers/devrunner/devrunner.py:299-343 | it succeeds iff every entry it has to start is complete, and then exactly the configured names are managed, each with its configured command and port, and each service that was started with every field of its entry or that field's default; unaltered services and their processes are untouched whether it succeeds or not |
| Devrunner.Runner.MonitorTick | containers/devrunner/devrunner.py:345-390 | a service is restarted iff it has exited, may restart and has budget left; otherwise nothing changes |
| Devrunner.Runner.Shutdown | containers/devrunner/devrunner.py:112-123 | afterwards nothing is managed and no process is live; a second shutdown does nothing |

## Left out

- Frontmatter: YAML parsing and the reading of enum fields are one function parameter; `\d` is modelled on ASCII digits only.
- Agreed: pages on which the mutator's search stops at a heading inside a line, which the parser passes over; and, in `Fallbacks`, pages whose frontmatter mentions a zone heading, is never closed or is all of the page.
- Wikilinks (src/mimir/compiled_truth.py:327-342), the texts of validation messages, and the storage of pages.
- The tokenizer (src/mimir/ranking.py:30-32) is a parameter that returns a finite set of words.
- NewPageIsWellFormed: facts, ids and titles are single lines, and neither they nor the name carry a zone heading.
- The language-model call and its parsing in the entity extractor, page paths and page storage: a finding and the existing page are inputs.
- Floating point: latencies, costs, ages and metric values are real numbers, without rounding, infinities or NaN.
- RoundRobinIsFair: counts requests that reach candidate selection; a request that a rule routes to a fixed provider does not.
- Router: `stream`, request rules, selection adapters, key vaults, key reloads and the provider adapters, whose answers are a function parameter.
- Catalog: the guessed vendor, kind and display fields of models that only a provider names, and the provider listing.
- Histogram locking and counter locking: each increment and each observation is one atomic step; the order of rendered lines is not modelled.
- Tenancy: LIKE metacharacters in paths, deletion of tenants, members, users and storage provisioning; ids are dot-free.
- StartSession: check and start are one step, as the promise needs; the service itself only offers the check.
- Devrunner: PostgreSQL, file watching, nginx text, status files, secrets, spawn failures and the interleaving inside awaits.
- Devrunner.Runner.Reconcile: a changed `env`, `cwd` or restart policy alone is not applied, as in the source, which compares command and port only.
- HostPaths: `raw_path`, ASGI scopes, lifespan, and the resident-session dispatcher; the merging of whole OpenAPI documents around the component merge.
