# ai-news-agent, modelled in Dafny

A Dafny model of the batch pipeline of `ai-news-agent`, a command-line tool. It reads RSS feeds, drops the articles it has already seen, and matches the rest against the user's topics of interest. Matching is a batched stage-1 classifier, replaced by keyword matching in a dry run. Each match gets a stage-2 analysis of its page text. The tool then records every new article in a persistent "seen" table. Finally it writes a Markdown daily report, extending the same day's report on a rerun.

The external services are parameters of the model:

- the RSS responses (`Feed -> FeedResponse`);
- the date parser (`string -> int`);
- each classifier batch's outcome (`nat -> BatchOutcome`);
- the stage-2 replies and their JSON parser;
- the page requests, given as the text of the page's `article`, `main` and `body` elements;
- the URL hash (MD5 in the program), as an uninterpreted `string -> string`;
- the clock, as a `now` stamp and the report's date and time strings.

Modules, one per source file, plus two shared ones:

| module | file | models |
|---|---|---|
| `Types` | types.dfy | records shared by all modules, generic sequence lemmas |
| `Text` | text.dfy | JavaScript whitespace, trim, `\s+` collapse, substring search, ASCII lower case, split/join, the greedy `[...]`/`{...}` region |
| `Storage` | storage.dfy | `src/storage.js`: the seen-item table as a `Store` class over a `map`, with a lazily opened handle |
| `Feeds` | feeds.dfy | `src/feeds.js`: item mapping, the merge, the in-place stable sort newest first, the cut |
| `Analyzer` | analyzer.dfy | `src/analyzer.js`: stage-1 batching, validation and threshold; stage-2 degradation |
| `Extractor` | extractor.dfy | `src/extractor.js`: the article → main → body fallback, clean-up and cap |
| `ConfigFile` | config.dfy | `src/config.js`: loading with `~` expansion, `initConfig`, `addFeed`, `addTopic` |
| `Output` | output.dfy | `src/output.js`: grouping by priority, the Markdown text, write versus same-day append |
| `Pipeline` | pipeline.dfy | `src/index.js`: keyword matching, dry-run analysis, the marking rule, `run` |

## Model

| member | source | states |
|---|---|---|
| Storage.Store.constructor | src/storage.js:6 | a store starts with the handle closed over the persisted rows |
| Storage.Store.GetDb | src/storage.js:8-27 | the handle is open afterwards; an open handle is reused; rows are untouched |
| Storage.Store.IsProcessed | src/storage.js:36-39 | the answer is true exactly when the table has a row under `hashUrl(url)` |
| Storage.Store.FilterNew | src/storage.js:44-46 | returns the unseen articles in input order; rows are unchanged; the handle is opened only when there is an article to ask about |
| Storage.UnseenMembers | src/storage.js:44-46 | an article is kept exactly when it is in the input and its link is unseen; the output is no longer than the input |
| Storage.UnseenAppend | src/storage.js:44-46 | the filter distributes over concatenation, so it keeps input order |
| Storage.UnseenEmpty | src/storage.js:44-46 | nothing is new exactly when every link has been seen |
| Storage.Inserted | src/storage.js:51-63 | insert-or-ignore: a present hash leaves the table equal; otherwise exactly one row is added with the article's fields, the topic name or '' and the analysis; old rows never change; the link is seen afterwards |
| Storage.Store.MarkProcessed | src/storage.js:51-63 | the new rows are the insert-or-ignore of the old ones, and the handle is open |
| Storage.InsertedTwice | src/storage.js:53 | the first insert wins: marking the same link again, with any topic, analysis or time, changes nothing |
| Storage.SelectHistory | src/storage.js:71-77 | only rows created at or after `since`, distinct, newest first; as many as the window holds, capped by a non-negative limit; no row left out is newer than one returned |
| Storage.Store.GetHistory | src/storage.js:70-78 | distinct rows of the table from the last `days` days (default 7), newest first, at most `limit` (default 50), and no row of the window left out is newer than one returned |
| Storage.Store.Close | src/storage.js:83-88 | the handle is closed afterwards, whether or not it was open, so closing twice equals closing once |
| Feeds.FetchFeedSpec | src/feeds.js:14-28 | a failing feed or one without items gives []; otherwise item i becomes article i: title/link or '', summary = contentSnippet else content else '', pubDate = pubDate else isoDate else '', the feed's name |
| Feeds.MergedAppend | src/feeds.js:37-40 | merging distributes over concatenating feed lists |
| Feeds.FeedIsolation | src/feeds.js:24-40 | a failing feed leaves the merge exactly as if it were not configured |
| Feeds.ThreeFeedScenario | src/feeds.js:37-40 | three feeds, the middle one failing, with 5 and 3 items: 8 articles are merged |
| Feeds.SortDescSpec | src/feeds.js:43-47 | the sort specification is non-increasing by time (a missing pubDate counts as 0), a permutation, and stable among equal times |
| Feeds.InsertStep | src/feeds.js:43-47 | one insertion-sort step in the array places element i among the sorted prefix and leaves the rest alone |
| Feeds.SortByTime | src/feeds.js:43-47 | the array after the in-place sort equals the sort specification of its old contents |
| Feeds.SliceEnd | src/feeds.js:49 | `slice(0, max)`: the cut is at `max` or the length, whichever is smaller, for a non-negative `max` |
| Feeds.FetchAllSpec | src/feeds.js:36-50 | the output has length min(total, max) for non-negative `max`, is newest first, and is a sub-multiset of the merged items, all of which were fetched |
| Feeds.FetchAllFeeds | src/feeds.js:36-50 | the method's result is the merge sorted newest first and cut to `maxArticles` (default 50) |
| Analyzer.EmptyReplyReadsAsArray | src/analyzer.js:74 | an empty reply text is read as `[]` |
| Analyzer.NoBracketIff | src/analyzer.js:75-76 | a non-empty reply has no bracket region exactly when no `[` comes before a `]` |
| Analyzer.EntriesFromBrackets | src/analyzer.js:74-90 | a thrown call fails the batch; entries come only from parsing a text that starts with `[` and ends with `]` |
| Analyzer.EntryMatchesSpec | src/analyzer.js:79-86 | a match comes from an admitted entry (0 ≤ index < batch length, relevance ≥ 0.6) and every admitted entry gives one; its topic is topics[topicIndex] when in range, else topics[0] |
| Analyzer.BatchCount | src/analyzer.js:43-46 | the number of batches is the length divided by 10, rounded up |
| Analyzer.BatchesCover | src/analyzer.js:43-47 | batches are consecutive slices of one to ten articles that together form the input |
| Analyzer.BatchIndex | src/analyzer.js:47-82 | the article at index e of batch k is global article 10k + e |
| Analyzer.BatchMembers | src/analyzer.js:79-86 | the matches of one batch are exactly what its admitted entries yield |
| Analyzer.Stage1Members | src/analyzer.js:46-93 | the result's members are exactly what some batch's admitted entry yields |
| Analyzer.Stage1Sound | src/analyzer.js:80-84 | every match clears 0.6 and names an input article and a configured topic |
| Analyzer.MatchesUpToPrefix | src/analyzer.js:46-86 | matches come in batch order: earlier batches' matches are a prefix of later ones' |
| Analyzer.FailedBatchAddsNothing | src/analyzer.js:88-90 | a failed batch adds no match |
| Analyzer.BatchDecomposition | src/analyzer.js:46-93 | the result is the batches before j, then batch j's matches, then the batches after j |
| Analyzer.BatchIsolation | src/analyzer.js:76-90 | when batch j fails instead, the result loses exactly batch j's matches and keeps everything else in order |
| Analyzer.CollectEntries | src/analyzer.js:79-87 | the inner loop pushes exactly the admitted entries' matches, in reply order |
| Analyzer.CollectBatch | src/analyzer.js:47-90 | one round of the loop yields the batch's matches for its outcome |
| Analyzer.QuickFilter | src/analyzer.js:35-94 | no articles or no topics gives []; otherwise the loop's result is the batch-by-batch stage-1 specification |
| Analyzer.DeepAnalyzeTotal | src/analyzer.js:103-146 | every path returns a record: one parsed from a `{...}` region of the reply, or a failure record |
| Analyzer.DeepAnalyzeFailures | src/analyzer.js:104-145 | the prompt is about the full content when non-empty, else the summary; a thrown call or parse error gives '分析失败: ' + message; no `{` before a `}` gives '分析失败' |
| Analyzer.FailureMarked | src/analyzer.js:139-144 | a failure record has no key points, is not actionable, has no recommendation and a summary starting '分析失败' |
| Text.RegionDelimited | src/analyzer.js:75 | a region starts with the opening and ends with the closing character |
| Text.RegionExists | src/analyzer.js:75 | a region exists exactly when an opening character comes before a closing one |
| Text.RegionBounds | src/analyzer.js:75 | the region runs from the first opening character to the last closing character after it |
| Extractor.ExtractFromHtml | src/extractor.js:36-67 | the step-by-step reassignment of `content` ends on the extracted text of the page |
| Extractor.SelectedFallback | src/extractor.js:46-62 | a long-enough article text wins; a short article gives way to a long-enough main text; otherwise the body ('' without one) |
| Extractor.SelectedLongOrBody | src/extractor.js:53-62 | the chain ends on a candidate of trimmed length ≥ 200, or on the body |
| Extractor.ExtractedShape | src/extractor.js:65-66 | at most 3000 characters, a prefix of the collapsed text, only plain single spaces, no leading space, trimmed when under the cap, non-space characters kept in order |
| Extractor.ExtractedStable | src/extractor.js:65 | cleaning an uncut result again changes nothing |
| Text.NormalizeIdempotent | src/extractor.js:65 | whitespace collapse plus trim is idempotent |
| Text.NormalizeShape | src/extractor.js:65 | the cleaned text is trimmed, has no whitespace run and keeps the non-space characters |
| Extractor.ExtractContent | src/extractor.js:8-31 | a thrown request or a non-OK status gives ''; otherwise the extracted text of the page |
| ConfigFile.ExpandHome | src/config.js:57-60 | a single leading `~` becomes the home directory; any other path is unchanged |
| ConfigFile.ExpandHomeOnce | src/config.js:57-60 | only the first tilde is replaced; expanding twice is expanding once when home does not start with `~` |
| ConfigFile.ExpandDirs | src/config.js:56-61 | both report directories are expanded and nothing else in the output section changes |
| ConfigFile.LoadConfig | src/config.js:49-63 | a missing file is an error; otherwise the stored record with its directories expanded |
| ConfigFile.WithFeed | src/config.js:86-89 | refused exactly when the URL is already configured; otherwise the feed is appended and nothing else changes |
| ConfigFile.WithFeedKeepsUrlsUnique | src/config.js:84-91 | adding keeps URLs distinct; the same URL again is refused whatever the name; a new URL is accepted under a name in use |
| ConfigFile.WithTopic | src/config.js:95-98 | refused exactly when the name is in use; otherwise the topic is appended and nothing else changes |
| ConfigFile.WithTopicKeepsNamesUnique | src/config.js:93-100 | adding keeps names distinct and the same name again is refused |
| ConfigFile.ReportDir | src/config.js:76-77 | the configured directory, expanded, or the default reports directory; never '' |
| ConfigFile.DefaultReportDir | src/config.js:76-77 | the default record's report directory is the default reports directory |
| ConfigFile.Store.constructor | src/config.js:6-7 | the file store over a home directory, a file and the existing directories |
| ConfigFile.Store.Save | src/config.js:65-69 | the configuration directory exists and the file holds the record |
| ConfigFile.Store.Install | src/config.js:74-80 | the record is saved and its report directory exists |
| ConfigFile.Store.InitConfig | src/config.js:71-82 | `DEFAULT_CONFIG` without a custom record; the record is saved, its report directory exists, the file path is returned |
| ConfigFile.Store.AddFeed | src/config.js:84-91 | a missing file or a present URL leaves the file and directories as they were and reports the error; otherwise the loaded record saved with the feed appended |
| ConfigFile.Store.AddTopic | src/config.js:93-100 | as for feeds, keyed on the topic name, with priority 'medium' by default |
| Output.GroupMembers | src/output.js:95-100 | a group holds exactly the results of its priority (a missing topic or priority counts as low) |
| Output.GroupPriority | src/output.js:95-100 | every member of a group has that group's priority |
| Output.GroupByPriority | src/output.js:95-100 | the dictionary has a key exactly for the priorities present, each holding that priority's results in input order |
| Output.OrderedMembers | src/output.js:102-104 | the listing holds exactly the results whose priority is high, medium or low; it is complete exactly when none is unknown |
| Output.Partition | src/output.js:95-104 | listed and unlisted results together are a permutation of the input |
| Output.OrderedByRank | src/output.js:102-109 | high before medium before low |
| Output.ListingAll | src/output.js:102-109 | the loop over the three priorities lists the three groups in order |
| Output.PrintOrder | src/output.js:34-49 | the terminal lists the results in the grouped order |
| Output.TopicTag | src/output.js:110 | the heading's topic is the topic name or '未分类', never '' |
| Output.KeyPointsMd | src/output.js:117-123 | the key-points block is empty exactly when there are no key points |
| Output.RecommendationMd | src/output.js:125-127 | the recommendation line appears exactly when actionable and the recommendation is non-empty |
| Output.RenderHeader | src/output.js:90-92 | the header lines followed by the rule |
| Output.AppendItem | src/output.js:110-131 | the method appends one item's block |
| Output.AppendSection | src/output.js:109-132 | the method appends one priority's items |
| Output.AppendSections | src/output.js:102-133 | the method appends the three priorities' sections in order |
| Output.RenderMarkdown | src/output.js:90-133 | the string built with `+=` is the report text |
| Output.ItemsMdAppend | src/output.js:109-132 | rendering distributes over concatenation |
| Output.SectionUniform | src/output.js:106-110 | a section whose items share a priority renders each with that priority's emoji and label |
| Output.ReportInOrder | src/output.js:102-133 | the body renders the results in the grouped order, high, medium, low |
| Output.HeaderCalm | src/output.js:90-91 | the header has no `--`, nor a leading or trailing `-`, when the date and time stamps have none |
| Output.RuleAtEnd | src/output.js:143 | the header's rule is the first separator of the report |
| Output.UpdateDropsHeader | src/output.js:142-144 | the appended block is the update heading followed by the report's sections without its header |
| Text.JoinSplit | src/output.js:143 | joining split parts with the separator restores the text |
| Text.DropFirstSegment | src/output.js:143 | `split(sep).slice(1).join(sep)` is the text after the first separator |
| Output.WrittenSpec | src/output.js:139-147 | the file is added when new, holding the report; an existing file keeps its old contents as a prefix; other files are unchanged |
| Output.GenerateMarkdownReport | src/output.js:83-150 | no results: returns None and changes nothing; otherwise creates the directory, writes or appends `<dir>/<date>.md`, and returns its path |
| Pipeline.AnyKeyword | src/index.js:18 | true exactly when some keyword, lower-cased, is a substring of the text |
| Pipeline.FirstHitFrom | src/index.js:17-26 | the hit is in range and has a keyword, and no earlier topic has one; none means no topic does |
| Pipeline.FirstHitIff | src/index.js:17-26 | topic j is chosen exactly when it has a hit and no earlier topic does; none exactly when no topic has one |
| Pipeline.LocalKeywordMatch | src/index.js:13-30 | the loop's result, with `break`, is the keyword-matching specification |
| Pipeline.KeywordOrder | src/index.js:13-30 | the matched articles are a subsequence of the input, in order |
| Pipeline.KeywordMembers | src/index.js:16-25 | at most one match per article; each has relevance 0.8 and its first-hit topic; every article with a hit is matched |
| Pipeline.DryRunAnalysisSpec | src/index.js:118-124 | the summary is the first 150 characters, or the placeholder when empty; two key points; actionable, a recommendation and the report's recommendation line exactly for a high-priority topic |
| Pipeline.Enrich | src/index.js:110-133 | one result per match, in match order |
| Pipeline.EnrichOneSpec | src/index.js:116-131 | each result keeps the match and has an analysis; full content is the extracted text, or the summary when that text is ''; the dry run uses the synthesised analysis |
| Pipeline.AnalyseOne | src/index.js:113-129 | one round of the analysis loop yields that match's result |
| Pipeline.AnalyseAll | src/index.js:110-133 | the results are the enriched matches and each is marked with its analysis, in order |
| Pipeline.MarkUnmatched | src/index.js:136-140 | the articles whose link is not among the matches are marked with no analysis |
| Pipeline.MarkMatchesGrows | src/index.js:131-132 | marking the results keeps old rows and leaves every result's link seen |
| Pipeline.MarkMatchesFirst | src/index.js:131-132 | the first result for a fresh hash is stored as its row |
| Pipeline.MarkRestSpec | src/index.js:136-140 | old rows are kept, every link outside the matches is seen, and new rows carry no topic and no analysis |
| Pipeline.MarkedSpec | src/index.js:99-140 | old rows are kept; every new article is seen; a match's first result is recorded with its analysis; an unmatched article under a fresh hash is stored without one |
| Pipeline.RunMarks | src/index.js:110-140 | for the results of the analysis loop: old rows are kept, every new article is seen, a first result under a fresh hash is recorded with its analysis, and an unmatched article under a fresh hash is stored without one |
| Pipeline.RerunFindsNothingNew | src/index.js:77-85 | after a run has marked a fetch's new articles, the same fetch has no new article, so a second run returns early and records nothing |
| Pipeline.MatchStep | src/index.js:88-97 | keyword matching in a dry run, the stage-1 classifier otherwise |
| Pipeline.Publish | src/index.js:149-154 | with Markdown enabled the report is generated as specified; otherwise the disk is unchanged |
| Pipeline.Process | src/index.js:88-170 | from matching on: the rows, the results and the report as `Run` states them; closing the handle is left to `Run` |
| Pipeline.Run | src/index.js:36-174 | stats count feeds, fetched and new articles; the handle ends closed; no fetched or new article: nothing is marked and nothing returned; otherwise every new article is marked (matches with their analysis); no match returns nothing; the report is generated only with results |

## Left out

- The command line, spinners, coloured console output and `printResults`' formatting. Only the order in which it lists results is modelled, by `Output.PrintOrder`.
- The API-key check that exits the process (src/index.js:40-54) is not modelled. The report-opening `exec` (src/index.js:163-166) is not modelled either.
- The HTML report (src/index.js:156-170) is not modelled. `generateHtmlReport` is not part of this model.
- The AI client (src/analyzer.js:11-24), the prompt texts and `JSON.parse` are not modelled. Each batch's outcome, each stage-2 reply and the parser are parameters.
- A reply entry that is `null`, has a non-numeric field, or has a fractional index (JavaScript reads `batch[1.5]` as undefined) is not modelled. Entries have integer indices and real relevances.
- RSS fetching, XML parsing, the 15-second timeouts and the page request are not modelled. Their outcomes are parameters.
- DOM parsing and the in-place removal of script, style, navigation and similar elements (src/extractor.js:37-43) are not modelled. The page is given as the text of its article, main and body elements after that removal.
- MD5 is an uninterpreted function. Hash collisions are allowed, so `Pipeline.MarkedSpec` speaks of the first result per hash and of fresh hashes.
- SQLite, the WAL pragma and `datetime('now', 'localtime')` are not modelled. The table is a map, time stamps are integers, and one `now` stamps every insert of a run.
- Date parsing (including NaN for invalid dates) is an integer-valued parameter. Locale formatting and `formatDate` are parameters too.
- Feeds.SortDescSpec: the newest-first order holds for dates the parameter can express. For an unparseable `pubDate` the source's comparator yields NaN, so its sort order is implementation-defined; the model does not capture that case.
- Storage.Store.GetHistory: `days` is a natural number. The NaN or negative `days` that a command-line argument could pass is not modelled.
- `Promise.allSettled` runs the feeds concurrently. The model runs them one after the other, which gives the same merge because `fetchFeed` never rejects.
- YAML parsing and serialisation are not modelled. The configuration file holds a record, and `run` takes the loaded record rather than calling `loadConfig` itself.
- `path.join` normalisation is not modelled. Paths are joined with `/`.
- ConfigFile.ExpandHome: the home directory is inserted verbatim. `String.prototype.replace` would expand `$&`, `$'` and similar patterns in a home path containing `$`; this is not modelled.
- Output.GroupByPriority: the source groups into a plain object. A priority naming an inherited `Object.prototype` member (`constructor`, `toString`, `__proto__` and the like) makes `grouped[priority].push` throw a TypeError. That crashes `printResults` and `generateMarkdownReport` after the run's articles are marked. The model groups such a priority like any other unknown one and leaves it out of the listing; the throw is not modelled.
- Analyzer.DeepAnalyze: the stage-2 `parse` parameter returns a complete record: the analysis as the report reads it. A JSON object with missing fields, such as the `{}` an empty reply becomes, is represented by whatever record `parse` gives for it; missing fields are not modelled as such.
- String lengths count code points, not UTF-16 units. `toLowerCase` is modelled on ASCII letters only.
- Output.UpdateDropsHeader: it requires that the date and time stamps contain no `--` and neither starts nor ends with `-`. Such stamps keep the header free of a second `---\n\n`, as ISO dates and `zh-CN` times are.
- Pipeline.Run: the source returns `undefined` on its early exits and the list of results otherwise. The model returns `None` or `Some(results)`, and returns the stats alongside.
