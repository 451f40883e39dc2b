/** The run: fetch, drop what was seen, match, analyse, record, report.
    The services the run talks to (feed requests, the language model, page
    requests) and the clock are parameters. */
module Pipeline {
  import opened Types
  import opened Text
  import Storage
  import Feeds
  import Analyzer
  import Extractor
  import Output

  // ---------------------------------------------------------------------
  // Dry-run keyword matching

  /** The text an article is searched in: title, a space, summary, lowered. */
  function SearchText(a: Article): string
  {
    Lower(a.title + " " + a.summary)
  }

  /** `keywords.some(kw => text.includes(kw.toLowerCase()))`. */
  function AnyKeyword(text: string, keywords: seq<string>): (r: bool)
    ensures r <==> exists k :: 0 <= k < |keywords| && Contains(text, Lower(keywords[k]))
  {
    if keywords == [] then false
    else if Contains(text, Lower(keywords[0])) then true
    else
      var rest := AnyKeyword(text, keywords[1..]);
      assert forall k :: 1 <= k < |keywords| ==> keywords[k] == keywords[1..][k - 1];
      rest
  }

  /** The first topic from `from` on that has a keyword in `text`. */
  function FirstHitFrom(text: string, topics: seq<Topic>, from: nat): (r: Option<nat>)
    requires from <= |topics|
    ensures r.Some? ==> from <= r.value < |topics| && AnyKeyword(text, topics[r.value].keywords)
    ensures r.Some? ==> forall j :: from <= j < r.value ==> !AnyKeyword(text, topics[j].keywords)
    ensures r.None? ==> forall j :: from <= j < |topics| ==> !AnyKeyword(text, topics[j].keywords)
    decreases |topics| - from
  {
    if from == |topics| then None
    else if AnyKeyword(text, topics[from].keywords) then Some(from)
    else FirstHitFrom(text, topics, from + 1)
  }

  /** The index of the first topic, in configuration order, that has a
      keyword in `text`. */
  function FirstHit(text: string, topics: seq<Topic>): Option<nat>
  {
    FirstHitFrom(text, topics, 0)
  }

  /** The topic an article is matched to is the first that hits, and only
      topics that hit are matched to: the index `j` is the first hit exactly
      when topic `j` hits and no earlier one does. */
  lemma FirstHitIff(text: string, topics: seq<Topic>, j: nat)
    ensures FirstHit(text, topics) == Some(j) <==>
      j < |topics| && AnyKeyword(text, topics[j].keywords)
      && forall t :: 0 <= t < j ==> !AnyKeyword(text, topics[t].keywords)
    ensures FirstHit(text, topics) == None <==>
      forall t :: 0 <= t < |topics| ==> !AnyKeyword(text, topics[t].keywords)
  {
  }

  /** The dry-run relevance of a keyword match. */
  const KeywordRelevance: real := 0.8

  /** The match an article gives, if any. */
  function KeywordMatch(a: Article, topics: seq<Topic>): seq<Match>
  {
    match FirstHit(SearchText(a), topics)
    case Some(t) => [Match(a, topics[t], KeywordRelevance)]
    case None => []
  }

  /** What `localKeywordMatch` returns: each article's match, in order. */
  function KeywordMatches(articles: seq<Article>, topics: seq<Topic>): seq<Match>
  {
    if articles == [] then []
    else KeywordMatches(articles[..|articles| - 1], topics) + KeywordMatch(articles[|articles| - 1], topics)
  }

  /** `xs` is `ys` with some elements left out, the rest in order. */
  ghost predicate Subsequence<T>(xs: seq<T>, ys: seq<T>)
    decreases |ys|
  {
    if xs == [] then true
    else if ys == [] then false
    else (xs[|xs| - 1] == ys[|ys| - 1] && Subsequence(xs[..|xs| - 1], ys[..|ys| - 1]))
         || Subsequence(xs, ys[..|ys| - 1])
  }

  lemma SubsequenceSnoc<T>(xs: seq<T>, ys: seq<T>, y: T)
    requires Subsequence(xs, ys)
    ensures Subsequence(xs + [y], ys + [y])
    ensures Subsequence(xs, ys + [y])
  {
    assert (xs + [y])[..|xs|] == xs;
    assert (ys + [y])[..|ys|] == ys;
  }

  lemma MatchArticlesAppend(ms: seq<Match>, step: seq<Match>)
    ensures MatchArticles(ms + step) == MatchArticles(ms) + MatchArticles(step)
  {
  }

  /** The matched articles are a subsequence of the input: in input order,
      each input position at most once. */
  lemma {:induction false} KeywordOrder(articles: seq<Article>, topics: seq<Topic>)
    ensures Subsequence(MatchArticles(KeywordMatches(articles, topics)), articles)
  {
    if articles != [] {
      var init, last := articles[..|articles| - 1], articles[|articles| - 1];
      KeywordOrder(init, topics);
      var before, step := KeywordMatches(init, topics), KeywordMatch(last, topics);
      MatchArticlesAppend(before, step);
      assert articles == init + [last];
      SubsequenceSnoc(MatchArticles(before), init, last);
      if step == [] {
        EmptyRight(MatchArticles(before));
      } else {
        assert MatchArticles(step) == [last];
      }
    }
  }

  /** An article is matched exactly when some topic hits it, to the first
      topic that does, with relevance 0.8. */
  lemma {:induction false} KeywordMembers(articles: seq<Article>, topics: seq<Topic>)
    ensures |KeywordMatches(articles, topics)| <= |articles|
    ensures forall m :: m in KeywordMatches(articles, topics) ==>
      && m.article in articles
      && m.relevance == KeywordRelevance
      && FirstHit(SearchText(m.article), topics).Some?
      && m.topic == topics[FirstHit(SearchText(m.article), topics).value]
    ensures forall a :: a in articles && FirstHit(SearchText(a), topics).Some? ==>
      Match(a, topics[FirstHit(SearchText(a), topics).value], KeywordRelevance) in KeywordMatches(articles, topics)
  {
    if articles != [] {
      var init, last := articles[..|articles| - 1], articles[|articles| - 1];
      KeywordMembers(init, topics);
      assert articles == init + [last];
      var before, step := KeywordMatches(init, topics), KeywordMatch(last, topics);
      assert KeywordMatches(articles, topics) == before + step;
    }
  }

  /** `localKeywordMatch(articles, topics)`: for each article, the topics
      are tried in order and the first hit is pushed, then `break`. */
  method LocalKeywordMatch(articles: seq<Article>, topics: seq<Topic>) returns (matched: seq<Match>)
    ensures matched == KeywordMatches(articles, topics)
  {
    matched := [];
    for i := 0 to |articles|
      invariant matched == KeywordMatches(articles[..i], topics)
    {
      assert articles[..i + 1][..i] == articles[..i];
      var article := articles[i];
      var text := Lower(article.title + " " + article.summary);
      ghost var before := matched;
      var j := 0;
      while j < |topics|
        invariant 0 <= j <= |topics|
        invariant forall t :: 0 <= t < j ==> !AnyKeyword(text, topics[t].keywords)
        invariant matched == before
      {
        var topic := topics[j];
        var hit := AnyKeyword(text, topic.keywords);
        if hit {
          matched := matched + [Match(article, topic, 0.8)];
          FirstHitIff(text, topics, j);
          break;
        }
        j := j + 1;
      }
      if j == |topics| {
        FirstHitIff(text, topics, 0);
      }
    }
    assert articles[..|articles|] == articles;
  }

  // ---------------------------------------------------------------------
  // Dry-run analysis

  /** The summary used when the feed item had none. */
  const EmptySummaryNote: string := "（RSS 摘要为空，需通过 AI 分析获取详情）"
  /** The recommendation of a high-priority dry-run item. */
  const HighPriorityAdvice: string := "建议关注此文章详情"

  /** The analysis a dry run puts together from the feed item alone. */
  function DryRunAnalysis(m: Match): Analysis
  {
    var cut := Prefix(m.article.summary, 150);
    Analysis(Some(m.article.title),
             if cut != "" then cut else EmptySummaryNote,
             ["来源: " + m.article.feedName, "关键词匹配: " + m.topic.name],
             m.topic.priority == "high",
             if m.topic.priority == "high" then HighPriorityAdvice else "")
  }

  /** The dry-run summary is the first 150 characters of the item's
      summary, or the placeholder when that is empty; the item is
      actionable, and has a recommendation, exactly when its topic's
      priority is high, so the report shows the recommendation line exactly
      for high-priority items. */
  lemma DryRunAnalysisSpec(m: Match)
    ensures var a := DryRunAnalysis(m);
      && (m.article.summary != "" ==> a.summary <= m.article.summary && |a.summary| == Min(|m.article.summary|, 150))
      && (m.article.summary == "" ==> a.summary == EmptySummaryNote)
      && |a.keyPoints| == 2
      && (a.actionable <==> m.topic.priority == "high")
      && (a.recommendation != "" <==> m.topic.priority == "high")
      && (Output.RecommendationMd(a) != "" <==> m.topic.priority == "high")
  {
  }

  function Min(a: int, b: int): int
  {
    if a < b then a else b
  }

  // ---------------------------------------------------------------------
  // Recording what was processed

  /** The rows after marking each result with its topic and analysis, in
      order (`INSERT OR IGNORE` each time). */
  function MarkMatches(rows: map<string, Storage.Row>, hashUrl: string -> string, results: seq<Enriched>,
                       now: int): map<string, Storage.Row>
  {
    if results == [] then rows
    else
      var last := results[|results| - 1];
      Storage.Inserted(MarkMatches(rows, hashUrl, results[..|results| - 1], now), hashUrl,
                       last.article, last.topic, last.analysis, now)
  }

  /** The rows after marking, with no topic and no analysis, each new
      article whose link is not among `links`. */
  function MarkRest(rows: map<string, Storage.Row>, hashUrl: string -> string, arts: seq<Article>,
                    links: seq<string>, now: int): map<string, Storage.Row>
  {
    if arts == [] then rows
    else
      var last := arts[|arts| - 1];
      var before := MarkRest(rows, hashUrl, arts[..|arts| - 1], links, now);
      if last.link in links then before else Storage.Inserted(before, hashUrl, last, None, None, now)
  }

  /** The rows at the end of a run that got as far as matching. */
  function Marked(rows: map<string, Storage.Row>, hashUrl: string -> string, newArticles: seq<Article>,
                  matched: seq<Match>, results: seq<Enriched>, now: int): map<string, Storage.Row>
  {
    MarkRest(MarkMatches(rows, hashUrl, results, now), hashUrl, newArticles, Links(MatchArticles(matched)), now)
  }

  /** Marking results keeps every earlier row and records every
      result's link. */
  lemma {:induction false} MarkMatchesGrows(rows: map<string, Storage.Row>, hashUrl: string -> string,
                                            results: seq<Enriched>, now: int)
    ensures forall k :: k in rows ==>
      k in MarkMatches(rows, hashUrl, results, now) && MarkMatches(rows, hashUrl, results, now)[k] == rows[k]
    ensures forall i :: 0 <= i < |results| ==> Storage.Seen(MarkMatches(rows, hashUrl, results, now), hashUrl, results[i].article.link)
  {
    if results != [] {
      var init := results[..|results| - 1];
      MarkMatchesGrows(rows, hashUrl, init, now);
      forall i | 0 <= i < |init| ensures results[i] == init[i] { }
    }
  }

  /** A result whose hash is new and not shared with an earlier result is
      stored with its own topic and analysis. */
  lemma {:induction false} MarkMatchesFirst(rows: map<string, Storage.Row>, hashUrl: string -> string,
                                            results: seq<Enriched>, now: int, i: nat)
    requires i < |results| && FirstOfHash(rows, hashUrl, results, i)
    ensures var r := MarkMatches(rows, hashUrl, results, now);
      hashUrl(results[i].article.link) in r && r[hashUrl(results[i].article.link)] == RowOf(results[i], now)
  {
    var init, last := results[..|results| - 1], results[|results| - 1];
    var before := MarkMatches(rows, hashUrl, init, now);
    if i < |init| {
      assert results[i] == init[i];
      forall j | 0 <= j < i ensures init[j] == results[j] { }
      MarkMatchesFirst(rows, hashUrl, init, now, i);
    } else {
      forall j | 0 <= j < |init| ensures hashUrl(init[j].article.link) != hashUrl(last.article.link) {
        assert init[j] == results[j];
      }
      MarkMatchesAbsent(rows, hashUrl, init, now, hashUrl(last.article.link));
    }
  }

  /** A hash that is neither in the table nor any result's is still absent
      after marking the results. */
  lemma {:induction false} MarkMatchesAbsent(rows: map<string, Storage.Row>, hashUrl: string -> string,
                                             results: seq<Enriched>, now: int, h: string)
    requires h !in rows
    requires forall j :: 0 <= j < |results| ==> hashUrl(results[j].article.link) != h
    ensures h !in MarkMatches(rows, hashUrl, results, now)
  {
    if results != [] {
      MarkMatchesAbsent(rows, hashUrl, results[..|results| - 1], now, h);
    }
  }

  /** Result `i`'s hash is new to the table and to the results before it. */
  ghost predicate FirstOfHash(rows: map<string, Storage.Row>, hashUrl: string -> string, results: seq<Enriched>, i: nat)
    requires i < |results|
  {
    hashUrl(results[i].article.link) !in rows
    && forall j :: 0 <= j < i ==> hashUrl(results[j].article.link) != hashUrl(results[i].article.link)
  }

  /** The row `markProcessed(article, analysis)` creates for a result. */
  function RowOf(e: Enriched, now: int): Storage.Row
  {
    Storage.Row(e.article.link, e.article.title, e.article.feedName, Storage.TopicName(e.topic), e.analysis, now)
  }

  /** Marking the unmatched keeps every earlier row, records every new link
      not among `links`, and whatever it adds carries no analysis. */
  lemma {:induction false} MarkRestSpec(rows: map<string, Storage.Row>, hashUrl: string -> string, arts: seq<Article>,
                                        links: seq<string>, now: int)
    ensures var r := MarkRest(rows, hashUrl, arts, links, now);
      && (forall k :: k in rows ==> k in r && r[k] == rows[k])
      && (forall a :: a in arts && a.link !in links ==> Storage.Seen(r, hashUrl, a.link))
      && (forall k :: k in r && k !in rows ==> Unanalysed(r, k) && r[k].matchedTopic == "")
  {
    if arts != [] {
      var init := arts[..|arts| - 1];
      MarkRestSpec(rows, hashUrl, init, links, now);
      assert arts == init + [arts[|arts| - 1]];
    }
  }

  /** At the end of a run that got as far as matching: no earlier row is
      changed; every new article's link is processed; a result whose hash is
      new (and first among the results) is stored with its topic and
      analysis; and a new article left unmatched is stored with no analysis
      when no result shares its hash. */
  lemma MarkedSpec(rows: map<string, Storage.Row>, hashUrl: string -> string, newArticles: seq<Article>,
                   matched: seq<Match>, results: seq<Enriched>, now: int)
    requires |results| == |matched|
    requires forall i :: 0 <= i < |results| ==> results[i].article == matched[i].article
    ensures forall k :: k in rows ==>
      k in Marked(rows, hashUrl, newArticles, matched, results, now)
      && Marked(rows, hashUrl, newArticles, matched, results, now)[k] == rows[k]
    ensures forall a :: a in newArticles ==> Storage.Seen(Marked(rows, hashUrl, newArticles, matched, results, now), hashUrl, a.link)
    ensures forall i :: 0 <= i < |results| && FirstOfHash(rows, hashUrl, results, i) ==>
      Recorded(Marked(rows, hashUrl, newArticles, matched, results, now), hashUrl, results[i], now)
    ensures forall a ::
      a in newArticles && hashUrl(a.link) !in rows
      && (forall i :: 0 <= i < |results| ==> hashUrl(results[i].article.link) != hashUrl(a.link))
      ==> Unanalysed(Marked(rows, hashUrl, newArticles, matched, results, now), hashUrl(a.link))
  {
    var links := Links(MatchArticles(matched));
    var mid := MarkMatches(rows, hashUrl, results, now);
    var r := Marked(rows, hashUrl, newArticles, matched, results, now);
    assert r == MarkRest(mid, hashUrl, newArticles, links, now);
    MarkMatchesGrows(rows, hashUrl, results, now);
    MarkRestSpec(mid, hashUrl, newArticles, links, now);
    forall a | a in newArticles ensures Storage.Seen(r, hashUrl, a.link) {
      if a.link in links {
        var i :| 0 <= i < |links| && links[i] == a.link;
        assert results[i].article.link == a.link;
      }
    }
    forall i | 0 <= i < |results| && FirstOfHash(rows, hashUrl, results, i)
      ensures Recorded(r, hashUrl, results[i], now)
    {
      MarkMatchesFirst(rows, hashUrl, results, now, i);
    }
    forall a | a in newArticles && hashUrl(a.link) !in rows
                 && (forall i :: 0 <= i < |results| ==> hashUrl(results[i].article.link) != hashUrl(a.link))
      ensures Unanalysed(r, hashUrl(a.link))
    {
      MarkMatchesAbsent(rows, hashUrl, results, now, hashUrl(a.link));
    }
  }

  /** The table holds result `e`'s row under its link's hash. */
  ghost predicate Recorded(rows: map<string, Storage.Row>, hashUrl: string -> string, e: Enriched, now: int)
  {
    hashUrl(e.article.link) in rows && rows[hashUrl(e.article.link)] == RowOf(e, now)
  }

  /** The table holds a row with no analysis under `k`. */
  ghost predicate Unanalysed(rows: map<string, Storage.Row>, k: string)
  {
    k in rows && rows[k].analysisJson == None
  }

  // ---------------------------------------------------------------------
  // The run

  /** The services a run talks to. `outcome(k)` is how stage 1's call for
      batch `k` ended; `complete(i)` answers the stage-2 prompt of the
      `i`-th match; `page` answers the page request of a link. */
  datatype Services = Services(fetchFeed: Feed -> Feeds.FeedResponse, time: string -> int,
                               outcome: nat -> Analyzer.BatchOutcome, page: string -> Extractor.Fetched,
                               complete: nat -> string -> Analyzer.Reply,
                               parse: string -> Analyzer.ParsedAnalysis)

  /** The date, time and date formatting the report is stamped with. */
  datatype Clock = Clock(dateStr: string, timeStr: string, localeDate: string -> string)

  /** `config.claude.max_articles_per_run`, the default 50 when absent. */
  function MaxArticles(config: Config): int
  {
    config.claude.maxArticlesPerRun.GetOr(50)
  }

  /** The articles a run fetches. */
  function Fetched(config: Config, svc: Services): seq<Article>
  {
    Feeds.FetchAll(config.feeds, svc.fetchFeed, svc.time, MaxArticles(config))
  }

  /** The matches of the new articles: keyword matching in a dry run,
      stage 1 otherwise. */
  function Matched(newArticles: seq<Article>, topics: seq<Topic>, dryRun: bool, svc: Services): seq<Match>
  {
    if dryRun then KeywordMatches(newArticles, topics) else Analyzer.Stage1(newArticles, topics, svc.outcome)
  }

  /** The `i`-th match after analysis: a dry run synthesises the analysis
      from the feed item; otherwise the page text (the summary when none
      could be extracted) is analysed by stage 2. */
  function EnrichOne(m: Match, i: nat, dryRun: bool, svc: Services): Enriched
  {
    if dryRun then Enriched(m.article, Some(m.topic), m.relevance, None, Some(DryRunAnalysis(m)))
    else
      var extracted := Extractor.ContentOf(svc.page(m.article.link));
      var full := if extracted != "" then extracted else m.article.summary;
      Enriched(m.article, Some(m.topic), m.relevance, Some(full),
               Some(Analyzer.DeepAnalyze(Some(full), m.article.summary, svc.complete(i), svc.parse)))
  }

  /** The analysis step as a function of the match and its position. */
  function Analyser(dryRun: bool, svc: Services): (Match, nat) -> Enriched
  {
    (m: Match, i: nat) => EnrichOne(m, i, dryRun, svc)
  }

  /** The results of a list of matches: one per match, in match order. */
  function Enrich(matched: seq<Match>, dryRun: bool, svc: Services): (r: seq<Enriched>)
    ensures |r| == |matched|
    ensures forall i :: 0 <= i < |matched| ==> r[i] == EnrichOne(matched[i], i, dryRun, svc)
  {
    MapIndexed(matched, Analyser(dryRun, svc))
  }

  /** Each result is for its match's article and topic, with the match's
      relevance and an analysis; outside a dry run the analysed content is
      the extracted page text, or the summary when that is empty, and the
      analysis is stage 2's answer about it. */
  lemma EnrichOneSpec(m: Match, i: nat, dryRun: bool, svc: Services)
    ensures var e := EnrichOne(m, i, dryRun, svc);
      && e.article == m.article && e.topic == Some(m.topic) && e.relevance == m.relevance && e.analysis.Some?
      && (dryRun ==> e.analysis == Some(DryRunAnalysis(m)) && e.fullContent == None)
      && (!dryRun ==> e.fullContent.Some?
                      && (Extractor.ContentOf(svc.page(m.article.link)) != "" ==>
                            e.fullContent.value == Extractor.ContentOf(svc.page(m.article.link)))
                      && (Extractor.ContentOf(svc.page(m.article.link)) == "" ==> e.fullContent.value == m.article.summary)
                      && e.analysis == Some(Analyzer.DeepAnalyze(e.fullContent, m.article.summary, svc.complete(i), svc.parse)))
  {
  }

  /** The loop over the matches: analyse, collect, mark. */
  method AnalyseAll(store: Storage.Store, matched: seq<Match>, dryRun: bool, svc: Services, now: int)
    returns (results: seq<Enriched>)
    modifies store
    ensures results == Enrich(matched, dryRun, svc)
    ensures store.rows == MarkMatches(old(store.rows), store.hashUrl, results, now)
    ensures matched != [] ==> store.open
    ensures matched == [] ==> store.open == old(store.open)
  {
    results := [];
    for i := 0 to |matched|
      invariant results == Enrich(matched[..i], dryRun, svc)
      invariant store.rows == MarkMatches(old(store.rows), store.hashUrl, results, now)
      invariant i > 0 ==> store.open
      invariant i == 0 ==> store.open == old(store.open)
    {
      var e := AnalyseOne(matched[i], i, dryRun, svc);
      EnrichSnoc(matched, i, dryRun, svc);
      ghost var before := results;
      results := results + [e];
      store.MarkProcessed(e.article, e.topic, e.analysis, now);
      assert results[..|results| - 1] == before;
    }
    assert matched[..|matched|] == matched;
  }

  lemma EnrichSnoc(matched: seq<Match>, i: nat, dryRun: bool, svc: Services)
    requires i < |matched|
    ensures Enrich(matched[..i + 1], dryRun, svc) == Enrich(matched[..i], dryRun, svc) + [EnrichOne(matched[i], i, dryRun, svc)]
  {
    MapIndexedSnoc(matched, i, Analyser(dryRun, svc));
  }

  /** One round of the loop: the dry-run record, or extraction and stage 2. */
  method AnalyseOne(article: Match, i: nat, dryRun: bool, svc: Services) returns (e: Enriched)
    ensures e == EnrichOne(article, i, dryRun, svc)
  {
    if dryRun {
      e := Enriched(article.article, Some(article.topic), article.relevance, None, Some(DryRunAnalysis(article)));
    } else {
      var fullContent := Extractor.ExtractContent(article.article.link, svc.page);
      var full := if fullContent != "" then fullContent else article.article.summary;
      var analysis := Analyzer.DeepAnalyze(Some(full), article.article.summary, svc.complete(i), svc.parse);
      e := Enriched(article.article, Some(article.topic), article.relevance, Some(full), Some(analysis));
    }
  }

  /** The loop over the new articles: those no match refers to are marked
      with no analysis. */
  method MarkUnmatched(store: Storage.Store, newArticles: seq<Article>, matched: seq<Match>, now: int)
    modifies store
    ensures store.rows == MarkRest(old(store.rows), store.hashUrl, newArticles, Links(MatchArticles(matched)), now)
    ensures old(store.open) ==> store.open
  {
    var links := Links(MatchArticles(matched));
    for i := 0 to |newArticles|
      invariant store.rows == MarkRest(old(store.rows), store.hashUrl, newArticles[..i], links, now)
      invariant old(store.open) ==> store.open
    {
      assert newArticles[..i + 1][..i] == newArticles[..i];
      var a := newArticles[i];
      if a.link !in links {
        store.MarkProcessed(a, None, None, now);
      }
    }
    assert newArticles[..|newArticles|] == newArticles;
  }

  /** The articles of `run`'s matching step, given the articles not seen
      before it. */
  function MatchesOf(config: Config, newArticles: seq<Article>, dryRun: bool, svc: Services): seq<Match>
  {
    Matched(newArticles, config.topics, dryRun, svc)
  }

  /** Every match's result carries the match's article, so the marking
      rule holds at the end of a run: earlier rows unchanged, every new
      article processed, each result recorded with its analysis (when its
      hash is new and first among the results), and an unmatched new
      article recorded with no analysis (when no result shares its hash). */
  lemma RunMarks(rows: map<string, Storage.Row>, hashUrl: string -> string, newArticles: seq<Article>,
                 matched: seq<Match>, dryRun: bool, svc: Services, now: int)
    ensures var results := Enrich(matched, dryRun, svc);
      var r := Marked(rows, hashUrl, newArticles, matched, results, now);
      && (forall k :: k in rows ==> k in r && r[k] == rows[k])
      && (forall a :: a in newArticles ==> Storage.Seen(r, hashUrl, a.link))
      && (forall i :: 0 <= i < |results| && FirstOfHash(rows, hashUrl, results, i) ==> Recorded(r, hashUrl, results[i], now))
      && (forall a ::
            a in newArticles && hashUrl(a.link) !in rows
            && (forall i :: 0 <= i < |results| ==> hashUrl(results[i].article.link) != hashUrl(a.link))
            ==> Unanalysed(r, hashUrl(a.link)))
  {
    var results := Enrich(matched, dryRun, svc);
    forall i | 0 <= i < |results| ensures results[i].article == matched[i].article {
      EnrichOneSpec(matched[i], i, dryRun, svc);
    }
    MarkedSpec(rows, hashUrl, newArticles, matched, results, now);
  }

  /** Runs are idempotent: once a run has marked the new articles of a
      fetch, the same fetch finds nothing new, so a second run returns
      early and records nothing (see `Run`), whatever was matched. */
  lemma RerunFindsNothingNew(rows: map<string, Storage.Row>, hashUrl: string -> string, fetched: seq<Article>,
                             matched: seq<Match>, dryRun: bool, svc: Services, now: int)
    ensures var newArticles := Storage.Unseen(rows, hashUrl, fetched);
      Storage.Unseen(Marked(rows, hashUrl, newArticles, matched, Enrich(matched, dryRun, svc), now), hashUrl, fetched) == []
  {
    var newArticles := Storage.Unseen(rows, hashUrl, fetched);
    var r := Marked(rows, hashUrl, newArticles, matched, Enrich(matched, dryRun, svc), now);
    RunMarks(rows, hashUrl, newArticles, matched, dryRun, svc, now);
    Storage.UnseenMembers(rows, hashUrl, fetched);
    forall a | a in fetched ensures Storage.Seen(r, hashUrl, a.link) {
      if !Storage.Seen(rows, hashUrl, a.link) {
        assert a in newArticles;
      }
    }
    Storage.UnseenEmpty(r, hashUrl, fetched);
  }

  /** The report step: the Markdown report when it is enabled. */
  method Publish(disk: Output.Disk, config: Config, results: seq<Enriched>, stats: Stats, clock: Clock)
    modifies disk
    ensures ReportEnabled(config) ==> Reported(old(disk.dirs), old(disk.files), disk.dirs, disk.files, config, results, stats, clock)
    ensures !ReportEnabled(config) ==> disk.dirs == old(disk.dirs) && disk.files == old(disk.files)
  {
    if config.output.markdown.Some? && config.output.markdown.value.enabled {
      var _ := Output.GenerateMarkdownReport(disk, results, stats, config.output.markdown.value.dir,
                                             clock.dateStr, clock.timeStr, clock.localeDate);
    }
  }

  /** `config.output.markdown?.enabled`. */
  predicate ReportEnabled(config: Config)
  {
    config.output.markdown.Some? && config.output.markdown.value.enabled
  }

  /** The directories and files after `generateMarkdownReport` for these
      results: unchanged when there are none, otherwise the report directory
      exists and the day's file is written or appended to. */
  ghost predicate Reported(dirs: set<string>, files: map<string, string>, dirs': set<string>, files': map<string, string>,
                           config: Config, results: seq<Enriched>, stats: Stats, clock: Clock)
    requires ReportEnabled(config)
  {
    var dir := config.output.markdown.value.dir;
    if results == [] then dirs' == dirs && files' == files
    else dirs' == dirs + {dir}
         && files' == Output.Written(files, Output.ReportPath(dir, clock.dateStr),
                                     Output.ReportMd(results, stats, clock.dateStr, clock.timeStr, clock.localeDate), clock.timeStr)
  }

  /** `run(options)` on a loaded configuration: fetch, keep the articles
      not seen before, match them, analyse and record the matches, record
      the rest with no analysis, report, and close the store. It stops
      early, recording nothing, when nothing was fetched or nothing is new,
      and after recording alone when nothing matched. */
  method Run(store: Storage.Store, disk: Output.Disk, config: Config, dryRun: bool, svc: Services, clock: Clock, now: int)
    returns (results: Option<seq<Enriched>>, stats: Stats)
    modifies store, disk
    ensures var fetched := Fetched(config, svc);
      stats == Stats(|config.feeds|, |fetched|, |Storage.Unseen(old(store.rows), store.hashUrl, fetched)|)
    ensures !store.open
    ensures var newArticles := Storage.Unseen(old(store.rows), store.hashUrl, Fetched(config, svc));
      newArticles == [] ==> results == None && store.rows == old(store.rows)
    ensures var newArticles := Storage.Unseen(old(store.rows), store.hashUrl, Fetched(config, svc));
      var matched := MatchesOf(config, newArticles, dryRun, svc);
      newArticles != [] ==>
        && store.rows == Marked(old(store.rows), store.hashUrl, newArticles, matched, Enrich(matched, dryRun, svc), now)
        && results == if matched == [] then None else Some(Enrich(matched, dryRun, svc))
    ensures results.Some? && ReportEnabled(config) ==>
      Reported(old(disk.dirs), old(disk.files), disk.dirs, disk.files, config, results.value, stats, clock)
    ensures results.None? || !ReportEnabled(config) ==> disk.dirs == old(disk.dirs) && disk.files == old(disk.files)
  {
    stats := Stats(|config.feeds|, 0, 0);
    var articles := Feeds.FetchAllFeeds(config.feeds, svc.fetchFeed, svc.time, MaxArticles(config));
    stats := stats.(totalArticles := |articles|);
    if |articles| == 0 {
      store.Close();
      return None, stats;
    }
    var newArticles := store.FilterNew(articles);
    stats := stats.(newArticles := |newArticles|);
    if |newArticles| == 0 {
      store.Close();
      return None, stats;
    }
    results := Process(store, disk, config, newArticles, stats, dryRun, svc, clock, now);
    store.Close();
  }

  /** `run` from the matching step on, for a non-empty list of new articles. */
  method Process(store: Storage.Store, disk: Output.Disk, config: Config, newArticles: seq<Article>, stats: Stats,
                 dryRun: bool, svc: Services, clock: Clock, now: int)
    returns (results: Option<seq<Enriched>>)
    modifies store, disk
    ensures var matched := MatchesOf(config, newArticles, dryRun, svc);
      && store.rows == Marked(old(store.rows), store.hashUrl, newArticles, matched, Enrich(matched, dryRun, svc), now)
      && results == if matched == [] then None else Some(Enrich(matched, dryRun, svc))
    ensures results.Some? && ReportEnabled(config) ==>
      Reported(old(disk.dirs), old(disk.files), disk.dirs, disk.files, config, results.value, stats, clock)
    ensures results.None? || !ReportEnabled(config) ==> disk.dirs == old(disk.dirs) && disk.files == old(disk.files)
  {
    var matched := MatchStep(config, newArticles, dryRun, svc);
    if |matched| == 0 {
      MarkUnmatched(store, newArticles, [], now);
      return None;
    }
    var analysed := AnalyseAll(store, matched, dryRun, svc, now);
    MarkUnmatched(store, newArticles, matched, now);
    Publish(disk, config, analysed, stats, clock);
    results := Some(analysed);
  }

  /** The matching step: keyword matching in a dry run, stage 1 otherwise. */
  method MatchStep(config: Config, newArticles: seq<Article>, dryRun: bool, svc: Services)
    returns (matched: seq<Match>)
    ensures matched == MatchesOf(config, newArticles, dryRun, svc)
  {
    if dryRun {
      matched := LocalKeywordMatch(newArticles, config.topics);
    } else {
      matched := Analyzer.QuickFilter(newArticles, config.topics, svc.outcome);
    }
  }
}
