/** The two-stage classifier. Stage 1 (`quickFilter`) sends the articles in
    batches of ten and keeps the reply's entries whose indices are valid and
    whose relevance reaches 0.6; stage 2 (`deepAnalyze`) turns a completion
    into an analysis record and degrades every failure into a visibly marked
    record. The completion service is replaced by its replies, and
    `JSON.parse` by a `parse` function. */
module Analyzer {
  import opened Types
  import opened Text

  const Threshold: real := 0.6

  /** The completion service's answer: an error thrown by the client, or
      the text of the first content block ('' when it has none). */
  datatype Reply = Threw(message: string) | Replied(text: string)

  /** One element of the stage-1 JSON array. */
  datatype Entry = Entry(index: int, topicIndex: int, relevance: real)

  /** How one stage-1 batch ends: it failed (the call or `JSON.parse`
      threw), the reply held no `[...]` region, or it listed entries. */
  datatype BatchOutcome = Fail | NoBracket | Entries(entries: seq<Entry>)

  /** `text || '[]'`, then `text.match(/\[[\s\S]*\]/)`, then `JSON.parse`. */
  function ParseBatchReply(reply: Reply, parse: string -> Option<seq<Entry>>): BatchOutcome
  {
    match reply
    case Threw(_) => Fail
    case Replied(text) =>
      match Region(if text == "" then "[]" else text, '[', ']')
      case None => NoBracket
      case Some(json) =>
        match parse(json)
        case None => Fail
        case Some(es) => Entries(es)
  }

  /** An empty reply reads as the empty array "[]". */
  lemma EmptyReplyReadsAsArray(parse: string -> Option<seq<Entry>>)
    ensures ParseBatchReply(Replied(""), parse) == if parse("[]").Some? then Entries(parse("[]").value) else Fail
  {
    var t := "[]";
    assert FirstIndex(t, '[') == Some(0);
    assert t[1..] == "]";
    assert LastIndex(t[1..], ']') == Some(0);
    assert t[0..2] == t;
  }

  /** A non-empty reply yields no bracket region exactly when no `[` comes
      before a `]`. */
  lemma NoBracketIff(text: string, parse: string -> Option<seq<Entry>>)
    requires text != ""
    ensures ParseBatchReply(Replied(text), parse) == NoBracket <==>
      forall i, j :: 0 <= i < j < |text| && text[i] == '[' ==> text[j] != ']'
  {
    RegionExists(text, '[', ']');
  }

  /** Entries come only from parsing a `[...]` text; a thrown call fails. */
  lemma EntriesFromBrackets(reply: Reply, parse: string -> Option<seq<Entry>>)
    ensures reply.Threw? ==> ParseBatchReply(reply, parse) == Fail
    ensures ParseBatchReply(reply, parse).Entries? ==>
      exists json :: && |json| >= 2 && json[0] == '[' && json[|json| - 1] == ']'
                     && parse(json) == Some(ParseBatchReply(reply, parse).entries)
  {
    if reply.Replied? {
      var t := if reply.text == "" then "[]" else reply.text;
      if Region(t, '[', ']').Some? {
        RegionDelimited(t, '[', ']');
        var json := Region(t, '[', ']').value;
        if parse(json).Some? {
          assert parse(json) == Some(ParseBatchReply(reply, parse).entries);
        }
      }
    }
  }

  /** `topics[topicIndex] || topics[0]`. */
  function TopicAt(topics: seq<Topic>, t: int): Topic
    requires |topics| > 0
  {
    if 0 <= t < |topics| then topics[t] else topics[0]
  }

  /** The entry passes the source's check against a batch of `n` articles. */
  predicate Admitted(e: Entry, n: nat)
  {
    0 <= e.index < n && e.relevance >= Threshold
  }

  /** The matches one reply entry contributes: none or one. */
  function EntryMatch(batch: seq<Article>, topics: seq<Topic>, e: Entry): seq<Match>
    requires |topics| > 0
  {
    if Admitted(e, |batch|) then [Match(batch[e.index], TopicAt(topics, e.topicIndex), e.relevance)] else []
  }

  /** The matches a list of reply entries contributes, in reply order. */
  function EntryMatches(batch: seq<Article>, topics: seq<Topic>, es: seq<Entry>): seq<Match>
    requires |topics| > 0
  {
    if es == [] then []
    else EntryMatches(batch, topics, es[..|es| - 1]) + EntryMatch(batch, topics, es[|es| - 1])
  }

  /** A match comes from an admitted entry, and every admitted entry gives
      its match: the batch article at the entry's index, the entry's topic
      or the first topic when that index is out of range, the entry's
      relevance. */
  lemma {:induction false} EntryMatchesSpec(batch: seq<Article>, topics: seq<Topic>, es: seq<Entry>)
    requires |topics| > 0
    ensures forall m :: m in EntryMatches(batch, topics, es) <==>
      exists e :: e in es && Admitted(e, |batch|) &&
        m == Match(batch[e.index],
                   if 0 <= e.topicIndex < |topics| then topics[e.topicIndex] else topics[0],
                   e.relevance)
  {
    if es != [] {
      var init, last := es[..|es| - 1], es[|es| - 1];
      EntryMatchesSpec(batch, topics, init);
      assert es == init + [last];
      forall m | m in EntryMatches(batch, topics, es)
        ensures exists e :: e in es && Admitted(e, |batch|) && m == Match(batch[e.index],
          if 0 <= e.topicIndex < |topics| then topics[e.topicIndex] else topics[0], e.relevance)
      {
        if m in EntryMatches(batch, topics, init) {
          var e :| e in init && Admitted(e, |batch|) &&
            m == Match(batch[e.index], if 0 <= e.topicIndex < |topics| then topics[e.topicIndex] else topics[0], e.relevance);
          assert e in es;
        } else {
          assert m in EntryMatch(batch, topics, last);
        }
      }
      forall e | e in es && Admitted(e, |batch|)
        ensures Match(batch[e.index], if 0 <= e.topicIndex < |topics| then topics[e.topicIndex] else topics[0], e.relevance)
                in EntryMatches(batch, topics, es)
      {
        if e != last {
          assert e in init;
        }
      }
    }
  }

  /** The matches one batch contributes; a failed batch contributes none. */
  function BatchMatches(batch: seq<Article>, topics: seq<Topic>, o: BatchOutcome): seq<Match>
    requires |topics| > 0
  {
    match o
    case Entries(es) => EntryMatches(batch, topics, es)
    case _ => []
  }

  /** The number of batches `for (i = 0; i < n; i += 10)` runs: the least
      count whose batches reach the end of the input. */
  function BatchCount(n: nat): (r: nat)
    ensures n <= 10 * r < n + 10
  {
    (n + 9) / 10
  }

  /** `articles.slice(10 * k, 10 * k + 10)`; empty past the end. */
  function Batch(articles: seq<Article>, k: nat): seq<Article>
  {
    var n := |articles|;
    articles[if 10 * k < n then 10 * k else n..if 10 * k + 10 < n then 10 * k + 10 else n]
  }

  /** The batches before batch k, concatenated. */
  function Covered(articles: seq<Article>, k: nat): seq<Article>
  {
    if k == 0 then [] else Covered(articles, k - 1) + Batch(articles, k - 1)
  }

  /** The batches are consecutive, each of one to ten articles, and
      together they are the input. */
  lemma {:induction false} BatchesCover(articles: seq<Article>, k: nat)
    requires k <= BatchCount(|articles|)
    ensures Covered(articles, k) == articles[..if 10 * k < |articles| then 10 * k else |articles|]
    ensures k == BatchCount(|articles|) ==> Covered(articles, k) == articles
    ensures k < BatchCount(|articles|) ==> 0 < |Batch(articles, k)| <= 10
  {
    if k > 0 {
      BatchesCover(articles, k - 1);
      var lo := 10 * (k - 1);
      assert articles[..lo] + articles[lo..if lo + 10 < |articles| then lo + 10 else |articles|]
          == articles[..if lo + 10 < |articles| then lo + 10 else |articles|];
    }
  }

  /** The matches of batches 0 .. k-1, batch by batch. */
  function MatchesUpTo(articles: seq<Article>, topics: seq<Topic>, outcome: nat -> BatchOutcome, k: nat): seq<Match>
    requires |topics| > 0
  {
    if k == 0 then []
    else MatchesUpTo(articles, topics, outcome, k - 1) + BatchMatches(Batch(articles, k - 1), topics, outcome(k - 1))
  }

  /** What `quickFilter` returns when batch k ends in `outcome(k)`. */
  function Stage1(articles: seq<Article>, topics: seq<Topic>, outcome: nat -> BatchOutcome): seq<Match>
  {
    if |articles| == 0 || |topics| == 0 then []
    else MatchesUpTo(articles, topics, outcome, BatchCount(|articles|))
  }

  /** The article at index `e` of batch k is article `10 * k + e`. */
  lemma BatchIndex(articles: seq<Article>, k: nat, e: nat)
    requires 10 * k <= |articles| && e < |Batch(articles, k)|
    ensures 10 * k + e < |articles| && Batch(articles, k)[e] == articles[10 * k + e]
  {
  }

  /** Entry `e` of batch k's reply yields match `m`: the entry is admitted
      and `m` pairs the input article at the batch offset plus the entry's
      index with the entry's topic (the first topic when that index is out
      of range) and the entry's relevance. */
  ghost predicate Yields(articles: seq<Article>, topics: seq<Topic>, outcome: nat -> BatchOutcome, k: nat, e: Entry, m: Match)
    requires |topics| > 0
  {
    && 10 * k < |articles| && outcome(k).Entries? && e in outcome(k).entries
    && Admitted(e, |Batch(articles, k)|)
    && 10 * k + e.index < |articles|
    && m == Match(articles[10 * k + e.index], TopicAt(topics, e.topicIndex), e.relevance)
  }

  /** The matches of one batch are exactly what its entries yield. */
  lemma BatchMembers(articles: seq<Article>, topics: seq<Topic>, outcome: nat -> BatchOutcome, k: nat)
    requires |topics| > 0 && k < BatchCount(|articles|)
    ensures forall m :: m in BatchMatches(Batch(articles, k), topics, outcome(k)) <==>
      exists e :: Yields(articles, topics, outcome, k, e, m)
  {
    var b := Batch(articles, k);
    var o := outcome(k);
    if o.Entries? {
      EntryMatchesSpec(b, topics, o.entries);
      forall m ensures m in BatchMatches(b, topics, o) <==> exists e :: Yields(articles, topics, outcome, k, e, m) {
        if m in BatchMatches(b, topics, o) {
          var e :| e in o.entries && Admitted(e, |b|) && m == Match(b[e.index],
            if 0 <= e.topicIndex < |topics| then topics[e.topicIndex] else topics[0], e.relevance);
          BatchIndex(articles, k, e.index);
          assert Yields(articles, topics, outcome, k, e, m);
        }
        if exists e :: Yields(articles, topics, outcome, k, e, m) {
          var e :| Yields(articles, topics, outcome, k, e, m);
          BatchIndex(articles, k, e.index);
        }
      }
    }
  }

  /** Every match of the first n batches is yielded by an entry of one of
      them, and every such entry's match is there. */
  lemma {:induction false} MembersUpTo(articles: seq<Article>, topics: seq<Topic>, outcome: nat -> BatchOutcome, n: nat)
    requires |topics| > 0 && n <= BatchCount(|articles|)
    ensures forall m :: m in MatchesUpTo(articles, topics, outcome, n) <==>
      exists k: nat, e :: k < n && Yields(articles, topics, outcome, k, e, m)
  {
    if n > 0 {
      MembersUpTo(articles, topics, outcome, n - 1);
      BatchMembers(articles, topics, outcome, n - 1);
      forall m | m in MatchesUpTo(articles, topics, outcome, n)
        ensures exists k: nat, e :: k < n && Yields(articles, topics, outcome, k, e, m)
      {
        if m !in MatchesUpTo(articles, topics, outcome, n - 1) {
          var e :| Yields(articles, topics, outcome, n - 1, e, m);
        }
      }
      forall k: nat, e, m | k < n && Yields(articles, topics, outcome, k, e, m)
        ensures m in MatchesUpTo(articles, topics, outcome, n)
      {
        if k == n - 1 {
          assert m in BatchMatches(Batch(articles, k), topics, outcome(k));
        }
      }
    }
  }

  /** The stage-1 result both ways: a match is in it exactly when an
      admitted entry of some batch's reply yields it. */
  lemma Stage1Members(articles: seq<Article>, topics: seq<Topic>, outcome: nat -> BatchOutcome)
    requires |articles| > 0 && |topics| > 0
    ensures forall m :: m in Stage1(articles, topics, outcome) <==>
      exists k: nat, e :: k < BatchCount(|articles|) && Yields(articles, topics, outcome, k, e, m)
  {
    MembersUpTo(articles, topics, outcome, BatchCount(|articles|));
  }

  /** Every match clears the threshold and names an input article and a
      configured topic. */
  lemma Stage1Sound(articles: seq<Article>, topics: seq<Topic>, outcome: nat -> BatchOutcome)
    ensures forall m :: m in Stage1(articles, topics, outcome) ==>
      m.relevance >= Threshold && m.article in articles && m.topic in topics
  {
    if |articles| > 0 && |topics| > 0 {
      Stage1Members(articles, topics, outcome);
    }
  }

  /** Earlier batches' matches form a prefix of later ones': matches come in
      batch order. */
  lemma MatchesUpToPrefix(articles: seq<Article>, topics: seq<Topic>, outcome: nat -> BatchOutcome, a: nat, b: nat)
    requires |topics| > 0 && a <= b
    ensures MatchesUpTo(articles, topics, outcome, a) <= MatchesUpTo(articles, topics, outcome, b)
  {
    MatchesUpToSplit(articles, topics, outcome, a, b);
    PrefixOfAppend(MatchesUpTo(articles, topics, outcome, a), MatchesBetween(articles, topics, outcome, a, b));
  }

  /** Outcomes that agree on the first k batches give the same matches for them. */
  lemma {:induction false} MatchesUpToAgree(articles: seq<Article>, topics: seq<Topic>, o1: nat -> BatchOutcome, o2: nat -> BatchOutcome, k: nat)
    requires |topics| > 0
    requires forall i: nat :: i < k ==> o1(i) == o2(i)
    ensures MatchesUpTo(articles, topics, o1, k) == MatchesUpTo(articles, topics, o2, k)
  {
    if k > 0 {
      MatchesUpToAgree(articles, topics, o1, o2, k - 1);
    }
  }

  /** The matches of batches lo .. hi-1, batch by batch. */
  function MatchesBetween(articles: seq<Article>, topics: seq<Topic>, outcome: nat -> BatchOutcome, lo: nat, hi: nat): seq<Match>
    requires |topics| > 0 && lo <= hi
    decreases hi - lo
  {
    if lo == hi then []
    else MatchesBetween(articles, topics, outcome, lo, hi - 1) + BatchMatches(Batch(articles, hi - 1), topics, outcome(hi - 1))
  }

  /** The matches of the first k batches split at any batch boundary. */
  lemma {:induction false} MatchesUpToSplit(articles: seq<Article>, topics: seq<Topic>, o: nat -> BatchOutcome, j: nat, k: nat)
    requires |topics| > 0 && j <= k
    ensures MatchesUpTo(articles, topics, o, k) == MatchesUpTo(articles, topics, o, j) + MatchesBetween(articles, topics, o, j, k)
    decreases k - j
  {
    if j < k {
      MatchesUpToSplit(articles, topics, o, j, k - 1);
      Associative(MatchesUpTo(articles, topics, o, j), MatchesBetween(articles, topics, o, j, k - 1),
                  BatchMatches(Batch(articles, k - 1), topics, o(k - 1)));
    }
  }

  /** Outcomes that agree from batch lo on give the same later matches. */
  lemma {:induction false} MatchesBetweenAgree(articles: seq<Article>, topics: seq<Topic>, o1: nat -> BatchOutcome,
                                               o2: nat -> BatchOutcome, lo: nat, hi: nat)
    requires |topics| > 0 && lo <= hi
    requires forall i: nat :: lo <= i < hi ==> o1(i) == o2(i)
    ensures MatchesBetween(articles, topics, o1, lo, hi) == MatchesBetween(articles, topics, o2, lo, hi)
    decreases hi - lo
  {
    if lo < hi {
      MatchesBetweenAgree(articles, topics, o1, o2, lo, hi - 1);
    }
  }

  /** The outcomes with batch j's request failing instead. */
  function FailAt(o: nat -> BatchOutcome, j: nat): nat -> BatchOutcome
  {
    (i: nat) => if i == j then Fail else o(i)
  }

  /** A failed batch j adds nothing to the batches before it. */
  lemma FailedBatchAddsNothing(articles: seq<Article>, topics: seq<Topic>, o: nat -> BatchOutcome, j: nat)
    requires |topics| > 0 && j < BatchCount(|articles|)
    ensures MatchesUpTo(articles, topics, FailAt(o, j), j + 1) == MatchesUpTo(articles, topics, o, j)
  {
    MatchesUpToAgree(articles, topics, o, FailAt(o, j), j);
  }

  /** The result is the batches before j, then batch j's matches, then
      the batches after it. */
  lemma BatchDecomposition(articles: seq<Article>, topics: seq<Topic>, o: nat -> BatchOutcome, j: nat)
    requires |articles| > 0 && |topics| > 0 && j < BatchCount(|articles|)
    ensures Stage1(articles, topics, o)
         == MatchesUpTo(articles, topics, o, j)
          + BatchMatches(Batch(articles, j), topics, o(j))
          + MatchesBetween(articles, topics, o, j + 1, BatchCount(|articles|))
  {
    MatchesUpToSplit(articles, topics, o, j + 1, BatchCount(|articles|));
    MatchesUpToNext(articles, topics, o, j);
  }

  lemma MatchesUpToNext(articles: seq<Article>, topics: seq<Topic>, o: nat -> BatchOutcome, k: nat)
    requires |topics| > 0
    ensures MatchesUpTo(articles, topics, o, k + 1)
         == MatchesUpTo(articles, topics, o, k) + BatchMatches(Batch(articles, k), topics, o(k))
  {
  }

  /** Batch isolation: when batch j's request fails instead, the result
      loses exactly batch j's matches (compare `BatchDecomposition`); the
      batches before and after it contribute what they did, in the same
      order. */
  lemma BatchIsolation(articles: seq<Article>, topics: seq<Topic>, o: nat -> BatchOutcome, j: nat)
    requires |articles| > 0 && |topics| > 0 && j < BatchCount(|articles|)
    ensures Stage1(articles, topics, FailAt(o, j))
         == MatchesUpTo(articles, topics, o, j)
          + MatchesBetween(articles, topics, o, j + 1, BatchCount(|articles|))
  {
    var n := BatchCount(|articles|);
    FailedBatchAddsNothing(articles, topics, o, j);
    MatchesBetweenAgree(articles, topics, o, FailAt(o, j), j + 1, n);
    MatchesUpToSplit(articles, topics, FailAt(o, j), j + 1, n);
  }

  /** The inner loop of `quickFilter` over one reply's entries. */
  method CollectEntries(batch: seq<Article>, topics: seq<Topic>, es: seq<Entry>) returns (found: seq<Match>)
    requires |topics| > 0
    ensures found == EntryMatches(batch, topics, es)
  {
    found := [];
    var j := 0;
    while j < |es|
      invariant 0 <= j <= |es|
      invariant found == EntryMatches(batch, topics, es[..j])
    {
      var r := es[j];
      assert es[..j + 1] == es[..j] + [r];
      if 0 <= r.index < |batch| && r.relevance >= Threshold {
        found := found + [Match(batch[r.index], TopicAt(topics, r.topicIndex), r.relevance)];
      }
      j := j + 1;
    }
    assert es[..j] == es;
  }

  /** `quickFilter(articles, topics, model)`: the batch loop, with batch k's
      call ending in `outcome(k)`. */
  method QuickFilter(articles: seq<Article>, topics: seq<Topic>, outcome: nat -> BatchOutcome) returns (matched: seq<Match>)
    ensures |articles| == 0 || |topics| == 0 ==> matched == []
    ensures matched == Stage1(articles, topics, outcome)
  {
    if |articles| == 0 || |topics| == 0 {
      return [];
    }
    matched := [];
    var i := 0;
    ghost var k := 0;
    while i < |articles|
      invariant i == 10 * k && k <= BatchCount(|articles|)
      invariant matched == MatchesUpTo(articles, topics, outcome, k)
      decreases |articles| - i
    {
      var found := CollectBatch(articles, topics, outcome, i, k);
      MatchesUpToNext(articles, topics, outcome, k);
      matched := matched + found;
      i := i + 10;
      k := k + 1;
    }
  }

  /** One round of the batch loop: the batch starting at `i` and the
      entries of its reply. */
  method CollectBatch(articles: seq<Article>, topics: seq<Topic>, outcome: nat -> BatchOutcome, i: nat, ghost k: nat)
    returns (found: seq<Match>)
    requires |topics| > 0 && i == 10 * k && i < |articles|
    ensures found == BatchMatches(Batch(articles, k), topics, outcome(k))
  {
    var batch := articles[i..if i + 10 < |articles| then i + 10 else |articles|];
    assert batch == Batch(articles, k);
    assert i / 10 == k;
    found := [];
    match outcome(i / 10) {
      case Entries(es) =>
        found := CollectEntries(batch, topics, es);
      case _ =>
    }
  }

  // ---------------------------------------------------------------------
  // Stage 2

  /** `JSON.parse` of an analysis object: a value, or a syntax error. */
  datatype ParsedAnalysis = Parsed(value: Analysis) | Invalid(message: string)

  const FailureSummary: string := "分析失败"
  const FailurePrefix: string := "分析失败: "

  /** The degraded record every stage-2 failure turns into. */
  function FailureRecord(summary: string): Analysis
  {
    Analysis(None, summary, [], false, "")
  }

  /** `article.fullContent || article.summary`: the text stage 2 is asked about. */
  function PromptContent(fullContent: Option<string>, summary: string): string
  {
    if fullContent.Some? && fullContent.value != "" then fullContent.value else summary
  }

  /** `deepAnalyze(article, model)`: the service is asked about the prompt
      content and its reply is read through the brace region. */
  function DeepAnalyze(fullContent: Option<string>, summary: string, complete: string -> Reply,
                       parse: string -> ParsedAnalysis): Analysis
  {
    match complete(PromptContent(fullContent, summary))
    case Threw(message) => FailureRecord(FailurePrefix + message)
    case Replied(text) =>
      match Region(if text == "" then "{}" else text, '{', '}')
      case None => FailureRecord(FailureSummary)
      case Some(json) =>
        match parse(json)
        case Parsed(a) => a
        case Invalid(message) => FailureRecord(FailurePrefix + message)
  }

  /** A degraded record: no title, no key points, not actionable, no
      recommendation, and a summary that starts with the failure marker. */
  ghost predicate IsFailureRecord(r: Analysis)
  {
    r.titleZh == None && r.keyPoints == [] && !r.actionable && r.recommendation == "" && FailureSummary <= r.summary
  }

  /** `r` is what `parse` makes of some `{...}` text. */
  ghost predicate ParsedFromBraces(r: Analysis, parse: string -> ParsedAnalysis)
  {
    exists json :: |json| >= 2 && json[0] == '{' && json[|json| - 1] == '}' && parse(json) == Parsed(r)
  }

  /** Stage 2 always yields a record: the object parsed from a `{...}`
      region of the reply, or a failure record. */
  lemma DeepAnalyzeTotal(fullContent: Option<string>, summary: string, complete: string -> Reply,
                         parse: string -> ParsedAnalysis)
    ensures ParsedFromBraces(DeepAnalyze(fullContent, summary, complete, parse), parse)
         || IsFailureRecord(DeepAnalyze(fullContent, summary, complete, parse))
  {
    var reply := complete(PromptContent(fullContent, summary));
    if reply.Threw? {
      FailureMarked(reply.message);
    } else {
      var text := if reply.text == "" then "{}" else reply.text;
      var region := Region(text, '{', '}');
      if region.None? {
        assert IsFailureRecord(FailureRecord(FailureSummary));
      } else if parse(region.value).Invalid? {
        FailureMarked(parse(region.value).message);
      } else {
        BracesParsed(text, parse);
      }
    }
  }

  /** A failure record carrying an error message is marked as one. */
  lemma FailureMarked(message: string)
    ensures IsFailureRecord(FailureRecord(FailurePrefix + message))
  {
    assert (FailurePrefix + message)[..|FailureSummary|] == FailureSummary;
  }

  lemma BracesParsed(text: string, parse: string -> ParsedAnalysis)
    requires Region(text, '{', '}').Some? && parse(Region(text, '{', '}').value).Parsed?
    ensures ParsedFromBraces(parse(Region(text, '{', '}').value).value, parse)
  {
    RegionDelimited(text, '{', '}');
  }

  /** The service is asked about the full content when it is non-empty and
      about the summary otherwise; a thrown error and a parse error are
      reported in the summary; a reply with no `{` before a `}` gives the
      bare failure record. */
  lemma DeepAnalyzeFailures(fullContent: Option<string>, summary: string, complete: string -> Reply,
                            parse: string -> ParsedAnalysis)
    ensures var reply := complete(if fullContent.Some? && fullContent.value != "" then fullContent.value else summary);
      var r := DeepAnalyze(fullContent, summary, complete, parse);
      && (reply.Threw? ==> r == FailureRecord(FailurePrefix + reply.message))
      && (reply.Replied? && reply.text != "" &&
          (forall i, j :: 0 <= i < j < |reply.text| && reply.text[i] == '{' ==> reply.text[j] != '}')
          ==> r == FailureRecord(FailureSummary))
      && (reply.Replied? && Region(reply.text, '{', '}').Some? && parse(Region(reply.text, '{', '}').value).Invalid?
          ==> r == FailureRecord(FailurePrefix + parse(Region(reply.text, '{', '}').value).message))
  {
    var reply := complete(PromptContent(fullContent, summary));
    if reply.Replied? {
      RegionExists(reply.text, '{', '}');
    }
  }
}
