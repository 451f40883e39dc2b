/** Entities shared by the pipeline stages: feed items, topics, matches,
    analysis records, run statistics and the configuration record. */
module Types {

  datatype Option<+T> = None | Some(value: T) {
    function GetOr(default: T): T {
      match this
      case Some(v) => v
      case None => default
    }
  }

  datatype Result<+T> = Ok(value: T) | Err(message: string)

  /** A configured source feed. */
  datatype Feed = Feed(name: string, url: string)

  /** A user interest. `priority` is kept as the string the configuration
      holds: anything other than high/medium/low is possible. */
  datatype Topic = Topic(name: string, description: string, keywords: seq<string>, priority: string)

  /** One feed item after field defaults were applied (never null fields). */
  datatype Article = Article(title: string, link: string, summary: string, pubDate: string, feedName: string)

  /** An article paired with the topic it matched and its relevance. */
  datatype Match = Match(article: Article, topic: Topic, relevance: real)

  /** The stage-2 analysis object; `titleZh` is absent in failure records. */
  datatype Analysis = Analysis(titleZh: Option<string>, summary: string, keyPoints: seq<string>,
                               actionable: bool, recommendation: string)

  /** An entry of the run's result set: a matched article enriched with the
      content that was analysed and the analysis itself. */
  datatype Enriched = Enriched(article: Article, topic: Option<Topic>, relevance: real,
                             fullContent: Option<string>, analysis: Option<Analysis>)

  datatype Stats = Stats(feedCount: nat, totalArticles: nat, newArticles: nat)

  datatype MarkdownOutput = MarkdownOutput(enabled: bool, dir: string)
  datatype HtmlOutput = HtmlOutput(enabled: bool, dir: string, autoOpen: bool)
  datatype OutputConfig = OutputConfig(terminal: bool, markdown: Option<MarkdownOutput>, html: Option<HtmlOutput>)
  datatype ClaudeConfig = ClaudeConfig(model: string, maxArticlesPerRun: Option<int>)
  datatype Config = Config(feeds: seq<Feed>, topics: seq<Topic>, output: OutputConfig, claude: ClaudeConfig)

  /** The articles that a list of matches refers to, in order. */
  function MatchArticles(ms: seq<Match>): (r: seq<Article>)
    ensures |r| == |ms|
    ensures forall i :: 0 <= i < |ms| ==> r[i] == ms[i].article
  {
    seq(|ms|, i requires 0 <= i < |ms| => ms[i].article)
  }

  /** The links of a list of articles, in order. */
  function Links(arts: seq<Article>): (r: seq<string>)
    ensures |r| == |arts|
    ensures forall i :: 0 <= i < |arts| ==> r[i] == arts[i].link
  {
    seq(|arts|, i requires 0 <= i < |arts| => arts[i].link)
  }

  /** Concatenation regrouped; called where the solver would otherwise have
      to find the regrouping itself. */
  lemma Associative<T>(a: seq<T>, b: seq<T>, c: seq<T>)
    ensures a + b + c == a + (b + c)
  {
  }

  lemma EmptyLeft<T>(s: seq<T>)
    ensures [] + s == s
  {
  }

  /** The slices of `s` at `j` and those of `s` without its last element. */
  lemma SnocSlices<T>(s: seq<T>, j: nat)
    requires j < |s|
    ensures s[..j] == s[..|s| - 1][..j]
    ensures s[j..] == s[..|s| - 1][j..] + [s[|s| - 1]]
  {
  }

  lemma MultisetSnoc<T>(s: seq<T>)
    requires |s| > 0
    ensures multiset(s) == multiset(s[..|s| - 1]) + multiset{s[|s| - 1]}
  {
    assert s == s[..|s| - 1] + [s[|s| - 1]];
  }

  lemma EmptyRight<T>(s: seq<T>)
    ensures s + [] == s
  {
  }

  /** `f` applied to each element and its index. */
  function MapIndexed<A, B>(s: seq<A>, f: (A, nat) -> B): (r: seq<B>)
    ensures |r| == |s|
    ensures forall i :: 0 <= i < |s| ==> r[i] == f(s[i], i)
  {
    seq(|s|, i requires 0 <= i < |s| => f(s[i], i))
  }

  lemma MapIndexedSnoc<A, B>(s: seq<A>, i: nat, f: (A, nat) -> B)
    requires i < |s|
    ensures MapIndexed(s[..i + 1], f) == MapIndexed(s[..i], f) + [f(s[i], i)]
  {
    var a, b := MapIndexed(s[..i + 1], f), MapIndexed(s[..i], f) + [f(s[i], i)];
    forall k | 0 <= k <= i ensures a[k] == b[k] {
      assert s[..i + 1][k] == s[k];
      if k < i {
        assert s[..i][k] == s[k];
      }
    }
  }

  lemma AppendInit<T>(a: seq<T>, b: seq<T>)
    requires |b| > 0
    ensures (a + b)[..|a + b| - 1] == a + b[..|b| - 1]
  {
  }

  lemma PrefixOfAppend<T>(a: seq<T>, b: seq<T>)
    ensures a <= a + b
  {
    assert (a + b)[..|a|] == a;
  }
}
