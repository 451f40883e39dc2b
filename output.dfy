/** The report: results grouped by their topic's priority, rendered as a
    Markdown daily report, and written to (or appended to) the day's file.
    The clock is a parameter: the report's date and time stamps are given
    as text, and so is the date formatting of an article's publication date. */
module Output {
  import opened Types
  import opened Text

  /** The sections of a report, in this order. */
  const Priorities: seq<string> := ["high", "medium", "low"]

  /** The rule between the header and each item. */
  const Separator: string := "---\n\n"

  /** `r.matchedTopic?.priority || 'low'`. */
  function PriorityOf(e: Enriched): string
  {
    if e.topic.Some? && e.topic.value.priority != "" then e.topic.value.priority else "low"
  }

  /** The results filed under priority `p`, in their input order. */
  function Group(results: seq<Enriched>, p: string): seq<Enriched>
  {
    if results == [] then []
    else
      var last := results[|results| - 1];
      Group(results[..|results| - 1], p) + (if PriorityOf(last) == p then [last] else [])
  }

  /** One of the three priorities a report has a section for. */
  predicate Known(p: string)
  {
    p == "high" || p == "medium" || p == "low"
  }

  /** The results whose priority is none of the three sections. */
  function Unfiled(results: seq<Enriched>): seq<Enriched>
  {
    if results == [] then []
    else
      var last := results[|results| - 1];
      Unfiled(results[..|results| - 1]) + (if !Known(PriorityOf(last)) then [last] else [])
  }

  /** The order in which both the terminal listing and the report show the
      results: the high group, then medium, then low. */
  function Ordered(results: seq<Enriched>): seq<Enriched>
  {
    Group(results, "high") + Group(results, "medium") + Group(results, "low")
  }

  /** The groups of the first `n` priorities, one after the other. */
  function Listing(results: seq<Enriched>, n: nat): seq<Enriched>
    requires n <= |Priorities|
  {
    if n == 0 then [] else Listing(results, n - 1) + Group(results, Priorities[n - 1])
  }

  lemma ListingAll(results: seq<Enriched>)
    ensures Listing(results, |Priorities|) == Ordered(results)
  {
    assert Listing(results, 1) == Group(results, "high");
  }

  /** The position of a section in the report. */
  function Rank(p: string): nat
  {
    if p == "high" then 0 else if p == "medium" then 1 else 2
  }

  lemma {:induction false} GroupMembers(results: seq<Enriched>, p: string)
    ensures forall e :: e in Group(results, p) <==> e in results && PriorityOf(e) == p
  {
    if results != [] {
      var init := results[..|results| - 1];
      GroupMembers(init, p);
      assert results == init + [results[|results| - 1]];
    }
  }

  lemma GroupSnoc(init: seq<Enriched>, x: Enriched, p: string)
    ensures PriorityOf(x) == p ==> Group(init + [x], p) == Group(init, p) + [x]
    ensures PriorityOf(x) != p ==> Group(init + [x], p) == Group(init, p)
  {
    assert (init + [x])[..|init|] == init;
  }

  lemma UnfiledSnoc(init: seq<Enriched>, x: Enriched)
    ensures Unfiled(init + [x]) == Unfiled(init) + (if !Known(PriorityOf(x)) then [x] else [])
  {
    assert (init + [x])[..|init|] == init;
  }

  lemma InsertCounted(a: seq<Enriched>, x: Enriched, b: seq<Enriched>)
    ensures multiset(a + [x] + b) == multiset(a + b) + multiset{x}
  {
    Associative(a, [x], b);
  }

  lemma SnocHigh(init: seq<Enriched>, x: Enriched)
    requires PriorityOf(x) == "high"
    ensures Ordered(init + [x]) == Group(init, "high") + [x] + (Group(init, "medium") + Group(init, "low"))
    ensures Ordered(init) == Group(init, "high") + (Group(init, "medium") + Group(init, "low"))
  {
    GroupSnoc(init, x, "high");
    GroupSnoc(init, x, "medium");
    GroupSnoc(init, x, "low");
    Associative(Group(init, "high") + [x], Group(init, "medium"), Group(init, "low"));
    Associative(Group(init, "high"), Group(init, "medium"), Group(init, "low"));
  }

  lemma SnocMedium(init: seq<Enriched>, x: Enriched)
    requires PriorityOf(x) == "medium"
    ensures Ordered(init + [x]) == (Group(init, "high") + Group(init, "medium")) + [x] + Group(init, "low")
  {
    GroupSnoc(init, x, "high");
    GroupSnoc(init, x, "medium");
    GroupSnoc(init, x, "low");
    Associative(Group(init, "high"), Group(init, "medium"), [x]);
  }

  lemma SnocLow(init: seq<Enriched>, x: Enriched)
    requires PriorityOf(x) == "low"
    ensures Ordered(init + [x]) == Ordered(init) + [x] + []
  {
    GroupSnoc(init, x, "high");
    GroupSnoc(init, x, "medium");
    GroupSnoc(init, x, "low");
    assert Ordered(init) + [x] + [] == Ordered(init) + [x];
  }

  /** A result with one of the three priorities joins the shown results. */
  lemma SnocShown(init: seq<Enriched>, x: Enriched)
    requires Known(PriorityOf(x))
    ensures multiset(Ordered(init + [x])) == multiset(Ordered(init)) + multiset{x}
  {
    var hi, me, lo := Group(init, "high"), Group(init, "medium"), Group(init, "low");
    if PriorityOf(x) == "high" {
      SnocHigh(init, x);
      InsertCounted(hi, x, me + lo);
    } else if PriorityOf(x) == "medium" {
      SnocMedium(init, x);
      InsertCounted(hi + me, x, lo);
    } else {
      SnocLow(init, x);
      InsertCounted(Ordered(init), x, []);
    }
  }

  /** A result with any other priority is not shown. */
  lemma SnocHidden(init: seq<Enriched>, x: Enriched)
    requires !Known(PriorityOf(x))
    ensures Ordered(init + [x]) == Ordered(init)
  {
    GroupSnoc(init, x, "high");
    GroupSnoc(init, x, "medium");
    GroupSnoc(init, x, "low");
  }

  /** Adding one result adds it to exactly one of the four parts. */
  lemma PartitionStep(init: seq<Enriched>, x: Enriched)
    ensures multiset(Ordered(init + [x])) + multiset(Unfiled(init + [x]))
         == multiset(Ordered(init)) + multiset(Unfiled(init)) + multiset{x}
  {
    if Known(PriorityOf(x)) {
      SnocShown(init, x);
    } else {
      SnocHidden(init, x);
    }
    UnfiledSnoc(init, x);
  }

  /** Every result is filed in exactly one of the three groups or is
      unfiled; together they hold each result as often as the input does. */
  lemma {:induction false} Partition(results: seq<Enriched>)
    ensures multiset(Ordered(results)) + multiset(Unfiled(results)) == multiset(results)
  {
    if results != [] {
      var init, x := results[..|results| - 1], results[|results| - 1];
      Partition(init);
      assert results == init + [x];
      assert multiset(results) == multiset(init) + multiset{x};
      PartitionStep(init, x);
    }
  }

  /** A result is shown exactly when it has one of the three priorities;
      the others are silently left out of the listing and the report. */
  lemma OrderedMembers(results: seq<Enriched>)
    ensures forall e :: e in Ordered(results) <==> e in results && Known(PriorityOf(e))
    ensures |Ordered(results)| == |results| <==> Unfiled(results) == []
  {
    GroupMembers(results, "high");
    GroupMembers(results, "medium");
    GroupMembers(results, "low");
    Partition(results);
    assert |multiset(Ordered(results))| + |multiset(Unfiled(results))| == |multiset(results)|;
  }

  /** Everything filed under `p` has priority `p`. */
  lemma {:induction false} GroupPriority(results: seq<Enriched>, p: string)
    ensures forall i :: 0 <= i < |Group(results, p)| ==> PriorityOf(Group(results, p)[i]) == p
  {
    if results != [] {
      GroupPriority(results[..|results| - 1], p);
    }
  }

  /** High results come before medium ones, and medium before low. */
  lemma OrderedByRank(results: seq<Enriched>)
    ensures forall i, j :: 0 <= i < j < |Ordered(results)| ==>
      Rank(PriorityOf(Ordered(results)[i])) <= Rank(PriorityOf(Ordered(results)[j]))
  {
    var h, m, l := Group(results, "high"), Group(results, "medium"), Group(results, "low");
    var o := Ordered(results);
    assert o == h + m + l;
    forall i | 0 <= i < |o|
      ensures Rank(PriorityOf(o[i])) == if i < |h| then 0 else if i < |h| + |m| then 1 else 2
    {
      if i < |h| {
        GroupPriority(results, "high");
        assert o[i] == h[i];
      } else if i < |h| + |m| {
        GroupPriority(results, "medium");
        assert o[i] == m[i - |h|];
      } else {
        GroupPriority(results, "low");
        assert o[i] == l[i - |h| - |m|];
      }
    }
  }

  /** `grouped`: the map from each priority that occurs to its group. */
  method GroupByPriority(results: seq<Enriched>) returns (grouped: map<string, seq<Enriched>>)
    ensures forall p :: p in grouped <==> Group(results, p) != []
    ensures forall p :: p in grouped ==> grouped[p] == Group(results, p)
  {
    grouped := map[];
    for k := 0 to |results|
      invariant forall p :: p in grouped <==> Group(results[..k], p) != []
      invariant forall p :: p in grouped ==> grouped[p] == Group(results[..k], p)
    {
      assert results[..k + 1][..k] == results[..k];
      var priority := PriorityOf(results[k]);
      if priority !in grouped {
        grouped := grouped[priority := []];
      }
      grouped := grouped[priority := grouped[priority] + [results[k]]];
    }
    assert results[..|results|] == results;
  }

  /** `for (const item of items)`: the group's items, one after the other. */
  method ListGroup(listed: seq<Enriched>, items: seq<Enriched>) returns (r: seq<Enriched>)
    ensures r == listed + items
  {
    r := listed;
    for j := 0 to |items|
      invariant r == listed + items[..j]
    {
      assert items[..j + 1] == items[..j] + [items[j]];
      r := r + [items[j]];
    }
    assert items[..|items|] == items;
  }

  /** The order in which `printResults` lists the results. Its early return
      on no results only skips the "no matches" message: the listing is
      empty then as well. The terminal formatting is not modelled. */
  method PrintOrder(results: seq<Enriched>) returns (listed: seq<Enriched>)
    ensures listed == Ordered(results)
  {
    listed := [];
    var grouped := GroupByPriority(results);
    for pi := 0 to |Priorities|
      invariant listed == Listing(results, pi)
    {
      var priority := Priorities[pi];
      if priority in grouped && |grouped[priority]| > 0 {
        listed := ListGroup(listed, grouped[priority]);
      }
    }
    ListingAll(results);
  }

  /** The emoji of a section. */
  function Emoji(p: string): string
  {
    if p == "high" then "\U{1F534}" else if p == "medium" then "\U{1F7E1}" else "\U{1F535}"
  }

  /** `PRIORITY_LABELS[priority]`. */
  function Tag(p: string): string
  {
    if p == "high" then "HIGH" else if p == "medium" then "MED" else "LOW"
  }

  /** `item.matchedTopic?.name || '未分类'`: the topic's name, or
      "uncategorised" when there is no topic or its name is empty. */
  function TopicTag(topic: Option<Topic>): (r: string)
    ensures r != ""
  {
    if topic.Some? && topic.value.name != "" then topic.value.name else "未分类"
  }

  /** `formatDate`: "unknown time" for an empty date; otherwise the locale
      rendering of the parsed date, which is the parameter `localeDate`. */
  function FormatDate(pubDate: string, localeDate: string -> string): string
  {
    if pubDate == "" then "未知时间" else localeDate(pubDate)
  }

  /** One `- point` line per key point. */
  function Bullets(points: seq<string>): string
  {
    if points == [] then ""
    else Bullets(points[..|points| - 1]) + ("- " + points[|points| - 1] + "\n")
  }

  /** The key-points block; absent when there are none. */
  function KeyPointsMd(points: seq<string>): (r: string)
    ensures r == "" <==> points == []
  {
    if points == [] then "" else "**关键点**:\n" + Bullets(points) + "\n"
  }

  /** The recommendation line; only for an actionable analysis with a
      non-empty recommendation. */
  function RecommendationMd(a: Analysis): (r: string)
    ensures r == "" <==> !(a.actionable && a.recommendation != "")
  {
    if a.actionable && a.recommendation != "" then "> \U{1F4A1} **建议**: " + a.recommendation + "\n\n" else ""
  }

  /** The analysis block of an item; absent without an analysis. */
  function AnalysisMd(analysis: Option<Analysis>): string
  {
    match analysis
    case None => ""
    case Some(a) => ("**摘要**: " + a.summary + "\n\n") + KeyPointsMd(a.keyPoints) + RecommendationMd(a)
  }

  /** The item's heading: its section's emoji and tag, then its topic. */
  function HeadingMd(e: Enriched, emoji: string, tag: string): string
  {
    "## " + emoji + " [" + tag + "] " + TopicTag(e.topic) + "\n\n"
  }

  /** The item's title. */
  function TitleMd(e: Enriched): string
  {
    "### " + e.article.title + "\n\n"
  }

  /** The item's source line: feed name and formatted publication date. */
  function SourceMd(e: Enriched, localeDate: string -> string): string
  {
    "**来源**: " + e.article.feedName + " | **时间**: " + FormatDate(e.article.pubDate, localeDate) + "\n\n"
  }

  /** The link to the original article. */
  function LinkMd(e: Enriched): string
  {
    "\U{1F517} [阅读原文](" + e.article.link + ")\n\n"
  }

  /** The blocks of a text, one after the other. */
  function Concat(blocks: seq<string>): string
  {
    if blocks == [] then "" else Concat(blocks[..|blocks| - 1]) + blocks[|blocks| - 1]
  }

  /** One item of a section with this emoji and tag: heading, title,
      source line, analysis, link and the rule. */
  function ItemMd(e: Enriched, emoji: string, tag: string, localeDate: string -> string): string
  {
    Concat([HeadingMd(e, emoji, tag), TitleMd(e), SourceMd(e, localeDate), AnalysisMd(e.analysis), LinkMd(e), Separator])
  }

  /** The items of one section, in order. */
  function SectionMd(items: seq<Enriched>, emoji: string, tag: string, localeDate: string -> string): string
  {
    if items == [] then ""
    else SectionMd(items[..|items| - 1], emoji, tag, localeDate) + ItemMd(items[|items| - 1], emoji, tag, localeDate)
  }

  /** The sections of the priorities `ps`, one after the other. */
  function Sections(results: seq<Enriched>, n: nat, localeDate: string -> string): string
    requires n <= |Priorities|
  {
    if n == 0 then ""
    else
      var p := Priorities[n - 1];
      Sections(results, n - 1, localeDate) + SectionMd(Group(results, p), Emoji(p), Tag(p), localeDate)
  }

  /** The title line and the statistics line of the report. */
  function HeaderLines(stats: Stats, hits: nat, dateStr: string, timeStr: string): string
  {
    ("# AI 资讯日报 \U{2014} " + dateStr + "\n\n")
    + ("> 扫描 " + NatToString(stats.feedCount) + " 个源 | " + NatToString(stats.totalArticles) + " 篇文章 | 新增 "
       + NatToString(stats.newArticles) + " 篇 | 命中 " + NatToString(hits) + " 篇 | 生成时间 " + timeStr + "\n\n")
  }

  /** The whole report: the header, a rule, then the three sections. */
  function ReportMd(results: seq<Enriched>, stats: Stats, dateStr: string, timeStr: string,
                    localeDate: string -> string): string
  {
    HeaderLines(stats, |results|, dateStr, timeStr) + Separator + Sections(results, |Priorities|, localeDate)
  }

  lemma AssociativeItem(md: string, h: string, t: string, src: string, an: string, l: string, sep: string)
    ensures md + h + t + src + an + l + sep == md + Concat([h, t, src, an, l, sep])
  {
    assert [h, t, src, an, l, sep][..5] == [h, t, src, an, l];
    assert [h, t, src, an, l][..4] == [h, t, src, an];
    assert [h, t, src, an][..3] == [h, t, src];
    assert [h, t, src][..2] == [h, t];
    assert [h, t][..1] == [h];
    assert Concat([h]) == h;
    assert Concat([h, t]) == h + t;
    assert Concat([h, t, src]) == h + t + src;
    assert Concat([h, t, src, an]) == h + t + src + an;
    assert Concat([h, t, src, an, l]) == h + t + src + an + l;
    assert Concat([h, t, src, an, l, sep]) == h + t + src + an + l + sep;
    Associative(md, h, t);
    Associative(md, h + t, src);
    Associative(md, h + t + src, an);
    Associative(md, h + t + src + an, l);
    Associative(md, h + t + src + an + l, sep);
  }

  /** The `md +=` steps of one item. */
  method AppendItem(md: string, item: Enriched, emoji: string, tag: string, localeDate: string -> string)
    returns (r: string)
    ensures r == md + ItemMd(item, emoji, tag, localeDate)
  {
    ghost var h, t, src, l := HeadingMd(item, emoji, tag), TitleMd(item), SourceMd(item, localeDate), LinkMd(item);
    r := md + ("## " + emoji + " [" + tag + "] " + TopicTag(item.topic) + "\n\n");
    r := r + ("### " + item.article.title + "\n\n");
    r := r + ("**来源**: " + item.article.feedName + " | **时间**: " + FormatDate(item.article.pubDate, localeDate) + "\n\n");
    ghost var head := r;
    if item.analysis.Some? {
      var a := item.analysis.value;
      r := r + ("**摘要**: " + a.summary + "\n\n");
      ghost var summary := r;
      if |a.keyPoints| > 0 {
        r := r + "**关键点**:\n";
        ghost var start := r;
        for i := 0 to |a.keyPoints|
          invariant r == start + Bullets(a.keyPoints[..i])
        {
          assert a.keyPoints[..i + 1][..i] == a.keyPoints[..i];
          ghost var done, next := Bullets(a.keyPoints[..i]), "- " + a.keyPoints[i] + "\n";
          assert Bullets(a.keyPoints[..i + 1]) == done + next;
          r := r + ("- " + a.keyPoints[i] + "\n");
          Associative(start, done, next);
        }
        assert a.keyPoints[..|a.keyPoints|] == a.keyPoints;
        r := r + "\n";
        Associative(summary, "**关键点**:\n", Bullets(a.keyPoints));
        Associative(summary, "**关键点**:\n" + Bullets(a.keyPoints), "\n");
      }
      assert r == summary + KeyPointsMd(a.keyPoints);
      if a.actionable && a.recommendation != "" {
        r := r + ("> \U{1F4A1} **建议**: " + a.recommendation + "\n\n");
      }
      assert r == summary + KeyPointsMd(a.keyPoints) + RecommendationMd(a);
      ghost var sm := "**摘要**: " + a.summary + "\n\n";
      Associative(head, sm, KeyPointsMd(a.keyPoints));
      Associative(head, sm + KeyPointsMd(a.keyPoints), RecommendationMd(a));
    }
    assert r == head + AnalysisMd(item.analysis);
    r := r + ("\U{1F517} [阅读原文](" + item.article.link + ")\n\n");
    r := r + Separator;
    AssociativeItem(md, h, t, src, AnalysisMd(item.analysis), l, Separator);
  }

  /** `for (const item of items)` in the report: the section's items. */
  method AppendSection(md: string, items: seq<Enriched>, emoji: string, tag: string, localeDate: string -> string)
    returns (r: string)
    ensures r == md + SectionMd(items, emoji, tag, localeDate)
  {
    r := md;
    for j := 0 to |items|
      invariant r == md + SectionMd(items[..j], emoji, tag, localeDate)
    {
      ghost var before := r;
      r := AppendItem(r, items[j], emoji, tag, localeDate);
      assert items[..j + 1] == items[..j] + [items[j]];
      SectionStep(md, items[..j], items[j], emoji, tag, localeDate, before, r);
    }
    assert items[..|items|] == items;
  }

  lemma SectionStep(md: string, init: seq<Enriched>, x: Enriched, emoji: string, tag: string,
                    localeDate: string -> string, r: string, r': string)
    requires r == md + SectionMd(init, emoji, tag, localeDate)
    requires r' == r + ItemMd(x, emoji, tag, localeDate)
    ensures r' == md + SectionMd(init + [x], emoji, tag, localeDate)
  {
    assert (init + [x])[..|init|] == init;
    Associative(md, SectionMd(init, emoji, tag, localeDate), ItemMd(x, emoji, tag, localeDate));
  }

  lemma SectionsStep(results: seq<Enriched>, pi: nat, localeDate: string -> string, header: string, md: string, md': string)
    requires pi < |Priorities|
    requires md == header + Sections(results, pi, localeDate)
    requires md' == md + SectionMd(Group(results, Priorities[pi]), Emoji(Priorities[pi]), Tag(Priorities[pi]), localeDate)
    ensures md' == header + Sections(results, pi + 1, localeDate)
  {
    Associative(header, Sections(results, pi, localeDate),
                SectionMd(Group(results, Priorities[pi]), Emoji(Priorities[pi]), Tag(Priorities[pi]), localeDate));
  }

  /** One round of the loop over the priorities: the items filed under
      `priority`, when there are any, under its emoji and tag. */
  method AppendPriority(md: string, grouped: map<string, seq<Enriched>>, ghost results: seq<Enriched>,
                        priority: string, localeDate: string -> string) returns (r: string)
    requires priority in grouped <==> Group(results, priority) != []
    requires priority in grouped ==> grouped[priority] == Group(results, priority)
    ensures r == md + SectionMd(Group(results, priority), Emoji(priority), Tag(priority), localeDate)
  {
    if priority !in grouped || |grouped[priority]| == 0 {
      return md;
    }
    var emoji := Emoji(priority);
    var tag := Tag(priority);
    r := AppendSection(md, grouped[priority], emoji, tag, localeDate);
  }

  /** `for (const priority of ['high', 'medium', 'low'])` in the report. */
  method AppendSections(header: string, grouped: map<string, seq<Enriched>>, ghost results: seq<Enriched>,
                        localeDate: string -> string) returns (md: string)
    requires forall p :: p in grouped <==> Group(results, p) != []
    requires forall p :: p in grouped ==> grouped[p] == Group(results, p)
    ensures md == header + Sections(results, |Priorities|, localeDate)
  {
    md := header;
    for pi := 0 to |Priorities|
      invariant md == header + Sections(results, pi, localeDate)
    {
      var priority := Priorities[pi];
      ghost var before := md;
      md := AppendPriority(md, grouped, results, priority, localeDate);
      SectionsStep(results, pi, localeDate, header, before, md);
    }
  }

  /** The first three `md +=` steps: title, statistics and the rule. */
  method RenderHeader(stats: Stats, hits: nat, dateStr: string, timeStr: string) returns (md: string)
    ensures md == HeaderLines(stats, hits, dateStr, timeStr) + Separator
  {
    md := "# AI 资讯日报 \U{2014} " + dateStr + "\n\n";
    md := md + ("> 扫描 " + NatToString(stats.feedCount) + " 个源 | " + NatToString(stats.totalArticles) + " 篇文章 | 新增 "
                + NatToString(stats.newArticles) + " 篇 | 命中 " + NatToString(hits) + " 篇 | 生成时间 " + timeStr + "\n\n");
    md := md + Separator;
  }

  /** `generateMarkdownReport`'s text: the header, the rule, and for each of
      the three priorities that has results, its items. */
  method RenderMarkdown(results: seq<Enriched>, stats: Stats, dateStr: string, timeStr: string,
                        localeDate: string -> string) returns (md: string)
    ensures md == ReportMd(results, stats, dateStr, timeStr, localeDate)
  {
    md := RenderHeader(stats, |results|, dateStr, timeStr);
    var grouped := GroupByPriority(results);
    md := AppendSections(md, grouped, results, localeDate);
  }

  /** A list of items, each rendered with its own priority's emoji and
      tag: the report body read as one list. */
  function ItemsMd(items: seq<Enriched>, localeDate: string -> string): string
  {
    if items == [] then ""
    else
      var last := items[|items| - 1];
      ItemsMd(items[..|items| - 1], localeDate) + ItemMd(last, Emoji(PriorityOf(last)), Tag(PriorityOf(last)), localeDate)
  }

  lemma {:induction false} ItemsMdAppend(a: seq<Enriched>, b: seq<Enriched>, localeDate: string -> string)
    ensures ItemsMd(a + b, localeDate) == ItemsMd(a, localeDate) + ItemsMd(b, localeDate)
    decreases |b|
  {
    if b == [] {
      EmptyRight(a);
      EmptyRight(ItemsMd(a, localeDate));
    } else {
      var init, y := b[..|b| - 1], b[|b| - 1];
      ItemsMdAppend(a, init, localeDate);
      AppendInit(a, b);
      Associative(ItemsMd(a, localeDate), ItemsMd(init, localeDate),
                  ItemMd(y, Emoji(PriorityOf(y)), Tag(PriorityOf(y)), localeDate));
    }
  }

  /** A section whose items all have priority `p` is rendered with the
      emoji and tag each item's own priority selects. */
  lemma {:induction false} SectionUniform(items: seq<Enriched>, p: string, localeDate: string -> string)
    requires forall i :: 0 <= i < |items| ==> PriorityOf(items[i]) == p
    ensures SectionMd(items, Emoji(p), Tag(p), localeDate) == ItemsMd(items, localeDate)
  {
    if items != [] {
      SectionUniform(items[..|items| - 1], p, localeDate);
    }
  }

  /** The report body lists exactly the results in print order (high, then
      medium, then low), each under the emoji and tag of its own priority;
      results of any other priority are not in the report. */
  lemma ReportInOrder(results: seq<Enriched>, localeDate: string -> string)
    ensures Sections(results, |Priorities|, localeDate) == ItemsMd(Ordered(results), localeDate)
  {
    var h, m, l := Group(results, "high"), Group(results, "medium"), Group(results, "low");
    SectionsSpelled(results, localeDate);
    GroupPriority(results, "high");
    GroupPriority(results, "medium");
    GroupPriority(results, "low");
    SectionUniform(h, "high", localeDate);
    SectionUniform(m, "medium", localeDate);
    SectionUniform(l, "low", localeDate);
    ItemsMdAppend(h, m, localeDate);
    ItemsMdAppend(h + m, l, localeDate);
  }

  lemma SectionsSpelled(results: seq<Enriched>, localeDate: string -> string)
    ensures Sections(results, |Priorities|, localeDate)
            == SectionMd(Group(results, "high"), Emoji("high"), Tag("high"), localeDate)
               + SectionMd(Group(results, "medium"), Emoji("medium"), Tag("medium"), localeDate)
               + SectionMd(Group(results, "low"), Emoji("low"), Tag("low"), localeDate)
  {
    var sh := SectionMd(Group(results, "high"), Emoji("high"), Tag("high"), localeDate);
    assert Sections(results, 1, localeDate) == "" + sh;
    EmptyLeft(sh);
  }

  /** No two dashes in a row, and none at either end: the shape of the
      ISO date and of the time stamp the report's header carries. */
  ghost predicate Calm(s: string)
  {
    (forall i :: 0 <= i < |s| - 1 ==> s[i] != '-' || s[i + 1] != '-')
    && (s != [] ==> s[0] != '-' && s[|s| - 1] != '-')
  }

  lemma CalmJoin(a: string, b: string)
    requires Calm(a) && Calm(b)
    ensures Calm(a + b)
  {
    var s := a + b;
    forall i | 0 <= i < |s| - 1
      ensures s[i] != '-' || s[i + 1] != '-'
    {
      if i + 1 < |a| {
        assert s[i] == a[i] && s[i + 1] == a[i + 1];
      } else if i >= |a| {
        assert s[i] == b[i - |a|] && s[i + 1] == b[i + 1 - |a|];
      } else {
        assert s[i] == a[|a| - 1];
      }
    }
  }

  lemma DashlessCalm(s: string)
    requires '-' !in s
    ensures Calm(s)
  {
  }

  lemma DigitsCalm(n: nat)
    ensures Calm(NatToString(n))
  {
    NatToStringDigits(n);
  }

  /** With calm stamps, the header is calm. */
  lemma HeaderCalm(stats: Stats, hits: nat, dateStr: string, timeStr: string)
    requires Calm(dateStr) && Calm(timeStr)
    ensures Calm(HeaderLines(stats, hits, dateStr, timeStr))
  {
    DashlessCalm("# AI 资讯日报 \U{2014} ");
    DashlessCalm("\n\n");
    DashlessCalm("> 扫描 ");
    DashlessCalm(" 个源 | ");
    DashlessCalm(" 篇文章 | 新增 ");
    DashlessCalm(" 篇 | 命中 ");
    DashlessCalm(" 篇 | 生成时间 ");
    DigitsCalm(stats.feedCount);
    DigitsCalm(stats.totalArticles);
    DigitsCalm(stats.newArticles);
    DigitsCalm(hits);
    var title := "# AI 资讯日报 \U{2014} " + dateStr + "\n\n";
    CalmJoin("# AI 资讯日报 \U{2014} ", dateStr);
    CalmJoin("# AI 资讯日报 \U{2014} " + dateStr, "\n\n");
    var a := "> 扫描 " + NatToString(stats.feedCount);
    CalmJoin("> 扫描 ", NatToString(stats.feedCount));
    CalmJoin(a, " 个源 | ");
    CalmJoin(a + " 个源 | ", NatToString(stats.totalArticles));
    var b := a + " 个源 | " + NatToString(stats.totalArticles);
    CalmJoin(b, " 篇文章 | 新增 ");
    CalmJoin(b + " 篇文章 | 新增 ", NatToString(stats.newArticles));
    var c := b + " 篇文章 | 新增 " + NatToString(stats.newArticles);
    CalmJoin(c, " 篇 | 命中 ");
    CalmJoin(c + " 篇 | 命中 ", NatToString(hits));
    var d := c + " 篇 | 命中 " + NatToString(hits);
    CalmJoin(d, " 篇 | 生成时间 ");
    CalmJoin(d + " 篇 | 生成时间 ", timeStr);
    CalmJoin(d + " 篇 | 生成时间 " + timeStr, "\n\n");
    CalmJoin(title, d + " 篇 | 生成时间 " + timeStr + "\n\n");
  }

  /** A calm text ending in a newline, followed by the rule, holds the rule
      first at its end. */
  lemma RuleAtEnd(h: string)
    requires Calm(h) && |h| > 0 && h[|h| - 1] == '\n'
    ensures forall i :: 0 <= i < |h| ==> !OccursAt(h + Separator, Separator, i)
  {
    var s := h + Separator;
    forall i | 0 <= i < |h|
      ensures !OccursAt(s, Separator, i)
    {
      assert s[i] != '-' || s[i + 1] != '-' by {
        if i + 1 < |h| {
          assert s[i] == h[i] && s[i + 1] == h[i + 1];
        } else {
          assert s[i] == h[i];
        }
      }
      if i + |Separator| <= |s| {
        var w := s[i..i + |Separator|];
        assert w[0] == s[i] && w[1] == s[i + 1];
      }
    }
  }

  /** The heading of a same-day update. */
  function UpdateHeading(timeStr: string): string
  {
    "\n\n---\n\n# 更新 (" + timeStr + ")\n\n"
  }

  /** What is appended to an existing day's file: the update heading, then
      the report with everything before its first rule dropped. */
  function UpdateBlock(md: string, timeStr: string): string
  {
    UpdateHeading(timeStr) + Join(Split(md, Separator)[1..], Separator)
  }

  /** With calm stamps, an update carries the update heading and then
      exactly the report's sections: the header and its statistics are
      dropped, and nothing of the sections is, whatever rules the items
      contain. */
  lemma UpdateDropsHeader(results: seq<Enriched>, stats: Stats, dateStr: string, timeStr: string,
                          localeDate: string -> string)
    requires Calm(dateStr) && Calm(timeStr)
    ensures UpdateBlock(ReportMd(results, stats, dateStr, timeStr, localeDate), timeStr)
            == UpdateHeading(timeStr) + Sections(results, |Priorities|, localeDate)
  {
    var h := HeaderLines(stats, |results|, dateStr, timeStr);
    HeaderCalm(stats, |results|, dateStr, timeStr);
    RuleAtEnd(h);
    DropFirstSegment(ReportMd(results, stats, dateStr, timeStr, localeDate), Separator);
    AfterFirstJoined(h, Separator, Sections(results, |Priorities|, localeDate));
  }

  /** `path.join(outputDir, `${dateStr}.md`)`, without path normalisation. */
  function ReportPath(outputDir: string, dateStr: string): string
  {
    outputDir + "/" + dateStr + ".md"
  }

  /** The files after writing report `md` to `path`: a new file holds the
      report, an existing one gets the update block appended. */
  function Written(files: map<string, string>, path: string, md: string, timeStr: string): map<string, string>
  {
    if path in files then files[path := files[path] + UpdateBlock(md, timeStr)] else files[path := md]
  }

  /** Writing adds `path` and touches no other file; an existing file keeps
      its old contents as a prefix, a new one holds exactly the report. */
  lemma WrittenSpec(files: map<string, string>, path: string, md: string, timeStr: string)
    ensures Written(files, path, md, timeStr).Keys == files.Keys + {path}
    ensures forall f :: f in files && f != path ==> Written(files, path, md, timeStr)[f] == files[f]
    ensures path !in files ==> Written(files, path, md, timeStr)[path] == md
    ensures path in files ==> files[path] <= Written(files, path, md, timeStr)[path]
  {
    if path in files {
      PrefixOfAppend(files[path], UpdateBlock(md, timeStr));
    }
  }

  /** The directories and files the report writer sees. */
  class Disk {
    var dirs: set<string>
    var files: map<string, string>

    constructor(dirs: set<string>, files: map<string, string>)
      ensures this.dirs == dirs && this.files == files
    {
      this.dirs := dirs;
      this.files := files;
    }
  }

  /** `generateMarkdownReport`: nothing when there are no results; otherwise
      the report directory is created when missing and the day's file is
      written, or appended to when it exists, and its path returned. */
  method GenerateMarkdownReport(disk: Disk, results: seq<Enriched>, stats: Stats, outputDir: string,
                                dateStr: string, timeStr: string, localeDate: string -> string)
    returns (path: Option<string>)
    modifies disk
    ensures results == [] ==> path == None && disk.dirs == old(disk.dirs) && disk.files == old(disk.files)
    ensures results != [] ==> path == Some(ReportPath(outputDir, dateStr))
    ensures results != [] ==> disk.dirs == old(disk.dirs) + {outputDir}
    ensures results != [] ==> disk.files == Written(old(disk.files), ReportPath(outputDir, dateStr),
                                                    ReportMd(results, stats, dateStr, timeStr, localeDate), timeStr)
  {
    if |results| == 0 {
      return None;
    }
    var md := RenderMarkdown(results, stats, dateStr, timeStr, localeDate);
    if outputDir !in disk.dirs {
      disk.dirs := disk.dirs + {outputDir};
    }
    var filePath := ReportPath(outputDir, dateStr);
    if filePath in disk.files {
      md := "\n\n---\n\n# 更新 (" + timeStr + ")\n\n" + Join(Split(md, Separator)[1..], Separator);
      disk.files := disk.files[filePath := disk.files[filePath] + md];
    } else {
      disk.files := disk.files[filePath := md];
    }
    path := Some(filePath);
  }
}
