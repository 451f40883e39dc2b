/** Feed fetching: each feed's parsed items become articles with field
    defaults, a failing feed contributes nothing, and the merged list is
    sorted newest first and cut to the configured maximum. The RSS fetch and
    XML parse are the `fetch` parameter; `Date` parsing is `time`. */
module Feeds {
  import opened Types

  /** An item as the RSS parser returns it; every field may be missing. */
  datatype RawItem = RawItem(title: Option<string>, link: Option<string>, contentSnippet: Option<string>,
                             content: Option<string>, pubDate: Option<string>, isoDate: Option<string>)

  /** The outcome of `parser.parseURL(feed.url)`: a thrown error, or a
      result whose `items` may be missing. */
  datatype FeedResponse = Failed(message: string) | Parsed(items: Option<seq<RawItem>>)

  /** `o || d` for a possibly missing string: the empty string is falsy. */
  function OrElse(o: Option<string>, d: string): string
  {
    if o.Some? && o.value != "" then o.value else d
  }

  function MapItem(feed: Feed, item: RawItem): Article
  {
    Article(
      OrElse(item.title, ""),
      OrElse(item.link, ""),
      OrElse(item.contentSnippet, OrElse(item.content, "")),
      OrElse(item.pubDate, OrElse(item.isoDate, "")),
      feed.name)
  }

  /** `fetchFeed`: the feed's items mapped in order; a failure yields []. */
  function FetchFeed(feed: Feed, response: FeedResponse): seq<Article>
  {
    match response
    case Failed(_) => []
    case Parsed(items) =>
      var xs := items.GetOr([]);
      seq(|xs|, i requires 0 <= i < |xs| => MapItem(feed, xs[i]))
  }

  /** A failing feed, or one without items, contributes nothing; otherwise
      item i becomes article i with the source's field defaults. */
  lemma FetchFeedSpec(feed: Feed, response: FeedResponse)
    ensures response.Failed? ==> FetchFeed(feed, response) == []
    ensures response == Parsed(None) ==> FetchFeed(feed, response) == []
    ensures response.Parsed? && response.items.Some? ==>
      var xs := response.items.value;
      var r := FetchFeed(feed, response);
      && |r| == |xs|
      && forall i :: 0 <= i < |xs| ==>
        && r[i].feedName == feed.name
        && r[i].title == (if xs[i].title.Some? && xs[i].title.value != "" then xs[i].title.value else "")
        && r[i].link == (if xs[i].link.Some? && xs[i].link.value != "" then xs[i].link.value else "")
        && r[i].summary == (if xs[i].contentSnippet.Some? && xs[i].contentSnippet.value != "" then xs[i].contentSnippet.value
                            else if xs[i].content.Some? && xs[i].content.value != "" then xs[i].content.value
                            else "")
        && r[i].pubDate == (if xs[i].pubDate.Some? && xs[i].pubDate.value != "" then xs[i].pubDate.value
                            else if xs[i].isoDate.Some? && xs[i].isoDate.value != "" then xs[i].isoDate.value
                            else "")
  {
  }

  /** The feeds' articles concatenated in feed order (`flatMap`). */
  function Merged(feeds: seq<Feed>, fetch: Feed -> FeedResponse): seq<Article>
  {
    if feeds == [] then [] else FetchFeed(feeds[0], fetch(feeds[0])) + Merged(feeds[1..], fetch)
  }

  lemma {:induction false} MergedAppend(a: seq<Feed>, b: seq<Feed>, fetch: Feed -> FeedResponse)
    ensures Merged(a + b, fetch) == Merged(a, fetch) + Merged(b, fetch)
  {
    if a == [] {
      assert a + b == b;
    } else {
      assert (a + b)[0] == a[0] && (a + b)[1..] == a[1..] + b;
      MergedAppend(a[1..], b, fetch);
    }
  }

  lemma SplitAt<T>(s: seq<T>, k: nat)
    requires k < |s|
    ensures s == s[..k] + ([s[k]] + s[k + 1..])
  {
  }

  lemma MergedCons(f: Feed, rest: seq<Feed>, fetch: Feed -> FeedResponse)
    ensures Merged([f] + rest, fetch) == FetchFeed(f, fetch(f)) + Merged(rest, fetch)
  {
    assert ([f] + rest)[0] == f && ([f] + rest)[1..] == rest;
  }

  /** Feed k's items sit between the items of the feeds before and after it. */
  lemma MergedAt(feeds: seq<Feed>, fetch: Feed -> FeedResponse, k: nat)
    requires k < |feeds|
    ensures Merged(feeds, fetch)
         == Merged(feeds[..k], fetch) + (FetchFeed(feeds[k], fetch(feeds[k])) + Merged(feeds[k + 1..], fetch))
  {
    SplitAt(feeds, k);
    MergedAppend(feeds[..k], [feeds[k]] + feeds[k + 1..], fetch);
    MergedCons(feeds[k], feeds[k + 1..], fetch);
  }

  /** When feed k fails, the other feeds' items are merged exactly as if it
      were not configured. */
  lemma FeedIsolation(feeds: seq<Feed>, fetch: Feed -> FeedResponse, k: nat)
    requires k < |feeds| && fetch(feeds[k]).Failed?
    ensures Merged(feeds, fetch) == Merged(feeds[..k] + feeds[k + 1..], fetch)
  {
    MergedAt(feeds, fetch, k);
    MergedAppend(feeds[..k], feeds[k + 1..], fetch);
    FailedFeedEmpty(feeds[k], fetch(feeds[k]));
    EmptyLeft(Merged(feeds[k + 1..], fetch));
  }

  lemma FailedFeedEmpty(feed: Feed, response: FeedResponse)
    requires response.Failed?
    ensures FetchFeed(feed, response) == []
  {
  }

  /** Three feeds, the middle one failing, five and three items otherwise:
      eight articles are merged. */
  lemma ThreeFeedScenario(a: Feed, b: Feed, c: Feed, fetch: Feed -> FeedResponse, xs: seq<RawItem>, ys: seq<RawItem>)
    requires fetch(a) == Parsed(Some(xs)) && |xs| == 5
    requires fetch(b).Failed?
    requires fetch(c) == Parsed(Some(ys)) && |ys| == 3
    ensures |Merged([a, b, c], fetch)| == 8
  {
    assert [a, b, c][1..] == [b, c] && [b, c][1..] == [c] && [c][1..] == [];
    assert |FetchFeed(a, fetch(a))| == 5 && FetchFeed(b, fetch(b)) == [] && |FetchFeed(c, fetch(c))| == 3;
    assert Merged([c], fetch) == FetchFeed(c, fetch(c));
    assert Merged([b, c], fetch) == FetchFeed(c, fetch(c));
    assert Merged([a, b, c], fetch) == FetchFeed(a, fetch(a)) + FetchFeed(c, fetch(c));
  }

  // ---------------------------------------------------------------------
  // Sorting by publication time

  /** The sort key: the parsed `pubDate`, or 0 when it is empty. */
  function Key(a: Article, time: string -> int): int
  {
    if a.pubDate == "" then 0 else time(a.pubDate)
  }

  ghost predicate SortedByTime(s: seq<Article>, time: string -> int)
  {
    forall i, j :: 0 <= i < j < |s| ==> Key(s[i], time) >= Key(s[j], time)
  }

  /** Inserts `x` into a newest-first list after every element that is not
      older than it. */
  function InsertDesc(x: Article, s: seq<Article>, time: string -> int): seq<Article>
  {
    if s == [] then [x]
    else if Key(s[|s| - 1], time) >= Key(x, time) then s + [x]
    else InsertDesc(x, s[..|s| - 1], time) + [s[|s| - 1]]
  }

  /** The stable newest-first sort of `s` (insertion sort), which is what
      `Array.prototype.sort` with comparator `db - da` produces. */
  function SortDesc(s: seq<Article>, time: string -> int): seq<Article>
  {
    if s == [] then [] else InsertDesc(s[|s| - 1], SortDesc(s[..|s| - 1], time), time)
  }

  lemma {:induction false} InsertDescPerm(x: Article, s: seq<Article>, time: string -> int)
    ensures multiset(InsertDesc(x, s, time)) == multiset(s) + multiset{x}
  {
    if s != [] && Key(s[|s| - 1], time) < Key(x, time) {
      InsertDescPerm(x, s[..|s| - 1], time);
      assert s == s[..|s| - 1] + [s[|s| - 1]];
    }
  }

  lemma {:induction false} InsertDescSorted(x: Article, s: seq<Article>, time: string -> int)
    requires SortedByTime(s, time)
    ensures SortedByTime(InsertDesc(x, s, time), time)
  {
    if s != [] && Key(s[|s| - 1], time) < Key(x, time) {
      var init, last := s[..|s| - 1], s[|s| - 1];
      InsertDescSorted(x, init, time);
      InsertDescPerm(x, init, time);
      var t := InsertDesc(x, init, time);
      forall i | 0 <= i < |t| ensures Key(t[i], time) >= Key(last, time) {
        assert t[i] in multiset(init) + multiset{x};
        if t[i] != x {
          assert t[i] in init;
        }
      }
    }
  }

  /** The elements of `s` whose key is `v`, in order. */
  function WithKey(s: seq<Article>, v: int, time: string -> int): seq<Article>
  {
    if s == [] then []
    else WithKey(s[..|s| - 1], v, time) + (if Key(s[|s| - 1], time) == v then [s[|s| - 1]] else [])
  }

  /** The key-`v` subsequence of `s + [x]`. */
  lemma WithKeySnoc(s: seq<Article>, x: Article, v: int, time: string -> int)
    ensures WithKey(s + [x], v, time) == WithKey(s, v, time) + (if Key(x, time) == v then [x] else [])
  {
    assert (s + [x])[..|s|] == s;
  }

  /** Moving an older `last` behind `x` does not reorder equal keys: at most
      one of the two has key `v`. */
  lemma StableShift(x: Article, t: seq<Article>, init: seq<Article>, last: Article, v: int, time: string -> int)
    requires Key(last, time) < Key(x, time)
    requires WithKey(t, v, time) == WithKey(init, v, time) + (if Key(x, time) == v then [x] else [])
    ensures WithKey(t + [last], v, time) == WithKey(init + [last], v, time) + (if Key(x, time) == v then [x] else [])
  {
    WithKeySnoc(t, last, v, time);
    WithKeySnoc(init, last, v, time);
    var w := WithKey(init, v, time);
    if Key(x, time) == v {
      EmptyRight(WithKey(t, v, time));
      EmptyRight(w);
    } else {
      EmptyRight(w);
      EmptyRight(w + (if Key(last, time) == v then [last] else []));
    }
  }

  lemma {:induction false} InsertDescStable(x: Article, s: seq<Article>, v: int, time: string -> int)
    ensures WithKey(InsertDesc(x, s, time), v, time)
         == WithKey(s, v, time) + (if Key(x, time) == v then [x] else [])
  {
    if s == [] {
      WithKeySnoc([], x, v, time);
    } else if Key(s[|s| - 1], time) >= Key(x, time) {
      WithKeySnoc(s, x, v, time);
    } else {
      var init, last := s[..|s| - 1], s[|s| - 1];
      InsertDescStable(x, init, v, time);
      assert s == init + [last];
      StableShift(x, InsertDesc(x, init, time), init, last, v, time);
    }
  }

  lemma {:induction false} SortDescSorted(s: seq<Article>, time: string -> int)
    ensures SortedByTime(SortDesc(s, time), time)
  {
    if s != [] {
      SortDescSorted(s[..|s| - 1], time);
      InsertDescSorted(s[|s| - 1], SortDesc(s[..|s| - 1], time), time);
    }
  }

  lemma {:induction false} SortDescPerm(s: seq<Article>, time: string -> int)
    ensures multiset(SortDesc(s, time)) == multiset(s)
  {
    if s != [] {
      var init, last := s[..|s| - 1], s[|s| - 1];
      SortDescPerm(init, time);
      InsertDescPerm(last, SortDesc(init, time), time);
      MultisetSnoc(s);
    }
  }

  lemma {:induction false} SortDescStable(s: seq<Article>, v: int, time: string -> int)
    ensures WithKey(SortDesc(s, time), v, time) == WithKey(s, v, time)
  {
    if s != [] {
      var init, last := s[..|s| - 1], s[|s| - 1];
      SortDescStable(init, v, time);
      InsertDescStable(last, SortDesc(init, time), v, time);
    }
  }

  /** The sort is a newest-first permutation that keeps the input order of
      articles with equal time stamps. */
  lemma SortDescSpec(s: seq<Article>, time: string -> int)
    ensures SortedByTime(SortDesc(s, time), time)
    ensures multiset(SortDesc(s, time)) == multiset(s)
    ensures forall v :: WithKey(SortDesc(s, time), v, time) == WithKey(s, v, time)
  {
    SortDescSorted(s, time);
    SortDescPerm(s, time);
    forall v ensures WithKey(SortDesc(s, time), v, time) == WithKey(s, v, time) {
      SortDescStable(s, v, time);
    }
  }

  /** Placing `x` at position `j` of `s` is inserting it, when everything from
      `j` on is older than `x` and the element before `j` is not. */
  lemma {:induction false} InsertDescAt(x: Article, s: seq<Article>, j: nat, time: string -> int)
    requires j <= |s|
    requires forall k :: j <= k < |s| ==> Key(s[k], time) < Key(x, time)
    requires j > 0 ==> Key(s[j - 1], time) >= Key(x, time)
    ensures InsertDesc(x, s, time) == s[..j] + [x] + s[j..]
    decreases |s|
  {
    if j < |s| {
      var init, last := s[..|s| - 1], s[|s| - 1];
      InsertDescAt(x, init, j, time);
      SnocSlices(s, j);
      Associative(s[..j] + [x], init[j..], [last]);
    } else if s != [] {
      assert s[..j] == s;
    }
  }

  /** The loop of one insertion step: moves `a[i]` up past the strictly
      older elements before it by adjacent swaps, and returns where it
      stopped. */
  method SiftUp(a: array<Article>, i: nat, time: string -> int) returns (j: nat)
    requires i < a.Length
    modifies a
    ensures j <= i
    ensures forall k :: 0 <= k < j ==> a[k] == old(a[k])
    ensures a[j] == old(a[i])
    ensures forall k :: j < k <= i ==> a[k] == old(a[k - 1])
    ensures forall k :: i < k < a.Length ==> a[k] == old(a[k])
    ensures forall k :: j <= k < i ==> Key(old(a[k]), time) < Key(old(a[i]), time)
    ensures j > 0 ==> Key(old(a[j - 1]), time) >= Key(old(a[i]), time)
  {
    j := i;
    while j > 0 && Key(a[j - 1], time) < Key(a[j], time)
      invariant 0 <= j <= i
      invariant forall k :: 0 <= k < j ==> a[k] == old(a[k])
      invariant a[j] == old(a[i])
      invariant forall k :: j < k <= i ==> a[k] == old(a[k - 1])
      invariant forall k :: i < k < a.Length ==> a[k] == old(a[k])
      invariant forall k :: j <= k < i ==> Key(old(a[k]), time) < Key(old(a[i]), time)
    {
      Swap(a, j);
      j := j - 1;
    }
  }

  /** Exchanges `a[j - 1]` and `a[j]`. */
  method Swap(a: array<Article>, j: nat)
    requires 0 < j < a.Length
    modifies a
    ensures a[j - 1] == old(a[j]) && a[j] == old(a[j - 1])
    ensures forall k :: 0 <= k < a.Length && k != j - 1 && k != j ==> a[k] == old(a[k])
  {
    a[j - 1], a[j] := a[j], a[j - 1];
  }

  /** One insertion step: `a[..i + 1]` becomes the sorted prefix with
      `a[i]` inserted, and the rest of the array is left alone. */
  method InsertStep(a: array<Article>, i: nat, time: string -> int)
    requires i < a.Length
    modifies a
    ensures a[..i + 1] == InsertDesc(old(a[i]), old(a[..i]), time)
    ensures a[i + 1..] == old(a[i + 1..])
  {
    ghost var done, x, rest := a[..i], a[i], a[i + 1..];
    var j := SiftUp(a, i, time);
    InsertDescAt(x, done, j, time);
    Placed(a[..i + 1], done, x, j);
    assert a[i + 1..] == rest;
  }

  /** A sequence that agrees with `done` before `j`, holds `x` at `j` and
      `done` shifted by one after it is `done` with `x` placed at `j`. */
  lemma Placed<T>(b: seq<T>, done: seq<T>, x: T, j: nat)
    requires j <= |done| && |b| == |done| + 1
    requires forall k :: 0 <= k < j ==> b[k] == done[k]
    requires b[j] == x
    requires forall k :: j < k < |b| ==> b[k] == done[k - 1]
    ensures b == done[..j] + [x] + done[j..]
  {
  }

  /** `articles.sort(...)` in place, as an insertion sort. */
  method SortByTime(a: array<Article>, time: string -> int)
    modifies a
    ensures a[..] == SortDesc(old(a[..]), time)
  {
    ghost var orig := a[..];
    var i := 0;
    while i < a.Length
      invariant 0 <= i <= a.Length
      invariant a[..i] == SortDesc(orig[..i], time)
      invariant a[i..] == orig[i..]
    {
      ghost var before := a[..];
      InsertStep(a, i, time);
      SortStep(orig, before, a[..], i, time);
      i := i + 1;
    }
    assert orig[..a.Length] == orig;
  }

  /** The array after one more insertion step is sorted one element further. */
  lemma SortStep(orig: seq<Article>, before: seq<Article>, after: seq<Article>, i: nat, time: string -> int)
    requires i < |orig| == |before| == |after|
    requires before[..i] == SortDesc(orig[..i], time) && before[i..] == orig[i..]
    requires after[..i + 1] == InsertDesc(before[i], before[..i], time)
    requires after[i + 1..] == before[i + 1..]
    ensures after[..i + 1] == SortDesc(orig[..i + 1], time)
    ensures after[i + 1..] == orig[i + 1..]
  {
    assert before[i] == before[i..][0] == orig[i..][0] == orig[i];
    assert before[i + 1..] == before[i..][1..];
    assert orig[i + 1..] == orig[i..][1..];
    assert orig[..i + 1][..i] == orig[..i];
  }

  /** `arr.slice(0, end)` leaves this many elements of `n`; a negative end
      counts from the back. */
  function SliceEnd(n: nat, end: int): (k: nat)
    ensures k <= n
    ensures 0 <= end ==> k == if end < n then end else n
  {
    if end < 0 then (if n + end < 0 then 0 else n + end)
    else if end > n then n else end
  }

  /** What `fetchAllFeeds` returns. */
  function FetchAll(feeds: seq<Feed>, fetch: Feed -> FeedResponse, time: string -> int, maxArticles: int): seq<Article>
  {
    var sorted := SortDesc(Merged(feeds, fetch), time);
    sorted[..SliceEnd(|sorted|, maxArticles)]
  }

  /** The result is a newest-first prefix of a permutation of every feed's
      items: its length is `min(total, maxArticles)` for a non-negative
      maximum and every element is a fetched item. */
  lemma FetchAllSpec(feeds: seq<Feed>, fetch: Feed -> FeedResponse, time: string -> int, maxArticles: int)
    ensures var r := FetchAll(feeds, fetch, time, maxArticles);
      && |r| == SliceEnd(|Merged(feeds, fetch)|, maxArticles)
      && SortedByTime(r, time)
      && multiset(r) <= multiset(Merged(feeds, fetch))
      && (forall a :: a in r ==> a in Merged(feeds, fetch))
  {
    var all := Merged(feeds, fetch);
    var sorted := SortDesc(all, time);
    SortDescSorted(all, time);
    SortDescPerm(all, time);
    var n := SliceEnd(|sorted|, maxArticles);
    PrefixSorted(sorted, n, time);
    PrefixCounted(sorted, n);
    forall a | a in sorted[..n] ensures a in all {
      assert a in multiset(sorted);
    }
  }

  lemma PrefixSorted(s: seq<Article>, n: nat, time: string -> int)
    requires n <= |s| && SortedByTime(s, time)
    ensures SortedByTime(s[..n], time)
  {
  }

  lemma PrefixCounted<T>(s: seq<T>, n: nat)
    requires n <= |s|
    ensures multiset(s[..n]) <= multiset(s)
  {
    assert s == s[..n] + s[n..];
  }

  /** `fetchAllFeeds(feeds, maxArticles = 50)`, with the feeds fetched one
      after the other. */
  method FetchAllFeeds(feeds: seq<Feed>, fetch: Feed -> FeedResponse, time: string -> int, maxArticles: int := 50)
    returns (r: seq<Article>)
    ensures r == FetchAll(feeds, fetch, time, maxArticles)
  {
    var all := Merged(feeds, fetch);
    var arr := new Article[|all|](i requires 0 <= i < |all| => all[i]);
    assert arr[..] == all;
    SortByTime(arr, time);
    r := arr[..SliceEnd(arr.Length, maxArticles)];
  }
}
