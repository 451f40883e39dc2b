/** The seen-item store: the `articles` table keyed by the hash of an
    article's link, behind a lazily opened, closable handle. The table is a
    map from `hashUrl(url)` to its row; `hashUrl` (MD5 in the source) is a
    function the store is built with and nothing is assumed about it. */
module Storage {
  import opened Types

  /** One row of the table; `createdAt` is the insertion time stamp and
      `analysisJson` is `None` where the source stores the JSON `null`. */
  datatype Row = Row(url: string, title: string, feedName: string, matchedTopic: string,
                     analysisJson: Option<Analysis>, createdAt: int)

  const SecondsPerDay := 86400

  /** `isProcessed`: the table has a row under the link's hash. */
  predicate Seen(rows: map<string, Row>, hashUrl: string -> string, url: string)
  {
    hashUrl(url) in rows
  }

  /** `filterNew`: the articles whose link is not in the table, in order. */
  function Unseen(rows: map<string, Row>, hashUrl: string -> string, arts: seq<Article>): seq<Article>
  {
    if arts == [] then []
    else (if Seen(rows, hashUrl, arts[0].link) then [] else [arts[0]]) + Unseen(rows, hashUrl, arts[1..])
  }

  /** The filter distributes over concatenation: it keeps input order. */
  lemma {:induction false} UnseenAppend(rows: map<string, Row>, hashUrl: string -> string, a: seq<Article>, b: seq<Article>)
    ensures Unseen(rows, hashUrl, a + b) == Unseen(rows, hashUrl, a) + Unseen(rows, hashUrl, b)
  {
    if a == [] {
      assert a + b == b;
    } else {
      assert (a + b)[0] == a[0] && (a + b)[1..] == a[1..] + b;
      UnseenAppend(rows, hashUrl, a[1..], b);
    }
  }

  /** An article survives the filter exactly when its link is unseen. */
  lemma {:induction false} UnseenMembers(rows: map<string, Row>, hashUrl: string -> string, arts: seq<Article>)
    ensures forall a :: a in Unseen(rows, hashUrl, arts) <==> a in arts && !Seen(rows, hashUrl, a.link)
    ensures |Unseen(rows, hashUrl, arts)| <= |arts|
  {
    if arts != [] {
      UnseenMembers(rows, hashUrl, arts[1..]);
      assert arts == [arts[0]] + arts[1..];
    }
  }

  /** Nothing is new once every link has been seen, and conversely. */
  lemma {:induction false} UnseenEmpty(rows: map<string, Row>, hashUrl: string -> string, arts: seq<Article>)
    ensures Unseen(rows, hashUrl, arts) == [] <==> forall a :: a in arts ==> Seen(rows, hashUrl, a.link)
  {
    UnseenMembers(rows, hashUrl, arts);
    if Unseen(rows, hashUrl, arts) != [] {
      assert Unseen(rows, hashUrl, arts)[0] in Unseen(rows, hashUrl, arts);
    }
  }

  /** `article.matchedTopic?.name || ''`. */
  function TopicName(topic: Option<Topic>): string
  {
    match topic
    case Some(t) => t.name
    case None => ""
  }

  /** The table after `INSERT OR IGNORE` of the article's row: a present
      hash leaves the table as it is; otherwise exactly one row is added,
      carrying the article's fields and the topic's name ('' with no topic).
      Existing rows are never updated and the link is seen afterwards. */
  function Inserted(rows: map<string, Row>, hashUrl: string -> string, a: Article, topic: Option<Topic>,
                    analysis: Option<Analysis>, now: int): (r: map<string, Row>)
    ensures Seen(r, hashUrl, a.link)
    ensures hashUrl(a.link) in rows ==> r == rows
    ensures hashUrl(a.link) !in rows ==>
      && r.Keys == rows.Keys + {hashUrl(a.link)}
      && |r| == |rows| + 1
      && r[hashUrl(a.link)] == Row(a.link, a.title, a.feedName,
                                   if topic.Some? then topic.value.name else "", analysis, now)
    ensures forall k :: k in rows ==> k in r && r[k] == rows[k]
  {
    var h := hashUrl(a.link);
    if h in rows then rows
    else rows[h := Row(a.link, a.title, a.feedName, TopicName(topic), analysis, now)]
  }

  /** The first insert wins: marking the same link again, with anything,
      changes nothing. */
  lemma InsertedTwice(rows: map<string, Row>, hashUrl: string -> string, a: Article, b: Article,
                      t1: Option<Topic>, t2: Option<Topic>, x1: Option<Analysis>, x2: Option<Analysis>, n1: int, n2: int)
    requires a.link == b.link
    ensures var once := Inserted(rows, hashUrl, a, t1, x1, n1);
      Inserted(once, hashUrl, b, t2, x2, n2) == once
  {
  }

  /** The keys of rows created within the window, i.e. at or after `since`. */
  function Window(rows: map<string, Row>, since: int): set<string>
  {
    set k | k in rows && rows[k].createdAt >= since
  }

  /** Row `k` of `s` was created no earlier than any other row of `s`. */
  ghost predicate IsNewest(rows: map<string, Row>, s: set<string>, k: string)
    requires s <= rows.Keys
  {
    k in s && forall k' :: k' in s ==> rows[k'].createdAt <= rows[k].createdAt
  }

  lemma NewestExists(rows: map<string, Row>, s: set<string>)
    requires s != {} && s <= rows.Keys
    ensures exists k :: IsNewest(rows, s, k)
  {
    var x :| x in s;
    if s == {x} {
      assert IsNewest(rows, s, x);
    } else {
      var rest := s - {x};
      NewestExists(rows, rest);
      var m :| IsNewest(rows, rest, m);
      if rows[x].createdAt > rows[m].createdAt {
        assert IsNewest(rows, s, x);
      } else {
        assert IsNewest(rows, s, m);
      }
    }
  }

  /** The state of the selection loop: `r` are the rows of the distinct
      `keys`, newest first, taken from the window `w` and no older than any
      row still `pending`; every key of the window is taken or pending. */
  ghost predicate Drawn(rows: map<string, Row>, w: set<string>, pending: set<string>, r: seq<Row>, keys: seq<string>)
  {
    && w <= rows.Keys && pending <= w
    && |keys| == |r| && |keys| + |pending| == |w|
    && (forall i :: 0 <= i < |keys| ==> keys[i] in w && keys[i] !in pending && rows[keys[i]] == r[i])
    && (forall k :: k in w ==> k in pending || k in keys)
    && (forall i, j :: 0 <= i < j < |keys| ==> keys[i] != keys[j])
    && (forall i, j :: 0 <= i < j < |r| ==> r[i].createdAt >= r[j].createdAt)
    && (forall k, i :: k in pending && 0 <= i < |r| ==> rows[k].createdAt <= r[i].createdAt)
  }

  /** Taking the newest pending row keeps the loop state. */
  lemma DrawStep(rows: map<string, Row>, w: set<string>, pending: set<string>, r: seq<Row>, keys: seq<string>, k: string)
    requires Drawn(rows, w, pending, r, keys)
    requires IsNewest(rows, pending, k)
    ensures Drawn(rows, w, pending - {k}, r + [rows[k]], keys + [k])
  {
    var r', keys', pending' := r + [rows[k]], keys + [k], pending - {k};
    assert |pending'| == |pending| - 1;
    forall i | 0 <= i < |keys'|
      ensures keys'[i] in w && keys'[i] !in pending' && rows[keys'[i]] == r'[i]
    {
      if i < |keys| {
        assert keys'[i] == keys[i] && r'[i] == r[i];
      }
    }
    forall i, j | 0 <= i < j < |keys'| ensures keys'[i] != keys'[j] {
      if j < |keys| {
        assert keys'[i] == keys[i] && keys'[j] == keys[j];
      } else {
        assert keys'[i] == keys[i] && keys[i] !in pending;
      }
    }
    forall i, j | 0 <= i < j < |r'| ensures r'[i].createdAt >= r'[j].createdAt {
      if j < |r| {
        assert r'[i] == r[i] && r'[j] == r[j];
      } else {
        assert r'[i] == r[i];
      }
    }
  }

  /** `SELECT … WHERE created_at >= since ORDER BY created_at DESC LIMIT limit`.
      A negative limit is SQLite's "no limit". The ghost `keys` name the
      rows returned. */
  method SelectHistory(rows: map<string, Row>, since: int, limit: int) returns (r: seq<Row>, ghost keys: seq<string>)
    ensures |keys| == |r|
    ensures forall i :: 0 <= i < |r| ==> keys[i] in Window(rows, since) && rows[keys[i]] == r[i]
    ensures forall i :: 0 <= i < |r| ==> r[i].createdAt >= since
    ensures forall i, j :: 0 <= i < j < |keys| ==> keys[i] != keys[j]
    ensures forall i, j :: 0 <= i < j < |r| ==> r[i].createdAt >= r[j].createdAt
    ensures |r| == if 0 <= limit < |Window(rows, since)| then limit else |Window(rows, since)|
    ensures forall k, i :: k in Window(rows, since) && k !in keys && 0 <= i < |r| ==> rows[k].createdAt <= r[i].createdAt
  {
    var w := Window(rows, since);
    var pending := w;
    r, keys := [], [];
    while pending != {} && (limit < 0 || |r| < limit)
      invariant Drawn(rows, w, pending, r, keys)
      invariant limit >= 0 ==> |r| <= limit
      decreases |pending|
    {
      NewestExists(rows, pending);
      var k :| k in pending && forall k' :: k' in pending ==> rows[k'].createdAt <= rows[k].createdAt;
      DrawStep(rows, w, pending, r, keys, k);
      r, keys := r + [rows[k]], keys + [k];
      pending := pending - {k};
    }
  }

  class Store {
    const hashUrl: string -> string
    /** The table's contents; they outlive the handle. */
    var rows: map<string, Row>
    /** Whether the module-level handle `db` is open. */
    var open: bool

    /** A store over a database file holding `persisted`, not yet opened. */
    constructor (hashUrl: string -> string, persisted: map<string, Row>)
      ensures this.hashUrl == hashUrl && rows == persisted && !open
    {
      this.hashUrl := hashUrl;
      rows := persisted;
      open := false;
    }

    predicate Processed(url: string)
      reads this
    {
      Seen(rows, hashUrl, url)
    }

    /** `getDb`: opens the handle on first use and reuses it afterwards;
        the table's rows are untouched (`CREATE TABLE IF NOT EXISTS`). */
    method GetDb()
      modifies this`open
      ensures open
    {
      if !open {
        open := true;
      }
    }

    /** `isProcessed`. */
    method IsProcessed(url: string) returns (b: bool)
      modifies this`open
      ensures open
      ensures b == Processed(url)
    {
      GetDb();
      b := hashUrl(url) in rows;
    }

    /** `filterNew`: one `isProcessed` query per article, so the handle is
        opened only when there is an article to ask about. */
    method FilterNew(arts: seq<Article>) returns (r: seq<Article>)
      modifies this`open
      ensures arts != [] ==> open
      ensures arts == [] ==> open == old(open)
      ensures r == Unseen(rows, hashUrl, arts)
    {
      r := [];
      var i := 0;
      while i < |arts|
        invariant 0 <= i <= |arts|
        invariant r == Unseen(rows, hashUrl, arts[..i])
        invariant i > 0 ==> open
        invariant i == 0 ==> open == old(open)
      {
        var seen := IsProcessed(arts[i].link);
        UnseenAppend(rows, hashUrl, arts[..i], [arts[i]]);
        assert arts[..i + 1] == arts[..i] + [arts[i]];
        if !seen {
          r := r + [arts[i]];
        }
        i := i + 1;
      }
      assert arts[..i] == arts;
    }

    /** `markProcessed`: `INSERT OR IGNORE` stamped with the database clock `now`. */
    method MarkProcessed(a: Article, topic: Option<Topic>, analysis: Option<Analysis>, now: int)
      modifies this
      ensures open
      ensures rows == Inserted(old(rows), hashUrl, a, topic, analysis, now)
    {
      GetDb();
      var h := hashUrl(a.link);
      if h !in rows {
        rows := rows[h := Row(a.link, a.title, a.feedName, TopicName(topic), analysis, now)];
      }
    }

    /** `getHistory(days = 7, limit = 50)`: the newest rows of the last
        `days` days before `now`, newest first, each once, at most `limit`
        of them; no row of the window left out is newer than one returned.
        The ghost `keys` name the rows returned. */
    method GetHistory(now: int, days: nat := 7, limit: int := 50) returns (r: seq<Row>, ghost keys: seq<string>)
      modifies this`open
      ensures open
      ensures |keys| == |r|
      ensures forall i :: 0 <= i < |r| ==> keys[i] in Window(rows, now - days * SecondsPerDay) && rows[keys[i]] == r[i]
      ensures forall i :: 0 <= i < |r| ==> r[i] in rows.Values && r[i].createdAt >= now - days * SecondsPerDay
      ensures forall i, j :: 0 <= i < j < |keys| ==> keys[i] != keys[j]
      ensures forall i, j :: 0 <= i < j < |r| ==> r[i].createdAt >= r[j].createdAt
      ensures |r| == if 0 <= limit < |Window(rows, now - days * SecondsPerDay)| then limit
                     else |Window(rows, now - days * SecondsPerDay)|
      ensures forall k, i :: k in Window(rows, now - days * SecondsPerDay) && k !in keys && 0 <= i < |r| ==>
        rows[k].createdAt <= r[i].createdAt
    {
      GetDb();
      r, keys := SelectHistory(rows, now - days * SecondsPerDay, limit);
      forall i | 0 <= i < |r| ensures r[i] in rows.Values {
        assert rows[keys[i]] == r[i];
      }
    }

    /** `closeDb`: closes an open handle; on a closed one it does nothing,
        so closing twice is the same as closing once. */
    method Close()
      modifies this`open
      ensures !open
    {
      if open {
        open := false;
      }
    }
  }
}
