/** The explorer's listing (`GET /` in src/api/explorer.ts): query
    parameters with defaults, an optional case-insensitive search over title
    and channel title, the matching videos ranked by how often they were
    watched, one page of them, and the page arithmetic. */
module Explorer {
  import opened Wrappers
  import opened Decimal
  import opened Strings
  import opened Ranking
  import opened Store

  // ---------------------------------------------------------------------
  // Parameters.

  /** Empty, or digits with an optional sign in front. */
  predicate SignedDigits(t: string) {
    t == "" || AllDigits(t) || (|t| > 1 && t[0] in "+-" && AllDigits(t[1..]))
  }

  /** `Number(text)` for the integer texts: surrounding whitespace is
      ignored, the empty text is 0, an optionally signed run of digits is its
      value; anything else is NaN (`None`). An absent parameter is NaN too. */
  function JsNumber(q: Option<string>): (r: Option<int>)
    ensures q.None? ==> r.None?
    ensures q.Some? && Strip(q.value) == "" ==> r == Some(0)
    ensures q.Some? && |Strip(q.value)| > 0 && AllDigits(Strip(q.value)) ==> r == Some(Value(Strip(q.value)) as int)
    ensures q.Some? && |Strip(q.value)| > 1 && Strip(q.value)[0] == '+' && AllDigits(Strip(q.value)[1..]) ==>
      r == Some(Value(Strip(q.value)[1..]) as int)
    ensures q.Some? && |Strip(q.value)| > 1 && Strip(q.value)[0] == '-' && AllDigits(Strip(q.value)[1..]) ==>
      r == Some(-(Value(Strip(q.value)[1..]) as int))
    ensures r.Some? ==> q.Some? && SignedDigits(Strip(q.value))
  {
    if q.None? then None
    else
      var t := Strip(q.value);
      if t == "" then Some(0)
      else if t[0] == '+' then
        (if |t| > 1 && AllDigits(t[1..]) then Some(Value(t[1..]) as int) else None)
      else ParseInt(t)
  }

  /** `Number(text) || fallback`: NaN and 0 are falsy. */
  function NumberOr(q: Option<string>, fallback: int): (r: int)
    ensures JsNumber(q).None? ==> r == fallback
    ensures JsNumber(q) == Some(0) ==> r == fallback
    ensures JsNumber(q).Some? && JsNumber(q).value != 0 ==> r == JsNumber(q).value
    ensures fallback != 0 ==> r != 0
  {
    match JsNumber(q)
    case None => fallback
    case Some(n) => if n == 0 then fallback else n
  }

  const DefaultPage: int := 0
  const DefaultPageSize: int := 25

  /** An absent, empty, non-numeric or zero parameter takes the default. */
  lemma ParameterDefaults(q: Option<string>)
    requires q.None? || Strip(q.value) == "" || JsNumber(q).None? || JsNumber(q) == Some(0)
    ensures NumberOr(q, DefaultPage) == 0
    ensures NumberOr(q, DefaultPageSize) == 25
  {
  }

  /** A page number written in decimal is read as that number. */
  lemma ParameterReadsShow(n: nat)
    requires n > 0
    ensures NumberOr(Some(Show(n)), DefaultPageSize) == n
  {
    var s := Show(n);
    StripNoSpace(s);
  }

  /** A run of digits is its own strip. */
  lemma StripNoSpace(s: string)
    requires AllDigits(s)
    ensures Strip(s) == s
  {
    if |s| > 0 {
      assert IsDigit(s[0]) && IsDigit(s[|s|-1]);
      assert LeadingSpace(s) == 0 && TrailingSpace(s) == 0;
      assert s[0..|s|] == s;
    }
  }

  // ---------------------------------------------------------------------
  // Search.

  /** `search ? { OR: [title contains, channelTitle contains] } : undefined`:
      an absent or empty search keeps every video; a NULL channel title
      never matches. */
  predicate Matches(search: Option<string>, v: Video) {
    || search.None?
    || search.value == ""
    || ContainsInsensitive(v.title, search.value)
    || (v.channelTitle.Some? && ContainsInsensitive(v.channelTitle.value, search.value))
  }

  function MatchesBy(search: Option<string>): Video -> bool {
    (v: Video) => Matches(search, v)
  }

  /** The videos the search keeps, in catalog order. */
  function Matching(db: Db, search: Option<string>): (r: seq<Video>)
    ensures |r| <= |db.videos|
    ensures forall v :: v in r <==> v in db.videos && Matches(search, v)
  {
    Filter(db.videos, MatchesBy(search))
  }

  /** Without a search nothing is filtered out. */
  lemma {:induction false} NoSearchKeepsAll(db: Db, search: Option<string>)
    requires search.None? || search.value == ""
    ensures Matching(db, search) == db.videos
  {
    KeepAll(db.videos, MatchesBy(search));
  }

  lemma {:induction false} KeepAll<T(!new)>(xs: seq<T>, p: T -> bool)
    requires forall x :: p(x)
    ensures Filter(xs, p) == xs
  {
    if |xs| > 0 {
      KeepAll(xs[..|xs|-1], p);
      assert xs == xs[..|xs|-1] + [xs[|xs|-1]];
    }
  }

  // ---------------------------------------------------------------------
  // Ranking by watch count.

  function ForVideo(id: string): Watch -> bool {
    (w: Watch) => w.videoId == id
  }

  /** The video's watches, in store order. */
  function WatchesOf(db: Db, v: Video): seq<Watch> {
    Filter(db.watches, ForVideo(v.videoId))
  }

  /** `_count` of the `watches` relation: every watch of the video, whenever
      it was. */
  function WatchCount(db: Db, v: Video): int {
    |WatchesOf(db, v)|
  }

  function WatchCountBy(db: Db): Video -> int {
    (v: Video) => WatchCount(db, v)
  }

  /** The matching videos, most watched first. */
  function Ranked(db: Db, search: Option<string>): (r: seq<Video>)
    ensures multiset(r) == multiset(Matching(db, search))
    ensures SortedBy(r, ByScore(WatchCountBy(db)))
  {
    ByScorePreorder(WatchCountBy(db));
    Sort(Matching(db, search), ByScore(WatchCountBy(db)))
  }

  /** `skip` then `take` on a list: at most `take` elements, starting at
      position `skip`, fewer at the end of the list and none past it. */
  function Window<T>(s: seq<T>, skip: nat, take: nat): (r: seq<T>)
    ensures |r| <= take
    ensures skip >= |s| ==> r == []
    ensures forall i :: 0 <= i < |r| ==> skip + i < |s| && r[i] == s[skip + i]
    ensures skip + take <= |s| ==> |r| == take
    ensures skip <= |s| ==> |r| == Min(take, |s| - skip)
  {
    var lo := if skip <= |s| then skip else |s|;
    var hi := if skip + take <= |s| then skip + take else |s|;
    s[lo..hi]
  }

  // ---------------------------------------------------------------------
  // Rows.

  /** A listed video: the selected columns, the view count as decimal text
      (null when absent), and the timestamps of its watches. */
  datatype Row = Row(
    videoId: string,
    title: string,
    categoryId: Option<string>,
    tags: seq<string>,
    viewCount: Option<string>,
    duration: Option<string>,
    channelTitle: Option<string>,
    wasLivestream: Option<bool>,
    watches: seq<int>)

  function WatchTimes(ws: seq<Watch>): (r: seq<int>)
    ensures |r| == |ws| && forall i :: 0 <= i < |ws| ==> r[i] == ws[i].watchedAt
  {
    seq(|ws|, i requires 0 <= i < |ws| => ws[i].watchedAt)
  }

  /** `viewCount?.toString() || null`: a decimal text is never empty, so
      every present count, 0 included, is shown. */
  function ShowViews(n: Option<nat>): (r: Option<string>)
    ensures r.None? <==> n.None?
    ensures n.Some? ==> ParseInt(r.value) == Some(n.value as int) && |r.value| > 0
  {
    match n
    case None => None
    case Some(c) =>
      ParseShow(c);
      Some(Show(c))
  }

  function RowOf(db: Db, v: Video): (r: Row)
    ensures r.videoId == v.videoId && r.title == v.title && r.categoryId == v.categoryId
    ensures r.tags == v.tags && r.duration == v.duration && r.channelTitle == v.channelTitle
    ensures r.wasLivestream == v.wasLivestream
    ensures r.viewCount.None? <==> v.viewCount.None?
    ensures v.viewCount.Some? ==> ParseInt(r.viewCount.value) == Some(v.viewCount.value as int)
    ensures |r.watches| == WatchCount(db, v)
    ensures forall i :: 0 <= i < |r.watches| ==> r.watches[i] == WatchesOf(db, v)[i].watchedAt
    ensures forall t :: t in r.watches <==> exists w :: w in db.watches && w.videoId == v.videoId && w.watchedAt == t
  {
    WatchTimesOf(db, v);
    Row(v.videoId, v.title, v.categoryId, v.tags, ShowViews(v.viewCount), v.duration,
        v.channelTitle, v.wasLivestream, WatchTimes(WatchesOf(db, v)))
  }

  /** The times listed are exactly those of the video's watches. */
  lemma WatchTimesOf(db: Db, v: Video)
    ensures forall t :: t in WatchTimes(WatchesOf(db, v)) <==>
      exists w :: w in db.watches && w.videoId == v.videoId && w.watchedAt == t
  {
    var ws := WatchesOf(db, v);
    var ts := WatchTimes(ws);
    forall t ensures t in ts <==> exists w :: w in db.watches && w.videoId == v.videoId && w.watchedAt == t {
      if t in ts {
        var i :| 0 <= i < |ts| && ts[i] == t;
        assert ws[i] in ws;
      }
      if exists w :: w in db.watches && w.videoId == v.videoId && w.watchedAt == t {
        var w :| w in db.watches && w.videoId == v.videoId && w.watchedAt == t;
        assert ForVideo(v.videoId)(w);
        assert w in ws;
        var i :| 0 <= i < |ws| && ws[i] == w;
        assert ts[i] == t;
      }
    }
  }

  function RowsOf(db: Db, vs: seq<Video>): (r: seq<Row>)
    ensures |r| == |vs| && forall i :: 0 <= i < |vs| ==> r[i] == RowOf(db, vs[i])
  {
    seq(|vs|, i requires 0 <= i < |vs| => RowOf(db, vs[i]))
  }

  // ---------------------------------------------------------------------
  // The handler.

  /** `Math.ceil(total / pageSize)` for a positive page size. */
  function PageCount(total: nat, pageSize: int): (n: nat)
    requires pageSize > 0
    ensures n * pageSize >= total
    ensures total > 0 ==> (n - 1) * pageSize < total
    ensures total == 0 <==> n == 0
  {
    var n := (total + pageSize - 1) / pageSize;
    CeilBounds(total, pageSize, n);
    n
  }

  lemma CeilBounds(total: nat, size: int, n: int)
    requires size > 0 && n == (total + size - 1) / size
    ensures n >= 0 && n * size >= total
    ensures total > 0 ==> (n - 1) * size < total
    ensures total == 0 <==> n == 0
  {
    var m := total + size - 1;
    var q, rem := m / size, m % size;
    assert m == q * size + rem && 0 <= rem < size;
    assert n == q;
    assert n * size == m - rem;
  }

  datatype Meta = Meta(total: nat, page: int, pageSize: int, pageCount: nat)

  datatype Listing = Listing(data: seq<Row>, meta: Meta)

  /** Why the store refuses the query: a negative `skip`, or a negative
      `take`, whose backwards reading is not part of this model. */
  datatype ListingError = NegativeSkip | NegativeTake

  datatype Query = Query(page: Option<string>, pageSize: Option<string>, search: Option<string>)

  /** One page of the listing: the meta data describes the matching
      videos, and the rows are at most a page of them, most watched first,
      none past the last page. */
  ghost predicate IsPage(db: Db, search: Option<string>, page: int, size: int, l: Listing) {
    && l.meta.total == |Matching(db, search)|
    && l.meta.page == page && l.meta.pageSize == size
    && |l.data| <= size
    && (0 <= page * size <= l.meta.total ==> |l.data| == Min(size, l.meta.total - page * size))
    && (page >= l.meta.pageCount ==> l.data == [])
    && (forall i :: 0 <= i < |l.data| ==>
          exists v :: v in db.videos && Matches(search, v) && l.data[i] == RowOf(db, v))
    && (forall i, j :: 0 <= i < j < |l.data| ==> |l.data[i].watches| >= |l.data[j].watches|)
  }

  /** `count`, `findMany` with `skip: page * pageSize, take: pageSize` and the
      serialised rows. */
  function PageOf(db: Db, search: Option<string>, page: int, size: int): (l: Listing)
    requires size > 0 && page * size >= 0
    ensures IsPage(db, search, page, size, l)
    ensures l.meta.pageCount == PageCount(|Matching(db, search)|, size)
    ensures l.data == RowsOf(db, Window(Ranked(db, search), page * size, size))
  {
    var ranked := Ranked(db, search);
    var total := |Matching(db, search)|;
    var count := PageCount(total, size);
    var skip: nat := page * size;
    var shown := Window(ranked, skip, size);
    var data := RowsOf(db, shown);
    PastLastPage(page, size, count, total);
    ListingFacts(db, search, skip, size, ranked, shown, data);
    Listing(data, Meta(total, page, size, count))
  }

  /** The handler: the store refuses a negative `take` or `skip`, otherwise
      the page the parameters ask for. */
  function List(db: Db, q: Query): (r: Result<Listing, ListingError>)
    ensures var page, size := NumberOr(q.page, DefaultPage), NumberOr(q.pageSize, DefaultPageSize);
      && (r.Failure? <==> size < 0 || page * size < 0)
      && (r.Success? ==> IsPage(db, q.search, page, size, r.value))
      && (r.Success? ==> r.value.data == RowsOf(db, Window(Ranked(db, q.search), page * size, size)))
  {
    var page := NumberOr(q.page, DefaultPage);
    var size := NumberOr(q.pageSize, DefaultPageSize);
    if size < 0 then Failure(NegativeTake)
    else if page * size < 0 then Failure(NegativeSkip)
    else Success(PageOf(db, q.search, page, size))
  }

  /** A page at or past the page count starts past the last element. */
  lemma PastLastPage(page: int, size: int, count: nat, total: nat)
    requires size > 0 && count * size >= total
    ensures page >= count ==> page * size >= total
  {
    if page >= count {
      assert page * size >= count * size;
    }
  }

  lemma ListingFacts(db: Db, search: Option<string>, skip: nat, size: int,
                     ranked: seq<Video>, shown: seq<Video>, data: seq<Row>)
    requires size > 0
    requires ranked == Ranked(db, search)
    requires shown == Window(ranked, skip, size)
    requires data == RowsOf(db, shown)
    ensures skip >= |Matching(db, search)| ==> data == []
    ensures skip <= |Matching(db, search)| ==> |data| == Min(size, |Matching(db, search)| - skip)
    ensures forall i :: 0 <= i < |data| ==> exists v :: v in db.videos && Matches(search, v) && data[i] == RowOf(db, v)
    ensures forall i, j :: 0 <= i < j < |data| ==> |data[i].watches| >= |data[j].watches|
  {
    RankedLength(db, search);
    ListingMembers(db, search, skip, size, ranked, shown, data);
    ListingOrder(db, search, skip, size, ranked, shown, data);
  }

  lemma RankedLength(db: Db, search: Option<string>)
    ensures |Ranked(db, search)| == |Matching(db, search)|
  {
    assert |multiset(Ranked(db, search))| == |multiset(Matching(db, search))|;
  }

  lemma ListingMembers(db: Db, search: Option<string>, skip: nat, size: int,
                       ranked: seq<Video>, shown: seq<Video>, data: seq<Row>)
    requires size > 0
    requires ranked == Ranked(db, search)
    requires shown == Window(ranked, skip, size)
    requires data == RowsOf(db, shown)
    ensures forall i :: 0 <= i < |data| ==> exists v :: v in db.videos && Matches(search, v) && data[i] == RowOf(db, v)
  {
    forall i | 0 <= i < |data| ensures exists v :: v in db.videos && Matches(search, v) && data[i] == RowOf(db, v) {
      assert shown[i] == ranked[skip + i];
      RankedMember(db, search, skip + i);
    }
  }

  lemma ListingOrder(db: Db, search: Option<string>, skip: nat, size: int,
                     ranked: seq<Video>, shown: seq<Video>, data: seq<Row>)
    requires size > 0
    requires ranked == Ranked(db, search)
    requires shown == Window(ranked, skip, size)
    requires data == RowsOf(db, shown)
    ensures forall i, j :: 0 <= i < j < |data| ==> |data[i].watches| >= |data[j].watches|
  {
    forall i, j | 0 <= i < j < |data| ensures |data[i].watches| >= |data[j].watches| {
      assert shown[i] == ranked[skip + i] && shown[j] == ranked[skip + j];
      RankedOrder(db, search, skip + i, skip + j);
    }
  }

  /** A ranked video is a matching video of the catalog. */
  lemma RankedMember(db: Db, search: Option<string>, k: nat)
    requires k < |Ranked(db, search)|
    ensures Ranked(db, search)[k] in db.videos && Matches(search, Ranked(db, search)[k])
  {
    assert Ranked(db, search)[k] in multiset(Matching(db, search));
  }

  /** An earlier ranked video has at least as many watches. */
  lemma RankedOrder(db: Db, search: Option<string>, a: nat, b: nat)
    requires a < b < |Ranked(db, search)|
    ensures WatchCount(db, Ranked(db, search)[a]) >= WatchCount(db, Ranked(db, search)[b])
  {
    assert ByScore(WatchCountBy(db))(Ranked(db, search)[a], Ranked(db, search)[b]);
  }

  /** Every ranked video appears on exactly the page its position says: the
      pages, in order, list the ranking without gaps or repeats. */
  lemma PagesCover(db: Db, search: Option<string>, size: int, k: nat)
    requires size > 0 && k < |Ranked(db, search)|
    ensures k % size < |Window(Ranked(db, search), PageStart(k, size), size)|
    ensures Window(Ranked(db, search), PageStart(k, size), size)[k % size] == Ranked(db, search)[k]
  {
    PagePosition(k, size);
    WindowAt(Ranked(db, search), PageStart(k, size), size, k % size);
  }

  lemma WindowAt<T>(s: seq<T>, skip: nat, take: nat, off: nat)
    requires skip + off < |s| && off < take
    ensures off < |Window(s, skip, take)| && Window(s, skip, take)[off] == s[skip + off]
  {
  }

  /** The first position of the page holding position `k`. */
  function PageStart(k: nat, size: int): nat
    requires size > 0
  {
    PagePosition(k, size);
    (k / size) * size
  }

  lemma PagePosition(k: nat, size: int)
    requires size > 0
    ensures 0 <= (k / size) * size <= k
    ensures (k / size) * size + k % size == k && k % size < size
  {
  }
}
