/** The data store as plain sequences: the `videos` table and the
    `watch_history` table, with the filters every stats query shares.
    A video is "watch-scoped" for a date when some watch of it happened at
    or after that date (`watches: { some: { watchedAt: { gte: minDate } } }`).
    Timestamps are milliseconds since the epoch. */
module Store {
  import opened Wrappers
  import Duration

  datatype Video = Video(
    videoId: string,
    title: string,
    channelId: Option<string>,
    channelTitle: Option<string>,
    categoryId: Option<string>,
    /** ISO 8601 duration text such as "PT4M13S". */
    duration: Option<string>,
    viewCount: Option<nat>,
    likeCount: Option<nat>,
    commentCount: Option<nat>,
    /** Scalar lists are never NULL in the store; absence is the empty list. */
    tags: seq<string>,
    topicCategories: seq<string>,
    hasPaidProductPlacement: Option<bool>,
    licensedContent: Option<bool>,
    wasLivestream: Option<bool>,
    privacyStatus: Option<string>)

  datatype Watch = Watch(videoId: string, watchedAt: int)

  datatype Db = Db(videos: seq<Video>, watches: seq<Watch>)

  /** The elements of `xs` that satisfy `p`, in order: a `where` clause. */
  function Filter<T(!new)>(xs: seq<T>, p: T -> bool): (r: seq<T>)
    ensures |r| <= |xs|
    ensures forall i :: 0 <= i < |r| ==> p(r[i])
    ensures forall x :: x in r <==> x in xs && p(x)
  {
    if |xs| == 0 then []
    else
      var init, x := xs[..|xs|-1], xs[|xs|-1];
      assert xs == init + [x];
      Filter(init, p) + (if p(x) then [x] else [])
  }

  /** `f` lists, in increasing order, positions of `xs` holding the
      elements of `r` one by one, and includes every position whose element
      satisfies `p`: `r` is the subsequence of `xs` that `p` selects. */
  ghost predicate Selects<T>(xs: seq<T>, p: T -> bool, r: seq<T>, f: seq<nat>) {
    && |f| == |r|
    && (forall i :: 0 <= i < |f| ==> f[i] < |xs| && r[i] == xs[f[i]])
    && (forall i, j :: 0 <= i < j < |f| ==> f[i] < f[j])
    && (forall k :: 0 <= k < |xs| && p(xs[k]) ==> k in f)
  }

  /** A filter keeps the order of what it keeps and drops nothing that
      satisfies the predicate. */
  lemma {:induction false} FilterOrder<T(!new)>(xs: seq<T>, p: T -> bool)
    ensures exists f :: Selects(xs, p, Filter(xs, p), f)
  {
    if |xs| == 0 {
      assert Selects(xs, p, Filter(xs, p), []);
    } else {
      var init, x := xs[..|xs|-1], xs[|xs|-1];
      FilterOrder(init, p);
      var f :| Selects(init, p, Filter(init, p), f);
      if p(x) {
        FilterOrderKeep(xs, p, f);
      } else {
        FilterOrderDrop(xs, p, f);
      }
    }
  }

  lemma FilterOrderKeep<T(!new)>(xs: seq<T>, p: T -> bool, f: seq<nat>)
    requires |xs| > 0 && p(xs[|xs|-1])
    requires Selects(xs[..|xs|-1], p, Filter(xs[..|xs|-1], p), f)
    ensures Selects(xs, p, Filter(xs, p), f + [|xs| - 1])
  {
    KeepPositions(xs, p, f);
    KeepIncreasing(xs, p, f);
    KeepCovers(xs, p, f);
  }

  lemma KeepPositions<T(!new)>(xs: seq<T>, p: T -> bool, f: seq<nat>)
    requires |xs| > 0 && p(xs[|xs|-1])
    requires Selects(xs[..|xs|-1], p, Filter(xs[..|xs|-1], p), f)
    ensures var g := f + [|xs| - 1];
      |g| == |Filter(xs, p)| && forall i :: 0 <= i < |g| ==> g[i] < |xs| && Filter(xs, p)[i] == xs[g[i]]
  {
    var init, r := xs[..|xs|-1], Filter(xs, p);
    var g := f + [|xs| - 1];
    assert r == Filter(init, p) + [xs[|xs|-1]];
    forall i | 0 <= i < |g| ensures g[i] < |xs| && r[i] == xs[g[i]] {
      if i < |f| {
        assert g[i] == f[i];
        assert init[f[i]] == xs[f[i]];
      }
    }
  }

  lemma KeepIncreasing<T(!new)>(xs: seq<T>, p: T -> bool, f: seq<nat>)
    requires |xs| > 0
    requires Selects(xs[..|xs|-1], p, Filter(xs[..|xs|-1], p), f)
    ensures var g := f + [|xs| - 1]; forall i, j :: 0 <= i < j < |g| ==> g[i] < g[j]
  {
    var init, g := xs[..|xs|-1], f + [|xs| - 1];
    forall i, j | 0 <= i < j < |g| ensures g[i] < g[j] {
      assert g[i] == f[i] && f[i] < |init|;
      if j < |f| {
        assert g[j] == f[j] && f[i] < f[j];
      } else {
        assert j == |f| && |init| == |xs| - 1;
        assert g[|f|] == |xs| - 1;
      }
    }
  }

  lemma KeepCovers<T(!new)>(xs: seq<T>, p: T -> bool, f: seq<nat>)
    requires |xs| > 0
    requires Selects(xs[..|xs|-1], p, Filter(xs[..|xs|-1], p), f)
    ensures var g := f + [|xs| - 1]; forall k :: 0 <= k < |xs| && p(xs[k]) ==> k in g
  {
    var init, g := xs[..|xs|-1], f + [|xs| - 1];
    forall k | 0 <= k < |xs| && p(xs[k]) ensures k in g {
      if k < |xs| - 1 {
        assert init[k] == xs[k];
        assert p(init[k]);
        var i :| 0 <= i < |f| && f[i] == k;
        assert g[i] == k;
      } else {
        assert g[|f|] == k;
      }
    }
  }

  lemma FilterOrderDrop<T(!new)>(xs: seq<T>, p: T -> bool, f: seq<nat>)
    requires |xs| > 0 && !p(xs[|xs|-1])
    requires Selects(xs[..|xs|-1], p, Filter(xs[..|xs|-1], p), f)
    ensures Selects(xs, p, Filter(xs, p), f)
  {
    var init := xs[..|xs|-1];
    assert Filter(xs, p) == Filter(init, p);
    forall i | 0 <= i < |f| ensures f[i] < |xs| && Filter(xs, p)[i] == xs[f[i]] {
      assert init[f[i]] == xs[f[i]];
    }
    forall k | 0 <= k < |xs| && p(xs[k]) ensures k in f {
      assert k < |xs| - 1;
      assert init[k] == xs[k];
      assert p(init[k]);
    }
  }

  /** A weaker filter keeps at least as many elements. */
  lemma {:induction false} FilterWeaker<T(!new)>(xs: seq<T>, p: T -> bool, q: T -> bool)
    requires forall x :: p(x) ==> q(x)
    ensures |Filter(xs, p)| <= |Filter(xs, q)|
  {
    if |xs| > 0 {
      FilterWeaker(xs[..|xs|-1], p, q);
    }
  }

  /** Filters that agree on every element select the same elements. */
  lemma {:induction false} FilterSame<T(!new)>(xs: seq<T>, p: T -> bool, q: T -> bool)
    requires forall x :: p(x) == q(x)
    ensures Filter(xs, p) == Filter(xs, q)
  {
    if |xs| > 0 {
      FilterSame(xs[..|xs|-1], p, q);
    }
  }

  /** A predicate and its complement split a sequence. */
  lemma {:induction false} FilterComplement<T(!new)>(xs: seq<T>, p: T -> bool, q: T -> bool)
    requires forall x :: q(x) == !p(x)
    ensures |Filter(xs, p)| + |Filter(xs, q)| == |xs|
  {
    if |xs| > 0 {
      FilterComplement(xs[..|xs|-1], p, q);
    }
  }

  /** Three predicates of which exactly one holds on every element split a
      sequence: the `COUNT(*) FILTER` breakdowns into true / false / NULL. */
  lemma {:induction false} FilterPartition<T(!new)>(xs: seq<T>, p: T -> bool, q: T -> bool, r: T -> bool)
    requires forall x :: (if p(x) then 1 else 0) + (if q(x) then 1 else 0) + (if r(x) then 1 else 0) == 1
    ensures |Filter(xs, p)| + |Filter(xs, q)| + |Filter(xs, r)| == |xs|
  {
    if |xs| > 0 {
      FilterPartition(xs[..|xs|-1], p, q, r);
    }
  }

  /** Some watch of `v` happened at or after `minDate`. */
  predicate WatchedSince(db: Db, v: Video, minDate: int) {
    exists i | 0 <= i < |db.watches| :: db.watches[i].videoId == v.videoId && db.watches[i].watchedAt >= minDate
  }

  function ScopedBy(db: Db, minDate: int): Video -> bool {
    (v: Video) => WatchedSince(db, v, minDate)
  }

  /** The watch-scoped videos, in catalog order. */
  function Scoped(db: Db, minDate: int): (r: seq<Video>)
    ensures |r| <= |db.videos|
    ensures forall v :: v in r <==> v in db.videos && WatchedSince(db, v, minDate)
  {
    Filter(db.videos, ScopedBy(db, minDate))
  }

  /** Moving the date later never scopes more videos. */
  lemma ScopedLater(db: Db, minDate: int, later: int)
    requires minDate <= later
    ensures |Scoped(db, later)| <= |Scoped(db, minDate)|
  {
    forall v ensures ScopedBy(db, later)(v) ==> ScopedBy(db, minDate)(v) {
      if WatchedSince(db, v, later) {
        var i :| 0 <= i < |db.watches| && db.watches[i].videoId == v.videoId && db.watches[i].watchedAt >= later;
      }
    }
    FilterWeaker(db.videos, ScopedBy(db, later), ScopedBy(db, minDate));
  }

  function SinceBy(minDate: int): Watch -> bool {
    (w: Watch) => w.watchedAt >= minDate
  }

  /** The watches at or after `minDate`: `where: { watchedAt: { gte: minDate } }`. */
  function Since(ws: seq<Watch>, minDate: int): (r: seq<Watch>)
    ensures forall w :: w in r <==> w in ws && w.watchedAt >= minDate
  {
    Filter(ws, SinceBy(minDate))
  }

  /** The store-side length of a video in seconds; a missing duration
      counts as 0 in sums. */
  function StoredSeconds(v: Video): nat {
    if v.duration.Some? then Duration.Parse(v.duration.value) else 0
  }

  /** The weight of `_count`: every row counts once. */
  function Once<T>(x: T): nat {
    1
  }
}
