/** `getChannelStats` (src/services/stats/channelStats.ts): three rankings
    of the watch-scoped videos grouped by channel. */
module ChannelStats {
  import opened Wrappers
  import opened Tally
  import opened Ranking
  import opened Store
  import opened GroupBy

  datatype ChannelStats = ChannelStats(
    topByCount: Table<Option<string>>,
    topByDuration: SumTable,
    topByCategory: Table<(Option<string>, Option<string>)>)

  function TitleOf(v: Video): Option<string> {
    v.channelTitle
  }

  function TitleAndCategoryOf(v: Video): (Option<string>, Option<string>) {
    (v.channelTitle, v.categoryId)
  }

  /** Top 20 channel titles by number of watch-scoped videos. */
  function TopByCount(db: Db, minDate: int): (r: Table<Option<string>>)
    ensures RankedTop(Scoped(db, minDate), TitleOf, Once, 20, r)
    ensures forall i :: 0 <= i < |r| ==> r[i].1 >= 1
  {
    TopGroupsPositive(Scoped(db, minDate), TitleOf, Once, 20);
    TopGroups(Scoped(db, minDate), TitleOf, Once, 20)
  }

  /** A channel's `_sum` of lengths: NULL when none of its videos has a
      length (SQL `SUM` over only NULLs), otherwise the total of the
      lengths present. */
  type SumTable = seq<(Option<string>, Option<nat>)>

  function HasLength(v: Video): nat {
    if v.duration.Some? then 1 else 0
  }

  function ChannelSum(xs: seq<Video>, k: Option<string>): Option<nat> {
    if SumWhere(xs, TitleOf, HasLength, k) > 0 then Some(SumWhere(xs, TitleOf, StoredSeconds, k)) else None
  }

  /** `orderBy: { _sum: { duration: 'desc' } }` on PostgreSQL, where a
      descending order puts NULLs first. */
  function NullsFirst(a: (Option<string>, Option<nat>), b: (Option<string>, Option<nat>)): bool {
    a.1.None? || (b.1.Some? && a.1.value >= b.1.value)
  }

  lemma NullsFirstPreorder()
    ensures TotalPreorder(NullsFirst)
  {
  }

  /** `r` is the top-`n` of the channels of `xs` by `_sum` of length: each
      entry is a channel with its sum, no channel twice, NULL sums first and
      then non-increasing, as many entries as channels up to `n`, and every
      channel left out ranks no higher than the last one kept. */
  ghost predicate RankedSums(xs: seq<Video>, n: nat, r: SumTable) {
    && |r| == Min(n, |Group(xs, TitleOf, Once)|)
    && (n > 0 && |xs| > 0 ==> |r| > 0)
    && DistinctKeys(r)
    && SortedBy(r, NullsFirst)
    && (forall i :: 0 <= i < |r| ==> Occurs(xs, TitleOf, r[i].0) && r[i].1 == ChannelSum(xs, r[i].0))
    && (|r| > 0 ==> forall k :: Occurs(xs, TitleOf, k) && k !in Keys(r) ==> NullsFirst(r[|r|-1], (k, ChannelSum(xs, k))))
  }

  /** Every channel with its `_sum`, in order of first occurrence. */
  function ChannelSums(xs: seq<Video>): (e: SumTable)
    ensures |e| == |Group(xs, TitleOf, Once)| && DistinctKeys(e)
    ensures forall i :: 0 <= i < |e| ==> Occurs(xs, TitleOf, e[i].0) && e[i].1 == ChannelSum(xs, e[i].0)
    ensures forall k :: Occurs(xs, TitleOf, k) ==> (k, ChannelSum(xs, k)) in e
  {
    var g := Group(xs, TitleOf, Once);
    var e := seq(|g|, i requires 0 <= i < |g| => (g[i].0, ChannelSum(xs, g[i].0)));
    ChannelSumsFacts(xs, g, e);
    e
  }

  lemma ChannelSumsFacts(xs: seq<Video>, g: Table<Option<string>>, e: SumTable)
    requires g == Group(xs, TitleOf, Once)
    requires |e| == |g| && forall i :: 0 <= i < |g| ==> e[i] == (g[i].0, ChannelSum(xs, g[i].0))
    ensures DistinctKeys(e)
    ensures forall i :: 0 <= i < |e| ==> Occurs(xs, TitleOf, e[i].0) && e[i].1 == ChannelSum(xs, e[i].0)
    ensures forall k :: Occurs(xs, TitleOf, k) ==> (k, ChannelSum(xs, k)) in e
  {
    SumsOccur(xs, g, e);
    SumsCover(xs, g, e);
  }

  lemma SumsOccur(xs: seq<Video>, g: Table<Option<string>>, e: SumTable)
    requires g == Group(xs, TitleOf, Once)
    requires |e| == |g| && forall i :: 0 <= i < |g| ==> e[i] == (g[i].0, ChannelSum(xs, g[i].0))
    ensures forall i :: 0 <= i < |e| ==> Occurs(xs, TitleOf, e[i].0)
  {
    forall i | 0 <= i < |e| ensures Occurs(xs, TitleOf, e[i].0) {
      assert Keys(g)[i] == g[i].0;
    }
  }

  lemma SumsCover(xs: seq<Video>, g: Table<Option<string>>, e: SumTable)
    requires g == Group(xs, TitleOf, Once)
    requires |e| == |g| && forall i :: 0 <= i < |g| ==> e[i] == (g[i].0, ChannelSum(xs, g[i].0))
    ensures forall k :: Occurs(xs, TitleOf, k) ==> (k, ChannelSum(xs, k)) in e
  {
    forall k | Occurs(xs, TitleOf, k) ensures (k, ChannelSum(xs, k)) in e {
      assert k in Keys(g);
      var i :| 0 <= i < |g| && Keys(g)[i] == k;
      assert e[i] == (k, ChannelSum(xs, k));
    }
  }

  /** Top 20 channel titles by the summed length of their watch-scoped
      videos. Each video adds its length once, however often it was
      watched; a channel none of whose videos has a length sums to NULL and
      ranks first. */
  function TopByDuration(db: Db, minDate: int): (r: SumTable)
    ensures RankedSums(Scoped(db, minDate), 20, r)
  {
    var xs := Scoped(db, minDate);
    NullsFirstPreorder();
    var e := ChannelSums(xs);
    var r := Top(e, NullsFirst, 20);
    TopSumsFacts(xs, e, r);
    r
  }

  lemma TopSumsFacts(xs: seq<Video>, e: SumTable, r: SumTable)
    requires e == ChannelSums(xs)
    requires |r| == Min(20, |e|) && multiset(r) <= multiset(e)
    requires forall x :: x in e && x !in r ==> NullsFirst(r[|r|-1], x)
    ensures |xs| > 0 ==> |r| > 0
    ensures DistinctKeys(r)
    ensures forall i :: 0 <= i < |r| ==> Occurs(xs, TitleOf, r[i].0) && r[i].1 == ChannelSum(xs, r[i].0)
    ensures |r| > 0 ==> forall k :: Occurs(xs, TitleOf, k) && k !in Keys(r) ==> NullsFirst(r[|r|-1], (k, ChannelSum(xs, k)))
  {
    if |xs| > 0 {
      assert Occurs(xs, TitleOf, TitleOf(xs[0]));
      assert (TitleOf(xs[0]), ChannelSum(xs, TitleOf(xs[0]))) in e;
    }
    SubTableKeys(r, e);
    forall i | 0 <= i < |r| ensures Occurs(xs, TitleOf, r[i].0) && r[i].1 == ChannelSum(xs, r[i].0) {
      assert r[i] in multiset(e);
    }
    if |r| > 0 {
      forall k | Occurs(xs, TitleOf, k) && k !in Keys(r) ensures NullsFirst(r[|r|-1], (k, ChannelSum(xs, k))) {
        assert (k, ChannelSum(xs, k)) in e;
      }
    }
  }

  /** A channel's sum is NULL exactly when none of its videos has a
      length. */
  lemma ChannelSumNull(xs: seq<Video>, k: Option<string>)
    ensures ChannelSum(xs, k).None? <==> forall i :: 0 <= i < |xs| && TitleOf(xs[i]) == k ==> xs[i].duration.None?
  {
    if ChannelSum(xs, k).Some? {
      SumWhereWitness(xs, TitleOf, HasLength, k);
    } else {
      forall i | 0 <= i < |xs| && TitleOf(xs[i]) == k ensures xs[i].duration.None? {
        if xs[i].duration.Some? {
          SumWherePositive(xs, TitleOf, HasLength, i);
        }
      }
    }
  }

  /** When some scoped channel has no length at all, the ranking opens with
      a NULL sum. */
  lemma NullChannelFirst(db: Db, minDate: int, k: Option<string>)
    requires Occurs(Scoped(db, minDate), TitleOf, k)
    requires forall i :: 0 <= i < |Scoped(db, minDate)| && TitleOf(Scoped(db, minDate)[i]) == k ==> Scoped(db, minDate)[i].duration.None?
    ensures |TopByDuration(db, minDate)| > 0 && TopByDuration(db, minDate)[0].1.None?
  {
    var xs, r := Scoped(db, minDate), TopByDuration(db, minDate);
    ChannelSumNull(xs, k);
    assert RankedSums(xs, 20, r);
    var j := NullEntry(xs, r, k);
    NullHead(r, j);
  }

  /** A channel with a NULL sum is kept, or else the last kept sum is NULL
      too. */
  lemma NullEntry(xs: seq<Video>, r: SumTable, k: Option<string>) returns (j: nat)
    requires RankedSums(xs, 20, r)
    requires Occurs(xs, TitleOf, k) && ChannelSum(xs, k).None?
    ensures j < |r| && r[j].1.None?
  {
    assert |r| > 0;
    if k in Keys(r) {
      var i :| 0 <= i < |r| && Keys(r)[i] == k;
      j := i;
    } else {
      assert NullsFirst(r[|r|-1], (k, ChannelSum(xs, k)));
      j := |r| - 1;
    }
  }

  /** In NULLs-first order a NULL anywhere means a NULL at the head. */
  lemma NullHead(r: SumTable, j: nat)
    requires SortedBy(r, NullsFirst) && j < |r| && r[j].1.None?
    ensures r[0].1.None?
  {
    if j > 0 {
      assert NullsFirst(r[0], r[j]);
    }
  }

  /** Top 100 (channel title, category) pairs by number of watch-scoped
      videos. */
  function TopByCategory(db: Db, minDate: int): (r: Table<(Option<string>, Option<string>)>)
    ensures RankedTop(Scoped(db, minDate), TitleAndCategoryOf, Once, 100, r)
    ensures forall i :: 0 <= i < |r| ==> r[i].1 >= 1
  {
    TopGroupsPositive(Scoped(db, minDate), TitleAndCategoryOf, Once, 100);
    TopGroups(Scoped(db, minDate), TitleAndCategoryOf, Once, 100)
  }

  function GetChannelStats(db: Db, minDate: int): ChannelStats {
    ChannelStats(TopByCount(db, minDate), TopByDuration(db, minDate), TopByCategory(db, minDate))
  }

  /** A video watched again adds nothing to its channel's duration: the
      duration ranking reads the catalog, not the watch history. */
  lemma DurationIgnoresRewatches(db: Db, minDate: int, w: Watch)
    requires exists v :: v in db.videos && v.videoId == w.videoId && WatchedSince(db, v, minDate)
    requires w.watchedAt >= minDate
    ensures TopByDuration(Db(db.videos, db.watches + [w]), minDate) == TopByDuration(db, minDate)
  {
    var db' := Db(db.videos, db.watches + [w]);
    ScopedRewatch(db, minDate, w);
  }

  /** Adding a watch of a video that is already watch-scoped scopes the
      same videos. */
  lemma ScopedRewatch(db: Db, minDate: int, w: Watch)
    requires exists v :: v in db.videos && v.videoId == w.videoId && WatchedSince(db, v, minDate)
    ensures Scoped(Db(db.videos, db.watches + [w]), minDate) == Scoped(db, minDate)
  {
    var db' := Db(db.videos, db.watches + [w]);
    var v0 :| v0 in db.videos && v0.videoId == w.videoId && WatchedSince(db, v0, minDate);
    forall v ensures ScopedBy(db', minDate)(v) == ScopedBy(db, minDate)(v) {
      if WatchedSince(db, v, minDate) {
        var i :| 0 <= i < |db.watches| && db.watches[i].videoId == v.videoId && db.watches[i].watchedAt >= minDate;
        assert db'.watches[i] == db.watches[i];
      }
      if WatchedSince(db', v, minDate) {
        var i :| 0 <= i < |db'.watches| && db'.watches[i].videoId == v.videoId && db'.watches[i].watchedAt >= minDate;
        if i < |db.watches| {
          assert db.watches[i] == db'.watches[i];
        } else {
          assert v.videoId == v0.videoId;
          var k :| 0 <= k < |db.watches| && db.watches[k].videoId == v0.videoId && db.watches[k].watchedAt >= minDate;
        }
      }
    }
    FilterSame(db.videos, ScopedBy(db', minDate), ScopedBy(db, minDate));
  }
}
