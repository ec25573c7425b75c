/** The `/stats` handler (src/api/stats.ts), the live path of the stats
    page: five queries over everything watched since 2017-01-01. */
module StatsRoute {
  import opened Wrappers
  import opened Tally
  import opened Ranking
  import opened Store
  import opened GroupBy
  import opened BasicStats
  import opened ChannelStats
  import opened TimeStats

  /** `new Date('2017-01-01')`: a date-only text is read as midnight UTC. */
  const Cutoff: int := 1483228800000

  datatype Stats = Stats(
    totalVideos: nat,
    uniqueChannels: nat,
    topChannels: Table<Option<string>>,
    watchesByYear: Table<int>,
    dateRange: DateRange)

  // ---------------------------------------------------------------------
  // `Object.entries` of the `Record<number, number>` built by the reduce.

  /** A key that is an array index is listed before every other key, in
      ascending numeric order; other keys follow in insertion order. */
  predicate IsIndexKey(y: int) {
    0 <= y < 0xFFFF_FFFF
  }

  /** Smaller key first. */
  function KeyAscending(a: (int, nat), b: (int, nat)): bool {
    a.0 <= b.0
  }

  lemma KeyAscendingPreorder()
    ensures TotalPreorder(KeyAscending)
  {
  }

  predicate AllIndex(s: Table<int>) {
    forall i :: 0 <= i < |s| ==> IsIndexKey(s[i].0)
  }

  predicate NoIndex(s: Table<int>) {
    forall i :: 0 <= i < |s| ==> !IsIndexKey(s[i].0)
  }

  /** The index-keyed entries and the other entries, each in table order. */
  function SplitIndex(t: Table<int>): (r: (Table<int>, Table<int>))
    ensures AllIndex(r.0) && NoIndex(r.1)
  {
    if |t| == 0 then ([], [])
    else
      var rest := SplitIndex(t[1..]);
      if IsIndexKey(t[0].0) then
        var a := [t[0]] + rest.0;
        assert forall i :: 1 <= i < |a| ==> a[i] == rest.0[i-1];
        (a, rest.1)
      else
        var b := [t[0]] + rest.1;
        assert forall i :: 1 <= i < |b| ==> b[i] == rest.1[i-1];
        (rest.0, b)
  }

  /** Splitting loses and adds no entry. */
  lemma {:induction false} SplitIndexMultiset(t: Table<int>)
    ensures multiset(SplitIndex(t).0) + multiset(SplitIndex(t).1) == multiset(t)
  {
    if |t| > 0 {
      var rest := SplitIndex(t[1..]);
      SplitIndexMultiset(t[1..]);
      assert t == [t[0]] + t[1..];
      if IsIndexKey(t[0].0) {
        assert SplitIndex(t) == ([t[0]] + rest.0, rest.1);
      } else {
        assert SplitIndex(t) == (rest.0, [t[0]] + rest.1);
      }
    }
  }

  /** The entries of a table in `Object.entries` order: the same entries,
      index keys first and ascending, the rest after them. */
  function ObjectEntries(t: Table<int>): (r: Table<int>)
    ensures multiset(r) == multiset(t)
    ensures forall i, j :: 0 <= i < j < |r| && IsIndexKey(r[j].0) ==> IsIndexKey(r[i].0) && r[i].0 <= r[j].0
  {
    KeyAscendingPreorder();
    var parts := SplitIndex(t);
    var idx := Sort(parts.0, KeyAscending);
    var rest := parts.1;
    EntriesFacts(t, parts, idx);
    idx + rest
  }

  lemma EntriesFacts(t: Table<int>, parts: (Table<int>, Table<int>), idx: Table<int>)
    requires parts == SplitIndex(t)
    requires TotalPreorder(KeyAscending) && idx == Sort(parts.0, KeyAscending)
    ensures multiset(idx + parts.1) == multiset(t)
    ensures forall i, j :: 0 <= i < j < |idx + parts.1| && IsIndexKey((idx + parts.1)[j].0) ==>
      IsIndexKey((idx + parts.1)[i].0) && (idx + parts.1)[i].0 <= (idx + parts.1)[j].0
  {
    SplitIndexMultiset(t);
    var f := parts.0;
    forall i | 0 <= i < |idx| ensures IsIndexKey(idx[i].0) {
      assert idx[i] in multiset(f);
      var j :| 0 <= j < |f| && f[j] == idx[i];
    }
    EntriesOrder(idx, parts.1);
  }

  lemma EntriesOrder(idx: Table<int>, rest: Table<int>)
    requires SortedBy(idx, KeyAscending)
    requires AllIndex(idx) && NoIndex(rest)
    ensures forall i, j :: 0 <= i < j < |idx + rest| && IsIndexKey((idx + rest)[j].0) ==>
      IsIndexKey((idx + rest)[i].0) && (idx + rest)[i].0 <= (idx + rest)[j].0
  {
    var r := idx + rest;
    assert forall k :: |idx| <= k < |r| ==> !IsIndexKey(r[k].0) by {
      forall k | |idx| <= k < |r| ensures !IsIndexKey(r[k].0) {
        assert r[k] == rest[k - |idx|];
      }
    }
    forall i, j | 0 <= i < j < |r| && IsIndexKey(r[j].0)
      ensures IsIndexKey(r[i].0) && r[i].0 <= r[j].0
    {
      assert j < |idx|;
      assert r[j] == idx[j];
      assert r[i] == idx[i];
    }
  }

  /** A reordering of a table with distinct keys keeps the keys distinct,
      keeps every key's total and keeps the sum. */
  lemma Reordered(t: Table<int>, r: Table<int>)
    requires DistinctKeys(t) && multiset(r) == multiset(t)
    ensures DistinctKeys(r)
    ensures forall i :: 0 <= i < |r| ==> r[i].1 == Get(t, r[i].0)
    ensures forall k :: k in Keys(r) <==> k in Keys(t)
    ensures Total(r) == Total(t)
  {
    SubTableKeys(r, t);
    TotalPermutation(r, t);
    forall i | 0 <= i < |r| ensures r[i].1 == Get(t, r[i].0) {
      assert r[i] in multiset(t);
      var j :| 0 <= j < |t| && t[j] == r[i];
      GetAt(t, j);
    }
    forall k ensures k in Keys(r) <==> k in Keys(t) {
      if k in Keys(r) {
        var i :| 0 <= i < |r| && Keys(r)[i] == k;
        assert r[i] in multiset(t);
        var j :| 0 <= j < |t| && t[j] == r[i];
        assert Keys(t)[j] == k;
      }
      if k in Keys(t) {
        var j :| 0 <= j < |t| && Keys(t)[j] == k;
        assert t[j] in multiset(r);
        var i :| 0 <= i < |r| && r[i] == t[j];
        assert Keys(r)[i] == k;
      }
    }
  }

  // ---------------------------------------------------------------------
  // The handler.

  /** The `{ _key, _count }` list: one element per year that has a watch
      since the cutoff, its count that year's number of watches, the counts
      adding up to all watches since the cutoff. */
  function YearList(db: Db, year: int -> int): (r: Table<int>)
    ensures DistinctKeys(r)
    ensures forall y :: y in Keys(r) <==> Occurs(Since(db.watches, Cutoff), YearOfWatch(year), y)
    ensures forall i :: 0 <= i < |r| ==> r[i].1 == SumWhere(Since(db.watches, Cutoff), YearOfWatch(year), Once, r[i].0)
    ensures Total(r) == |Since(db.watches, Cutoff)|
    ensures forall i, j :: 0 <= i < j < |r| && IsIndexKey(r[j].0) ==> IsIndexKey(r[i].0) && r[i].0 < r[j].0
  {
    var t := WatchesByYear(db, Cutoff, year);
    var r := ObjectEntries(t);
    Reordered(t, r);
    r
  }

  /** Years from 0 on are listed in strictly ascending order. */
  lemma YearListAscending(db: Db, year: int -> int)
    requires forall i :: 0 <= i < |YearList(db, year)| ==> IsIndexKey(YearList(db, year)[i].0)
    ensures forall i, j :: 0 <= i < j < |YearList(db, year)| ==> YearList(db, year)[i].0 < YearList(db, year)[j].0
  {
  }

  function GetStats(db: Db, year: int -> int): (r: Stats)
    ensures r.totalVideos == |Scoped(db, Cutoff)|
    ensures r.uniqueChannels == |KeysOf(Scoped(db, Cutoff), ChannelOf)| <= r.totalVideos
    ensures RankedTop(Scoped(db, Cutoff), TitleOf, Once, 20, r.topChannels)
    ensures Total(r.watchesByYear) == |Since(db.watches, Cutoff)|
    ensures r.dateRange.earliest.None? <==> r.dateRange.latest.None?
    ensures r.dateRange.earliest.Some? ==> Cutoff <= r.dateRange.earliest.value <= r.dateRange.latest.value
  {
    Stats(
      |Scoped(db, Cutoff)|,
      UniqueChannels(db, Cutoff),
      TopByCount(db, Cutoff),
      YearList(db, year),
      DateRangeSince(db, Cutoff))
  }
}
