/** The `watchesByYear` reduction of `getTimeStats`
    (src/services/stats/timeStats.ts): the store groups the watches since a
    date by exact timestamp, and the reduction adds the group counts up per
    calendar year. The calendar is a parameter `year` from a timestamp to
    its year, standing for `getFullYear` in the process's time zone. */
module TimeStats {
  import opened Tally
  import opened Store

  function WatchedAt(w: Watch): int {
    w.watchedAt
  }

  /** `groupBy: ['watchedAt'], _count: true` over the watches since
      `minDate`, one row per timestamp in the order the store first meets
      it; the query's ascending `orderBy` on the timestamp is left out. */
  function ByTimestamp(db: Db, minDate: int): Table<int> {
    Group(Since(db.watches, minDate), WatchedAt, Once)
  }

  /** The year of a watch. */
  function YearOfWatch(year: int -> int): Watch -> int {
    Compose(WatchedAt, year)
  }

  /** The reduce: for each timestamp group, `acc[year] += _count`. Every year
      that has a watch since `minDate` is a key, no other year is, and its
      value is the number of those watches in that year; the values add up
      to the number of watches since `minDate`. */
  function WatchesByYear(db: Db, minDate: int, year: int -> int): (r: Table<int>)
    ensures DistinctKeys(r)
    ensures forall y :: y in Keys(r) <==> Occurs(Since(db.watches, minDate), YearOfWatch(year), y)
    ensures forall y :: Get(r, y) == SumWhere(Since(db.watches, minDate), YearOfWatch(year), Once, y)
    ensures Total(r) == |Since(db.watches, minDate)|
  {
    var ws := Since(db.watches, minDate);
    var t := ByTimestamp(db, minDate);
    var r := Group(t, Outer(year), Second);
    YearFacts(ws, year, t, r);
    r
  }

  lemma YearFacts(ws: seq<Watch>, year: int -> int, t: Table<int>, r: Table<int>)
    requires t == Group(ws, WatchedAt, Once) && r == Group(t, Outer(year), Second)
    ensures forall y :: y in Keys(r) <==> Occurs(ws, YearOfWatch(year), y)
    ensures forall y :: Get(r, y) == SumWhere(ws, YearOfWatch(year), Once, y)
    ensures Total(r) == |ws|
  {
    forall y ensures Get(r, y) == SumWhere(ws, YearOfWatch(year), Once, y) {
      RegroupSum(ws, WatchedAt, Once, year, y);
    }
    forall y ensures y in Keys(r) <==> Occurs(ws, YearOfWatch(year), y) {
      RegroupOccurs(ws, WatchedAt, Once, year, y);
    }
    SumAllSecond(t);
    SumAllOnes(ws, Once);
  }

  /** Grouping by timestamp first and then by year gives what grouping
      every watch by its year directly gives. */
  lemma TwoStageIsDirect(db: Db, minDate: int, year: int -> int)
    ensures forall y ::
      Get(WatchesByYear(db, minDate, year), y) == Get(Group(Since(db.watches, minDate), YearOfWatch(year), Once), y)
    ensures forall y ::
      y in Keys(WatchesByYear(db, minDate, year)) <==> y in Keys(Group(Since(db.watches, minDate), YearOfWatch(year), Once))
  {
  }

  /** Only years that have a watch appear, so no year counts 0. */
  lemma YearCountsPositive(db: Db, minDate: int, year: int -> int)
    ensures forall i :: 0 <= i < |WatchesByYear(db, minDate, year)| ==> WatchesByYear(db, minDate, year)[i].1 >= 1
  {
    var ws := Since(db.watches, minDate);
    var r := WatchesByYear(db, minDate, year);
    forall i | 0 <= i < |r| ensures r[i].1 >= 1 {
      assert r[i].0 in Keys(r);
      var j :| 0 <= j < |ws| && YearOfWatch(year)(ws[j]) == r[i].0;
      SumWherePositive(ws, YearOfWatch(year), Once, j);
      GetAt(r, i);
    }
  }

  /** With a calendar that never runs backwards, no year is earlier than the
      year of `minDate`. */
  lemma NoYearBeforeCutoff(db: Db, minDate: int, year: int -> int)
    requires forall a, b :: a <= b ==> year(a) <= year(b)
    ensures forall y :: y in Keys(WatchesByYear(db, minDate, year)) ==> y >= year(minDate)
  {
    var ws := Since(db.watches, minDate);
    forall y | y in Keys(WatchesByYear(db, minDate, year)) ensures y >= year(minDate) {
      var j :| 0 <= j < |ws| && YearOfWatch(year)(ws[j]) == y;
      assert ws[j] in ws;
    }
  }
}
