/** `getBasicStats` (src/services/stats/basicStats.ts): how many videos were
    watched since a date, over how many channels, and the first and last
    watch since then. */
module BasicStats {
  import opened Wrappers
  import opened Tally
  import opened Store

  datatype DateRange = DateRange(earliest: Option<int>, latest: Option<int>)

  datatype Basic = Basic(totalVideos: nat, uniqueChannels: nat, dateRange: DateRange)

  /** `_min: { watchedAt: true }`: null over no rows. */
  function Earliest(ws: seq<Watch>): (r: Option<int>)
    ensures r.None? <==> |ws| == 0
    ensures r.Some? ==> exists i | 0 <= i < |ws| :: ws[i].watchedAt == r.value
    ensures r.Some? ==> forall i | 0 <= i < |ws| :: r.value <= ws[i].watchedAt
  {
    if |ws| == 0 then None
    else
      var w := ws[|ws|-1];
      var rest := Earliest(ws[..|ws|-1]);
      if rest.Some? && rest.value <= w.watchedAt then
        var i :| 0 <= i < |ws| - 1 && ws[..|ws|-1][i].watchedAt == rest.value;
        assert ws[i].watchedAt == rest.value;
        rest
      else
        assert ws[|ws|-1].watchedAt == w.watchedAt;
        Some(w.watchedAt)
  }

  /** `_max: { watchedAt: true }`: null over no rows. */
  function Latest(ws: seq<Watch>): (r: Option<int>)
    ensures r.None? <==> |ws| == 0
    ensures r.Some? ==> exists i | 0 <= i < |ws| :: ws[i].watchedAt == r.value
    ensures r.Some? ==> forall i | 0 <= i < |ws| :: ws[i].watchedAt <= r.value
  {
    if |ws| == 0 then None
    else
      var w := ws[|ws|-1];
      var rest := Latest(ws[..|ws|-1]);
      if rest.Some? && rest.value >= w.watchedAt then
        var i :| 0 <= i < |ws| - 1 && ws[..|ws|-1][i].watchedAt == rest.value;
        assert ws[i].watchedAt == rest.value;
        rest
      else
        assert ws[|ws|-1].watchedAt == w.watchedAt;
        Some(w.watchedAt)
  }

  /** The first and last watch at or after `minDate`; both null exactly
      when there is none. */
  function DateRangeSince(db: Db, minDate: int): (r: DateRange)
    ensures r.earliest.None? <==> r.latest.None?
    ensures r.earliest.None? <==> forall w :: w in db.watches ==> w.watchedAt < minDate
    ensures r.earliest.Some? ==> minDate <= r.earliest.value <= r.latest.value
    ensures r.earliest.Some? ==>
      forall w :: w in db.watches && w.watchedAt >= minDate ==> r.earliest.value <= w.watchedAt <= r.latest.value
    ensures r.earliest.Some? ==>
      (exists w :: w in db.watches && w.watchedAt == r.earliest.value) &&
      (exists w :: w in db.watches && w.watchedAt == r.latest.value)
  {
    var ws := Since(db.watches, minDate);
    var r := DateRange(Earliest(ws), Latest(ws));
    RangeFacts(db, minDate, ws, r);
    r
  }

  lemma RangeFacts(db: Db, minDate: int, ws: seq<Watch>, r: DateRange)
    requires ws == Since(db.watches, minDate) && r == DateRange(Earliest(ws), Latest(ws))
    ensures r.earliest.None? <==> forall w :: w in db.watches ==> w.watchedAt < minDate
    ensures r.earliest.Some? ==>
      forall w :: w in db.watches && w.watchedAt >= minDate ==> r.earliest.value <= w.watchedAt <= r.latest.value
    ensures r.earliest.Some? ==>
      (exists w :: w in db.watches && w.watchedAt == r.earliest.value) &&
      (exists w :: w in db.watches && w.watchedAt == r.latest.value)
    ensures r.earliest.Some? ==> minDate <= r.earliest.value
  {
    if |ws| > 0 {
      assert ws[0] in ws;
      var i :| 0 <= i < |ws| && ws[i].watchedAt == r.earliest.value;
      var j :| 0 <= j < |ws| && ws[j].watchedAt == r.latest.value;
      assert ws[i] in ws && ws[j] in ws;
      forall w | w in db.watches && w.watchedAt >= minDate
        ensures r.earliest.value <= w.watchedAt <= r.latest.value
      {
        assert w in ws;
        var k :| 0 <= k < |ws| && ws[k] == w;
      }
    } else {
      forall w | w in db.watches ensures w.watchedAt < minDate {
        assert w !in ws;
      }
    }
  }

  function ChannelOf(v: Video): Option<string> {
    v.channelId
  }

  /** `groupBy: ['channelId']` over the watch-scoped videos; a null channel
      is one group like any other. */
  function ChannelGroups(db: Db, minDate: int): Table<Option<string>> {
    Group(Scoped(db, minDate), ChannelOf, Once)
  }

  /** The number of distinct channel ids, null included, among the
      watch-scoped videos. */
  function UniqueChannels(db: Db, minDate: int): (n: nat)
    ensures n == |KeysOf(Scoped(db, minDate), ChannelOf)|
    ensures n <= |Scoped(db, minDate)|
  {
    var g := ChannelGroups(db, minDate);
    KeySetSize(g);
    GroupKeySet(Scoped(db, minDate), ChannelOf, Once);
    |g|
  }

  function GetBasicStats(db: Db, minDate: int): (r: Basic)
    ensures r.totalVideos == |Scoped(db, minDate)| <= |db.videos|
    ensures r.uniqueChannels == |KeysOf(Scoped(db, minDate), ChannelOf)|
    ensures r.uniqueChannels <= r.totalVideos
    ensures r.dateRange == DateRangeSince(db, minDate)
  {
    Basic(|Scoped(db, minDate)|, UniqueChannels(db, minDate), DateRangeSince(db, minDate))
  }

  /** Moving the date later never increases the video count. */
  lemma TotalVideosMonotone(db: Db, minDate: int, later: int)
    requires minDate <= later
    ensures GetBasicStats(db, later).totalVideos <= GetBasicStats(db, minDate).totalVideos
  {
    ScopedLater(db, minDate, later);
  }
}
