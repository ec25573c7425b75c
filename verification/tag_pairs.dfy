/** `processTagPerformance` (src/api/analytics.ts): for every two tags that
    appear on the same video, how often they do, the views of those videos,
    their average, and the five most viewed such videos; the 20 pairs with
    the best average among those seen more than once. Pairs are keyed by the
    two tags in sorted order (see `Analytics.PairKey`). */
module TagPairs {
  import opened Wrappers
  import opened Ranking
  import opened Store
  import opened Analytics
  import Tally

  type Pair = (string, string)

  /** A video as the insight query hands it over. */
  datatype TaggedVideo = TaggedVideo(title: string, viewCount: Option<nat>, tags: seq<string>)

  /** `video.viewCount || 0` and `Number(video.viewCount) || 0`: a missing
      count is 0. */
  function Views(v: TaggedVideo): nat {
    if v.viewCount.Some? then v.viewCount.value else 0
  }

  /** One iteration of the inner loop: the pair it counts and the video it
      counts for. */
  datatype Occurrence = Occurrence(pair: Pair, title: string, views: nat)

  function OccurrencesOf(v: TaggedVideo): (r: seq<Occurrence>)
    ensures 2 * |r| == |v.tags| * (|v.tags| - 1)
    ensures forall i :: 0 <= i < |r| ==> r[i].title == v.title && r[i].views == Views(v)
  {
    var ps := Pairs(v.tags);
    seq(|ps|, i requires 0 <= i < |ps| => Occurrence(PairKey(ps[i].0, ps[i].1), v.title, Views(v)))
  }

  /** All occurrences, video by video, in loop order. */
  function Occurrences(vs: seq<TaggedVideo>): seq<Occurrence> {
    if |vs| == 0 then [] else Occurrences(vs[..|vs|-1]) + OccurrencesOf(vs[|vs|-1])
  }

  // ---------------------------------------------------------------------
  // The statistics of one pair.

  /** A `{ title, views }` entry. */
  type Shown = (string, nat)

  function ShownViews(e: Shown): int {
    e.1
  }

  datatype PairStats = PairStats(count: nat, totalViews: nat, videos: seq<Shown>)

  const NoStats := PairStats(0, 0, [])

  /** `videos` is what the list shows of `pool`: five of its entries, or
      all of them when fewer, most viewed first, and no entry left out has
      more views than the last one shown. */
  ghost predicate Shows(videos: seq<Shown>, pool: seq<Shown>) {
    && |videos| == Min(5, |pool|)
    && SortedBy(videos, ByScore(ShownViews))
    && multiset(videos) <= multiset(pool)
    && (|videos| > 0 ==> forall x :: x in multiset(pool) - multiset(videos) ==> x.1 <= videos[|videos|-1].1)
  }

  /** The map update for one occurrence: one more, its views added, and the
      video merged into the list, which is re-sorted and cut to five. */
  function Step(e: PairStats, o: Occurrence): (r: PairStats)
    ensures r.count == e.count + 1 && r.totalViews == e.totalViews + o.views
    ensures Shows(r.videos, e.videos + [(o.title, o.views)])
  {
    ByScorePreorder(ShownViews);
    var pool := e.videos + [(o.title, o.views)];
    TopShows(pool);
    PairStats(e.count + 1, e.totalViews + o.views, Top(pool, ByScore(ShownViews), 5))
  }

  /** `.sort((a, b) => b.views - a.views).slice(0, 5)` shows the pool. */
  lemma TopShows(pool: seq<Shown>)
    ensures TotalPreorder(ByScore(ShownViews))
    ensures Shows(Top(pool, ByScore(ShownViews), 5), pool)
  {
    ByScorePreorder(ShownViews);
    var r := Top(pool, ByScore(ShownViews), 5);
    if |r| > 0 {
      var last := r[|r|-1];
      assert forall x :: x in multiset(pool) - multiset(r) ==> ByScore(ShownViews)(last, x);
      forall x | x in multiset(pool) - multiset(r) ensures x.1 <= last.1 {
        assert ByScore(ShownViews)(last, x);
        assert ShownViews(last) >= ShownViews(x);
      }
    }
  }

  function SumViews(os: seq<Occurrence>): nat {
    if |os| == 0 then 0 else SumViews(os[..|os|-1]) + os[|os|-1].views
  }

  function ShownOf(os: seq<Occurrence>): (r: seq<Shown>)
    ensures |r| == |os| && forall i :: 0 <= i < |os| ==> r[i] == (os[i].title, os[i].views)
  {
    seq(|os|, i requires 0 <= i < |os| => (os[i].title, os[i].views))
  }

  /** The statistics after the occurrences `os` of one pair, in order: one
      count per occurrence, their views summed, and at most five of their
      videos, most viewed first. */
  function Accumulate(os: seq<Occurrence>): (r: PairStats)
    ensures r.count == |os|
    ensures r.totalViews == SumViews(os)
    ensures Shows(r.videos, ShownOf(os))
  {
    if |os| == 0 then NoStats
    else
      var prev := Accumulate(os[..|os|-1]);
      var r := Step(prev, os[|os|-1]);
      AccumulateShown(os, prev.videos, r.videos);
      r
  }

  lemma AccumulateShown(os: seq<Occurrence>, before: seq<Shown>, after: seq<Shown>)
    requires |os| > 0
    requires Shows(before, ShownOf(os[..|os|-1]))
    requires Shows(after, before + [(os[|os|-1].title, os[|os|-1].views)])
    ensures Shows(after, ShownOf(os))
  {
    var o := os[|os|-1];
    assert ShownOf(os) == ShownOf(os[..|os|-1]) + [(o.title, o.views)];
    ShowsStep(ShownOf(os[..|os|-1]), before, (o.title, o.views), after);
  }

  /** The five most viewed of the five most viewed of a pool plus one more
      entry are the five most viewed of the pool plus that entry. */
  lemma ShowsStep(pool: seq<Shown>, before: seq<Shown>, y: Shown, after: seq<Shown>)
    requires Shows(before, pool)
    requires Shows(after, before + [y])
    ensures Shows(after, pool + [y])
  {
    assert multiset(pool + [y]) == multiset(pool) + multiset{y};
    assert multiset(before + [y]) == multiset(before) + multiset{y};
    if |before| < 5 {
      SameSizeSubMultiset(before, pool);
    } else {
      LastKeptGrows(before, y, after);
      forall x | x in multiset(pool + [y]) - multiset(after) ensures x.1 <= after[|after|-1].1 {
        if x !in multiset(before + [y]) - multiset(after) {
          assert x in multiset(pool) - multiset(before);
        }
      }
    }
  }

  /** A sub-multiset of the same size is the whole multiset. */
  lemma SameSizeSubMultiset<T>(a: seq<T>, b: seq<T>)
    requires multiset(a) <= multiset(b) && |a| == |b|
    ensures multiset(a) == multiset(b)
  {
    var d := multiset(b) - multiset(a);
    assert multiset(b) == multiset(a) + d;
    assert |multiset(b)| == |multiset(a)| + |d|;
  }

  /** Merging one entry into a full list of five never lowers the views of
      the last one shown. */
  lemma LastKeptGrows(before: seq<Shown>, y: Shown, after: seq<Shown>)
    requires |before| == 5
    requires SortedBy(before, ByScore(ShownViews))
    requires Shows(after, before + [y])
    ensures before[4].1 <= after[4].1
  {
    AllAboveLast(before);
    var z := OneLeftOut(before + [y], after);
    if z == y {
      assert multiset(before + [y]) == multiset(before) + multiset{y};
      assert multiset(after) == multiset(before);
      assert after[4] in multiset(before);
    } else {
      assert z in multiset(before + [y]) - multiset(after);
      assert z in before + [y];
      assert z in before;
    }
  }

  /** A sub-multiset one element shorter leaves out exactly one element. */
  lemma OneLeftOut<T>(a: seq<T>, b: seq<T>) returns (z: T)
    requires multiset(b) <= multiset(a) && |a| == |b| + 1
    ensures multiset(a) == multiset(b) + multiset{z}
  {
    var d := multiset(a) - multiset(b);
    assert multiset(a) == multiset(b) + d;
    assert |multiset(a)| == |multiset(b)| + |d|;
    z :| z in d;
    var e := d - multiset{z};
    assert d == e + multiset{z};
    assert |e| == 0;
  }

  /** Every entry of a list sorted by views has at least the views of the
      last one. */
  lemma AllAboveLast(s: seq<Shown>)
    requires SortedBy(s, ByScore(ShownViews)) && |s| > 0
    ensures forall x :: x in s ==> x.1 >= s[|s|-1].1
  {
    forall x | x in s ensures x.1 >= s[|s|-1].1 {
      var i :| 0 <= i < |s| && s[i] == x;
      if i < |s| - 1 {
        assert ByScore(ShownViews)(s[i], s[|s|-1]);
        assert ShownViews(s[i]) >= ShownViews(s[|s|-1]);
      }
    }
  }

  // ---------------------------------------------------------------------
  // The map from pairs to statistics.

  type PairMap = map<Pair, PairStats>

  /** `tagPairStats.get(pair) || { count: 0, totalViews: 0, videos: [] }`. */
  function Lookup(m: PairMap, k: Pair): PairStats {
    if k in m then m[k] else NoStats
  }

  function PairIs(k: Pair): Occurrence -> bool {
    (o: Occurrence) => o.pair == k
  }

  function PairOf(o: Occurrence): Pair {
    o.pair
  }

  /** The pairs that occur. */
  function PairSet(os: seq<Occurrence>): (r: set<Pair>)
    ensures forall k :: k in r <==> exists i :: 0 <= i < |os| && os[i].pair == k
  {
    if |os| == 0 then {}
    else
      var r := PairSet(os[..|os|-1]) + {os[|os|-1].pair};
      PairSetStep(os, os[..|os|-1], PairSet(os[..|os|-1]), r);
      r
  }

  lemma PairSetStep(os: seq<Occurrence>, init: seq<Occurrence>, before: set<Pair>, r: set<Pair>)
    requires |os| > 0 && init == os[..|os|-1] && r == before + {os[|os|-1].pair}
    requires forall k :: k in before <==> exists i :: 0 <= i < |init| && init[i].pair == k
    ensures forall k :: k in r <==> exists i :: 0 <= i < |os| && os[i].pair == k
  {
    forall k ensures k in r <==> exists i :: 0 <= i < |os| && os[i].pair == k {
      if k in before {
        var i :| 0 <= i < |init| && init[i].pair == k;
        assert os[i].pair == k;
      }
      if k != os[|os|-1].pair && exists i :: 0 <= i < |os| && os[i].pair == k {
        var i :| 0 <= i < |os| && os[i].pair == k;
        assert init[i].pair == k;
      }
    }
  }

  /** The map after a sequence of occurrences: a pair's entry is exactly what
      its own occurrences accumulate, and the pairs present are those that
      occur. */
  function Build(os: seq<Occurrence>): (m: PairMap)
    ensures m.Keys == PairSet(os)
    ensures Tracks(m, os)
  {
    if |os| == 0 then
      BuildEmpty(os);
      map[]
    else
      var prev := Build(os[..|os|-1]);
      var o := os[|os|-1];
      var m := prev[o.pair := Step(Lookup(prev, o.pair), o)];
      BuildStep(os, prev, m);
      UpdateKeys(prev, o.pair, m[o.pair]);
      m
  }

  lemma UpdateKeys<K, V>(m: map<K, V>, k: K, v: V)
    ensures m[k := v].Keys == m.Keys + {k}
  {
  }

  /** Every pair's entry is what its own occurrences accumulate. */
  ghost predicate Tracks(m: PairMap, os: seq<Occurrence>) {
    forall k :: Lookup(m, k) == Accumulate(Filter(os, PairIs(k)))
  }

  lemma BuildEmpty(os: seq<Occurrence>)
    requires |os| == 0
    ensures Tracks(map[], os)
  {
    forall k ensures Lookup(map[], k) == Accumulate(Filter(os, PairIs(k))) {
      assert Filter(os, PairIs(k)) == [];
    }
  }

  lemma BuildStep(os: seq<Occurrence>, prev: PairMap, m: PairMap)
    requires |os| > 0
    requires Tracks(prev, os[..|os|-1])
    requires m == prev[os[|os|-1].pair := Step(Lookup(prev, os[|os|-1].pair), os[|os|-1])]
    ensures Tracks(m, os)
  {
    forall k ensures Lookup(m, k) == Accumulate(Filter(os, PairIs(k))) {
      BuildStepAt(os, prev, m, k);
    }
  }

  lemma BuildStepAt(os: seq<Occurrence>, prev: PairMap, m: PairMap, k: Pair)
    requires |os| > 0
    requires Lookup(prev, k) == Accumulate(Filter(os[..|os|-1], PairIs(k)))
    requires m == prev[os[|os|-1].pair := Step(Lookup(prev, os[|os|-1].pair), os[|os|-1])]
    ensures Lookup(m, k) == Accumulate(Filter(os, PairIs(k)))
  {
    FilterLast(os, k);
  }

  /** The occurrences of `k` after one more occurrence. */
  lemma FilterLast(os: seq<Occurrence>, k: Pair)
    requires |os| > 0
    ensures os[|os|-1].pair == k ==> Accumulate(Filter(os, PairIs(k))) == Step(Accumulate(Filter(os[..|os|-1], PairIs(k))), os[|os|-1])
    ensures os[|os|-1].pair != k ==> Filter(os, PairIs(k)) == Filter(os[..|os|-1], PairIs(k))
  {
    var f := Filter(os, PairIs(k));
    if os[|os|-1].pair == k {
      assert f == Filter(os[..|os|-1], PairIs(k)) + [os[|os|-1]];
      assert f[..|f|-1] == Filter(os[..|os|-1], PairIs(k));
    }
  }

  // ---------------------------------------------------------------------
  // Which pairs occur.

  /** Some two positions `p < q` of the video's tags make the pair `k`. */
  ghost predicate InVideo(v: TaggedVideo, k: Pair) {
    exists p, q :: 0 <= p < q < |v.tags| && PairKey(v.tags[p], v.tags[q]) == k
  }

  /** Some video of `vs` makes the pair `k`. */
  ghost predicate InSome(vs: seq<TaggedVideo>, k: Pair) {
    exists i :: 0 <= i < |vs| && InVideo(vs[i], k)
  }

  lemma InSomeLast(vs: seq<TaggedVideo>, k: Pair)
    requires |vs| > 0
    ensures InSome(vs, k) <==> InSome(vs[..|vs|-1], k) || InVideo(vs[|vs|-1], k)
  {
    var init := vs[..|vs|-1];
    if InSome(init, k) {
      var i :| 0 <= i < |init| && InVideo(init[i], k);
      assert vs[i] == init[i];
    }
    if InSome(vs, k) {
      var i :| 0 <= i < |vs| && InVideo(vs[i], k);
      if i < |init| {
        assert init[i] == vs[i];
      }
    }
  }

  /** A pair occurs exactly when some video lists its two tags at two
      different positions. */
  lemma {:induction false} PairOccurs(vs: seq<TaggedVideo>, k: Pair)
    ensures k in PairSet(Occurrences(vs)) <==> InSome(vs, k)
  {
    if |vs| > 0 {
      var init, v := vs[..|vs|-1], vs[|vs|-1];
      PairOccurs(init, k);
      OccursInAppend(Occurrences(init), OccurrencesOf(v), k);
      OccursInVideo(v, k);
      InSomeLast(vs, k);
    }
  }

  lemma OccursInAppend(a: seq<Occurrence>, b: seq<Occurrence>, k: Pair)
    ensures k in PairSet(a + b) <==> k in PairSet(a) || k in PairSet(b)
  {
    var ab := a + b;
    if k in PairSet(ab) {
      var i :| 0 <= i < |ab| && ab[i].pair == k;
      if i < |a| {
        assert a[i] == ab[i];
      } else {
        assert b[i - |a|] == ab[i];
      }
    }
    if k in PairSet(a) {
      var i :| 0 <= i < |a| && a[i].pair == k;
      assert ab[i] == a[i];
    }
    if k in PairSet(b) {
      var i :| 0 <= i < |b| && b[i].pair == k;
      assert ab[|a| + i] == b[i];
    }
  }

  lemma OccursInVideo(v: TaggedVideo, k: Pair)
    ensures k in PairSet(OccurrencesOf(v)) <==> InVideo(v, k)
  {
    if k in PairSet(OccurrencesOf(v)) {
      VideoPairFound(v, k);
    }
    if InVideo(v, k) {
      var p, q :| 0 <= p < q < |v.tags| && PairKey(v.tags[p], v.tags[q]) == k;
      VideoPairListed(v, p, q);
    }
  }

  lemma VideoPairFound(v: TaggedVideo, k: Pair)
    requires k in PairSet(OccurrencesOf(v))
    ensures InVideo(v, k)
  {
    var os, ps := OccurrencesOf(v), Pairs(v.tags);
    var j :| 0 <= j < |os| && os[j].pair == k;
    assert ps[j] in ps;
    PairsFromMembers(v.tags, 0, ps[j].0, ps[j].1);
    var p, q :| 0 <= p < q < |v.tags| && v.tags[p] == ps[j].0 && v.tags[q] == ps[j].1;
    assert PairKey(v.tags[p], v.tags[q]) == k;
  }

  lemma VideoPairListed(v: TaggedVideo, p: nat, q: nat)
    requires p < q < |v.tags|
    ensures PairKey(v.tags[p], v.tags[q]) in PairSet(OccurrencesOf(v))
  {
    var os, ps := OccurrencesOf(v), Pairs(v.tags);
    assert PairAfter(v.tags, 0, v.tags[p], v.tags[q]);
    PairsFromMembers(v.tags, 0, v.tags[p], v.tags[q]);
    var j :| 0 <= j < |ps| && ps[j] == (v.tags[p], v.tags[q]);
    assert os[j].pair == PairKey(v.tags[p], v.tags[q]);
  }

  // ---------------------------------------------------------------------
  // The result rows.

  /** `Array.from(tagPairStats.keys())`: a `Map` lists its keys in the order
      they were first set, each once. */
  function FirstSeen(os: seq<Occurrence>): (r: seq<Pair>)
    ensures forall i, j :: 0 <= i < j < |r| ==> r[i] != r[j]
    ensures forall k :: k in r <==> k in PairSet(os)
  {
    if |os| == 0 then []
    else
      var init := os[..|os|-1];
      var prev := FirstSeen(init);
      if os[|os|-1].pair in PairSet(init) then prev else prev + [os[|os|-1].pair]
  }

  /** One element of the result. `tags` is the key split back into its two
      tags. */
  datatype TagPair = TagPair(tags: seq<string>, count: nat, avgViews: real, totalViews: nat, topVideos: seq<Shown>)

  /** `totalViews / count`; a pair in the map has been counted at least
      once, so the division is never by zero there. */
  function Average(st: PairStats): real {
    if st.count == 0 then 0.0 else st.totalViews as real / st.count as real
  }

  function RowOf(k: Pair, st: PairStats): TagPair {
    TagPair([k.0, k.1], st.count, Average(st), st.totalViews, st.videos)
  }

  /** The map's entries as rows, in the order of `keys`. */
  function RowsOf(m: PairMap, keys: seq<Pair>): (r: seq<TagPair>)
    requires forall k :: k in keys ==> k in m
    ensures |r| == |keys| && forall i :: 0 <= i < |keys| ==> r[i] == RowOf(keys[i], m[keys[i]])
  {
    seq(|keys|, i requires 0 <= i < |keys| => RowOf(keys[i], m[keys[i]]))
  }

  /** `pair.count > 1`. */
  function Repeated(t: TagPair): bool {
    t.count > 1
  }

  /** `b.avgViews - a.avgViews`: higher average first. */
  function ByAverage(a: TagPair, b: TagPair): bool {
    a.avgViews >= b.avgViews
  }

  lemma ByAveragePreorder()
    ensures TotalPreorder(ByAverage)
  {
  }

  const MaxPairs: nat := 20

  /** The pair map of a list of videos. */
  function PairMapOf(vs: seq<TaggedVideo>): PairMap {
    Build(Occurrences(vs))
  }

  /** At most 20 rows, best average first, each the row of a pair in `m`
      counted more than once, no pair twice; a pair counted more than once
      is missing only when the list is full, and then it averages no more
      than any row listed. */
  ghost predicate IsPerformance(m: PairMap, r: seq<TagPair>) {
    && |r| <= MaxPairs
    && (forall i, j :: 0 <= i < j < |r| ==> r[i].tags != r[j].tags)
    && SortedBy(r, ByAverage)
    && (forall i :: 0 <= i < |r| ==> r[i].count > 1 && exists k :: k in m && r[i] == RowOf(k, m[k]))
    && (forall k :: k in m && m[k].count > 1 && RowOf(k, m[k]) !in r ==>
          |r| == MaxPairs && forall i :: 0 <= i < |r| ==> r[i].avgViews >= RowOf(k, m[k]).avgViews)
  }

  /** `processTagPerformance`: at most 20 rows, each the entry of a pair in
      the map counted more than once, best average first; a pair counted more than once is missing only when
      the list is full, and then it averages no more than any row listed. */
  function TagPerformance(vs: seq<TaggedVideo>): (r: seq<TagPair>)
    ensures IsPerformance(PairMapOf(vs), r)
  {
    var m := PairMapOf(vs);
    var keys := FirstSeen(Occurrences(vs));
    assert forall k :: k in keys <==> k in m;
    RankRows(m, keys)
  }

  /** The rows of the pairs counted more than once, best average first,
      at most 20. */
  function RankRows(m: PairMap, keys: seq<Pair>): (r: seq<TagPair>)
    requires forall k :: k in keys <==> k in m
    requires forall a, b :: 0 <= a < b < |keys| ==> keys[a] != keys[b]
    ensures IsPerformance(m, r)
  {
    var rows := Filter(RowsOf(m, keys), Repeated);
    ByAveragePreorder();
    var r := Top(rows, ByAverage, MaxPairs);
    PerformanceFacts(m, keys, rows, r);
    r
  }

  lemma PerformanceFacts(m: PairMap, keys: seq<Pair>, rows: seq<TagPair>, r: seq<TagPair>)
    requires forall k :: k in keys <==> k in m
    requires forall a, b :: 0 <= a < b < |keys| ==> keys[a] != keys[b]
    requires rows == Filter(RowsOf(m, keys), Repeated)
    requires |r| == Min(MaxPairs, |rows|) && SortedBy(r, ByAverage) && multiset(r) <= multiset(rows)
    requires forall x :: x in rows && x !in r ==> ByAverage(r[|r|-1], x)
    ensures IsPerformance(m, r)
  {
    forall i, j | 0 <= i < j < |r| ensures r[i].tags != r[j].tags {
      DistinctRows(m, keys, rows, r, i, j);
    }
    forall i | 0 <= i < |r| ensures r[i].count > 1 && exists k :: k in m && r[i] == RowOf(k, m[k]) {
      ListedRow(m, keys, rows, r, i);
    }
    forall k | k in m && m[k].count > 1 && RowOf(k, m[k]) !in r
      ensures |r| == MaxPairs && forall i :: 0 <= i < |r| ==> r[i].avgViews >= RowOf(k, m[k]).avgViews
    {
      MissingRow(m, keys, rows, r, k);
    }
  }

  /** The rows of distinct keys have distinct tags. */
  lemma RowsDistinct(m: PairMap, keys: seq<Pair>, i: nat, j: nat)
    requires forall k :: k in keys ==> k in m
    requires forall a, b :: 0 <= a < b < |keys| ==> keys[a] != keys[b]
    requires i < j < |keys|
    ensures RowsOf(m, keys)[i] != RowsOf(m, keys)[j]
  {
    assert RowsOf(m, keys)[i].tags == [keys[i].0, keys[i].1];
    assert RowsOf(m, keys)[j].tags == [keys[j].0, keys[j].1];
    assert [keys[i].0, keys[i].1][0] == keys[i].0;
  }

  /** Filtering a sequence without repeats leaves none. */
  lemma {:induction false} FilterNoRepeats<T(!new)>(xs: seq<T>, p: T -> bool, x: T)
    requires forall a, b :: 0 <= a < b < |xs| ==> xs[a] != xs[b]
    ensures multiset(Filter(xs, p))[x] <= 1
  {
    if |xs| > 0 {
      var init := xs[..|xs|-1];
      FilterNoRepeats(init, p, x);
      if x == xs[|xs|-1] {
        assert x !in Filter(init, p) by {
          forall a | 0 <= a < |init| ensures init[a] != x {
            assert init[a] == xs[a];
          }
        }
      }
    }
  }

  /** Two listed rows never share their tags. */
  lemma DistinctRows(m: PairMap, keys: seq<Pair>, rows: seq<TagPair>, r: seq<TagPair>, i: nat, j: nat)
    requires forall k :: k in keys <==> k in m
    requires forall a, b :: 0 <= a < b < |keys| ==> keys[a] != keys[b]
    requires rows == Filter(RowsOf(m, keys), Repeated)
    requires multiset(r) <= multiset(rows) && i < j < |r|
    ensures r[i].tags != r[j].tags
  {
    var all := RowsOf(m, keys);
    ListedRow(m, keys, rows, r, i);
    ListedRow(m, keys, rows, r, j);
    var a :| a in m && r[i] == RowOf(a, m[a]);
    var b :| b in m && r[j] == RowOf(b, m[b]);
    forall x, y | 0 <= x < y < |all| ensures all[x] != all[y] {
      RowsDistinct(m, keys, x, y);
    }
    FilterNoRepeats(all, Repeated, r[i]);
    assert [a.0, a.1][0] == a.0 && [a.0, a.1][1] == a.1;
    if r[i].tags == r[j].tags {
      Tally.TwoCopies(r, i, j);
    }
  }

  /** A listed row is the row of a pair in the map, counted more than once. */
  lemma ListedRow(m: PairMap, keys: seq<Pair>, rows: seq<TagPair>, r: seq<TagPair>, i: nat)
    requires forall k :: k in keys <==> k in m
    requires rows == Filter(RowsOf(m, keys), Repeated)
    requires multiset(r) <= multiset(rows) && i < |r|
    ensures r[i].count > 1 && exists k :: k in m && r[i] == RowOf(k, m[k])
  {
    var all := RowsOf(m, keys);
    assert r[i] in multiset(r);
    assert r[i] in rows;
    var j :| 0 <= j < |all| && all[j] == r[i];
    assert keys[j] in keys;
  }

  /** A repeated pair left out of the list: the list is full and every row
      in it averages at least as much. */
  lemma MissingRow(m: PairMap, keys: seq<Pair>, rows: seq<TagPair>, r: seq<TagPair>, k: Pair)
    requires forall k :: k in keys <==> k in m
    requires rows == Filter(RowsOf(m, keys), Repeated)
    requires |r| == Min(MaxPairs, |rows|) && SortedBy(r, ByAverage) && multiset(r) <= multiset(rows)
    requires forall x :: x in rows && x !in r ==> ByAverage(r[|r|-1], x)
    requires k in m && m[k].count > 1 && RowOf(k, m[k]) !in r
    ensures |r| == MaxPairs && forall i :: 0 <= i < |r| ==> r[i].avgViews >= RowOf(k, m[k]).avgViews
  {
    var all := RowsOf(m, keys);
    var t := RowOf(k, m[k]);
    var j :| 0 <= j < |keys| && keys[j] == k;
    assert all[j] == t;
    assert t in rows;
    assert |r| == MaxPairs by {
      if |r| < MaxPairs {
        SubMultisetMember(r, rows, t);
      }
    }
    var last := r[|r|-1];
    assert last.avgViews >= t.avgViews;
    forall i | 0 <= i < |r| ensures r[i].avgViews >= t.avgViews {
      assert r[i].avgViews >= last.avgViews by {
        assert i == |r| - 1 || ByAverage(r[i], last);
      }
    }
  }

  /** A counted entry's average times its count is its total. */
  lemma RowAverage(k: Pair, st: PairStats)
    requires st.count > 0
    ensures RowOf(k, st).avgViews * st.count as real == st.totalViews as real
  {
    var c, t := st.count as real, st.totalViews as real;
    assert (t / c) * c == t;
  }

  /** A sub-multiset as long as the whole has every element of the whole. */
  lemma SubMultisetMember<T>(a: seq<T>, b: seq<T>, x: T)
    requires multiset(a) <= multiset(b) && |a| == |b| && x in b
    ensures x in a
  {
    var d := multiset(b) - multiset(a);
    assert multiset(b) == multiset(a) + d;
    assert |multiset(b)| == |multiset(a)| + |d|;
    assert x in multiset(b);
  }

  /** The pairs in the map are the pairs that occur on some video. */
  lemma PairKeys(vs: seq<TaggedVideo>, k: Pair)
    ensures k in PairMapOf(vs) <==> InSome(vs, k)
  {
    PairOccurs(vs, k);
  }

  /** Each entry of the map is what that pair's own occurrences accumulate:
      its count is the number of times the two tags appear together, its
      views are summed over those times, and it lists at most five of those
      videos, most viewed first. */
  lemma PairEntry(vs: seq<TaggedVideo>, k: Pair)
    requires k in PairMapOf(vs)
    ensures PairMapOf(vs)[k] == Accumulate(Filter(Occurrences(vs), PairIs(k)))
    ensures PairMapOf(vs)[k].count >= 1
  {
    var os := Occurrences(vs);
    BuildEntry(os, k);
  }

  lemma BuildEntry(os: seq<Occurrence>, k: Pair)
    requires k in Build(os)
    ensures Build(os)[k] == Accumulate(Filter(os, PairIs(k)))
    ensures Build(os)[k].count >= 1
  {
    assert Lookup(Build(os), k) == Accumulate(Filter(os, PairIs(k)));
    PairCounted(os, k);
  }

  /** A pair that occurs is counted at least once. */
  lemma PairCounted(os: seq<Occurrence>, k: Pair)
    requires k in PairSet(os)
    ensures |Filter(os, PairIs(k))| >= 1
  {
    var i :| 0 <= i < |os| && os[i].pair == k;
    assert os[i] in Filter(os, PairIs(k));
  }
}
