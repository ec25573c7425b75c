/** `getCategoryStats` (src/services/stats/categoryStats.ts): the category
    distribution of the watch-scoped videos, and the same count restricted
    to long "podcast-like" videos in three categories. */
module CategoryStats {
  import opened Wrappers
  import opened Tally
  import opened Ranking
  import opened Store
  import opened GroupBy
  import Duration

  datatype CategoryStats = CategoryStats(
    categoryDistribution: Table<Option<string>>,
    podcastStats: Table<Option<string>>)

  function CategoryOf(v: Video): Option<string> {
    v.categoryId
  }

  /** People & Blogs, Entertainment and Education. */
  const PodcastCategories: set<Option<string>> := {Some("22"), Some("24"), Some("27")}

  /** Longer than 20 minutes in one of the podcast categories; a null
      duration never compares greater. */
  predicate IsLongForm(v: Video) {
    && v.duration.Some?
    && Duration.Parse(v.duration.value) > 1200
    && v.categoryId in PodcastCategories
  }

  function LongForm(v: Video): bool {
    IsLongForm(v)
  }

  /** The category buckets partition the watch-scoped videos: one bucket
      per category that occurs (null included), each counting its videos,
      the counts adding up to the number of watch-scoped videos, largest
      first. */
  function Distribution(db: Db, minDate: int): (r: Table<Option<string>>)
    ensures DistinctKeys(r)
    ensures SortedBy(r, ByTotal)
    ensures forall c :: c in Keys(r) <==> Occurs(Scoped(db, minDate), CategoryOf, c)
    ensures forall i :: 0 <= i < |r| ==> r[i].1 == SumWhere(Scoped(db, minDate), CategoryOf, Once, r[i].0)
    ensures Total(r) == |Scoped(db, minDate)|
  {
    var xs := Scoped(db, minDate);
    SumAllOnes(xs, Once);
    RankedGroups(xs, CategoryOf, Once)
  }

  /** The watch-scoped long-form videos. */
  function LongFormScoped(db: Db, minDate: int): (r: seq<Video>)
    ensures forall v :: v in r <==> v in db.videos && WatchedSince(db, v, minDate) && IsLongForm(v)
  {
    Filter(Scoped(db, minDate), LongForm)
  }

  /** The podcast buckets: only the three podcast categories can appear, so
      there are at most three, and every count is the number of watch-scoped
      long-form videos in that category. No order is asked of the store. */
  function Podcast(db: Db, minDate: int): (r: Table<Option<string>>)
    ensures DistinctKeys(r)
    ensures forall i :: 0 <= i < |r| ==> r[i].0 in PodcastCategories
    ensures |r| <= 3
    ensures forall c :: Get(r, c) == SumWhere(LongFormScoped(db, minDate), CategoryOf, Once, c)
    ensures Total(r) == |LongFormScoped(db, minDate)|
  {
    var xs := LongFormScoped(db, minDate);
    var r := Group(xs, CategoryOf, Once);
    PodcastKeys(xs, r);
    SumAllOnes(xs, Once);
    r
  }

  lemma PodcastKeys(xs: seq<Video>, r: Table<Option<string>>)
    requires forall v :: v in xs ==> IsLongForm(v)
    requires r == Group(xs, CategoryOf, Once)
    ensures forall i :: 0 <= i < |r| ==> r[i].0 in PodcastCategories
    ensures |r| <= 3
  {
    forall i | 0 <= i < |r| ensures r[i].0 in PodcastCategories {
      assert r[i].0 in Keys(r);
      var j :| 0 <= j < |xs| && CategoryOf(xs[j]) == r[i].0;
      assert xs[j] in xs;
    }
    KeySetSize(r);
    assert KeySet(r) <= PodcastCategories;
    SubsetSize(KeySet(r), PodcastCategories);
  }

  lemma SubsetSize<T>(a: set<T>, b: set<T>)
    requires a <= b
    ensures |a| <= |b|
  {
    assert b == a + (b - a);
  }

  /** Keeping fewer elements never raises a group's total. */
  lemma {:induction false} SumWhereFilter<T(!new), K>(xs: seq<T>, p: T -> bool, key: T -> K, weight: T -> nat, k: K)
    ensures SumWhere(Filter(xs, p), key, weight, k) <= SumWhere(xs, key, weight, k)
  {
    if |xs| > 0 {
      var init, x := xs[..|xs|-1], xs[|xs|-1];
      SumWhereFilter(init, p, key, weight, k);
      var f := Filter(xs, p);
      if p(x) {
        assert f[..|f|-1] == Filter(init, p);
      } else {
        assert f == Filter(init, p);
      }
    }
  }

  /** Each podcast bucket counts no more than the distribution's bucket for
      the same category. */
  lemma PodcastWithinDistribution(db: Db, minDate: int)
    ensures forall c :: Get(Podcast(db, minDate), c) <= Get(Distribution(db, minDate), c)
  {
    var xs := Scoped(db, minDate);
    var p := Podcast(db, minDate);
    var d := Distribution(db, minDate);
    forall c ensures Get(p, c) <= Get(d, c) {
      BucketWithin(xs, p, d, c);
    }
  }

  lemma BucketWithin(xs: seq<Video>, p: Table<Option<string>>, d: Table<Option<string>>, c: Option<string>)
    requires forall c :: Get(p, c) == SumWhere(Filter(xs, LongForm), CategoryOf, Once, c)
    requires DistinctKeys(d)
    requires forall c :: c in Keys(d) <==> Occurs(xs, CategoryOf, c)
    requires forall i :: 0 <= i < |d| ==> d[i].1 == SumWhere(xs, CategoryOf, Once, d[i].0)
    ensures Get(p, c) <= Get(d, c)
  {
    SumWhereFilter(xs, LongForm, CategoryOf, Once, c);
    if Get(p, c) > 0 {
      SumWhereOccurs(xs, CategoryOf, Once, c);
      var i := Find(d, c);
      GetAt(d, i);
    }
  }

  function GetCategoryStats(db: Db, minDate: int): CategoryStats {
    CategoryStats(Distribution(db, minDate), Podcast(db, minDate))
  }
}
