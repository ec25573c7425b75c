/** `groupBy` followed by `orderBy: { _count | _sum: 'desc' }` and
    `take: n`: the groups of a grouping, highest total first, at most `n` of
    them. The order among equal totals is left open. */
module GroupBy {
  import opened Tally
  import opened Ranking

  /** `r` is a top-`n` ranking of the groups of `xs`: each entry is a real
      group with its total, no key twice, totals non-increasing, as many
      entries as there are groups up to `n`, and every group left out totals
      no more than the last one kept. */
  ghost predicate RankedTop<T, K(!new)>(xs: seq<T>, key: T -> K, weight: T -> nat, n: nat, r: Table<K>) {
    && |r| == Min(n, |Group(xs, key, weight)|)
    && (n > 0 && |xs| > 0 ==> |r| > 0)
    && DistinctKeys(r)
    && SortedBy(r, ByTotal)
    && (forall i :: 0 <= i < |r| ==> Occurs(xs, key, r[i].0) && r[i].1 == SumWhere(xs, key, weight, r[i].0))
    && (|r| > 0 ==> forall k :: Occurs(xs, key, k) && k !in Keys(r) ==> SumWhere(xs, key, weight, k) <= r[|r|-1].1)
  }

  /** Grouping, ranking by total and keeping the first `n` groups. */
  function TopGroups<T, K(==,!new)>(xs: seq<T>, key: T -> K, weight: T -> nat, n: nat): (r: Table<K>)
    ensures RankedTop(xs, key, weight, n, r)
    ensures Total(r) <= SumAll(xs, weight)
  {
    ByTotalPreorder<K>();
    var g := Group(xs, key, weight);
    var r := Top(g, ByTotal, n);
    TopGroupsFacts(xs, key, weight, g, r, n);
    r
  }

  lemma TopGroupsFacts<T, K(!new)>(xs: seq<T>, key: T -> K, weight: T -> nat, g: Table<K>, r: Table<K>, n: nat)
    requires g == Group(xs, key, weight)
    requires multiset(r) <= multiset(g)
    requires |r| == Min(n, |g|)
    requires n > 0 ==> forall x :: x in g && x !in r ==> ByTotal(r[|r|-1], x)
    ensures n > 0 && |xs| > 0 ==> |r| > 0
    ensures DistinctKeys(r)
    ensures forall i :: 0 <= i < |r| ==> Occurs(xs, key, r[i].0) && r[i].1 == SumWhere(xs, key, weight, r[i].0)
    ensures |r| > 0 ==> forall k :: Occurs(xs, key, k) && k !in Keys(r) ==> SumWhere(xs, key, weight, k) <= r[|r|-1].1
    ensures Total(r) <= SumAll(xs, weight)
  {
    if |xs| > 0 {
      assert Occurs(xs, key, key(xs[0]));
      assert key(xs[0]) in Keys(g);
    }
    SubTableKeys(r, g);
    SubGroupEntries(xs, key, weight, g, r);
    if |r| > 0 {
      OmittedGroups(xs, key, weight, g, r);
    }
    SubTableTotal(r, g);
  }

  /** Entries drawn from a grouping are groups with their totals. */
  lemma SubGroupEntries<T, K(!new)>(xs: seq<T>, key: T -> K, weight: T -> nat, g: Table<K>, r: Table<K>)
    requires g == Group(xs, key, weight)
    requires multiset(r) <= multiset(g)
    ensures forall i :: 0 <= i < |r| ==> Occurs(xs, key, r[i].0) && r[i].1 == SumWhere(xs, key, weight, r[i].0)
  {
    GroupEntries(xs, key, weight);
    forall i | 0 <= i < |r| ensures Occurs(xs, key, r[i].0) && r[i].1 == SumWhere(xs, key, weight, r[i].0) {
      assert r[i] in multiset(g);
      var j :| 0 <= j < |g| && g[j] == r[i];
      assert g[j].0 in Keys(g);
    }
  }

  /** A group whose key was not kept ranks no higher than the last kept. */
  lemma OmittedGroups<T, K(!new)>(xs: seq<T>, key: T -> K, weight: T -> nat, g: Table<K>, r: Table<K>)
    requires g == Group(xs, key, weight)
    requires |r| > 0
    requires forall x :: x in g && x !in r ==> ByTotal(r[|r|-1], x)
    ensures forall k :: Occurs(xs, key, k) && k !in Keys(r) ==> SumWhere(xs, key, weight, k) <= r[|r|-1].1
  {
    forall k | Occurs(xs, key, k) && k !in Keys(r) ensures SumWhere(xs, key, weight, k) <= r[|r|-1].1 {
      var j := Find(g, k);
      GetAt(g, j);
      assert g[j] !in r by {
        forall i | 0 <= i < |r| ensures r[i] != g[j] {
          assert Keys(r)[i] == r[i].0;
        }
      }
      assert g[j] in g;
    }
  }

  /** Entries drawn from a table total no more than the table. */
  lemma SubTableTotal<K>(r: Table<K>, g: Table<K>)
    requires multiset(r) <= multiset(g)
    ensures Total(r) <= Total(g)
  {
    var rest := multiset(g) - multiset(r);
    var extra: Table<K> := MultisetSeq(rest);
    assert multiset(r + extra) == multiset(g);
    TotalPermutation(r + extra, g);
    TotalAppend(r, extra);
  }

  /** Some sequence of the elements of a multiset. */
  ghost function MultisetSeq<T>(m: multiset<T>): (s: seq<T>)
    ensures multiset(s) == m
    decreases |m|
  {
    if |m| == 0 then []
    else
      var x :| x in m;
      [x] + MultisetSeq(m - multiset{x})
  }

  lemma {:induction false} TotalAppend<K>(a: Table<K>, b: Table<K>)
    ensures Total(a + b) == Total(a) + Total(b)
    decreases |b|
  {
    if |b| > 0 {
      assert (a + b)[..|a + b|-1] == a + b[..|b|-1];
      TotalAppend(a, b[..|b|-1]);
    } else {
      assert a + b == a;
    }
  }

  /** Every group of positive weights totals at least 1. */
  lemma TopGroupsPositive<T, K(!new)>(xs: seq<T>, key: T -> K, weight: T -> nat, n: nat)
    requires forall i :: 0 <= i < |xs| ==> weight(xs[i]) > 0
    ensures forall i :: 0 <= i < |TopGroups(xs, key, weight, n)| ==> TopGroups(xs, key, weight, n)[i].1 >= 1
  {
    var r := TopGroups(xs, key, weight, n);
    forall i | 0 <= i < |r| ensures r[i].1 >= 1 {
      var j :| 0 <= j < |xs| && key(xs[j]) == r[i].0;
      SumWherePositive(xs, key, weight, j);
    }
  }

  /** `groupBy` with `orderBy: { _count: 'desc' }` and no `take`: all groups,
      ranked. */
  function RankedGroups<T, K(==,!new)>(xs: seq<T>, key: T -> K, weight: T -> nat): (r: Table<K>)
    ensures |r| == |Group(xs, key, weight)|
    ensures DistinctKeys(r)
    ensures SortedBy(r, ByTotal)
    ensures forall i :: 0 <= i < |r| ==> Occurs(xs, key, r[i].0) && r[i].1 == SumWhere(xs, key, weight, r[i].0)
    ensures forall k :: Occurs(xs, key, k) <==> k in Keys(r)
    ensures Total(r) == SumAll(xs, weight)
  {
    ByTotalPreorder<K>();
    var g := Group(xs, key, weight);
    var r := Sort(g, ByTotal);
    RankedFacts(xs, key, weight, g, r);
    r
  }

  lemma RankedFacts<T, K(!new)>(xs: seq<T>, key: T -> K, weight: T -> nat, g: Table<K>, r: Table<K>)
    requires g == Group(xs, key, weight) && multiset(r) == multiset(g)
    ensures DistinctKeys(r)
    ensures forall i :: 0 <= i < |r| ==> Occurs(xs, key, r[i].0) && r[i].1 == SumWhere(xs, key, weight, r[i].0)
    ensures forall k :: Occurs(xs, key, k) <==> k in Keys(r)
    ensures Total(r) == SumAll(xs, weight)
  {
    SubTableKeys(r, g);
    SubGroupEntries(xs, key, weight, g, r);
    RankedKeys(xs, key, weight, g, r);
    TotalPermutation(r, g);
  }

  lemma RankedKeys<T, K(!new)>(xs: seq<T>, key: T -> K, weight: T -> nat, g: Table<K>, r: Table<K>)
    requires g == Group(xs, key, weight) && multiset(r) == multiset(g)
    ensures forall k :: Occurs(xs, key, k) <==> k in Keys(r)
  {
    forall k ensures Occurs(xs, key, k) <==> k in Keys(r) {
      if Occurs(xs, key, k) {
        var j := Find(g, k);
        assert g[j] in multiset(r);
        var i :| 0 <= i < |r| && r[i] == g[j];
        assert Keys(r)[i] == k;
      }
      if k in Keys(r) {
        var i :| 0 <= i < |r| && Keys(r)[i] == k;
        assert r[i] in multiset(g);
        var j :| 0 <= j < |g| && g[j] == r[i];
        assert Keys(g)[j] == k;
      }
    }
  }
}
