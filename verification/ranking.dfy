/** `orderBy ... desc` / `.sort(comparator)` followed by `take N` /
    `.slice(0, N)`. Orders are given as a "ranks at least as high as"
    relation; only the non-increasing order and the top-N guarantee are
    stated, never the order among ties. */
module Ranking {

  /** A total preorder: every two elements are comparable, transitively. */
  ghost predicate TotalPreorder<T(!new)>(geq: (T, T) -> bool) {
    && (forall a, b :: geq(a, b) || geq(b, a))
    && (forall a, b, c :: geq(a, b) && geq(b, c) ==> geq(a, c))
  }

  /** Every element ranks at least as high as every later one. */
  predicate SortedBy<T>(xs: seq<T>, geq: (T, T) -> bool) {
    forall i, j :: 0 <= i < j < |xs| ==> geq(xs[i], xs[j])
  }

  function Insert<T(!new)>(x: T, s: seq<T>, geq: (T, T) -> bool): (r: seq<T>)
    requires TotalPreorder(geq) && SortedBy(s, geq)
    ensures SortedBy(r, geq)
    ensures multiset(r) == multiset(s) + multiset{x}
    ensures |r| == |s| + 1
  {
    if |s| == 0 then [x]
    else if geq(x, s[0]) then
      assert s == [s[0]] + s[1..];
      [x] + s
    else
      var rest := Insert(x, s[1..], geq);
      assert s == [s[0]] + s[1..];
      InsertBelowHead(x, s, rest, geq);
      [s[0]] + rest
  }

  /** Inserting after the head keeps everything ranked no higher than the
      head. */
  lemma InsertBelowHead<T(!new)>(x: T, s: seq<T>, rest: seq<T>, geq: (T, T) -> bool)
    requires TotalPreorder(geq) && SortedBy(s, geq) && |s| > 0 && !geq(x, s[0])
    requires multiset(rest) == multiset(s[1..]) + multiset{x}
    ensures forall j :: 0 <= j < |rest| ==> geq(s[0], rest[j])
  {
    forall j | 0 <= j < |rest| ensures geq(s[0], rest[j]) {
      assert rest[j] in multiset(rest);
      if rest[j] != x {
        assert rest[j] in multiset(s[1..]);
        var k :| 0 <= k < |s[1..]| && s[1..][k] == rest[j];
        assert s[k+1] == rest[j];
      }
    }
  }

  /** Insertion sort by `geq`, highest rank first. */
  function Sort<T(!new)>(xs: seq<T>, geq: (T, T) -> bool): (r: seq<T>)
    requires TotalPreorder(geq)
    ensures SortedBy(r, geq)
    ensures multiset(r) == multiset(xs)
    ensures |r| == |xs|
  {
    if |xs| == 0 then []
    else
      assert xs == [xs[0]] + xs[1..];
      Insert(xs[0], Sort(xs[1..], geq), geq)
  }

  function Min(a: nat, b: nat): nat {
    if a <= b then a else b
  }

  /** A prefix of a sorted sequence is sorted, is drawn from it, and ranks
      at least as high as everything after it. */
  lemma SortedPrefix<T(!new)>(s: seq<T>, geq: (T, T) -> bool, k: nat)
    requires SortedBy(s, geq) && 0 < k <= |s|
    ensures SortedBy(s[..k], geq)
    ensures forall x :: x in s && x !in s[..k] ==> geq(s[k-1], x)
  {
    forall x | x in s && x !in s[..k] ensures geq(s[k-1], x) {
      var i :| 0 <= i < |s| && s[i] == x;
      assert i >= k;
    }
  }

  /** What a prefix of a sorted sequence leaves out, counted with
      multiplicity, ranks no higher than the prefix's last element. */
  lemma SortedRest<T(!new)>(s: seq<T>, geq: (T, T) -> bool, k: nat)
    requires SortedBy(s, geq) && 0 < k <= |s|
    ensures forall x :: x in multiset(s) - multiset(s[..k]) ==> geq(s[k-1], x)
  {
    assert s == s[..k] + s[k..];
    assert multiset(s) - multiset(s[..k]) == multiset(s[k..]);
    forall x | x in multiset(s[k..]) ensures geq(s[k-1], x) {
      var j :| 0 <= j < |s[k..]| && s[k..][j] == x;
      assert s[k + j] == x;
    }
  }

  lemma PrefixMultiset<T>(s: seq<T>, k: nat)
    requires k <= |s|
    ensures multiset(s[..k]) <= multiset(s)
  {
    assert s == s[..k] + s[k..];
  }

  /** The first `n` elements in `geq` order: sorted, at most `n` of them,
      drawn from `xs`, and every element left out ranks no higher than the
      last one kept. */
  function Top<T(!new)>(xs: seq<T>, geq: (T, T) -> bool, n: nat): (r: seq<T>)
    requires TotalPreorder(geq)
    ensures |r| == Min(n, |xs|)
    ensures SortedBy(r, geq)
    ensures multiset(r) <= multiset(xs)
    ensures n > 0 ==> forall x :: x in xs && x !in r ==> geq(r[|r|-1], x)
    ensures |r| > 0 ==> forall x :: x in multiset(xs) - multiset(r) ==> geq(r[|r|-1], x)
  {
    var s := Sort(xs, geq);
    TopFacts(xs, geq, s, n);
    s[..Min(n, |s|)]
  }

  lemma TopFacts<T(!new)>(xs: seq<T>, geq: (T, T) -> bool, s: seq<T>, n: nat)
    requires SortedBy(s, geq) && multiset(s) == multiset(xs) && |s| == |xs|
    ensures var r := s[..Min(n, |s|)];
      && multiset(r) <= multiset(xs)
      && SortedBy(r, geq)
      && (n > 0 ==> forall x :: x in xs && x !in r ==> geq(r[|r|-1], x))
      && (|r| > 0 ==> forall x :: x in multiset(xs) - multiset(r) ==> geq(r[|r|-1], x))
  {
    var k := Min(n, |s|);
    PrefixMultiset(s, k);
    if k > 0 {
      SortedPrefix(s, geq, k);
      SortedRest(s, geq, k);
      SameElements(xs, s);
    }
  }

  lemma SameElements<T>(xs: seq<T>, s: seq<T>)
    requires multiset(s) == multiset(xs)
    ensures forall x :: x in xs <==> x in s
  {
    forall x ensures x in xs <==> x in s {
      assert x in xs <==> x in multiset(xs);
      assert x in s <==> x in multiset(s);
    }
  }

  /** Descending by an integer score, the order of `orderBy: {...: 'desc'}`
      and of `.sort((a, b) => b.count - a.count)`. */
  function ByScore<T>(score: T -> int): (T, T) -> bool {
    (a: T, b: T) => score(a) >= score(b)
  }

  lemma ByScorePreorder<T(!new)>(score: T -> int)
    ensures TotalPreorder(ByScore(score))
  {
  }

  /** Descending by the total of a table entry. */
  function ByTotal<K>(a: (K, nat), b: (K, nat)): bool {
    a.1 >= b.1
  }

  lemma ByTotalPreorder<K(!new)>()
    ensures TotalPreorder(ByTotal<K>)
  {
  }
}
