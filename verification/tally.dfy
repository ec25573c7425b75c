/** Grouped reductions: `groupBy` with `_count`/`_sum`, and the
    `acc[k] = (acc[k] || 0) + w` / `map.set(k, (map.get(k) || 0) + 1)` folds.
    A table is an association list from keys to totals, keys in order of
    first occurrence, each key at most once. */
module Tally {

  type Table<K> = seq<(K, nat)>

  function Keys<K, V>(t: seq<(K, V)>): (ks: seq<K>)
    ensures |ks| == |t| && forall i :: 0 <= i < |t| ==> ks[i] == t[i].0
  {
    seq(|t|, i requires 0 <= i < |t| => t[i].0)
  }

  predicate DistinctKeys<K(==), V>(t: seq<(K, V)>) {
    forall i, j :: 0 <= i < j < |t| ==> t[i].0 != t[j].0
  }

  /** Position of `k` in the table. */
  function Find<K(==)>(t: Table<K>, k: K): (i: nat)
    requires k in Keys(t)
    ensures i < |t| && t[i].0 == k
  {
    if t[0].0 == k then 0
    else
      assert k in Keys(t[1..]) by {
        var j :| 0 <= j < |t| && Keys(t)[j] == k;
        assert Keys(t[1..])[j-1] == k;
      }
      1 + Find(t[1..], k)
  }

  /** The total recorded for `k`; 0 when `k` is absent, as `acc[k] || 0`. */
  function Get<K(==)>(t: Table<K>, k: K): nat {
    if k in Keys(t) then t[Find(t, k)].1 else 0
  }

  /** Sum of all totals in a table. */
  function Total<K>(t: Table<K>): nat {
    if |t| == 0 then 0 else Total(t[..|t|-1]) + t[|t|-1].1
  }

  lemma GetAt<K>(t: Table<K>, i: nat)
    requires DistinctKeys(t) && i < |t|
    ensures Get(t, t[i].0) == t[i].1
  {
    assert Keys(t)[i] == t[i].0;
  }

  lemma {:induction false} TotalUpdate<K>(t: Table<K>, i: nat, e: (K, nat))
    requires i < |t|
    ensures Total(t[i := e]) + t[i].1 == Total(t) + e.1
  {
    var u := t[i := e];
    if i < |t| - 1 {
      assert u[..|u|-1] == t[..|t|-1][i := e];
      TotalUpdate(t[..|t|-1], i, e);
    } else {
      assert u[..|u|-1] == t[..|t|-1];
    }
  }

  lemma GetUpdated<K>(t: Table<K>, i: nat, w: nat)
    requires DistinctKeys(t) && i < |t|
    ensures DistinctKeys(t[i := (t[i].0, t[i].1 + w)])
    ensures forall j :: Get(t[i := (t[i].0, t[i].1 + w)], j) == Get(t, j) + (if j == t[i].0 then w else 0)
  {
    var r := t[i := (t[i].0, t[i].1 + w)];
    assert Keys(r) == Keys(t);
    forall j ensures Get(r, j) == Get(t, j) + (if j == t[i].0 then w else 0) {
      if j in Keys(t) {
        GetAt(t, Find(t, j));
        GetAt(r, Find(t, j));
      }
    }
  }

  lemma GetAppended<K>(t: Table<K>, k: K, w: nat)
    requires DistinctKeys(t) && k !in Keys(t)
    ensures DistinctKeys(t + [(k, w)])
    ensures Keys(t + [(k, w)]) == Keys(t) + [k]
    ensures forall j :: Get(t + [(k, w)], j) == Get(t, j) + (if j == k then w else 0)
  {
    var r := t + [(k, w)];
    assert Keys(r) == Keys(t) + [k];
    assert DistinctKeys(r) by {
      forall i | 0 <= i < |t| ensures t[i].0 != k {
        assert Keys(t)[i] == t[i].0;
      }
    }
    forall j ensures Get(r, j) == Get(t, j) + (if j == k then w else 0) {
      if j in Keys(t) {
        GetAt(t, Find(t, j));
        GetAt(r, Find(t, j));
      } else if j == k {
        GetAt(r, |t|);
      }
    }
  }

  /** Adds `w` to the total of `k`, appending `k` when it is new. */
  function Bump<K(==,!new)>(t: Table<K>, k: K, w: nat): (r: Table<K>)
    requires DistinctKeys(t)
    ensures DistinctKeys(r)
    ensures forall j :: j in Keys(r) <==> j in Keys(t) || j == k
    ensures forall j :: Get(r, j) == Get(t, j) + (if j == k then w else 0)
    ensures Total(r) == Total(t) + w
    ensures |r| == if k in Keys(t) then |t| else |t| + 1
  {
    if k in Keys(t) then
      var i := Find(t, k);
      GetUpdated(t, i, w);
      TotalUpdate(t, i, (k, t[i].1 + w));
      assert Keys(t[i := (k, t[i].1 + w)]) == Keys(t);
      t[i := (k, t[i].1 + w)]
    else
      GetAppended(t, k, w);
      assert (t + [(k, w)])[..|t|] == t;
      t + [(k, w)]
  }

  /** Total weight of the elements of `xs` whose key is `k`. */
  function SumWhere<T, K(==)>(xs: seq<T>, key: T -> K, weight: T -> nat, k: K): nat {
    if |xs| == 0 then 0
    else
      var x := xs[|xs|-1];
      SumWhere(xs[..|xs|-1], key, weight, k) + (if key(x) == k then weight(x) else 0)
  }

  /** Total weight of all elements. */
  function SumAll<T>(xs: seq<T>, weight: T -> nat): nat {
    if |xs| == 0 then 0 else SumAll(xs[..|xs|-1], weight) + weight(xs[|xs|-1])
  }

  /** Some element of `xs` has key `k`. */
  predicate Occurs<T, K(==)>(xs: seq<T>, key: T -> K, k: K) {
    exists i :: 0 <= i < |xs| && key(xs[i]) == k
  }

  lemma OccursSnoc<T, K(!new)>(xs: seq<T>, key: T -> K)
    requires |xs| > 0
    ensures forall k :: Occurs(xs, key, k) <==> Occurs(xs[..|xs|-1], key, k) || key(xs[|xs|-1]) == k
  {
    var init := xs[..|xs|-1];
    forall k ensures Occurs(xs, key, k) <==> Occurs(init, key, k) || key(xs[|xs|-1]) == k {
      if Occurs(init, key, k) {
        var i :| 0 <= i < |init| && key(init[i]) == k;
        assert key(xs[i]) == k;
      }
      if Occurs(xs, key, k) {
        var i :| 0 <= i < |xs| && key(xs[i]) == k;
        if i < |init| { assert key(init[i]) == k; }
      }
    }
  }

  /** Groups `xs` by `key`, summing `weight` per group, in one left-to-right
      pass (the order of `forEach`/`reduce`). */
  function Group<T, K(==,!new)>(xs: seq<T>, key: T -> K, weight: T -> nat): (r: Table<K>)
    ensures DistinctKeys(r)
    ensures |r| <= |xs|
    ensures forall k :: Get(r, k) == SumWhere(xs, key, weight, k)
    ensures forall k :: k in Keys(r) <==> Occurs(xs, key, k)
    ensures Total(r) == SumAll(xs, weight)
  {
    if |xs| == 0 then []
    else
      var init := xs[..|xs|-1];
      var x := xs[|xs|-1];
      var prev := Group(init, key, weight);
      var r := Bump(prev, key(x), weight(x));
      OccursSnoc(xs, key);
      r
  }

  /** Every group's total is the weight of its members. */
  lemma GroupEntries<T, K(!new)>(xs: seq<T>, key: T -> K, weight: T -> nat)
    ensures forall i :: 0 <= i < |Group(xs, key, weight)| ==>
      Group(xs, key, weight)[i].1 == SumWhere(xs, key, weight, Group(xs, key, weight)[i].0)
  {
    var r := Group(xs, key, weight);
    forall i | 0 <= i < |r| ensures r[i].1 == SumWhere(xs, key, weight, r[i].0) {
      GetAt(r, i);
    }
  }

  /** A group that occurs contains at least one member, so with positive
      weights its total is positive. */
  lemma {:induction false} SumWherePositive<T, K>(xs: seq<T>, key: T -> K, weight: T -> nat, i: nat)
    requires i < |xs| && weight(xs[i]) > 0
    ensures SumWhere(xs, key, weight, key(xs[i])) >= weight(xs[i])
  {
    if i < |xs| - 1 {
      assert xs[..|xs|-1][i] == xs[i];
      SumWherePositive(xs[..|xs|-1], key, weight, i);
    }
  }

  /** A group with a positive total has a member. */
  lemma {:induction false} SumWhereOccurs<T, K>(xs: seq<T>, key: T -> K, weight: T -> nat, k: K)
    requires SumWhere(xs, key, weight, k) > 0
    ensures Occurs(xs, key, k)
  {
    var init := xs[..|xs|-1];
    if key(xs[|xs|-1]) != k {
      SumWhereOccurs(init, key, weight, k);
      var i :| 0 <= i < |init| && key(init[i]) == k;
      assert key(xs[i]) == k;
    }
  }

  /** A group with a positive total has a member of positive weight. */
  lemma {:induction false} SumWhereWitness<T, K>(xs: seq<T>, key: T -> K, weight: T -> nat, k: K)
    requires SumWhere(xs, key, weight, k) > 0
    ensures exists i :: 0 <= i < |xs| && key(xs[i]) == k && weight(xs[i]) > 0
  {
    var init, x := xs[..|xs|-1], xs[|xs|-1];
    if key(x) != k || weight(x) == 0 {
      SumWhereWitness(init, key, weight, k);
      var i :| 0 <= i < |init| && key(init[i]) == k && weight(init[i]) > 0;
      assert init[i] == xs[i];
    } else {
      assert key(xs[|xs|-1]) == k && weight(xs[|xs|-1]) > 0;
    }
  }

  /** Summing every element's weight, each counted once, gives the length
      when every weight is 1. */
  lemma {:induction false} SumAllOnes<T>(xs: seq<T>, weight: T -> nat)
    requires forall i :: 0 <= i < |xs| ==> weight(xs[i]) == 1
    ensures SumAll(xs, weight) == |xs|
  {
    if |xs| > 0 {
      SumAllOnes(xs[..|xs|-1], weight);
    }
  }

  /** Positive weights give positive group totals. */
  lemma GroupPositive<T, K(!new)>(xs: seq<T>, key: T -> K, weight: T -> nat)
    requires forall i :: 0 <= i < |xs| ==> weight(xs[i]) > 0
    ensures forall i :: 0 <= i < |Group(xs, key, weight)| ==> Group(xs, key, weight)[i].1 > 0
  {
    var r := Group(xs, key, weight);
    forall i | 0 <= i < |r| ensures r[i].1 > 0 {
      GroupEntryPositive(xs, key, weight, r, i);
    }
  }

  lemma GroupEntryPositive<T, K(!new)>(xs: seq<T>, key: T -> K, weight: T -> nat, r: Table<K>, i: nat)
    requires forall i :: 0 <= i < |xs| ==> weight(xs[i]) > 0
    requires r == Group(xs, key, weight) && i < |r|
    ensures r[i].1 > 0
  {
    GetAt(r, i);
    assert Keys(r)[i] == r[i].0;
    var j :| 0 <= j < |xs| && key(xs[j]) == r[i].0;
    SumWherePositive(xs, key, weight, j);
  }
  // ---------------------------------------------------------------------
  // Distinct keys.

  /** The keys of a table as a set. */
  ghost function KeySet<K>(t: Table<K>): set<K> {
    set i | 0 <= i < |t| :: t[i].0
  }

  /** A table with distinct keys has as many entries as keys. */
  lemma {:induction false} KeySetSize<K>(t: Table<K>)
    requires DistinctKeys(t)
    ensures |KeySet(t)| == |t|
  {
    if |t| > 0 {
      var init := t[..|t|-1];
      KeySetSize(init);
      KeySetSnoc(t);
      LastKeyNew(t);
    }
  }

  lemma KeySetSnoc<K>(t: Table<K>)
    requires |t| > 0
    ensures KeySet(t) == KeySet(t[..|t|-1]) + {t[|t|-1].0}
  {
    var init := t[..|t|-1];
    forall k ensures k in KeySet(t) <==> k in KeySet(init) + {t[|t|-1].0} {
      if k in KeySet(t) {
        var i :| 0 <= i < |t| && t[i].0 == k;
        if i < |t| - 1 { assert init[i].0 == k; }
      }
      if k in KeySet(init) {
        var i :| 0 <= i < |init| && init[i].0 == k;
        assert t[i].0 == k;
      }
    }
  }

  lemma LastKeyNew<K>(t: Table<K>)
    requires |t| > 0 && DistinctKeys(t)
    ensures t[|t|-1].0 !in KeySet(t[..|t|-1])
  {
    var init := t[..|t|-1];
    forall i | 0 <= i < |init| ensures init[i].0 != t[|t|-1].0 {
      assert init[i] == t[i];
    }
  }

  /** In a table with distinct keys no entry occurs twice. */
  lemma {:induction false} NoRepeatedEntry<K, V>(t: seq<(K, V)>, e: (K, V))
    requires DistinctKeys(t)
    ensures multiset(t)[e] <= 1
  {
    if |t| > 0 {
      var init := t[..|t|-1];
      assert t == init + [t[|t|-1]];
      NoRepeatedEntry(init, e);
      if e == t[|t|-1] {
        assert e !in init by {
          forall i | 0 <= i < |init| ensures init[i] != e {
            assert init[i] == t[i];
          }
        }
      }
    }
  }

  /** An element at two positions is counted twice. */
  lemma TwoCopies<T>(r: seq<T>, i: nat, j: nat)
    requires i < j < |r| && r[i] == r[j]
    ensures multiset(r)[r[i]] >= 2
  {
    assert r == r[..j] + [r[j]] + r[j+1..];
    assert r[..j][i] == r[i];
  }

  lemma SubEntryKeys<K, V>(r: seq<(K, V)>, t: seq<(K, V)>, i: nat, j: nat)
    requires DistinctKeys(t) && multiset(r) <= multiset(t) && i < j < |r|
    ensures r[i].0 != r[j].0
  {
    if r[i] == r[j] {
      TwoCopies(r, i, j);
      NoRepeatedEntry(t, r[i]);
    } else {
      assert r[i] in multiset(t) && r[j] in multiset(t);
      var a :| 0 <= a < |t| && t[a] == r[i];
      var b :| 0 <= b < |t| && t[b] == r[j];
    }
  }

  /** Entries drawn from a table with distinct keys have distinct keys: the
      first N rows of a ranked `groupBy`. */
  lemma SubTableKeys<K, V>(r: seq<(K, V)>, t: seq<(K, V)>)
    requires DistinctKeys(t) && multiset(r) <= multiset(t)
    ensures DistinctKeys(r)
  {
    forall i, j | 0 <= i < j < |r| ensures r[i].0 != r[j].0 {
      SubEntryKeys(r, t, i, j);
    }
  }

  // ---------------------------------------------------------------------
  // Grouping a grouped table again.

  /** The key of an entry, mapped through `f`. */
  function Outer<K, L>(f: K -> L): ((K, nat)) -> L {
    (e: (K, nat)) => f(e.0)
  }

  /** The total of an entry, the weight when regrouping. */
  function Second<K>(e: (K, nat)): nat {
    e.1
  }

  function Compose<T, K, L>(key: T -> K, f: K -> L): T -> L {
    (x: T) => f(key(x))
  }

  /** Replacing one element changes a filtered sum by the difference of the
      two elements' contributions. */
  lemma {:induction false} SumWhereUpdate<T, K>(xs: seq<T>, key: T -> K, weight: T -> nat, k: K, i: nat, e: T)
    requires i < |xs|
    ensures SumWhere(xs[i := e], key, weight, k) + (if key(xs[i]) == k then weight(xs[i]) else 0)
         == SumWhere(xs, key, weight, k) + (if key(e) == k then weight(e) else 0)
  {
    var u := xs[i := e];
    if i < |xs| - 1 {
      assert u[..|u|-1] == xs[..|xs|-1][i := e];
      SumWhereUpdate(xs[..|xs|-1], key, weight, k, i, e);
    } else {
      assert u[..|u|-1] == xs[..|xs|-1];
    }
  }

  /** Bumping `k` by `w` adds `w` to the regrouped total of `f(k)`. */
  lemma SumWhereBump<K(!new), L>(t: Table<K>, k: K, w: nat, f: K -> L, y: L)
    requires DistinctKeys(t)
    ensures SumWhere(Bump(t, k, w), Outer(f), Second, y) == SumWhere(t, Outer(f), Second, y) + (if f(k) == y then w else 0)
  {
    if k in Keys(t) {
      var i := Find(t, k);
      SumWhereUpdate(t, Outer(f), Second, y, i, (k, t[i].1 + w));
    } else {
      var r := t + [(k, w)];
      assert r[..|r|-1] == t;
    }
  }

  /** Grouping by `key` and then grouping the groups by `f` of their key,
      summing their totals, weighs every element exactly as grouping by `f`
      of its key directly. */
  lemma {:induction false} RegroupSum<T, K(!new), L>(xs: seq<T>, key: T -> K, weight: T -> nat, f: K -> L, y: L)
    ensures SumWhere(Group(xs, key, weight), Outer(f), Second, y) == SumWhere(xs, Compose(key, f), weight, y)
  {
    if |xs| > 0 {
      var init, x := xs[..|xs|-1], xs[|xs|-1];
      RegroupSum(init, key, weight, f, y);
      SumWhereBump(Group(init, key, weight), key(x), weight(x), f, y);
    }
  }

  /** The regrouped keys are the images under `f` of the elements' keys. */
  lemma RegroupOccurs<T, K(!new), L>(xs: seq<T>, key: T -> K, weight: T -> nat, f: K -> L, y: L)
    ensures Occurs(Group(xs, key, weight), Outer(f), y) <==> Occurs(xs, Compose(key, f), y)
  {
    var g := Group(xs, key, weight);
    if Occurs(g, Outer(f), y) {
      var i :| 0 <= i < |g| && Outer(f)(g[i]) == y;
      assert g[i].0 in Keys(g);
      var j :| 0 <= j < |xs| && key(xs[j]) == g[i].0;
      assert Compose(key, f)(xs[j]) == y;
    }
    if Occurs(xs, Compose(key, f), y) {
      var j :| 0 <= j < |xs| && Compose(key, f)(xs[j]) == y;
      assert Occurs(xs, key, key(xs[j]));
      var i := Find(g, key(xs[j]));
      assert Outer(f)(g[i]) == y;
    }
  }

  /** Summing the totals of a table entry by entry gives its total. */
  lemma {:induction false} SumAllSecond<K>(t: Table<K>)
    ensures SumAll(t, Second) == Total(t)
  {
    if |t| > 0 {
      SumAllSecond(t[..|t|-1]);
    }
  }
  // ---------------------------------------------------------------------
  // Totals do not depend on the order of the entries.

  lemma {:induction false} TotalRemove<K>(t: Table<K>, j: nat)
    requires j < |t|
    ensures Total(t) == Total(t[..j] + t[j+1..]) + t[j].1
  {
    var u := t[..j] + t[j+1..];
    if j == |t| - 1 {
      assert u == t[..|t|-1];
    } else {
      var init := t[..|t|-1];
      TotalRemove(init, j);
      assert u[..|u|-1] == init[..j] + init[j+1..];
      assert u[|u|-1] == t[|t|-1];
    }
  }

  lemma MultisetRemove<T>(b: seq<T>, j: nat)
    requires j < |b|
    ensures multiset(b) == multiset(b[..j] + b[j+1..]) + multiset{b[j]}
  {
    assert b == b[..j] + [b[j]] + b[j+1..];
  }

  lemma MultisetCancel<T>(a: multiset<T>, b: multiset<T>, x: T)
    requires a + multiset{x} == b + multiset{x}
    ensures a == b
  {
    forall e ensures a[e] == b[e] {
      assert (a + multiset{x})[e] == a[e] + multiset{x}[e];
      assert (b + multiset{x})[e] == b[e] + multiset{x}[e];
    }
  }

  /** Two tables with the same entries have the same total. */
  lemma {:induction false} TotalPermutation<K>(a: Table<K>, b: Table<K>)
    requires multiset(a) == multiset(b)
    ensures Total(a) == Total(b)
    decreases |a|
  {
    if |a| == 0 {
      assert |b| == |multiset(b)| == 0;
    } else {
      var init, x := a[..|a|-1], a[|a|-1];
      assert a == init + [x];
      assert x in multiset(b);
      var j :| 0 <= j < |b| && b[j] == x;
      var rest := b[..j] + b[j+1..];
      MultisetRemove(b, j);
      MultisetCancel(multiset(init), multiset(rest), x);
      TotalPermutation(init, rest);
      TotalRemove(b, j);
    }
  }
  /** The distinct keys of the elements of `xs`. */
  ghost function KeysOf<T, K>(xs: seq<T>, key: T -> K): set<K> {
    set x | x in xs :: key(x)
  }

  /** The keys of a grouping are the keys of its elements. */
  lemma GroupKeySet<T, K(!new)>(xs: seq<T>, key: T -> K, weight: T -> nat)
    ensures KeySet(Group(xs, key, weight)) == KeysOf(xs, key)
  {
    var g := Group(xs, key, weight);
    forall k ensures k in KeySet(g) <==> k in KeysOf(xs, key) {
      if k in KeySet(g) {
        var i :| 0 <= i < |g| && g[i].0 == k;
        assert k in Keys(g);
        var j :| 0 <= j < |xs| && key(xs[j]) == k;
        assert xs[j] in xs;
      }
      if k in KeysOf(xs, key) {
        var x :| x in xs && key(x) == k;
        var j :| 0 <= j < |xs| && xs[j] == x;
        assert Occurs(xs, key, k);
        var i := Find(g, k);
      }
    }
  }
}
