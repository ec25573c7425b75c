/** The word-map and content-insight analytics (src/api/analytics.ts): tag
    and topic frequencies over the whole catalog, and the tag-pair
    co-occurrence statistics of `processTagPerformance`. */
module Analytics {
  import opened Wrappers
  import opened Strings
  import opened Tally
  import opened Ranking
  import opened GroupBy

  // ---------------------------------------------------------------------
  // Word maps.

  /** `flatMap` of the per-video lists, in catalog order. */
  function Flatten<T(!new)>(xss: seq<seq<T>>): (r: seq<T>)
    ensures |r| == TotalLength(xss)
    ensures forall x :: x in r <==> exists i :: 0 <= i < |xss| && x in xss[i]
  {
    if |xss| == 0 then []
    else
      var init := xss[..|xss|-1];
      var r := Flatten(init) + xss[|xss|-1];
      assert forall i :: 0 <= i < |init| ==> init[i] == xss[i];
      r
  }

  function TotalLength<T>(xss: seq<seq<T>>): nat {
    if |xss| == 0 then 0 else TotalLength(xss[..|xss|-1]) + |xss[|xss|-1]|
  }

  /** Occurrences of `x` in one list. */
  function CountIn<T(==)>(xs: seq<T>, x: T): nat {
    if |xs| == 0 then 0 else CountIn(xs[..|xs|-1], x) + (if xs[|xs|-1] == x then 1 else 0)
  }

  /** Occurrences of `x` over all lists. */
  function CountAcross<T(==)>(xss: seq<seq<T>>, x: T): nat {
    if |xss| == 0 then 0 else CountAcross(xss[..|xss|-1], x) + CountIn(xss[|xss|-1], x)
  }

  function Itself(s: string): string {
    s
  }

  lemma {:induction false} SumWhereAppend<T, K>(a: seq<T>, b: seq<T>, key: T -> K, weight: T -> nat, k: K)
    ensures SumWhere(a + b, key, weight, k) == SumWhere(a, key, weight, k) + SumWhere(b, key, weight, k)
    decreases |b|
  {
    if |b| == 0 {
      assert a + b == a;
    } else {
      assert (a + b)[..|a + b| - 1] == a + b[..|b|-1];
      SumWhereAppend(a, b[..|b|-1], key, weight, k);
    }
  }

  lemma {:induction false} SumWhereCount(xs: seq<string>, x: string)
    ensures SumWhere(xs, Itself, Once, x) == CountIn(xs, x)
  {
    if |xs| > 0 {
      SumWhereCount(xs[..|xs|-1], x);
    }
  }

  /** Counting over the flattened list is counting in every list and adding
      up. */
  lemma {:induction false} SumWhereFlatten(xss: seq<seq<string>>, x: string)
    ensures SumWhere(Flatten(xss), Itself, Once, x) == CountAcross(xss, x)
  {
    if |xss| > 0 {
      var init := xss[..|xss|-1];
      SumWhereFlatten(init, x);
      SumWhereAppend(Flatten(init), xss[|xss|-1], Itself, Once, x);
      SumWhereCount(xss[|xss|-1], x);
    }
  }

  function Once(s: string): nat {
    1
  }

  /** `tagMap` sorted by count: one entry per distinct tag, its count the
      number of times it is listed over all videos, the counts adding up to
      the number of tags listed, largest first. */
  function TagStats(tagLists: seq<seq<string>>): (r: Table<string>)
    ensures DistinctKeys(r)
    ensures SortedBy(r, ByTotal)
    ensures forall i :: 0 <= i < |r| ==> r[i].1 == CountAcross(tagLists, r[i].0)
    ensures forall t :: t in Keys(r) <==> CountAcross(tagLists, t) > 0
    ensures Total(r) == TotalLength(tagLists)
  {
    var all := Flatten(tagLists);
    var r := RankedGroups(all, Itself, Once);
    SumAllOnes(all, Once);
    TagFacts(tagLists, r);
    r
  }

  lemma TagFacts(tagLists: seq<seq<string>>, r: Table<string>)
    requires forall i :: 0 <= i < |r| ==> r[i].1 == SumWhere(Flatten(tagLists), Itself, Once, r[i].0)
    requires forall t :: Occurs(Flatten(tagLists), Itself, t) <==> t in Keys(r)
    ensures forall i :: 0 <= i < |r| ==> r[i].1 == CountAcross(tagLists, r[i].0)
    ensures forall t :: t in Keys(r) <==> CountAcross(tagLists, t) > 0
  {
    var all := Flatten(tagLists);
    forall i | 0 <= i < |r| ensures r[i].1 == CountAcross(tagLists, r[i].0) {
      SumWhereFlatten(tagLists, r[i].0);
    }
    forall t ensures t in Keys(r) <==> CountAcross(tagLists, t) > 0 {
      SumWhereFlatten(tagLists, t);
      if Occurs(all, Itself, t) {
        var j :| 0 <= j < |all| && Itself(all[j]) == t;
        SumWherePositive(all, Itself, Once, j);
      }
      if CountAcross(tagLists, t) > 0 {
        SumWhereOccurs(all, Itself, Once, t);
      }
    }
  }

  /** `new URL(topic).pathname.split('/').pop() || topic`: the last path
      segment of the topic URL, given as `lastSegment`, or the whole text
      when that segment is empty. */
  function TopicName(lastSegment: string -> string, topic: string): string {
    if lastSegment(topic) != "" then lastSegment(topic) else topic
  }

  function TopicNameBy(lastSegment: string -> string): string -> string {
    (t: string) => TopicName(lastSegment, t)
  }

  /** `topicMap` sorted by count: the topics grouped by name, each name's
      count the number of topic entries with that name. */
  function TopicStats(topicLists: seq<seq<string>>, lastSegment: string -> string): (r: Table<string>)
    ensures DistinctKeys(r)
    ensures SortedBy(r, ByTotal)
    ensures forall i :: 0 <= i < |r| ==> r[i].1 == SumWhere(Flatten(topicLists), TopicNameBy(lastSegment), Once, r[i].0)
    ensures forall n :: n in Keys(r) <==> Occurs(Flatten(topicLists), TopicNameBy(lastSegment), n)
    ensures Total(r) == TotalLength(topicLists)
  {
    var all := Flatten(topicLists);
    SumAllOnes(all, Once);
    RankedGroups(all, TopicNameBy(lastSegment), Once)
  }

  /** A topic whose URL has a last segment is counted under that segment. */
  lemma TopicUnderSegment(topicLists: seq<seq<string>>, lastSegment: string -> string, i: nat, j: nat)
    requires i < |topicLists| && j < |topicLists[i]| && lastSegment(topicLists[i][j]) != ""
    ensures lastSegment(topicLists[i][j]) in Keys(TopicStats(topicLists, lastSegment))
  {
    var all := Flatten(topicLists);
    var k := FlattenIndex(topicLists, i, j);
    assert TopicNameBy(lastSegment)(all[k]) == lastSegment(topicLists[i][j]);
  }

  /** Where an element of one list lands in the flattened list. */
  lemma {:induction false} FlattenIndex<T(!new)>(xss: seq<seq<T>>, i: nat, j: nat) returns (k: nat)
    requires i < |xss| && j < |xss[i]|
    ensures k < |Flatten(xss)| && Flatten(xss)[k] == xss[i][j]
  {
    var init := xss[..|xss|-1];
    if i == |xss| - 1 {
      k := |Flatten(init)| + j;
    } else {
      assert init[i] == xss[i];
      k := FlattenIndex(init, i, j);
    }
  }

  // ---------------------------------------------------------------------
  // Tag pairs.

  /** The tag pairs `(tags[i], tags[j])` for `i < j`, in loop order. */
  function PairsFrom(tags: seq<string>, i: nat): (r: seq<(string, string)>)
    requires i <= |tags|
    ensures 2 * |r| == (|tags| - i) * (|tags| - i - 1)
    decreases |tags| - i
  {
    if i == |tags| then []
    else
      var rest := PairsFrom(tags, i + 1);
      PairCount(|tags| - i, |rest|);
      Partners(tags, i) + rest
  }

  lemma PairCount(m: nat, restLength: nat)
    requires m > 0 && 2 * restLength == (m - 1) * (m - 2)
    ensures 2 * ((m - 1) + restLength) == m * (m - 1)
  {
  }

  /** A video with `n` tags has `n(n-1)/2` pairs. */
  function Pairs(tags: seq<string>): (r: seq<(string, string)>)
    ensures 2 * |r| == |tags| * (|tags| - 1)
  {
    PairsFrom(tags, 0)
  }

  /** The tags at some positions `p < q`, both at or after `i`, are `a` and `b`. */
  predicate PairAfter(tags: seq<string>, i: nat, a: string, b: string) {
    exists p, q :: i <= p < q < |tags| && tags[p] == a && tags[q] == b
  }

  /** The pairs that `tags[i]` starts. */
  function Partners(tags: seq<string>, i: nat): seq<(string, string)>
    requires i < |tags|
  {
    seq(|tags| - i - 1, k requires 0 <= k < |tags| - i - 1 => (tags[i], tags[i + 1 + k]))
  }

  /** The pairs are exactly the index pairs `i < j`. */
  lemma {:induction false} PairsFromMembers(tags: seq<string>, i: nat, a: string, b: string)
    requires i <= |tags|
    ensures (a, b) in PairsFrom(tags, i) <==> PairAfter(tags, i, a, b)
    decreases |tags| - i
  {
    if i < |tags| {
      PairsFromMembers(tags, i + 1, a, b);
      assert PairsFrom(tags, i) == Partners(tags, i) + PairsFrom(tags, i + 1);
      PartnerMember(tags, i, a, b);
      if PairAfter(tags, i, a, b) {
        PairAfterSplit(tags, i, a, b);
      }
    }
  }

  lemma PartnerMember(tags: seq<string>, i: nat, a: string, b: string)
    requires i < |tags|
    ensures (a, b) in Partners(tags, i) <==> (tags[i] == a && exists q :: i < q < |tags| && tags[q] == b)
  {
    var partners := Partners(tags, i);
    if (a, b) in partners {
      var k :| 0 <= k < |partners| && partners[k] == (a, b);
      assert tags[i + 1 + k] == b;
    }
    if tags[i] == a && exists q :: i < q < |tags| && tags[q] == b {
      var q :| i < q < |tags| && tags[q] == b;
      assert partners[q - i - 1] == (a, b);
    }
  }

  lemma PairAfterSplit(tags: seq<string>, i: nat, a: string, b: string)
    requires i < |tags| && PairAfter(tags, i, a, b)
    ensures (tags[i] == a && exists q :: i < q < |tags| && tags[q] == b) || PairAfter(tags, i + 1, a, b)
  {
    var p, q :| i <= p < q < |tags| && tags[p] == a && tags[q] == b;
    if p > i {
      assert i + 1 <= p < q < |tags|;
    }
  }

  /** `[a, b].sort().join('::')`, the key as the source writes it. */
  function JoinedKey(a: string, b: string): string {
    if LexLe(a, b) then a + "::" + b else b + "::" + a
  }

  /** The two tags in sorted order: the key the rest of this model uses. */
  function PairKey(a: string, b: string): (k: (string, string))
    ensures LexLe(k.0, k.1)
    ensures (k.0 == a && k.1 == b) || (k.0 == b && k.1 == a)
  {
    LexLeTotal(a, b);
    if LexLe(a, b) then (a, b) else (b, a)
  }

  /** Both keys ignore the order of the two tags. */
  lemma KeysSymmetric(a: string, b: string)
    ensures JoinedKey(a, b) == JoinedKey(b, a)
    ensures PairKey(a, b) == PairKey(b, a)
  {
    LexLeTotal(a, b);
    if LexLe(a, b) && LexLe(b, a) {
      LexLeAntisymmetric(a, b);
    }
  }

  /** The sorted pair is a faithful key: two tag pairs share it exactly when
      they are the same two tags. */
  lemma PairKeyInjective(a: string, b: string, c: string, d: string)
    ensures PairKey(a, b) == PairKey(c, d) <==> (a == c && b == d) || (a == d && b == c)
  {
    KeysSymmetric(a, b);
    KeysSymmetric(c, d);
    if (a == c && b == d) || (a == d && b == c) {
      KeysSymmetric(c, d);
    }
  }

  /** The joined key is not: the pairs ("a::b", "c") and ("a", "b::c")
      share the key "a::b::c", so their statistics are merged, and splitting
      the key on "::" gives three tags. */
  lemma JoinedKeyCollides()
    ensures JoinedKey("a::b", "c") == JoinedKey("a", "b::c") == "a::b::c"
    ensures PairKey("a::b", "c") != PairKey("a", "b::c")
  {
    assert LexLe("a::b", "c");
    assert LexLe("a", "b::c");
  }
}
