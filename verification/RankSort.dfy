/**
 Sorting by rank: buckets by rank, highest rank first; inside a bucket the order of arrival, or by string.
 */
module RankSort {
  datatype Ranked<T> = Ranked(rank: nat, item: T)

  /** The items of one rank, in order. */
  function Bucket<T>(s: seq<Ranked<T>>, r: nat): seq<T> {
    if s == [] then [] else (if s[0].rank == r then [s[0].item] else []) + Bucket(s[1..], r)
  }

  predicate Descending<T>(s: seq<Ranked<T>>) {
    forall i, j :: 0 <= i < j < |s| ==> s[i].rank >= s[j].rank
  }

  function Tagged<T>(r: nat, items: seq<T>): seq<Ranked<T>> {
    seq(|items|, i requires 0 <= i < |items| => Ranked(r, items[i]))
  }

  lemma {:induction false} BucketThen<T>(s: seq<Ranked<T>>, t: seq<Ranked<T>>, r: nat)
    ensures Bucket(s + t, r) == Bucket(s, r) + Bucket(t, r)
  {
    if s == [] {
      assert s + t == t;
    } else {
      var head := if s[0].rank == r then [s[0].item] else [];
      BucketThen(s[1..], t, r);
      assert (s + t)[0] == s[0] && (s + t)[1..] == s[1..] + t;
      assert head + (Bucket(s[1..], r) + Bucket(t, r)) == (head + Bucket(s[1..], r)) + Bucket(t, r);
    }
  }

  lemma {:induction false} BucketTagged<T>(q: nat, items: seq<T>, r: nat)
    ensures Bucket(Tagged(q, items), r) == if q == r then items else []
  {
    if items != [] {
      BucketTagged(q, items[1..], r);
      assert Tagged(q, items)[1..] == Tagged(q, items[1..]);
    }
  }

  /** Equal buckets mean a permutation that keeps the order inside each rank. */
  lemma BucketsDecide<T>(s: seq<Ranked<T>>, x: Ranked<T>)
    ensures x in s <==> x.item in Bucket(s, x.rank)
    ensures multiset(s)[x] == multiset(Bucket(s, x.rank))[x.item]
  {
    BucketsCount(s, x);
    assert x in s <==> x in multiset(s);
    assert x.item in Bucket(s, x.rank) <==> x.item in multiset(Bucket(s, x.rank));
  }

  lemma {:induction false} BucketsCount<T>(s: seq<Ranked<T>>, x: Ranked<T>)
    ensures multiset(s)[x] == multiset(Bucket(s, x.rank))[x.item]
  {
    if s != [] {
      BucketsCount(s[1..], x);
      assert s == [s[0]] + s[1..];
      var head := if s[0].rank == x.rank then [s[0].item] else [];
      assert multiset(head + Bucket(s[1..], x.rank)) == multiset(head) + multiset(Bucket(s[1..], x.rank));
    }
  }

  method MaxKey(keys: set<nat>) returns (m: nat)
    requires keys != {}
    ensures m in keys && forall k <- keys :: k <= m
  {
    m :| m in keys;
    var rest := keys - {m};
    while rest != {}
      invariant m in keys && rest <= keys
      invariant forall k <- keys :: k in rest || k <= m
      decreases |rest|
    {
      var k :| k in rest;
      if k > m {
        m := k;
      }
      rest := rest - {k};
    }
  }

  /** One list per rank. */
  method Buckets<T>(items: seq<Ranked<T>>) returns (buckets: map<nat, seq<T>>)
    ensures forall r :: (r in buckets <==> Bucket(items, r) != []) && (r in buckets ==> buckets[r] == Bucket(items, r))
  {
    buckets := map[];
    var i := 0;
    while i < |items|
      invariant 0 <= i <= |items|
      invariant forall r :: (r in buckets <==> Bucket(items[..i], r) != []) && (r in buckets ==> buckets[r] == Bucket(items[..i], r))
    {
      var rank := items[i].rank;
      assert items[..i + 1] == items[..i] + [items[i]];
      forall r: nat ensures Bucket(items[..i + 1], r) == Bucket(items[..i], r) + if r == rank then [items[i].item] else [] {
        BucketThen(items[..i], [items[i]], r);
      }
      if rank !in buckets {
        buckets := buckets[rank := []];
      }
      buckets := buckets[rank := buckets[rank] + [items[i].item]];
      i := i + 1;
    }
    assert items[..i] == items;
  }

  predicate AtLeast<T>(s: seq<Ranked<T>>, r: nat) {
    forall i :: 0 <= i < |s| ==> s[i].rank >= r
  }

  lemma ListAppended<T>(sorted: seq<Ranked<T>>, r: nat, list: seq<T>)
    requires Descending(sorted) && AtLeast(sorted, r)
    ensures Descending(sorted + Tagged(r, list)) && AtLeast(sorted + Tagged(r, list), r)
    ensures forall q :: Bucket(sorted + Tagged(r, list), q) == Bucket(sorted, q) + if q == r then list else []
  {
    forall q: nat ensures Bucket(sorted + Tagged(r, list), q) == Bucket(sorted, q) + if q == r then list else [] {
      BucketThen(sorted, Tagged(r, list), q);
      BucketTagged(r, list, q);
    }
  }

  lemma AtLeastLess<T>(s: seq<Ranked<T>>, r: nat, keys: set<nat>)
    requires AtLeast(s, r) && forall k <- keys :: k <= r
    ensures forall k <- keys :: AtLeast(s, k)
  {
  }

  /** What is known of rank r while some ranks are still to come. */
  ghost predicate Arrived<T>(sorted: seq<Ranked<T>>, items: seq<Ranked<T>>, coming: set<nat>, r: nat) {
    if r in coming then Bucket(sorted, r) == [] && AtLeast(sorted, r) else Bucket(sorted, r) == Bucket(items, r)
  }

  lemma ArrivedThen<T>(sorted: seq<Ranked<T>>, items: seq<Ranked<T>>, coming: set<nat>, r: nat, q: nat)
    requires Descending(sorted) && r in coming && (forall k <- coming :: k <= r)
    requires Arrived(sorted, items, coming, r) && Arrived(sorted, items, coming, q)
    ensures Arrived(sorted + Tagged(r, Bucket(items, r)), items, coming - {r}, q)
  {
    ListAppended(sorted, r, Bucket(items, r));
    assert Bucket(sorted + Tagged(r, Bucket(items, r)), q) == if q == r then Bucket(items, r) else Bucket(sorted, q);
  }

  /** krsort, then the lists one after the other. */
  method SortByRank<T>(items: seq<Ranked<T>>) returns (sorted: seq<Ranked<T>>)
    ensures Descending(sorted)
    ensures forall r :: Bucket(sorted, r) == Bucket(items, r)
  {
    var buckets := Buckets(items);
    sorted := [];
    var keys := buckets.Keys;
    while keys != {}
      invariant keys <= buckets.Keys && Descending(sorted)
      invariant forall q :: Arrived(sorted, items, keys, q)
      decreases |keys|
    {
      var r := MaxKey(keys);
      assert Arrived(sorted, items, keys, r);
      ListAppended(sorted, r, buckets[r]);
      forall q: nat ensures Arrived(sorted + Tagged(r, buckets[r]), items, keys - {r}, q) {
        ArrivedThen(sorted, items, keys, r, q);
      }
      sorted := sorted + Tagged(r, buckets[r]);
      keys := keys - {r};
    }
    forall r: nat ensures Bucket(sorted, r) == Bucket(items, r) {
      assert Arrived(sorted, items, keys, r);
    }
  }

  // Order by string

  /** A ZEPHIR_INIT call, and the definition it initializes. */
  datatype Init = Init(call: string, name: string)

  /** SORT_STRING */
  predicate AtMost(a: string, b: string) {
    a == [] || (b != [] && (a[0] < b[0] || (a[0] == b[0] && AtMost(a[1..], b[1..]))))
  }

  lemma {:induction false} AtMostTotal(a: string, b: string)
    ensures AtMost(a, b) || AtMost(b, a)
  {
    if a != [] && b != [] {
      AtMostTotal(a[1..], b[1..]);
    }
  }

  lemma {:induction false} AtMostTransitive(a: string, b: string, c: string)
    requires AtMost(a, b) && AtMost(b, c)
    ensures AtMost(a, c)
  {
    if a != [] && b != [] && c != [] {
      if a[0] == b[0] == c[0] {
        AtMostTransitive(a[1..], b[1..], c[1..]);
      }
    }
  }

  predicate InOrder(s: seq<Init>) {
    forall i, j :: 0 <= i < j < |s| ==> AtMost(s[i].call, s[j].call)
  }

  /** Inserts behind everything that is at most x. */
  method Insert(s: seq<Init>, x: Init) returns (r: seq<Init>)
    requires InOrder(s)
    ensures InOrder(r) && multiset(r) == multiset(s) + multiset{x}
  {
    var i := 0;
    while i < |s| && AtMost(s[i].call, x.call)
      invariant 0 <= i <= |s|
      invariant forall j :: 0 <= j < i ==> AtMost(s[j].call, x.call)
    {
      i := i + 1;
    }
    r := s[..i] + [x] + s[i..];
    assert s == s[..i] + s[i..];
    forall j | i <= j < |s| ensures AtMost(x.call, s[j].call) {
      AtMostTotal(x.call, s[i].call);
      if j > i {
        AtMostTransitive(x.call, s[i].call, s[j].call);
      }
    }
  }

  /** asort */
  method SortByCall(s: seq<Init>) returns (r: seq<Init>)
    ensures InOrder(r) && multiset(r) == multiset(s)
  {
    r := [];
    var i := 0;
    while i < |s|
      invariant 0 <= i <= |s| && InOrder(r) && multiset(r) == multiset(s[..i])
    {
      assert s[..i + 1] == s[..i] + [s[i]];
      r := Insert(r, s[i]);
      i := i + 1;
    }
    assert s[..i] == s;
  }

  /** What is known of rank r while some ranks are still to come. */
  ghost predicate Placed(sorted: seq<Ranked<Init>>, items: seq<Ranked<Init>>, coming: set<nat>, r: nat) {
    if r in coming then Bucket(sorted, r) == [] && AtLeast(sorted, r)
    else multiset(Bucket(sorted, r)) == multiset(Bucket(items, r)) && InOrder(Bucket(sorted, r))
  }

  lemma PlacedThen(sorted: seq<Ranked<Init>>, items: seq<Ranked<Init>>, coming: set<nat>, r: nat, list: seq<Init>, q: nat)
    requires Descending(sorted) && r in coming && (forall k <- coming :: k <= r)
    requires Placed(sorted, items, coming, r) && Placed(sorted, items, coming, q)
    requires multiset(list) == multiset(Bucket(items, r)) && InOrder(list)
    ensures Placed(sorted + Tagged(r, list), items, coming - {r}, q) && Descending(sorted + Tagged(r, list))
  {
    ListAppended(sorted, r, list);
    assert Bucket(sorted + Tagged(r, list), q) == if q == r then list else Bucket(sorted, q);
  }

  /** krsort, with every list sorted by string. */
  method SortInits(items: seq<Ranked<Init>>) returns (sorted: seq<Ranked<Init>>)
    ensures Descending(sorted)
    ensures forall r :: multiset(Bucket(sorted, r)) == multiset(Bucket(items, r)) && InOrder(Bucket(sorted, r))
  {
    var buckets := Buckets(items);
    sorted := [];
    var keys := buckets.Keys;
    while keys != {}
      invariant keys <= buckets.Keys && Descending(sorted)
      invariant forall q :: Placed(sorted, items, keys, q)
      decreases |keys|
    {
      var r := MaxKey(keys);
      var list := SortByCall(buckets[r]);
      assert Placed(sorted, items, keys, r);
      ListAppended(sorted, r, list);
      forall q: nat ensures Placed(sorted + Tagged(r, list), items, keys - {r}, q) {
        PlacedThen(sorted, items, keys, r, list, q);
      }
      sorted := sorted + Tagged(r, list);
      keys := keys - {r};
    }
    forall r: nat ensures multiset(Bucket(sorted, r)) == multiset(Bucket(items, r)) && InOrder(Bucket(sorted, r)) {
      assert Placed(sorted, items, keys, r);
    }
  }

  /** A sorted list has the same elements. */
  lemma SameElements(items: seq<Ranked<Init>>, sorted: seq<Ranked<Init>>)
    requires forall r :: multiset(Bucket(sorted, r)) == multiset(Bucket(items, r))
    ensures multiset(sorted) == multiset(items)
  {
    forall x ensures multiset(sorted)[x] == multiset(items)[x] {
      BucketsDecide(sorted, x);
      BucketsDecide(items, x);
    }
  }
}
