/** Group-by-and-sum over (key, revenue) pairs, and the two orderings the
    dashboard puts the groups in. A pair list stands for one key column
    and the Revenue column of a frame; a group list holds one (key, sum)
    entry per group. */
module Grouping {

  /** The key column of a pair list. */
  function Keys<K>(ps: seq<(K, real)>): (ks: seq<K>)
    ensures |ks| == |ps|
    ensures forall i {:trigger ks[i]} :: 0 <= i < |ps| ==> ks[i] == ps[i].0
  {
    if ps == [] then [] else [ps[0].0] + Keys(ps[1..])
  }

  /** The revenue column summed. */
  function Total<K>(ps: seq<(K, real)>): real
  {
    if ps == [] then 0.0 else ps[0].1 + Total(ps[1..])
  }

  /** The revenue of the pairs whose key is `k` summed; 0 if there are none. */
  function SumFor<K(==)>(ps: seq<(K, real)>, k: K): real
  {
    if ps == [] then 0.0
    else (if ps[0].0 == k then ps[0].1 else 0.0) + SumFor(ps[1..], k)
  }

  /** No key occurs twice. */
  predicate DistinctKeys<K(==)>(ps: seq<(K, real)>)
  {
    ps == [] || (ps[0].0 !in Keys(ps[1..]) && DistinctKeys(ps[1..]))
  }

  /** The pairs whose key is not `k`, in order. The total splits into the
      group of `k` and the rest, and no other group changes. */
  function Without<K(==,!new)>(ps: seq<(K, real)>, k: K): (rest: seq<(K, real)>)
    ensures |rest| <= |ps|
    ensures k in Keys(ps) ==> |rest| < |ps|
    ensures forall j :: j in Keys(rest) <==> j in Keys(ps) && j != k
    ensures forall j :: j != k ==> SumFor(rest, j) == SumFor(ps, j)
    ensures Total(ps) == SumFor(ps, k) + Total(rest)
  {
    if ps == [] then []
    else
      var tail := Without(ps[1..], k);
      if ps[0].0 == k then tail
      else
        var rest := [ps[0]] + tail;
        assert rest[1..] == tail;
        rest
  }

  /** `groupby(key)[value].sum()`: one entry per distinct key, in the order
      the keys first occur, carrying the sum of that key's revenue. */
  function GroupSum<K(==,!new)>(ps: seq<(K, real)>): (gs: seq<(K, real)>)
    ensures DistinctKeys(gs)
    ensures forall k :: k in Keys(gs) <==> k in Keys(ps)
    ensures forall g :: g in gs ==> g.1 == SumFor(ps, g.0)
    ensures Total(gs) == Total(ps)
    decreases |ps|
  {
    if ps == [] then []
    else
      var k := ps[0].0;
      var rest := Without(ps, k);
      var tail := GroupSum(rest);
      var gs := [(k, SumFor(ps, k))] + tail;
      assert gs[1..] == tail;
      assert forall i :: 1 <= i < |gs| ==> gs[i] == tail[i - 1];
      assert forall i :: 1 <= i < |gs| ==> gs[i].0 in Keys(tail) by {
        forall i | 1 <= i < |gs| ensures gs[i].0 in Keys(tail) {
          KeysAt(tail, i - 1);
        }
      }
      gs
  }

  /** A key that does not occur has sum 0 and removes nothing. */
  lemma {:induction false} AbsentKey<K(!new)>(ps: seq<(K, real)>, k: K)
    requires k !in Keys(ps)
    ensures SumFor(ps, k) == 0.0
    ensures Without(ps, k) == ps
  {
    if ps != [] {
      assert Keys(ps) == [ps[0].0] + Keys(ps[1..]);
      AbsentKey(ps[1..], k);
      assert ps == [ps[0]] + ps[1..];
    }
  }

  /** Pairs whose keys are already distinct are their own groups. */
  lemma {:induction false} GroupSumOfDistinct<K(!new)>(ps: seq<(K, real)>)
    requires DistinctKeys(ps)
    ensures GroupSum(ps) == ps
  {
    if ps != [] {
      AbsentKey(ps[1..], ps[0].0);
      GroupSumOfDistinct(ps[1..]);
      assert ps == [ps[0]] + ps[1..];
    }
  }

  /** With distinct keys there are exactly as many entries as keys. */
  lemma {:induction false} DistinctKeysCount<K>(ps: seq<(K, real)>)
    requires DistinctKeys(ps)
    ensures |set k | k in Keys(ps)| == |ps|
  {
    if ps != [] {
      DistinctKeysCount(ps[1..]);
      var tailKeys := set k | k in Keys(ps[1..]);
      assert (set k | k in Keys(ps)) == {ps[0].0} + tailKeys;
      assert ps[0].0 !in tailKeys;
    }
  }

  /** The key of entry `i` is in the key column. */
  lemma KeysAt<K>(ps: seq<(K, real)>, i: nat)
    requires i < |ps|
    ensures ps[i].0 in Keys(ps)
  {
    assert Keys(ps)[i] == ps[i].0;
  }

  /** Dates strictly ascending from each entry to the next. */
  predicate StrictlyAscending(ps: seq<(int, real)>)
  {
    forall i :: 0 < i < |ps| ==> ps[i - 1].0 < ps[i].0
  }

  /** Insert one group into a list ascending by date, in front of the first
      entry whose date is not earlier. */
  function InsertByKey(e: (int, real), ps: seq<(int, real)>): (r: seq<(int, real)>)
    ensures multiset(r) == multiset(ps) + multiset{e}
    ensures forall j :: j in Keys(r) <==> j == e.0 || j in Keys(ps)
    ensures Total(r) == e.1 + Total(ps)
    ensures DistinctKeys(ps) && e.0 !in Keys(ps) ==> DistinctKeys(r)
    ensures r[0] == e || (ps != [] && r[0] == ps[0])
  {
    if ps == [] then [e]
    else if e.0 <= ps[0].0 then
      var r := [e] + ps;
      assert r[1..] == ps;
      r
    else
      var tail := InsertByKey(e, ps[1..]);
      var r := [ps[0]] + tail;
      assert r[1..] == tail;
      assert ps == [ps[0]] + ps[1..];
      r
  }

  /** Inserting a new date keeps the list strictly ascending. */
  lemma {:induction false} InsertByKeyAscending(e: (int, real), ps: seq<(int, real)>)
    requires StrictlyAscending(ps) && e.0 !in Keys(ps)
    ensures StrictlyAscending(InsertByKey(e, ps))
  {
    if ps != [] && e.0 > ps[0].0 {
      InsertByKeyAscending(e, ps[1..]);
      var tail := InsertByKey(e, ps[1..]);
      assert InsertByKey(e, ps) == [ps[0]] + tail;
    }
  }

  /** `sort_values("Date")`: the groups by ascending date. With distinct
      dates the order is strict, so no other order is possible. */
  function SortByKey(ps: seq<(int, real)>): (r: seq<(int, real)>)
    ensures multiset(r) == multiset(ps)
    ensures forall j :: j in Keys(r) <==> j in Keys(ps)
    ensures Total(r) == Total(ps)
    ensures DistinctKeys(ps) ==> DistinctKeys(r) && StrictlyAscending(r)
  {
    if ps == [] then []
    else
      assert ps == [ps[0]] + ps[1..];
      var sorted := SortByKey(ps[1..]);
      var r := InsertByKey(ps[0], sorted);
      assert DistinctKeys(ps) ==> DistinctKeys(r) && StrictlyAscending(r) by {
        if DistinctKeys(ps) {
          assert ps[0].0 !in Keys(sorted);
          InsertByKeyAscending(ps[0], sorted);
        }
      }
      r
  }

  /** Sorting a list that is already strictly ascending changes nothing. */
  lemma {:induction false} SortByKeyOfAscending(ps: seq<(int, real)>)
    requires StrictlyAscending(ps)
    ensures SortByKey(ps) == ps
  {
    if ps != [] {
      SortByKeyOfAscending(ps[1..]);
      assert ps == [ps[0]] + ps[1..];
    }
  }

  /** In a strictly ascending list the first date is below every later one. */
  lemma {:induction false} HeadIsEarliest(ps: seq<(int, real)>, i: nat)
    requires StrictlyAscending(ps) && 0 < i < |ps|
    ensures ps[0].0 < ps[i].0
  {
    if i > 1 {
      HeadIsEarliest(ps, i - 1);
    }
  }

  /** Two non-empty strictly ascending arrangements of the same entries
      start with the same entry: each head is the earliest date. */
  lemma SameHead(a: seq<(int, real)>, b: seq<(int, real)>)
    requires StrictlyAscending(a) && StrictlyAscending(b)
    requires a != [] && b != [] && multiset(a) == multiset(b)
    ensures a[0] == b[0]
  {
    assert a[0] in multiset(b) && b[0] in multiset(a);
    var i :| 0 <= i < |b| && b[i] == a[0];
    var j :| 0 <= j < |a| && a[j] == b[0];
    if i > 0 {
      HeadIsEarliest(b, i);
      if j > 0 {
        HeadIsEarliest(a, j);
      }
      assert false;
    }
  }

  /** Dropping the head drops one occurrence of it. */
  lemma MultisetOfTail<T>(a: seq<T>)
    requires a != []
    ensures multiset(a[1..]) == multiset(a) - multiset{a[0]}
  {
    assert a == [a[0]] + a[1..];
  }

  /** Two strictly ascending arrangements of the same entries are equal: the
      date order leaves no choice. */
  lemma {:induction false} AscendingIsUnique(a: seq<(int, real)>, b: seq<(int, real)>)
    requires StrictlyAscending(a) && StrictlyAscending(b)
    requires multiset(a) == multiset(b)
    ensures a == b
  {
    if a == [] {
      assert |multiset(b)| == 0;
    } else {
      assert |b| == |multiset(b)| == |multiset(a)| == |a|;
      SameHead(a, b);
      MultisetOfTail(a);
      MultisetOfTail(b);
      AscendingIsUnique(a[1..], b[1..]);
      assert a == [a[0]] + a[1..] && b == [b[0]] + b[1..];
    }
  }

  /** Revenue sums never increase from each entry to the next. */
  predicate NonIncreasing<K>(ps: seq<(K, real)>)
  {
    forall i :: 0 < i < |ps| ==> ps[i - 1].1 >= ps[i].1
  }

  /** Insert one group into a list that is non-increasing by revenue, in
      front of the first entry whose sum is not larger. */
  function InsertByRevenue<K(==,!new)>(e: (K, real), ps: seq<(K, real)>): (r: seq<(K, real)>)
    ensures multiset(r) == multiset(ps) + multiset{e}
    ensures forall j :: j in Keys(r) <==> j == e.0 || j in Keys(ps)
    ensures Total(r) == e.1 + Total(ps)
    ensures DistinctKeys(ps) && e.0 !in Keys(ps) ==> DistinctKeys(r)
    ensures r[0] == e || (ps != [] && r[0] == ps[0])
  {
    if ps == [] then [e]
    else if e.1 >= ps[0].1 then
      var r := [e] + ps;
      assert r[1..] == ps;
      r
    else
      var tail := InsertByRevenue(e, ps[1..]);
      var r := [ps[0]] + tail;
      assert r[1..] == tail;
      assert ps == [ps[0]] + ps[1..];
      r
  }

  /** Inserting keeps the list non-increasing by revenue. */
  lemma {:induction false} InsertByRevenueNonIncreasing<K(!new)>(e: (K, real), ps: seq<(K, real)>)
    requires NonIncreasing(ps)
    ensures NonIncreasing(InsertByRevenue(e, ps))
  {
    if ps != [] && e.1 < ps[0].1 {
      InsertByRevenueNonIncreasing(e, ps[1..]);
      var tail := InsertByRevenue(e, ps[1..]);
      assert InsertByRevenue(e, ps) == [ps[0]] + tail;
    }
  }

  /** `sort_values(ascending=False)`: the groups by non-increasing revenue.
      Nothing is promised about the order of groups with equal sums. */
  function RankByRevenue<K(==,!new)>(ps: seq<(K, real)>): (r: seq<(K, real)>)
    ensures multiset(r) == multiset(ps)
    ensures forall j :: j in Keys(r) <==> j in Keys(ps)
    ensures Total(r) == Total(ps)
    ensures DistinctKeys(ps) ==> DistinctKeys(r)
    ensures NonIncreasing(r)
  {
    if ps == [] then []
    else
      assert ps == [ps[0]] + ps[1..];
      var ranked := RankByRevenue(ps[1..]);
      InsertByRevenueNonIncreasing(ps[0], ranked);
      InsertByRevenue(ps[0], ranked)
  }
}
