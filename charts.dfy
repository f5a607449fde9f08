/** The three chart tables built from the filtered view: revenue per region
    (the pie), revenue per date (the trend line) and revenue per product,
    ranked (the bar chart). */
module Charts {
  import opened Records
  import opened Grouping

  /** Selecting a key column and the Revenue column of a frame, row by row. */
  function Project<K(!new)>(view: seq<SalesRecord>, key: SalesRecord -> K): (ps: seq<(K, real)>)
    ensures |ps| == |view|
    ensures forall i :: 0 <= i < |view| ==> ps[i] == (key(view[i]), view[i].revenue)
    ensures forall k :: k in Keys(ps) <==> exists r :: r in view && key(r) == k
    ensures Total(ps) == TotalRevenue(view)
  {
    if view == [] then []
    else
      var tail := Project(view[1..], key);
      var ps := [(key(view[0]), view[0].revenue)] + tail;
      assert ps[1..] == tail;
      assert view == [view[0]] + view[1..];
      ps
  }

  /** The (Region, Revenue) columns that the pie aggregates by label. */
  function ByRegion(view: seq<SalesRecord>): seq<(string, real)>
  {
    Project(view, RegionOf)
  }

  /** `view.groupby("Date")["Revenue"]` before summing. */
  function ByDate(view: seq<SalesRecord>): seq<(int, real)>
  {
    Project(view, DateOf)
  }

  /** `view.groupby("Product")["Revenue"]` before summing. */
  function ByProduct(view: seq<SalesRecord>): seq<(string, real)>
  {
    Project(view, ProductOf)
  }

  /** The pie's table: one slice per region present in the view, each the
      revenue of that region's rows; the slices add up to the KPI total. */
  function RegionShare(view: seq<SalesRecord>): (share: seq<(string, real)>)
    ensures DistinctKeys(share)
    ensures forall g :: g in Keys(share) <==> g in Distinct(view, RegionOf)
    ensures |share| == |Distinct(view, RegionOf)|
    ensures forall s :: s in share ==> s.1 == SumFor(ByRegion(view), s.0)
    ensures Total(share) == TotalRevenue(view)
  {
    var share := GroupSum(ByRegion(view));
    DistinctKeysCount(share);
    assert (set k | k in Keys(share)) == Distinct(view, RegionOf);
    share
  }

  /** The trend line's table: one point per date present in the view, dates
      strictly ascending, each the revenue of that date's rows; the points
      add up to the KPI total. */
  function DateTrend(view: seq<SalesRecord>): (trend: seq<(int, real)>)
    ensures StrictlyAscending(trend)
    ensures DistinctKeys(trend)
    ensures forall d :: d in Keys(trend) <==> d in Distinct(view, DateOf)
    ensures |trend| == |Distinct(view, DateOf)|
    ensures forall t :: t in trend ==> t.1 == SumFor(ByDate(view), t.0)
    ensures Total(trend) == TotalRevenue(view)
  {
    var groups := GroupSum(ByDate(view));
    var trend := SortByKey(groups);
    assert forall t :: t in trend ==> t in groups by {
      forall t | t in trend ensures t in groups {
        assert t in multiset(trend);
      }
    }
    DistinctKeysCount(trend);
    assert (set k | k in Keys(trend)) == Distinct(view, DateOf);
    trend
  }

  /** The trend is the only strictly ascending arrangement of the per-date
      groups, so the order in which the groups were formed does not matter. */
  lemma TrendIsUnique(view: seq<SalesRecord>, t: seq<(int, real)>)
    requires StrictlyAscending(t)
    requires multiset(t) == multiset(GroupSum(ByDate(view)))
    ensures t == DateTrend(view)
  {
    AscendingIsUnique(t, DateTrend(view));
  }

  /** The bar chart's table: one bar per product present in the view, each
      the revenue of that product's rows, sums never increasing along the
      table; the bars add up to the KPI total. The order of products with
      equal sums is left open. */
  function ProductRanking(view: seq<SalesRecord>): (ranking: seq<(string, real)>)
    ensures NonIncreasing(ranking)
    ensures DistinctKeys(ranking)
    ensures forall p :: p in Keys(ranking) <==> p in Distinct(view, ProductOf)
    ensures |ranking| == |Distinct(view, ProductOf)|
    ensures forall b :: b in ranking ==> b.1 == SumFor(ByProduct(view), b.0)
    ensures Total(ranking) == TotalRevenue(view)
  {
    var groups := GroupSum(ByProduct(view));
    var ranking := RankByRevenue(groups);
    assert forall b :: b in ranking ==> b in groups by {
      forall b | b in ranking ensures b in groups {
        assert b in multiset(ranking);
      }
    }
    DistinctKeysCount(ranking);
    assert (set k | k in Keys(ranking)) == Distinct(view, ProductOf);
    ranking
  }
}
