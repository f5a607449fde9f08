/** One run of the dashboard script: the filter, the two KPIs, the three
    chart tables and the forecast axis, computed afresh from the table and
    the sidebar's values. */
module Dashboard {
  import opened Records
  import opened Filtering
  import opened Grouping
  import opened Charts
  import opened Forecast

  /** What one run computes. `forecastDates` and `productRanking` are None
      when the run stops with an error at the regression fit (an empty
      view), before the product chart is drawn. */
  datatype Page = Page(
    view: seq<SalesRecord>,
    totalRevenue: real,
    totalUnits: int,
    regionShare: seq<(string, real)>,
    trend: seq<(int, real)>,
    forecastDates: Option<seq<int>>,
    productRanking: Option<seq<(string, real)>>)

  /** The script from the filter down to the product chart. Each table is
      the one its chart step builds from the view, so those steps' contracts
      carry over; the clauses after them restate the shape of each table.
      Every chart table accounts for exactly the KPI revenue, and only an
      empty view stops the run. */
  function Render(rows: seq<SalesRecord>, c: Criteria): (p: Page)
    ensures p.view == Filter(rows, c)
    ensures p.regionShare == RegionShare(p.view)
    ensures p.trend == DateTrend(p.view)
    ensures p.forecastDates == ForecastDates(p.trend)
    ensures p.productRanking.Some? ==> p.productRanking.value == ProductRanking(p.view)
    ensures IsSubsequence(p.view, rows)
    ensures forall r :: r in p.view <==> r in rows && Selected(c, r)
    ensures forall r :: multiset(p.view)[r] == if Selected(c, r) then multiset(rows)[r] else 0
    ensures DistinctKeys(p.regionShare) && |p.regionShare| == |Distinct(p.view, RegionOf)|
    ensures forall g :: g in Keys(p.regionShare) <==> g in Distinct(p.view, RegionOf)
    ensures StrictlyAscending(p.trend) && |p.trend| == |Distinct(p.view, DateOf)|
    ensures forall d :: d in Keys(p.trend) <==> d in Distinct(p.view, DateOf)
    ensures p.forecastDates.Some? ==> |p.forecastDates.value| == Horizon
    ensures p.forecastDates.Some? ==> p.forecastDates.value[0] == p.trend[|p.trend| - 1].0
    ensures p.forecastDates.Some? ==>
      forall i :: 0 < i < Horizon ==> p.forecastDates.value[i] == p.forecastDates.value[i - 1] + 1
    ensures p.productRanking.Some? ==> NonIncreasing(p.productRanking.value)
    ensures p.productRanking.Some? ==> DistinctKeys(p.productRanking.value)
    ensures p.productRanking.Some? ==> |p.productRanking.value| == |Distinct(p.view, ProductOf)|
    ensures p.totalRevenue == TotalRevenue(p.view) && p.totalUnits == TotalUnits(p.view)
    ensures Total(p.regionShare) == p.totalRevenue
    ensures Total(p.trend) == p.totalRevenue
    ensures p.forecastDates.None? <==> p.view == []
    ensures p.productRanking.None? <==> p.view == []
    ensures p.productRanking.Some? ==> Total(p.productRanking.value) == p.totalRevenue
    ensures p.view == [] ==> p.totalRevenue == 0.0 && p.totalUnits == 0
    ensures p.view == [] ==> p.regionShare == [] && p.trend == []
  {
    var view := Filter(rows, c);
    var trend := DateTrend(view);
    var forecast := ForecastDates(trend);
    assert view != [] ==> forecast.Some? && forecast.value[0] == trend[|trend| - 1].0 by {
      if view != [] {
        ForecastStartsAtLastTrendDate(view);
      }
    }
    assert view == [] ==> Keys(RegionShare(view)) == [];
    Page(
      view,
      TotalRevenue(view),
      TotalUnits(view),
      RegionShare(view),
      trend,
      forecast,
      if forecast.None? then None else Some(ProductRanking(view)))
  }

  /** With the sidebar at its defaults, a non-empty table is shown whole:
      the KPIs and every chart table are those of the entire table. */
  lemma DefaultPageShowsWholeTable(rows: seq<SalesRecord>)
    requires rows != []
    ensures DefaultCriteria(rows).Some?
    ensures Render(rows, DefaultCriteria(rows).value) == Page(
      rows,
      TotalRevenue(rows),
      TotalUnits(rows),
      RegionShare(rows),
      DateTrend(rows),
      ForecastDates(DateTrend(rows)),
      Some(ProductRanking(rows)))
  {
    DefaultsKeepEverything(rows);
    assert rows[0].date in Distinct(rows, DateOf);
  }

  /** Two rows on consecutive days (2024-01-01 is day 738886). */
  function ExampleRows(): seq<SalesRecord>
  {
    [SalesRecord(738886, "East", "Widget", 100.0, 5),
     SalesRecord(738887, "West", "Gadget", 200.0, 10)]
  }

  /** The worked example with the default sidebar values: KPIs 300 and 15,
      one slice per region, one trend point per day, the forecast axis
      starting on the second day, and Gadget ranked above Widget. */
  lemma ExamplePage(rows: seq<SalesRecord>)
    requires rows == ExampleRows()
    ensures DefaultCriteria(rows).Some?
    ensures var p := Render(rows, DefaultCriteria(rows).value);
      && p.view == rows
      && p.totalRevenue == 300.0 && p.totalUnits == 15
      && p.regionShare == [("East", 100.0), ("West", 200.0)]
      && p.trend == [(738886, 100.0), (738887, 200.0)]
      && p.forecastDates.Some? && p.forecastDates.value[0] == 738887
      && p.productRanking == Some([("Gadget", 200.0), ("Widget", 100.0)])
  {
    DefaultPageShowsWholeTable(rows);
    ExampleTotals();
    ExampleRegionShare();
    ExampleTrend();
    ExampleForecast();
    ExampleRanking();
  }

  // The steps of the worked example, each settled by evaluating the
  // definitions on the two example rows.

  lemma ExampleTotals()
    ensures TotalRevenue(ExampleRows()) == 300.0 && TotalUnits(ExampleRows()) == 15
  {
  }

  lemma ExampleRegionShare()
    ensures RegionShare(ExampleRows()) == [("East", 100.0), ("West", 200.0)]
  {
  }

  lemma ExampleTrend()
    ensures DateTrend(ExampleRows()) == [(738886, 100.0), (738887, 200.0)]
  {
  }

  lemma ExampleForecast()
    ensures ForecastDates([(738886, 100.0), (738887, 200.0)]).value[0] == 738887
  {
  }

  lemma ExampleRanking()
    ensures ProductRanking(ExampleRows()) == [("Gadget", 200.0), ("Widget", 100.0)]
  {
  }
}
