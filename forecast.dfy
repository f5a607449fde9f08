/** The date axis of the revenue forecast: the days at which the fitted line
    is evaluated. The fitted line itself is not modelled. */
module Forecast {
  import opened Records
  import opened Grouping
  import opened Charts

  /** How many days are forecast. */
  const Horizon: nat := 30

  /** `date_range(trend["Date"].max(), periods=30, freq="D")` as ordinals:
      thirty consecutive days starting AT the latest observed date. With no
      observed date the regression fit fails first, and there is no axis. */
  function ForecastDates(trend: seq<(int, real)>): (axis: Option<seq<int>>)
    ensures axis.None? <==> trend == []
    ensures axis.Some? ==> |axis.value| == Horizon
    ensures axis.Some? ==> axis.value[0] in Keys(trend)
    ensures axis.Some? ==> forall d :: d in Keys(trend) ==> d <= axis.value[0]
    ensures axis.Some? ==> forall i :: 0 < i < Horizon ==> axis.value[i] == axis.value[i - 1] + 1
  {
    if trend == [] then None
    else
      var latest := MaxOf(Keys(trend));
      Some(seq(Horizon, i => latest + i))
  }

  /** In a strictly ascending trend the last date is the latest. */
  lemma {:induction false} LastIsLatest(ps: seq<(int, real)>)
    requires ps != [] && StrictlyAscending(ps)
    ensures ps[|ps| - 1].0 in Keys(ps)
    ensures forall d :: d in Keys(ps) ==> d <= ps[|ps| - 1].0
  {
    assert Keys(ps) == [ps[0].0] + Keys(ps[1..]);
    if |ps| == 1 {
      assert Keys(ps[1..]) == [];
    } else {
      LastIsLatest(ps[1..]);
      KeysAt(ps[1..], 0);
    }
  }

  /** For a non-empty view the forecast axis starts on the trend's last date
      (so the first forecast day repeats it) and every later forecast day
      lies strictly after every observed date. */
  lemma ForecastStartsAtLastTrendDate(view: seq<SalesRecord>)
    requires view != []
    ensures var trend := DateTrend(view);
      && trend != []
      && ForecastDates(trend).Some?
      && ForecastDates(trend).value[0] == trend[|trend| - 1].0
      && forall i, d :: 0 < i < Horizon && d in Keys(trend) ==> d < ForecastDates(trend).value[i]
  {
    var trend := DateTrend(view);
    assert view[0].date in Distinct(view, DateOf);
    assert trend != [];
    LastIsLatest(trend);
    var axis := ForecastDates(trend).value;
    assert axis[0] == trend[|trend| - 1].0;
  }
}
