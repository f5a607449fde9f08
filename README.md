# Sales dashboard data pipeline, in Dafny

The sales dashboard is one Streamlit script. It reads a table of sales rows,
each with a Date, a Region, a Product, a Revenue and a Units Sold value. The
user picks a set of regions and a date range in the sidebar, and the script
draws the following for the rows that pass:
- two KPIs, total revenue and total units;
- a pie of revenue per region;
- a line of revenue per date, with a 30-day forecast;
- a bar chart of revenue per product, largest first.

This project models that data pipeline as pure functions over a sequence of
rows, and proves what each step promises.

- `records.dfy` (module `Records`): the row type, the two KPI sums, the
  distinct values of a column, and the minimum and maximum of the dates.
- `filtering.dfy` (module `Filtering`): the filter criteria, the row mask,
  the filtered view, and the sidebar's default criteria.
- `grouping.dfy` (module `Grouping`): group-by-and-sum over (key, revenue)
  pairs, the ascending sort by date, and the descending sort by revenue.
- `charts.dfy` (module `Charts`): the three chart tables built from the view.
- `forecast.dfy` (module `Forecast`): the forecast's date axis.
- `dashboard.dfy` (module `Dashboard`): one run of the script as a single
  function, the default page, and a worked example.

Modelling choices:
- A date is its day ordinal, the number that `Timestamp.toordinal` gives, so
  the `Date_Ordinal` column (line 97) is the date itself.
- Revenue is an exact `real`. Units Sold is an `int`. The script checks
  neither value, so the model puts no bound on either.
- The region multiselect and the date picker are parameters (`Criteria`).
  Any set of regions and any pair of dates is allowed, including an empty
  set and a start after the end.
- All three chart tables come from one generic group-by (`GroupSum`). It
  keeps the groups in the order their keys first occur. The trend is then
  sorted by date. The product table is sorted by revenue, largest first.

Three behaviours of the code are worth noting:
- The forecast axis starts ON the latest observed date (line 106), not on
  the day after it. `ForecastStartsAtLastTrendDate` proves that the first
  forecast day repeats the last trend date. Only the later 29 days lie
  strictly after every observed date.
- The product sort (line 129) uses pandas' default sort, which is not
  stable. So the model promises no order among products with equal sums.
  The insertion sort it uses is only one valid order.
- An empty view is not handled by the script. `LinearRegression.fit`
  raises on zero samples (lines 99-103), so the run stops before the
  forecast and the product chart. `Render` models this with `None` in
  `forecastDates` and `productRanking`. The KPIs and the pie are computed
  before the fit, so they are still there, with zero totals and an empty
  region table.

## Model

| member | source | states |
|---|---|---|
| `Records.Distinct` | sales_dashboard.py:13-17 | The distinct values of a column, as `unique()` gives them for the region options: exactly the values that occur in some row. |
| `Records.TotalRevenue` | sales_dashboard.py:44 | Total revenue is 0 for no rows and a row's own revenue for one row; with `TotalsAppend` it is the column sum. |
| `Records.TotalUnits` | sales_dashboard.py:45 | Total units is 0 for no rows and a row's own units for one row; with `TotalsAppend` it is the column sum. |
| `Records.TotalsAppend` | sales_dashboard.py:44-45 | Both KPI sums of a concatenation are the sums of the parts' KPIs. |
| `Records.MinOf` | sales_dashboard.py:20 | The earliest date is one of the dates, and no date is earlier. |
| `Records.MaxOf` | sales_dashboard.py:21 | The latest date is one of the dates, and no date is later. |
| `Filtering.Filter` | sales_dashboard.py:31-35 | A row is in the view iff its region is selected and start <= date <= end, both ends inclusive. The view is a subsequence of the table in the table's order. Each kept row appears as often as in the table, and each dropped row not at all. |
| `Filtering.DefaultCriteria` | sales_dashboard.py:13-28 | The defaults are every distinct region and the range [earliest date, latest date]. Both ends are dates of the table, and every row lies in the range. An empty table has no defaults. |
| `Filtering.FilterKeepsAllSelected` | sales_dashboard.py:31-35 | If the mask keeps every row, the view is the table unchanged. |
| `Filtering.DefaultsKeepEverything` | sales_dashboard.py:13-35 | With the default criteria the view equals the whole table. |
| `Filtering.FilterIdempotent` | sales_dashboard.py:31-35 | Filtering a view again with the same criteria returns the same view. |
| `Filtering.EmptyCriteriaGiveEmptyView` | sales_dashboard.py:31-45 | An empty region selection, or a start after the end, gives an empty view. Then total revenue and total units are both 0. |
| `Grouping.GroupSum` | sales_dashboard.py:93 | Group-by-sum gives one entry per distinct key, with no key twice and no key missing. Each entry carries the revenue summed over that key's rows, and the entries add up to the total revenue. |
| `Grouping.GroupSumOfDistinct` | sales_dashboard.py:93 | If the keys are already distinct, grouping returns the pairs unchanged. |
| `Grouping.SortByKey` | sales_dashboard.py:94 | Sorting by date is a permutation that keeps the keys and the total. On distinct dates the result is strictly ascending and still has distinct keys. |
| `Grouping.InsertByKeyAscending` | sales_dashboard.py:94 | Inserting a new date into a strictly ascending list keeps it strictly ascending. |
| `Grouping.SortByKeyOfAscending` | sales_dashboard.py:94 | Sorting a list that is already strictly ascending changes nothing. |
| `Grouping.AscendingIsUnique` | sales_dashboard.py:94 | Two strictly ascending arrangements of the same entries (same multiset) are equal. |
| `Grouping.RankByRevenue` | sales_dashboard.py:129 | Sorting by revenue, largest first, is a permutation that keeps the keys, the total and distinctness. The sums never increase along the result. |
| `Grouping.InsertByRevenueNonIncreasing` | sales_dashboard.py:129 | Inserting a group into a list of non-increasing sums keeps the sums non-increasing. |
| `Charts.Project` | sales_dashboard.py:93 | Selecting the key column and the Revenue column keeps every row's pair. The keys are exactly those of the rows, and the pairs sum to the total revenue. |
| `Charts.RegionShare` | sales_dashboard.py:76-79 | The pie's table has one entry per distinct region in the view. Each entry holds that region's revenue, and the entries sum to `total_revenue`. |
| `Charts.DateTrend` | sales_dashboard.py:93-94 | The trend has one point per distinct date in the view, and its dates are strictly ascending. Each point holds that date's revenue, and the points sum to `total_revenue`. |
| `Charts.TrendIsUnique` | sales_dashboard.py:93-94 | Any strictly ascending arrangement of the per-date groups equals the trend, whatever order the groups were formed in. |
| `Charts.ProductRanking` | sales_dashboard.py:129 | The ranking has one bar per distinct product in the view. Each bar holds that product's revenue, the sums never increase along the table, and they add up to `total_revenue`. |
| `Forecast.ForecastDates` | sales_dashboard.py:106-107 | With a non-empty trend, the axis has exactly 30 days. The first is the latest observed date, and each later day is the previous ordinal + 1. An empty trend has no axis. |
| `Forecast.LastIsLatest` | sales_dashboard.py:94-106 | In the date-sorted trend the last date is the latest, which is the date that `max()` picks. |
| `Forecast.ForecastStartsAtLastTrendDate` | sales_dashboard.py:93-107 | For a non-empty view the forecast starts on the trend's last date. Every later forecast day is strictly after every observed date. |
| `Dashboard.Render` | sales_dashboard.py:31-129 | One run gives the filtered view (kept rows exactly, in order, with their multiplicities) and its KPI sums. Each chart table is the one its step builds from the view: one region entry per distinct region, a strictly ascending trend with one point per distinct date, a 30-day consecutive forecast axis starting on the trend's last date, and a non-increasing ranking with one bar per distinct product. Every table adds up to the KPI revenue. Only an empty view stops the run at the fit; it has zero KPIs and empty tables. |
| `Dashboard.DefaultPageShowsWholeTable` | sales_dashboard.py:13-129 | For a non-empty table with the default sidebar values, every KPI and chart table is that of the whole table. |
| `Dashboard.ExamplePage` | sales_dashboard.py:44-129 | Worked example: rows (2024-01-01, East, Widget, 100, 5) and (2024-01-02, West, Gadget, 200, 10) give revenue 300 and units 15. The region table is East 100, West 200, and the trend is the two days. The forecast starts on 2024-01-02, and Gadget ranks above Widget. |

## Left out

- Loading: reading the CSV and parsing the Date column (lines 6-7). This is
  file I/O and pandas' date-format inference. Dates enter the model already
  parsed, as day ordinals.
- Times of day: the model assumes every date is a whole day. The script
  compares full timestamps against midnight of the picked days (lines
  33-34), which differs only when the file carries times.
- The sidebar widgets (lines 10-28): the multiselect, and the date picker's
  `min_value`/`max_value` limits and its handling of a half-picked range.
  These belong to Streamlit. The picked values are parameters.
- The fitted regression and its predictions (lines 99-108, 111-117). This
  is floating-point least squares inside scikit-learn. Only the date axis
  of the forecast is modelled, plus the fact that the fit fails on an
  empty view.
- Rendering: the metrics, HTML snippets, plotly figures, the raw-data table
  and the download button (lines 38-71, 76-83, 117-124, 130-146). This
  includes how the pie turns sums into percentages and orders its slices.
- The CSV export and its UTF-8 encoding (line 138). Its quoting and number
  formatting belong to pandas, whose code is not part of this model.
- The thousands-separator and currency formatting of the KPIs (lines 52,
  63). This is presentation only.
- Grouping.GroupSum: pandas' `groupby` hands its groups over sorted by
  key, while the model keeps them in first-seen order. The date trend is
  sorted afterwards, and `TrendIsUnique` shows that no other strictly
  ascending order exists, so the trend is the same. The product ranking is
  sorted afterwards too, but among products with equal sums its concrete
  order can differ from pandas'; only its contract (non-increasing, one
  bar per product, per-product sums) is the same. The region table feeds
  only the pie, which aggregates by label itself and orders its own slices.
- Float rounding: pandas holds decimal revenue as 64-bit floats, so its
  sums are rounded. The model sums exactly, so "adds up to the total"
  holds in exact arithmetic, not necessarily to the last bit.
- Missing cells: every row in the model has all five values. `read_csv`
  turns an empty cell into NaN. The sums at lines 44-45 skip NaN, so a
  missing revenue or unit count adds 0. A missing Date becomes NaT at
  line 7, which fails both date comparisons (lines 33-34), so that row is
  never in the view, even with the default range. A row with a missing
  Product passes the filter and counts in `total_revenue`, but `groupby`
  at line 129 gives it no bar, so in the script the bars can add up to
  less than the KPI. The model's equality between the ranking's total and
  `total_revenue` holds only for rows with a Product.
- Integer width: when Revenue or Units Sold holds only whole numbers,
  pandas stores the column as 64-bit integers, and `.sum()` wraps around
  past 2^63 - 1. The model's sums are unbounded, so it does not capture
  that overflow.
