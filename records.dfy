/** The sales table as the dashboard holds it once it is loaded: an ordered
    sequence of rows, never changed after loading. */
module Records {

  /** One row of the table. `date` is the day ordinal of the row's date
      (day 1 is 0001-01-01, as `Timestamp.toordinal` counts); `revenue` is an
      exact decimal. Nothing checks the sign of revenue or units when the file
      is read, so neither is constrained here. Every cell is present: a row
      with a missing value is outside the model. */
  datatype SalesRecord = SalesRecord(
    date: int,
    region: string,
    product: string,
    revenue: real,
    units: int)

  datatype Option<+T> = None | Some(value: T)

  /** The three key columns, as functions of a row. */
  function RegionOf(r: SalesRecord): string { r.region }
  function DateOf(r: SalesRecord): int { r.date }
  function ProductOf(r: SalesRecord): string { r.product }

  /** The distinct values of a column (`unique()`, as a set). */
  function Distinct<K(!new)>(rows: seq<SalesRecord>, key: SalesRecord -> K): (ks: set<K>)
    ensures forall k :: k in ks <==> exists r :: r in rows && key(r) == k
  {
    set r | r in rows :: key(r)
  }

  /** The Revenue column summed over `rows`: 0 for no rows, a row's own
      revenue for one row, and additive over concatenation (TotalsAppend). */
  function TotalRevenue(rows: seq<SalesRecord>): (t: real)
    ensures rows == [] ==> t == 0.0
    ensures |rows| == 1 ==> t == rows[0].revenue
  {
    if rows == [] then 0.0 else rows[0].revenue + TotalRevenue(rows[1..])
  }

  /** The Units Sold column summed over `rows`, in the same way. */
  function TotalUnits(rows: seq<SalesRecord>): (t: int)
    ensures rows == [] ==> t == 0
    ensures |rows| == 1 ==> t == rows[0].units
  {
    if rows == [] then 0 else rows[0].units + TotalUnits(rows[1..])
  }

  /** The sums of a concatenation are the sums of its parts, so together
      with the one-row case the totals are the column sums. */
  lemma {:induction false} TotalsAppend(a: seq<SalesRecord>, b: seq<SalesRecord>)
    ensures TotalRevenue(a + b) == TotalRevenue(a) + TotalRevenue(b)
    ensures TotalUnits(a + b) == TotalUnits(a) + TotalUnits(b)
  {
    if a == [] {
      assert a + b == b;
    } else {
      assert (a + b)[1..] == a[1..] + b;
      TotalsAppend(a[1..], b);
    }
  }

  /** The Date column, row by row. */
  function Dates(rows: seq<SalesRecord>): (ds: seq<int>)
    ensures |ds| == |rows|
    ensures forall i :: 0 <= i < |rows| ==> ds[i] == rows[i].date
  {
    seq(|rows|, i requires 0 <= i < |rows| => rows[i].date)
  }

  /** The smallest of a non-empty sequence of ordinals. */
  function MinOf(xs: seq<int>): (m: int)
    requires xs != []
    ensures m in xs
    ensures forall x :: x in xs ==> m <= x
  {
    if |xs| == 1 then xs[0]
    else
      var rest := MinOf(xs[1..]);
      assert xs == [xs[0]] + xs[1..];
      if xs[0] <= rest then xs[0] else rest
  }

  /** The largest of a non-empty sequence of ordinals. */
  function MaxOf(xs: seq<int>): (m: int)
    requires xs != []
    ensures m in xs
    ensures forall x :: x in xs ==> x <= m
  {
    if |xs| == 1 then xs[0]
    else
      var rest := MaxOf(xs[1..]);
      assert xs == [xs[0]] + xs[1..];
      if rest <= xs[0] then xs[0] else rest
  }
}
