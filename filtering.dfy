/** The sidebar filter: a set of selected regions and an inclusive date range,
    and the view of the table they select. */
module Filtering {
  import opened Records

  /** What the user picked in the sidebar. The widgets hand over any values;
      an empty region set or a range with start after end is allowed. */
  datatype Criteria = Criteria(regions: set<string>, start: int, end: int)

  /** The row mask: region selected, and the date within [start, end]. */
  predicate Selected(c: Criteria, r: SalesRecord)
  {
    r.region in c.regions && c.start <= r.date <= c.end
  }

  /** `a` is `b` with some rows left out and the rest kept in order. */
  predicate IsSubsequence<T(==)>(a: seq<T>, b: seq<T>)
    decreases |b|
  {
    if a == [] then true
    else if b == [] then false
    else (a[0] == b[0] && IsSubsequence(a[1..], b[1..])) || IsSubsequence(a, b[1..])
  }

  /** The filtered view: the rows the mask keeps, in table order, each kept
      row as many times as the table has it. */
  function Filter(rows: seq<SalesRecord>, c: Criteria): (view: seq<SalesRecord>)
    ensures IsSubsequence(view, rows)
    ensures forall r :: r in view <==> r in rows && Selected(c, r)
    ensures forall r :: multiset(view)[r] == if Selected(c, r) then multiset(rows)[r] else 0
  {
    if rows == [] then []
    else
      assert rows == [rows[0]] + rows[1..];
      var rest := Filter(rows[1..], c);
      if Selected(c, rows[0]) then
        assert ([rows[0]] + rest)[1..] == rest;
        [rows[0]] + rest
      else
        rest
  }

  /** The sidebar's defaults: every region present, and the range from the
      earliest to the latest date present. An empty table has no dates, so
      it has no default range. */
  function DefaultCriteria(rows: seq<SalesRecord>): (c: Option<Criteria>)
    ensures c.None? <==> rows == []
    ensures c.Some? ==> c.value.regions == Distinct(rows, RegionOf)
    ensures c.Some? ==> c.value.start in Dates(rows) && c.value.end in Dates(rows)
    ensures c.Some? ==> forall r :: r in rows ==> c.value.start <= r.date <= c.value.end
  {
    if rows == [] then None
    else
      var ds := Dates(rows);
      assert forall r :: r in rows ==> r.date in ds by {
        forall r | r in rows ensures r.date in ds {
          var i :| 0 <= i < |rows| && rows[i] == r;
          assert ds[i] == r.date;
        }
      }
      Some(Criteria(Distinct(rows, RegionOf), MinOf(ds), MaxOf(ds)))
  }

  /** A table all of whose rows the mask keeps passes the filter unchanged. */
  lemma {:induction false} FilterKeepsAllSelected(rows: seq<SalesRecord>, c: Criteria)
    requires forall r :: r in rows ==> Selected(c, r)
    ensures Filter(rows, c) == rows
  {
    if rows != [] {
      assert rows == [rows[0]] + rows[1..];
      FilterKeepsAllSelected(rows[1..], c);
    }
  }

  /** With the default criteria the view is the whole table. */
  lemma DefaultsKeepEverything(rows: seq<SalesRecord>)
    ensures DefaultCriteria(rows).Some? ==> Filter(rows, DefaultCriteria(rows).value) == rows
  {
    if rows != [] {
      var c := DefaultCriteria(rows).value;
      forall r | r in rows ensures Selected(c, r) {
        assert r.region in Distinct(rows, RegionOf);
      }
      FilterKeepsAllSelected(rows, c);
    }
  }

  /** Filtering a view again with the same criteria changes nothing. */
  lemma FilterIdempotent(rows: seq<SalesRecord>, c: Criteria)
    ensures Filter(Filter(rows, c), c) == Filter(rows, c)
  {
    FilterKeepsAllSelected(Filter(rows, c), c);
  }

  /** No selected region, or a range whose start is after its end, selects
      nothing, and the KPIs of the empty view are both 0. */
  lemma EmptyCriteriaGiveEmptyView(rows: seq<SalesRecord>, c: Criteria)
    requires c.regions == {} || c.start > c.end
    ensures Filter(rows, c) == []
    ensures TotalRevenue(Filter(rows, c)) == 0.0 && TotalUnits(Filter(rows, c)) == 0
  {
  }
}
