/**
 * The records table: per-column text filters, a sortable column with a
 * direction, pagination and resizable columns. The displayed rows are the
 * input filtered column by column, then stably sorted, then sliced to the
 * current page.
 */
module SpeedRecords {
  import opened Wrappers
  import opened Seqs
  import opened Sorting
  import opened Text
  import opened SpeedData

  // ------------------------------------------------------------- columns

  datatype Column = IdCol | SensorCol | SpeedCol | LaneCol | CreatedCol

  /** One value per column (`ColumnFilters`, `ColumnWidths`). */
  datatype PerColumn<T> = PerColumn(id: T, sensorName: T, speed: T, lane: T, createdAt: T)
  {
    function Get(c: Column): T
    {
      match c
      case IdCol => id
      case SensorCol => sensorName
      case SpeedCol => speed
      case LaneCol => lane
      case CreatedCol => createdAt
    }

    /** `{...prev, [c]: v}`: that column takes `v`, every other column keeps its value. */
    function With(c: Column, v: T): (r: PerColumn<T>)
      ensures r.Get(c) == v
      ensures forall d :: d != c ==> r.Get(d) == Get(d)
    {
      match c
      case IdCol => this.(id := v)
      case SensorCol => this.(sensorName := v)
      case SpeedCol => this.(speed := v)
      case LaneCol => this.(lane := v)
      case CreatedCol => this.(createdAt := v)
    }
  }

  type Filters = PerColumn<string>

  const EmptyFilters: Filters := PerColumn("", "", "", "", "")

  const InitialWidths: PerColumn<int> := PerColumn(40, 200, 120, 100, 180)

  /** `hasActiveFilters`: some filter is non-empty. */
  predicate HasActiveFilters(f: Filters)
  {
    f.id != "" || f.sensorName != "" || f.speed != "" || f.lane != "" || f.createdAt != ""
  }

  lemma ActiveFiltersIffNotEmpty(f: Filters)
    ensures HasActiveFilters(f) <==> f != EmptyFilters
    ensures HasActiveFilters(f) <==> exists c :: f.Get(c) != ""
  {
    if HasActiveFilters(f) {
      if f.id != "" { assert f.Get(IdCol) != ""; }
      else if f.sensorName != "" { assert f.Get(SensorCol) != ""; }
      else if f.speed != "" { assert f.Get(SpeedCol) != ""; }
      else if f.lane != "" { assert f.Get(LaneCol) != ""; }
      else { assert f.Get(CreatedCol) != ""; }
    }
  }

  // ------------------------------------------------------------- filtering

  /**
   * How a row's date appears in the table and is matched (`dd/MM/yyyy
   * HH:mm:ss` in the viewer's time zone) and how a speed is printed by
   * `toString`; both are given from outside.
   */
  datatype Render = Render(speedText: real -> string, dateText: int -> string)

  /** `haystack.includes(needle)`, optionally after lower-casing both. */
  predicate Matches(haystack: string, needle: string, ignoreCase: bool)
  {
    if ignoreCase then Contains(Lower(haystack), Lower(needle)) else Contains(haystack, needle)
  }

  /** The cell text a column filter searches, and whether the search ignores case. */
  function CellText(c: Column, r: Reading, render: Render): string
  {
    match c
    case IdCol => IntToString(r.id)
    case SensorCol => NameOr(r.sensorName, "")
    case SpeedCol => render.speedText(r.speed)
    case LaneCol => LaneName(r.lane)
    case CreatedCol => render.dateText(r.createdAt)
  }

  predicate IgnoresCase(c: Column)
  {
    c == SensorCol || c == LaneCol || c == CreatedCol
  }

  /** The row passes column `c`'s filter: it is empty, or the cell contains it. */
  predicate PassesColumn(f: Filters, c: Column, r: Reading, render: Render)
  {
    f.Get(c) == "" || Matches(CellText(c, r, render), f.Get(c), IgnoresCase(c))
  }

  predicate PassesAll(f: Filters, r: Reading, render: Render)
  {
    forall c :: PassesColumn(f, c, r, render)
  }

  /** One `if (filters.c) filtered = filtered.filter(...)` step. */
  function FilterStep(rows: seq<Reading>, f: Filters, c: Column, render: Render): seq<Reading>
  {
    if f.Get(c) != "" then
      Filter(rows, (r: Reading) => Matches(CellText(c, r, render), f.Get(c), IgnoresCase(c)))
    else rows
  }

  /** The five filter steps, in the source's column order. */
  function FilterRows(rows: seq<Reading>, f: Filters, render: Render): seq<Reading>
  {
    var a := FilterStep(rows, f, IdCol, render);
    var b := FilterStep(a, f, SensorCol, render);
    var c := FilterStep(b, f, SpeedCol, render);
    var d := FilterStep(c, f, LaneCol, render);
    FilterStep(d, f, CreatedCol, render)
  }

  lemma {:induction false} FilterExtensional<T>(xs: seq<T>, p: T -> bool, q: T -> bool)
    requires forall x :: p(x) == q(x)
    ensures Filter(xs, p) == Filter(xs, q)
  {
    if xs != [] {
      FilterExtensional(xs[1..], p, q);
    }
  }

  /** Each step is a filter by that column's test. */
  lemma FilterStepIsFilter(rows: seq<Reading>, f: Filters, c: Column, render: Render)
    ensures FilterStep(rows, f, c, render) == Filter(rows, (r: Reading) => PassesColumn(f, c, r, render))
  {
    var p := (r: Reading) => PassesColumn(f, c, r, render);
    if f.Get(c) != "" {
      FilterExtensional(rows, (r: Reading) => Matches(CellText(c, r, render), f.Get(c), IgnoresCase(c)), p);
    } else {
      FilterTrue(rows, p);
    }
  }

  /** Predicate of the first `k` columns, in the source's order. */
  predicate PassesFirst(f: Filters, k: nat, r: Reading, render: Render)
  {
    && (k > 0 ==> PassesColumn(f, IdCol, r, render))
    && (k > 1 ==> PassesColumn(f, SensorCol, r, render))
    && (k > 2 ==> PassesColumn(f, SpeedCol, r, render))
    && (k > 3 ==> PassesColumn(f, LaneCol, r, render))
    && (k > 4 ==> PassesColumn(f, CreatedCol, r, render))
  }

  /** The chain of steps is a single filter by every column's test. */
  lemma FilterRowsIsOneFilter(rows: seq<Reading>, f: Filters, render: Render)
    ensures FilterRows(rows, f, render) == Filter(rows, (r: Reading) => PassesAll(f, r, render))
  {
    var p1 := (r: Reading) => PassesFirst(f, 1, r, render);
    var p2 := (r: Reading) => PassesFirst(f, 2, r, render);
    var p3 := (r: Reading) => PassesFirst(f, 3, r, render);
    var p4 := (r: Reading) => PassesFirst(f, 4, r, render);
    var p5 := (r: Reading) => PassesFirst(f, 5, r, render);
    var a := FilterStep(rows, f, IdCol, render);
    var b := FilterStep(a, f, SensorCol, render);
    var c := FilterStep(b, f, SpeedCol, render);
    var d := FilterStep(c, f, LaneCol, render);
    FilterStepIsFilter(rows, f, IdCol, render);
    FilterExtensional(rows, (r: Reading) => PassesColumn(f, IdCol, r, render), p1);
    FilterStepIsFilter(a, f, SensorCol, render);
    FilterFilter(rows, p1, (r: Reading) => PassesColumn(f, SensorCol, r, render), p2);
    FilterStepIsFilter(b, f, SpeedCol, render);
    FilterFilter(rows, p2, (r: Reading) => PassesColumn(f, SpeedCol, r, render), p3);
    FilterStepIsFilter(c, f, LaneCol, render);
    FilterFilter(rows, p3, (r: Reading) => PassesColumn(f, LaneCol, r, render), p4);
    FilterStepIsFilter(d, f, CreatedCol, render);
    FilterFilter(rows, p4, (r: Reading) => PassesColumn(f, CreatedCol, r, render), p5);
    forall r: Reading
      ensures p5(r) == PassesAll(f, r, render)
    {
      if p5(r) {
        forall col
          ensures PassesColumn(f, col, r, render)
        {
          match col
          case IdCol =>
          case SensorCol =>
          case SpeedCol =>
          case LaneCol =>
          case CreatedCol =>
        }
      }
    }
    FilterExtensional(rows, p5, (r: Reading) => PassesAll(f, r, render));
  }

  /**
   * The filtered rows are the input rows that pass every non-empty column
   * filter, in input order; with no filter set every row stays.
   */
  lemma FilterRowsSpec(rows: seq<Reading>, f: Filters, render: Render, r: Reading)
    ensures r in FilterRows(rows, f, render) <==> r in rows && forall c :: PassesColumn(f, c, r, render)
    ensures IsSubsequence(FilterRows(rows, f, render), rows)
    ensures f == EmptyFilters ==> FilterRows(rows, f, render) == rows
  {
    var p := (x: Reading) => PassesAll(f, x, render);
    FilterRowsIsOneFilter(rows, f, render);
    FilterMembership(rows, p, r);
    FilterIsSubsequence(rows, p);
    if f == EmptyFilters {
      FilterTrue(rows, p);
    }
  }

  /** Sensor names match whatever their case; ids match only as printed. */
  lemma CaseRules(f: Filters, r: Reading, render: Render)
    requires r.sensorName == Some("Pit Entry") && f.sensorName == "pit"
    requires r.id == 7 && f.id == "8"
    ensures PassesColumn(f, SensorCol, r, render)
    ensures !PassesColumn(f, IdCol, r, render)
  {
    assert OccursAt(Lower("Pit Entry"), Lower("pit"), 0);
    assert IntToString(7) == [DigitChar(7)] == "7";
    forall i
      ensures !OccursAt("7", "8", i)
    {
      if i == 0 {
        assert "7"[0..1] == "7";
      }
    }
  }

  // --------------------------------------------------------------- sorting

  datatype Direction = Asc | Desc

  datatype SortConfig = SortConfig(key: Option<Column>, direction: Direction)

  const InitialSort: SortConfig := SortConfig(None, Asc)

  /** `handleSort`: the current key while ascending flips to descending; anything else sorts that key ascending. */
  function NextSort(current: SortConfig, c: Column): (r: SortConfig)
    ensures r.key == Some(c)
    ensures r.direction == Desc <==> current.key == Some(c) && current.direction == Asc
  {
    SortConfig(Some(c), if current.key == Some(c) && current.direction == Asc then Desc else Asc)
  }

  /** Clicking the same header cycles ascending, descending, ascending. */
  lemma SortClicksCycle(current: SortConfig, c: Column)
    requires current.key != Some(c)
    ensures NextSort(current, c).direction == Asc
    ensures NextSort(NextSort(current, c), c).direction == Desc
    ensures NextSort(NextSort(NextSort(current, c), c), c) == NextSort(current, c)
  {
  }

  function Sign(x: real): int
  {
    if x < 0.0 then -1 else if x > 0.0 then 1 else 0
  }

  /**
   * The ascending comparison of two present values: the difference of
   * numbers (by its sign), code-unit order of strings. Dates are compared as
   * instants.
   */
  function CompareValues(c: Column, a: Reading, b: Reading): int
    requires c == SensorCol ==> a.sensorName.Some? && b.sensorName.Some?
  {
    match c
    case IdCol => Sign((a.id - b.id) as real)
    case SensorCol => StrCompare(a.sensorName.value, b.sensorName.value)
    case SpeedCol => Sign(a.speed - b.speed)
    case LaneCol => StrCompare(LaneName(a.lane), LaneName(b.lane))
    case CreatedCol => Sign((a.createdAt - b.createdAt) as real)
  }

  function Directed(d: Direction, comparison: int): int
  {
    if d == Asc then comparison else -comparison
  }

  /** The comparator as written: a missing value sorts after, before the direction applies. */
  function Comparator(c: Column, d: Direction, a: Reading, b: Reading): int
  {
    if c == SensorCol && a.sensorName.None? then 1
    else if c == SensorCol && b.sensorName.None? then -1
    else Directed(d, CompareValues(c, a, b))
  }

  /** Descending is the negated ascending comparison whenever both values are present. */
  lemma DescendingNegatesAscending(c: Column, a: Reading, b: Reading)
    requires c == SensorCol ==> a.sensorName.Some? && b.sensorName.Some?
    ensures Comparator(c, Desc, a, b) == -Comparator(c, Asc, a, b)
  {
  }

  /**
   * "`a` may come before `b`": the comparator returns at most 0, with two
   * missing values treated as equal (stable).
   */
  predicate Precedes(c: Column, d: Direction, a: Reading, b: Reading)
  {
    if c == SensorCol && a.sensorName.None? then b.sensorName.None?
    else Comparator(c, d, a, b) <= 0
  }

  lemma PrecedesIsComparator(c: Column, d: Direction, a: Reading, b: Reading)
    requires !(c == SensorCol && a.sensorName.None? && b.sensorName.None?)
    ensures Precedes(c, d, a, b) <==> Comparator(c, d, a, b) <= 0
  {
  }

  lemma CompareValuesAntisymmetric(c: Column, a: Reading, b: Reading)
    requires c == SensorCol ==> a.sensorName.Some? && b.sensorName.Some?
    ensures CompareValues(c, b, a) == -CompareValues(c, a, b)
  {
    match c
    case SensorCol => StrCompareAntisymmetric(a.sensorName.value, b.sensorName.value);
    case LaneCol => StrCompareAntisymmetric(LaneName(a.lane), LaneName(b.lane));
    case _ =>
  }

  lemma CompareValuesTransitive(c: Column, a: Reading, b: Reading, e: Reading)
    requires c == SensorCol ==> a.sensorName.Some? && b.sensorName.Some? && e.sensorName.Some?
    requires CompareValues(c, a, b) <= 0 && CompareValues(c, b, e) <= 0
    ensures CompareValues(c, a, e) <= 0
  {
    match c
    case SensorCol => StrCompareTransitive(a.sensorName.value, b.sensorName.value, e.sensorName.value);
    case LaneCol => StrCompareTransitive(LaneName(a.lane), LaneName(b.lane), LaneName(e.lane));
    case _ =>
  }

  lemma PrecedesTotalPreorder(c: Column, d: Direction)
    ensures TotalPreorder((a: Reading, b: Reading) => Precedes(c, d, a, b))
  {
    forall a: Reading, b: Reading
      ensures Precedes(c, d, a, b) || Precedes(c, d, b, a)
    {
      if !(c == SensorCol && (a.sensorName.None? || b.sensorName.None?)) {
        CompareValuesAntisymmetric(c, a, b);
      }
    }
    forall a: Reading, b: Reading, e: Reading | Precedes(c, d, a, b) && Precedes(c, d, b, e)
      ensures Precedes(c, d, a, e)
    {
      if !(c == SensorCol && (a.sensorName.None? || b.sensorName.None? || e.sensorName.None?)) {
        if d == Asc {
          CompareValuesTransitive(c, a, b, e);
        } else {
          CompareValuesAntisymmetric(c, a, b);
          CompareValuesAntisymmetric(c, b, e);
          CompareValuesAntisymmetric(c, a, e);
          CompareValuesTransitive(c, e, b, a);
        }
      }
    }
  }

  /** The sort step: no key leaves the order alone; otherwise a stable sort by the comparator. */
  function SortRows(rows: seq<Reading>, config: SortConfig): (r: seq<Reading>)
    ensures multiset(r) == multiset(rows)
    ensures config.key.None? ==> r == rows
  {
    match config.key
    case None => rows
    case Some(c) => SortBy(rows, (a: Reading, b: Reading) => Precedes(c, config.direction, a, b))
  }

  /**
   * The sorted rows are in comparator order, and a row without a sensor name
   * is never followed by one with a name, in either direction.
   */
  lemma SortRowsOrdered(rows: seq<Reading>, config: SortConfig)
    requires config.key.Some?
    ensures forall i, j :: 0 <= i < j < |SortRows(rows, config)| ==>
      Precedes(config.key.value, config.direction, SortRows(rows, config)[i], SortRows(rows, config)[j])
    ensures config.key == Some(SensorCol) ==>
      forall i, j :: 0 <= i < j < |SortRows(rows, config)| && SortRows(rows, config)[i].sensorName.None? ==>
        SortRows(rows, config)[j].sensorName.None?
  {
    PrecedesTotalPreorder(config.key.value, config.direction);
    SortBySorted(rows, (a: Reading, b: Reading) => Precedes(config.key.value, config.direction, a, b));
  }

  /** `filteredAndSortedData`. */
  function FilteredAndSorted(rows: seq<Reading>, f: Filters, config: SortConfig, render: Render): (r: seq<Reading>)
    ensures forall x :: x in r <==> x in rows && PassesAll(f, x, render)
    ensures multiset(r) == multiset(FilterRows(rows, f, render))
    ensures config.key.None? ==> r == FilterRows(rows, f, render)
    ensures config.key.Some? ==> forall i, j :: 0 <= i < j < |r| ==>
      Precedes(config.key.value, config.direction, r[i], r[j])
  {
    var filtered := FilterRows(rows, f, render);
    forall x
      ensures x in filtered <==> x in rows && PassesAll(f, x, render)
    {
      FilterRowsSpec(rows, f, render, x);
    }
    var r := SortRows(filtered, config);
    assert forall x :: x in r <==> x in filtered by {
      forall x
        ensures x in r <==> x in filtered
      {
        assert x in r <==> multiset(r)[x] > 0;
        assert x in filtered <==> multiset(filtered)[x] > 0;
      }
    }
    if config.key.Some? then SortRowsOrdered(filtered, config); r else r
  }

  // ------------------------------------------------------------ pagination

  /** `Math.ceil(n / itemsPerPage)`. */
  function TotalPages(n: nat, k: int): (r: nat)
    requires k > 0
    ensures r * k >= n
    ensures n > 0 ==> (r - 1) * k < n
    ensures r == 0 <==> n == 0
  {
    (n + k - 1) / k
  }

  /** `slice((p - 1) * k, p * k)`. */
  function PageRows<T>(rows: seq<T>, p: int, k: int): (r: seq<T>)
    requires k > 0
    ensures |r| <= k
    ensures p >= 1 && (p - 1) * k < |rows| ==>
      r == rows[(p - 1) * k .. if p * k < |rows| then p * k else |rows|]
    ensures p >= 1 && (p - 1) * k >= |rows| ==> r == []
  {
    JsSlice(rows, (p - 1) * k, p * k)
  }

  /** Row `q * k + m` (with `m < k`) is shown on page `q + 1`, at position `m`, and that page exists. */
  lemma RowOnItsPage<T>(rows: seq<T>, k: int, q: nat, m: nat)
    requires k > 0 && m < k && q * k + m < |rows|
    ensures 1 <= q + 1 <= TotalPages(|rows|, k)
    ensures m < |PageRows(rows, q + 1, k)|
    ensures PageRows(rows, q + 1, k)[m] == rows[q * k + m]
  {
    var s := q * k;
    assert (q + 1 - 1) * k == s;
    assert (q + 1) * k == s + k;
    var page := PageRows(rows, q + 1, k);
    var e := if s + k < |rows| then s + k else |rows|;
    assert page == rows[s .. e];
    var t := TotalPages(|rows|, k);
    if t <= q {
      MultiplyMonotone(t, q, k);
    }
  }

  lemma MultiplyMonotone(a: int, b: int, k: int)
    requires a <= b && k > 0
    ensures a * k <= b * k
  {
    assert b * k - a * k == (b - a) * k;
  }

  /** Fifty rows at twenty per page make three pages, the last holding ten rows. */
  lemma FiftyRowsThreePages<T>(rows: seq<T>)
    requires |rows| == 50
    ensures TotalPages(50, 20) == 3
    ensures |PageRows(rows, 3, 20)| == 10
    ensures PageRows(rows, 4, 20) == []
  {
  }

  /** "Précédent": never below 1. */
  function PreviousPage(p: int): (r: int)
    ensures r >= 1
    ensures p > 1 ==> r == p - 1
    ensures p <= 1 ==> r == 1
  {
    if p - 1 > 1 then p - 1 else 1
  }

  /** "Suivant": never past the last page. */
  function NextPage(p: int, totalPages: int): (r: int)
    ensures r <= totalPages
    ensures p < totalPages ==> r == p + 1
    ensures p >= totalPages ==> r == totalPages
  {
    if totalPages < p + 1 then totalPages else p + 1
  }

  /** `Math.max(50, startWidth + diff)`. */
  function ResizedWidth(startWidth: int, startX: int, clientX: int): (r: int)
    ensures r >= 50
    ensures startWidth + (clientX - startX) >= 50 ==> r == startWidth + (clientX - startX)
  {
    var w := startWidth + (clientX - startX);
    if w > 50 then w else 50
  }

  // ------------------------------------------------------------ the table

  /** The table's state and its event handlers. */
  class RecordsTable {
    var sortConfig: SortConfig
    var filters: Filters
    var currentPage: int
    var itemsPerPage: int
    var widths: PerColumn<int>
    var resizing: Option<Column>   // `isResizing` with `resizingColumn`
    var startX: int
    var startWidth: int

    ghost predicate Valid()
      reads this
    {
      itemsPerPage > 0 && currentPage >= 1
    }

    constructor ()
      ensures Valid()
      ensures sortConfig == InitialSort && filters == EmptyFilters
      ensures currentPage == 1 && itemsPerPage == 20
      ensures widths == InitialWidths && resizing.None?
    {
      sortConfig := InitialSort;
      filters := EmptyFilters;
      currentPage := 1;
      itemsPerPage := 20;
      widths := InitialWidths;
      resizing := None;
      startX := 0;
      startWidth := 0;
    }

    /** The rows shown on the current page. */
    function Visible(data: seq<Reading>, render: Render): (r: seq<Reading>)
      requires Valid()
      reads this
      ensures |r| <= itemsPerPage
      ensures forall x :: x in r ==> x in data && PassesAll(filters, x, render)
      ensures r == PageRows(FilteredAndSorted(data, filters, sortConfig, render), currentPage, itemsPerPage)
    {
      var rows := FilteredAndSorted(data, filters, sortConfig, render);
      var r := PageRows(rows, currentPage, itemsPerPage);
      assert forall x :: x in r ==> x in rows;
      r
    }

    method HandleSort(c: Column)
      modifies this
      ensures sortConfig == NextSort(old(sortConfig), c)
      ensures filters == old(filters) && currentPage == old(currentPage) && itemsPerPage == old(itemsPerPage)
      ensures widths == old(widths) && resizing == old(resizing)
    {
      sortConfig := NextSort(sortConfig, c);
    }

    /** Typing in a column filter sets that filter alone and goes back to page 1. */
    method HandleFilterChange(c: Column, value: string)
      requires Valid()
      modifies this
      ensures Valid()
      ensures filters == old(filters).With(c, value) && currentPage == 1
      ensures sortConfig == old(sortConfig) && itemsPerPage == old(itemsPerPage)
      ensures widths == old(widths) && resizing == old(resizing)
    {
      filters := filters.With(c, value);
      currentPage := 1;
    }

    method ClearFilters()
      requires Valid()
      modifies this
      ensures Valid()
      ensures filters == EmptyFilters && !HasActiveFilters(filters) && currentPage == 1
      ensures sortConfig == old(sortConfig) && itemsPerPage == old(itemsPerPage)
      ensures widths == old(widths) && resizing == old(resizing)
    {
      filters := EmptyFilters;
      currentPage := 1;
    }

    /** The page-size select (10, 20, 50 or 100). */
    method SetItemsPerPage(k: int)
      requires Valid() && k > 0
      modifies this
      ensures Valid()
      ensures itemsPerPage == k && currentPage == 1
      ensures sortConfig == old(sortConfig) && filters == old(filters)
      ensures widths == old(widths) && resizing == old(resizing)
    {
      itemsPerPage := k;
      currentPage := 1;
    }

    method Previous()
      requires Valid()
      modifies this
      ensures Valid()
      ensures currentPage == PreviousPage(old(currentPage))
      ensures sortConfig == old(sortConfig) && filters == old(filters) && itemsPerPage == old(itemsPerPage)
      ensures widths == old(widths) && resizing == old(resizing)
    {
      currentPage := PreviousPage(currentPage);
    }

    /** "Suivant", shown only when there is more than one page. */
    method Next(data: seq<Reading>, render: Render)
      requires Valid()
      requires TotalPages(|FilteredAndSorted(data, filters, sortConfig, render)|, itemsPerPage) > 1
      modifies this
      ensures Valid()
      ensures currentPage == NextPage(old(currentPage), TotalPages(|FilteredAndSorted(data, filters, sortConfig, render)|, itemsPerPage))
      ensures sortConfig == old(sortConfig) && filters == old(filters) && itemsPerPage == old(itemsPerPage)
      ensures widths == old(widths) && resizing == old(resizing)
    {
      var total := TotalPages(|FilteredAndSorted(data, filters, sortConfig, render)|, itemsPerPage);
      currentPage := NextPage(currentPage, total);
    }

    /** Mouse down on a column's resize handle: remembers where the drag started. */
    method ResizeStart(c: Column, clientX: int)
      modifies this
      ensures resizing == Some(c) && startX == clientX && startWidth == old(widths).Get(c)
      ensures widths == old(widths) && sortConfig == old(sortConfig) && filters == old(filters)
      ensures currentPage == old(currentPage) && itemsPerPage == old(itemsPerPage)
    {
      resizing := Some(c);
      startX := clientX;
      startWidth := widths.Get(c);
    }

    /** Mouse move during a drag: only the column being resized changes, and never below 50. */
    method ResizeMove(clientX: int)
      modifies this
      ensures resizing.None? ==> widths == old(widths)
      ensures resizing.Some? ==> widths == old(widths).With(resizing.value, ResizedWidth(startWidth, startX, clientX))
      ensures resizing.Some? ==> widths.Get(resizing.value) >= 50
      ensures resizing == old(resizing) && startX == old(startX) && startWidth == old(startWidth)
      ensures sortConfig == old(sortConfig) && filters == old(filters)
      ensures currentPage == old(currentPage) && itemsPerPage == old(itemsPerPage)
    {
      if resizing.Some? {
        widths := widths.With(resizing.value, ResizedWidth(startWidth, startX, clientX));
      }
    }

    method ResizeEnd()
      modifies this
      ensures resizing.None? && widths == old(widths)
      ensures sortConfig == old(sortConfig) && filters == old(filters)
      ensures currentPage == old(currentPage) && itemsPerPage == old(itemsPerPage)
    {
      resizing := None;
    }
  }
}
