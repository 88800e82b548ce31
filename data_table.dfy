/** The table component of frontend/src/components/ui/DataTable.jsx: search over the columns'
    cells, a stable sort on one column, and pagination, with the sort and page state the
    column headers and the page buttons change. Rendering is not modelled. */
module DataTable {
  import opened Wrappers
  import Text
  import Seqs
  import Sorting

  // ---------------------------------------------------------------- rows and cells

  /** A cell value as the table reads it from a row object: text, a whole number, a boolean,
      `null`, or `undefined` for a missing field. */
  datatype Cell = Str(s: string) | Num(n: int) | Bool(b: bool) | Null | Undefined

  /** A row: an object from field names to values. */
  type Row = map<string, Cell>

  /** `item[key]`: `undefined` for a field the object lacks. */
  function Field(row: Row, key: string): Cell
  {
    if key in row then row[key] else Undefined
  }

  /** `String(value)`. */
  function CellString(c: Cell): string
  {
    match c
    case Str(s) => s
    case Num(n) => Text.IntToString(n)
    case Bool(b) => if b then "true" else "false"
    case Null => "null"
    case Undefined => "undefined"
  }

  /** A column: the field it shows (`accessor`, possibly absent) and whether its header sorts
      (`sortable !== false`). */
  datatype Column = Column(accessor: Option<string>, sortable: bool)

  // ---------------------------------------------------------------- search

  /** Whether one column of the row contains the search term, ignoring case; a column without
      an accessor searches the empty string. */
  predicate ColumnMatches(item: Row, column: Column, term: string)
  {
    var value := if column.accessor.Some? then CellString(Field(item, column.accessor.value)) else "";
    Text.ContainsIgnoreCase(value, term)
  }

  /** `columns.some(...)`. */
  predicate Matches(item: Row, columns: seq<Column>, term: string)
  {
    Seqs.Any(columns, (column: Column) => ColumnMatches(item, column, term))
  }

  /** `filteredData`: with search on and a non-empty term, the rows some column of which
      contains the term; otherwise all rows. */
  function FilteredData(data: seq<Row>, columns: seq<Column>, searchable: bool, term: string): (r: seq<Row>)
    ensures !(searchable && term != "") ==> r == data
    ensures searchable && term != "" ==>
              (forall x :: x in r <==> x in data && Matches(x, columns, term))
              && Seqs.IsSubsequence(r, data)
  {
    if searchable && term != "" then
      Seqs.FilterIsSubsequence(data, (item: Row) => Matches(item, columns, term));
      Seqs.Filter(data, (item: Row) => Matches(item, columns, term))
    else data
  }

  /** The search is case-insensitive: a term and its lower-case form find the same rows. */
  lemma SearchIgnoresCase(item: Row, column: Column, term: string)
    ensures ColumnMatches(item, column, term) == ColumnMatches(item, column, Text.ToLower(term))
  {
    Text.ToLowerIdempotent(term);
  }

  /** A column without an accessor never matches a term that has a character. */
  lemma NoAccessorNoMatch(item: Row, term: string)
    requires term != ""
    ensures !ColumnMatches(item, Column(None, true), term)
  {
    assert |Text.ToLower(term)| == |term|;
  }

  /** A missing field is searched as the text `undefined`. */
  lemma MissingFieldReadsUndefined(key: string)
    ensures ColumnMatches(map[], Column(Some(key), true), "Undef")
  {
    assert Text.ToLower("Undef") == "undef";
    assert Text.ToLower("undefined") == "undefined";
    assert Text.OccursAt("undefined", "undef", 0);
  }

  /** A `null` cell is searched as the text `null`, and a `true` one as `true`: the term
      "nul" finds the rows whose field is null. */
  lemma NullAndTrueReadAsText(key: string)
    ensures ColumnMatches(map[key := Null], Column(Some(key), true), "nul")
    ensures ColumnMatches(map[key := Bool(true)], Column(Some(key), true), "true")
  {
    assert Text.ToLower("nul") == "nul";
    assert Text.ToLower("null") == "null";
    assert Text.OccursAt("null", "nul", 0);
    assert Text.ToLower("true") == "true";
    assert Text.OccursAt("true", "true", 0);
  }

  // ---------------------------------------------------------------- sort

  datatype Direction = Asc | Desc

  /** `sortConfig`: the key sorted on (none at first) and the direction. */
  datatype SortConfig = SortConfig(key: Option<string>, direction: Direction)

  const INITIAL_SORT: SortConfig := SortConfig(None, Asc)

  /** JavaScript's `<` on strings: code unit by code unit, a proper prefix first. */
  function StringLess(a: string, b: string): bool
    decreases |a|
  {
    if a == [] then b != []
    else if b == [] then false
    else if a[0] != b[0] then a[0] < b[0]
    else StringLess(a[1..], b[1..])
  }

  /** JavaScript's `<` on two cells of the same kind (`false < true` on booleans); cells of
      different kinds, `null` and `undefined` compare false both ways. */
  function CellLess(a: Cell, b: Cell): bool
  {
    match (a, b)
    case (Str(x), Str(y)) => StringLess(x, y)
    case (Num(x), Num(y)) => x < y
    case (Bool(x), Bool(y)) => !x && y
    case _ => false
  }

  /** When the comparator returns a negative number: `a < b` in ascending order; in
      descending order, `a > b` once `a < b` has failed. */
  function Comparator(key: string, direction: Direction): (Row, Row) -> bool
  {
    (a: Row, b: Row) =>
      var x := Field(a, key);
      var y := Field(b, key);
      if direction == Asc then CellLess(x, y) else !CellLess(x, y) && CellLess(y, x)
  }

  /** `sortedData`: a stable sort of the filtered rows when sorting is on and a key is set. */
  function SortedData(rows: seq<Row>, sortable: bool, config: SortConfig): (r: seq<Row>)
    ensures multiset(r) == multiset(rows)
    ensures !(sortable && config.key.Some?) ==> r == rows
  {
    if sortable && config.key.Some? then Sorting.Sort(rows, Comparator(config.key.value, config.direction))
    else rows
  }

  lemma {:induction false} StringLessIrreflexive(a: string)
    ensures !StringLess(a, a)
    decreases |a|
  {
    if a != [] {
      StringLessIrreflexive(a[1..]);
    }
  }

  lemma {:induction false} StringLessAsymmetric(a: string, b: string)
    ensures StringLess(a, b) ==> !StringLess(b, a)
    decreases |a|
  {
    if a != [] && b != [] && a[0] == b[0] {
      StringLessAsymmetric(a[1..], b[1..]);
    }
  }

  lemma {:induction false} StringLessTotal(a: string, b: string)
    ensures a != b ==> StringLess(a, b) || StringLess(b, a)
    decreases |a|
  {
    if a != [] && b != [] && a[0] == b[0] {
      StringLessTotal(a[1..], b[1..]);
      if a[1..] == b[1..] {
        assert a == [a[0]] + a[1..] && b == [b[0]] + b[1..];
      }
    }
  }

  lemma {:induction false} StringLessTransitive(a: string, b: string, c: string)
    ensures StringLess(a, b) && StringLess(b, c) ==> StringLess(a, c)
    decreases |a|
  {
    if a != [] && b != [] && c != [] && a[0] == b[0] && b[0] == c[0] {
      StringLessTransitive(a[1..], b[1..], c[1..]);
    }
  }

  /** `<` on strings is a strict total order. */
  lemma StringOrder(x: string, y: string, z: string)
    ensures !StringLess(x, x)
    ensures StringLess(x, y) ==> !StringLess(y, x)
    ensures x != y ==> StringLess(x, y) || StringLess(y, x)
    ensures StringLess(x, y) && StringLess(y, z) ==> StringLess(x, z)
  {
    StringLessIrreflexive(x);
    StringLessAsymmetric(x, y);
    StringLessTotal(x, y);
    StringLessTransitive(x, y, z);
  }

  /** The column holds text in every row, or a whole number in every row. */
  predicate UniformColumn(rows: seq<Row>, key: string)
  {
    (forall i :: 0 <= i < |rows| ==> Field(rows[i], key).Str?)
    || (forall i :: 0 <= i < |rows| ==> Field(rows[i], key).Num?)
  }

  /** On a column of one kind, the comparison of two cells is a strict total order. */
  lemma CellOrder(a: Cell, b: Cell, c: Cell)
    requires (a.Str? && b.Str? && c.Str?) || (a.Num? && b.Num? && c.Num?)
    ensures CellLess(a, b) ==> !CellLess(b, a)
    ensures !CellLess(a, b) && !CellLess(b, a) ==> a == b
    ensures !CellLess(a, b) && !CellLess(b, c) ==> !CellLess(a, c)
  {
    if a.Str? {
      StringOrder(a.s, b.s, c.s);
      StringOrder(b.s, c.s, a.s);
      StringOrder(c.s, a.s, b.s);
      StringOrder(b.s, a.s, c.s);
      StringOrder(c.s, b.s, a.s);
    }
  }

  /** On such a column the comparator is consistent, in either direction. */
  lemma {:induction false} ComparatorConsistent(rows: seq<Row>, key: string, direction: Direction)
    requires UniformColumn(rows, key)
    ensures Sorting.StrictWeakOn(rows, Comparator(key, direction))
  {
    var lt := Comparator(key, direction);
    forall x, y | x in rows && y in rows && lt(x, y)
      ensures !lt(y, x)
    {
      var i :| 0 <= i < |rows| && rows[i] == x;
      var j :| 0 <= j < |rows| && rows[j] == y;
      CellOrder(Field(x, key), Field(y, key), Field(y, key));
    }
    forall x, y, z | x in rows && y in rows && z in rows && !lt(x, y) && !lt(y, z)
      ensures !lt(x, z)
    {
      var i :| 0 <= i < |rows| && rows[i] == x;
      var j :| 0 <= j < |rows| && rows[j] == y;
      var k :| 0 <= k < |rows| && rows[k] == z;
      var a, b, c := Field(x, key), Field(y, key), Field(z, key);
      CellOrder(a, b, c);
      CellOrder(c, b, a);
      CellOrder(a, c, b);
      CellOrder(b, a, c);
      CellOrder(c, a, b);
    }
  }

  /** Sorting a column of one kind orders the rows by that column, in the chosen direction,
      and keeps every row. */
  lemma SortOrdersRows(rows: seq<Row>, key: string, direction: Direction)
    requires UniformColumn(rows, key)
    ensures var r := SortedData(rows, true, SortConfig(Some(key), direction));
            Sorting.Sorted(r, Comparator(key, direction)) && multiset(r) == multiset(rows)
  {
    ComparatorConsistent(rows, key, direction);
    Sorting.SortSorted(rows, Comparator(key, direction));
  }

  /** The sort is stable: rows that compare equal on the sorted column (for a column of one
      kind, rows with equal cells) come out in their input order. */
  lemma SortKeepsTiedRows(rows: seq<Row>, key: string, direction: Direction, c: Row)
    requires UniformColumn(rows, key) && c in rows
    ensures var lt := Comparator(key, direction);
            Sorting.TiedWith(SortedData(rows, true, SortConfig(Some(key), direction)), c, lt) == Sorting.TiedWith(rows, c, lt)
  {
    var lt := Comparator(key, direction);
    ComparatorConsistent(rows, key, direction);
    assert forall y :: y in [c] + rows ==> y in rows;
    Sorting.StrictWeakSub([c] + rows, rows, lt);
    Sorting.SortStable(rows, c, lt);
  }

  /** `handleSort(key)`: a click on the column already sorted ascending turns it descending;
      any other click sorts ascending on the clicked column; nothing when sorting is off. */
  function HandleSort(sortable: bool, config: SortConfig, key: Option<string>): (r: SortConfig)
    ensures !sortable ==> r == config
    ensures sortable ==> r.key == key
    ensures sortable ==> (r.direction == Desc <==> config.key == key && config.direction == Asc)
  {
    if !sortable then config
    else SortConfig(key, if config.key == key && config.direction == Asc then Desc else Asc)
  }

  /** A click on a column header: `column.sortable !== false && handleSort(column.accessor)`.
      A header marked not sortable, or a table with sorting off, leaves the sort as it was. */
  function HeaderClick(sortable: bool, config: SortConfig, column: Column): (r: SortConfig)
    ensures !(sortable && column.sortable) ==> r == config
    ensures sortable && column.sortable ==>
              r.key == column.accessor
              && (r.direction == Desc <==> config.key == column.accessor && config.direction == Asc)
  {
    if column.sortable then HandleSort(sortable, config, column.accessor) else config
  }

  /** Clicking one header twice from any state sorts it one way and then the other; a third
      click returns to the first. */
  lemma SortClicksAlternate(config: SortConfig, key: Option<string>)
    ensures var once := HandleSort(true, config, key);
            var twice := HandleSort(true, once, key);
            once.direction != twice.direction && HandleSort(true, twice, key) == once
  {
  }

  // ---------------------------------------------------------------- pagination

  /** `Math.ceil(length / pageSize)`. */
  function TotalPages(length: nat, pageSize: nat): (t: nat)
    requires pageSize >= 1
    ensures length == 0 ==> t == 0
    ensures length > 0 ==> (t - 1) * pageSize < length <= t * pageSize
  {
    (length + pageSize - 1) / pageSize
  }

  /** `(currentPage - 1) * pageSize`. */
  function StartIndex(page: int, pageSize: nat): int
  {
    (page - 1) * pageSize
  }

  /** `paginatedData`: `slice(startIndex, startIndex + pageSize)` when pagination is on. */
  function Paginate(rows: seq<Row>, pagination: bool, page: int, pageSize: nat): (r: seq<Row>)
    ensures !pagination ==> r == rows
    ensures |r| <= |rows|
  {
    if pagination then Seqs.Slice(rows, StartIndex(page, pageSize), StartIndex(page, pageSize) + pageSize) else rows
  }

  /** Each row appears on page `i / pageSize + 1`, at position `i % pageSize`, and that page
      exists. */
  lemma RowOnItsPage(rows: seq<Row>, pageSize: nat, i: nat)
    requires pageSize >= 1 && i < |rows|
    ensures 1 <= i / pageSize + 1 <= TotalPages(|rows|, pageSize)
    ensures var page := Paginate(rows, true, i / pageSize + 1, pageSize);
            i % pageSize < |page| && page[i % pageSize] == rows[i]
  {
    var p := i / pageSize;
    var start := StartIndex(p + 1, pageSize);
    PageOfIndex(i, pageSize);
    PageExists(i, |rows|, pageSize);
    var end := if start + pageSize <= |rows| then start + pageSize else |rows|;
    assert Paginate(rows, true, p + 1, pageSize) == rows[start..end];
  }

  /** Index `i` lies in the slice of page `i / pageSize + 1`. */
  lemma PageOfIndex(i: nat, pageSize: nat)
    requires pageSize >= 1
    ensures var start := StartIndex(i / pageSize + 1, pageSize);
            0 <= start <= i < start + pageSize && i - start == i % pageSize
  {
    assert StartIndex(i / pageSize + 1, pageSize) == (i / pageSize) * pageSize;
  }

  /** The page of any index below `length` is at most the last page. */
  lemma PageExists(i: nat, length: nat, pageSize: nat)
    requires pageSize >= 1 && i < length
    ensures i / pageSize + 1 <= TotalPages(length, pageSize)
  {
    var t := TotalPages(length, pageSize);
    var p := i / pageSize;
    PageOfIndex(i, pageSize);
    assert StartIndex(p + 1, pageSize) == p * pageSize;
    FactorLess(p, t, pageSize);
  }

  /** A smaller multiple has a smaller factor. */
  lemma FactorLess(a: nat, b: nat, c: nat)
    ensures a * c < b * c ==> a < b
  {
    if b <= a {
      MultiplyMonotone(b, a, c);
    }
  }

  lemma MultiplyMonotone(a: nat, b: nat, c: nat)
    requires a <= b
    ensures a * c <= b * c
  {
  }

  /** The pages from 1 to the last are non-empty and hold at most a page of rows; the
      "Affichage de ... à ..." counts are exactly the rows shown. Past the last page the table
      is empty. */
  lemma PageContents(rows: seq<Row>, pageSize: nat, page: int)
    requires pageSize >= 1
    ensures 1 <= page <= TotalPages(|rows|, pageSize) ==>
              var shown := Paginate(rows, true, page, pageSize);
              1 <= |shown| <= pageSize
              && |shown| == ShownTo(page, pageSize, |rows|) - ShownFrom(page, pageSize) + 1
              && shown == rows[ShownFrom(page, pageSize) - 1..ShownTo(page, pageSize, |rows|)]
    ensures page > TotalPages(|rows|, pageSize) ==> Paginate(rows, true, page, pageSize) == []
  {
    var t := TotalPages(|rows|, pageSize);
    var start := StartIndex(page, pageSize);
    if 1 <= page <= t {
      MultiplyMonotone(page - 1, t - 1, pageSize);
      assert 0 <= start < |rows|;
    } else if page > t {
      MultiplyMonotone(t, page - 1, pageSize);
      assert start >= |rows|;
    }
  }

  /** The first row number of the "Affichage de ... à ... sur ..." line. */
  function ShownFrom(page: int, pageSize: nat): int
  {
    StartIndex(page, pageSize) + 1
  }

  /** The last row number: `Math.min(startIndex + pageSize, length)`. */
  function ShownTo(page: int, pageSize: nat, length: nat): int
  {
    if StartIndex(page, pageSize) + pageSize < length then StartIndex(page, pageSize) + pageSize else length
  }

  /** The page buttons: "Précédent" is disabled on page 1, "Suivant" on the last page; the
      bar is shown only with pagination on and more than one page. */
  predicate PreviousEnabled(page: int) { page != 1 }

  predicate NextEnabled(page: int, totalPages: nat) { page != totalPages }

  predicate PaginationShown(pagination: bool, totalPages: nat) { pagination && totalPages > 1 }

  /** Pressing an enabled button keeps the page within 1 .. totalPages when it starts there. */
  lemma ButtonsKeepPageInRange(page: int, totalPages: nat)
    requires 1 <= page <= totalPages
    ensures PreviousEnabled(page) ==> 1 <= page - 1 <= totalPages
    ensures NextEnabled(page, totalPages) ==> 1 <= page + 1 <= totalPages
  {
  }

  /** The page number is not reset when the search narrows the rows: a table left on page 2
      whose search leaves a single row shows no row, and, with a single page, no pagination
      bar either, so there is no button back to page 1 until the search changes. */
  lemma StalePageAfterSearch(row: Row, pageSize: nat)
    requires pageSize >= 1
    ensures Paginate([row], true, 2, pageSize) == []
    ensures !PaginationShown(true, TotalPages(1, pageSize))
  {
    PageContents([row], pageSize, 2);
  }

  // ---------------------------------------------------------------- the whole pipeline

  /** The component's props that shape the rows. */
  datatype Props = Props(searchable: bool, sortable: bool, pagination: bool, pageSize: nat)

  const DEFAULT_PROPS: Props := Props(true, true, true, 10)

  /** The component's state: the search box, the sort and the page. */
  datatype TableState = TableState(searchTerm: string, sort: SortConfig, currentPage: int)

  const INITIAL_STATE: TableState := TableState("", INITIAL_SORT, 1)

  /** The rows the table body shows: search, then sort, then the current page. */
  function DisplayedRows(data: seq<Row>, columns: seq<Column>, props: Props, state: TableState): (r: seq<Row>)
    ensures multiset(r) <= multiset(data)
  {
    var filtered := FilteredData(data, columns, props.searchable, state.searchTerm);
    var sorted := SortedData(filtered, props.sortable, state.sort);
    FilterSubMultiset(data, columns, props.searchable, state.searchTerm);
    SliceSubMultiset(sorted, props.pagination, state.currentPage, props.pageSize);
    Paginate(sorted, props.pagination, state.currentPage, props.pageSize)
  }

  /** At first the table shows the data as given, up to the first page. */
  lemma InitialDisplay(data: seq<Row>, columns: seq<Column>)
    ensures DisplayedRows(data, columns, DEFAULT_PROPS, INITIAL_STATE) == if |data| <= 10 then data else data[..10]
  {
  }

  lemma FilterSubMultiset(data: seq<Row>, columns: seq<Column>, searchable: bool, term: string)
    ensures multiset(FilteredData(data, columns, searchable, term)) <= multiset(data)
  {
  }

  lemma SliceSubMultiset(rows: seq<Row>, pagination: bool, page: int, pageSize: nat)
    ensures multiset(Paginate(rows, pagination, page, pageSize)) <= multiset(rows)
  {
    if pagination {
      var lo := Seqs.SliceIndex(StartIndex(page, pageSize), |rows|);
      var hi := Seqs.SliceIndex(StartIndex(page, pageSize) + pageSize, |rows|);
      if lo < hi {
        assert rows == rows[..lo] + rows[lo..hi] + rows[hi..];
      }
    }
  }
}
