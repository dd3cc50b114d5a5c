/**
 * The paged, sortable, selectable table of lumina/widgets/datatable.py.
 * Rows are values with an identity (id(row)); the selection holds
 * identities. The callbacks on_row_click and on_selection_change and the
 * redraw requests are recorded in logs.
 */
module DataTable {
  import opened Options
  import opened Geometry
  import opened Events
  import opened TableSort

  /** A column description: its key, and the optional "width" and "sortable" entries. */
  datatype Column = Column(key: string, width: Option<real>, sortable: Option<bool>)

  /** column.get("width", 150) */
  function ColumnWidth(c: Column): (w: real)
    ensures c.width.None? ==> w == 150.0
  {
    if c.width.Some? then c.width.value else 150.0
  }

  /** column.get("sortable", True) */
  predicate ColumnSortable(c: Column) {
    c.sortable != Some(false)
  }

  const RowHeight: real := 48.0
  const HeaderHeight: real := 56.0
  const PaginationHeight: real := 60.0

  datatype Direction = Asc | Desc

  /**
   * get_total_pages: the number of pages of perPage rows needed for count
   * rows, or 1 without pagination. A paginated table with a page size of 0
   * raises ZeroDivisionError here, so the caller must rule that out.
   */
  function TotalPages(count: nat, perPage: nat, paginated: bool): (t: int)
    requires paginated ==> perPage > 0
    ensures !paginated ==> t == 1
    ensures paginated ==> 0 <= t && t * perPage >= count && (t - 1) * perPage < count
  {
    if !paginated then 1
    else
      var t := (count + perPage - 1) / perPage;
      assert t * perPage + (count + perPage - 1) % perPage == count + perPage - 1;
      t
  }

  /** The ceiling is the only page count with that property. */
  lemma TotalPagesUnique(count: nat, perPage: nat, t: int)
    requires perPage > 0 && t * perPage >= count && (t - 1) * perPage < count
    ensures t == TotalPages(count, perPage, true)
  {
    var u := TotalPages(count, perPage, true);
    if t < u {
      MulLeft(t, u - 1, perPage);
    } else if u < t {
      MulLeft(u, t - 1, perPage);
    }
  }

  lemma MulLeft(a: int, b: int, c: nat)
    requires a <= b
    ensures a * c <= b * c
  {
  }

  /** get_current_page_data: data[page*r : page*r + r] with Python's clamping, or all rows without pagination. */
  function PageRows(data: seq<Row>, page: nat, perPage: nat, paginated: bool): (r: seq<Row>)
    ensures !paginated ==> r == data
    ensures paginated ==> |r| <= perPage
    ensures paginated && page * perPage < |data| ==>
      r == data[page * perPage .. if page * perPage + perPage <= |data| then page * perPage + perPage else |data|]
    ensures paginated && page * perPage >= |data| ==> r == []
  {
    if !paginated then data
    else
      var start := page * perPage;
      var stop := start + perPage;
      var lo := if start <= |data| then start else |data|;
      var hi := if stop <= |data| then stop else |data|;
      data[lo..hi]
  }

  /** Python's divmod for a positive divisor. */
  lemma DivMod(i: nat, r: nat)
    requires r > 0
    ensures (i / r) * r + i % r == i && 0 <= i % r < r
  {
  }

  /** Row start + q of a page starting before the end of the data is its q-th entry. */
  lemma PageEntry(data: seq<Row>, p: nat, perPage: nat, start: nat, q: nat)
    requires start == p * perPage && q < perPage && start + q < |data|
    ensures var page := PageRows(data, p, perPage, true);
      q < |page| && page[q] == data[start + q]
  {
  }

  /** Every row is on page i / r at position i % r, and that page exists. */
  lemma RowOnItsPage(data: seq<Row>, perPage: nat, i: nat)
    requires perPage > 0 && i < |data|
    ensures i / perPage < TotalPages(|data|, perPage, true)
    ensures var page := PageRows(data, i / perPage, perPage, true);
      i % perPage < |page| && page[i % perPage] == data[i]
  {
    DivMod(i, perPage);
    var p, q := i / perPage, i % perPage;
    var t := TotalPages(|data|, perPage, true);
    if t <= p {
      MulLeft(t, p, perPage);
    }
    PageEntry(data, p, perPage, p * perPage, q);
  }

  /** Every page before the last is full. */
  lemma EarlierPagesFull(data: seq<Row>, perPage: nat, page: nat)
    requires perPage > 0 && page + 1 < TotalPages(|data|, perPage, true)
    ensures |PageRows(data, page, perPage, true)| == perPage
  {
    var t := TotalPages(|data|, perPage, true);
    MulLeft(page + 1, t - 1, perPage);
  }

  /** The summed widths of the columns. */
  function SumWidths(columns: seq<Column>): real
  {
    if columns == [] then 0.0
    else SumWidths(columns[..|columns| - 1]) + ColumnWidth(columns[|columns| - 1])
  }

  /** Where column i starts, relative to the table's left edge. */
  function ColumnStart(columns: seq<Column>, i: nat): real
    requires i <= |columns|
  {
    SumWidths(columns[..i])
  }

  /** Column i covers x in its half-open interval. */
  predicate InColumn(columns: seq<Column>, i: nat, x: real)
    requires i < |columns|
  {
    ColumnStart(columns, i) <= x < ColumnStart(columns, i) + ColumnWidth(columns[i])
  }

  /** The first column from column n on whose interval holds x, or -1. */
  function FirstColumnFrom(columns: seq<Column>, x: real, n: nat): int
    requires n <= |columns|
    decreases |columns| - n
  {
    if n == |columns| then -1
    else if InColumn(columns, n, x) then n
    else FirstColumnFrom(columns, x, n + 1)
  }

  /** The column under x, as the table's click handling uses it. */
  function ColumnIndex(columns: seq<Column>, x: real): int {
    FirstColumnFrom(columns, x, 0)
  }

  /**
   * The loop of _get_column_at_position: the first column whose interval
   * holds x, or -1.
   */
  method ColumnAt(columns: seq<Column>, x: real) returns (i: int)
    ensures -1 <= i < |columns|
    ensures i >= 0 ==> InColumn(columns, i, x) && forall j :: 0 <= j < i ==> !InColumn(columns, j, x)
    ensures i == -1 ==> forall j :: 0 <= j < |columns| ==> !InColumn(columns, j, x)
    ensures i == ColumnIndex(columns, x)
  {
    var currentX := 0.0;
    var n := 0;
    while n < |columns|
      invariant 0 <= n <= |columns|
      invariant currentX == ColumnStart(columns, n)
      invariant forall j :: 0 <= j < n ==> !InColumn(columns, j, x)
      invariant FirstColumnFrom(columns, x, n) == ColumnIndex(columns, x)
    {
      var w := ColumnWidth(columns[n]);
      if currentX <= x < currentX + w {
        return n;
      }
      assert columns[..n + 1][..n] == columns[..n];
      currentX := currentX + w;
      n := n + 1;
    }
    return -1;
  }

  /** With non-negative widths, every x in [0, total width) lies in some column. */
  lemma {:induction false} ColumnsCover(columns: seq<Column>, x: real)
    requires forall c :: c in columns ==> ColumnWidth(c) >= 0.0
    requires 0.0 <= x < SumWidths(columns)
    ensures exists j :: 0 <= j < |columns| && InColumn(columns, j, x)
    decreases |columns|
  {
    var n := |columns| - 1;
    var init := columns[..n];
    assert columns[..n] == init && columns[..|columns|] == columns;
    if x < SumWidths(init) {
      ColumnsCover(init, x);
      var j :| 0 <= j < |init| && InColumn(init, j, x);
      assert init[..j] == columns[..j];
      assert InColumn(columns, j, x);
    } else {
      assert InColumn(columns, n, x);
    }
  }

  /**
   * _get_row_at_position: the index on the current page of the row band
   * under the point, or -1 outside the content rectangle, in the header
   * band or past the page's last row.
   */
  function RowAt(content: Rect, px: real, py: real, pageCount: nat): (r: int)
    ensures -1 <= r < pageCount
    ensures r >= 0 ==> (content.CollidePoint(px, py)
      && content.y + HeaderHeight + r as real * RowHeight <= py < content.y + HeaderHeight + (r + 1) as real * RowHeight)
  {
    if !content.CollidePoint(px, py) then -1
    else
      var offset := py - content.y - HeaderHeight;
      if offset < 0.0 then -1
      else
        var row := FloorDiv(offset, RowHeight);
        if row < pageCount then row else -1
  }

  /** A point inside the content rectangle in the band of row j of the page finds row j. */
  lemma RowAtFindsBand(content: Rect, px: real, py: real, pageCount: nat, j: nat)
    requires content.CollidePoint(px, py) && j < pageCount
    requires content.y + HeaderHeight + j as real * RowHeight <= py < content.y + HeaderHeight + (j + 1) as real * RowHeight
    ensures RowAt(content, px, py, pageCount) == j
  {
    var offset := py - content.y - HeaderHeight;
    var q := FloorDiv(offset, RowHeight);
    assert q as real * RowHeight < (j + 1) as real * RowHeight && j as real * RowHeight < (q + 1) as real * RowHeight;
  }

  /** The selection after a click on the row with identity id: Ctrl toggles it, a plain click selects only it. */
  function SelectClick(selected: set<nat>, id: nat, ctrl: bool): (s: set<nat>)
    ensures !ctrl ==> s == {id}
    ensures ctrl ==> (id in s <==> id !in selected)
    ensures ctrl ==> forall o :: o != id ==> (o in s <==> o in selected)
  {
    if !ctrl then {id}
    else if id in selected then selected - {id}
    else selected + {id}
  }

  /** Two Ctrl-clicks on the same row restore the selection. */
  lemma CtrlClickTwice(selected: set<nat>, id: nat)
    ensures SelectClick(SelectClick(selected, id, true), id, true) == selected
  {
  }

  /** [row for row in data if id(row) in selected] */
  function SelectedRows(data: seq<Row>, selected: set<nat>): (r: seq<Row>)
    ensures |r| <= |data|
    ensures forall x :: x in r <==> x in data && x.id in selected
  {
    if data == [] then []
    else (if data[0].id in selected then [data[0]] else []) + SelectedRows(data[1..], selected)
  }

  /** The selection holds every selected row as often as data holds it, and no other row. */
  lemma {:induction false} SelectedRowsCount(data: seq<Row>, selected: set<nat>, x: Row)
    ensures multiset(SelectedRows(data, selected))[x] == if x.id in selected then multiset(data)[x] else 0
    decreases |data|
  {
    if data != [] {
      assert data == [data[0]] + data[1..];
      SelectedRowsCount(data[1..], selected, x);
    }
  }

  /**
   * The selection keeps data's order: selecting from a concatenation is
   * selecting from each part, one after the other.
   */
  lemma {:induction false} SelectedRowsAppend(a: seq<Row>, b: seq<Row>, selected: set<nat>)
    ensures SelectedRows(a + b, selected) == SelectedRows(a, selected) + SelectedRows(b, selected)
    decreases |a|
  {
    if a != [] {
      assert (a + b)[0] == a[0] && (a + b)[1..] == a[1..] + b;
      SelectedRowsAppend(a[1..], b, selected);
    } else {
      assert a + b == b;
    }
  }

  /** calculate_size, with available sizes that may be unbounded. */
  function TableSize(columns: seq<Column>, pageCount: nat, count: nat, perPage: nat, paginated: bool,
                     padding: Padding, availableWidth: Extent, availableHeight: Extent): (size: (real, real))
    ensures size.0 == availableWidth.Clamp(SumWidths(columns) + padding.Horizontal())
    ensures var visible := if pageCount <= perPage then pageCount else perPage;
      size.1 == availableHeight.Clamp(HeaderHeight + visible as real * RowHeight + padding.Vertical()
                                      + (if paginated && count > perPage then PaginationHeight else 0.0))
  {
    var width := SumWidths(columns) + padding.left + padding.right;
    var visible := if pageCount <= perPage then pageCount else perPage;
    var height := HeaderHeight + visible as real * RowHeight + padding.top + padding.bottom
                  + (if paginated && count > perPage then PaginationHeight else 0.0);
    (availableWidth.Clamp(width), availableHeight.Clamp(height))
  }

  /** The table's height never exceeds the header, a full page, the pagination bar and the padding. */
  lemma TableHeightBound(columns: seq<Column>, pageCount: nat, count: nat, perPage: nat, paginated: bool,
                         padding: Padding, availableWidth: Extent, availableHeight: Extent)
    ensures TableSize(columns, pageCount, count, perPage, paginated, padding, availableWidth, availableHeight).1
         <= HeaderHeight + perPage as real * RowHeight + padding.Vertical() + PaginationHeight
  {
  }

  /** The pagination bar along the bottom of the content rectangle. */
  function PaginationRect(content: Rect): Rect {
    Rect(content.x, content.y + content.height - PaginationHeight, content.width, PaginationHeight)
  }

  function PrevButton(content: Rect): Rect {
    var bar := PaginationRect(content);
    Rect(bar.x, bar.y + 15.0, 80.0, 30.0)
  }

  function NextButton(content: Rect): Rect {
    var bar := PaginationRect(content);
    Rect(bar.x + 100.0, bar.y + 15.0, 80.0, 30.0)
  }

  /** What the table reported to on_row_click and on_selection_change. */
  datatype Report = RowClicked(row: Row) | SelectionChanged(rows: seq<Row>)

  class Table {
    const columns: seq<Column>
    var data: seq<Row>
    const selectable: bool
    const sortable: bool
    const paginated: bool
    const rowsPerPage: nat
    const hasOnRowClick: bool
    const hasOnSelectionChange: bool
    const padding: Padding
    var rect: Rect
    var sortColumn: Option<string>
    var direction: Direction
    var currentPage: nat
    var selected: set<nat>
    var hoveredRow: int
    var reports: seq<Report>
    var invalidations: nat

    /** The page is the first one, or an existing one of a table whose page count is defined. */
    predicate Valid()
      reads this
    {
      currentPage == 0 || ((paginated ==> rowsPerPage > 0) && currentPage < TotalPages(|data|, rowsPerPage, paginated))
    }

    constructor(columns: seq<Column>, data: seq<Row>, selectable: bool, sortable: bool, paginated: bool,
                rowsPerPage: nat, padding: Option<Padding>, hasOnRowClick: bool, hasOnSelectionChange: bool)
      ensures Valid()
      ensures this.columns == columns && this.data == data && this.rowsPerPage == rowsPerPage
      ensures this.selectable == selectable && this.sortable == sortable && this.paginated == paginated
      ensures this.padding == if padding.Some? then padding.value else PaddingAll(16.0)
      ensures this.hasOnRowClick == hasOnRowClick && this.hasOnSelectionChange == hasOnSelectionChange
      ensures sortColumn == None && direction == Asc && currentPage == 0 && selected == {} && hoveredRow == -1
      ensures rect == Rect(0.0, 0.0, 0.0, 0.0) && reports == [] && invalidations == 0
    {
      this.columns := columns;
      this.data := data;
      this.selectable := selectable;
      this.sortable := sortable;
      this.paginated := paginated;
      this.rowsPerPage := rowsPerPage;
      this.padding := if padding.Some? then padding.value else PaddingAll(16.0);
      this.hasOnRowClick := hasOnRowClick;
      this.hasOnSelectionChange := hasOnSelectionChange;
      rect := Rect(0.0, 0.0, 0.0, 0.0);
      sortColumn := None;
      direction := Asc;
      currentPage := 0;
      selected := {};
      hoveredRow := -1;
      reports := [];
      invalidations := 0;
    }

    function TotalPagesNow(): int
      reads this
      requires paginated ==> rowsPerPage > 0
    {
      TotalPages(|data|, rowsPerPage, paginated)
    }

    function CurrentPageRows(): seq<Row>
      reads this
    {
      PageRows(data, currentPage, rowsPerPage, paginated)
    }

    /** _get_table_content_rect: the widget rectangle inside the padding. */
    function ContentRect(): Rect
      reads this
    {
      Rect(rect.x + padding.left, rect.y + padding.top,
           rect.width - padding.left - padding.right, rect.height - padding.top - padding.bottom)
    }

    function HeaderRect(): Rect
      reads this
    {
      var content := ContentRect();
      Rect(content.x, content.y, content.width, HeaderHeight)
    }

    function CalculateSize(availableWidth: Extent, availableHeight: Extent): (real, real)
      reads this
    {
      TableSize(columns, |CurrentPageRows()|, |data|, rowsPerPage, paginated, padding, availableWidth, availableHeight)
    }

    /**
     * The state sort_data(key) leaves: nothing changes when the table is not
     * sortable; otherwise the column is key, the direction flips for the same
     * column and is ascending for another, and the rows are sorted stably on
     * the first page, unless the keys are not comparable (raised).
     */
    twostate predicate SortedBy(key: string, raised: bool)
      reads this
    {
      if !sortable then
        !raised && data == old(data) && currentPage == old(currentPage) && sortColumn == old(sortColumn)
        && direction == old(direction) && invalidations == old(invalidations)
      else
        && sortColumn == Some(key)
        && direction == (if old(sortColumn) != Some(key) then Asc else if old(direction) == Asc then Desc else Asc)
        && (raised <==> !Orderable(old(data), key))
        && (!raised ==> data == SortRows(old(data), key, direction == Desc) && currentPage == 0
                        && invalidations == old(invalidations) + 1)
        && (raised ==> multiset(data) == multiset(old(data)) && currentPage == old(currentPage)
                       && invalidations == old(invalidations))
    }

    /** The state a click on a row of the page leaves: the selection by SelectClick when selectable, the reports, one redraw. */
    twostate predicate RowClickedOn(row: Row, ctrl: bool)
      reads this
    {
      && selected == (if selectable then SelectClick(old(selected), row.id, ctrl) else old(selected))
      && reports == old(reports)
        + (if selectable && hasOnSelectionChange then [SelectionChanged(SelectedRows(data, selected))] else [])
        + (if hasOnRowClick then [RowClicked(row)] else [])
      && invalidations == old(invalidations) + 1
    }

    /**
     * The state a click at (px, py) on the pagination bar leaves: Prev turns
     * back from a later page; otherwise Next turns forward before the last
     * page, and raises ZeroDivisionError when a paginated table has page size
     * 0; anything else keeps the page and is not consumed.
     */
    twostate predicate PageClicked(px: real, py: real, consumed: bool, raised: bool)
      reads this
    {
      var content := old(ContentRect());
      var back := PrevButton(content).CollidePoint(px, py) && old(currentPage) > 0;
      var onNext := !back && NextButton(content).CollidePoint(px, py);
      var undefined := paginated && rowsPerPage == 0;
      var forward := onNext && !undefined && old(currentPage) < TotalPages(|old(data)|, rowsPerPage, paginated) - 1;
      && (raised <==> onNext && undefined)
      && (back ==> consumed && currentPage == old(currentPage) - 1)
      && (forward ==> consumed && currentPage == old(currentPage) + 1)
      && (!back && !forward ==> !consumed && currentPage == old(currentPage))
      && invalidations == old(invalidations) + (if consumed then 1 else 0)
    }

    /**
     * The state a left click at (px, py) leaves, as handle_event decides it:
     * on the header over a sortable column, that column's sort_data, consumed
     * unless it raised; else on a row of the page, that row's click; else on
     * the bar of a table with more rows than a page, the pagination click;
     * else nothing, not consumed.
     */
    twostate predicate LeftClicked(px: real, py: real, ctrl: bool, consumed: bool, raised: bool)
      reads this
    {
      var content := old(ContentRect());
      var col := ColumnIndex(columns, px - content.x);
      var page := old(CurrentPageRows());
      var row := RowAt(content, px, py, |page|);
      if old(HeaderRect()).CollidePoint(px, py) && 0 <= col < |columns| && ColumnSortable(columns[col]) then
        SortedBy(columns[col].key, raised) && consumed == !raised
        && selected == old(selected) && reports == old(reports)
      else
        && !(raised && consumed)
        && data == old(data) && sortColumn == old(sortColumn) && direction == old(direction)
        && if row >= 0 then
             !raised && consumed && RowClickedOn(page[row], ctrl) && currentPage == old(currentPage)
           else if paginated && |old(data)| > rowsPerPage && PaginationRect(content).CollidePoint(px, py) then
             PageClicked(px, py, consumed, raised) && selected == old(selected) && reports == old(reports)
           else
             !consumed && !raised && currentPage == old(currentPage) && selected == old(selected)
             && reports == old(reports) && invalidations == old(invalidations)
    }

    /**
     * sort_data: the same column flips the direction, another column starts
     * ascending; the rows are sorted stably by that key and the first page
     * is shown. Keys Python cannot compare raise TypeError (ok is false)
     * after the column and direction were already updated.
     */
    method SortData(key: string) returns (ok: bool)
      requires Valid()
      modifies this`sortColumn, this`direction, this`data, this`currentPage, this`invalidations
      ensures Valid()
      ensures !sortable ==> ok && unchanged(this)
      ensures sortable ==> sortColumn == Some(key)
      ensures sortable && old(sortColumn) == Some(key) ==> direction != old(direction)
      ensures sortable && old(sortColumn) != Some(key) ==> direction == Asc
      ensures sortable ==> (ok <==> Orderable(old(data), key))
      ensures sortable && ok ==>
        data == SortRows(old(data), key, direction == Desc) && currentPage == 0
        && invalidations == old(invalidations) + 1
      ensures sortable && !ok ==>
        multiset(data) == multiset(old(data)) && currentPage == old(currentPage) && invalidations == old(invalidations)
    {
      ok := true;
      if !sortable {
        return;
      }
      if sortColumn == Some(key) {
        direction := if direction == Asc then Desc else Asc;
      } else {
        sortColumn := Some(key);
        direction := Asc;
      }
      if !Orderable(data, key) {
        ok := false;
        return;
      }
      data := SortRows(data, key, direction == Desc);
      currentPage := 0;
      invalidations := invalidations + 1;
    }

    /**
     * _handle_pagination_click: Prev and Next move one page, only when the
     * click is on that button and such a page exists, and never leave the
     * existing pages. raised is the ZeroDivisionError of get_total_pages for
     * a paginated table with page size 0.
     */
    method HandlePaginationClick(px: real, py: real) returns (consumed: bool, raised: bool)
      requires Valid()
      modifies this`currentPage, this`invalidations
      ensures Valid()
      ensures PageClicked(px, py, consumed, raised)
      ensures !consumed <==> currentPage == old(currentPage)
    {
      consumed, raised := false, false;
      var content := ContentRect();
      if PrevButton(content).CollidePoint(px, py) && currentPage > 0 {
        currentPage := currentPage - 1;
        invalidations := invalidations + 1;
        return true, false;
      }
      if NextButton(content).CollidePoint(px, py) {
        if paginated && rowsPerPage == 0 {
          return false, true;
        }
        if currentPage < TotalPages(|data|, rowsPerPage, paginated) - 1 {
          currentPage := currentPage + 1;
          invalidations := invalidations + 1;
          return true, false;
        }
      }
    }

    /**
     * The row-click branch of handle_event: update the selection when the
     * table is selectable and report it, report the clicked row, redraw.
     */
    method ClickRow(row: Row, ctrl: bool)
      modifies this`selected, this`reports, this`invalidations
      ensures RowClickedOn(row, ctrl)
    {
      if selectable {
        selected := SelectClick(selected, row.id, ctrl);
        if hasOnSelectionChange {
          reports := reports + [SelectionChanged(SelectedRows(data, selected))];
        }
      }
      if hasOnRowClick {
        reports := reports + [RowClicked(row)];
      }
      invalidations := invalidations + 1;
    }

    /** A click on a sortable column's header: sort_data, consumed unless the sort raised. */
    method ClickHeader(key: string) returns (consumed: bool, raised: bool)
      requires Valid()
      modifies this`sortColumn, this`direction, this`data, this`currentPage, this`invalidations
      ensures Valid() && SortedBy(key, raised) && consumed == !raised
      ensures multiset(data) == multiset(old(data))
    {
      ghost var before := data;
      var ok := SortData(key);
      if ok && sortable {
        SortRowsPermutes(before, key, direction == Desc);
      }
      consumed, raised := ok, !ok;
    }

    /**
     * The left-click branch of handle_event: header, then rows, then the
     * pagination bar. raised is an exception that propagates: TypeError from
     * the sort or ZeroDivisionError from the page count.
     */
    method HandleLeftClick(px: real, py: real, ctrl: bool) returns (consumed: bool, raised: bool)
      requires Valid()
      modifies this`sortColumn, this`direction, this`data, this`currentPage, this`invalidations, this`selected, this`reports
      ensures Valid()
      ensures LeftClicked(px, py, ctrl, consumed, raised)
      ensures multiset(data) == multiset(old(data))
      ensures !consumed ==> selected == old(selected) && reports == old(reports)
    {
      consumed, raised := false, false;
      var content := ContentRect();
      if HeaderRect().CollidePoint(px, py) {
        var index := ColumnAt(columns, px - content.x);
        if 0 <= index < |columns| && ColumnSortable(columns[index]) {
          consumed, raised := ClickHeader(columns[index].key);
          return;
        }
      }
      var rowIndex := RowAt(content, px, py, |CurrentPageRows()|);
      if rowIndex >= 0 {
        var page := CurrentPageRows();
        if rowIndex < |page| {
          ClickRow(page[rowIndex], ctrl);
          consumed := true;
          return;
        }
      }
      if paginated && |data| > rowsPerPage && PaginationRect(content).CollidePoint(px, py) {
        consumed, raised := HandlePaginationClick(px, py);
      }
    }

    /**
     * handle_event. Motion tracks the hovered row. A left click on a
     * sortable column header sorts by it; on a row of the page it selects
     * and reports the row; on the pagination bar it turns the page. raised
     * says the sort raised TypeError or the page count ZeroDivisionError,
     * which propagates to the caller.
     */
    method HandleEvent(ev: Event, ctrl: bool) returns (consumed: bool, raised: bool)
      requires Valid()
      modifies this
      ensures Valid()
      ensures raised ==> ev.IsLeftDown() && !consumed
      ensures ev.IsLeftDown() ==> LeftClicked(ev.x, ev.y, ctrl, consumed, raised) && hoveredRow == old(hoveredRow)
      ensures ev.MouseMotion? ==>
        !consumed && !raised && hoveredRow == RowAt(ContentRect(), ev.x, ev.y, |CurrentPageRows()|)
        && data == old(data) && currentPage == old(currentPage) && selected == old(selected)
        && reports == old(reports) && sortColumn == old(sortColumn) && direction == old(direction)
        && invalidations == old(invalidations) + (if hoveredRow != old(hoveredRow) then 1 else 0)
      ensures !ev.MouseMotion? && !ev.IsLeftDown() ==> !consumed && !raised && unchanged(this)
      ensures multiset(data) == multiset(old(data))
      ensures !consumed ==> selected == old(selected) && reports == old(reports)
      ensures rect == old(rect)
    {
      consumed, raised := false, false;
      if ev.MouseMotion? {
        var previous := hoveredRow;
        hoveredRow := RowAt(ContentRect(), ev.x, ev.y, |CurrentPageRows()|);
        if previous != hoveredRow {
          invalidations := invalidations + 1;
        }
      } else if ev.IsLeftDown() {
        consumed, raised := HandleLeftClick(ev.x, ev.y, ctrl);
      }
    }
  }
}
