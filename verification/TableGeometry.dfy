/**
 Table geometry: the interval sweeps that decide whether cells with colspan and rowspan tile a
 rectangle, proved against the slot-by-slot grid of section 4.9.12.1 (Forming a table) of the
 HTML standard.

 The grid is the simple form: every cell goes to the first free slot of its row, and the table is
 a rectangle when each slot of a rows-by-width grid is covered once and no slot outside it is.
 The sweep is the fast form: it keeps only the intervals of columns still held by rowspans.
 */
module TableGeometry {
  import opened Wrappers

  const MAX_SAFE_INTEGER: nat := 0x1F_FFFF_FFFF_FFFF

  type Span = n: nat | 1 <= n witness 1

  datatype Cell = Cell(colspan: Span, rowspan: Span)

  datatype Interval = Interval(start: nat, end: nat, endRow: nat)

  datatype GeometryError = NoRows | NoCells | Rowspan | Colspan | Overlap | NonRectangular

  // ---------------------------------------------------------------------------------------------
  // The simple form: a grid of slots
  // ---------------------------------------------------------------------------------------------

  datatype Rect = Rect(row: nat, col: nat, width: Span, height: Span) {
    predicate Covers(y: nat, x: nat) {
      row <= y < row + height && col <= x < col + width
    }
  }

  ghost predicate Occupied(placed: seq<Rect>, y: nat, x: nat) {
    exists r :: r in placed && r.Covers(y, x)
  }

  /** A column to the right of every placed cell. */
  ghost function Extent(placed: seq<Rect>): (e: nat)
    ensures forall r :: r in placed ==> r.col + r.width <= e
  {
    if placed == [] then 0
    else
      var last := placed[|placed| - 1];
      var rest := Extent(placed[..|placed| - 1]);
      assert placed == placed[..|placed| - 1] + [last];
      if rest < last.col + last.width then last.col + last.width else rest
  }

  /** The first slot of row `y`, from column `x` on, that no cell covers yet. */
  ghost function FirstFree(placed: seq<Rect>, y: nat, x: nat): (free: nat)
    ensures x <= free && !Occupied(placed, y, free)
    ensures forall k :: x <= k < free ==> Occupied(placed, y, k)
    decreases Extent(placed) - x
  {
    if Occupied(placed, y, x) then FirstFree(placed, y, x + 1) else x
  }

  datatype Cursor = Cursor(placed: seq<Rect>, column: nat)

  /** The grid, and the column behind the last cell, once the first `k` cells of row `y` are placed. */
  ghost function PlaceCells(placed: seq<Rect>, y: nat, cells: seq<Cell>, k: nat): Cursor
    requires k <= |cells|
  {
    if k == 0 then Cursor(placed, 0)
    else
      var before := PlaceCells(placed, y, cells, k - 1);
      var rect := Rect(y, FirstFree(before.placed, y, before.column), cells[k - 1].colspan, cells[k - 1].rowspan);
      Cursor(before.placed + [rect], rect.col + rect.width)
  }

  ghost function PlaceRow(placed: seq<Rect>, y: nat, cells: seq<Cell>): seq<Rect> {
    PlaceCells(placed, y, cells, |cells|).placed
  }

  /** The grid once the first `k` rows are placed. */
  ghost function PlaceRows(rows: seq<seq<Cell>>, k: nat): seq<Rect>
    requires k <= |rows|
  {
    if k == 0 then [] else PlaceRow(PlaceRows(rows, k - 1), k - 1, rows[k - 1])
  }

  ghost predicate Extends(after: seq<Rect>, placed: seq<Rect>, row: nat) {
    placed <= after && forall k :: |placed| <= k < |after| ==> after[k].row >= row
  }

  lemma {:induction false} PlaceCellsExtends(placed: seq<Rect>, y: nat, cells: seq<Cell>, j: nat, k: nat)
    requires j <= k <= |cells|
    ensures Extends(PlaceCells(placed, y, cells, k).placed, PlaceCells(placed, y, cells, j).placed, y)
  {
    if j < k {
      PlaceCellsExtends(placed, y, cells, j, k - 1);
    }
  }

  lemma {:induction false} PlaceRowsExtends(rows: seq<seq<Cell>>, j: nat, k: nat)
    requires j <= k <= |rows|
    ensures Extends(PlaceRows(rows, k), PlaceRows(rows, j), j)
  {
    if j < k {
      PlaceRowsExtends(rows, j, k - 1);
      PlaceCellsExtends(PlaceRows(rows, k - 1), k - 1, rows[k - 1], 0, |rows[k - 1]|);
    }
  }

  ghost predicate Disjoint(placed: seq<Rect>) {
    forall i, j, y: nat, x: nat ::
      0 <= i < j < |placed| && placed[i].Covers(y, x) ==> !placed[j].Covers(y, x)
  }

  /** Every slot of the height-by-width grid is covered once, and nothing else is covered. */
  ghost predicate Tiles(placed: seq<Rect>, height: nat, width: nat) {
    && Disjoint(placed)
    && forall y: nat, x: nat :: Occupied(placed, y, x) <==> (y < height && x < width)
  }

  /** The rows, placed cell by cell, form a rectangle `width` columns wide. */
  ghost predicate FormsTable(rows: seq<seq<Cell>>, width: nat) {
    0 < width && Tiles(PlaceRows(rows, |rows|), |rows|, width)
  }

  lemma WidthIsUnique(rows: seq<seq<Cell>>, w: nat, v: nat)
    requires rows != [] && FormsTable(rows, w) && FormsTable(rows, v)
    ensures w == v
  {
    var placed := PlaceRows(rows, |rows|);
    assert Occupied(placed, 0, w) <==> w < v;
    assert Occupied(placed, 0, v) <==> v < w;
  }

  // ---------------------------------------------------------------------------------------------
  // The fast form: sorted intervals of columns
  // ---------------------------------------------------------------------------------------------

  ghost predicate Sorted(ivs: seq<Interval>) {
    && (forall i :: 0 <= i < |ivs| ==> ivs[i].start < ivs[i].end)
    && (forall i, j :: 0 <= i < j < |ivs| ==> ivs[i].end <= ivs[j].start)
  }

  ghost predicate Apart(left: seq<Interval>, right: seq<Interval>) {
    forall l, r :: l in left && r in right ==> l.end <= r.start || r.end <= l.start
  }

  /** Some interval holds column `x` in row `y`. */
  ghost predicate Holds(ivs: seq<Interval>, y: nat, x: nat) {
    exists iv :: iv in ivs && iv.start <= x < iv.end && y < iv.endRow
  }

  ghost predicate HoldsColumn(ivs: seq<Interval>, x: nat) {
    exists iv :: iv in ivs && iv.start <= x < iv.end
  }

  ghost predicate EndRowsWithin(ivs: seq<Interval>, y: nat, height: nat) {
    forall iv :: iv in ivs ==> y < iv.endRow <= height
  }

  /** From row `y` on, the placed cells cover exactly what the intervals hold. */
  ghost predicate Represents(ivs: seq<Interval>, placed: seq<Rect>, y: nat) {
    forall y': nat, x: nat :: y <= y' ==> (Occupied(placed, y', x) <==> Holds(ivs, y', x))
  }

  function Merged(left: seq<Interval>, right: seq<Interval>): (merged: seq<Interval>)
    ensures forall iv :: iv in merged <==> iv in left || iv in right
    decreases |left| + |right|
  {
    if left == [] && right == [] then []
    else if right == [] || (left != [] && left[0].start <= right[0].start) then
      [left[0]] + Merged(left[1..], right)
    else
      [right[0]] + Merged(left, right[1..])
  }

  lemma SortedCons(head: Interval, rest: seq<Interval>)
    requires head.start < head.end && Sorted(rest)
    requires forall iv :: iv in rest ==> head.end <= iv.start
    ensures Sorted([head] + rest)
  {
    forall j | 0 <= j < |rest|
      ensures head.end <= rest[j].start
    {
      assert rest[j] in rest;
    }
  }

  lemma SortedTail(ivs: seq<Interval>)
    requires Sorted(ivs) && ivs != []
    ensures ivs[0].start < ivs[0].end && Sorted(ivs[1..])
    ensures forall iv :: iv in ivs[1..] ==> ivs[0].end <= iv.start
  {
    forall iv | iv in ivs[1..]
      ensures ivs[0].end <= iv.start
    {
      var k :| 1 <= k < |ivs| && ivs[k] == iv;
    }
  }

  lemma {:induction false} MergedSorted(left: seq<Interval>, right: seq<Interval>)
    requires Sorted(left) && Sorted(right) && Apart(left, right)
    ensures Sorted(Merged(left, right))
    decreases |left| + |right|
  {
    if left != [] {
      SortedTail(left);
      assert left[0] in left;
    }
    if right != [] {
      SortedTail(right);
      assert right[0] in right;
    }
    if left == [] && right == [] {
    } else if right == [] || (left != [] && left[0].start <= right[0].start) {
      assert Apart(left[1..], right);
      MergedSorted(left[1..], right);
      SortedCons(left[0], Merged(left[1..], right));
    } else {
      assert Apart(left, right[1..]);
      MergedSorted(left, right[1..]);
      SortedCons(right[0], Merged(left, right[1..]));
    }
  }

  method MergeTableIntervals(left: seq<Interval>, right: seq<Interval>) returns (merged: seq<Interval>)
    ensures merged == Merged(left, right)
  {
    merged := [];
    var leftIndex, rightIndex := 0, 0;
    while leftIndex < |left| || rightIndex < |right|
      invariant 0 <= leftIndex <= |left| && 0 <= rightIndex <= |right|
      invariant merged + Merged(left[leftIndex..], right[rightIndex..]) == Merged(left, right)
      decreases |left| - leftIndex + |right| - rightIndex
    {
      if rightIndex == |right| || (leftIndex < |left| && left[leftIndex].start <= right[rightIndex].start) {
        merged := merged + [left[leftIndex]];
        leftIndex := leftIndex + 1;
      } else {
        merged := merged + [right[rightIndex]];
        rightIndex := rightIndex + 1;
      }
    }
  }

  /** Moves past the intervals in the way: the result is the first column from `columnIndex` on held by none. */
  method AdvancePastActiveTableIntervals(active: seq<Interval>, activeIndex: nat, columnIndex: nat)
    returns (nextActive: nat, nextColumn: nat)
    requires Sorted(active) && activeIndex <= |active|
    requires forall i :: 0 <= i < activeIndex ==> active[i].end <= columnIndex
    requires forall i :: activeIndex <= i < |active| ==> columnIndex <= active[i].start
    ensures activeIndex <= nextActive <= |active| && columnIndex <= nextColumn
    ensures forall i :: 0 <= i < nextActive ==> active[i].end <= nextColumn
    ensures forall i :: nextActive <= i < |active| ==> nextColumn < active[i].start
    ensures forall x :: columnIndex <= x < nextColumn ==> HoldsColumn(active, x)
  {
    nextActive, nextColumn := activeIndex, columnIndex;
    while nextActive < |active|
      invariant activeIndex <= nextActive <= |active| && columnIndex <= nextColumn
      invariant forall i :: 0 <= i < nextActive ==> active[i].end <= nextColumn
      invariant forall i :: nextActive <= i < |active| ==> nextColumn <= active[i].start
      invariant forall x :: columnIndex <= x < nextColumn ==> HoldsColumn(active, x)
    {
      if active[nextActive].start > nextColumn {
        break;
      }
      assert active[nextActive] in active;
      nextColumn := active[nextActive].end;
      nextActive := nextActive + 1;
    }
  }

  function KeepAfterRow(ivs: seq<Interval>, row: nat): (kept: seq<Interval>)
    ensures forall iv :: iv in kept <==> iv in ivs && iv.endRow > row + 1
  {
    if ivs == [] then []
    else
      var rest := KeepAfterRow(ivs[1..], row);
      if ivs[0].endRow > row + 1 then [ivs[0]] + rest else rest
  }

  lemma {:induction false} KeepAfterRowSorted(ivs: seq<Interval>, row: nat)
    requires Sorted(ivs)
    ensures Sorted(KeepAfterRow(ivs, row))
  {
    if ivs != [] {
      SortedTail(ivs);
      KeepAfterRowSorted(ivs[1..], row);
      SortedCons(ivs[0], KeepAfterRow(ivs[1..], row));
    }
  }

  ghost predicate Fits(limit: Option<nat>, column: nat) {
    limit.Some? ==> column <= limit.value
  }

  /** Some cell sticks out of the grid, or two cells overlap. */
  ghost predicate Misplaced(placed: seq<Rect>, height: nat, limit: Option<nat>) {
    || (exists r :: r in placed && (r.row + r.height > height || !Fits(limit, r.col + r.width)))
    || !Disjoint(placed)
  }

  lemma MisplacedStays(placed: seq<Rect>, height: nat, limit: Option<nat>, after: seq<Rect>)
    requires Misplaced(placed, height, limit) && placed <= after
    ensures Misplaced(after, height, limit)
  {
    if r :| r in placed && (r.row + r.height > height || !Fits(limit, r.col + r.width)) {
      assert r in after;
    }
  }

  /** No placement that only adds cells in rows below `y` to this one tiles a grid of an allowed width. */
  ghost predicate Broken(placed: seq<Rect>, y: nat, height: nat, limit: Option<nat>) {
    || Misplaced(placed, height, limit)
    || (exists x0: nat, x1: nat :: x0 < x1 && !Occupied(placed, y, x0) && Occupied(placed, y, x1))
  }

  lemma BrokenNeverTiles(placed: seq<Rect>, y: nat, height: nat, limit: Option<nat>, final: seq<Rect>, w: nat)
    requires Broken(placed, y, height, limit) && Extends(final, placed, y + 1) && Fits(limit, w)
    ensures !Tiles(final, height, w)
  {
    if r :| r in placed && (r.row + r.height > height || !Fits(limit, r.col + r.width)) {
      assert r in final && r.Covers(r.row + r.height - 1, r.col + r.width - 1);
      assert Occupied(final, r.row + r.height - 1, r.col + r.width - 1);
    } else if x0: nat, x1: nat :| x0 < x1 && !Occupied(placed, y, x0) && Occupied(placed, y, x1) {
      assert Occupied(final, y, x1) && !Occupied(final, y, x0);
    }
  }

  /** Part of row `y` is placed: earlier rows hold `active`, this row's cells so far hold `current`. */
  ghost predicate RowState(now: seq<Rect>, active: seq<Interval>, current: seq<Interval>, y: nat) {
    && Disjoint(now)
    && forall y': nat, x: nat ::
         y <= y' ==> (Occupied(now, y', x) <==> Holds(active, y', x) || Holds(current, y', x))
  }

  lemma {:induction false} FreeColumn(now: seq<Rect>, active: seq<Interval>, current: seq<Interval>, y: nat, x: nat, c: nat)
    requires RowState(now, active, current, y) && x <= c
    requires forall iv :: iv in active || iv in current ==> y < iv.endRow
    requires forall k :: x <= k < c ==> HoldsColumn(active, k)
    requires !HoldsColumn(active, c)
    requires forall iv :: iv in current ==> iv.end <= x
    ensures FirstFree(now, y, x) == c
  {
    assert !Holds(active, y, c) && !Holds(current, y, c);
    forall k: nat | x <= k < c
      ensures Holds(active, y, k)
    {
      assert HoldsColumn(active, k);
      var iv :| iv in active && iv.start <= k < iv.end;
      assert y < iv.endRow;
    }
  }

  /** Placing a cell over free columns of row `y` keeps the placed cells apart. */
  lemma AddCell(now: seq<Rect>, active: seq<Interval>, current: seq<Interval>, y: nat, iv: Interval)
    requires RowState(now, active, current, y) && iv.start < iv.end && y < iv.endRow
    requires forall a :: a in active || a in current ==> a.end <= iv.start || iv.end <= a.start
    ensures var cell := Rect(y, iv.start, iv.end - iv.start, iv.endRow - y);
            RowState(now + [cell], active, current + [iv], y)
  {
    var cell := Rect(y, iv.start, iv.end - iv.start, iv.endRow - y);
    var extended := now + [cell];
    forall i, j, y': nat, x: nat | 0 <= i < j < |extended| && extended[i].Covers(y', x)
      ensures !extended[j].Covers(y', x)
    {
      if j == |now| {
        assert now[i] in now && Occupied(now, y', x);
      }
    }
    forall y': nat, x: nat | y <= y'
      ensures Occupied(extended, y', x) <==> Holds(active, y', x) || Holds(current + [iv], y', x)
    {
      assert cell in extended && (forall r :: r in extended <==> r in now || r == cell);
      assert Occupied(extended, y', x) <==> Occupied(now, y', x) || cell.Covers(y', x);
      assert forall a :: a in current + [iv] <==> a in current || a == iv;
      assert Holds(current + [iv], y', x) <==> Holds(current, y', x) || (iv.start <= x < iv.end && y' < iv.endRow);
    }
  }

  ghost predicate RowPlaced(placed: seq<Rect>, y: nat, height: nat, cells: seq<Cell>, active: seq<Interval>,
                            current: seq<Interval>, limit: Option<nat>)
  {
    && RowState(PlaceRow(placed, y, cells), active, current, y)
    && Sorted(current) && Apart(active, current) && EndRowsWithin(current, y, height)
    && (forall iv :: iv in current ==> Fits(limit, iv.end))
  }

  /** The loop state of one row: what is placed, and where the next free column is looked for. */
  ghost predicate Sweeping(now: seq<Rect>, y: nat, height: nat, active: seq<Interval>, activeIndex: nat,
                           columnIndex: nat, current: seq<Interval>, limit: Option<nat>)
  {
    && RowState(now, active, current, y)
    && Sorted(current) && Apart(active, current) && EndRowsWithin(current, y, height)
    && (forall iv :: iv in current ==> iv.end <= columnIndex && Fits(limit, iv.end))
    && activeIndex <= |active|
    && (forall i :: 0 <= i < activeIndex ==> active[i].end <= columnIndex)
    && (forall i :: activeIndex <= i < |active| ==> columnIndex <= active[i].start)
  }

  lemma SweepCell(now: seq<Rect>, y: nat, height: nat, active: seq<Interval>, activeIndex: nat, columnIndex: nat,
                  current: seq<Interval>, limit: Option<nat>, iv: Interval, cell: Rect)
    requires Sweeping(now, y, height, active, activeIndex, columnIndex, current, limit) && Sorted(active)
    requires iv.start == columnIndex < iv.end && y < iv.endRow <= height && Fits(limit, iv.end)
    requires activeIndex < |active| ==> iv.end <= active[activeIndex].start
    requires cell.row == y && cell.col == iv.start && cell.col + cell.width == iv.end && y + cell.height == iv.endRow
    ensures Sweeping(now + [cell], y, height, active, activeIndex, iv.end, current + [iv], limit)
  {
    forall a | a in active
      ensures a.end <= iv.start || iv.end <= a.start
    {
      var i :| 0 <= i < |active| && active[i] == a;
    }
    AddCell(now, active, current, y, iv);
    SortedSnoc(current, iv);
  }

  /** The state of a row of which `k` cells are placed. */
  ghost predicate CellsPlaced(placed: seq<Rect>, y: nat, height: nat, cells: seq<Cell>, k: nat, active: seq<Interval>,
                              activeIndex: nat, columnIndex: nat, current: seq<Interval>, limit: Option<nat>)
  {
    && k <= |cells| && |current| == k
    && PlaceCells(placed, y, cells, k).column == columnIndex
    && Sweeping(PlaceCells(placed, y, cells, k).placed, y, height, active, activeIndex, columnIndex, current, limit)
  }

  /**
   Places cell `k` of row `y` behind the columns that rowspans from above still hold. `limit` is the
   largest column the caller allows, if any.
   */
  method PlaceCell(ghost placed: seq<Rect>, height: nat, y: nat, cells: seq<Cell>, k: nat, active: seq<Interval>,
                   activeIndex: nat, columnIndex: nat, current: seq<Interval>, limit: Option<nat>)
    returns (r: Result<(nat, Interval), GeometryError>)
    requires y < height && Sorted(active) && EndRowsWithin(active, y, height) && k < |cells|
    requires CellsPlaced(placed, y, height, cells, k, active, activeIndex, columnIndex, current, limit)
    ensures r.Ok? ==> CellsPlaced(placed, y, height, cells, k + 1, active, r.value.0, r.value.1.end, current + [r.value.1], limit)
    ensures r.Err? ==> Misplaced(PlaceRow(placed, y, cells), height, limit)
  {
    var cell := cells[k];
    ghost var now := PlaceCells(placed, y, cells, k).placed;
    ghost var rect := Rect(y, FirstFree(now, y, columnIndex), cell.colspan, cell.rowspan);
    assert PlaceCells(placed, y, cells, k + 1) == Cursor(now + [rect], rect.col + rect.width);
    PlaceCellsExtends(placed, y, cells, k + 1, |cells|);
    assert rect in now + [rect];
    if cell.rowspan > height - y {
      MisplacedStays(now + [rect], height, limit, PlaceRow(placed, y, cells));
      return Err(Rowspan);
    }
    var nextActive, column := AdvancePastActiveTableIntervals(active, activeIndex, columnIndex);
    NotHeld(active, nextActive, column);
    FreeColumn(now, active, current, y, columnIndex, column);
    if limit.Some? && cell.colspan > limit.value - column {
      MisplacedStays(now + [rect], height, limit, PlaceRow(placed, y, cells));
      return Err(Colspan);
    }
    var end := column + cell.colspan;
    if nextActive < |active| && active[nextActive].start < end {
      OverlapBreaks(now, rect, active, active[nextActive], current, y);
      MisplacedStays(now + [rect], height, limit, PlaceRow(placed, y, cells));
      return Err(Overlap);
    }
    var iv := Interval(column, end, y + cell.rowspan);
    assert Sweeping(now, y, height, active, nextActive, column, current, limit);
    SweepCell(now, y, height, active, nextActive, column, current, limit, iv, rect);
    return Ok((nextActive, iv));
  }

  method CellIntervals(ghost placed: seq<Rect>, height: nat, y: nat, cells: seq<Cell>, active: seq<Interval>,
                       limit: Option<nat>)
    returns (r: Result<seq<Interval>, GeometryError>)
    requires y < height && Sorted(active) && EndRowsWithin(active, y, height)
    requires Disjoint(placed) && Represents(active, placed, y)
    ensures r.Ok? ==> RowPlaced(placed, y, height, cells, active, r.value, limit)
    ensures r.Err? ==> Misplaced(PlaceRow(placed, y, cells), height, limit)
  {
    var current: seq<Interval> := [];
    var activeIndex, columnIndex: nat := 0, 0;
    for k := 0 to |cells|
      invariant CellsPlaced(placed, y, height, cells, k, active, activeIndex, columnIndex, current, limit)
    {
      var cell := PlaceCell(placed, height, y, cells, k, active, activeIndex, columnIndex, current, limit);
      if cell.Err? {
        return Err(cell.error);
      }
      activeIndex, columnIndex, current := cell.value.0, cell.value.1.end, current + [cell.value.1];
    }
    return Ok(current);
  }

  lemma NotHeld(active: seq<Interval>, activeIndex: nat, column: nat)
    requires Sorted(active) && activeIndex <= |active|
    requires forall i :: 0 <= i < activeIndex ==> active[i].end <= column
    requires forall i :: activeIndex <= i < |active| ==> column < active[i].start
    ensures !HoldsColumn(active, column)
  {
  }

  lemma SortedSnoc(ivs: seq<Interval>, iv: Interval)
    requires Sorted(ivs) && iv.start < iv.end && forall a :: a in ivs ==> a.end <= iv.start
    ensures Sorted(ivs + [iv])
  {
    forall i | 0 <= i < |ivs|
      ensures ivs[i].end <= iv.start
    {
      assert ivs[i] in ivs;
    }
  }

  lemma OverlapBreaks(now: seq<Rect>, rect: Rect, active: seq<Interval>, held: Interval, current: seq<Interval>, y: nat)
    requires RowState(now, active, current, y)
    requires held in active && y < held.endRow && held.start < held.end
    requires rect.row == y && rect.col <= held.start < rect.col + rect.width
    ensures !Disjoint(now + [rect])
  {
    assert Holds(active, y, held.start);
    assert Occupied(now, y, held.start);
    var r :| r in now && r.Covers(y, held.start);
    var i :| 0 <= i < |now| && now[i] == r;
    assert (now + [rect])[i] == r && (now + [rect])[|now|] == rect;
    assert rect.Covers(y, held.start);
  }

  /** The width of a row whose intervals leave no gap. */
  method RectangularRowWidth(intervals: seq<Interval>) returns (r: Result<nat, GeometryError>)
    requires Sorted(intervals)
    ensures r.Ok? ==> forall x: nat :: HoldsColumn(intervals, x) <==> x < r.value
    ensures r.Err? ==> exists x0: nat, x1: nat :: x0 < x1 && !HoldsColumn(intervals, x0) && HoldsColumn(intervals, x1)
  {
    var rowWidth: nat := 0;
    for k := 0 to |intervals|
      invariant forall x: nat :: HoldsColumn(intervals[..k], x) <==> x < rowWidth
      invariant forall i :: k <= i < |intervals| ==> rowWidth <= intervals[i].start
    {
      var iv := intervals[k];
      assert iv in intervals;
      if iv.start > rowWidth {
        GapAt(intervals, k, rowWidth);
        return Err(NonRectangular);
      }
      assert intervals[..k + 1] == intervals[..k] + [iv];
      forall x: nat {:trigger HoldsColumn(intervals[..k + 1], x)}
        ensures HoldsColumn(intervals[..k + 1], x) <==> x < iv.end
      {
        HoldsColumnSnoc(intervals[..k], iv, x);
        assert HoldsColumn(intervals[..k], x) <==> x < rowWidth;
      }
      rowWidth := iv.end;
    }
    assert intervals[..|intervals|] == intervals;
    return Ok(rowWidth);
  }

  lemma HoldsColumnSnoc(ivs: seq<Interval>, iv: Interval, x: nat)
    ensures HoldsColumn(ivs + [iv], x) <==> HoldsColumn(ivs, x) || iv.start <= x < iv.end
  {
    assert forall a :: a in ivs + [iv] <==> a in ivs || a == iv;
    if iv.start <= x < iv.end {
      assert iv in ivs + [iv];
    }
  }

  lemma GapAt(intervals: seq<Interval>, k: nat, x: nat)
    requires Sorted(intervals) && k < |intervals| && x < intervals[k].start
    requires !HoldsColumn(intervals[..k], x)
    ensures !HoldsColumn(intervals, x) && HoldsColumn(intervals, intervals[k].start)
  {
    assert intervals[k] in intervals;
    forall iv | iv in intervals
      ensures !(iv.start <= x < iv.end)
    {
      var i :| 0 <= i < |intervals| && intervals[i] == iv;
      if i < k {
        assert iv in intervals[..k];
      }
    }
  }

  /** In row `y` the placed cells cover exactly the columns of the merged intervals. */
  lemma RowColumns(now: seq<Rect>, active: seq<Interval>, current: seq<Interval>, y: nat, merged: seq<Interval>)
    requires RowState(now, active, current, y)
    requires forall iv :: iv in merged <==> iv in active || iv in current
    requires forall iv :: iv in merged ==> y < iv.endRow
    ensures forall x: nat :: Occupied(now, y, x) <==> HoldsColumn(merged, x)
  {
    forall x: nat
      ensures Occupied(now, y, x) <==> HoldsColumn(merged, x)
    {
      if HoldsColumn(merged, x) {
        var iv :| iv in merged && iv.start <= x < iv.end;
        assert Holds(active, y, x) || Holds(current, y, x);
      }
      if Holds(active, y, x) {
        var iv :| iv in active && iv.start <= x < iv.end;
        assert iv in merged;
      } else if Holds(current, y, x) {
        var iv :| iv in current && iv.start <= x < iv.end;
        assert iv in merged;
      }
    }
  }

  /** The intervals that outlive row `y` represent the placed cells from the next row on. */
  lemma NextRow(now: seq<Rect>, active: seq<Interval>, current: seq<Interval>, y: nat, next: seq<Interval>)
    requires RowState(now, active, current, y)
    requires forall iv :: iv in next <==> (iv in active || iv in current) && iv.endRow > y + 1
    ensures Represents(next, now, y + 1)
  {
    forall y': nat, x: nat | y + 1 <= y'
      ensures Occupied(now, y', x) <==> Holds(next, y', x)
    {
      if Holds(active, y', x) {
        var iv :| iv in active && iv.start <= x < iv.end && y' < iv.endRow;
        assert iv in next;
      } else if Holds(current, y', x) {
        var iv :| iv in current && iv.start <= x < iv.end && y' < iv.endRow;
        assert iv in next;
      }
    }
  }

  /**
   One row of the sweep: its width, and the intervals that reach below it. A failure means the cells
   placed so far cannot be completed to a rectangle of an allowed width.
   */
  method GeometryForTableRow(ghost placed: seq<Rect>, height: nat, y: nat, cells: seq<Cell>, active: seq<Interval>,
                             limit: Option<nat>)
    returns (r: Result<(nat, seq<Interval>), GeometryError>)
    requires y < height && Sorted(active) && EndRowsWithin(active, y, height)
    requires Disjoint(placed) && Represents(active, placed, y)
    requires forall iv :: iv in active ==> Fits(limit, iv.end)
    ensures var after := PlaceRow(placed, y, cells);
            if r.Ok? then
              && Disjoint(after)
              && (forall x: nat :: Occupied(after, y, x) <==> x < r.value.0)
              && Fits(limit, r.value.0)
              && Sorted(r.value.1) && EndRowsWithin(r.value.1, y + 1, height) && Represents(r.value.1, after, y + 1)
              && (forall iv :: iv in r.value.1 ==> Fits(limit, iv.end))
            else
              Broken(after, y, height, limit)
  {
    ghost var after := PlaceRow(placed, y, cells);
    var placedCells := CellIntervals(placed, height, y, cells, active, limit);
    if placedCells.Err? {
      return Err(placedCells.error);
    }
    var current := placedCells.value;
    var rowIntervals := MergeTableIntervals(active, current);
    MergedSorted(active, current);
    RowColumns(after, active, current, y, rowIntervals);
    var rowWidth := RectangularRowWidth(rowIntervals);
    if rowWidth.Err? {
      return Err(rowWidth.error);
    }
    if rowWidth.value > 0 {
      assert HoldsColumn(rowIntervals, rowWidth.value - 1) && !HoldsColumn(rowIntervals, rowWidth.value);
    }
    KeepAfterRowSorted(active, y);
    KeepAfterRowSorted(current, y);
    var next := MergeTableIntervals(KeepAfterRow(active, y), KeepAfterRow(current, y));
    MergedSorted(KeepAfterRow(active, y), KeepAfterRow(current, y));
    NextRow(after, active, current, y, next);
    return Ok((rowWidth.value, next));
  }

  // ---------------------------------------------------------------------------------------------
  // Whole tables
  // ---------------------------------------------------------------------------------------------

  /** The first `k` rows are placed without fault and each is `width` columns wide. */
  ghost predicate RowsSwept(rows: seq<seq<Cell>>, k: nat, width: nat, active: seq<Interval>, limit: Option<nat>)
    requires k <= |rows|
  {
    var placed := PlaceRows(rows, k);
    && Disjoint(placed)
    && (forall y: nat, x: nat :: y < k ==> (Occupied(placed, y, x) <==> x < width))
    && Represents(active, placed, k)
    && Sorted(active) && EndRowsWithin(active, k, |rows|)
    && (forall iv :: iv in active ==> Fits(limit, iv.end))
    && (k > 0 ==> 0 < width && Fits(limit, width))
  }

  lemma NothingSwept(rows: seq<seq<Cell>>, limit: Option<nat>)
    ensures RowsSwept(rows, 0, 0, [], limit)
  {
  }

  lemma {:induction false} SweepRow(rows: seq<seq<Cell>>, k: nat, width: nat, active: seq<Interval>, limit: Option<nat>, rowWidth: nat,
                 next: seq<Interval>)
    requires k < |rows| && RowsSwept(rows, k, width, active, limit)
    requires var after := PlaceRow(PlaceRows(rows, k), k, rows[k]);
             && Disjoint(after) && (forall x: nat :: Occupied(after, k, x) <==> x < rowWidth)
             && Represents(next, after, k + 1)
    requires Sorted(next) && EndRowsWithin(next, k + 1, |rows|) && (forall iv :: iv in next ==> Fits(limit, iv.end))
    requires 0 < rowWidth && Fits(limit, rowWidth) && (k > 0 ==> rowWidth == width)
    ensures RowsSwept(rows, k + 1, rowWidth, next, limit)
  {
    var placed, after := PlaceRows(rows, k), PlaceRow(PlaceRows(rows, k), k, rows[k]);
    PlaceCellsExtends(placed, k, rows[k], 0, |rows[k]|);
    forall y: nat, x: nat | y < k
      ensures Occupied(after, y, x) <==> x < rowWidth
    {
      KeptRow(placed, after, k, y, x);
    }
  }

  lemma KeptRow(placed: seq<Rect>, after: seq<Rect>, row: nat, y: nat, x: nat)
    requires Extends(after, placed, row) && y < row
    ensures Occupied(after, y, x) <==> Occupied(placed, y, x)
  {
    forall r | r in placed
      ensures r in after
    {
    }
    forall r | r in after && r.Covers(y, x)
      ensures r in placed
    {
      var i :| 0 <= i < |after| && after[i] == r;
    }
  }

  lemma SweptIsTable(rows: seq<seq<Cell>>, width: nat, active: seq<Interval>, limit: Option<nat>)
    requires rows != [] && RowsSwept(rows, |rows|, width, active, limit)
    ensures FormsTable(rows, width)
  {
    forall y: nat, x: nat
      ensures Occupied(PlaceRows(rows, |rows|), y, x) <==> (y < |rows| && x < width)
    {
      if y >= |rows| {
        assert Occupied(PlaceRows(rows, |rows|), y, x) <==> Holds(active, y, x);
      }
    }
  }

  /** A row that is broken, empty, or of another width than the rows above it rules every table out. */
  lemma NoTable(rows: seq<seq<Cell>>, k: nat, limit: Option<nat>)
    requires k < |rows|
    requires var after := PlaceRows(rows, k + 1);
             || Broken(after, k, |rows|, limit)
             || !Occupied(after, k, 0)
             || (exists x: nat :: k > 0 && (Occupied(after, k, x) <==> !Occupied(PlaceRows(rows, k), k - 1, x)))
    ensures forall w: nat :: Fits(limit, w) ==> !FormsTable(rows, w)
  {
    var after, final := PlaceRows(rows, k + 1), PlaceRows(rows, |rows|);
    PlaceRowsExtends(rows, k + 1, |rows|);
    PlaceRowsExtends(rows, k, |rows|);
    forall w: nat | Fits(limit, w)
      ensures !FormsTable(rows, w)
    {
      if Broken(after, k, |rows|, limit) {
        BrokenNeverTiles(after, k, |rows|, limit, final, w);
      } else if !Occupied(after, k, 0) {
        KeptRow(after, final, k + 1, k, 0);
      } else {
        var x: nat :| Occupied(after, k, x) <==> !Occupied(PlaceRows(rows, k), k - 1, x);
        KeptRow(after, final, k + 1, k, x);
        KeptRow(PlaceRows(rows, k), final, k, k - 1, x);
      }
    }
  }

  /** One row of a table under the rows already swept: its width must match theirs. */
  method SweepNextRow(rows: seq<seq<Cell>>, k: nat, width: Option<nat>, active: seq<Interval>, limit: Option<nat>)
    returns (r: Result<(nat, seq<Interval>), GeometryError>)
    requires k < |rows| && (k > 0 <==> width.Some?)
    requires RowsSwept(rows, k, if width.Some? then width.value else 0, active, limit)
    ensures r.Ok? ==> RowsSwept(rows, k + 1, r.value.0, r.value.1, limit)
    ensures r.Err? ==> forall w: nat :: Fits(limit, w) ==> !FormsTable(rows, w)
  {
    var row := GeometryForTableRow(PlaceRows(rows, k), |rows|, k, rows[k], active, limit);
    if row.Err? {
      NoTable(rows, k, limit);
      return row;
    }
    var (rowWidth, next) := row.value;
    if rowWidth == 0 || (width.Some? && rowWidth != width.value) {
      if rowWidth != 0 {
        var x := if rowWidth < width.value then rowWidth else width.value;
        assert Occupied(PlaceRows(rows, k + 1), k, x) <==> !Occupied(PlaceRows(rows, k), k - 1, x);
      }
      NoTable(rows, k, limit);
      return Err(NonRectangular);
    }
    SweepRow(rows, k, if width.Some? then width.value else 0, active, limit, rowWidth, next);
    return row;
  }

  /**
   The email check: a table is accepted with width `w` exactly when its cells form a rectangle `w`
   columns wide and `w` is a safe integer. A table without rows has no width.
   */
  method AssertIntervalTableGeometry(rows: seq<seq<Cell>>) returns (r: Result<Option<nat>, GeometryError>)
    ensures rows == [] <==> r == Ok(None)
    ensures forall w: nat :: r == Ok(Some(w)) <==> rows != [] && FormsTable(rows, w) && w <= MAX_SAFE_INTEGER
  {
    var active: seq<Interval> := [];
    var tableWidth: Option<nat> := None;
    var limit := Some(MAX_SAFE_INTEGER);
    for k := 0 to |rows|
      invariant k > 0 <==> tableWidth.Some?
      invariant RowsSwept(rows, k, if tableWidth.Some? then tableWidth.value else 0, active, limit)
    {
      var row := SweepNextRow(rows, k, tableWidth, active, limit);
      if row.Err? {
        return Err(row.error);
      }
      tableWidth, active := Some(row.value.0), row.value.1;
    }
    if rows != [] {
      SweptIsTable(rows, tableWidth.value, active, limit);
      forall w: nat | FormsTable(rows, w)
        ensures w == tableWidth.value
      {
        WidthIsUnique(rows, w, tableWidth.value);
      }
    }
    return Ok(tableWidth);
  }

  // ---------------------------------------------------------------------------------------------
  // The rich-text check
  // ---------------------------------------------------------------------------------------------

  /** A rich-text cell: `colwidth` is absent, or a list with a width or a gap for each column. */
  datatype RichCell = RichCell(cell: Cell, colwidth: Option<seq<Option<real>>>)

  /** The column widths a cell carries fit its colspan. */
  predicate CanonicalWidths(c: RichCell) {
    && (c.cell.colspan > 1 ==> c.colwidth.Some? && |c.colwidth.value| == c.cell.colspan)
    && (c.cell.colspan == 1 && c.colwidth.Some? ==> |c.colwidth.value| == 1)
  }

  function Spans(rows: seq<seq<RichCell>>): (spans: seq<seq<Cell>>)
    ensures |spans| == |rows|
    ensures forall y :: 0 <= y < |rows| ==> |spans[y]| == |rows[y]|
    ensures forall y, k :: 0 <= y < |rows| && 0 <= k < |rows[y]| ==> spans[y][k] == rows[y][k].cell
  {
    seq(|rows|, y requires 0 <= y < |rows| => seq(|rows[y]|, k requires 0 <= k < |rows[y]| => rows[y][k].cell))
  }

  function RowColumnWidths(row: seq<RichCell>): seq<Option<real>> {
    if row == [] then []
    else
      var last := row[|row| - 1];
      var widths := if last.colwidth.Some? && |last.colwidth.value| > 0 then last.colwidth.value
                    else seq(last.cell.colspan, _ => None);
      RowColumnWidths(row[..|row| - 1]) + widths
  }

  /** In the first row nothing is in the way, so the cells stand side by side. */
  lemma {:induction false} FirstRowColumns(cells: seq<Cell>, k: nat)
    requires k <= |cells|
    ensures forall x: nat ::
              Occupied(PlaceCells([], 0, cells, k).placed, 0, x) <==> x < PlaceCells([], 0, cells, k).column
  {
    if k > 0 {
      FirstRowColumns(cells, k - 1);
      var before, now := PlaceCells([], 0, cells, k - 1), PlaceCells([], 0, cells, k);
      var rect := now.placed[|before.placed|];
      assert !Occupied(before.placed, 0, before.column);
      assert now.placed == before.placed + [rect] && rect.col == before.column;
      forall x: nat
        ensures Occupied(now.placed, 0, x) <==> x < now.column
      {
        assert forall r :: r in now.placed <==> r in before.placed || r == rect;
        assert Occupied(now.placed, 0, x) <==> Occupied(before.placed, 0, x) || rect.Covers(0, x);
      }
    }
  }

  lemma {:induction false} FirstRowWidths(row: seq<RichCell>, cells: seq<Cell>, k: nat)
    requires k <= |row| == |cells|
    requires forall i :: 0 <= i < |row| ==> CanonicalWidths(row[i]) && row[i].cell == cells[i]
    ensures |RowColumnWidths(row[..k])| == PlaceCells([], 0, cells, k).column
  {
    if k > 0 {
      FirstRowWidths(row, cells, k - 1);
      FirstRowColumns(cells, k - 1);
      assert row[..k][..k - 1] == row[..k - 1];
    }
  }

  /** The width a cell carries for its column `j`, if it carries widths and one for this column. */
  function WidthAt(c: RichCell, j: nat): Option<real> {
    if c.colwidth.Some? && j < |c.colwidth.value| then c.colwidth.value[j] else None
  }

  /** At the columns of each placed cell stand the widths that the cell carries for them, in order. */
  ghost predicate WidthsStand(row: seq<RichCell>, placed: seq<Rect>, widths: seq<Option<real>>) {
    && |placed| == |row|
    && (forall k, j: nat | 0 <= k < |row| && j < placed[k].width ::
          placed[k].col + j < |widths| && widths[placed[k].col + j] == WidthAt(row[k], j))
  }

  lemma WidthsStandNext(row: seq<RichCell>, placed: seq<Rect>, widths: seq<Option<real>>, cell: RichCell, rect: Rect,
                        more: seq<Option<real>>)
    requires WidthsStand(row, placed, widths) && CanonicalWidths(cell)
    requires rect.col == |widths| && rect.width == cell.cell.colspan
    requires more == if cell.colwidth.Some? && |cell.colwidth.value| > 0 then cell.colwidth.value
                     else seq(cell.cell.colspan, _ => None)
    ensures WidthsStand(row + [cell], placed + [rect], widths + more)
  {
    var all := widths + more;
    forall k, j: nat | 0 <= k < |row| + 1 && j < (placed + [rect])[k].width
      ensures (placed + [rect])[k].col + j < |all|
      ensures all[(placed + [rect])[k].col + j] == WidthAt((row + [cell])[k], j)
    {
      if k < |row| {
        assert (placed + [rect])[k] == placed[k] && (row + [cell])[k] == row[k] && WidthAt((row + [cell])[k], j) == WidthAt(row[k], j);
        assert placed[k].col + j < |widths| && widths[placed[k].col + j] == WidthAt(row[k], j);
      } else {
        assert |more| == cell.cell.colspan && more[j] == WidthAt(cell, j);
        assert all[|widths| + j] == more[j];
      }
    }
  }

  lemma {:induction false} FirstRowStands(row: seq<RichCell>, cells: seq<Cell>, k: nat)
    requires k <= |row| == |cells|
    requires forall i :: 0 <= i < |row| ==> CanonicalWidths(row[i]) && row[i].cell == cells[i]
    ensures WidthsStand(row[..k], PlaceCells([], 0, cells, k).placed, RowColumnWidths(row[..k]))
  {
    if k > 0 {
      FirstRowStands(row, cells, k - 1);
      FirstRowWidths(row, cells, k - 1);
      NextOfFirstRow(cells, k);
      var before := PlaceCells([], 0, cells, k - 1);
      var rect, cell := Rect(0, before.column, cells[k - 1].colspan, cells[k - 1].rowspan), row[k - 1];
      assert row[..k][..k - 1] == row[..k - 1] && row[..k] == row[..k - 1] + [cell];
      hide WidthsStand, CanonicalWidths;
      WidthsStandNext(row[..k - 1], before.placed, RowColumnWidths(row[..k - 1]), cell, rect,
                      if cell.colwidth.Some? && |cell.colwidth.value| > 0 then cell.colwidth.value
                      else seq(cell.cell.colspan, _ => None));
    }
  }

  /** Where the cells of the first row stand: each behind the colspans before it. */
  function ColumnsBefore(cells: seq<Cell>, k: nat): nat
    requires k <= |cells|
  {
    if k == 0 then 0 else ColumnsBefore(cells, k - 1) + cells[k - 1].colspan
  }

  lemma {:induction false} NextOfFirstRow(cells: seq<Cell>, n: nat)
    requires 0 < n <= |cells|
    ensures var before := PlaceCells([], 0, cells, n - 1);
            var rect := Rect(0, before.column, cells[n - 1].colspan, cells[n - 1].rowspan);
            PlaceCells([], 0, cells, n) == Cursor(before.placed + [rect], before.column + rect.width)
  {
    FirstRowColumns(cells, n - 1);
    hide Occupied;
    assert !Occupied(PlaceCells([], 0, cells, n - 1).placed, 0, PlaceCells([], 0, cells, n - 1).column);
  }

  ghost predicate SideBySide(placed: seq<Rect>, cells: seq<Cell>, n: nat)
    requires n <= |cells|
  {
    |placed| == n && forall k {:trigger placed[k]} | 0 <= k < n :: placed[k] == Rect(0, ColumnsBefore(cells, k), cells[k].colspan, cells[k].rowspan)
  }

  lemma {:induction false} SideBySideNext(before: seq<Rect>, rect: Rect, cells: seq<Cell>, n: nat)
    requires n < |cells| && SideBySide(before, cells, n)
    requires rect == Rect(0, ColumnsBefore(cells, n), cells[n].colspan, cells[n].rowspan)
    ensures SideBySide(before + [rect], cells, n + 1)
  {
    hide ColumnsBefore;
  }

  lemma {:induction false} NextColumn(cells: seq<Cell>, n: nat)
    requires 0 < n <= |cells|
    ensures ColumnsBefore(cells, n) == ColumnsBefore(cells, n - 1) + cells[n - 1].colspan
  {
  }

  lemma NoCellPlaced(cells: seq<Cell>)
    ensures PlaceCells([], 0, cells, 0) == Cursor([], 0) && SideBySide([], cells, 0) && ColumnsBefore(cells, 0) == 0
  {
  }

  lemma {:induction false} FirstRowOffsets(cells: seq<Cell>, n: nat)
    requires n <= |cells|
    ensures PlaceCells([], 0, cells, n).column == ColumnsBefore(cells, n)
    ensures SideBySide(PlaceCells([], 0, cells, n).placed, cells, n)
  {
    hide *;
    if n == 0 {
      NoCellPlaced(cells);
    } else {
      FirstRowOffsets(cells, n - 1);
      NextOfFirstRow(cells, n);
      var before := PlaceCells([], 0, cells, n - 1);
      SideBySideNext(before.placed, Rect(0, before.column, cells[n - 1].colspan, cells[n - 1].rowspan), cells, n - 1);
      NextColumn(cells, n);
    }
  }

  /** The list of column widths has one entry for each column of the table. */
  lemma ColumnWidthsMatch(rows: seq<seq<RichCell>>, w: nat)
    requires rows != [] && FormsTable(Spans(rows), w)
    requires forall i :: 0 <= i < |rows[0]| ==> CanonicalWidths(rows[0][i])
    ensures |RowColumnWidths(rows[0])| == w
  {
    var spans := Spans(rows);
    var first := PlaceCells([], 0, spans[0], |spans[0]|);
    FirstRowColumns(spans[0], |spans[0]|);
    FirstRowWidths(rows[0], spans[0], |rows[0]|);
    assert rows[0][..|rows[0]|] == rows[0];
    PlaceRowsExtends(spans, 1, |spans|);
    assert PlaceRows(spans, 1) == PlaceRow(PlaceRows(spans, 0), 0, spans[0]) == first.placed;
    var final := PlaceRows(spans, |spans|);
    KeptRow(first.placed, final, 1, 0, first.column);
    KeptRow(first.placed, final, 1, 0, w);
    assert Occupied(final, 0, first.column) <==> first.column < w;
    assert Occupied(final, 0, w) <==> w < w;
  }

  /**
   The rich-text check accepts exactly the tables with at least one row, no row without cells, fitting
   column widths, and cells that form a rectangle; its list of column widths is as long as the table is wide, and
   holds at the columns of each cell of the first row the widths of that cell.
   */
  method AssertTableLayout(rows: seq<seq<RichCell>>) returns (r: Result<seq<Option<real>>, GeometryError>)
    ensures r.Ok? <==>
            && rows != []
            && (forall y :: 0 <= y < |rows| ==> rows[y] != [])
            && (forall y, i :: 0 <= y < |rows| && 0 <= i < |rows[y]| ==> CanonicalWidths(rows[y][i]))
            && (exists w: nat :: FormsTable(Spans(rows), w))
    ensures r.Ok? ==> FormsTable(Spans(rows), |r.value|)
    ensures r.Ok? ==> WidthsStand(rows[0], PlaceRow([], 0, Spans(rows)[0]), r.value)
  {
    if rows == [] {
      return Err(NoRows);
    }
    var spans := Spans(rows);
    var active: seq<Interval> := [];
    var tableWidth: Option<nat> := None;
    NothingSwept(spans, None);
    hide RowsSwept, FormsTable, PlaceRows;
    for k := 0 to |rows|
      invariant k > 0 <==> tableWidth.Some?
      invariant RowsSwept(spans, k, if tableWidth.Some? then tableWidth.value else 0, active, None)
      invariant forall y :: 0 <= y < k ==> rows[y] != []
      invariant forall y, i :: 0 <= y < k && 0 <= i < |rows[y]| ==> CanonicalWidths(rows[y][i])
    {
      if rows[k] == [] {
        return Err(NoCells);
      }
      for i := 0 to |rows[k]|
        invariant forall j :: 0 <= j < i ==> CanonicalWidths(rows[k][j])
      {
        if !CanonicalWidths(rows[k][i]) {
          return Err(Colspan);
        }
      }
      var row := SweepNextRow(spans, k, tableWidth, active, None);
      if row.Err? {
        return Err(row.error);
      }
      tableWidth, active := Some(row.value.0), row.value.1;
    }
    SweptIsTable(spans, tableWidth.value, active, None);
    ColumnWidthsMatch(rows, tableWidth.value);
    FirstRowStands(rows[0], spans[0], |rows[0]|);
    assert rows[0][..|rows[0]|] == rows[0];
    return Ok(RowColumnWidths(rows[0]));
  }

  /**
   The two checks side by side: they accept the same tables of safe width, with the same width, except
   that the rich-text check also wants a cell in every row and fitting column widths.
   */
  method CompareChecks(rows: seq<seq<RichCell>>) returns (email: Option<nat>, layout: Option<nat>)
    ensures layout.Some? && layout.value <= MAX_SAFE_INTEGER <==>
            && email.Some?
            && (forall y :: 0 <= y < |rows| ==> rows[y] != [])
            && (forall y, i :: 0 <= y < |rows| && 0 <= i < |rows[y]| ==> CanonicalWidths(rows[y][i]))
    ensures email.Some? && layout.Some? ==> email == layout
  {
    var width := AssertIntervalTableGeometry(Spans(rows));
    email := if width.Ok? then width.value else None;
    var widths := AssertTableLayout(rows);
    layout := if widths.Ok? then Some(|widths.value|) else None;
    if layout.Some? {
      assert layout.value <= MAX_SAFE_INTEGER ==> width == Ok(Some(layout.value));
    }
    if email.Some? {
      assert width == Ok(Some(email.value)) && FormsTable(Spans(rows), email.value);
      if layout.Some? {
        WidthIsUnique(Spans(rows), email.value, layout.value);
      }
    }
  }

  /** A row whose columns are all held from above needs no cell: the email check accepts it, the rich-text check does not. */
  lemma RowWithoutCells()
    ensures FormsTable([[Cell(1, 2)], []], 1)
  {
    var rows := [[Cell(1, 2)], []];
    var none := PlaceCells([], 0, rows[0], 0);
    assert !Occupied(none.placed, 0, 0);
    var cell := Rect(0, 0, 1, 2);
    assert PlaceCells([], 0, rows[0], 1).placed == [cell];
    assert PlaceRows(rows, 1) == [cell];
    assert PlaceRows(rows, 2) == [cell];
    forall y: nat, x: nat
      ensures Occupied([cell], y, x) <==> (y < 2 && x < 1)
    {
      assert cell in [cell];
    }
  }
}
