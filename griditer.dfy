/** The older grid iterator (src/gameoflife/griditer.rs).

    Unlike the scanner, this iterator first moves its cursor and then reads:
    `(currentColumn, currentRow)` is the position of the item yielded last, so
    its scan index `Cursor()` is one less than the index of the next item.
    Started at `(0, 0)`, it therefore never yields the cell `(0, 0)`. */
module GridIter {
  import opened Options
  import opened GridOrder
  import opened Cells

  /** Every column has at least one row. */
  predicate NoEmptyColumn<C>(grid: seq<seq<C>>) {
    forall x :: 0 <= x < |grid| ==> |grid[x]| > 0
  }

  /** The three cases of one step from the position `(c, r)` at scan index `k`:
      the next row of the same column, row 0 of the next column, or the end. */
  lemma IterStep<C>(grid: seq<seq<C>>, c: nat, r: nat)
    requires NoEmptyColumn(grid) && c < |grid| && r < |grid[c]|
    ensures var k := Offset(Shape(grid), c) + r;
      && k < Total(Shape(grid)) == |ColumnMajor(grid)|
      && (r + 1 < |grid[c]| ==> k + 1 < |ColumnMajor(grid)| && ColumnMajor(grid)[k + 1] == (c, r + 1, grid[c][r + 1]))
      && (r + 1 == |grid[c]| && c + 1 < |grid| ==>
            Offset(Shape(grid), c + 1) == k + 1 && k + 1 < |ColumnMajor(grid)| &&
            ColumnMajor(grid)[k + 1] == (c + 1, 0, grid[c + 1][0]))
      && (r + 1 == |grid[c]| && c + 1 == |grid| ==> k + 1 == |ColumnMajor(grid)|)
  {
    var lens := Shape(grid);
    ColumnMajorLength(grid);
    OffsetMonotone(lens, c, |grid|);
    if r + 1 < |grid[c]| {
      ColumnMajorAt(grid, c, r + 1);
    } else if c + 1 < |grid| {
      ColumnMajorAt(grid, c + 1, 0);
    }
  }

  /** Started at `(0, 0)` on a grid whose first column has two rows or more,
      the first item yielded is `(0, 1)`, and no later item is `(0, 0)`. */
  lemma FirstItem<C>(grid: seq<seq<C>>)
    requires |grid| > 0 && |grid[0]| >= 2
    ensures 1 < |ColumnMajor(grid)| && ColumnMajor(grid)[1] == (0, 1, grid[0][1])
    ensures forall k :: 1 <= k < |ColumnMajor(grid)| ==> (ColumnMajor(grid)[k].0, ColumnMajor(grid)[k].1) != (0, 0)
  {
    ColumnMajorAt(grid, 0, 1);
    ColumnMajorAt(grid, 0, 0);
    forall k | 1 <= k < |ColumnMajor(grid)|
      ensures (ColumnMajor(grid)[k].0, ColumnMajor(grid)[k].1) != (0, 0)
    {
      ColumnMajorDistinct(grid, 0, k);
    }
  }

  class GridIterator {
    var grid: seq<seq<Cell>>
    var currentColumn: nat
    var currentRow: nat

    /** What `next` needs never to index out of bounds: the cursor is a cell
        of the grid and no column is empty. */
    ghost predicate Valid()
      reads this
    {
      NoEmptyColumn(grid) && currentColumn < |grid| && currentRow < |grid[currentColumn]|
    }

    /** The scan index of the cursor position. */
    ghost function Cursor(): nat
      reads this
      requires currentColumn < |grid|
    {
      Offset(Shape(grid), currentColumn) + currentRow
    }

    /** The struct literal `GridIterator { grid, current_column, current_row }`. */
    constructor (grid: seq<seq<Cell>>, currentColumn: nat, currentRow: nat)
      ensures this.grid == grid
      ensures this.currentColumn == currentColumn && this.currentRow == currentRow
    {
      this.grid := grid;
      this.currentColumn := currentColumn;
      this.currentRow := currentRow;
    }

    /** `next`: moves the cursor to the next position in column-major order
        (the next row, or row 0 of the next column) and yields that position
        with its cell. At the last row of the last column it resets the row
        cursor to 0, keeps the column and returns None. A yielded position is
        never `(0, 0)`; only the cursors change. */
    method Next() returns (item: Option<GridCell<Cell>>)
      requires Valid()
      modifies this`currentColumn, this`currentRow
      ensures old(Cursor()) < |ColumnMajor(grid)|
      ensures item.None? <==> old(currentColumn) + 1 == |grid| && old(currentRow) + 1 == |grid[old(currentColumn)]|
      ensures old(Cursor()) + 1 < |ColumnMajor(grid)| ==>
        item == Some(ColumnMajor(grid)[old(Cursor()) + 1]) && Valid() && Cursor() == old(Cursor()) + 1
      ensures old(Cursor()) + 1 == |ColumnMajor(grid)| ==>
        item == None && Valid() && currentColumn == old(currentColumn) && currentRow == 0
      ensures item.Some? ==>
        && item.value.0 < |grid| && item.value.1 < |grid[item.value.0]|
        && item.value.2 == grid[item.value.0][item.value.1]
        && (item.value.0, item.value.1) != (0, 0)
    {
      IterStep(grid, currentColumn, currentRow);
      var newRow := currentRow + 1;
      if newRow != |grid[currentColumn]| {
        currentRow := newRow;
      } else {
        currentRow := 0;
        var newColumn := currentColumn + 1;
        if newColumn != |grid| {
          currentColumn := newColumn;
        } else {
          return None;
        }
      }
      item := Some((currentColumn, currentRow, Cells.Clone(grid[currentColumn][currentRow])));
    }
  }
}
