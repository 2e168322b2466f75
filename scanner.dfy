/** The scanning iterator of the newer grids (src/commons/grids/scanner.rs).

    The two cursors `(currentColumn, currentRow)` stand for the scan index
    `Offset(currentColumn) + currentRow`: the number of items already yielded.
    A call to `Next` yields the item at that index of `ColumnMajor(gridvector)`
    and moves on by one, or reports the end of the scan. */
module Scanner {
  import opened Options
  import opened GridOrder

  /** What `next` needs never to index out of bounds: a non-empty grid whose
      columns after the first have at least one row each (an empty first column
      is stepped over without reading it). */
  predicate Scannable<C>(grid: seq<seq<C>>) {
    |grid| > 0 && forall x :: 1 <= x < |grid| ==> |grid[x]| > 0
  }

  /** The three cases of one scanning step, on the values of the cursors. */
  lemma ScanStep<C>(grid: seq<seq<C>>, c: nat, r: nat)
    requires Scannable(grid) && c < |grid| && r <= |grid[c]|
    ensures var k := Offset(Shape(grid), c) + r;
      && k <= Total(Shape(grid)) == |ColumnMajor(grid)|
      && (r < |grid[c]| ==> k < |ColumnMajor(grid)| && ColumnMajor(grid)[k] == (c, r, grid[c][r]))
      && (r == |grid[c]| && c + 1 < |grid| ==>
            Offset(Shape(grid), c + 1) == k && k < |ColumnMajor(grid)| && ColumnMajor(grid)[k] == (c + 1, 0, grid[c + 1][0]))
      && (r == |grid[c]| && c + 1 == |grid| ==> k == |ColumnMajor(grid)|)
  {
    var lens := Shape(grid);
    ColumnMajorLength(grid);
    OffsetMonotone(lens, c, |grid|);
    if r < |grid[c]| {
      ColumnMajorAt(grid, c, r);
    } else if c + 1 < |grid| {
      ColumnMajorAt(grid, c + 1, 0);
    }
  }

  class GridScanner<C> {
    var gridvector: seq<seq<C>>
    var currentColumn: nat
    var currentRow: nat

    /** The cursors are inside the grid: the row cursor may sit one past the
        last row of its column. */
    ghost predicate Valid()
      reads this
    {
      Scannable(gridvector) &&
      currentColumn < |gridvector| && currentRow <= |gridvector[currentColumn]|
    }

    /** The number of items already yielded. */
    ghost function Index(): nat
      reads this
      requires currentColumn < |gridvector|
    {
      Offset(Shape(gridvector), currentColumn) + currentRow
    }

    /** The struct literal `GridScanner { gridvector, current_column, current_row }`. */
    constructor (gridvector: seq<seq<C>>, currentColumn: nat, currentRow: nat)
      ensures this.gridvector == gridvector
      ensures this.currentColumn == currentColumn && this.currentRow == currentRow
    {
      this.gridvector := gridvector;
      this.currentColumn := currentColumn;
      this.currentRow := currentRow;
    }

    /** `next`: yields the item at the current scan index and advances by one;
        after the last row of the last column it returns None, leaving the
        cursors at `(gridvector.len(), 0)`, from where a further call would
        index out of bounds. Only the cursors change. */
    method Next() returns (item: Option<GridCell<C>>)
      requires Valid()
      modifies this`currentColumn, this`currentRow
      ensures old(Index()) <= Total(Shape(gridvector)) == |ColumnMajor(gridvector)|
      ensures old(Index()) < |ColumnMajor(gridvector)| ==>
        item == Some(ColumnMajor(gridvector)[old(Index())]) && Valid() && Index() == old(Index()) + 1
      ensures old(Index()) == |ColumnMajor(gridvector)| ==>
        item == None && currentColumn == |gridvector| && currentRow == 0
    {
      ScanStep(gridvector, currentColumn, currentRow);
      if currentRow == |gridvector[currentColumn]| {
        currentRow := 0;
        currentColumn := currentColumn + 1;
        if currentColumn == |gridvector| {
          return None;
        }
        item := Some((currentColumn, currentRow, gridvector[currentColumn][currentRow]));
      } else {
        item := Some((currentColumn, currentRow, gridvector[currentColumn][currentRow]));
      }
      currentRow := currentRow + 1;
    }
  }
}
