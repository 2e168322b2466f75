/** The column-major scan order shared by every grid iterator of the system.

    A grid is an outer sequence of columns (`grid[x]`), each an inner sequence
    of rows (`grid[x][y]`). Columns may have different lengths. The scan order
    lists all rows of column 0 ascending, then column 1, and so on; the item for
    `(x, y)` sits at index `Offset(Shape(grid), x) + y`, and `Locate` inverts
    that index. */
module GridOrder {

  /** A position on the grid together with the cell found there. */
  type GridCell<C> = (nat, nat, C)

  /** The column lengths of a grid. */
  function Shape<C>(grid: seq<seq<C>>): (lens: seq<nat>)
    ensures |lens| == |grid|
    ensures forall x :: 0 <= x < |grid| ==> lens[x] == |grid[x]|
  {
    seq(|grid|, x requires 0 <= x < |grid| => |grid[x]|)
  }

  /** Every column has exactly `height` rows. */
  predicate Rectangular<C>(grid: seq<seq<C>>, height: nat) {
    forall x :: 0 <= x < |grid| ==> |grid[x]| == height
  }

  /** The number of cells in the first `n` columns. */
  function Offset(lens: seq<nat>, n: nat): nat
    requires n <= |lens|
  {
    if n == 0 then 0 else Offset(lens, n - 1) + lens[n - 1]
  }

  /** The number of cells in the grid. */
  function Total(lens: seq<nat>): nat {
    Offset(lens, |lens|)
  }

  lemma {:induction false} OffsetMonotone(lens: seq<nat>, a: nat, b: nat)
    requires a < b <= |lens|
    ensures Offset(lens, a) + lens[a] <= Offset(lens, b)
  {
    if b > a + 1 {
      OffsetMonotone(lens, a, b - 1);
    }
  }

  /** Two positions of the grid never share an index. */
  lemma OffsetInjective(lens: seq<nat>, x1: nat, y1: nat, x2: nat, y2: nat)
    requires x1 < |lens| && y1 < lens[x1]
    requires x2 < |lens| && y2 < lens[x2]
    requires Offset(lens, x1) + y1 == Offset(lens, x2) + y2
    ensures x1 == x2 && y1 == y2
  {
    if x1 < x2 {
      OffsetMonotone(lens, x1, x2);
    } else if x2 < x1 {
      OffsetMonotone(lens, x2, x1);
    }
  }

  /** The position of index `k` among the first `n` columns. */
  function LocateIn(lens: seq<nat>, n: nat, k: nat): (p: (nat, nat))
    requires n <= |lens| && k < Offset(lens, n)
    ensures p.0 < n && p.1 < lens[p.0]
    ensures Offset(lens, p.0) + p.1 == k
    decreases n
  {
    if k >= Offset(lens, n - 1) then (n - 1, k - Offset(lens, n - 1))
    else LocateIn(lens, n - 1, k)
  }

  /** The position `(x, y)` whose scan index is `k`. */
  function Locate(lens: seq<nat>, k: nat): (p: (nat, nat))
    requires k < Total(lens)
    ensures p.0 < |lens| && p.1 < lens[p.0]
    ensures Offset(lens, p.0) + p.1 == k
  {
    LocateIn(lens, |lens|, k)
  }

  /** `Locate` inverts the index of every position, and that index is in range. */
  lemma LocateOffset(lens: seq<nat>, x: nat, y: nat)
    requires x < |lens| && y < lens[x]
    ensures Offset(lens, x) + y < Total(lens)
    ensures Locate(lens, Offset(lens, x) + y) == (x, y)
  {
    OffsetMonotone(lens, x, |lens|);
    var p := Locate(lens, Offset(lens, x) + y);
    OffsetInjective(lens, x, y, p.0, p.1);
  }

  /** A rectangular grid of `|lens|` columns of `height` rows has `|lens| * height` cells. */
  lemma {:induction false} OffsetRectangular(lens: seq<nat>, height: nat, n: nat)
    requires n <= |lens|
    requires forall x :: 0 <= x < |lens| ==> lens[x] == height
    ensures Offset(lens, n) == n * height
  {
    if n > 0 {
      OffsetRectangular(lens, height, n - 1);
    }
  }

  /** The items of column `x`, rows ascending. */
  function ColumnItems<C>(grid: seq<seq<C>>, x: nat): seq<GridCell<C>>
    requires x < |grid|
  {
    seq(|grid[x]|, y requires 0 <= y < |grid[x]| => (x, y, grid[x][y]))
  }

  /** The items of the first `n` columns in scan order. */
  function Columns<C>(grid: seq<seq<C>>, n: nat): seq<GridCell<C>>
    requires n <= |grid|
  {
    if n == 0 then [] else Columns(grid, n - 1) + ColumnItems(grid, n - 1)
  }

  /** Every item of the grid in column-major order. */
  function ColumnMajor<C>(grid: seq<seq<C>>): seq<GridCell<C>> {
    Columns(grid, |grid|)
  }

  lemma {:induction false} ColumnsLength<C>(grid: seq<seq<C>>, n: nat)
    requires n <= |grid|
    ensures |Columns(grid, n)| == Offset(Shape(grid), n)
  {
    if n > 0 {
      ColumnsLength(grid, n - 1);
    }
  }

  lemma {:induction false} ColumnsAt<C>(grid: seq<seq<C>>, n: nat, x: nat, y: nat)
    requires x < n <= |grid| && y < |grid[x]|
    ensures Offset(Shape(grid), x) + y < |Columns(grid, n)|
    ensures Columns(grid, n)[Offset(Shape(grid), x) + y] == (x, y, grid[x][y])
  {
    ColumnsLength(grid, n);
    ColumnsLength(grid, n - 1);
    if x < n - 1 {
      ColumnsAt(grid, n - 1, x, y);
    }
  }

  /** The scan yields exactly one item per cell of the grid. */
  lemma ColumnMajorLength<C>(grid: seq<seq<C>>)
    ensures |ColumnMajor(grid)| == Total(Shape(grid))
  {
    ColumnsLength(grid, |grid|);
  }

  /** The cell at `(x, y)` is yielded at index `Offset(x) + y`, with its own value. */
  lemma ColumnMajorAt<C>(grid: seq<seq<C>>, x: nat, y: nat)
    requires x < |grid| && y < |grid[x]|
    ensures Offset(Shape(grid), x) + y < |ColumnMajor(grid)|
    ensures ColumnMajor(grid)[Offset(Shape(grid), x) + y] == (x, y, grid[x][y])
  {
    ColumnsAt(grid, |grid|, x, y);
  }

  /** Every item of the scan is an in-bounds position of the grid with the cell stored there;
      which position it is depends only on the shape of the grid. */
  lemma ColumnMajorItem<C>(grid: seq<seq<C>>, k: nat)
    requires k < |ColumnMajor(grid)|
    ensures k < Total(Shape(grid))
    ensures var p := Locate(Shape(grid), k);
      p.0 < |grid| && p.1 < |grid[p.0]| && ColumnMajor(grid)[k] == (p.0, p.1, grid[p.0][p.1])
  {
    ColumnMajorLength(grid);
    var p := Locate(Shape(grid), k);
    ColumnMajorAt(grid, p.0, p.1);
  }

  /** No position is yielded twice. */
  lemma ColumnMajorDistinct<C>(grid: seq<seq<C>>, i: nat, j: nat)
    requires i < |ColumnMajor(grid)| && j < |ColumnMajor(grid)| && i != j
    ensures (ColumnMajor(grid)[i].0, ColumnMajor(grid)[i].1) != (ColumnMajor(grid)[j].0, ColumnMajor(grid)[j].1)
  {
    ColumnMajorItem(grid, i);
    ColumnMajorItem(grid, j);
  }

  /** Items come column by column, rows ascending within a column. */
  lemma ColumnMajorOrdered<C>(grid: seq<seq<C>>, i: nat, j: nat)
    requires i < j < |ColumnMajor(grid)|
    ensures var a, b := ColumnMajor(grid)[i], ColumnMajor(grid)[j];
      a.0 < b.0 || (a.0 == b.0 && a.1 < b.1)
  {
    ColumnMajorItem(grid, i);
    ColumnMajorItem(grid, j);
    var p, q := Locate(Shape(grid), i), Locate(Shape(grid), j);
    if q.0 < p.0 {
      OffsetMonotone(Shape(grid), q.0, p.0);
    }
  }

  /** A rectangular grid of width `w` and height `h` yields `w * h` items. */
  lemma ColumnMajorRectangular<C>(grid: seq<seq<C>>, height: nat)
    requires Rectangular(grid, height)
    ensures |ColumnMajor(grid)| == |grid| * height
  {
    ColumnMajorLength(grid);
    OffsetRectangular(Shape(grid), height, |grid|);
  }
}
