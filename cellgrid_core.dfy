/** The newer grid container (src/commons/grids/cellgrid/core.rs): an optional
    2-D vector of cells (outer index = column, inner index = row), optional
    pixel bounds, and a fixed cell size. */
module CellGridCore {
  import opened Options
  import opened Geometry
  import opened GridOrder
  import opened Scanner

  class CellGrid<C> {
    const cellsize: real
    var vector: Option<seq<seq<C>>>
    var dimensions: Option<Rect>

    /** `new`: a null grid with the given cell size. */
    constructor (cellsize: real)
      ensures this.cellsize == cellsize
      ensures vector == None && dimensions == None
    {
      this.cellsize := cellsize;
      vector := None;
      dimensions := None;
    }

    /** The struct literal that `clone` builds. */
    constructor FromFields(cellsize: real, vector: Option<seq<seq<C>>>, dimensions: Option<Rect>)
      ensures this.cellsize == cellsize && this.vector == vector && this.dimensions == dimensions
    {
      this.cellsize := cellsize;
      this.vector := vector;
      this.dimensions := dimensions;
    }

    /** `setgrid`: installs the vector; the cell size and the bounds are untouched. */
    method SetGrid(other: seq<seq<C>>)
      modifies this`vector
      ensures vector == Some(other)
      ensures dimensions == old(dimensions)
    {
      vector := Some(other);
    }

    /** `setdimensions`: installs the bounds; the cell size and the vector are untouched. */
    method SetDimensions(other: Rect)
      modifies this`dimensions
      ensures dimensions == Some(other)
      ensures vector == old(vector)
    {
      dimensions := Some(other);
    }

    /** `getheight`: 0 for a null grid, otherwise the length of the OUTER vector,
        which is the number of columns although the source calls it the height. */
    function GetHeight(): (height: nat)
      reads this
      ensures vector.None? ==> height == 0
      ensures vector.Some? ==> height == |vector.value|
    {
      match vector
      case None => 0
      case Some(vec) => |vec|
    }

    /** `getwidth`: 0 for a null grid, otherwise the length of the first column;
        an empty outer vector makes `vec[0]` panic. */
    function GetWidth(): (width: nat)
      reads this
      requires vector.Some? ==> |vector.value| > 0
      ensures vector.None? ==> width == 0
      ensures vector.Some? ==> width == |vector.value[0]|
    {
      match vector
      case None => 0
      case Some(vec) => |vec[0]|
    }

    /** On a rectangular grid, width times height is the number of cells the
        scan yields. */
    lemma GetWidthTotal()
      requires vector.Some? && |vector.value| > 0
      requires Rectangular(vector.value, |vector.value[0]|)
      ensures GetWidth() * GetHeight() == |ColumnMajor(vector.value)|
    {
      ColumnMajorRectangular(vector.value, GetWidth());
    }

    /** What `randomcell` needs from its two draws: a grid, a column drawn from
        `0..grid.len()`, a row drawn from `0..grid[0].len()`, and — because the
        cell is read as `grid[row][col]` — a row and column that are also in
        bounds the other way round. */
    predicate RandomCellDefined(col: int, row: int)
      reads this
    {
      vector.Some? &&
      0 <= col < |vector.value| && 0 <= row < |vector.value[0]| &&
      row < |vector.value| && col < |vector.value[row]|
    }

    /** `randomcell`: the drawn position `(col, row)` with the cell at
        `grid[row][col]`, the transposed index, as the source reads it. */
    function RandomCell(col: int, row: int): (cell: GridCell<C>)
      reads this
      requires RandomCellDefined(col, row)
      ensures cell.0 == col < |vector.value| && cell.1 == row < |vector.value[0]|
      ensures cell.2 == vector.value[cell.1][cell.0]
    {
      var grid := vector.value;
      (col, row, grid[row][col])
    }

    /** On a square rectangular grid every pair of in-range draws can be read. */
    lemma RandomCellSquare(col: int, row: int)
      requires vector.Some? && |vector.value| > 0
      requires Rectangular(vector.value, |vector.value|)
      requires 0 <= col < |vector.value| && 0 <= row < |vector.value[0]|
      ensures RandomCellDefined(col, row)
      ensures RandomCell(col, row).2 == vector.value[row][col]
    {
    }

    /** `clone`: a new grid with the same cell size, vector and bounds. */
    method Clone() returns (copy: CellGrid<C>)
      ensures fresh(copy)
      ensures copy.cellsize == cellsize && copy.vector == vector && copy.dimensions == dimensions
    {
      copy := new CellGrid.FromFields(cellsize, vector, dimensions);
    }

    /** `into_iter`: panics on a null grid, otherwise a scanner over the same
        vector with both cursors at 0. */
    method IntoIter() returns (scanner: GridScanner<C>)
      requires vector.Some?
      ensures fresh(scanner)
      ensures scanner.gridvector == vector.value
      ensures scanner.currentColumn == 0 && scanner.currentRow == 0
      ensures Scannable(vector.value) ==> scanner.Valid() && scanner.Index() == 0
    {
      scanner := new GridScanner(vector.value, 0, 0);
    }
  }
}
