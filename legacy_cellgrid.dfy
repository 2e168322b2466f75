/** The older generic grid container (src/commons/grids/cellgrid.rs): the
    same three fields as the newer one, with the balanced builder as an
    associated function and iteration by the scanner. The cell type is fixed
    to `BinaryCell`, the only cell type whose `balanced` this model has. */
module LegacyCellGrid {
  import opened Options
  import opened Geometry
  import opened GridOrder
  import opened Scanner
  import opened BinaryCells
  import opened GridGen

  class CellGrid {
    const cellsize: real
    var vector: Option<seq<seq<BinaryCell>>>
    var dimensions: Option<Rect>

    /** `new`: a null grid with the given cell size. */
    constructor (cellsize: real)
      ensures this.cellsize == cellsize
      ensures vector == None && dimensions == None
    {
      this.cellsize := cellsize;
      vector := None;
      dimensions := None;
    }

    /** The struct literal that `clone` builds. */
    constructor FromFields(cellsize: real, vector: Option<seq<seq<BinaryCell>>>, dimensions: Option<Rect>)
      ensures this.cellsize == cellsize && this.vector == vector && this.dimensions == dimensions
    {
      this.cellsize := cellsize;
      this.vector := vector;
      this.dimensions := dimensions;
    }

    /** `setgrid`: replaces the vector only. */
    method SetGrid(other: seq<seq<BinaryCell>>)
      modifies this`vector
      ensures vector == Some(other)
      ensures dimensions == old(dimensions)
    {
      vector := Some(other);
    }

    /** `setdimensions`: replaces the bounds only. */
    method SetDimensions(other: Rect)
      modifies this`dimensions
      ensures dimensions == Some(other)
      ensures vector == old(vector)
    {
      dimensions := Some(other);
    }

    /** `clone`: a new grid with the same cell size, vector and bounds. */
    method Clone() returns (copy: CellGrid)
      ensures fresh(copy)
      ensures copy.cellsize == cellsize && copy.vector == vector && copy.dimensions == dimensions
    {
      copy := new CellGrid.FromFields(cellsize, vector, dimensions);
    }

    /** `into_iter`: panics on a null grid, otherwise a scanner over the same
        vector with both cursors at 0. */
    method IntoIter() returns (scanner: GridScanner<BinaryCell>)
      requires vector.Some?
      ensures fresh(scanner)
      ensures scanner.gridvector == vector.value
      ensures scanner.currentColumn == 0 && scanner.currentRow == 0
      ensures Scannable(vector.value) ==> scanner.Valid() && scanner.Index() == 0
    {
      scanner := new GridScanner(vector.value, 0, 0);
    }
  }

  /** `generate_randomgrid_balanced`: `rows` stands for `w / cellsize` and
      `cols` for `h / cellsize`, both truncated; the result has `rows` inner
      vectors of `cols` cells, the cell at `(x, y)` built by `balanced` from
      its draw. */
  method GenerateRandomgridBalanced(rows: int, cols: int, draws: seq<seq<int>>)
    returns (gridvector: seq<seq<BinaryCell>>)
    requires BalancedDraws(draws, Count(rows), Count(cols))
    ensures |gridvector| == Count(rows)
    ensures Rectangular(gridvector, Count(cols))
    ensures forall x, y :: 0 <= x < Count(rows) && 0 <= y < Count(cols) ==>
      gridvector[x][y] == Balanced(draws[x][y])
  {
    gridvector := [];
    var x := 0;
    while x < rows
      invariant 0 <= x <= Count(rows)
      invariant |gridvector| == x && Rectangular(gridvector, Count(cols))
      invariant forall i, j :: 0 <= i < x && 0 <= j < Count(cols) ==> gridvector[i][j] == Balanced(draws[i][j])
    {
      var column := [];
      var y := 0;
      while y < cols
        invariant 0 <= y <= Count(cols)
        invariant |column| == y
        invariant forall j :: 0 <= j < y ==> column[j] == Balanced(draws[x][j])
      {
        column := column + [Balanced(draws[x][y])];
        y := y + 1;
      }
      gridvector := gridvector + [column];
      x := x + 1;
    }
  }
}
