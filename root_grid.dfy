/** The oldest grid (src/grid.rs): an optional 2-D vector of `Cell`s,
    optional pixel bounds, a cell size and a blending mode. */
module RootGrid {
  import opened Options
  import opened Geometry
  import opened GridOrder
  import opened Cells
  import opened GridGen

  class Grid {
    var cellgrid: Option<seq<seq<Cell>>>
    var dimensions: Option<Rect>
    const size: real
    var blendMode: BlendMode

    /** `new`: a null grid for the given cell size, blending additively. */
    constructor (size: real)
      ensures cellgrid == None && dimensions == None && this.size == size && blendMode == Add
    {
      cellgrid := None;
      dimensions := None;
      this.size := size;
      blendMode := Add;
    }

    /** The struct literal that `clone` builds. */
    constructor FromFields(cellgrid: Option<seq<seq<Cell>>>, dimensions: Option<Rect>, blendMode: BlendMode, size: real)
      ensures this.cellgrid == cellgrid && this.dimensions == dimensions
      ensures this.blendMode == blendMode && this.size == size
    {
      this.cellgrid := cellgrid;
      this.dimensions := dimensions;
      this.blendMode := blendMode;
      this.size := size;
    }

    /** `initialize`: `rows` stands for `w / size` and `cols` for `h / size`,
        both truncated. Builds `rows` inner vectors of `cols` cells each, the
        cell at `(x, y)` made by `Cell::new` from its draw, and stores the
        vector and the bounds. */
    method Initialize(dimensions: Rect, rows: int, cols: int, draws: seq<seq<int>>)
      requires CellDraws(draws, Count(rows), Count(cols))
      modifies this`cellgrid, this`dimensions
      ensures cellgrid.Some? && this.dimensions == Some(dimensions)
      ensures |cellgrid.value| == Count(rows) && Rectangular(cellgrid.value, Count(cols))
      ensures forall x, y :: 0 <= x < Count(rows) && 0 <= y < Count(cols) ==>
        cellgrid.value[x][y] == Cells.New(draws[x][y])
      ensures blendMode == old(blendMode)
    {
      var grid := [];
      var x := 0;
      while x < rows
        invariant 0 <= x <= Count(rows)
        invariant |grid| == x && Rectangular(grid, Count(cols))
        invariant forall i, j :: 0 <= i < x && 0 <= j < Count(cols) ==> grid[i][j] == Cells.New(draws[i][j])
      {
        var column := [];
        var y := 0;
        while y < cols
          invariant 0 <= y <= Count(cols)
          invariant |column| == y
          invariant forall j :: 0 <= j < y ==> column[j] == Cells.New(draws[x][j])
        {
          column := column + [Cells.New(draws[x][y])];
          y := y + 1;
        }
        grid := grid + [column];
        x := x + 1;
      }
      cellgrid := Some(grid);
      this.dimensions := Some(dimensions);
    }

    /** `clone`: a new grid with the same vector, bounds, blending mode and size. */
    method Clone() returns (copy: Grid)
      ensures fresh(copy)
      ensures copy.cellgrid == cellgrid && copy.dimensions == dimensions
      ensures copy.blendMode == blendMode && copy.size == size
    {
      copy := new Grid.FromFields(cellgrid, dimensions, blendMode, size);
    }
  }
}
