/** The older Game of Life grid (src/gameoflife/grid.rs): an optional 2-D
    vector of `Cell`s, optional pixel bounds and a cell size. */
module LifeGrid {
  import opened Options
  import opened Geometry
  import opened GridOrder
  import opened Cells
  import opened GridGen
  import opened GridIter

  class Grid {
    var cellgrid: Option<seq<seq<Cell>>>
    var dimensions: Option<Rect>
    const size: real

    /** `new`: a null grid for the given cell size. */
    constructor (size: real)
      ensures cellgrid == None && dimensions == None && this.size == size
    {
      cellgrid := None;
      dimensions := None;
      this.size := size;
    }

    /** The struct literal that `clone` builds. */
    constructor FromFields(cellgrid: Option<seq<seq<Cell>>>, dimensions: Option<Rect>, size: real)
      ensures this.cellgrid == cellgrid && this.dimensions == dimensions && this.size == size
    {
      this.cellgrid := cellgrid;
      this.dimensions := dimensions;
      this.size := size;
    }

    /** `initialize`: `rows` stands for `w / size` and `cols` for `h / size`,
        both truncated. Builds `rows` inner vectors of `cols` cells each, the
        cell at `(x, y)` made by `Cell::new` from its draw, and stores the
        vector and the bounds. */
    method Initialize(dimensions: Rect, rows: int, cols: int, draws: seq<seq<int>>)
      requires CellDraws(draws, Count(rows), Count(cols))
      modifies this`cellgrid, this`dimensions
      ensures cellgrid.Some? && this.dimensions == Some(dimensions)
      ensures |cellgrid.value| == Count(rows) && Rectangular(cellgrid.value, Count(cols))
      ensures forall x, y :: 0 <= x < Count(rows) && 0 <= y < Count(cols) ==>
        cellgrid.value[x][y] == Cells.New(draws[x][y])
    {
      var grid := [];
      var x := 0;
      while x < rows
        invariant 0 <= x <= Count(rows)
        invariant |grid| == x && Rectangular(grid, Count(cols))
        invariant forall i, j :: 0 <= i < x && 0 <= j < Count(cols) ==> grid[i][j] == Cells.New(draws[i][j])
      {
        var column := [];
        var y := 0;
        while y < cols
          invariant 0 <= y <= Count(cols)
          invariant |column| == y
          invariant forall j :: 0 <= j < y ==> column[j] == Cells.New(draws[x][j])
        {
          column := column + [Cells.New(draws[x][y])];
          y := y + 1;
        }
        grid := grid + [column];
        x := x + 1;
      }
      cellgrid := Some(grid);
      this.dimensions := Some(dimensions);
    }

    /** `clone`: a new grid with the same vector, bounds and size. */
    method Clone() returns (copy: Grid)
      ensures fresh(copy)
      ensures copy.cellgrid == cellgrid && copy.dimensions == dimensions && copy.size == size
    {
      copy := new Grid.FromFields(cellgrid, dimensions, size);
    }

    /** `into_iter`: panics on a null grid, otherwise an iter over the same
        vector with its cursor at `(0, 0)`, which the first call of `next`
        moves past before reading. */
    method IntoIter() returns (iter: GridIterator)
      requires cellgrid.Some?
      ensures fresh(iter)
      ensures iter.grid == cellgrid.value
      ensures iter.currentColumn == 0 && iter.currentRow == 0
      ensures |cellgrid.value| > 0 && NoEmptyColumn(cellgrid.value) ==> iter.Valid() && iter.Cursor() == 0
    {
      iter := new GridIterator(cellgrid.value, 0, 0);
    }
  }
}
