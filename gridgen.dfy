/** The grid builders of the newer grid (src/commons/grids/cellgrid/gridgen.rs).

    The source derives the two loop counts from floats, `w / cellsize` and
    `h / cellsize` cast to `i32`; here they are the integer parameters
    `columns` (outer vector) and `rows` (each column). A count of 0 or less
    gives an empty loop. The balanced builder takes its draws as
    `draws[x][y]`, the value drawn for cell `(x, y)`. */
module GridGen {
  import opened BinaryCells
  import opened GridOrder

  /** The number of iterations of the Rust range `0..n`. */
  function Count(n: int): (k: nat)
    ensures n <= 0 ==> k == 0
    ensures n > 0 ==> k == n
  {
    if n > 0 then n else 0
  }

  /** A draw from `0..=1` for every cell of a `columns` by `rows` grid. */
  predicate BalancedDraws(draws: seq<seq<int>>, columns: nat, rows: nat) {
    |draws| >= columns &&
    forall x :: 0 <= x < columns ==>
      |draws[x]| >= rows && forall y :: 0 <= y < rows ==> 0 <= draws[x][y] <= 1
  }

  /** `generate_randomgrid_balanced`: `Count(columns)` columns of `Count(rows)`
      cells each, the cell at `(x, y)` built by `balanced` from its draw. */
  method GenerateRandomgridBalanced(columns: int, rows: int, draws: seq<seq<int>>)
    returns (gridvector: seq<seq<BinaryCell>>)
    requires BalancedDraws(draws, Count(columns), Count(rows))
    ensures |gridvector| == Count(columns)
    ensures Rectangular(gridvector, Count(rows))
    ensures forall x, y :: 0 <= x < |gridvector| && 0 <= y < Count(rows) ==>
      gridvector[x][y] == Balanced(draws[x][y])
  {
    gridvector := [];
    var x := 0;
    while x < columns
      invariant 0 <= x <= Count(columns)
      invariant |gridvector| == x
      invariant Rectangular(gridvector, Count(rows))
      invariant forall i, j :: 0 <= i < x && 0 <= j < Count(rows) ==> gridvector[i][j] == Balanced(draws[i][j])
    {
      var column := [];
      var y := 0;
      while y < rows
        invariant 0 <= y <= Count(rows)
        invariant |column| == y
        invariant forall j :: 0 <= j < y ==> column[j] == Balanced(draws[x][j])
      {
        column := column + [Balanced(draws[x][y])];
        y := y + 1;
      }
      gridvector := gridvector + [column];
      x := x + 1;
    }
  }

  /** `generate_empty_grid`: the same shape, every cell Passive. */
  method GenerateEmptyGrid(columns: int, rows: int) returns (gridvector: seq<seq<BinaryCell>>)
    ensures |gridvector| == Count(columns)
    ensures Rectangular(gridvector, Count(rows))
    ensures forall x, y :: 0 <= x < |gridvector| && 0 <= y < Count(rows) ==> gridvector[x][y] == Passive
  {
    gridvector := [];
    var x := 0;
    while x < columns
      invariant 0 <= x <= Count(columns)
      invariant |gridvector| == x
      invariant Rectangular(gridvector, Count(rows))
      invariant forall i, j :: 0 <= i < x && 0 <= j < Count(rows) ==> gridvector[i][j] == Passive
    {
      var column := [];
      var y := 0;
      while y < rows
        invariant 0 <= y <= Count(rows)
        invariant |column| == y
        invariant forall j :: 0 <= j < y ==> column[j] == Passive
      {
        column := column + [Passive];
        y := y + 1;
      }
      gridvector := gridvector + [column];
      x := x + 1;
    }
  }
}
