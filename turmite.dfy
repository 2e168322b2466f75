/** The grid-walking agent (src/commons/navigation/turmite.rs): an orientation,
    a position that caches the cell last seen there, a liveness flag and a
    step counter. */
module Turmites {
  import opened Options
  import opened GridOrder
  import opened BinaryCells
  import opened Orientation4
  import opened CellGridCore

  /** The other state of a binary cell. */
  function Flipped(cell: BinaryCell): (r: BinaryCell)
    ensures r != cell
  {
    match cell
    case Active => Passive
    case Passive => Active
  }

  /** Flipping twice gives back the cell, and so the position. */
  lemma FlippedTwice(position: GridCell<BinaryCell>)
    ensures Flipped(Flipped(position.2)) == position.2
    ensures (position.0, position.1, Flipped(Flipped(position.2))) == position
  {
  }

  /** The unit step of an orientation: North and East increase `y` and `x`. */
  function DeltaX(o: Direction4): int {
    match o
    case East => 1
    case West => -1
    case _ => 0
  }

  function DeltaY(o: Direction4): int {
    match o
    case North => 1
    case South => -1
    case _ => 0
  }

  /** What `move_forward` needs never to index out of bounds from `(x, y)`:
      the cell it would read exists (and, facing North, `grid[0]` exists). */
  predicate MoveDefined(grid: seq<seq<BinaryCell>>, o: Direction4, x: nat, y: nat) {
    match o
    case North => |grid| > 0 && (y + 1 < |grid[0]| ==> x < |grid| && y + 1 < |grid[x]|)
    case East => x + 1 < |grid| ==> y < |grid[x + 1]|
    case South => y > 0 ==> x < |grid| && y - 1 < |grid[x]|
    case West => x > 0 ==> x - 1 < |grid| && y < |grid[x - 1]|
  }

  /** The destination of one step forward, with the cell found there, or None
      when the step would leave the grid: North is bounded by the length of the
      first column, East by the number of columns, South and West by 0. */
  function Forward(grid: seq<seq<BinaryCell>>, o: Direction4, x: nat, y: nat): (dest: Option<GridCell<BinaryCell>>)
    requires MoveDefined(grid, o, x, y)
    ensures dest.Some? ==>
      && dest.value.0 == x + DeltaX(o) && dest.value.1 == y + DeltaY(o)
      && dest.value.0 < |grid| && dest.value.1 < |grid[dest.value.0]|
      && dest.value.2 == grid[dest.value.0][dest.value.1]
    ensures dest.None? <==>
      (o == North && y + 1 >= |grid[0]|) || (o == East && x + 1 >= |grid|) ||
      (o == South && y == 0) || (o == West && x == 0)
  {
    match o
    case North => if y + 1 < |grid[0]| then Some((x, y + 1, grid[x][y + 1])) else None
    case East => if x + 1 < |grid| then Some((x + 1, y, grid[x + 1][y])) else None
    case South => if y == 0 then None else Some((x, y - 1, grid[x][y - 1]))
    case West => if x == 0 then None else Some((x - 1, y, grid[x - 1][y]))
  }

  /** On a rectangular grid, a step from an in-bounds position is always
      defined, and it fails exactly when the target lies outside the grid;
      otherwise the target is in bounds. */
  lemma ForwardRectangular(grid: seq<seq<BinaryCell>>, height: nat, o: Direction4, x: nat, y: nat)
    requires |grid| > 0 && Rectangular(grid, height)
    requires x < |grid| && y < height
    ensures MoveDefined(grid, o, x, y)
    ensures var tx, ty := x + DeltaX(o), y + DeltaY(o);
      Forward(grid, o, x, y).None? <==> !(0 <= tx < |grid| && 0 <= ty < height)
  {
  }

  class Turmite {
    var orientation: Direction4
    var position: GridCell<BinaryCell>
    var active: bool
    var step: nat

    /** `new`: a random orientation and a random cell of the grid (both draws
        are parameters), active, at step 0. */
    constructor (grid: CellGrid<BinaryCell>, orientationDraw: int, colDraw: int, rowDraw: int)
      requires 0 <= orientationDraw <= 3
      requires grid.RandomCellDefined(colDraw, rowDraw)
      ensures orientation == Random(orientationDraw)
      ensures position == grid.RandomCell(colDraw, rowDraw)
      ensures active && step == 0
    {
      orientation := Random(orientationDraw);
      position := grid.RandomCell(colDraw, rowDraw);
      active := true;
      step := 0;
    }

    /** The struct literal that `clone` builds. */
    constructor FromFields(orientation: Direction4, position: GridCell<BinaryCell>, active: bool, step: nat)
      ensures this.orientation == orientation && this.position == position
      ensures this.active == active && this.step == step
    {
      this.orientation := orientation;
      this.position := position;
      this.active := active;
      this.step := step;
    }

    /** `clone`: a new turmite with the same four fields. */
    method Clone() returns (copy: Turmite)
      ensures fresh(copy)
      ensures copy.orientation == orientation && copy.position == position
      ensures copy.active == active && copy.step == step
    {
      copy := new Turmite.FromFields(Orientation4.Clone(orientation), position, active, step);
    }

    /** `flipcell`: toggles the cached cell, keeps the coordinates and returns
        the new cell; orientation, liveness and step are untouched. */
    method FlipCell() returns (newcell: BinaryCell)
      modifies this`position
      ensures newcell == Flipped(old(position).2)
      ensures position == (old(position).0, old(position).1, newcell)
    {
      var (x, y, cell) := position;
      newcell := Flipped(cell);
      position := (x, y, newcell);
    }

    /** `move_forward`: one step in the facing direction, caching the cell
        found there; at the edge the turmite is deactivated and stays put.
        It never reactivates the turmite and never changes its orientation
        or step. */
    method MoveForward(grid: seq<seq<BinaryCell>>)
      requires MoveDefined(grid, orientation, position.0, position.1)
      modifies this`position, this`active
      ensures var dest := Forward(grid, orientation, old(position).0, old(position).1);
        && (dest.Some? ==> position == dest.value && active == old(active))
        && (dest.None? ==> position == old(position) && !active)
    {
      var (x, y, _) := position;
      match orientation {
        case North =>
          if y + 1 < |grid[0]| {
            position := (x, y + 1, grid[x][y + 1]);
          } else {
            active := false;
          }
        case East =>
          if x + 1 < |grid| {
            position := (x + 1, y, grid[x + 1][y]);
          } else {
            active := false;
          }
        case South =>
          if y == 0 {
            active := false;
          } else {
            position := (x, y - 1, grid[x][y - 1]);
          }
        case West =>
          if x == 0 {
            active := false;
          } else {
            position := (x - 1, y, grid[x - 1][y]);
          }
      }
    }
  }
}
