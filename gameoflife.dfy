/** Conway's Game of Life on the newer grid (src/gameoflife/cellgrid.rs).

    `NextGeneration` is the specification of one step: every cell is computed
    from the grid as it was before the step, by the B3/S23 rule applied to the
    number of Active cells among its in-bounds neighbours. `GameOfLife.Advance`
    walks the grid with the scanner, counts each neighbourhood with
    `ScanVicinity`, writes into a copy and installs the copy at the end. */
module Life {
  import opened Options
  import opened Geometry
  import opened GridOrder
  import opened Scanner
  import opened BinaryCells
  import opened CellGridCore
  import opened GridGen
  import opened Decimals

  predicate InGrid<C>(grid: seq<seq<C>>, nx: int, ny: int) {
    0 <= nx < |grid| && 0 <= ny < |grid[nx]|
  }

  /** `(nx, ny)` is an in-bounds Active cell other than `(x, y)` itself. Bounds
      are checked per column: the row must be below `grid[nx].len()`. */
  predicate LiveNeighbour(grid: seq<seq<BinaryCell>>, x: int, y: int, nx: int, ny: int) {
    InGrid(grid, nx, ny) && (nx != x || ny != y) && grid[nx][ny] == Active
  }

  /** The Active cells among the (up to) eight neighbours of `(x, y)`. */
  function Neighbours(grid: seq<seq<BinaryCell>>, x: int, y: int): set<(int, int)> {
    set nx: int, ny: int | x - 1 <= nx <= x + 1 && y - 1 <= ny <= y + 1 && LiveNeighbour(grid, x, y, nx, ny)
      :: (nx, ny)
  }

  function NeighbourCount(grid: seq<seq<BinaryCell>>, x: int, y: int): nat {
    |Neighbours(grid, x, y)|
  }

  /** A position is counted exactly when it is one of the eight cells around
      `(x, y)`, inside the grid (row checked against its own column) and Active. */
  lemma NeighboursMembership(grid: seq<seq<BinaryCell>>, x: int, y: int, nx: int, ny: int)
    ensures (nx, ny) in Neighbours(grid, x, y) <==>
      && -1 <= nx - x <= 1 && -1 <= ny - y <= 1 && (nx, ny) != (x, y)
      && 0 <= nx < |grid| && 0 <= ny < |grid[nx]| && grid[nx][ny] == Active
  {
    if -1 <= nx - x <= 1 && -1 <= ny - y <= 1 && LiveNeighbour(grid, x, y, nx, ny) {
      assert (nx, ny) in Neighbours(grid, x, y);
    }
  }

  /** The neighbours found once the offsets before `(a, b)` (in the order of the
      two nested offset loops) have been examined. */
  function Seen(grid: seq<seq<BinaryCell>>, x: int, y: int, a: int, b: int): set<(int, int)> {
    set p | p in Neighbours(grid, x, y) && (p.0 - x < a || (p.0 - x == a && p.1 - y < b))
  }

  /** An upper bound on the neighbours counted before offset `(a, b)`: one per
      offset examined, except the centre. */
  function Budget(a: int, b: int): int {
    3 * (a + 1) + (b + 1) - (if a > 0 || (a == 0 && b > 0) then 1 else 0)
  }

  lemma VicinityStart(grid: seq<seq<BinaryCell>>, x: int, y: int)
    ensures Seen(grid, x, y, -1, -1) == {}
  {
    forall p | p in Neighbours(grid, x, y)
      ensures x - 1 <= p.0 <= x + 1 && y - 1 <= p.1 <= y + 1
    {
    }
  }

  lemma VicinityEnd(grid: seq<seq<BinaryCell>>, x: int, y: int)
    ensures Seen(grid, x, y, 2, -1) == Neighbours(grid, x, y)
  {
    forall p | p in Neighbours(grid, x, y)
      ensures x - 1 <= p.0 <= x + 1 && y - 1 <= p.1 <= y + 1
    {
    }
  }

  /** Moving from the last offset of one column of offsets to the first of the next. */
  lemma VicinityRoll(grid: seq<seq<BinaryCell>>, x: int, y: int, a: int)
    ensures Seen(grid, x, y, a, 2) == Seen(grid, x, y, a + 1, -1)
  {
    forall p | p in Neighbours(grid, x, y)
      ensures x - 1 <= p.0 <= x + 1 && y - 1 <= p.1 <= y + 1
    {
    }
  }

  /** Examining offset `(a, b)` adds its cell exactly when that cell is a live neighbour. */
  lemma VicinityStep(grid: seq<seq<BinaryCell>>, x: int, y: int, a: int, b: int)
    requires -1 <= a <= 1 && -1 <= b <= 1
    ensures LiveNeighbour(grid, x, y, x + a, y + b) ==>
      (x + a, y + b) !in Seen(grid, x, y, a, b) &&
      Seen(grid, x, y, a, b + 1) == Seen(grid, x, y, a, b) + {(x + a, y + b)}
    ensures !LiveNeighbour(grid, x, y, x + a, y + b) ==>
      Seen(grid, x, y, a, b + 1) == Seen(grid, x, y, a, b)
  {
    if LiveNeighbour(grid, x, y, x + a, y + b) {
      assert (x + a, y + b) in Neighbours(grid, x, y);
    }
  }

  /** The running count after examining offset `(a, b)`: one more exactly when
      that cell is a live neighbour, and still within the budget. */
  lemma VicinityCount(grid: seq<seq<BinaryCell>>, x: int, y: int, a: int, b: int, count: int)
    requires -1 <= a <= 1 && -1 <= b <= 1
    requires count == |Seen(grid, x, y, a, b)| && count <= Budget(a, b)
    ensures LiveNeighbour(grid, x, y, x + a, y + b) ==>
      count + 1 == |Seen(grid, x, y, a, b + 1)| && count + 1 <= Budget(a, b + 1)
    ensures !LiveNeighbour(grid, x, y, x + a, y + b) ==>
      count == |Seen(grid, x, y, a, b + 1)| && count <= Budget(a, b + 1)
  {
    VicinityStep(grid, x, y, a, b);
  }

  /** The B3/S23 transition of one cell with `n` Active neighbours: an Active
      cell survives with 2 or 3, a Passive cell is born with exactly 3. */
  function Rule(cell: BinaryCell, n: int): (next: BinaryCell)
    ensures next == Active <==> (cell == Active && (n == 2 || n == 3)) || (cell == Passive && n == 3)
  {
    if cell == Active && (n < 2 || n > 3) then Passive
    else if cell == Active && (n == 3 || n == 2) then Active
    else if cell == Passive && n == 3 then Active
    else cell
  }

  /** The grid after one generation, every cell computed from `grid`. */
  function NextGeneration(grid: seq<seq<BinaryCell>>): seq<seq<BinaryCell>> {
    seq(|grid|, x requires 0 <= x < |grid| =>
      seq(|grid[x]|, y requires 0 <= y < |grid[x]| => Rule(grid[x][y], NeighbourCount(grid, x, y))))
  }

  /** One generation keeps the shape of the grid. */
  lemma NextGenerationShape(grid: seq<seq<BinaryCell>>)
    ensures Shape(NextGeneration(grid)) == Shape(grid)
  {
  }

  /** A grid the scanner can walk has a next generation it can walk too, so
      `advance` can be called again. */
  lemma NextGenerationScannable(grid: seq<seq<BinaryCell>>)
    requires Scannable(grid)
    ensures Scannable(NextGeneration(grid))
  {
    var next := NextGeneration(grid);
    NextGenerationShape(grid);
    forall x | 1 <= x < |next|
      ensures |next[x]| > 0
    {
      assert Shape(next)[x] == Shape(grid)[x];
    }
  }

  /** The number of items carrying `cell`. */
  function CountCells(items: seq<GridCell<BinaryCell>>, cell: BinaryCell): nat {
    if items == [] then 0
    else CountCells(items[..|items| - 1], cell) + (if items[|items| - 1].2 == cell then 1 else 0)
  }

  lemma CountCellsPrefix(items: seq<GridCell<BinaryCell>>, k: nat, cell: BinaryCell)
    requires k < |items|
    ensures CountCells(items[..k + 1], cell) == CountCells(items[..k], cell) + (if items[k].2 == cell then 1 else 0)
  {
    assert items[..k + 1][..k] == items[..k];
  }

  /** Every item is Active or Passive, so the two counts add up to the length. */
  lemma {:induction false} CountCellsSplit(items: seq<GridCell<BinaryCell>>)
    ensures CountCells(items, Active) + CountCells(items, Passive) == |items|
  {
    if items != [] {
      CountCellsSplit(items[..|items| - 1]);
    }
  }

  /** The number of cells of the grid in the given state. */
  function Population(grid: seq<seq<BinaryCell>>, cell: BinaryCell): nat {
    CountCells(ColumnMajor(grid), cell)
  }

  /** The Active and the Passive cells make up the whole grid: `w * h` cells
      for a rectangular grid. */
  lemma PopulationTotal(grid: seq<seq<BinaryCell>>, height: nat)
    ensures Population(grid, Active) + Population(grid, Passive) == Total(Shape(grid))
    ensures Rectangular(grid, height) ==>
      Population(grid, Active) + Population(grid, Passive) == |grid| * height
  {
    CountCellsSplit(ColumnMajor(grid));
    ColumnMajorLength(grid);
    if Rectangular(grid, height) {
      ColumnMajorRectangular(grid, height);
    }
  }

  predicate AllPassive(grid: seq<seq<BinaryCell>>) {
    forall x, y :: 0 <= x < |grid| && 0 <= y < |grid[x]| ==> grid[x][y] == Passive
  }

  /** Without Active cells nothing is ever born: an all-Passive grid is a fixed point. */
  lemma AllPassiveStable(grid: seq<seq<BinaryCell>>)
    requires AllPassive(grid)
    ensures NextGeneration(grid) == grid
  {
    forall x, y | 0 <= x < |grid| && 0 <= y < |grid[x]|
      ensures NextGeneration(grid)[x][y] == grid[x][y]
    {
      assert Neighbours(grid, x, y) == {};
    }
    forall x | 0 <= x < |grid|
      ensures NextGeneration(grid)[x] == grid[x]
    {
    }
  }

  /** The scan item at index `k` of the old grid and of the new grid name the
      same position, and the new cell is the rule applied there. */
  lemma AdvanceItem(grid: seq<seq<BinaryCell>>, k: nat)
    requires k < |ColumnMajor(grid)|
    ensures k < Total(Shape(grid))
    ensures var p, next := Locate(Shape(grid), k), NextGeneration(grid);
      && InGrid(grid, p.0, p.1)
      && ColumnMajor(grid)[k] == (p.0, p.1, grid[p.0][p.1])
      && k < |ColumnMajor(next)|
      && ColumnMajor(next)[k] == (p.0, p.1, Rule(grid[p.0][p.1], NeighbourCount(grid, p.0, p.1)))
  {
    var next := NextGeneration(grid);
    ColumnMajorItem(grid, k);
    NextGenerationShape(grid);
    ColumnMajorLength(next);
    ColumnMajorItem(next, k);
  }

  /** `work` already holds the next generation at every position scanned
      before index `k`. */
  ghost predicate UpdatedBefore(grid: seq<seq<BinaryCell>>, work: seq<seq<BinaryCell>>, k: nat)
    requires Shape(work) == Shape(grid)
  {
    forall i, j :: InGrid(grid, i, j) && Offset(Shape(grid), i) + j < k ==>
      work[i][j] == NextGeneration(grid)[i][j]
  }

  /** Writing the new cell of the position at scan index `k` extends the
      updated prefix by one. */
  lemma AdvanceWrite(grid: seq<seq<BinaryCell>>, work: seq<seq<BinaryCell>>, k: nat, x: nat, y: nat)
    requires Shape(work) == Shape(grid) && UpdatedBefore(grid, work, k)
    requires InGrid(grid, x, y) && Offset(Shape(grid), x) + y == k
    ensures var updated := work[x := work[x][y := NextGeneration(grid)[x][y]]];
      Shape(updated) == Shape(grid) && UpdatedBefore(grid, updated, k + 1)
  {
    var updated := work[x := work[x][y := NextGeneration(grid)[x][y]]];
    forall i, j | InGrid(grid, i, j) && Offset(Shape(grid), i) + j < k + 1
      ensures updated[i][j] == NextGeneration(grid)[i][j]
    {
      if Offset(Shape(grid), i) + j == k {
        OffsetInjective(Shape(grid), i, j, x, y);
      }
    }
  }

  /** Once every position is scanned, the work grid is the next generation. */
  lemma AdvanceComplete(grid: seq<seq<BinaryCell>>, work: seq<seq<BinaryCell>>)
    requires Shape(work) == Shape(grid) && UpdatedBefore(grid, work, Total(Shape(grid)))
    ensures work == NextGeneration(grid)
  {
    var next := NextGeneration(grid);
    forall i | 0 <= i < |grid|
      ensures work[i] == next[i]
    {
      forall j | 0 <= j < |grid[i]|
        ensures work[i][j] == next[i][j]
      {
        LocateOffset(Shape(grid), i, j);
      }
    }
  }

  /** The state of `advance` after `k` items of the scan: the work grid has
      the next generation up to index `k`, and the counters count the Active
      and Passive cells among those first `k` new cells. */
  ghost predicate AdvanceProgress(grid: seq<seq<BinaryCell>>, work: seq<seq<BinaryCell>>, k: nat, alive: nat, dead: nat) {
    && k <= |ColumnMajor(grid)| == |ColumnMajor(NextGeneration(grid))|
    && Shape(work) == Shape(grid) && UpdatedBefore(grid, work, k)
    && alive == CountCells(ColumnMajor(NextGeneration(grid))[..k], Active)
    && dead == CountCells(ColumnMajor(NextGeneration(grid))[..k], Passive)
  }

  lemma AdvanceStart(grid: seq<seq<BinaryCell>>)
    ensures AdvanceProgress(grid, grid, 0, 0, 0)
  {
    NextGenerationShape(grid);
    ColumnMajorLength(grid);
    ColumnMajorLength(NextGeneration(grid));
  }

  /** Processing the item at index `k`: its new cell is the rule applied to the
      old cell and its neighbour count, and writing and counting it advances
      the progress by one. */
  lemma AdvanceStep(grid: seq<seq<BinaryCell>>, work: seq<seq<BinaryCell>>, k: nat, alive: nat, dead: nat, x: nat, y: nat, cell: BinaryCell)
    requires AdvanceProgress(grid, work, k, alive, dead)
    requires k < |ColumnMajor(grid)| && ColumnMajor(grid)[k] == (x, y, cell)
    ensures InGrid(grid, x, y) && cell == grid[x][y]
    ensures var newcell := Rule(cell, NeighbourCount(grid, x, y));
      AdvanceProgress(grid, work[x := work[x][y := newcell]], k + 1,
        alive + (if newcell == Active then 1 else 0), dead + (if newcell == Passive then 1 else 0))
  {
    AdvanceItem(grid, k);
    AdvanceWrite(grid, work, k, x, y);
    CountCellsPrefix(ColumnMajor(NextGeneration(grid)), k, Active);
    CountCellsPrefix(ColumnMajor(NextGeneration(grid)), k, Passive);
  }

  /** After the whole scan the work grid is the next generation and the
      counters are its populations. */
  lemma AdvanceEnd(grid: seq<seq<BinaryCell>>, work: seq<seq<BinaryCell>>, alive: nat, dead: nat)
    requires AdvanceProgress(grid, work, |ColumnMajor(grid)|, alive, dead)
    ensures work == NextGeneration(grid)
    ensures alive == Population(work, Active) && dead == Population(work, Passive)
  {
    ColumnMajorLength(grid);
    AdvanceComplete(grid, work);
    var nextItems := ColumnMajor(NextGeneration(grid));
    assert nextItems[..|nextItems|] == nextItems;
  }

  /** The label recorded for an initial-state keyword; None for the keywords
      on which the source exits the process. */
  function InitialStateLabel(keyword: string): (choice: Option<string>)
    ensures choice.Some? <==> keyword == "default" || keyword == "random-balanced"
    ensures choice.Some? ==> choice.value == "Random [1:1]"
  {
    match keyword
    case "default" => Some("Random [1:1]")
    case "random-balanced" => Some("Random [1:1]")
    case _ => None
  }

  datatype InitError = InvalidInitialState

  /** Height in pixels kept free under the grid for the banner. */
  const BannerHeight: real := 60.0

  class GameOfLife {
    const grid: CellGrid<BinaryCell>
    const cellsize: real
    var initialstate: string
    var generation: nat
    var alive: nat
    var dead: nat

    /** `Automaton::new`: a null grid of the given cell size, counters at 0. */
    constructor (initialstate: string, cellsize: real)
      ensures fresh(grid)
      ensures grid.cellsize == cellsize && grid.vector == None && grid.dimensions == None
      ensures this.initialstate == initialstate && this.cellsize == cellsize
      ensures generation == 0 && alive == 0 && dead == 0
    {
      grid := new CellGrid(cellsize);
      this.initialstate := initialstate;
      this.cellsize := cellsize;
      generation := 0;
      alive := 0;
      dead := 0;
    }

    /** `initialize`: records the grid bounds (the banner height removed) and,
        for a recognised keyword, the label "Random [1:1]" and a balanced
        random grid of `columns` by `rows` cells, where `columns` and `rows`
        stand for `w / cellsize` and `(h - 60) / cellsize` truncated. An
        unrecognised keyword is an error (the source exits the process). */
    method Initialize(dimensions: Rect, columns: int, rows: int, draws: seq<seq<int>>)
      returns (outcome: Outcome<InitError>)
      requires InitialStateLabel(initialstate).Some? ==> BalancedDraws(draws, Count(columns), Count(rows))
      modifies this, grid
      ensures grid.dimensions == Some(Rect(0.0, 0.0, dimensions.w, dimensions.h - BannerHeight))
      ensures outcome.Pass? <==> InitialStateLabel(old(initialstate)).Some?
      ensures outcome.Pass? ==>
        && initialstate == InitialStateLabel(old(initialstate)).value
        && grid.vector.Some?
        && |grid.vector.value| == Count(columns)
        && Rectangular(grid.vector.value, Count(rows))
        && forall x, y :: 0 <= x < Count(columns) && 0 <= y < Count(rows) ==>
             grid.vector.value[x][y] == Balanced(draws[x][y])
      ensures outcome.Fail? ==> initialstate == old(initialstate) && grid.vector == old(grid.vector)
      ensures generation == old(generation) && alive == old(alive) && dead == old(dead)
    {
      var griddimensions := Rect(0.0, 0.0, dimensions.w, dimensions.h - BannerHeight);
      grid.SetDimensions(griddimensions);
      var choice := InitialStateLabel(initialstate);
      if choice.Some? {
        initialstate := choice.value;
        var randomgrid := GenerateRandomgridBalanced(columns, rows, draws);
        grid.SetGrid(randomgrid);
        outcome := Pass;
      } else {
        outcome := Fail(InvalidInitialState);
      }
    }

    /** `scan_vicinity`: the number of Active cells among the in-bounds
        neighbours of `(x, y)`, never more than 8, and 0 for a null grid. */
    method ScanVicinity(x: nat, y: nat) returns (count: int)
      ensures grid.vector.None? ==> count == 0
      ensures grid.vector.Some? ==> count == NeighbourCount(grid.vector.value, x, y)
      ensures 0 <= count <= 8
    {
      count := 0;
      if grid.vector.Some? {
        var g := grid.vector.value;
        VicinityStart(g, x, y);
        for xOff := -1 to 2
          invariant count == |Seen(g, x, y, xOff, -1)|
          invariant count <= Budget(xOff, -1)
        {
          for yOff := -1 to 2
            invariant count == |Seen(g, x, y, xOff, yOff)|
            invariant count <= Budget(xOff, yOff)
          {
            VicinityCount(g, x, y, xOff, yOff, count);
            var nx := x + xOff;
            var ny := y + yOff;
            if nx < 0 || nx >= |g| {
              continue;
            }
            if ny < 0 || ny >= |g[nx]| {
              continue;
            }
            if nx == x && ny == y {
              continue;
            }
            if g[nx][ny] == Active {
              count := count + 1;
            }
          }
          VicinityRoll(g, x, y, xOff);
        }
        VicinityEnd(g, x, y);
      }
    }

    /** The loop of `advance`: scans a copy of the grid and computes every
        new cell from the unchanged grid; returns the next generation with
        its numbers of Active and Passive cells. Nothing is modified. */
    method Evolve() returns (newgrid: seq<seq<BinaryCell>>, alive: nat, dead: nat)
      requires grid.vector.Some? && Scannable(grid.vector.value)
      ensures newgrid == NextGeneration(grid.vector.value)
      ensures alive == Population(newgrid, Active) && dead == Population(newgrid, Passive)
    {
      alive := 0;
      dead := 0;
      newgrid := grid.vector.value;
      ghost var g := newgrid;
      ghost var items := ColumnMajor(g);
      AdvanceStart(g);
      var snapshot := grid.Clone();
      var scanner := snapshot.IntoIter();
      ghost var k: nat := 0;
      var item := scanner.Next();
      while item.Some?
        invariant scanner.gridvector == g
        invariant item.Some? ==> k < |items| && item.value == items[k] && scanner.Valid() && scanner.Index() == k + 1
        invariant item.None? ==> k == |items|
        invariant AdvanceProgress(g, newgrid, k, alive, dead)
        decreases |items| - k
      {
        var (x, y, cell) := item.value;
        AdvanceStep(g, newgrid, k, alive, dead, x, y, cell);
        var n := ScanVicinity(x, y);
        var newcell := Rule(cell, n);
        newgrid := newgrid[x := newgrid[x][y := newcell]];
        match newcell {
          case Passive => dead := dead + 1;
          case Active => alive := alive + 1;
        }
        k := k + 1;
        item := scanner.Next();
      }
      AdvanceEnd(g, newgrid, alive, dead);
    }

    /** `advance`: one generation. With a grid, the grid becomes its next
        generation, computed from the grid as it was before the step, and
        `alive` and `dead` count its Active and Passive cells; without one,
        both counts are 0 and the grid stays null. The generation counter
        goes up by one either way. */
    method Advance()
      requires grid.vector.Some? ==> Scannable(grid.vector.value)
      modifies this, grid
      ensures generation == old(generation) + 1
      ensures old(grid.vector).None? ==> grid.vector == None && alive == 0 && dead == 0
      ensures old(grid.vector).Some? ==>
        var next := NextGeneration(old(grid.vector).value);
        grid.vector == Some(next) && alive == Population(next, Active) && dead == Population(next, Passive)
      ensures grid.dimensions == old(grid.dimensions) && initialstate == old(initialstate)
      ensures grid.vector.Some? ==> Scannable(grid.vector.value)
    {
      var alive: nat := 0;
      var dead: nat := 0;
      if grid.vector.Some? {
        var newgrid;
        NextGenerationScannable(grid.vector.value);
        newgrid, alive, dead := Evolve();
        grid.SetGrid(newgrid);
      }
      this.alive := alive;
      this.dead := dead;
      generation := generation + 1;
    }

    /** `state`: "Generation: {} | Alive: {} | Dead: {}", each field the
        shortest decimal numeral of its counter, which reads back as the
        counter. */
    function State(): (s: string)
      reads this
      ensures var g, a, d := Decimal(generation), Decimal(alive), Decimal(dead);
        && s == "Generation: " + g + " | Alive: " + a + " | Dead: " + d
        && AllDigits(g) && Parse(g) == generation
        && AllDigits(a) && Parse(a) == alive
        && AllDigits(d) && Parse(d) == dead
    {
      ParseDecimal(generation);
      ParseDecimal(alive);
      ParseDecimal(dead);
      "Generation: " + Decimal(generation) + " | Alive: " + Decimal(alive) + " | Dead: " + Decimal(dead)
    }

    /** `name`: "Conway's Game of Life | Grid | " followed by the initial-state label. */
    function Name(): (s: string)
      reads this
      ensures |s| == 31 + |initialstate|
      ensures s[..31] == "Conway's Game of Life | Grid | " && s[31..] == initialstate
    {
      "Conway's Game of Life | Grid | " + initialstate
    }
  }
}
