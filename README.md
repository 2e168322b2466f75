# Cellular automata core, modelled in Dafny

This project models the automaton core of a Rust cellular-automaton program
(Conway's Game of Life and the beginnings of Langton's Ant) and proves
properties of that model. The model covers:

- the two-state cells (`BinaryCell`, the older `Cell`) and how they are built
  from a drawn integer;
- the four-way orientations (`Direction4` and the older `Direction`);
- the grid containers: the newer `CellGrid` with its builders, and the older
  `CellGrid`, `gameoflife::Grid` and root `Grid`;
- the two grid iterators: the column-major `GridScanner` and the older
  `GridIterator`, which advances before it reads;
- the `Turmite` agent;
- the Game of Life automaton: neighbour counting, the B3/S23 step and the banner strings;
- the Langton's Ant shell.

A grid is a sequence of columns `grid[x]`, each a sequence of rows
`grid[x][y]`. Columns may differ in length. Both iterators walk the grid in
column-major order. `GridOrder.ColumnMajor` is that order written as a
sequence. The position `(x, y)` sits at index `Offset(Shape(grid), x) + y`,
and `GridOrder.Locate` is the inverse of that index. The scanner and the
Game of Life step are proved against this order.

Where the source mutates fields, the model is a class whose methods say in
`modifies` what they change: the grids, the iterators, the turmite and the
automata. Pure code becomes datatypes and functions. The loop of the Game of
Life `advance` is the method `Evolve`, which changes nothing. `Advance` calls
it and then installs the result, as the source does after its loop.

Randomness is passed in as draw parameters, with the range the source draws
from as a precondition. Sizes the source derives from floats (`w / cellsize`
cast to `i32`) are integer parameters here, and a count of 0 or less gives
an empty loop. Most panics become preconditions that the caller has to
meet. Two failures become error results instead. `skewed` panics on an
unknown skew, and the model's `Skewed` returns `Err(InvalidSkew)` for it.
`initialize` exits the process on an unknown state, and the model's
`Initialize` returns `Fail(InvalidInitialState)` for it.

Quirks of the source that the model keeps:
- `getheight` returns the number of columns.
- `randomcell` reads `grid[row][col]`, with the two indices swapped.
- The older `GridIterator` never yields cell `(0, 0)`.
- After its last item, the newer scanner leaves its column cursor one past
  the grid.

## Model

| member | source | states |
|---|---|---|
| GridOrder.ColumnMajorAt | src/commons/grids/scanner.rs:40-44 | The cell at `(x, y)` is yielded at index `Offset(x) + y`, and the item carries `grid[x][y]`. |
| GridOrder.ColumnMajorItem | src/commons/grids/scanner.rs:24-51 | Every item of the scan is an in-bounds position together with the cell stored there. |
| GridOrder.ColumnMajorDistinct | src/commons/grids/scanner.rs:24-51 | No position is yielded twice. |
| GridOrder.ColumnMajorOrdered | src/commons/grids/scanner.rs:24-51 | Items come column by column, with rows ascending inside a column. |
| GridOrder.ColumnMajorRectangular | src/commons/grids/scanner.rs:24-51 | A rectangular grid of `w` columns and `h` rows yields exactly `w * h` items. |
| GridOrder.LocateOffset | src/commons/grids/scanner.rs:24-51 | Every position of the grid gets an index inside the scan, and `Locate` maps that index back to the position. |
| Scanner.ScanStep | src/commons/grids/scanner.rs:26-48 | One step from `(c, r)`: either the same column at row `r`, or row 0 of the next column when `r` is past the end, or the end of the scan; each case names its item. |
| Scanner.GridScanner.constructor | src/commons/grids/scanner.rs:9-16 | The scanner holds the given vector and cursors. |
| Scanner.GridScanner.Next | src/commons/grids/scanner.rs:24-51 | Yields the column-major item at the cursor's index and advances the index by one, keeping the cursor invariant. At the end it returns None with the cursors at `(len, 0)`. Only the cursors change. |
| CellGridCore.CellGrid.constructor | src/commons/grids/cellgrid/core.rs:30-36 | A null vector and null bounds, with the given cell size. |
| CellGridCore.CellGrid.SetGrid | src/commons/grids/cellgrid/core.rs:39-41 | The vector becomes `Some(other)`; the bounds and the cell size are unchanged. |
| CellGridCore.CellGrid.SetDimensions | src/commons/grids/cellgrid/core.rs:44-46 | The bounds become `Some(other)`; the vector and the cell size are unchanged. |
| CellGridCore.CellGrid.GetHeight | src/commons/grids/cellgrid/core.rs:50-55 | 0 for a null grid, otherwise the outer length, which is the column count. |
| CellGridCore.CellGrid.GetWidth | src/commons/grids/cellgrid/core.rs:59-64 | 0 for a null grid, otherwise `vec[0].len()`; it needs a non-empty outer vector. |
| CellGridCore.CellGrid.GetWidthTotal | src/commons/grids/cellgrid/core.rs:50-64 | For a rectangular grid, `getwidth` times `getheight` is the number of cells the scan yields. |
| CellGridCore.CellGrid.RandomCell | src/commons/grids/cellgrid/core.rs:68-81 | Needs a grid. Returns `col < grid.len()` and `row < grid[0].len()`, with the cell read at `grid[row][col]`, which must also be in bounds. |
| CellGridCore.CellGrid.RandomCellSquare | src/commons/grids/cellgrid/core.rs:72-75 | On a square grid, every pair of in-range draws can be read despite the swapped indices. |
| CellGridCore.CellGrid.Clone | src/commons/grids/cellgrid/core.rs:88-94 | A fresh grid with the same cell size, vector and bounds. |
| CellGridCore.CellGrid.IntoIter | src/commons/grids/cellgrid/core.rs:105-119 | Needs a grid. Returns a fresh scanner over the same vector with both cursors at 0, which is valid at index 0 when the grid is scannable. |
| GridGen.Count | src/commons/grids/cellgrid/gridgen.rs:21-25 | The number of iterations of `0..n`: `n` when positive, else 0. |
| GridGen.GenerateRandomgridBalanced | src/commons/grids/cellgrid/gridgen.rs:12-37 | `Count(columns)` columns, each of `Count(rows)` cells; the cell at `(x, y)` is `balanced` of its draw. |
| GridGen.GenerateEmptyGrid | src/commons/grids/cellgrid/gridgen.rs:45-70 | The same rectangular shape, with every cell Passive. |
| BinaryCells.Balanced | src/commons/binarycell.rs:21-32 | Draw 0 gives Passive and draw 1 gives Active, both ways round. |
| BinaryCells.Skewed | src/commons/binarycell.rs:44-67 | Ok exactly for the skews "active" and "passive". With "active", draw 0 and only draw 0 gives Passive; with "passive", draw 0 and only draw 0 gives Active. Any other skew is an error. |
| BinaryCells.SkewedBiasOne | src/commons/binarycell.rs:40-63 | With bias 1, the two draws give one state each: the split of `balanced`, reversed for "passive". |
| BinaryCells.Clone | src/commons/binarycell.rs:73-80 | Returns the same variant. |
| Cells.RustRem | src/cell.rs:26 | Rust's `%`: the dividend is the quotient truncated toward zero times the divisor, plus the remainder. The remainder takes the sign of the dividend and is smaller than the divisor in magnitude. |
| Cells.FromInt | src/cell.rs:25-32 | Alive exactly when `i` is divisible by 3, negative `i` included. |
| Cells.FromIntPeriodic | src/cell.rs:26-31 | `from(i) == from(i + 3)`. |
| Cells.New | src/cell.rs:14-19 | A draw from `0..10` gives Alive exactly for 0, 3, 6 and 9. |
| Cells.Clone | src/cell.rs:37-44 | Returns the same variant. |
| Orientation4.Ordinal | src/commons/navigation/direction4.rs:12-21 | The discriminants are 0 to 3. |
| Orientation4.OrdinalInjective | src/commons/navigation/direction4.rs:12-21 | Distinct variants have distinct discriminants. |
| Orientation4.FromInt | src/commons/navigation/direction4.rs:76-89 | Defined on 0..=3 only (anything else panics) and inverse to the discriminant. |
| Orientation4.Random | src/commons/navigation/direction4.rs:25-29 | Every draw from `0..=3` is a valid input and gives the direction with that discriminant. |
| Orientation4.TurnRight | src/commons/navigation/direction4.rs:32-40 | One step clockwise: the discriminant plus 1, mod 4. |
| Orientation4.TurnLeft | src/commons/navigation/direction4.rs:43-51 | One step counter-clockwise: the discriminant plus 3, mod 4. |
| Orientation4.TurnAround | src/commons/navigation/direction4.rs:54-62 | Two steps: the discriminant plus 2, mod 4. |
| Orientation4.TurnsInverse | src/commons/navigation/direction4.rs:32-51 | Left after right, and right after left, are the identity. |
| Orientation4.TurnAroundProperties | src/commons/navigation/direction4.rs:32-62 | Turning around is two right turns and is an involution; four right turns are the identity. |
| Orientation4.Clone | src/commons/navigation/direction4.rs:95-102 | Returns the same variant. |
| Orientation.Ordinal | src/commons/direction.rs:11-20 | The discriminants are 0 to 3. |
| Orientation.OrdinalInjective | src/commons/direction.rs:11-20 | Distinct variants have distinct discriminants. |
| Orientation.FromInt | src/commons/direction.rs:79-92 | Defined on 0..=3 only and inverse to the discriminant. |
| Orientation.Random | src/commons/direction.rs:25-29 | Every draw from `0..=3` is a valid input. |
| Orientation.TurnRight | src/commons/direction.rs:35-43 | One step clockwise. |
| Orientation.TurnLeft | src/commons/direction.rs:46-54 | One step counter-clockwise. |
| Orientation.TurnAround | src/commons/direction.rs:57-65 | Two steps. |
| Orientation.TurnsInverse | src/commons/direction.rs:35-54 | The left and right turns undo each other. |
| Orientation.TurnAroundProperties | src/commons/direction.rs:35-65 | Turning around is two right turns and is an involution; four right turns are the identity. |
| Orientation.Clone | src/commons/direction.rs:98-105 | Returns the same variant. |
| Turmites.Flipped | src/commons/navigation/turmite.rs:58-61 | The flipped cell differs from the original. |
| Turmites.FlippedTwice | src/commons/navigation/turmite.rs:53-67 | Flipping twice restores the cell, and so the position. |
| Turmites.Forward | src/commons/navigation/turmite.rs:76-124 | The destination of one step, one unit in the facing direction with the cell read there. It is None exactly at the edges the source checks: North against `grid[0].len()`, East against `grid.len()`, South and West at 0. |
| Turmites.ForwardRectangular | src/commons/navigation/turmite.rs:80-121 | On a rectangular grid, a step from an in-bounds position is always defined, and it fails exactly when its target lies outside the grid. |
| Turmites.Turmite.constructor | src/commons/navigation/turmite.rs:25-32 | The orientation from `random` and the position from `randomcell`; `active` is true and `step` is 0. |
| Turmites.Turmite.Clone | src/commons/navigation/turmite.rs:38-45 | A fresh turmite with the same four fields. |
| Turmites.Turmite.FlipCell | src/commons/navigation/turmite.rs:53-67 | Toggles the cached cell and returns it; the coordinates, orientation, liveness and step are unchanged. |
| Turmites.Turmite.MoveForward | src/commons/navigation/turmite.rs:71-125 | Moves to `Forward`'s destination, or at an edge deactivates the turmite and leaves the position as it was. It never sets `active` to true and never changes the orientation or the step. |
| Life.NeighboursMembership | src/gameoflife/cellgrid.rs:145-172 | A position is counted exactly when it is one of the eight cells around `(x, y)`, is inside the grid (its row checked against its own column) and is Active. |
| Life.Rule | src/gameoflife/cellgrid.rs:82-96 | The new cell is Active exactly when an Active cell has 2 or 3 neighbours, or a Passive cell has exactly 3. |
| Life.NextGenerationShape | src/gameoflife/cellgrid.rs:76-109 | One generation keeps the outer length and the length of every column. |
| Life.NextGenerationScannable | src/gameoflife/cellgrid.rs:76-117 | The next generation of a grid the scanner can walk can be walked too. |
| Life.CountCellsSplit | src/gameoflife/cellgrid.rs:102-105 | Every counted cell adds to exactly one of the two counters. |
| Life.PopulationTotal | src/gameoflife/cellgrid.rs:70-114 | Active plus Passive cells equals the total cell count, which is `w * h` for a rectangular grid. |
| Life.AllPassiveStable | src/gameoflife/cellgrid.rs:85-95 | An all-Passive grid is its own next generation. |
| Life.AdvanceStep | src/gameoflife/cellgrid.rs:79-105 | Processing the `k`-th scanned cell writes the rule's result for that cell, computed from the old grid, and counts it. |
| Life.AdvanceEnd | src/gameoflife/cellgrid.rs:76-109 | After the whole scan, the copy is the next generation and the counters are its populations. |
| Life.InitialStateLabel | src/gameoflife/cellgrid.rs:36-64 | "default" and "random-balanced", and only these two, are accepted, and both map to the label "Random [1:1]". |
| Life.GameOfLife.constructor | src/gameoflife/cellgrid.rs:17-26 | A fresh null grid of the given cell size, the given keyword, and all three counters at 0. |
| Life.GameOfLife.Initialize | src/gameoflife/cellgrid.rs:29-65 | Sets the bounds with the 60-pixel banner removed. For an accepted keyword, stores the label and a balanced random grid of `columns` by `rows`. Otherwise it returns an error, with the keyword and the vector unchanged. |
| Life.GameOfLife.ScanVicinity | src/gameoflife/cellgrid.rs:136-179 | The number of Active in-bounds neighbours of `(x, y)`, excluding `(x, y)` itself. It is 0 for a null grid and never more than 8. |
| Life.GameOfLife.Evolve | src/gameoflife/cellgrid.rs:74-110 | The scan of a copy computes exactly the next generation, every cell from the pre-step grid, together with its Active and Passive populations. |
| Life.GameOfLife.Advance | src/gameoflife/cellgrid.rs:68-117 | The generation goes up by 1. With a grid, the grid becomes its next generation and `alive`/`dead` count its cells. Without one, the grid stays null and both counters are 0. The grid left behind can be scanned again, so `advance` can be repeated. |
| Life.GameOfLife.State | src/gameoflife/cellgrid.rs:121-123 | The banner string, in which each counter is rendered as a decimal numeral that reads back as the counter. |
| Life.GameOfLife.Name | src/gameoflife/cellgrid.rs:127-129 | The fixed prefix followed by the initial-state label. |
| Decimals.Decimal | src/gameoflife/cellgrid.rs:122 | `{}` of an unsigned integer: a non-empty run of digits with no leading zero. |
| Decimals.ParseDecimal | src/gameoflife/cellgrid.rs:122 | The numeral reads back as the number. |
| GridIter.IterStep | src/gameoflife/griditer.rs:24-51 | One step from the cursor `(c, r)`: the next row, or row 0 of the next column, or the end; each case names the item. |
| GridIter.FirstItem | src/gameoflife/griditer.rs:24-29 | Started at `(0, 0)` with at least two rows in column 0, the first item is `(0, 1)`, and `(0, 0)` never comes later. |
| GridIter.GridIterator.constructor | src/gameoflife/griditer.rs:7-14 | The iterator holds the given vector and cursors. |
| GridIter.GridIterator.Next | src/gameoflife/griditer.rs:22-52 | Yields the column-major item after the cursor, which is in bounds, carries its cell and is never `(0, 0)`. It returns None exactly at the last row of the last column, resetting the row to 0. Only the cursors change. |
| LifeGrid.Grid.constructor | src/gameoflife/grid.rs:21-27 | Null vector and bounds, with the given size stored. |
| LifeGrid.Grid.Initialize | src/gameoflife/grid.rs:30-56 | `trunc(w/size)` columns of `trunc(h/size)` cells, each `Cell::new` of its draw; both the vector and the bounds become `Some`. |
| LifeGrid.Grid.Clone | src/gameoflife/grid.rs:61-67 | A fresh grid with the same fields. |
| LifeGrid.Grid.IntoIter | src/gameoflife/grid.rs:78-92 | Needs a grid. Returns a fresh iterator over the same vector at `(0, 0)`. |
| RootGrid.Grid.constructor | src/grid.rs:20-27 | Null vector and bounds, the given size, and additive blending. |
| RootGrid.Grid.Initialize | src/grid.rs:30-56 | A rectangular grid of `trunc(w/size)` by `trunc(h/size)` cells; sets the vector and the bounds and leaves the size and the blending mode alone. |
| RootGrid.Grid.Clone | src/grid.rs:61-69 | A fresh grid with all four fields the same. |
| LegacyCellGrid.CellGrid.constructor | src/commons/grids/cellgrid.rs:23-29 | Null vector and bounds, with the given cell size. |
| LegacyCellGrid.CellGrid.SetGrid | src/commons/grids/cellgrid.rs:32-34 | Replaces the vector only. |
| LegacyCellGrid.CellGrid.SetDimensions | src/commons/grids/cellgrid.rs:36-38 | Replaces the bounds only. |
| LegacyCellGrid.GenerateRandomgridBalanced | src/commons/grids/cellgrid.rs:42-66 | A rectangular grid of `trunc(w/cellsize)` columns by `trunc(h/cellsize)` rows of balanced cells. |
| LegacyCellGrid.CellGrid.Clone | src/commons/grids/cellgrid.rs:71-78 | A fresh grid with the same fields. |
| LegacyCellGrid.CellGrid.IntoIter | src/commons/grids/cellgrid.rs:88-102 | Needs a grid. Returns a fresh scanner over the same vector at `(0, 0)`. |
| Langton.LangtonsAnt.constructor | src/langtonsant/cellgrid.rs:14-22 | A fresh null grid, generation 0 and no ant. |
| Langton.LangtonsAnt.State | src/langtonsant/cellgrid.rs:26-28 | "Generation: " followed by `Decimal(generation)`, the shortest decimal numeral of the generation (no leading zero, "0" for 0), which reads back as the generation. |
| Langton.LangtonsAnt.Name | src/langtonsant/cellgrid.rs:32-34 | Always "Langton's Ant". |
| Langton.LangtonsAnt.FullName | src/langtonsant/cellgrid.rs:39-41 | The name, then the fixed separator text, then the initial-state keyword. |

## Left out

- Drawing (the `graphics::Drawable` implementations), the ggez event loops and the simulation drivers: rendering and timing over a library this model does not contain.
- `src/main.rs`: command-line parsing, window setup and process exit.
- The random number generator and its distributions. Every draw is a parameter, and the model says nothing about frequencies.
- Floating-point arithmetic: `w / cellsize` and `(h - 60) / cellsize` cast to `i32` (saturating at the `i32` bounds) are taken as given integers. `Rect` coordinates are exact reals.
- The trait declarations (`SimCell`, `SimGrid`, `Orient`, `Automaton`). `CellGridCore.CellGrid` stays generic in its cell type. The legacy `LegacyCellGrid.CellGrid` and the two balanced grid builders fix the cell type to `BinaryCell`, and `T::balanced()` there is `BinaryCells.Balanced`.
- BinaryCells.Skewed: `skewed` panics on a skew other than "active" or "passive". The model returns `Err(InvalidSkew)` instead, and the panic message is not modelled.
- `src/gameoflife/cell.rs` is not part of this model. The older `GridIterator` and `gameoflife::Grid` use the `Cell` of `src/cell.rs`.
- Langton's Ant has no `advance`, `initialize` or turning logic in the source, so none is modelled.
- `process::exit` in `initialize` becomes the result `Fail(InvalidInitialState)`. The error message on standard error is not modelled.
- Life.GameOfLife.Advance: `generation`, `alive` and `dead` are `u32` in the source and are unbounded here; overflow after 2^32 - 1 generations is not modelled.
- Langton.LangtonsAnt.State: `generation` is a `u32` in the source; unbounded here.
- Turmites.Turmite: `step` is a `u32`; unbounded here, and no code in the source changes it.
- Life.GameOfLife.Advance: it needs a scannable grid, meaning a non-empty outer vector with no empty column after the first, because the scanner would index out of bounds otherwise. `GridScanner::next` panics on an empty outer vector.
