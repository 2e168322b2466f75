/** The Langton's Ant automaton shell (src/langtonsant/cellgrid.rs): a null
    grid, the initial-state keyword, a generation counter and an optional
    turmite, with the strings shown in the banner. */
module Langton {
  import opened Options
  import opened BinaryCells
  import opened CellGridCore
  import opened Turmites
  import opened Decimals

  class LangtonsAnt {
    const grid: CellGrid<BinaryCell>
    const cellsize: real
    var initialstate: string
    var generation: nat
    var ant: Option<Turmite>

    /** `Automaton::new`: a null grid of the given cell size, generation 0 and no ant. */
    constructor (initialstate: string, cellsize: real)
      ensures fresh(grid)
      ensures grid.cellsize == cellsize && grid.vector == None && grid.dimensions == None
      ensures this.initialstate == initialstate && this.cellsize == cellsize
      ensures generation == 0 && ant == None
    {
      grid := new CellGrid(cellsize);
      this.initialstate := initialstate;
      this.cellsize := cellsize;
      generation := 0;
      ant := None;
    }

    /** `state`: "Generation: " followed by the shortest decimal numeral of
        the generation, which reads back as the counter. */
    function State(): (s: string)
      reads this
      ensures |s| > 12 && s[..12] == "Generation: "
      ensures s[12..] == Decimal(generation)
      ensures AllDigits(s[12..]) && Parse(s[12..]) == generation
    {
      var s := "Generation: " + Decimal(generation);
      assert s[12..] == Decimal(generation);
      ParseDecimal(generation);
      s
    }

    /** `name`: always "Langton's Ant". */
    function Name(): (s: string)
      ensures s == "Langton's Ant"
    {
      "Langton's Ant"
    }

    /** `fullname`: the name, then " | Grid | " and the initial-state keyword. */
    function FullName(): (s: string)
      reads this
      ensures |s| >= |Name()| && s[..|Name()|] == Name()
      ensures s[|Name()|..] == " | Grid | " + initialstate
    {
      "Langton's Ant | Grid | " + initialstate
    }
  }
}
