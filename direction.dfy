/** The older four-way compass (src/commons/direction.rs).
    Each variant carries the discriminant the source gives it; rotations move
    along the cycle North -> East -> South -> West -> North. */
module Orientation {

  datatype Direction = North | East | South | West

  /** The enum discriminant: North = 0, East = 1, South = 2, West = 3. */
  function Ordinal(d: Direction): (i: int)
    ensures 0 <= i <= 3
  {
    match d
    case North => 0
    case East => 1
    case South => 2
    case West => 3
  }

  /** `From<i32>`: total on 0..=3 (any other value panics) and the inverse of `Ordinal`. */
  function FromInt(i: int): (d: Direction)
    requires 0 <= i <= 3
    ensures Ordinal(d) == i
  {
    match i
    case 0 => North
    case 1 => East
    case 2 => South
    case 3 => West
  }

  /** `random`: the draw comes from `0..=3`, which always meets the precondition of `FromInt`. */
  function Random(draw: int): (d: Direction)
    requires 0 <= draw <= 3
    ensures Ordinal(d) == draw
  {
    FromInt(draw)
  }

  /** `turn_right`: one step clockwise along the cycle. */
  function TurnRight(d: Direction): (r: Direction)
    ensures Ordinal(r) == (Ordinal(d) + 1) % 4
  {
    match d
    case North => East
    case East => South
    case South => West
    case West => North
  }

  /** `turn_left`: one step counter-clockwise along the cycle. */
  function TurnLeft(d: Direction): (r: Direction)
    ensures Ordinal(r) == (Ordinal(d) + 3) % 4
  {
    match d
    case North => West
    case East => North
    case South => East
    case West => South
  }

  /** `turn_around`: two steps along the cycle. */
  function TurnAround(d: Direction): (r: Direction)
    ensures Ordinal(r) == (Ordinal(d) + 2) % 4
  {
    match d
    case North => South
    case East => West
    case South => North
    case West => East
  }

  /** `clone` returns the same variant. */
  function Clone(d: Direction): (copy: Direction)
    ensures copy == d
  {
    match d
    case North => North
    case East => East
    case South => South
    case West => West
  }

  /** Distinct orientations have distinct discriminants. */
  lemma OrdinalInjective(a: Direction, b: Direction)
    requires Ordinal(a) == Ordinal(b)
    ensures a == b
  {
  }

  /** Left and right turns undo each other. */
  lemma TurnsInverse(d: Direction)
    ensures TurnLeft(TurnRight(d)) == d
    ensures TurnRight(TurnLeft(d)) == d
  {
    OrdinalInjective(TurnLeft(TurnRight(d)), d);
    OrdinalInjective(TurnRight(TurnLeft(d)), d);
  }

  /** Turning around is two right turns, and undoes itself; four right turns are the identity. */
  lemma TurnAroundProperties(d: Direction)
    ensures TurnAround(d) == TurnRight(TurnRight(d))
    ensures TurnAround(TurnAround(d)) == d
    ensures TurnRight(TurnRight(TurnRight(TurnRight(d)))) == d
  {
    OrdinalInjective(TurnAround(d), TurnRight(TurnRight(d)));
    OrdinalInjective(TurnAround(TurnAround(d)), d);
    OrdinalInjective(TurnRight(TurnRight(TurnRight(TurnRight(d)))), d);
  }
}
