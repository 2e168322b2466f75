/** The oldest two-state cell (src/cell.rs): `Dead` or `Alive`, built from an
    integer by its remainder modulo 3. */
module Cells {

  datatype Cell = Dead | Alive

  const I32Min: int := -0x8000_0000
  const I32Max: int := 0x7FFF_FFFF

  /** Rust's `/` on integers: the quotient is truncated toward zero. */
  function RustDiv(a: int, b: int): int
    requires b > 0
  {
    if a >= 0 then a / b else -((-a) / b)
  }

  /** Rust's `%` on integers: what is left of `a` after the truncated
      quotient, so the remainder takes the sign of the dividend (Dafny's `%`
      is Euclidean, so it is written out). */
  function RustRem(a: int, b: int): (r: int)
    requires b > 0
    ensures a == RustDiv(a, b) * b + r
    ensures a >= 0 ==> 0 <= r < b
    ensures a < 0 ==> -b < r <= 0
  {
    if a >= 0 then
      assert a == (a / b) * b + a % b;
      a % b
    else
      assert -a == ((-a) / b) * b + (-a) % b;
      -((-a) % b)
  }

  /** `From<i32>`: Alive exactly when `i` is divisible by 3, for negative `i` too. */
  function FromInt(i: int): (cell: Cell)
    requires I32Min <= i <= I32Max
    ensures cell == Alive <==> i % 3 == 0
  {
    match RustRem(i, 3)
    case 0 => Alive
    case _ => Dead
  }

  /** The conversion only depends on the residue modulo 3. */
  lemma FromIntPeriodic(i: int)
    requires I32Min <= i && i + 3 <= I32Max
    ensures FromInt(i) == FromInt(i + 3)
  {
  }

  /** `new`: the draw comes from `0..10`, so the cell is Alive for the draws 0, 3, 6 and 9. */
  function New(draw: int): (cell: Cell)
    requires 0 <= draw < 10
    ensures cell == Alive <==> draw in {0, 3, 6, 9}
  {
    FromInt(draw)
  }

  /** A draw from `0..10` for every cell of an `outer` by `inner` grid, as
      `draws[x][y]`. */
  predicate CellDraws(draws: seq<seq<int>>, outer: nat, inner: nat) {
    |draws| >= outer &&
    forall x :: 0 <= x < outer ==>
      |draws[x]| >= inner && forall y :: 0 <= y < inner ==> 0 <= draws[x][y] < 10
  }

  /** `clone` returns the same variant. */
  function Clone(cell: Cell): (copy: Cell)
    ensures copy == cell
  {
    match cell
    case Dead => Dead
    case Alive => Alive
  }
}
