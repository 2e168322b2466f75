/** The two-state cell of the newer automata (src/commons/binarycell.rs).
    Random construction takes the drawn integer as a parameter. */
module BinaryCells {

  datatype BinaryCell = Passive | Active

  /** The reason `skewed` refuses its skew argument. */
  datatype SkewError = InvalidSkew

  /** `balanced`: the draw comes from `0..=1`; 0 gives Passive, 1 gives Active. */
  function Balanced(draw: int): (cell: BinaryCell)
    requires 0 <= draw <= 1
    ensures cell == Passive <==> draw == 0
    ensures cell == Active <==> draw == 1
  {
    match draw
    case 0 => Passive
    case _ => Active
  }

  /** `skewed`: the draw comes from `0..=bias` (`bias` is an `i8`, so the range is
      non-empty only for `bias >= 0`). A draw of 0 gives the disfavoured state,
      any other draw the favoured one; a skew other than "active" or "passive"
      is an error (a panic in the source). */
  function Skewed(skew: string, bias: int, draw: int): (r: Result)
    requires -128 <= bias <= 127
    requires 0 <= draw <= bias
    ensures r.Ok? <==> skew == "active" || skew == "passive"
    ensures skew == "active" ==> (r.cell == Passive <==> draw == 0)
    ensures skew == "passive" ==> (r.cell == Active <==> draw == 0)
  {
    match skew
    case "active" => (match draw case 0 => Ok(Passive) case _ => Ok(Active))
    case "passive" => (match draw case 0 => Ok(Active) case _ => Ok(Passive))
    case _ => Err(InvalidSkew)
  }

  datatype Result = Ok(cell: BinaryCell) | Err(error: SkewError)

  /** With a bias of 1 the two possible draws give one state each, whatever the
      skew: the same split as `balanced`, swapped for a passive skew. */
  lemma SkewedBiasOne(skew: string, draw: int)
    requires skew == "active" || skew == "passive"
    requires 0 <= draw <= 1
    ensures skew == "active" ==> Skewed(skew, 1, draw) == Ok(Balanced(draw))
    ensures skew == "passive" ==> Skewed(skew, 1, draw) == Ok(Balanced(1 - draw))
    ensures Skewed(skew, 1, 0).cell != Skewed(skew, 1, 1).cell
  {
  }

  /** `clone` returns the same variant. */
  function Clone(cell: BinaryCell): (copy: BinaryCell)
    ensures copy == cell
  {
    match cell
    case Passive => Passive
    case Active => Active
  }
}
