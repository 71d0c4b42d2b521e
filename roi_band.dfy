/** The ROI helpers of the simulation page: the return multiple of a simulated initiative, the
    band it falls in, and the colour each band is drawn in.
 */
module RoiBand {

  datatype Band = ValueCreating | Accretive | Marginal | ValueEroding | CapitalDestructive

  /** `getROIMultiple`: a zero cost gives a multiple of 0 rather than a division. */
  function GetRoiMultiple(benefit: real, cost: real): (r: real)
    ensures cost == 0.0 ==> r == 0.0
    ensures cost != 0.0 ==> r * cost == benefit
  {
    if cost == 0.0 then 0.0 else benefit / cost
  }

  /** `getROIBand`. */
  function GetRoiBand(multiple: real): (b: Band)
    ensures b == ValueCreating <==> multiple >= 3.0
    ensures b == Accretive <==> 2.0 <= multiple < 3.0
    ensures b == Marginal <==> 1.2 <= multiple < 2.0
    ensures b == ValueEroding <==> 1.0 <= multiple < 1.2
    ensures b == CapitalDestructive <==> multiple < 1.0
  {
    if multiple >= 3.0 then ValueCreating
    else if multiple >= 2.0 then Accretive
    else if multiple >= 1.2 then Marginal
    else if multiple >= 1.0 then ValueEroding
    else CapitalDestructive
  }

  /** Bands from worst to best. */
  function Standing(b: Band): nat
  {
    match b
    case CapitalDestructive => 0
    case ValueEroding => 1
    case Marginal => 2
    case Accretive => 3
    case ValueCreating => 4
  }

  /** A larger multiple never falls in a worse band. */
  lemma BandMonotone(m1: real, m2: real)
    requires m1 <= m2
    ensures Standing(GetRoiBand(m1)) <= Standing(GetRoiBand(m2))
  {
  }

  /** `getBandColor`: every band has its own colour, a six-digit hex code. */
  function GetBandColor(b: Band): (c: string)
    ensures |c| == 7 && c[0] == '#'
    ensures forall i :: 1 <= i < 7 ==> c[i] in "0123456789abcdef"
  {
    match b
    case ValueCreating => "#1b5e20"
    case Accretive => "#2e7d32"
    case Marginal => "#f9a825"
    case ValueEroding => "#ef6c00"
    case CapitalDestructive => "#b71c1c"
  }

  /** No two bands share a colour. */
  lemma ColoursDistinct(b1: Band, b2: Band)
    requires b1 != b2
    ensures GetBandColor(b1) != GetBandColor(b2)
  {
  }
}
