/** The traffic-light classifier of the KPI derivation (`classify_status`): a value at or under
    the green bound is green, at or under the amber bound amber, and red above both. With `invert`
    the value is read as a percentage where lower is worse, so its complement to 100 is classified.
 */
module KpiStatus {

  datatype Status = Green | Amber | Red

  /** Green is best. */
  function Severity(s: Status): nat
  {
    match s
    case Green => 0
    case Amber => 1
    case Red => 2
  }

  /** `classify_status`. */
  function ClassifyStatus(value: real, green: real, amber: real, invert: bool): (s: Status)
    ensures
      var v := if invert then 100.0 - value else value;
      && (s == Green <==> v <= green)
      && (s == Amber <==> green < v <= amber)
      && (s == Red <==> green < v && amber < v)
  {
    var v := if invert then 100.0 - value else value;
    if v <= green then Green
    else if v <= amber then Amber
    else Red
  }

  /** A larger value is never classified better than a smaller one. */
  lemma StatusMonotone(v1: real, v2: real, green: real, amber: real)
    requires v1 <= v2
    ensures Severity(ClassifyStatus(v1, green, amber, false)) <= Severity(ClassifyStatus(v2, green, amber, false))
  {
  }

  /** With `invert` the order turns round: a smaller value is never classified better. */
  lemma InvertedStatusMonotone(v1: real, v2: real, green: real, amber: real)
    requires v1 <= v2
    ensures Severity(ClassifyStatus(v2, green, amber, true)) <= Severity(ClassifyStatus(v1, green, amber, true))
  {
  }

  /** When the amber bound does not exceed the green one, nothing is ever amber. */
  lemma NoAmberBand(value: real, green: real, amber: real, invert: bool)
    requires amber <= green
    ensures ClassifyStatus(value, green, amber, invert) != Amber
  {
  }
}
