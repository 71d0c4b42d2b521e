/** The motion-state classifier of the visual layer (`computeMotionState`): four stress readings
    are stable while none is high (at least 0.65), in tension when exactly one is high and none is
    extreme (at least 0.8), and overloaded otherwise.
 */
module MotionState {

  datatype StressProfile = StressProfile(peopleRisk: real, costPressure: real, executionStrain: real, macroVolatility: real)

  datatype Motion = Stable | Tension | Overload

  const High: real := 0.65
  const Extreme: real := 0.8

  /** `Object.values(stress)`. */
  function Readings(s: StressProfile): seq<real>
  {
    [s.peopleRisk, s.costPressure, s.executionStrain, s.macroVolatility]
  }

  /** `values.filter((v) => v >= 0.65).length`. */
  function HighCount(values: seq<real>): (n: nat)
    ensures n <= |values|
    ensures n == 0 <==> forall i :: 0 <= i < |values| ==> values[i] < High
    decreases |values|
  {
    if values == [] then 0 else (if values[0] >= High then 1 else 0) + HighCount(values[1..])
  }

  /** `Math.max(...values)`. */
  function MaxOf(values: seq<real>): (m: real)
    requires values != []
    ensures m in values
    ensures forall i :: 0 <= i < |values| ==> values[i] <= m
    decreases |values|
  {
    if |values| == 1 then values[0]
    else
      var rest := MaxOf(values[1..]);
      if values[0] >= rest then values[0] else rest
  }

  /** `computeMotionState`. */
  function ComputeMotionState(s: StressProfile): (m: Motion)
    ensures m == Overload <==> HighCount(Readings(s)) >= 2 || exists i :: 0 <= i < 4 && Readings(s)[i] >= Extreme
    ensures m == Tension <==> HighCount(Readings(s)) == 1 && forall i :: 0 <= i < 4 ==> Readings(s)[i] < Extreme
    ensures m == Stable <==> forall i :: 0 <= i < 4 ==> Readings(s)[i] < High
  {
    var values := Readings(s);
    var highStressCount := HighCount(values);
    var maxStress := MaxOf(values);
    if highStressCount >= 2 || maxStress >= Extreme then Overload
    else if highStressCount == 1 then Tension
    else Stable
  }

  function Level(m: Motion): nat
  {
    match m
    case Stable => 0
    case Tension => 1
    case Overload => 2
  }

  /** Raising readings never lowers the count of high ones. */
  lemma {:induction false} HighCountMonotone(xs: seq<real>, ys: seq<real>)
    requires |xs| == |ys|
    requires forall i :: 0 <= i < |xs| ==> xs[i] <= ys[i]
    ensures HighCount(xs) <= HighCount(ys)
    decreases |xs|
  {
    if xs != [] {
      HighCountMonotone(xs[1..], ys[1..]);
    }
  }

  /** Raising any stress reading never calms the state. */
  lemma MotionMonotone(s: StressProfile, t: StressProfile)
    requires s.peopleRisk <= t.peopleRisk && s.costPressure <= t.costPressure
    requires s.executionStrain <= t.executionStrain && s.macroVolatility <= t.macroVolatility
    ensures Level(ComputeMotionState(s)) <= Level(ComputeMotionState(t))
  {
    HighCountMonotone(Readings(s), Readings(t));
  }

  /** One extreme reading alone overloads the system. */
  lemma ExtremeReadingOverloads(s: StressProfile)
    requires s.costPressure >= Extreme
    ensures ComputeMotionState(s) == Overload
  {
    assert Readings(s)[1] >= Extreme;
  }
}
