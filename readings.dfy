/**
 * The verbal readings the feature calculators attach to a value: a
 * five-step grade picked by the first of four descending thresholds the
 * value exceeds, and a three-way tilt of a difference against a
 * symmetric bound. The wording itself is not modelled.
 */
module Readings {

  /** A five-step reading, from the weakest to the strongest. */
  datatype Grade = VeryWeak | Weak | Balanced | Strong | VeryStrong {
    function Rank(): (r: nat)
      ensures r <= 4
      ensures r == 0 <==> this == VeryWeak
      ensures r == 4 <==> this == VeryStrong
    {
      match this
      case VeryWeak => 0
      case Weak => 1
      case Balanced => 2
      case Strong => 3
      case VeryStrong => 4
    }
  }

  /** The first of `x > top`, `x > high`, `x > low`, `x > bottom` that holds picks the grade. */
  function GradeOf(x: real, top: real, high: real, low: real, bottom: real): (g: Grade)
    ensures g == VeryStrong <==> x > top
    ensures g == Strong <==> !(x > top) && x > high
    ensures g == Balanced <==> !(x > top) && !(x > high) && x > low
    ensures g == Weak <==> !(x > top) && !(x > high) && !(x > low) && x > bottom
    ensures g == VeryWeak <==> !(x > top) && !(x > high) && !(x > low) && !(x > bottom)
  {
    if x > top then VeryStrong
    else if x > high then Strong
    else if x > low then Balanced
    else if x > bottom then Weak
    else VeryWeak
  }

  /** With descending thresholds, a larger value never gets a weaker grade. */
  lemma GradeMonotone(x: real, y: real, top: real, high: real, low: real, bottom: real)
    requires top >= high >= low >= bottom
    requires x <= y
    ensures GradeOf(x, top, high, low, bottom).Rank() <= GradeOf(y, top, high, low, bottom).Rank()
  {
  }

  /** Which way a difference leans against a symmetric dead band. */
  datatype Tilt = Above | Below | Level

  /** `d > bound` reads Above, then `d < -bound` reads Below, and anything else Level. */
  function TiltOf(d: real, bound: real): (t: Tilt)
    ensures t == Above <==> d > bound
    ensures t == Below <==> !(d > bound) && d < -bound
    ensures t == Level <==> !(d > bound) && !(d < -bound)
  {
    if d > bound then Above
    else if d < -bound then Below
    else Level
  }

  /** With a non-negative bound, swapping the sides of a difference swaps Above and Below. */
  lemma TiltNegate(d: real, bound: real)
    requires bound >= 0.0
    ensures TiltOf(-d, bound) == match TiltOf(d, bound) case Above => Below case Below => Above case Level => Level
  {
  }
}
