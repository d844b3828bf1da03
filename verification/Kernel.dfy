/** The two transcendental quantities of the adaptive core, given by the laws the proofs need.

    `e12` stands for e^12, the clamp of the logistic curve; `decay` stands for the forgetting
    curve x -> 0.9^x, where x is elapsed time measured in stabilities. */
module Kernels {
  import opened Prelude

  type Exp12 = e: real | 162754.0 < e < 162755.0 witness 162754.5

  /** The secants of f from (0, 1) to x and to y, compared by their slopes without division. */
  ghost predicate Secant(f: real -> real, x: real, y: real) {
    (1.0 - f(y)) * x <= (1.0 - f(x)) * y
  }

  ghost predicate PositiveCurve(f: real -> real) {
    forall x :: 0.0 <= x ==> 0.0 < f(x)
  }

  ghost predicate AntitoneCurve(f: real -> real) {
    forall x, y :: 0.0 <= x <= y ==> f(y) <= f(x)
  }

  ghost predicate ConvexCurve(f: real -> real) {
    forall x, y :: 0.0 < x <= y ==> Secant(f, x, y)
  }

  datatype Kernel = Kernel(e12: Exp12, decay: real -> real) {

    /** Laws of x -> 0.9^x on x >= 0: its values at 0, 1 and 2, positivity, antitony, and
        convexity through the origin ((1 - 0.9^x) / x does not increase). */
    ghost predicate Valid() {
      && decay(0.0) == 1.0 && decay(1.0) == 0.9 && decay(2.0) == 0.81
      && PositiveCurve(decay)
      && AntitoneCurve(decay)
      && ConvexCurve(decay)
    }
  }

  /** A rational curve through the three fixed points of 0.9^x; it shows the laws are consistent. */
  function RationalDecay(x: real): real {
    if x <= 1.0 then 1.0 - 0.1 * x
    else if x <= 2.0 then 0.99 - 0.09 * x
    else 0.81 / (1.0 + (x - 2.0) / 9.0)
  }

  lemma RationalTail(x: real)
    requires x >= 2.0
    ensures RationalDecay(x) * (7.0 + x) == 7.29
    ensures 0.0 < RationalDecay(x) <= 0.81
  {
  }

  lemma RationalAntitone(x: real, y: real)
    requires 0.0 <= x <= y
    ensures RationalDecay(y) <= RationalDecay(x)
  {
  }

  lemma RationalSecantWithin(x: real, y: real)
    requires 0.0 < x <= y
    requires y <= 1.0 || (1.0 <= x && y <= 2.0) || 2.0 <= x
    ensures Secant(RationalDecay, x, y)
  {
    if 2.0 <= x {
      RationalTail(x);
      RationalTail(y);
      var a, b := 1.0 - RationalDecay(x), 1.0 - RationalDecay(y);
      var u, v := 7.0 + x, 7.0 + y;
      assert a * u == x - 0.29 && b * v == y - 0.29;
      if b * x > a * y {
        ScaleLt(a * y, b * x, u * v) by { MulLe(1.0, u, 1.0, v); }
        assert (b * x) * (u * v) == (b * v) * (x * u);
        assert (a * y) * (u * v) == (a * u) * (y * v);
        var gap := x * y - 0.29 * (x + y) - 2.03;
        assert (x - 0.29) * (y * v) - (y - 0.29) * (x * u) == (y - x) * gap;
        assert gap >= 0.0 by {
          MulLe(1.71, x - 0.29, 1.71, y - 0.29);
          assert (x - 0.29) * (y - 0.29) == x * y - 0.29 * (x + y) + 0.0841;
          assert (x - 0.29) * (y - 0.29) >= 2.9241;
        }
        MulLe(0.0, y - x, 0.0, gap);
      }
    }
  }

  lemma SecantStep(a: real, b: real, c: real, x: real, y: real, z: real)
    requires 0.0 < x <= y <= z
    requires b * x <= a * y && c * y <= b * z
    ensures c * x <= a * z
  {
  }

  lemma RationalSecantAlways(x: real, y: real)
    requires 0.0 < x <= y
    ensures Secant(RationalDecay, x, y)
    decreases if x < 1.0 then 2 else if x < 2.0 then 1 else 0
  {
    var m := if x < 1.0 then 1.0 else 2.0;
    if x < m < y {
      RationalSecantWithin(x, m);
      RationalSecantAlways(m, y);
      SecantStep(1.0 - RationalDecay(x), 1.0 - RationalDecay(m), 1.0 - RationalDecay(y), x, m, y);
    } else {
      RationalSecantWithin(x, y);
    }
  }

  /** The laws in Valid are jointly satisfiable, so nothing below is proved from a contradiction. */
  lemma LawsAreConsistent(e12: Exp12)
    ensures Kernel(e12, RationalDecay).Valid()
  {
    RationalIsPositive();
    RationalIsAntitone();
    RationalIsConvex();
  }

  lemma RationalIsPositive()
    ensures PositiveCurve(RationalDecay)
  {
  }

  lemma RationalIsAntitone()
    ensures AntitoneCurve(RationalDecay)
  {
    forall x: real, y: real | 0.0 <= x <= y ensures RationalDecay(y) <= RationalDecay(x) {
      RationalAntitone(x, y);
    }
  }

  lemma RationalIsConvex()
    ensures ConvexCurve(RationalDecay)
  {
    forall x: real, y: real | 0.0 < x <= y ensures Secant(RationalDecay, x, y) {
      RationalSecantAlways(x, y);
    }
  }
}
