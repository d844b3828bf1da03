/** Rasch / 1PL ability model. The logistic of a difference of logits is written in odds form:
    sigmoid(logit a - logit d) = o / (1 + o) with o = odds(a) / odds(d), and the clamp of the
    exponent to [-12, 12] becomes a clamp of o to [1 / e^12, e^12]. */
module Irt {
  import opened Prelude
  import opened Kernels

  const LEARNING_RATE := 0.22

  datatype IrtResult = IrtResult(predictedSuccess: real, ability: real, itemDifficulty: real)

  function Bounded(value: real): (b: real)
    ensures 0.001 <= b <= 0.999
  {
    Min(0.999, Max(0.001, value))
  }

  function Odds(value: real): (o: real)
    ensures 0.0 < o
  {
    var b := Bounded(value);
    assert b / (1.0 - b) > 0.0 by { DivLe(b, 0.0, 1.0 - b); }
    b / (1.0 - b)
  }

  function ClampedOdds(k: Kernel, odds: real): (c: real)
    ensures 0.0 < c
  {
    Min(k.e12, Max(1.0 / k.e12, odds))
  }

  function LogitProbability(k: Kernel, odds: real): real {
    var c := ClampedOdds(k, odds);
    c / (1.0 + c)
  }

  function PredictSuccess(k: Kernel, ability: real, difficulty: real): real {
    LogitProbability(k, Odds(ability) / Odds(difficulty))
  }

  function Reliability(independent: bool, hints: nat, retries: nat): real {
    (if independent then 1.0 else 0.55)
    * Max(0.25, 1.0 - MinNat(hints, 4) as real * 0.12 - MinNat(retries, 3) as real * 0.1)
  }

  function Clip(value: real): (c: real)
    ensures 0.0 <= c <= 1.0
  {
    Min(1.0, Max(0.0, value))
  }

  /** The ability after moving by a weighted prediction error, clipped to the unit interval. */
  function Moved(ability: real, reliability: real, error: real): real {
    Clip(ability + LEARNING_RATE * reliability * error)
  }

  function UpdateAbility(k: Kernel, ability: real, outcome: real, difficulty: real,
                         independent: bool, hints: nat, retries: nat): IrtResult
  {
    var predicted := PredictSuccess(k, ability, difficulty);
    var reliability := Reliability(independent, hints, retries);
    var updated := Moved(ability, reliability, outcome - predicted);
    IrtResult(PredictSuccess(k, updated, difficulty), updated, difficulty)
  }

  // ----- shape of the success curve -----

  /** c / (1 + c) is strictly increasing on positive c. */
  lemma ShareMonotone(c: real, d: real)
    requires 0.0 < c <= d
    ensures c / (1.0 + c) <= d / (1.0 + d)
  {
  }

  /** Complementary odds share the unit interval: c/(1+c) + c'/(1+c') = 1 when c * c' = 1. */
  lemma ShareComplement(c: real, d: real)
    requires 0.0 < c && 0.0 < d && c * d == 1.0
    ensures c / (1.0 + c) + d / (1.0 + d) == 1.0
  {
  }

  lemma RatioMonotone(a: real, b: real, c: real, d: real)
    requires 0.0 < a <= c && 0.0 < d <= b
    ensures a / b <= c / d
  {
  }

  lemma OddsMonotone(a: real, b: real)
    requires a <= b
    ensures Odds(a) <= Odds(b)
  {
    RatioMonotone(Bounded(a), 1.0 - Bounded(a), Bounded(b), 1.0 - Bounded(b));
  }

  lemma RatioReciprocal(x: real, y: real)
    requires 0.0 < x && 0.0 < y
    ensures 0.0 < x / y && 0.0 < y / x && (x / y) * (y / x) == 1.0
  {
  }

  lemma ClampReciprocal(k: Kernel, o: real, u: real)
    requires 0.0 < o && 0.0 < u && o * u == 1.0
    ensures ClampedOdds(k, o) * ClampedOdds(k, u) == 1.0
  {
  }

  /** Success stays strictly between 0 and 1, within the bounds of the clamped exponent. */
  lemma PredictRange(k: Kernel, ability: real, difficulty: real)
    ensures 0.0 < PredictSuccess(k, ability, difficulty) < 1.0
    ensures 1.0 / (1.0 + k.e12) <= PredictSuccess(k, ability, difficulty) <= k.e12 / (1.0 + k.e12)
  {
    var e: real := k.e12;
    var low := 1.0 / e;
    assert low * e == 1.0;
    var c := ClampedOdds(k, Odds(ability) / Odds(difficulty));
    assert low <= c <= e by { if low > e { ScaleLt(e, low, e); MulLe(1.0, e, 1.0, e); } }
    ShareMonotone(c, e);
    ShareMonotone(low, c);
    assert low / (1.0 + low) == 1.0 / (1.0 + e) by {
      var q := 1.0 / (1.0 + e);
      assert q * (1.0 + e) == 1.0;
      assert q * (1.0 + low) == low by { assert q * (1.0 + e) * low == low; assert (1.0 + e) * low == low + 1.0; }
      DivLe(low, q, 1.0 + low);
    }
    DivLe(1.0, 0.0, 1.0 + e);
    DivLe(e, 1.0, 1.0 + e);
  }

  /** Success is weakly increasing in ability and weakly decreasing in difficulty. */
  lemma PredictMonotone(k: Kernel, a: real, d: real, a': real, d': real)
    requires a <= a' && d' <= d
    ensures PredictSuccess(k, a, d) <= PredictSuccess(k, a', d')
  {
    OddsMonotone(a, a');
    OddsMonotone(d', d);
    RatioMonotone(Odds(a), Odds(d), Odds(a'), Odds(d'));
    ShareMonotone(ClampedOdds(k, Odds(a) / Odds(d)), ClampedOdds(k, Odds(a') / Odds(d')));
  }

  /** Exchanging learner and item exchanges success and failure; evenly matched means one half. */
  lemma PredictSymmetric(k: Kernel, a: real, d: real)
    ensures PredictSuccess(k, a, d) + PredictSuccess(k, d, a) == 1.0
    ensures PredictSuccess(k, a, a) == 0.5
  {
    var x, y := Odds(a), Odds(d);
    RatioReciprocal(x, y);
    ClampReciprocal(k, x / y, y / x);
    ShareComplement(ClampedOdds(k, x / y), ClampedOdds(k, y / x));
    EvenlyMatched(k, a);
  }

  lemma EvenlyMatched(k: Kernel, a: real)
    ensures PredictSuccess(k, a, a) == 0.5
  {
    assert Odds(a) / Odds(a) == 1.0;
    assert 1.0 / k.e12 <= 1.0 by { DivLe(1.0, 1.0, k.e12); }
  }

  /** Against an item of middle difficulty the prediction is the (bounded) ability itself. */
  lemma PredictAtHalf(k: Kernel, a: real)
    ensures PredictSuccess(k, a, 0.5) == Bounded(a)
  {
  }

  lemma LogitOdds(value: real)
    ensures Odds(value) * (1.0 - Bounded(value)) == Bounded(value)
  {
  }

  function Against(x: real, z: real): real {
    x * (1.0 - z)
  }

  /** Success and failure are to each other as x (1 - z) is to z (1 - x), as long as that ratio stays
      within the clamp e; beyond it they are as e to 1, or as 1 to e. */
  ghost predicate AsOdds(e: real, p: real, x: real, z: real) {
    var won, lost := Against(x, z), Against(z, x);
    && (won <= e * lost && lost <= e * won ==> p * (won + lost) == won)
    && (won > e * lost ==> p * (1.0 + e) == e)
    && (lost > e * won ==> p * (1.0 + e) == 1.0)
  }

  /** The Rasch law, for the ability and difficulty kept within 0.001 and 0.999. */
  lemma RaschLaw(k: Kernel, ability: real, difficulty: real)
    ensures AsOdds(k.e12, PredictSuccess(k, ability, difficulty),
                   Min(0.999, Max(0.001, ability)), Min(0.999, Max(0.001, difficulty)))
  {
    LogitOdds(ability);
    LogitOdds(difficulty);
    var x, z := Bounded(ability), Bounded(difficulty);
    hide Odds, LogitProbability, AsOdds;
    ClampedRatio(k, x, z, Odds(ability), Odds(difficulty));
  }

  lemma ClampedRatio(k: Kernel, x: real, z: real, u: real, v: real)
    requires 0.0 < x < 1.0 && 0.0 < z < 1.0 && 0.0 < u && 0.0 < v
    requires u * (1.0 - x) == x && v * (1.0 - z) == z
    ensures AsOdds(k.e12, LogitProbability(k, u / v), x, z)
  {
    hide ClampedOdds, LogitProbability, Against;
    var c := u / v;
    assert c * v == u;
    RatioOfShares(x, z, u, v, c);
    ShareByRatio(k, c, Against(x, z), Against(z, x));
  }

  lemma ShareByRatio(k: Kernel, c: real, won: real, lost: real)
    requires 0.0 < won && 0.0 < lost && c * lost == won
    ensures 0.0 < c
    ensures var p := LogitProbability(k, c);
      && (won <= k.e12 * lost && lost <= k.e12 * won ==> p * (won + lost) == won)
      && (won > k.e12 * lost ==> p * (1.0 + k.e12) == k.e12)
      && (lost > k.e12 * won ==> p * (1.0 + k.e12) == 1.0)
  {
    hide ClampedOdds, LogitProbability;
    RatioAgainst(c, lost, won, k.e12);
    ShareOfClamped(k, c, won, lost);
  }

  lemma RatioOfShares(x: real, z: real, u: real, v: real, c: real)
    requires 0.0 < x < 1.0 && 0.0 < z < 1.0
    requires c * v == u && u * (1.0 - x) == x && v * (1.0 - z) == z
    ensures c * Against(z, x) == Against(x, z)
    ensures 0.0 < Against(z, x) && 0.0 < Against(x, z)
  {
    PositiveProduct(x, 1.0 - z);
    PositiveProduct(z, 1.0 - x);
    Regrouped(c, v, 1.0 - z, 1.0 - x);
    var odds := c * v;
    assert odds * (1.0 - x) == x;
  }

  lemma PositiveProduct(a: real, b: real)
    requires 0.0 < a && 0.0 < b
    ensures 0.0 < a * b
  {
  }

  lemma Regrouped(a: real, b: real, c: real, d: real)
    ensures a * ((b * c) * d) == ((a * b) * d) * c
  {
  }

  lemma RatioAgainst(c: real, lost: real, won: real, e: real)
    requires 0.0 < lost && 0.0 < won && 1.0 < e && c * lost == won
    ensures 0.0 < c
    ensures c <= e <==> won <= e * lost
    ensures 1.0 <= e * c <==> lost <= e * won
  {
    assert 0.0 < c by { if c <= 0.0 { ScaleLe(c, 0.0, lost); } }
    if c <= e { ScaleLe(c, e, lost); } else { ScaleLt(e, c, lost); }
    assert e * won == (e * c) * lost;
    if 1.0 <= e * c { ScaleLe(1.0, e * c, lost); } else { ScaleLt(e * c, 1.0, lost); }
  }

  lemma ShareOfClamped(k: Kernel, c: real, won: real, lost: real)
    requires 0.0 < c && 0.0 < lost && c * lost == won
    ensures var p, e := LogitProbability(k, c), k.e12 as real;
      && (c <= e && 1.0 <= e * c ==> p * (won + lost) == won)
      && (c > e ==> p * (1.0 + e) == e)
      && (e * c < 1.0 ==> p * (1.0 + e) == 1.0)
  {
    var e: real := k.e12;
    var low := 1.0 / e;
    assert low * e == 1.0 && low < 1.0 by { DivLe(1.0, 1.0, e); }
    assert 1.0 <= e * c <==> low <= c by { DivLe(1.0, c, e); }
    var b := ClampedOdds(k, c);
    var p := LogitProbability(k, c);
    assert p * (1.0 + b) == b;
    if e * c < 1.0 {
      assert b == low;
      assert p * (1.0 + low) * e == low * e;
      assert p * (1.0 + low) * e == p * (e + low * e);
    } else if c <= e {
      assert b == c;
      assert p * (1.0 + c) * lost == c * lost;
      assert p * (1.0 + c) * lost == p * (lost + c * lost);
    }
  }

  // ----- shape of one update -----

  lemma ReliabilityRange(independent: bool, hints: nat, retries: nat)
    ensures 0.1375 <= Reliability(independent, hints, retries) <= 1.0
  {
  }

  /** The weight of an attempt: 1 unaided, each of the first four hints costs 0.12 and each of the first
      three retries 0.1, but a quarter always stays; without independence 0.55 of that. */
  lemma ReliabilityExactly(hints: nat, retries: nat)
    ensures var w := Reliability(true, hints, retries);
      && Reliability(true, 0, 0) == 1.0
      && Reliability(false, hints, retries) == 0.55 * w
      && (hints <= 4 && retries <= 3 && hints + retries < 7 ==> w == 1.0 - 0.12 * hints as real - 0.1 * retries as real)
      && (hints >= 4 && retries >= 3 ==> w == 0.25)
      && (hints > 4 ==> w == Reliability(true, 4, retries))
      && (retries > 3 ==> w == Reliability(true, hints, 3))
  {
  }

  /** On a middle item an attempt moves the ability to a weighted average of itself and the outcome. */
  lemma MiddleItemAverages(k: Kernel, ability: real, outcome: real, independent: bool, hints: nat, retries: nat)
    requires 0.001 <= ability <= 0.999 && 0.0 <= outcome <= 1.0
    ensures var v := 0.22 * Reliability(independent, hints, retries);
      UpdateAbility(k, ability, outcome, 0.5, independent, hints, retries).ability == (1.0 - v) * ability + v * outcome
  {
    ReliabilityRange(independent, hints, retries);
    PredictAtHalf(k, ability);
    var v := 0.22 * Reliability(independent, hints, retries);
    hide PredictSuccess, Reliability;
    AverageInRange(ability, outcome, v);
  }

  lemma AverageInRange(a: real, b: real, v: real)
    requires 0.0 <= a <= 1.0 && 0.0 <= b <= 1.0 && 0.0 <= v <= 1.0
    ensures 0.0 <= a + v * (b - a) <= 1.0 && a + v * (b - a) == (1.0 - v) * a + v * b
  {
    MulLe(0.0, 1.0 - v, 0.0, a);
    MulLe(0.0, v, 0.0, b);
    MulLe(0.0, 1.0 - v, 0.0, 1.0 - a);
    MulLe(0.0, v, 0.0, 1.0 - b);
  }

  /** More hints or retries, or losing independence, never raises the weight of an attempt. */
  lemma ReliabilityAntitone(i: bool, h: nat, r: nat, i': bool, h': nat, r': nat)
    requires i' ==> i
    requires h <= h' && r <= r'
    ensures Reliability(i', h', r') <= Reliability(i, h, r)
  {
  }

  /** A better outcome on the same attempt never gives a lower updated ability. */
  lemma UpdateMonotoneInOutcome(k: Kernel, ability: real, outcome: real, outcome': real, difficulty: real,
                                independent: bool, hints: nat, retries: nat)
    requires outcome <= outcome'
    ensures UpdateAbility(k, ability, outcome, difficulty, independent, hints, retries).ability
         <= UpdateAbility(k, ability, outcome', difficulty, independent, hints, retries).ability
  {
    ReliabilityRange(independent, hints, retries);
    var p := PredictSuccess(k, ability, difficulty);
    MovedMonotone(ability, Reliability(independent, hints, retries), outcome - p, outcome' - p);
  }

  lemma MovedMonotone(a: real, w: real, e: real, e': real)
    requires 0.0 <= w && e <= e'
    ensures Moved(a, w, e) <= Moved(a, w, e')
  {
    ScaleLe(e, e', LEARNING_RATE * w);
  }

  ghost predicate Between(x: real, lo: real, hi: real) {
    lo <= x <= hi || hi <= x <= lo
  }

  /** More help only pulls the update towards the old ability; it never reverses or enlarges it. */
  lemma HelpShrinksUpdate(k: Kernel, ability: real, outcome: real, difficulty: real,
                          i: bool, h: nat, r: nat, i': bool, h': nat, r': nat)
    requires 0.0 <= ability <= 1.0
    requires i' ==> i
    requires h <= h' && r <= r'
    ensures Between(UpdateAbility(k, ability, outcome, difficulty, i', h', r').ability,
                    ability,
                    UpdateAbility(k, ability, outcome, difficulty, i, h, r).ability)
  {
    ReliabilityRange(i, h, r);
    ReliabilityRange(i', h', r');
    ReliabilityAntitone(i, h, r, i', h', r');
    MovedShrinks(ability, Reliability(i, h, r), Reliability(i', h', r'),
                 outcome - PredictSuccess(k, ability, difficulty));
  }

  lemma MovedShrinks(a: real, w: real, w': real, e: real)
    requires 0.0 <= a <= 1.0 && 0.0 <= w' <= w
    ensures Between(Moved(a, w', e), a, Moved(a, w, e))
  {
    var v, v' := LEARNING_RATE * w, LEARNING_RATE * w';
    WeightedOrder(v, v', e);
    ClipKeepsBetween(a, v * e, v' * e);
  }

  lemma ClipKeepsBetween(a: real, d: real, d': real)
    requires 0.0 <= a <= 1.0
    requires 0.0 <= d' <= d || d <= d' <= 0.0
    ensures Between(Clip(a + d'), a, Clip(a + d))
  {
  }

  lemma WeightedOrder(v: real, v': real, e: real)
    requires 0.0 <= v' <= v
    ensures 0.0 <= v' * e <= v * e || v * e <= v' * e <= 0.0
  {
  }

  lemma PredictOfClipped(k: Kernel, a: real, d: real)
    ensures PredictSuccess(k, Clip(a), d) == PredictSuccess(k, a, d)
  {
    assert Bounded(Clip(a)) == Bounded(a);
  }

  /** The success reported with an update is that of the new ability, and never moves away from the
      outcome: it is no lower than the prediction before when the outcome was at least that, and no
      higher when it was at most that. */
  lemma ReportedSuccess(k: Kernel, ability: real, outcome: real, difficulty: real,
                        independent: bool, hints: nat, retries: nat)
    ensures var before := PredictSuccess(k, ability, difficulty);
      var r := UpdateAbility(k, ability, outcome, difficulty, independent, hints, retries);
      var after := r.predictedSuccess;
      && after == PredictSuccess(k, r.ability, r.itemDifficulty) && r.itemDifficulty == difficulty
      && (outcome >= before ==> before <= after)
      && (outcome <= before ==> after <= before)
  {
    var error, w := outcome - PredictSuccess(k, ability, difficulty), Reliability(independent, hints, retries);
    ReliabilityRange(independent, hints, retries);
    assert Moved(ability, w, 0.0) == Clip(ability);
    hide PredictSuccess, Reliability, Clip, Moved;
    PredictOfClipped(k, ability, difficulty);
    if error >= 0.0 {
      MovedMonotone(ability, w, 0.0, error);
      PredictMonotone(k, Clip(ability), difficulty, Moved(ability, w, error), difficulty);
    }
    if error <= 0.0 {
      MovedMonotone(ability, w, error, 0.0);
      PredictMonotone(k, Moved(ability, w, error), difficulty, Clip(ability), difficulty);
    }
  }
}
