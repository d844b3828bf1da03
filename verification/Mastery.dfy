/** How fast replayed mastery can rise, how fast it must rise, and when a better record is sure to
    end with higher mastery. */
module Mastery {
  import opened Prelude
  import opened Kernels
  import opened Irt
  import opened Fsrs
  import opened Replay

  const MASTERED := 0.8

  function TotalOutcome(log: seq<Attempt>): real {
    if log == [] then 0.0 else TotalOutcome(log[..|log| - 1]) + log[|log| - 1].outcome
  }

  /** The ranges every recorded attempt is validated against. */
  predicate Recorded(a: Attempt) {
    0.0 <= a.outcome <= 1.0 && 0.0 <= a.difficulty <= 1.0
  }

  // ----- mastery must be earned -----

  /** One attempt adds at most the learning rate times its outcome. */
  lemma GainAtMostOutcome(k: Kernel, ability: real, a: Attempt)
    requires 0.0 <= ability && 0.0 <= a.outcome
    ensures UpdateAbility(k, ability, a.outcome, a.difficulty, a.independent, a.hints, a.retries).ability
         <= ability + LEARNING_RATE * a.outcome
  {
    ReliabilityRange(a.independent, a.hints, a.retries);
    PredictRange(k, ability, a.difficulty);
    MovedAtMost(ability, Reliability(a.independent, a.hints, a.retries), a.outcome,
                PredictSuccess(k, ability, a.difficulty));
  }

  lemma MovedAtMost(ability: real, w: real, y: real, p: real)
    requires 0.0 <= ability && 0.0 <= w <= 1.0 && 0.0 <= y && 0.0 <= p
    ensures Moved(ability, w, y - p) <= ability + LEARNING_RATE * y
  {
    var v := LEARNING_RATE * w;
    ScaleLe(y - p, y, v);
    ScaleLe(v, LEARNING_RATE, y);
    assert ability + v * (y - p) <= ability + LEARNING_RATE * y;
  }

  /** Replayed mastery never exceeds 0.22 times the sum of the outcomes. */
  lemma {:induction false} MasteryIsEarned(k: Kernel, log: seq<Attempt>)
    requires forall i :: 0 <= i < |log| ==> 0.0 <= log[i].outcome
    ensures Replayed(k, log).mastery <= LEARNING_RATE * TotalOutcome(log)
  {
    if log != [] {
      var front := log[..|log| - 1];
      MasteryIsEarned(k, front);
      ReplayRanges(k, front);
      GainAtMostOutcome(k, Replayed(k, front).mastery, log[|log| - 1]);
    }
  }

  lemma {:induction false} TotalAtMostLength(log: seq<Attempt>)
    requires forall i :: 0 <= i < |log| ==> Recorded(log[i])
    ensures TotalOutcome(log) <= |log| as real
  {
    if log != [] { TotalAtMostLength(log[..|log| - 1]); }
  }

  /** The mastered threshold needs total outcome of at least 40/11, hence at least four attempts. */
  lemma MasteredNeedsFour(k: Kernel, log: seq<Attempt>)
    requires forall i :: 0 <= i < |log| ==> Recorded(log[i])
    requires Replayed(k, log).mastery >= MASTERED
    ensures TotalOutcome(log) >= 40.0 / 11.0 && |log| >= 4
  {
    MasteryIsEarned(k, log);
    TotalAtMostLength(log);
  }

  // ----- progress is guaranteed -----

  /** An independent, unhinted first try, fully correct, on an item of at least middle difficulty. */
  predicate Perfect(a: Attempt) {
    a.outcome == 1.0 && a.difficulty >= 0.5 && a.independent && a.hints == 0 && a.retries == 0
  }

  lemma MasteryInRange(k: Kernel, log: seq<Attempt>)
    ensures 0.0 <= Replayed(k, log).mastery <= 1.0
  {
  }

  /** A perfect attempt closes 22% of the remaining distance, up to the clamp of the odds. */
  lemma PerfectStep(k: Kernel, l: Learned, a: Attempt)
    requires Perfect(a)
    requires 0.0 <= l.mastery <= 1.0
    ensures 1.0 - Absorb(k, l, a).mastery <= 0.78 * (1.0 - l.mastery) + 0.00022
  {
    PredictMonotone(k, l.mastery, a.difficulty, l.mastery, 0.5);
    PredictAtHalf(k, l.mastery);
    MovedFully(l.mastery, PredictSuccess(k, l.mastery, a.difficulty));
  }

  lemma MovedFully(m: real, p: real)
    requires 0.0 <= m <= 1.0 && p <= Bounded(m)
    ensures 1.0 - Moved(m, 1.0, 1.0 - p) <= 0.78 * (1.0 - m) + 0.00022
  {
  }

  lemma PerfectStepOnMiddle(k: Kernel, l: Learned)
    requires 0.0 <= l.mastery <= 0.999
    ensures 1.0 - Absorb(k, l, MIDDLE).mastery == 1.0 - l.mastery - 0.22 * (1.0 - Max(0.001, l.mastery))
  {
    PredictAtHalf(k, l.mastery);
  }

  /** After n perfect attempts in a row, whatever came before, the distance to full mastery has
      shrunk by 0.78^n, up to 0.001. */
  lemma {:induction false} PerfectRun(k: Kernel, log: seq<Attempt>, run: seq<Attempt>)
    requires forall i :: 0 <= i < |run| ==> Perfect(run[i])
    ensures 1.0 - Replayed(k, log + run).mastery
         <= Power(0.78, |run|) * (1.0 - Replayed(k, log).mastery) + 0.001
    decreases |run|
  {
    hide Absorb;
    if run == [] {
      assert log + run == log;
      MasteryInRange(k, log);
    } else {
      var front, a := run[..|run| - 1], run[|run| - 1];
      PerfectRun(k, log, front);
      assert log + run == log + front + [a];
      PerfectAppend(k, log + front, a);
      Contract(1.0 - Replayed(k, log + run).mastery, 1.0 - Replayed(k, log + front).mastery,
               Power(0.78, |front|), 1.0 - Replayed(k, log).mastery);
    }
  }

  lemma PerfectAppend(k: Kernel, log: seq<Attempt>, a: Attempt)
    requires Perfect(a)
    ensures 1.0 - Replayed(k, log + [a]).mastery <= 0.78 * (1.0 - Replayed(k, log).mastery) + 0.00022
  {
    ReplayedAppend(k, log, a);
    MasteryInRange(k, log);
    PerfectStep(k, Replayed(k, log), a);
  }

  lemma Contract(d': real, d: real, factor: real, gap: real)
    requires d' <= 0.78 * d + 0.00022 && d <= factor * gap + 0.001
    ensures d' <= (factor * 0.78) * gap + 0.001
  {
  }

  /** Seven perfect attempts in a row reach the mastered threshold from any history. */
  lemma SevenPerfectSuffice(k: Kernel, log: seq<Attempt>, run: seq<Attempt>)
    requires |run| >= 7 && forall i :: 0 <= i < |run| ==> Perfect(run[i])
    ensures Replayed(k, log + run).mastery >= MASTERED
  {
    var early, late := run[..|run| - 7], run[|run| - 7..];
    assert log + run == (log + early) + late;
    PerfectRun(k, log + early, late);
    ReplayRanges(k, log + early);
    assert Power(0.78, 3) == 0.474552;
    assert Power(0.78, 5) == 0.474552 * 0.78 * 0.78;
    assert Power(0.78, 7) < 0.18;
    ScaleLe(Power(0.78, 7), 0.18, 1.0 - Replayed(k, log + early).mastery);
  }

  function Repeated(a: Attempt, n: nat): seq<Attempt> {
    if n == 0 then [] else Repeated(a, n - 1) + [a]
  }

  const MIDDLE := Attempt(1.0, 0.5, true, 0, 0, None, 0.0)

  lemma MiddleAppend(k: Kernel, n: nat)
    ensures var m, m' := Replayed(k, Repeated(MIDDLE, n)).mastery, Replayed(k, Repeated(MIDDLE, n + 1)).mastery;
      m <= 0.999 ==> 1.0 - m' == 1.0 - m - 0.22 * (1.0 - Max(0.001, m))
  {
    MasteryInRange(k, Repeated(MIDDLE, n));
    ReplayedAppend(k, Repeated(MIDDLE, n), MIDDLE);
    if Replayed(k, Repeated(MIDDLE, n)).mastery <= 0.999 {
      PerfectStepOnMiddle(k, Replayed(k, Repeated(MIDDLE, n)));
    }
  }

  /** Seven is sharp: six perfect attempts on middle items leave a fresh point short of mastered. */
  lemma SixPerfectMayFail(k: Kernel)
    ensures Perfect(MIDDLE) && Replayed(k, Repeated(MIDDLE, 6)).mastery < MASTERED
  {
    MiddleAppend(k, 0);
    MiddleAppend(k, 1);
    MiddleAppend(k, 2);
    MiddleAppend(k, 3);
    MiddleAppend(k, 4);
    MiddleAppend(k, 5);
  }

  lemma FreshMastery(k: Kernel)
    ensures Replayed(k, []).mastery == 0.0
  {
  }

  /** One unaided attempt on a middle item of a fresh point. */
  lemma HalfwayItem(k: Kernel, a: Attempt)
    requires a.difficulty == 0.5 && a.independent && a.hints == 0 && a.retries == 0
    ensures Replayed(k, [a]).mastery == Clip(0.22 * (a.outcome - 0.001))
  {
    ReplayedAppend(k, [], a);
    PredictAtHalf(k, 0.0);
  }

  // ----- when a better record is sure to end higher -----

  function Mix(x: real, o: real): real {
    x + (1.0 - x) * o
  }

  /** The least value of Mix(x, o) over the bounded abilities x; the success curve of an item with
      odds o is steepest there. */
  function LeastMix(o: real): (l: real)
    requires 0.0 < o
    ensures 0.0 < l
  {
    if o >= 1.0 then 0.999 + 0.001 * o else 0.001 + 0.999 * o
  }

  /** How much of the prediction error an attempt passes on. */
  function Weight(a: Attempt): (v: real)
    ensures 0.0 < v <= 0.22
  {
    ReliabilityRange(a.independent, a.hints, a.retries);
    LEARNING_RATE * Reliability(a.independent, a.hints, a.retries)
  }

  /** An attempt whose success curve, weighted, is nowhere steeper than one. */
  predicate Gentle(a: Attempt) {
    GentleAt(Weight(a), Odds(a.difficulty))
  }

  predicate GentleAt(v: real, o: real)
    requires 0.0 < o
  {
    v * o <= LeastMix(o) * LeastMix(o)
  }

  /** The ability after attempting the item of `a` from ability m with outcome y. */
  function Updated(k: Kernel, m: real, y: real, a: Attempt): real {
    UpdateAbility(k, m, y, a.difficulty, a.independent, a.hints, a.retries).ability
  }

  /** Higher ability and better outcome never leave the lower ability. */
  ghost predicate KeepsOrder(k: Kernel, a: Attempt) {
    forall m, m', y, y' :: 0.0 <= m <= m' <= 1.0 && 0.0 <= y <= y' <= 1.0 ==>
      Updated(k, m, y, a) <= Updated(k, m', y', a)
  }

  lemma OddsRange(value: real)
    ensures 1.0 / 999.0 <= Odds(value) <= 999.0
    ensures Odds(value) * (1.0 - Bounded(value)) == Bounded(value)
  {
    DivLe(Bounded(value), 999.0, 1.0 - Bounded(value));
    DivLe(Bounded(value), 1.0 / 999.0, 1.0 - Bounded(value));
  }

  function Share(c: real): real
    requires 0.0 < c
  {
    c / (1.0 + c)
  }

  /** The success probability without the clamp of the exponent. */
  function RawSuccess(a: real, d: real): real {
    DivLe(Odds(a), 0.0, Odds(d));
    Share(Odds(a) / Odds(d))
  }

  lemma OddsRatio(a: real, d: real)
    ensures 0.0 < Odds(a) / Odds(d)
    ensures RawSuccess(a, d) * Mix(Bounded(a), Odds(d)) == Bounded(a)
  {
    var x, o, u := Bounded(a), Odds(d), Odds(a);
    OddsRange(a);
    DivLe(u, 0.0, o);
    hide Odds, Bounded;
    ShareOfMix(u / o, o, u, x);
  }

  lemma ShareOfMix(c: real, o: real, u: real, x: real)
    requires 0.0 < c && c * o == u && u * (1.0 - x) == x
    ensures Share(c) * Mix(x, o) == x
  {
  }

  /** Clamping the exponent clamps the probability. */
  lemma ClampedShare(k: Kernel, c: real)
    requires 0.0 < c
    ensures 0.0 < 1.0 / k.e12
    ensures LogitProbability(k, c) == Min(Share(k.e12), Max(Share(1.0 / k.e12), Share(c)))
  {
    var e: real := k.e12;
    DivLe(1.0, 0.0, e);
    DivLe(1.0, 1.0, e);
    ShareMonotone(1.0 / e, e);
    if c <= 1.0 / e { ShareMonotone(c, 1.0 / e); }
    else if c <= e { ShareMonotone(c, e); ShareMonotone(1.0 / e, c); }
    else { ShareMonotone(e, c); }
  }

  lemma LeastMixIsLeast(x: real, o: real)
    requires 0.001 <= x <= 0.999 && 0.0 < o
    ensures LeastMix(o) <= Mix(x, o)
  {
    if o >= 1.0 { ScaleLe(1.0, o, 0.999 - x); } else { ScaleLe(o, 1.0, x - 0.001); }
  }

  lemma CrossDifference(x: real, y: real, o: real, p: real, q: real)
    requires p * Mix(x, o) == x && q * Mix(y, o) == y
    ensures (q - p) * (Mix(x, o) * Mix(y, o)) == o * (y - x)
  {
  }

  /** The clamp of the exponent only flattens the success curve. */
  lemma ClampFlattens(k: Kernel, m: real, m': real, d: real)
    requires m <= m'
    ensures PredictSuccess(k, m', d) - PredictSuccess(k, m, d) <= RawSuccess(m', d) - RawSuccess(m, d)
  {
    OddsRatio(m, d);
    OddsRatio(m', d);
    OddsMonotone(m, m');
    RatioMonotone(Odds(m), Odds(d), Odds(m'), Odds(d));
    var c, c' := Odds(m) / Odds(d), Odds(m') / Odds(d);
    ShareMonotone(c, c');
    ClampedShare(k, c);
    ClampedShare(k, c');
    hide Odds, LogitProbability, Share;
  }

  lemma ShareSlope(x: real, y: real, o: real, p: real, q: real, v: real)
    requires 0.001 <= x <= y <= 0.999 && 0.0 < o && 0.0 <= v && GentleAt(v, o)
    requires p * Mix(x, o) == x && q * Mix(y, o) == y
    ensures v * (q - p) <= y - x
  {
    hide Mix, LeastMix;
    LeastMixIsLeast(x, o);
    LeastMixIsLeast(y, o);
    CrossDifference(x, y, o, p, q);
    MixesAtLeast(LeastMix(o), Mix(x, o), Mix(y, o), v, o);
    SlopeBound(q - p, y - x, v, o, Mix(x, o) * Mix(y, o));
  }

  lemma MixesAtLeast(l: real, m: real, n: real, v: real, o: real)
    requires 0.0 < l && l <= m && l <= n && v * o <= l * l
    ensures v * o <= m * n && 0.0 < m * n
  {
    MulLe(l, m, l, n);
    ScaleLt(0.0, l, l);
  }

  /** On a gentle item the weighted success curve rises no faster than ability. */
  lemma GentleSlope(k: Kernel, m: real, m': real, a: Attempt)
    requires Gentle(a) && m <= m'
    ensures Weight(a) * (PredictSuccess(k, m', a.difficulty) - PredictSuccess(k, m, a.difficulty)) <= m' - m
  {
    hide Odds, PredictSuccess, RawSuccess, Gentle, Weight;
    var d := a.difficulty;
    RawSlope(m, m', a);
    ClampFlattens(k, m, m', d);
    ScaleLe(PredictSuccess(k, m', d) - PredictSuccess(k, m, d), RawSuccess(m', d) - RawSuccess(m, d), Weight(a));
  }

  lemma RawSlope(m: real, m': real, a: Attempt)
    requires Gentle(a) && m <= m'
    ensures Weight(a) * (RawSuccess(m', a.difficulty) - RawSuccess(m, a.difficulty)) <= m' - m
  {
    hide Odds, RawSuccess, Weight, LeastMix, Mix, Bounded;
    OddsRatio(m, a.difficulty);
    OddsRatio(m', a.difficulty);
    BoundedRise(m, m');
    ShareSlope(Bounded(m), Bounded(m'), Odds(a.difficulty),
               RawSuccess(m, a.difficulty), RawSuccess(m', a.difficulty), Weight(a));
  }

  lemma BoundedRise(m: real, m': real)
    requires m <= m'
    ensures Bounded(m) <= Bounded(m') <= Bounded(m) + (m' - m)
  {
  }

  lemma SlopeBound(rise: real, run: real, v: real, o: real, mn: real)
    requires rise * mn == o * run && v * o <= mn && 0.0 < mn && 0.0 <= run
    ensures v * rise <= run
  {
    ScaleLe(v * o, mn, run);
    assert (v * rise) * mn <= run * mn;
    if v * rise > run { ScaleLt(run, v * rise, mn); }
  }

  lemma GentleKeepsOrder(k: Kernel, m: real, m': real, y: real, y': real, a: Attempt)
    requires Gentle(a) && m <= m' && y <= y'
    ensures Updated(k, m, y, a) <= Updated(k, m', y', a)
  {
    hide PredictSuccess, Gentle, Weight, Updated, Shifted;
    GentleSlope(k, m, m', a);
    UpdatedForm(k, m, y, a);
    UpdatedForm(k, m', y', a);
    WeightedOrderKept(m, m', Weight(a), y, y', PredictSuccess(k, m, a.difficulty), PredictSuccess(k, m', a.difficulty));
  }

  function Shifted(m: real, v: real, e: real): real {
    Clip(m + v * e)
  }

  lemma UpdatedForm(k: Kernel, m: real, y: real, a: Attempt)
    ensures Updated(k, m, y, a) == Shifted(m, Weight(a), y - PredictSuccess(k, m, a.difficulty))
  {
    hide PredictSuccess, Reliability, Clip;
  }

  lemma WeightedOrderKept(m: real, m': real, v: real, y: real, y': real, p: real, p': real)
    requires 0.0 <= v && y <= y' && v * (p' - p) <= m' - m
    ensures Shifted(m, v, y - p) <= Shifted(m', v, y' - p')
  {
    ScaleLe(y, y', v);
    assert v * (y - p) == v * y - v * p;
    assert v * (y' - p') == v * y' - v * p';
    assert v * (p' - p) == v * p' - v * p;
    assert m + v * (y - p) <= m' + v * (y' - p');
  }

  // On every other item the order of two abilities at the steep end of the curve is reversed.

  /** The two abilities, `gap` apart, and the common outcome that show it. */
  function LowWitness(o: real, gap: real): real {
    if o > 1.0 then 0.999 - gap else 0.001
  }

  function WitnessOutcome(o: real): real {
    if o > 1.0 then 0.0 else 1.0
  }

  /** How far apart: small enough for the curve to stay steeper than one in between. */
  function WitnessGap(v: real, o: real): real
    requires 0.0 < o && o != 1.0
  {
    var l, slant := LeastMix(o), if o > 1.0 then o - 1.0 else 1.0 - o;
    Min(0.2, (v * o - l * l) / (2.0 * slant * l))
  }

  lemma GapIsSmall(v: real, o: real)
    requires 0.0 < v <= 0.22 && 0.0 < o && !GentleAt(v, o)
    ensures o != 1.0
    ensures var g, l, slant := WitnessGap(v, o), LeastMix(o), if o > 1.0 then o - 1.0 else 1.0 - o;
      0.0 < g <= 0.2 && (l + g * slant) * l < v * o
  {
    var l, slant, room := LeastMix(o), if o > 1.0 then o - 1.0 else 1.0 - o, v * o - LeastMix(o) * LeastMix(o);
    var den := 2.0 * slant * l;
    assert 0.0 < slant * l by { ScaleLt(0.0, slant, l); }
    var q := room / den;
    DivLe(room, 0.0, den);
    assert q * den == room;
    assert q > 0.0;
    var g := WitnessGap(v, o);
    ScaleLe(g, q, den);
    assert (l + g * slant) * l == l * l + (g * den) / 2.0;
  }

  /** Near the steep end the clamp of the exponent is not reached. */
  lemma Unclamped(k: Kernel, m: real, d: real)
    requires if Odds(d) > 1.0 then 0.7 <= m <= 0.999 else 0.001 <= m <= 0.3
    ensures PredictSuccess(k, m, d) * Mix(m, Odds(d)) == m
    ensures 0.0 < PredictSuccess(k, m, d) < 1.0
  {
    PredictRange(k, m, d);
    OddsRange(d);
    OddsRange(m);
    OddsRatio(m, d);
    var o, u, e: real := Odds(d), Odds(m), k.e12;
    assert if o > 1.0 then 1.0 <= u else u <= 1.0 by {
      DivLe(Bounded(m), 1.0, 1.0 - Bounded(m));
    }
    hide Odds, Bounded;
    var c := u / o;
    DivLe(u, e, o);
    DivLe(u, 0.001, o);
    DivLe(1.0, 0.001, e);
    assert c <= e by { if o > 1.0 { ScaleLe(1.0, o, e); } else { ScaleLe(1.0 / 999.0, o, e); } }
    assert 0.001 <= c;
  }

  /** Two abilities at the steep end of the curve and a common outcome that reverses their order. */
  lemma SteepReverses(k: Kernel, a: Attempt) returns (m: real, m': real, y: real)
    requires !Gentle(a)
    ensures (0.799 <= m < m' <= 0.999 && y == 0.0) || (0.001 <= m < m' <= 0.201 && y == 1.0)
    ensures Updated(k, m, y, a) > Updated(k, m', y, a)
  {
    var o, v := Odds(a.difficulty), Weight(a);
    hide Odds, Weight;
    GapIsSmall(v, o);
    var g := WitnessGap(v, o);
    m, y := LowWitness(o, g), WitnessOutcome(o);
    m' := m + g;
    hide WitnessGap;
    SteepMixes(o, g, m);
    SteepStep(k, m, g, y, a);
  }

  lemma SteepStep(k: Kernel, m: real, g: real, y: real, a: Attempt)
    requires var o := Odds(a.difficulty);
      && 0.0 < g <= 0.2
      && 0.0 < Mix(m, o) * Mix(m + g, o) < Weight(a) * o
      && if o > 1.0 then 0.7 <= m && m + g <= 0.999 && y == 0.0 else 0.001 <= m && m + g <= 0.3 && y == 1.0
    ensures Updated(k, m, y, a) > Updated(k, m + g, y, a)
  {
    var o, m' := Odds(a.difficulty), m + g;
    hide Odds, PredictSuccess, Weight, Updated, Mix, Shifted;
    Unclamped(k, m, a.difficulty);
    Unclamped(k, m', a.difficulty);
    var p, q := PredictSuccess(k, m, a.difficulty), PredictSuccess(k, m', a.difficulty);
    assert Weight(a) * (q - p) > g by {
      CrossDifference(m, m', o, p, q);
      SteepRise(q - p, g, Weight(a), o, Mix(m, o) * Mix(m', o));
    }
    assert (y - p) - (y - q) == q - p;
    ReversedUnclipped(m, m', Weight(a), y - p, y - q);
    UpdatedForm(k, m, y, a);
    UpdatedForm(k, m', y, a);
  }

  lemma SteepMixes(o: real, g: real, m: real)
    requires 0.0 < o && o != 1.0 && 0.0 < g <= 0.2 && m == LowWitness(o, g)
    ensures var l, slant := LeastMix(o), if o > 1.0 then o - 1.0 else 1.0 - o;
      0.0 < Mix(m, o) * Mix(m + g, o) == (l + g * slant) * l
  {
    var l, slant := LeastMix(o), if o > 1.0 then o - 1.0 else 1.0 - o;
    if o > 1.0 {
      assert Mix(m, o) == l + g * slant && Mix(m + g, o) == l;
    } else {
      assert Mix(m, o) == l && Mix(m + g, o) == l + g * slant;
    }
    ScaleLt(0.0, slant, g);
    ScaleLt(0.0, l + g * slant, l);
  }

  lemma SteepRise(rise: real, run: real, v: real, o: real, mn: real)
    requires rise * mn == o * run && 0.0 < mn < v * o && 0.0 < run
    ensures v * rise > run
  {
    ScaleLt(mn, v * o, run);
    assert (v * rise) * mn > run * mn;
    if v * rise <= run { ScaleLe(v * rise, run, mn); }
  }

  lemma ReversedUnclipped(m: real, m': real, v: real, e: real, e': real)
    requires 0.0 <= v <= 0.22 && v * (e - e') > m' - m > 0.0
    requires -1.0 <= e <= 1.0 && -1.0 <= e' <= 1.0
    requires (e <= 0.0 && 0.7 <= m && m' <= 0.999) || (0.0 <= e' && 0.0 <= m && m' <= 0.3)
    ensures Shifted(m, v, e) > Shifted(m', v, e')
  {
    WeightedSmall(v, e);
    WeightedSmall(v, e');
    assert v * (e - e') == v * e - v * e';
    ClipStrict(m' + v * e', m + v * e);
  }

  lemma ClipStrict(a: real, b: real)
    requires a < b && 0.0 <= a && b <= 1.0
    ensures Clip(a) < Clip(b)
  {
  }

  lemma WeightedSmall(v: real, e: real)
    requires 0.0 <= v <= 0.22 && -1.0 <= e <= 1.0
    ensures -0.22 <= v * e <= 0.22
    ensures e <= 0.0 ==> v * e <= 0.0
    ensures 0.0 <= e ==> 0.0 <= v * e
  {
    if e >= 0.0 {
      MulLe(v, 0.22, e, 1.0);
      MulLe(0.0, v, 0.0, e);
    } else {
      MulLe(v, 0.22, -e, 1.0);
      MulLe(0.0, v, 0.0, -e);
      assert v * -e == -(v * e);
    }
  }

  /** One attempt keeps the order of abilities, whatever the outcomes, exactly when it is gentle. */
  lemma StepKeepsOrderExactly(k: Kernel, a: Attempt)
    ensures KeepsOrder(k, a) <==> Gentle(a)
  {
    if Gentle(a) {
      forall m, m', y, y' | 0.0 <= m <= m' <= 1.0 && 0.0 <= y <= y' <= 1.0
        ensures Updated(k, m, y, a) <= Updated(k, m', y', a)
      {
        GentleKeepsOrder(k, m, m', y, y', a);
      }
    } else {
      var m, m', y := SteepReverses(k, a);
    }
    hide Updated, Gentle;
  }

  // ----- over whole records -----

  /** The same item attempted with the same help. */
  predicate SameItem(a: Attempt, b: Attempt) {
    b.difficulty == a.difficulty && b.independent == a.independent && b.hints == a.hints && b.retries == a.retries
  }

  /** The same items with the same help, and outcomes in ys no worse than in xs. */
  ghost predicate BetterRecord(ys: seq<Attempt>, xs: seq<Attempt>) {
    && |xs| == |ys|
    && forall i :: 0 <= i < |xs| ==> SameItem(xs[i], ys[i]) && 0.0 <= xs[i].outcome <= ys[i].outcome <= 1.0
  }

  /** On gentle items the better record ends with mastery no lower. */
  lemma {:induction false} MasteryDominance(k: Kernel, xs: seq<Attempt>, ys: seq<Attempt>)
    requires BetterRecord(ys, xs) && forall i :: 0 <= i < |xs| ==> Gentle(xs[i])
    ensures Replayed(k, xs).mastery <= Replayed(k, ys).mastery
    decreases |xs|
  {
    if xs != [] {
      var n := |xs| - 1;
      MasteryDominance(k, xs[..n], ys[..n]);
      GentleKeepsOrder(k, Replayed(k, xs[..n]).mastery, Replayed(k, ys[..n]).mastery,
                       xs[n].outcome, ys[n].outcome, xs[n]);
      hide Gentle, UpdateAbility, ScheduleReview;
    }
  }

  /** An unaided attempt on a middle item. */
  function MiddleAttempt(y: real): Attempt {
    MIDDLE.(outcome := y)
  }

  lemma MiddleIsGentle(y: real)
    ensures Gentle(MiddleAttempt(y))
  {
    assert Odds(0.5) == 1.0;
  }

  /** The outcome on a middle item that moves mastery m to the target. */
  function Aim(m: real, target: real): real {
    Bounded(m) + (target - m) / 0.22
  }

  lemma AppendedMastery(k: Kernel, log: seq<Attempt>, a: Attempt)
    ensures Replayed(k, log + [a]).mastery == Updated(k, Replayed(k, log).mastery, a.outcome, a)
  {
    ReplayedAppend(k, log, a);
    hide Replayed, UpdateAbility, ScheduleReview;
  }

  lemma AimHits(k: Kernel, log: seq<Attempt>, target: real)
    requires 0.0 <= target <= 1.0
    ensures Replayed(k, log + [MiddleAttempt(Aim(Replayed(k, log).mastery, target))]).mastery == target
  {
    var m := Replayed(k, log).mastery;
    var a := MiddleAttempt(Aim(m, target));
    UnaidedWeight(a);
    hide PredictSuccess, Bounded, Weight, Replayed, Updated;
    AppendedMastery(k, log, a);
    UpdatedForm(k, m, a.outcome, a);
    PredictAtHalf(k, m);
    assert 0.22 * (Aim(m, target) - Bounded(m)) == target - m;
  }

  lemma PowerThirtyFive()
    ensures Power(0.78, 35) < 0.00028
  {
    assert Power(0.78, 5) < 0.29;
    PowerSum(0.78, 5, 5);
    PowerSum(0.78, 10, 10);
    PowerSum(0.78, 20, 10);
    PowerSum(0.78, 30, 5);
    hide Power;
    var a, b, c, d := Power(0.78, 5), Power(0.78, 10), Power(0.78, 20), Power(0.78, 30);
    MulLe(a, 0.29, a, 0.29);
    MulLe(b, 0.0841, b, 0.0841);
    MulLe(c, 0.0071, b, 0.0841);
    MulLe(d, 0.0006, a, 0.29);
  }

  /** After thirty-five perfect attempts any ability from 0.799 to 0.999 is one attempt away. */
  lemma NearTheTop(k: Kernel)
    ensures var m := Replayed(k, Repeated(MIDDLE, 35)).mastery;
      forall target :: 0.799 <= target <= 0.999 ==> 0.0 <= Aim(m, target) <= 1.0
  {
    hide Replayed, Power, Absorb;
    var run := Repeated(MIDDLE, 35);
    RepeatedIsPerfect(35);
    PerfectRun(k, [], run);
    assert [] + run == run;
    FreshMastery(k);
    MasteryInRange(k, run);
    PowerThirtyFive();
  }

  lemma {:induction false} RepeatedIsPerfect(n: nat)
    ensures |Repeated(MIDDLE, n)| == n && forall i :: 0 <= i < n ==> Repeated(MIDDLE, n)[i] == MIDDLE
  {
    if n > 0 { RepeatedIsPerfect(n - 1); }
  }

  lemma {:induction false} PowerSum(b: real, m: nat, n: nat)
    requires 0.0 <= b
    ensures Power(b, m + n) == Power(b, m) * Power(b, n) && 0.0 <= Power(b, n)
  {
    if n > 0 {
      PowerSum(b, m, n - 1);
      assert Power(b, m + n) == Power(b, m + (n - 1)) * b;
    }
  }

  /** Mixed with gentle items in any way, the item of `a` never lets a better record end lower. */
  ghost predicate SafeAmongGentle(k: Kernel, a: Attempt) {
    forall xs, ys :: BetterRecord(ys, xs) && GentleBut(xs, a) ==> Replayed(k, xs).mastery <= Replayed(k, ys).mastery
  }

  ghost predicate GentleBut(xs: seq<Attempt>, a: Attempt) {
    forall i :: 0 <= i < |xs| ==> Gentle(xs[i]) || SameItem(a, xs[i])
  }

  /** The record that reaches the target ability on middle items and then attempts the item of `a`. */
  function Steered(k: Kernel, start: seq<Attempt>, target: real, a: Attempt, y: real): seq<Attempt> {
    start + [MiddleAttempt(Aim(Replayed(k, start).mastery, target))] + [a.(outcome := y)]
  }

  lemma SteeredMastery(k: Kernel, start: seq<Attempt>, target: real, a: Attempt, y: real)
    requires 0.0 <= target <= 1.0
    ensures Replayed(k, Steered(k, start, target, a, y)).mastery == Updated(k, target, y, a)
  {
    var front := start + [MiddleAttempt(Aim(Replayed(k, start).mastery, target))];
    AimHits(k, start, target);
    ReplayedAppend(k, front, a.(outcome := y));
  }

  lemma SteeredRecord(k: Kernel, start: seq<Attempt>, t: real, t': real, a: Attempt, y: real)
    requires forall i :: 0 <= i < |start| ==> start[i] == MIDDLE
    requires t <= t' && 0.0 <= y <= 1.0
    requires 0.0 <= Aim(Replayed(k, start).mastery, t) && Aim(Replayed(k, start).mastery, t') <= 1.0
    ensures BetterRecord(Steered(k, start, t', a, y), Steered(k, start, t, a, y))
    ensures GentleBut(Steered(k, start, t, a, y), a)
  {
    MiddleIsGentle(1.0);
    MiddleIsGentle(Aim(Replayed(k, start).mastery, t));
    hide Replayed, Gentle;
    var xs, n := Steered(k, start, t, a, y), |start|;
    assert xs[n] == MiddleAttempt(Aim(Replayed(k, start).mastery, t)) && xs[n + 1] == a.(outcome := y);
    assert forall i :: 0 <= i < n ==> xs[i] == MIDDLE;
  }

  /** For every item that is not gentle there are two records, equal but for one outcome on a middle
      item, of which the better one ends lower. */
  lemma SteepRecords(k: Kernel, a: Attempt) returns (xs: seq<Attempt>, ys: seq<Attempt>)
    requires !Gentle(a)
    ensures BetterRecord(ys, xs) && GentleBut(xs, a)
    ensures Replayed(k, xs).mastery > Replayed(k, ys).mastery
  {
    var t, t', y := SteepReverses(k, a);
    var start := if y == 0.0 then Repeated(MIDDLE, 35) else [];
    RepeatedIsPerfect(35);
    NearTheTop(k);
    FreshMastery(k);
    hide Gentle, Updated, Replayed;
    xs, ys := Steered(k, start, t, a, y), Steered(k, start, t', a, y);
    SteeredRecord(k, start, t, t', a, y);
    SteeredMastery(k, start, t, a, y);
    SteeredMastery(k, start, t', a, y);
  }

  /** The exact range of mastery dominance: an item keeps better records ahead exactly when it is
      gentle. */
  lemma DominanceExactly(k: Kernel, a: Attempt)
    ensures SafeAmongGentle(k, a) <==> Gentle(a)
  {
    if Gentle(a) {
      forall xs, ys | BetterRecord(ys, xs) && GentleBut(xs, a)
        ensures Replayed(k, xs).mastery <= Replayed(k, ys).mastery
      {
        MasteryDominance(k, xs, ys);
      }
    } else {
      var xs, ys := SteepRecords(k, a);
    }
  }

  /** In terms of difficulty: from 0.18 to 0.82 every attempt is gentle, and below 0.179 or above
      0.821 an unaided one is not. */
  lemma GentleDifficulties(a: Attempt)
    ensures 0.18 <= a.difficulty <= 0.82 ==> Gentle(a)
    ensures (a.difficulty <= 0.179 || a.difficulty >= 0.821) && a.independent && a.hints == 0 && a.retries == 0 ==>
      !Gentle(a)
  {
    var d, o, v := a.difficulty, Odds(a.difficulty), Weight(a);
    UnaidedWeight(a);
    hide Odds, Weight, Reliability;
    if 0.18 <= d <= 0.82 {
      OddsOf(0.18);
      OddsOf(0.82);
      OddsMonotone(0.18, d);
      OddsMonotone(d, 0.82);
      GentleOdds(o);
      ScaleLe(v, 0.22, o);
      hide LeastMix;
    } else if d <= 0.179 || d >= 0.821 {
      OddsRange(d);
      OddsOf(0.179);
      OddsOf(0.821);
      if d < 0.5 { OddsMonotone(d, 0.179); } else { OddsMonotone(0.821, d); }
      SteepOdds(o);
      hide LeastMix;
    }
  }

  lemma UnaidedWeight(a: Attempt)
    ensures a.independent && a.hints == 0 && a.retries == 0 ==> Weight(a) == 0.22
  {
  }

  lemma OddsOf(d: real)
    requires 0.001 <= d <= 0.999
    ensures Odds(d) == d / (1.0 - d)
  {
  }

  lemma GentleOdds(o: real)
    requires 0.18 / 0.82 <= o <= 0.82 / 0.18
    ensures 0.22 * o <= LeastMix(o) * LeastMix(o)
  {
  }

  lemma SteepOdds(o: real)
    requires 1.0 / 999.0 <= o <= 0.179 / 0.821 || 0.821 / 0.179 <= o <= 999.0
    ensures 0.22 * o > LeastMix(o) * LeastMix(o)
  {
    if o < 1.0 {
      MulLe(0.0, o - 1.0 / 999.0, 0.0, 0.179 / 0.821 - o);
    } else {
      MulLe(0.0, o - 0.821 / 0.179, 0.0, 999.0 - o);
    }
  }

  // The hardest items are far from gentle: a stronger learner is punished more for a miss.

  const PASS := Attempt(1.0, 1.0, true, 0, 0, None, 0.0)
  const HALF := Attempt(0.5, 1.0, true, 0, 0, None, 0.0)
  const MISS := Attempt(0.0, 1.0, true, 0, 0, None, 0.0)

  lemma HardItemPrediction(k: Kernel, m: real)
    ensures 0.0 < PredictSuccess(k, m, 1.0)
    ensures m <= 0.9 ==> PredictSuccess(k, m, 1.0) <= 0.01
    ensures m <= 0.99 ==> PredictSuccess(k, m, 1.0) <= 0.1
    ensures m >= 0.999 ==> PredictSuccess(k, m, 1.0) == 0.5
  {
    PredictRange(k, m, 1.0);
    assert Odds(1.0) == 999.0;
    var o := Odds(m);
    var c := ClampedOdds(k, o / 999.0);
    DivLe(1.0, 0.001, k.e12);
    DivLe(c, 0.01, 1.0 + c);
    DivLe(c, 0.1, 1.0 + c);
    if m <= 0.9 { OddsMonotone(m, 0.9); assert Odds(0.9) == 9.0; }
    if m <= 0.99 { OddsMonotone(m, 0.99); assert Odds(0.99) == 99.0; }
    if m >= 0.999 { EvenlyMatched(k, m); assert Odds(m) == 999.0; }
  }

  lemma HardStep(k: Kernel, l: Learned, y: real)
    ensures Absorb(k, l, Attempt(y, 1.0, true, 0, 0, None, 0.0)).mastery
         == Clip(l.mastery + 0.22 * (y - PredictSuccess(k, l.mastery, 1.0)))
  {
  }

  lemma HardAppend(k: Kernel, log: seq<Attempt>, y: real)
    ensures var m := Replayed(k, log).mastery;
      Replayed(k, log + [Attempt(y, 1.0, true, 0, 0, None, 0.0)]).mastery
         == Clip(m + 0.22 * (y - PredictSuccess(k, m, 1.0)))
    ensures var m := Replayed(k, log).mastery;
      && 0.0 < PredictSuccess(k, m, 1.0)
      && (m <= 0.9 ==> PredictSuccess(k, m, 1.0) <= 0.01)
      && (m <= 0.99 ==> PredictSuccess(k, m, 1.0) <= 0.1)
      && (m >= 0.999 ==> PredictSuccess(k, m, 1.0) == 0.5)
  {
    ReplayedAppend(k, log, Attempt(y, 1.0, true, 0, 0, None, 0.0));
    HardStep(k, Replayed(k, log), y);
    HardItemPrediction(k, Replayed(k, log).mastery);
  }

  /** Four perfect attempts on the hardest items do master a fresh point, so the bound of four in
      MasteredNeedsFour is reached; and of two records that differ in one outcome only, the better
      one can end with the lower mastery. */
  lemma HardItems(k: Kernel)
    ensures Replayed(k, [PASS, PASS, PASS, PASS]).mastery >= MASTERED
    ensures Replayed(k, [PASS, PASS, PASS, PASS, PASS, MISS]).mastery
          < Replayed(k, [PASS, PASS, PASS, PASS, HALF, MISS]).mastery
  {
    hide Replayed, PredictSuccess;
    FreshMastery(k);
    var three := [PASS, PASS, PASS];
    assert [PASS, PASS] + [PASS] == three && [PASS] + [PASS] == [PASS, PASS] && [] + [PASS] == [PASS];
    HardAppend(k, [], 1.0);
    HardAppend(k, [PASS], 1.0);
    HardAppend(k, [PASS, PASS], 1.0);
    HardAppend(k, three, 1.0);
    var four := [PASS, PASS, PASS, PASS];
    assert three + [PASS] == four;
    HardAppend(k, four, 1.0);
    HardAppend(k, four, 0.5);
    HardAppend(k, four + [PASS], 0.0);
    HardAppend(k, four + [HALF], 0.0);
    assert four + [PASS] + [MISS] == [PASS, PASS, PASS, PASS, PASS, MISS];
    assert four + [HALF] + [MISS] == [PASS, PASS, PASS, PASS, HALF, MISS];
  }
}
