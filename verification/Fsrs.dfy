/** The difficulty / stability / retrievability review scheduler. Time is counted in days. */
module Fsrs {
  import opened Prelude
  import opened Kernels

  datatype Rating = Again | Hard | Good | Easy {
    function Rank(): nat {
      match this
      case Again => 1
      case Hard => 2
      case Good => 3
      case Easy => 4
    }
  }

  datatype Card = Card(
    difficulty: real,
    stability: real,
    lastReview: Option<real>,
    nextReview: Option<real>,
    reviews: nat)

  datatype Schedule = Schedule(
    rating: Rating,
    difficulty: real,
    stability: real,
    retrievability: real,
    lastReview: real,
    nextReview: real,
    reviews: nat)

  const NEW_CARD := Card(5.0, 1.0, None, None, 0)

  function Elapsed(last: real, now: real): real {
    Max(0.0, now - last)
  }

  /** Recall probability `elapsed` days after a review that left the given stability. */
  function Recall(k: Kernel, stability: real, elapsed: real): real {
    Min(1.0, Max(0.0, k.decay(elapsed / Max(0.1, stability))))
  }

  function Retrievability(k: Kernel, card: Card, now: real): real {
    match card.lastReview
    case None => 0.0
    case Some(last) => Recall(k, card.stability, Elapsed(last, now))
  }

  function InferRating(correct: bool, independent: bool, hints: nat, retries: nat,
                       responseMs: Option<nat>, transfer: bool): Rating
  {
    if !correct then Again
    else if !independent || hints > 0 || retries > 0 then Hard
    else if transfer || (responseMs.Some? && responseMs.value <= 3000) then Easy
    else Good
  }

  function DifficultyDelta(rating: Rating): real {
    match rating
    case Again => 0.8
    case Hard => 0.15
    case Good => -0.15
    case Easy => -0.35
  }

  function Growth(rating: Rating): real {
    match rating
    case Again => 0.45
    case Hard => 1.35
    case Good => 2.5
    case Easy => 4.0
  }

  function IntervalFactor(rating: Rating): real {
    match rating
    case Again => 1.0
    case Hard => 0.8
    case Good => 1.0
    case Easy => 1.25
  }

  function OverdueBonus(recall: real): real {
    1.0 + Max(0.0, 0.9 - recall) * 0.5
  }

  /** Stability with its overdue bonus, before the growth factor of the rating. */
  function Rewarded(stability: real, recall: real): real {
    stability * OverdueBonus(recall)
  }

  function NextDifficulty(difficulty: real, rating: Rating): real {
    Min(10.0, Max(1.0, difficulty + DifficultyDelta(rating)))
  }

  function NextStability(stability: real, rating: Rating, recall: real): real {
    if rating.Again? then Max(0.25, stability * Growth(rating))
    else Max(0.5, stability * Growth(rating) * OverdueBonus(recall))
  }

  function Interval(stability: real, rating: Rating): real {
    if rating.Again? then Max(0.25, stability) else stability * IntervalFactor(rating)
  }

  function RecallBefore(k: Kernel, card: Card, now: real): real {
    if card.reviews != 0 then Retrievability(k, card, now) else 0.0
  }

  function ScheduleReview(k: Kernel, card: Card, rating: Rating, now: real): Schedule {
    var stability := NextStability(card.stability, rating, RecallBefore(k, card, now));
    Schedule(rating, NextDifficulty(card.difficulty, rating), stability, 1.0,
             now, now + Interval(stability, rating), card.reviews + 1)
  }

  function CardOf(s: Schedule): Card {
    Card(s.difficulty, s.stability, Some(s.lastReview), Some(s.nextReview), s.reviews)
  }

  // ----- forgetting -----

  /** Waiting longer never makes recall likelier. */
  lemma RecallAntitone(k: Kernel, stability: real, e: real, e': real)
    requires k.Valid() && 0.0 <= e <= e'
    ensures Recall(k, stability, e') <= Recall(k, stability, e)
  {
  }

  /** A stabler card is recalled at least as well after the same time. */
  lemma RecallMonotoneInStability(k: Kernel, s: real, s': real, e: real)
    requires k.Valid() && s <= s' && 0.0 <= e
    ensures Recall(k, s, e) <= Recall(k, s', e)
  {
    var t, t' := Max(0.1, s), Max(0.1, s');
    var x' := e / t';
    assert x' * t' == e;
    assert 0.0 <= x' by { DivLe(e, 0.0, t'); }
    ScaleLe(t, t', x');
    DivLe(e, x', t);
  }

  /** The heart of the scheduler: the stability reached after a successful review, with its
      overdue bonus, does not decrease when the stability before it grows, although the bonus
      itself shrinks. This is where convexity of the forgetting curve is needed. */
  lemma RewardedStabilityMonotone(k: Kernel, s: real, s': real, e: real)
    requires k.Valid() && 0.1 <= s <= s' && 0.0 <= e
    ensures Rewarded(s, Recall(k, s, e)) <= Rewarded(s', Recall(k, s', e))
  {
    RecallMonotoneInStability(k, s, s', e);
    var r, r' := Recall(k, s, e), Recall(k, s', e);
    assert 1.0 <= OverdueBonus(r') <= OverdueBonus(r);
    if r >= 0.9 || e == 0.0 {
      assert OverdueBonus(r) == 1.0 by { if e == 0.0 { assert e / s == 0.0; } }
      MulLe(s, s', 1.0, OverdueBonus(r'));
    } else {
      ForgottenShare(k, s, s', e);
      RewardArithmetic(s, s', r, r');
    }
  }

  lemma LessRecalledMoreReward(s: real, r: real, r': real)
    requires 0.0 <= s && r' <= r
    ensures Rewarded(s, r) <= Rewarded(s, r')
  {
  }

  /** The same when the stabler card also waited longer. */
  lemma RewardMonotone(k: Kernel, s: real, s': real, e: real, e': real)
    requires k.Valid() && 0.1 <= s <= s' && 0.0 <= e <= e'
    ensures Rewarded(s, Recall(k, s, e)) <= Rewarded(s', Recall(k, s', e'))
  {
    RewardedStabilityMonotone(k, s, s', e);
    RecallAntitone(k, s', e, e');
    LessRecalledMoreReward(s', Recall(k, s', e), Recall(k, s', e'));
  }

  /** The forgotten share of the stability grows with the stability. */
  lemma ForgottenShare(k: Kernel, s: real, s': real, e: real)
    requires k.Valid() && 0.1 <= s <= s' && 0.0 < e
    ensures s * (1.0 - Recall(k, s, e)) <= s' * (1.0 - Recall(k, s', e))
  {
    var x, x' := e / s, e / s';
    assert x * s == e && x' * s' == e;
    assert 0.0 < x' by { DivLe(e, 0.0, s'); }
    assert x' <= x by { ScaleLe(s, s', x'); DivLe(e, x', s); DivLe(e, x, s'); ScaleLe(s, s', x); }
    assert Secant(k.decay, x', x);
    assert k.decay(x) <= k.decay(x') <= k.decay(0.0) == 1.0;
    var f, f' := 1.0 - k.decay(x), 1.0 - k.decay(x');
    SecantScaled(f, f', x, x', s, s', e);
  }

  lemma SecantScaled(f: real, f': real, x: real, x': real, s: real, s': real, e: real)
    requires 0.0 < s && 0.0 < s' && 0.0 < e && x * s == e && x' * s' == e
    requires f * x' <= f' * x
    ensures s * f <= s' * f'
  {
  }

  lemma RewardArithmetic(s: real, s': real, r: real, r': real)
    requires 0.0 <= s <= s' && r < 0.9
    requires s * (1.0 - r) <= s' * (1.0 - r')
    ensures Rewarded(s, r) <= Rewarded(s', r')
  {
  }

  // ----- one review -----

  /** What every scheduled card satisfies. */
  ghost predicate Scheduled(card: Card) {
    && 1.0 <= card.difficulty <= 10.0
    && 0.25 <= card.stability
    && (card.reviews == 0 ==> card.stability == 1.0)
    && (card.reviews != 0 ==> card.lastReview.Some? && card.nextReview.Some?)
  }

  /** A review keeps the ranges, never books the next one within a quarter of a day or beyond
      1.25 stabilities, and grows the stability at most 5.8-fold. */
  lemma ScheduleReviewRanges(k: Kernel, card: Card, rating: Rating, now: real)
    requires Scheduled(card)
    ensures var s := ScheduleReview(k, card, rating, now);
      && Scheduled(CardOf(s))
      && s.lastReview == now
      && now + 0.25 <= s.nextReview <= now + 1.25 * s.stability
      && s.stability <= 5.8 * card.stability
      && s.reviews == card.reviews + 1
  {
    var b := OverdueBonus(RecallBefore(k, card, now));
    assert 1.0 <= b <= 1.45;
    var grown := card.stability * Growth(rating);
    MulLe(card.stability, card.stability, Growth(rating), 4.0);
    MulLe(grown, card.stability * 4.0, b, 1.45);
  }

  /** Everything a better rating or a stabler card can do for the next booking. */
  lemma BetterReviewIsStabler(s: real, s': real, rating: Rating, rating': Rating, r: real, r': real)
    requires 0.25 <= s <= s' && rating.Rank() <= rating'.Rank()
    requires Rewarded(s, r) <= Rewarded(s', r')
    ensures NextStability(s, rating, r) <= NextStability(s', rating', r')
    ensures Interval(NextStability(s, rating, r), rating) <= Interval(NextStability(s', rating', r'), rating')
  {
    var v, v' := Rewarded(s, r), Rewarded(s', r');
    ScaleLe(1.0, OverdueBonus(r'), s');
    RewardedForm(s, rating, r);
    RewardedForm(s', rating', r');
    MulLe(v, v', Growth(rating), Growth(rating')) by { ScaleLe(1.0, OverdueBonus(r), s); }
  }

  lemma RewardedForm(s: real, rating: Rating, r: real)
    ensures NextStability(s, rating, r)
      == if rating.Again? then Max(0.25, s * 0.45) else Max(0.5, (Rewarded(s, r)) * Growth(rating))
  {
  }

  lemma RewardAtLeast(s: real, r: real)
    requires 0.0 <= s
    ensures s <= Rewarded(s, r)
  {
    MulLe(0.0, s, 0.0, OverdueBonus(r) - 1.0);
  }

  lemma NextDifficultyMonotone(d: real, d': real, rating: Rating, rating': Rating)
    requires d' <= d && rating.Rank() <= rating'.Rank()
    ensures NextDifficulty(d', rating') <= NextDifficulty(d, rating)
  {
  }
}
