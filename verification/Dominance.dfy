/** Run-wide dominance of the scheduler: better attempts and wider spacing never give a
    worse-scheduled card, over replays of any length. */
module Dominance {
  import opened Prelude
  import opened Kernels
  import opened Fsrs
  import opened Replay

  /** `b` is at least as good an attempt as `a`. */
  ghost predicate AtLeastAsGood(a: Attempt, b: Attempt) {
    && (a.outcome >= PASS_SCORE ==> b.outcome >= PASS_SCORE)
    && (a.independent ==> b.independent)
    && b.hints <= a.hints
    && b.retries <= a.retries
    && (a.responseMs.Some? ==> b.responseMs.Some? && b.responseMs.value <= a.responseMs.value)
  }

  /** The wait before attempt i, counted as the scheduler counts it. */
  function Gap(log: seq<Attempt>, i: nat): real
    requires 0 < i < |log|
  {
    Elapsed(log[i - 1].at, log[i].at)
  }

  ghost predicate Dominates(ys: seq<Attempt>, xs: seq<Attempt>) {
    && |xs| == |ys|
    && (forall i :: 0 <= i < |xs| ==> AtLeastAsGood(xs[i], ys[i]))
    && (forall i :: 0 < i < |xs| ==> Gap(xs, i) <= Gap(ys, i))
  }

  function BookedInterval(s: Schedule): real {
    s.nextReview - s.lastReview
  }

  lemma BetterAttemptRatesHigher(a: Attempt, b: Attempt)
    requires AtLeastAsGood(a, b)
    ensures RatingFor(a).Rank() <= RatingFor(b).Rank()
  {
  }

  /** Card c' is at least as well placed as c. */
  ghost predicate NoWorse(c: Card, c': Card) {
    && Scheduled(c) && Scheduled(c')
    && c.reviews == c'.reviews
    && c.stability <= c'.stability
    && c'.difficulty <= c.difficulty
  }

  ghost predicate WaitedNoLonger(c: Card, now: real, c': Card, now': real)
    requires Scheduled(c) && Scheduled(c') && c.reviews == c'.reviews
  {
    c.reviews != 0 ==> Elapsed(c.lastReview.value, now) <= Elapsed(c'.lastReview.value, now')
  }

  lemma RewardBefore(k: Kernel, c: Card, c': Card, now: real, now': real)
    requires k.Valid() && NoWorse(c, c') && WaitedNoLonger(c, now, c', now')
    ensures Rewarded(c.stability, RecallBefore(k, c, now))
         <= Rewarded(c'.stability, RecallBefore(k, c', now'))
  {
    if c.reviews != 0 {
      RewardMonotone(k, c.stability, c'.stability,
                     Elapsed(c.lastReview.value, now), Elapsed(c'.lastReview.value, now'));
    }
  }

  /** One review preserves the advantage. */
  lemma DominanceStep(k: Kernel, c: Card, c': Card, a: Attempt, b: Attempt)
    requires k.Valid() && NoWorse(c, c') && WaitedNoLonger(c, a.at, c', b.at) && AtLeastAsGood(a, b)
    ensures var s, s' := ScheduleReview(k, c, RatingFor(a), a.at), ScheduleReview(k, c', RatingFor(b), b.at);
      && NoWorse(CardOf(s), CardOf(s'))
      && s.rating.Rank() <= s'.rating.Rank()
      && BookedInterval(s) <= BookedInterval(s')
  {
    var r, r' := RatingFor(a), RatingFor(b);
    BetterAttemptRatesHigher(a, b);
    RewardBefore(k, c, c', a.at, b.at);
    BetterReviewIsStabler(c.stability, c'.stability, r, r', RecallBefore(k, c, a.at), RecallBefore(k, c', b.at));
    NextDifficultyMonotone(c.difficulty, c'.difficulty, r, r');
    ScheduleReviewRanges(k, c, r, a.at);
    ScheduleReviewRanges(k, c', r', b.at);
  }

  /** If every attempt of ys is at least as good as its partner in xs and no gap is shorter, then
      ys ends with a rating and a stability no lower, a difficulty no higher and a booked
      interval no shorter. */
  lemma {:induction false} SchedulerDominance(k: Kernel, xs: seq<Attempt>, ys: seq<Attempt>)
    requires k.Valid() && Dominates(ys, xs)
    ensures Replayed(k, xs).Card().stability <= Replayed(k, ys).Card().stability
    ensures Replayed(k, ys).Card().difficulty <= Replayed(k, xs).Card().difficulty
    ensures xs != [] ==>
      var s, s' := Replayed(k, xs).schedule.value, Replayed(k, ys).schedule.value;
      && s.rating.Rank() <= s'.rating.Rank()
      && BookedInterval(s) <= BookedInterval(s')
    decreases |xs|
  {
    if xs != [] {
      var n := |xs| - 1;
      var xs0, ys0 := xs[..n], ys[..n];
      assert forall i :: 0 < i < n ==> Gap(xs0, i) == Gap(xs, i) && Gap(ys0, i) == Gap(ys, i);
      SchedulerDominance(k, xs0, ys0);
      ReplayRanges(k, xs0);
      ReplayRanges(k, ys0);
      var c, c' := Replayed(k, xs0).Card(), Replayed(k, ys0).Card();
      assert n > 0 ==> Gap(xs, n) <= Gap(ys, n);
      DominanceStep(k, c, c', xs[n], ys[n]);
    }
  }

  /** With the same review times, the better log also has its next review no earlier. */
  lemma NextReviewDominance(k: Kernel, xs: seq<Attempt>, ys: seq<Attempt>)
    requires k.Valid() && xs != [] && |xs| == |ys|
    requires forall i :: 0 <= i < |xs| ==> AtLeastAsGood(xs[i], ys[i]) && xs[i].at == ys[i].at
    ensures Replayed(k, xs).schedule.value.nextReview <= Replayed(k, ys).schedule.value.nextReview
    ensures Replayed(k, xs).schedule.value.stability <= Replayed(k, ys).schedule.value.stability
    ensures Replayed(k, ys).schedule.value.difficulty <= Replayed(k, xs).schedule.value.difficulty
    ensures forall i :: 0 <= i < |xs| ==> RatingFor(xs[i]).Rank() <= RatingFor(ys[i]).Rank()
  {
    assert forall i :: 0 < i < |xs| ==> Gap(xs, i) == Gap(ys, i);
    SchedulerDominance(k, xs, ys);
    ReplayRanges(k, xs);
    ReplayRanges(k, ys);
    forall i | 0 <= i < |xs| ensures RatingFor(xs[i]).Rank() <= RatingFor(ys[i]).Rank() {
      BetterAttemptRatesHigher(xs[i], ys[i]);
    }
  }
}
