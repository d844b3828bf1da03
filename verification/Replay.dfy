/** The deterministic fold that rebuilds a learner's state for one knowledge point from the
    surviving evidence, and what holds after every run of it. */
module Replay {
  import opened Prelude
  import opened Kernels
  import opened Irt
  import opened Fsrs

  const PASS_SCORE := 0.6

  /** The part of an assessment record that the fold reads; `at` is its creation time in days. */
  datatype Attempt = Attempt(
    outcome: real,
    difficulty: real,
    independent: bool,
    hints: nat,
    retries: nat,
    responseMs: Option<nat>,
    at: real)

  datatype Learned = Learned(mastery: real, predicted: Option<real>, schedule: Option<Schedule>) {
    function Card(): Card {
      if schedule.None? then NEW_CARD else CardOf(schedule.value)
    }
  }

  const BLANK := Learned(0.0, None, None)

  function RatingFor(a: Attempt): Rating {
    InferRating(a.outcome >= PASS_SCORE, a.independent, a.hints, a.retries, a.responseMs, false)
  }

  function Absorb(k: Kernel, l: Learned, a: Attempt): Learned {
    var irt := UpdateAbility(k, l.mastery, a.outcome, a.difficulty, a.independent, a.hints, a.retries);
    Learned(irt.ability, Some(irt.predictedSuccess),
            Some(ScheduleReview(k, l.Card(), RatingFor(a), a.at)))
  }

  /** The state after absorbing `log` from left to right. */
  function Replayed(k: Kernel, log: seq<Attempt>): Learned {
    if log == [] then BLANK
    else Absorb(k, Replayed(k, log[..|log| - 1]), log[|log| - 1])
  }

  function CorrectCount(log: seq<Attempt>): nat {
    if log == [] then 0
    else CorrectCount(log[..|log| - 1]) + if log[|log| - 1].outcome >= PASS_SCORE then 1 else 0
  }

  method ReplayEvidence(k: Kernel, log: seq<Attempt>)
    returns (mastery: real, predicted: Option<real>, schedule: Option<Schedule>)
    ensures Learned(mastery, predicted, schedule) == Replayed(k, log)
  {
    mastery, predicted, schedule := 0.0, None, None;
    var fsrsState := NEW_CARD;
    for i := 0 to |log|
      invariant Learned(mastery, predicted, schedule) == Replayed(k, log[..i])
      invariant fsrsState == Learned(mastery, predicted, schedule).Card()
    {
      var item := log[i];
      var irt := UpdateAbility(k, mastery, item.outcome, item.difficulty, item.independent, item.hints, item.retries);
      mastery := irt.ability;
      predicted := Some(irt.predictedSuccess);
      var booked := ScheduleReview(k, fsrsState, RatingFor(item), item.at);
      schedule := Some(booked);
      fsrsState := CardOf(booked);
      assert log[..i + 1][..i] == log[..i];
    }
    assert log[..|log|] == log;
  }

  /** Replaying a longer log continues from the state of its prefix. */
  lemma {:induction false} ReplayedAppend(k: Kernel, log: seq<Attempt>, a: Attempt)
    ensures Replayed(k, log + [a]) == Absorb(k, Replayed(k, log), a)
  {
  }

  // ----- one replayed step, in numbers -----

  /** Again for an outcome below 0.6; passed with any help, Hard; unaided within three seconds, Easy;
      otherwise Good. */
  ghost predicate RatedAs(rating: Rating, a: Attempt) {
    var aided := !a.independent || a.hints > 0 || a.retries > 0;
    var fast := a.responseMs.Some? && a.responseMs.value <= 3000;
    && (rating.Again? <==> a.outcome < 0.6)
    && (rating.Hard? <==> a.outcome >= 0.6 && aided)
    && (rating.Easy? <==> a.outcome >= 0.6 && !aided && fast)
    && (rating.Good? <==> a.outcome >= 0.6 && !aided && !fast)
  }

  lemma RatingExactly(a: Attempt)
    ensures RatedAs(RatingFor(a), a)
  {
  }

  /** A stability multiplied by `growth` and by the bonus for a review that was overdue: half of what
      recall fell short of 0.9. */
  function Grown(stability: real, growth: real, recall: real): real {
    growth * (stability * (1.0 + 0.5 * Max(0.0, 0.9 - recall)))
  }

  /** The probability, just before `a`, of recalling what was last reviewed at the end of the log; a
      card never reviewed counts as forgotten. */
  function RecallAt(k: Kernel, log: seq<Attempt>, a: Attempt): real {
    if log == [] then 0.0
    else
      var elapsed, stability := a.at - log[|log| - 1].at, Replayed(k, log).Card().stability;
      Min(1.0, Max(0.0, k.decay(Max(0.0, elapsed) / Max(0.1, stability))))
  }

  lemma RecallIsRecallAt(k: Kernel, log: seq<Attempt>, a: Attempt)
    ensures RecallBefore(k, Replayed(k, log).Card(), a.at) == RecallAt(k, log, a)
  {
    ReplayRanges(k, log);
  }

  lemma NextStabilityExactly(s: real, recall: real)
    ensures NextStability(s, Again, recall) == Max(0.25, 0.45 * s)
    ensures NextStability(s, Hard, recall) == Max(0.5, Grown(s, 1.35, recall))
    ensures NextStability(s, Good, recall) == Max(0.5, Grown(s, 2.5, recall))
    ensures NextStability(s, Easy, recall) == Max(0.5, Grown(s, 4.0, recall))
  {
    RewardedForm(s, Hard, recall);
    RewardedForm(s, Good, recall);
    RewardedForm(s, Easy, recall);
  }

  /** What one more attempt makes of the schedule, after any history. */
  lemma ReviewExactly(k: Kernel, log: seq<Attempt>, a: Attempt)
    ensures Replayed(k, log + [a]).schedule.Some?
    ensures var c, next := Replayed(k, log).Card(), Replayed(k, log + [a]).schedule.value;
      var s, recall := c.stability, RecallAt(k, log, a);
      && RatedAs(next.rating, a) && next.lastReview == a.at && next.reviews == |log| + 1
      && next.retrievability == 1.0
      && (log == [] ==> c.difficulty == 5.0 && s == 1.0)
      && match next.rating
         case Again =>
           && next.difficulty == Min(10.0, c.difficulty + 0.8)
           && next.stability == Max(0.25, 0.45 * s) && next.nextReview == a.at + next.stability
         case Hard =>
           && next.difficulty == Min(10.0, c.difficulty + 0.15)
           && next.stability == Max(0.5, Grown(s, 1.35, recall)) && next.nextReview == a.at + 0.8 * next.stability
         case Good =>
           && next.difficulty == Max(1.0, c.difficulty - 0.15)
           && next.stability == Max(0.5, Grown(s, 2.5, recall)) && next.nextReview == a.at + next.stability
         case Easy =>
           && next.difficulty == Max(1.0, c.difficulty - 0.35)
           && next.stability == Max(0.5, Grown(s, 4.0, recall)) && next.nextReview == a.at + 1.25 * next.stability
  {
    ReplayedAppend(k, log, a);
    ReplayRanges(k, log);
    RecallIsRecallAt(k, log, a);
    NextStabilityExactly(Replayed(k, log).Card().stability, RecallAt(k, log, a));
    FreshCard(k);
    RatingExactly(a);
    hide Replayed, RatingFor, RatedAs, RecallBefore, RecallAt, NextStability, Grown;
  }

  lemma FreshCard(k: Kernel)
    ensures Replayed(k, []).Card() == NEW_CARD
  {
  }

  function Power(base: real, n: nat): real {
    if n == 0 then 1.0 else Power(base, n - 1) * base
  }

  function ReviewsPassed(log: seq<Attempt>): nat {
    |set i | 0 <= i < |log| && !RatingFor(log[i]).Again?|
  }

  /** After every log of n attempts: mastery lies in [0, 1]; a booking exists exactly when n > 0,
      counts n reviews, dates from the last attempt, lies a quarter of a day to 1.25 stabilities
      ahead, and keeps difficulty in [1, 10] and stability in [0.25, 5.8^n]. */
  lemma {:induction false} ReplayRanges(k: Kernel, log: seq<Attempt>)
    ensures var l := Replayed(k, log);
      && 0.0 <= l.mastery <= 1.0
      && Scheduled(l.Card())
      && l.Card().reviews == |log|
      && l.Card().stability <= Power(5.8, |log|)
      && (l.schedule.Some? <==> log != [])
      && (l.predicted.Some? <==> log != [])
      && (log != [] ==>
            && l.schedule.value.lastReview == log[|log| - 1].at
            && l.schedule.value.rating == RatingFor(log[|log| - 1])
            && l.schedule.value.lastReview + 0.25 <= l.schedule.value.nextReview
            && l.schedule.value.nextReview <= l.schedule.value.lastReview + 1.25 * l.schedule.value.stability)
  {
    if log != [] {
      var front, a := log[..|log| - 1], log[|log| - 1];
      ReplayRanges(k, front);
      ScheduleReviewRanges(k, Replayed(k, front).Card(), RatingFor(a), a.at);
    }
  }

  // ----- runs of passes and runs of lapses -----

  lemma PassGrows(k: Kernel, card: Card, rating: Rating, now: real)
    requires 0.25 <= card.stability && !rating.Again?
    ensures var s := ScheduleReview(k, card, rating, now);
      1.35 * card.stability <= s.stability && 0.8 * s.stability <= s.nextReview - now
  {
    var recall := RecallBefore(k, card, now);
    var stability, rewarded := NextStability(card.stability, rating, recall), Rewarded(card.stability, recall);
    RewardAtLeast(card.stability, recall);
    RewardedForm(card.stability, rating, recall);
    hide RecallBefore, OverdueBonus, Rewarded, NextStability;
    MulLe(1.35, Growth(rating), rewarded, rewarded);
    ScaleLe(0.8, IntervalFactor(rating), stability);
  }

  function StabilityAfter(k: Kernel, log: seq<Attempt>): real {
    Replayed(k, log).Card().stability
  }

  /** How far ahead the next review is booked; nothing is booked after an empty log. */
  function BookedAfter(k: Kernel, log: seq<Attempt>): real {
    var s := Replayed(k, log).schedule;
    if s.None? then 0.0 else s.value.nextReview - s.value.lastReview
  }

  lemma PassedAppend(k: Kernel, log: seq<Attempt>, a: Attempt)
    requires !RatingFor(a).Again?
    ensures 1.35 * StabilityAfter(k, log) <= StabilityAfter(k, log + [a])
    ensures 0.8 * StabilityAfter(k, log + [a]) <= BookedAfter(k, log + [a])
  {
    ReplayedAppend(k, log, a);
    ReplayRanges(k, log);
    PassGrows(k, Replayed(k, log).Card(), RatingFor(a), a.at);
    hide Replayed, RatingFor, ScheduleReview;
  }

  lemma LapsedAppend(k: Kernel, log: seq<Attempt>, a: Attempt)
    requires RatingFor(a).Again?
    ensures StabilityAfter(k, log + [a]) == Max(0.25, 0.45 * StabilityAfter(k, log)) == BookedAfter(k, log + [a])
  {
    ReplayedAppend(k, log, a);
    ReplayRanges(k, log);
    hide Replayed, RatingFor, RecallBefore;
  }

  /** Whatever came before, n passed reviews in a row multiply the stability at least 1.35^n-fold,
      and the next one is booked at least 0.8 of that stability ahead. */
  lemma {:induction false} PassedRunGrows(k: Kernel, log: seq<Attempt>, run: seq<Attempt>)
    requires run != [] && forall i :: 0 <= i < |run| ==> !RatingFor(run[i]).Again?
    ensures Power(1.35, |run|) * StabilityAfter(k, log) <= StabilityAfter(k, log + run)
    ensures 0.8 * StabilityAfter(k, log + run) <= BookedAfter(k, log + run)
    decreases |run|
  {
    hide RatingFor, StabilityAfter, BookedAfter, Power;
    var n := |run| - 1;
    var front, a := run[..n], run[n];
    assert log + run == log + front + [a];
    PassedAppend(k, log + front, a);
    if n == 0 { assert log + front == log; } else { PassedRunGrows(k, log, front); }
    PowerStep(1.35, n, StabilityAfter(k, log));
  }

  /** What n lapses leave of a stability: 0.45^n of it, but never less than a quarter of a day. */
  function Lapsed(stability: real, n: nat): real {
    Max(0.25, Power(0.45, n) * stability)
  }

  lemma LapsedStep(stability: real, n: nat)
    ensures Lapsed(stability, n + 1) == Max(0.25, 0.45 * Lapsed(stability, n))
    ensures Lapsed(stability, 1) == Max(0.25, 0.45 * stability)
  {
    PowerStep(0.45, n, stability);
    PowerStep(0.45, 0, stability);
    hide Power;
  }

  /** Whatever came before, n lapses in a row leave exactly that, and it is also the booked interval. */
  lemma {:induction false} LapsedRun(k: Kernel, log: seq<Attempt>, run: seq<Attempt>)
    requires run != [] && forall i :: 0 <= i < |run| ==> RatingFor(run[i]).Again?
    ensures StabilityAfter(k, log + run) == Lapsed(StabilityAfter(k, log), |run|) == BookedAfter(k, log + run)
    decreases |run|
  {
    hide RatingFor, StabilityAfter, BookedAfter, Lapsed;
    var n := |run| - 1;
    var front, a := run[..n], run[n];
    assert log + run == log + front + [a];
    LapsedAppend(k, log + front, a);
    if n == 0 { assert log + front == log; } else { LapsedRun(k, log, front); }
    LapsedStep(StabilityAfter(k, log), n);
  }

  lemma PowerStep(b: real, n: nat, s: real)
    ensures Power(b, n + 1) * s == b * (Power(b, n) * s)
    ensures Power(b, 0) * s == s
  {
  }

  lemma ReviewsPassedSnoc(log: seq<Attempt>)
    requires log != []
    ensures var n := |log| - 1;
      ReviewsPassed(log) == ReviewsPassed(log[..n]) + if RatingFor(log[n]).Again? then 0 else 1
  {
    var n := |log| - 1;
    hide RatingFor;
    var before := set i | 0 <= i < n && !RatingFor(log[..n][i]).Again?;
    var after := set i | 0 <= i < |log| && !RatingFor(log[i]).Again?;
    assert after == before + if RatingFor(log[n]).Again? then {} else {n};
  }

  /** The stored number of correct answers is the number of reviews not rated Again. */
  lemma {:induction false} CorrectCountIsPassedReviews(log: seq<Attempt>)
    ensures CorrectCount(log) == ReviewsPassed(log)
  {
    if log != [] {
      CorrectCountIsPassedReviews(log[..|log| - 1]);
      ReviewsPassedSnoc(log);
      hide ReviewsPassed;
    }
  }
}
