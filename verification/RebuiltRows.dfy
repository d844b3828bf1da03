/** The derived rows that any sequence of corrections leaves, field by field, in terms of the surviving
    evidence. */
module RebuiltRows {
  import opened Prelude
  import opened Kernels
  import opened Irt
  import opened Fsrs
  import opened Replay
  import opened EvidenceLog
  import opened Correction
  import opened CorrectionRuns
  import Policy
  import RowOrder
  import Text

  /** The survivor listed last. */
  ghost predicate IsLast(table: Table, pair: Pair, id: Id) {
    && id in Surviving(table, pair)
    && forall x :: x in Surviving(table, pair) && x != id ==>
      table[x].attempt.at < table[id].attempt.at || (table[x].attempt.at == table[id].attempt.at && x < id)
  }

  function Passed(table: Table, ids: set<Id>): set<Id>
    requires ids <= table.Keys
  {
    set id | id in ids && table[id].attempt.outcome >= 0.6
  }

  lemma {:induction false} CountPassed(table: Table, ids: seq<Id>)
    requires forall i :: 0 <= i < |ids| ==> ids[i] in table
    requires forall i, j :: 0 <= i < j < |ids| ==> ids[i] != ids[j]
    ensures CorrectCount(Attempts(table, ids)) == |Passed(table, set id | id in ids)|
    decreases |ids|
  {
    if ids != [] {
      var n := |ids| - 1;
      CountPassed(table, ids[..n]);
      PassedSnoc(table, ids);
      CorrectCountSnoc(table, ids);
      hide CorrectCount, Passed;
    }
  }

  lemma CorrectCountSnoc(table: Table, ids: seq<Id>)
    requires ids != [] && forall i :: 0 <= i < |ids| ==> ids[i] in table
    ensures var n := |ids| - 1;
      CorrectCount(Attempts(table, ids))
      == CorrectCount(Attempts(table, ids[..n])) + if table[ids[n]].attempt.outcome >= 0.6 then 1 else 0
  {
    var n := |ids| - 1;
    assert Attempts(table, ids)[..n] == Attempts(table, ids[..n]);
  }

  lemma PassedSnoc(table: Table, ids: seq<Id>)
    requires ids != [] && forall i :: 0 <= i < |ids| ==> ids[i] in table
    requires forall i, j :: 0 <= i < j < |ids| ==> ids[i] != ids[j]
    ensures var n := |ids| - 1;
      |Passed(table, set id | id in ids)|
      == |Passed(table, set id | id in ids[..n])| + if table[ids[n]].attempt.outcome >= 0.6 then 1 else 0
  {
    var n := |ids| - 1;
    var before, after := Passed(table, set id | id in ids[..n]), Passed(table, set id | id in ids);
    assert forall id :: id in ids <==> id in ids[..n] || id == ids[n];
    assert after == before + if table[ids[n]].attempt.outcome >= 0.6 then {ids[n]} else {};
    assert ids[n] !in before;
  }

  /** The log in terms of the set of survivors. */
  lemma LogFacts(table: Table, pair: Pair)
    ensures var left, log := Surviving(table, pair), Log(table, pair);
      && left <= table.Keys
      && |log| == |left| == |Survivors(table, pair)|
      && CorrectCount(log) == |Passed(table, left)|
      && (forall id :: IsLast(table, pair, id) ==>
            log != [] && log[|log| - 1] == table[id].attempt && Survivors(table, pair)[|log| - 1] == id)
      && (left != {} ==> exists id :: IsLast(table, pair, id))
  {
    var ids := Survivors(table, pair);
    SurvivorsInTable(table, pair);
    RowOrder.SortedOrder(Times(table), Surviving(table, pair));
    hide RowOrder.Sorted;
    var listed := set id | id in ids;
    assert listed == Surviving(table, pair);
    hide Surviving, CorrectCount;
    assert CorrectCount(Attempts(table, ids)) == |Passed(table, listed)| by {
      forall i, j | 0 <= i < j < |ids| ensures ids[i] != ids[j] {
        assert RowOrder.Before(Times(table), ids[i], ids[j]);
      }
      CountPassed(table, ids);
    }
    LastIsLast(table, pair, ids);
  }

  lemma LastIsLast(table: Table, pair: Pair, ids: seq<Id>)
    requires forall id :: id in ids <==> id in Surviving(table, pair)
    requires Surviving(table, pair) <= table.Keys
    requires forall i, j :: 0 <= i < j < |ids| ==>
      ids[i] in table && ids[j] in table && RowOrder.Before(Times(table), ids[i], ids[j])
    ensures ids != [] ==> IsLast(table, pair, ids[|ids| - 1])
    ensures forall id :: IsLast(table, pair, id) ==> ids != [] && id == ids[|ids| - 1]
  {
    hide Surviving;
    if ids != [] {
      var last := ids[|ids| - 1];
      forall x | x in Surviving(table, pair) && x != last
        ensures RowOrder.Before(Times(table), x, last)
      {
        var i :| 0 <= i < |ids| && ids[i] == x;
      }
    }
  }

  // ----- the learner-state row -----

  /** Every field of the state row, given the survivors. */
  ghost predicate StateRowOf(k: Kernel, table: Table, pair: Pair, row: StateRow) {
    var left := Surviving(table, pair);
    && left <= table.Keys
    && row.mastery == Replayed(k, LogOf(table, left)).mastery
    && row.ability == row.mastery
    && row.exposure == |left|
    && row.correct == |Passed(table, left)|
    && (row.status.Mastered? <==> row.mastery >= 0.8)
    && (row.status.NotStarted? <==> left == {} && row.mastery < 0.8)
    && (left == {} ==>
          row.mastery == 0.0 && row.lastSeen.None? && row.predicted.None? && row.nextReview.None?)
    && (left != {} ==> exists id :: IsLast(table, pair, id))
    && (forall id :: IsLast(table, pair, id) ==>
          && row.lastSeen == Some(table[id].attempt.at)
          && row.predicted == Some(PredictSuccess(k, row.mastery, table[id].attempt.difficulty))
          && row.nextReview.Some? && row.nextReview.value >= table[id].attempt.at + 0.25)
  }

  lemma PredictedOfLast(k: Kernel, log: seq<Attempt>)
    requires log != []
    ensures var l := Replayed(k, log);
      l.predicted == Some(PredictSuccess(k, l.mastery, log[|log| - 1].difficulty))
  {
    hide PredictSuccess, ScheduleReview;
  }

  lemma StateOfLog(k: Kernel, log: seq<Attempt>)
    ensures var row, l := RebuiltState(k, log), Replayed(k, log);
      && row.mastery == row.ability == l.mastery
      && row.exposure == |log| && row.correct == CorrectCount(log)
      && (row.status.Mastered? <==> row.mastery >= 0.8)
      && (row.status.NotStarted? <==> log == [] && row.mastery < 0.8)
      && (log == [] ==> row.mastery == 0.0 && row.lastSeen.None? && row.predicted.None? && row.nextReview.None?)
      && (log != [] ==>
            var last := log[|log| - 1];
            && row.lastSeen == Some(last.at)
            && row.predicted == Some(PredictSuccess(k, row.mastery, last.difficulty))
            && l.schedule.Some? && row.nextReview == Some(l.schedule.value.nextReview)
            && row.nextReview.value >= last.at + 0.25)
  {
    ReplayRanges(k, log);
    if log == [] { Mastery0(k); } else { PredictedOfLast(k, log); }
    hide Replayed, CorrectCount, PredictSuccess;
  }

  lemma StateFields(k: Kernel, db: Db, pair: Pair)
    requires StateFollowsLog(k, db, pair) && pair in db.states
    ensures StateRowOf(k, db.evidence, pair, db.states[pair])
  {
    LogFacts(db.evidence, pair);
    LogIsOfSurviving(db.evidence, pair);
    StateOfLog(k, Log(db.evidence, pair));
    hide RebuiltState, Replayed, Log, LogOf, Surviving, CorrectCount, PredictSuccess, Survivors, IsLast, Passed;
  }

  lemma Mastery0(k: Kernel)
    ensures Replayed(k, []) == BLANK
  {
  }

  // ----- the review row -----

  /** Every field of the review row, given the survivors; there is one only if something survives. */
  ghost predicate CardRowOf(k: Kernel, table: Table, pair: Pair, card: CardRow) {
    var left := Surviving(table, pair);
    && left <= table.Keys && left != {}
    && card.difficulty == Replayed(k, LogOf(table, left)).Card().difficulty
    && card.stability == Replayed(k, LogOf(table, left)).Card().stability
    && card.retrievability == 1.0
    && card.reviews == |left|
    && IsLast(table, pair, card.lastEvidence)
    && RatedAs(card.lastRating, table[card.lastEvidence].attempt)
    && card.lastReview == table[card.lastEvidence].attempt.at
    && card.nextReview
       == card.lastReview + (match card.lastRating
                             case Again => card.stability
                             case Hard => 0.8 * card.stability
                             case Good => card.stability
                             case Easy => 1.25 * card.stability)
  }

  lemma BookingOfLast(k: Kernel, log: seq<Attempt>)
    requires log != []
    ensures var l := Replayed(k, log);
      && l.schedule.Some? && RatedAs(RatingFor(log[|log| - 1]), log[|log| - 1])
      && var s := l.schedule.value;
         s.nextReview == s.lastReview + (match RatingFor(log[|log| - 1])
                                         case Again => s.stability
                                         case Hard => 0.8 * s.stability
                                         case Good => s.stability
                                         case Easy => 1.25 * s.stability)
  {
    var n := |log| - 1;
    assert log == log[..n] + [log[n]];
    ReviewExactly(k, log[..n], log[n]);
    RatingExactly(log[n]);
    ReplayRanges(k, log);
    hide Replayed, RatingFor;
  }

  lemma CardFields(k: Kernel, db: Db, pair: Pair)
    requires CardFollowsLog(k, db, pair) && pair in db.cards
    ensures CardRowOf(k, db.evidence, pair, db.cards[pair])
  {
    var log := Log(db.evidence, pair);
    LogFacts(db.evidence, pair);
    LogIsOfSurviving(db.evidence, pair);
    ReplayRanges(k, log);
    BookingOfLast(k, log);
    hide Replayed, Log, LogOf, Surviving, Survivors, IsLast, RatedAs, RatingFor;
    var id :| IsLast(db.evidence, pair, id);
  }

  // ----- the policy row -----

  /** What the latest policy row says, given the survivors. */
  ghost predicate PolicyRowOf(k: Kernel, table: Table, pair: Pair, row: PolicyRow) {
    var left := Surviving(table, pair);
    && left <= table.Keys
    && row.mastery == Replayed(k, LogOf(table, left)).mastery
    && row.retrievability == 1.0
    && Policy.PlanFor(row.policy, pair.point, row.mastery, 1.0, 0.0)
  }

  lemma PolicyFields(k: Kernel, db: Db, pair: Pair)
    requires PolicyFollowsLog(k, db, pair) && HasSurvivor(db, pair) && LatestPolicy(db.policies, pair).Some?
    ensures PolicyRowOf(k, db.evidence, pair, db.policies[LatestPolicy(db.policies, pair).value])
  {
    var log := Log(db.evidence, pair);
    LogFacts(db.evidence, pair);
    LogIsOfSurviving(db.evidence, pair);
    ReplayRanges(k, log);
    Policy.CompileExactly(pair.point, Replayed(k, log).mastery, 1.0, 0.0, None, false);
    hide Replayed, Log, LogOf, Surviving, Survivors, IsLast, Policy.Compile, Policy.PlanFor;
  }

  // ----- after any run -----

  /** After any sequence of corrections that names a pair, its state row counts, dates, predicts and
      classifies exactly the survivors; its review row is there exactly when it was and something
      survives, and rates, dates and books the last survivor; state and review row book the same
      date; and while something survives the latest policy is the plan for the same mastery. */
  lemma RowsAfterRun(k: Kernel, db: Db, rs: seq<Request>, pair: Pair)
    requires Touched(db, rs, pair)
    ensures var db' := Run(k, db, rs);
      && Surviving(db'.evidence, pair) == Surviving(db.evidence, pair) - Ids(rs)
      && (pair in db'.states <==> pair in db.states)
      && (pair in db'.states ==> StateRowOf(k, db'.evidence, pair, db'.states[pair]))
      && (pair in db'.cards <==> pair in db.cards && Surviving(db'.evidence, pair) != {})
      && (pair in db'.cards ==> CardRowOf(k, db'.evidence, pair, db'.cards[pair]))
      && (pair in db'.states && pair in db'.cards ==>
            db'.states[pair].nextReview == Some(db'.cards[pair].nextReview))
      && (LatestPolicy(db'.policies, pair).Some? && Surviving(db'.evidence, pair) != {} ==>
            PolicyRowOf(k, db'.evidence, pair, db'.policies[LatestPolicy(db'.policies, pair).value]))
  {
    RunRebuilds(k, db, rs, pair);
    var db' := Run(k, db, rs);
    hide Run, StateRowOf, CardRowOf, PolicyRowOf, Surviving;
    if pair in db'.states { StateFields(k, db', pair); }
    if pair in db'.cards { CardFields(k, db', pair); }
    if LatestPolicy(db'.policies, pair).Some? && Surviving(db'.evidence, pair) != {} { PolicyFields(k, db', pair); }
    SameBooking(k, db', pair);
    hide StateFollowsLog, CardFollowsLog, PolicyFollowsLog;
  }

  lemma SameBooking(k: Kernel, db: Db, pair: Pair)
    requires StateFollowsLog(k, db, pair) && CardFollowsLog(k, db, pair)
    ensures pair in db.states && pair in db.cards ==> db.states[pair].nextReview == Some(db.cards[pair].nextReview)
  {
    ReplayRanges(k, Log(db.evidence, pair));
    LogFacts(db.evidence, pair);
    hide Replayed, Log, Survivors, Surviving, IsLast, CorrectCount;
  }

  /** What the service reports is what it stored. */
  lemma ReportExactly(k: Kernel, db: Db, id: Id, reason: string, now: real)
    requires id in db.evidence
    ensures var db', pair := Correct(k, db, id, reason, now), db.evidence[id].pair;
      var report := ReportOf(k, db'.evidence, id);
      && report.evidence == id
      && report.replayed == |Surviving(db'.evidence, pair)|
      && (pair in db'.states ==>
            report.mastery == db'.states[pair].mastery && report.nextReview == db'.states[pair].nextReview)
  {
    var db', pair := Correct(k, db, id, reason, now), db.evidence[id].pair;
    StepRebuilds(k, db, id, reason, now);
    EvidenceStep(db, k, id, reason, now, pair);
    LogFacts(db'.evidence, pair);
    hide Replayed, Log, Surviving, Correct, CardFollowsLog, PolicyFollowsLog;
  }

  /** A row first named by request i carries its time and its reason, stripped and cut at 500. */
  lemma FirstMarkExactly(k: Kernel, db: Db, rs: seq<Request>, id: Id, i: nat)
    requires id in db.evidence && db.evidence[id].invalidatedAt.None?
    requires i < |rs| && rs[i].id == id && forall j :: 0 <= j < i ==> rs[j].id != id
    ensures id in Run(k, db, rs).evidence
    ensures var e, reason := Run(k, db, rs).evidence[id], Text.Strip(rs[i].reason);
      e == db.evidence[id].(
        invalidatedAt := Some(rs[i].at),
        invalidationReason := Some(if |reason| <= 500 then reason else reason[..500]))
  {
    FirstMarkStays(k, db, rs, id);
    FirstNamed(rs, id, i);
    hide Run, Text.Strip;
  }

  lemma {:induction false} FirstNamed(rs: seq<Request>, id: Id, i: nat)
    requires i < |rs| && rs[i].id == id && forall j :: 0 <= j < i ==> rs[j].id != id
    ensures FirstNaming(rs, id) == Some(rs[i])
    decreases |rs|
  {
    var n := |rs| - 1;
    if i < n { FirstNamed(rs[..n], id, i); } else { NoneNamed(rs[..n], id); }
  }

  lemma {:induction false} NoneNamed(rs: seq<Request>, id: Id)
    requires forall j :: 0 <= j < |rs| ==> rs[j].id != id
    ensures FirstNaming(rs, id) == None
    decreases |rs|
  {
    if rs != [] { NoneNamed(rs[..|rs| - 1], id); }
  }
}
