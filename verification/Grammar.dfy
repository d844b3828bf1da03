/** The grammar map's reading of a learner's rows, and what it says about rows that a correction
    rebuilt. */
module Grammar {
  import opened Prelude
  import opened Kernels
  import opened Fsrs
  import opened Replay
  import opened EvidenceLog
  import opened Correction
  import opened CorrectionRuns
  import Mastery

  datatype LearningStatus = NoEvidence | RepeatedFailure | Review | Stable | Forming

  function Accepted(rows: seq<Evidence>): seq<Evidence> {
    if rows == [] then []
    else Accepted(rows[..|rows| - 1]) + if rows[|rows| - 1].updates then [rows[|rows| - 1]] else []
  }

  predicate TrailingFailures(accepted: seq<Evidence>) {
    var n := |accepted|;
    n >= 2 && accepted[n - 2].attempt.outcome < 0.5 && accepted[n - 1].attempt.outcome < 0.5
  }

  predicate Due(state: StateRow, recall: Option<real>, now: real) {
    || (state.nextReview.Some? && state.nextReview.value <= now)
    || (recall.Some? && recall.value < 0.6)
  }

  function StatusFor(state: Option<StateRow>, rows: seq<Evidence>, recall: Option<real>, now: real): LearningStatus {
    var accepted := Accepted(rows);
    if state.None? || accepted == [] then NoEvidence
    else if TrailingFailures(accepted) then RepeatedFailure
    else if Due(state.value, recall, now) then Review
    else if state.value.mastery >= 0.8 && (recall.None? || recall.value >= 0.75) then Stable
    else Forming
  }

  function CurrentRecall(k: Kernel, card: Option<CardRow>, now: real): Option<real> {
    if card.None? then None
    else
      var c := card.value;
      Some(Retrievability(k, Card(c.difficulty, c.stability, Some(c.lastReview), Some(c.nextReview), c.reviews), now))
  }

  /** The recall the reader goes by: the forgetting curve at the time since the last review, measured
      in stabilities; none without a review row. */
  lemma CurrentRecallExactly(k: Kernel, card: Option<CardRow>, now: real)
    ensures CurrentRecall(k, card, now).None? <==> card.None?
    ensures card.Some? ==>
      var elapsed := Max(0.0, now - card.value.lastReview);
      CurrentRecall(k, card, now).value == Min(1.0, Max(0.0, k.decay(elapsed / Max(0.1, card.value.stability))))
  {
  }

  function Row<V>(rows: map<Pair, V>, pair: Pair): Option<V> {
    if pair in rows then Some(rows[pair]) else None
  }

  function MapStatus(k: Kernel, db: Db, pair: Pair, rows: seq<Evidence>, now: real): LearningStatus {
    StatusFor(Row(db.states, pair), rows, CurrentRecall(k, Row(db.cards, pair), now), now)
  }

  // ----- the reading, row by row -----

  ghost predicate AnyUpdates(rows: seq<Evidence>) {
    exists i :: 0 <= i < |rows| && rows[i].updates
  }

  /** Rows i and j are the last two that updated the learning state. */
  ghost predicate AreLastTwo(rows: seq<Evidence>, i: int, j: int) {
    && 0 <= i < j < |rows| && rows[i].updates && rows[j].updates
    && forall m :: i < m < |rows| && m != j ==> !rows[m].updates
  }

  /** The last two rows that updated the learning state both scored below one half. */
  ghost predicate LastTwoFailed(rows: seq<Evidence>) {
    exists i, j :: AreLastTwo(rows, i, j) && rows[i].attempt.outcome < 0.5 && rows[j].attempt.outcome < 0.5
  }

  /** The rows that updated the learning state, by their indices. */
  ghost predicate Indexes(rows: seq<Evidence>, accepted: seq<Evidence>, idx: seq<int>) {
    && |idx| == |accepted|
    && (forall m :: 0 <= m < |idx| ==> 0 <= idx[m] < |rows| && rows[idx[m]] == accepted[m] && accepted[m].updates)
    && (forall m, n :: 0 <= m < n < |idx| ==> idx[m] < idx[n])
    && (forall i :: 0 <= i < |rows| && rows[i].updates ==> i in idx)
  }

  lemma {:induction false} AcceptedIndexed(rows: seq<Evidence>) returns (idx: seq<int>)
    ensures Indexes(rows, Accepted(rows), idx)
    decreases |rows|
  {
    idx := [];
    if rows != [] {
      var n := |rows| - 1;
      var front := AcceptedIndexed(rows[..n]);
      idx := if rows[n].updates then front + [n] else front;
      IndexesSnoc(rows, Accepted(rows[..n]), front);
    }
  }

  lemma IndexesSnoc(rows: seq<Evidence>, accepted: seq<Evidence>, idx: seq<int>)
    requires rows != [] && Indexes(rows[..|rows| - 1], accepted, idx)
    ensures var n := |rows| - 1;
      if rows[n].updates then Indexes(rows, accepted + [rows[n]], idx + [n]) else Indexes(rows, accepted, idx)
  {
    var n := |rows| - 1;
    forall i | 0 <= i < |rows| && rows[i].updates ensures i == n || i in idx {
      if i < n { assert rows[..n][i].updates; }
    }
  }

  lemma TrailingFailuresExactly(rows: seq<Evidence>)
    ensures TrailingFailures(Accepted(rows)) <==> LastTwoFailed(rows)
    ensures Accepted(rows) == [] <==> !AnyUpdates(rows)
  {
    var idx := AcceptedIndexed(rows);
    hide Accepted;
    IndexedEnds(rows, Accepted(rows), idx);
  }

  lemma IndexedEnds(rows: seq<Evidence>, accepted: seq<Evidence>, idx: seq<int>)
    requires Indexes(rows, accepted, idx)
    ensures TrailingFailures(accepted) <==> LastTwoFailed(rows)
    ensures accepted == [] <==> !AnyUpdates(rows)
  {
    var n := |idx|;
    if n > 0 { assert rows[idx[0]].updates && rows[idx[n - 1]].updates; }
    if n >= 2 {
      assert rows[idx[n - 2]].updates;
      assert forall m :: m in idx ==> m <= idx[n - 2] || m == idx[n - 1];
      assert AreLastTwo(rows, idx[n - 2], idx[n - 1]);
    }
    forall i, j | AreLastTwo(rows, i, j) ensures n >= 2 && i == idx[n - 2] && j == idx[n - 1] {
      var p :| 0 <= p < n && idx[p] == i;
      var q :| 0 <= q < n && idx[q] == j;
    }
  }

  /** The reader's table for any rows: each status exactly when the ones before it do not apply. */
  lemma StatusExactly(state: Option<StateRow>, rows: seq<Evidence>, recall: Option<real>, now: real)
    ensures var status := StatusFor(state, rows, recall, now);
      var known := state.Some? && AnyUpdates(rows);
      var due := known && (
        || (state.value.nextReview.Some? && now >= state.value.nextReview.value)
        || (recall.Some? && recall.value < 0.6));
      var strong := known && state.value.mastery >= 0.8 && (recall.Some? ==> recall.value >= 0.75);
      && (status.NoEvidence? <==> !known)
      && (status.RepeatedFailure? <==> known && LastTwoFailed(rows))
      && (status.Review? <==> known && !LastTwoFailed(rows) && due)
      && (status.Stable? <==> known && !LastTwoFailed(rows) && !due && strong)
      && (status.Forming? <==> known && !LastTwoFailed(rows) && !due && !strong)
  {
    TrailingFailuresExactly(rows);
    hide Accepted, TrailingFailures, LastTwoFailed, AnyUpdates;
  }

  // ----- rows that were rebuilt -----

  /** Until its booked date a rebuilt card is recalled with probability at least 0.81. */
  lemma RecallUntilBooked(k: Kernel, last: Id, log: seq<Attempt>, now: real)
    requires k.Valid() && log != []
    requires now < RebuiltCard(k, last, log).nextReview
    ensures CurrentRecall(k, Some(RebuiltCard(k, last, log)), now).value >= 0.81
  {
    ReplayRanges(k, log);
    var c := RebuiltCard(k, last, log);
    RecallWithinTwoStabilities(k, c.stability, Elapsed(c.lastReview, now));
  }

  lemma RecallWithinTwoStabilities(k: Kernel, s: real, e: real)
    requires k.Valid() && 0.25 <= s && 0.0 <= e <= 2.0 * s
    ensures Recall(k, s, e) >= 0.81
  {
  }

  /** The unrevoked rows of a pair, in the order the reader's query happened to return them. */
  ghost predicate Unrevoked(table: Table, pair: Pair, ids: seq<Id>, rows: seq<Evidence>) {
    && |ids| == |rows|
    && (forall i :: 0 <= i < |ids| ==>
          ids[i] in table && rows[i] == table[ids[i]] && rows[i].pair == pair && rows[i].invalidatedAt.None?)
    && (forall id :: id in table && table[id].pair == pair && table[id].invalidatedAt.None? ==> id in ids)
  }

  lemma {:induction false} AcceptedEmpty(rows: seq<Evidence>)
    ensures Accepted(rows) == [] <==> forall i :: 0 <= i < |rows| ==> !rows[i].updates
  {
    if rows != [] {
      var n := |rows| - 1;
      AcceptedEmpty(rows[..n]);
      assert forall i :: 0 <= i < n ==> rows[..n][i] == rows[i];
    }
  }

  lemma AcceptedIffSurvivors(table: Table, pair: Pair, ids: seq<Id>, rows: seq<Evidence>)
    requires Unrevoked(table, pair, ids, rows)
    ensures Accepted(rows) == [] <==> Surviving(table, pair) == {}
  {
    AcceptedEmpty(rows);
    if id :| id in Surviving(table, pair) {
      var i :| 0 <= i < |ids| && ids[i] == id;
      assert rows[i].updates;
    }
    if i :| 0 <= i < |rows| && rows[i].updates {
      assert ids[i] in Surviving(table, pair);
    }
  }

  /** The reading of rows that follow a log, with or without a review row. */
  lemma StatusOfFollowingRows(k: Kernel, db: Db, pair: Pair, rows: seq<Evidence>, now: real)
    requires k.Valid() && pair in db.states
    requires StateFollowsLog(k, db, pair) && CardFollowsLog(k, db, pair)
    requires Accepted(rows) == [] <==> Log(db.evidence, pair) == []
    ensures MapStatus(k, db, pair, rows, now) == ExpectedStatus(Replayed(k, Log(db.evidence, pair)), rows, now)
  {
    var ids, log := Survivors(db.evidence, pair), Log(db.evidence, pair);
    ReplayRanges(k, log);
    assert |ids| == |log|;
    TrailingFailuresExactly(rows);
    hide Accepted, TrailingFailures, LastTwoFailed, AnyUpdates, Log, Survivors;
    if log != [] && now < Replayed(k, log).schedule.value.nextReview {
      RecallUntilBooked(k, ids[|ids| - 1], log, now);
    }
    hide Replayed, CurrentRecall;
  }

  ghost function ExpectedStatus(l: Learned, rows: seq<Evidence>, now: real): LearningStatus {
    if l.schedule.None? then NoEvidence
    else if LastTwoFailed(rows) then RepeatedFailure
    else if now >= l.schedule.value.nextReview then Review
    else if l.mastery >= Mastery.MASTERED then Stable
    else Forming
  }

  /** The truth table read off the rows themselves. */
  ghost predicate StatusTable(db: Db, pair: Pair, rows: seq<Evidence>, now: real, status: LearningStatus) {
    var known := pair in db.states && HasSurvivor(db, pair);
    && (known ==> db.states[pair].nextReview.Some?)
    && (status.NoEvidence? <==> !known)
    && (status.RepeatedFailure? <==> known && LastTwoFailed(rows))
    && (status.Review? <==> known && !LastTwoFailed(rows) && now >= db.states[pair].nextReview.value)
    && (status.Stable? <==>
          && known && !LastTwoFailed(rows) && now < db.states[pair].nextReview.value
          && db.states[pair].mastery >= 0.8)
  }

  lemma ExpectedInRows(k: Kernel, db: Db, pair: Pair, rows: seq<Evidence>, now: real)
    requires pair in db.states && StateFollowsLog(k, db, pair)
    ensures StatusTable(db, pair, rows, now, ExpectedStatus(Replayed(k, Log(db.evidence, pair)), rows, now))
  {
    SurvivorsInTable(db.evidence, pair);
    ReplayRanges(k, Log(db.evidence, pair));
    hide Replayed, LastTwoFailed, Surviving;
  }

  /** The whole truth table for a pair that corrections touched, with or without a review row: no
      evidence exactly when it has no state row or nothing survives; otherwise, unless the last two
      updating outcomes failed, due for review exactly from the booked date on (low recall never
      brings it forward), and before that stable exactly when mastery is at least 0.8. */
  lemma RebuiltStatus(k: Kernel, db: Db, rs: seq<Request>, pair: Pair,
                      ids: seq<Id>, rows: seq<Evidence>, now: real)
    requires k.Valid() && Touched(db, rs, pair)
    requires Unrevoked(Run(k, db, rs).evidence, pair, ids, rows)
    ensures var db' := Run(k, db, rs);
      && (pair in db'.states <==> pair in db.states)
      && StatusTable(db', pair, rows, now, MapStatus(k, db', pair, rows, now))
  {
    var db' := Run(k, db, rs);
    RunRebuilds(k, db, rs, pair);
    AcceptedIffSurvivors(db'.evidence, pair, ids, rows);
    SurvivorsInTable(db'.evidence, pair);
    hide Run, Replayed, StateFollowsLog, CardFollowsLog, StatusTable;
    if pair in db.states {
      StatusOfFollowingRows(k, db', pair, rows, now);
      ExpectedInRows(k, db', pair, rows, now);
    } else {
      NoRowNoStatus(k, db', pair, rows, now);
    }
  }

  lemma NoRowNoStatus(k: Kernel, db: Db, pair: Pair, rows: seq<Evidence>, now: real)
    requires pair !in db.states
    ensures StatusTable(db, pair, rows, now, MapStatus(k, db, pair, rows, now))
  {
  }

  // ----- time alone -----

  /** With no new evidence a point never leaves review, and stable never returns once lost. */
  lemma StatusOnlyDecays(k: Kernel, state: Option<StateRow>, rows: seq<Evidence>, card: Option<CardRow>,
                         now: real, later: real)
    requires k.Valid() && now <= later
    ensures StatusFor(state, rows, CurrentRecall(k, card, now), now).Review? ==>
      StatusFor(state, rows, CurrentRecall(k, card, later), later).Review?
    ensures StatusFor(state, rows, CurrentRecall(k, card, later), later).Stable? ==>
      StatusFor(state, rows, CurrentRecall(k, card, now), now).Stable?
  {
    if card.Some? {
      var c := card.value;
      RecallAntitone(k, c.stability, Elapsed(c.lastReview, now), Elapsed(c.lastReview, later));
    }
    hide Recall;
  }
}
