/** Invalidate one disputed piece of evidence and rebuild the derived rows of its learner and
    knowledge point: first as a function on table contents, then as the service that edits the
    row objects in place and is proved to compute that function. */
module Correction {
  import opened Prelude
  import opened Kernels
  import opened Fsrs
  import opened Replay
  import opened EvidenceLog
  import Mastery
  import Policy
  import RowOrder
  import Text

  datatype Status = NotStarted | Learning | Mastered

  datatype StateRow = StateRow(
    mastery: real,
    ability: real,
    predicted: Option<real>,
    exposure: nat,
    correct: nat,
    status: Status,
    lastSeen: Option<real>,
    nextReview: Option<real>)

  datatype CardRow = CardRow(
    lastEvidence: Id,
    difficulty: real,
    stability: real,
    retrievability: real,
    lastRating: Rating,
    reviews: nat,
    lastReview: real,
    nextReview: real)

  datatype PolicyRow = PolicyRow(
    pair: Pair,
    createdAt: real,
    policy: Policy.TeachingPolicy,
    mastery: real,
    retrievability: real)

  datatype Db = Db(
    evidence: Table,
    states: map<Pair, StateRow>,
    cards: map<Pair, CardRow>,
    policies: seq<PolicyRow>)

  datatype Error = EvidenceNotFound

  datatype Report = Report(evidence: Id, replayed: nat, mastery: real, nextReview: Option<real>)

  // ----- what a log of surviving attempts determines -----

  function StatusOf(mastery: real, log: seq<Attempt>): Status {
    if mastery >= Mastery.MASTERED then Mastered else if log != [] then Learning else NotStarted
  }

  function NextReviewOf(schedule: Option<Schedule>): Option<real> {
    if schedule.None? then None else Some(schedule.value.nextReview)
  }

  function RebuiltState(k: Kernel, log: seq<Attempt>): StateRow {
    var l := Replayed(k, log);
    StateRow(l.mastery, l.mastery, l.predicted, |log|, CorrectCount(log), StatusOf(l.mastery, log),
             if log == [] then None else Some(log[|log| - 1].at), NextReviewOf(l.schedule))
  }

  function RebuiltCard(k: Kernel, last: Id, log: seq<Attempt>): CardRow
    requires log != []
  {
    var s := Replayed(k, log).schedule.value;
    CardRow(last, s.difficulty, s.stability, 1.0, RatingFor(log[|log| - 1]), s.reviews, s.lastReview, s.nextReview)
  }

  function RebuiltPolicy(k: Kernel, row: PolicyRow, log: seq<Attempt>): PolicyRow {
    var l := Replayed(k, log);
    var recall := if l.schedule.Some? then 1.0 else 0.0;
    row.(policy := Policy.Compile(row.pair.point, l.mastery, recall, 0.0, None, false),
         mastery := l.mastery,
         retrievability := recall)
  }

  /** Index of the most recent policy row of a pair; the earliest such row when times tie. */
  function LatestPolicy(rows: seq<PolicyRow>, pair: Pair): (i: Option<nat>)
    ensures i.Some? ==>
      && i.value < |rows| && rows[i.value].pair == pair
      && forall j :: 0 <= j < |rows| && rows[j].pair == pair ==> rows[j].createdAt <= rows[i.value].createdAt
    ensures i.None? ==> forall j :: 0 <= j < |rows| ==> rows[j].pair != pair
  {
    if rows == [] then None
    else
      var n := |rows| - 1;
      var before := LatestPolicy(rows[..n], pair);
      assert forall j :: 0 <= j < n ==> rows[..n][j] == rows[j];
      if rows[n].pair == pair && (before.None? || rows[before.value].createdAt < rows[n].createdAt) then Some(n)
      else before
  }

  // ----- one correction, on table contents -----

  function Invalidated(e: Evidence, reason: string, now: real): Evidence {
    if e.invalidatedAt.None? then
      e.(invalidatedAt := Some(now), invalidationReason := Some(Text.Take(Text.Strip(reason), 500)))
    else e
  }

  function EvidenceAfter(table: Table, id: Id, reason: string, now: real): Table
    requires id in table
  {
    table[id := Invalidated(table[id], reason, now)]
  }

  function StatesAfter(k: Kernel, states: map<Pair, StateRow>, pair: Pair, log: seq<Attempt>): map<Pair, StateRow> {
    if pair in states then states[pair := RebuiltState(k, log)] else states
  }

  function CardsAfter(k: Kernel, cards: map<Pair, CardRow>, pair: Pair, ids: seq<Id>, log: seq<Attempt>)
    : map<Pair, CardRow>
    requires |ids| == |log|
  {
    if pair !in cards then cards
    else if log == [] then cards - {pair}
    else cards[pair := RebuiltCard(k, ids[|ids| - 1], log)]
  }

  function PoliciesAfter(k: Kernel, rows: seq<PolicyRow>, pair: Pair, log: seq<Attempt>): seq<PolicyRow> {
    var latest := LatestPolicy(rows, pair);
    if log == [] || latest.None? then rows
    else rows[latest.value := RebuiltPolicy(k, rows[latest.value], log)]
  }

  function Correct(k: Kernel, db: Db, id: Id, reason: string, now: real): Db
    requires id in db.evidence
  {
    var pair, table := db.evidence[id].pair, EvidenceAfter(db.evidence, id, reason, now);
    var ids, log := Survivors(table, pair), Log(table, pair);
    Db(table,
       StatesAfter(k, db.states, pair, log),
       CardsAfter(k, db.cards, pair, ids, log),
       PoliciesAfter(k, db.policies, pair, log))
  }

  function ReportOf(k: Kernel, table: Table, id: Id): Report
    requires id in table
  {
    var log := Log(table, table[id].pair);
    var l := Replayed(k, log);
    Report(id, |log|, l.mastery, NextReviewOf(l.schedule))
  }

  // ----- the service over row objects -----

  class EvidenceRecord {
    const pair: Pair
    const attempt: Attempt
    const updates: bool
    var invalidatedAt: Option<real>
    var invalidationReason: Option<string>

    constructor (pair: Pair, attempt: Attempt, updates: bool)
      ensures Contents() == Evidence(pair, attempt, updates, None, None)
    {
      this.pair, this.attempt, this.updates := pair, attempt, updates;
      invalidatedAt, invalidationReason := None, None;
    }

    function Contents(): Evidence
      reads this
    {
      Evidence(pair, attempt, updates, invalidatedAt, invalidationReason)
    }
  }

  class KnowledgeState {
    var row: StateRow

    constructor (row: StateRow)
      ensures this.row == row
    {
      this.row := row;
    }
  }

  class ReviewState {
    var row: CardRow

    constructor (row: CardRow)
      ensures this.row == row
    {
      this.row := row;
    }
  }

  class PolicyDecision {
    var row: PolicyRow

    constructor (row: PolicyRow)
      ensures this.row == row
    {
      this.row := row;
    }
  }

  class EvidenceCorrectionService {
    const k: Kernel
    var evidence: map<Id, EvidenceRecord>
    var states: map<Pair, KnowledgeState>
    var cards: map<Pair, ReviewState>
    var policies: seq<PolicyDecision>

    /** Every table row is its own object. */
    ghost predicate Valid()
      reads this
    {
      && (forall i, j :: i in evidence && j in evidence && i != j ==> evidence[i] != evidence[j])
      && (forall p, q :: p in states && q in states && p != q ==> states[p] != states[q])
      && (forall p, q :: p in cards && q in cards && p != q ==> cards[p] != cards[q])
      && (forall i, j :: 0 <= i < j < |policies| ==> policies[i] != policies[j])
    }

    constructor (k: Kernel, evidence: map<Id, EvidenceRecord>, states: map<Pair, KnowledgeState>,
                 cards: map<Pair, ReviewState>, policies: seq<PolicyDecision>)
      requires forall i, j :: i in evidence && j in evidence && i != j ==> evidence[i] != evidence[j]
      requires forall p, q :: p in states && q in states && p != q ==> states[p] != states[q]
      requires forall p, q :: p in cards && q in cards && p != q ==> cards[p] != cards[q]
      requires forall i, j :: 0 <= i < j < |policies| ==> policies[i] != policies[j]
      ensures Valid()
      ensures this.k == k && this.evidence == evidence && this.states == states
      ensures this.cards == cards && this.policies == policies
    {
      this.k, this.evidence, this.states, this.cards, this.policies := k, evidence, states, cards, policies;
    }

    function EvidenceTable(): Table
      reads this`evidence, evidence.Values
    {
      map id | id in evidence :: evidence[id].Contents()
    }

    function PolicyTable(): (rows: seq<PolicyRow>)
      reads this`policies, policies
      ensures |rows| == |policies|
      ensures forall i :: 0 <= i < |rows| ==> rows[i] == policies[i].row
    {
      var all := policies;
      seq(|all|, i requires 0 <= i < |all| reads all => all[i].row)
    }

    function StateTable(): map<Pair, StateRow>
      reads this`states, states.Values
    {
      map p | p in states :: states[p].row
    }

    function CardTable(): map<Pair, CardRow>
      reads this`cards, cards.Values
    {
      map p | p in cards :: cards[p].row
    }

    function Tables(): Db
      reads this, evidence.Values, states.Values, cards.Values, policies
    {
      Db(EvidenceTable(), StateTable(), CardTable(), PolicyTable())
    }

    /** Marks the evidence invalid, unless it already is. */
    method MarkInvalid(id: Id, reason: string, now: real)
      requires Valid() && id in evidence
      modifies evidence[id]
      ensures Tables() == old(Tables()).(evidence := EvidenceAfter(old(EvidenceTable()), id, reason, now))
    {
      hide StateTable, CardTable, PolicyTable;
      var record := evidence[id];
      if record.invalidatedAt.None? {
        record.invalidatedAt := Some(now);
        record.invalidationReason := Some(Text.Take(Text.Strip(reason), 500));
      }
    }

    /** Rebuilds the learner-state row, when there is one. */
    method UpdateState(pair: Pair, log: seq<Attempt>, mastery: real, predicted: Option<real>,
                       schedule: Option<Schedule>)
      requires Valid()
      requires Learned(mastery, predicted, schedule) == Replayed(k, log)
      modifies if pair in states then {states[pair]} else {}
      ensures Tables() == old(Tables()).(states := StatesAfter(k, old(StateTable()), pair, log))
    {
      hide Replayed, EvidenceTable, CardTable, PolicyTable;
      if pair in states {
        var state := states[pair];
        state.row := state.row.(
          mastery := mastery,
          ability := mastery,
          predicted := predicted,
          exposure := |log|,
          correct := CorrectCount(log),
          status := StatusOf(mastery, log),
          lastSeen := if log == [] then None else Some(log[|log| - 1].at),
          nextReview := NextReviewOf(schedule));
      }
    }

    /** Rebuilds the review row, or deletes it when nothing survives. */
    method UpdateCard(pair: Pair, ids: seq<Id>, log: seq<Attempt>, schedule: Option<Schedule>)
      requires Valid() && |ids| == |log|
      requires schedule == Replayed(k, log).schedule
      modifies this`cards, if pair in cards then {cards[pair]} else {}
      ensures Valid()
      ensures cards.Values <= old(cards.Values)
      ensures Tables() == old(Tables()).(cards := CardsAfter(k, old(CardTable()), pair, ids, log))
    {
      ReplayRanges(k, log);
      hide Replayed, EvidenceTable, StateTable, PolicyTable;
      if pair in cards {
        if schedule.None? {
          cards := cards - {pair};
        } else {
          var card, s, last := cards[pair], schedule.value, |ids| - 1;
          card.row := card.row.(
            lastEvidence := ids[last],
            difficulty := s.difficulty,
            stability := s.stability,
            retrievability := 1.0,
            lastRating := RatingFor(log[last]),
            reviews := s.reviews,
            lastReview := s.lastReview,
            nextReview := s.nextReview);
        }
      }
    }

    /** Recompiles the latest policy of the pair, when something survives. */
    method UpdatePolicy(pair: Pair, log: seq<Attempt>, mastery: real, schedule: Option<Schedule>)
      requires Valid()
      requires mastery == Replayed(k, log).mastery && schedule == Replayed(k, log).schedule
      modifies policies
      ensures Tables() == old(Tables()).(policies := PoliciesAfter(k, old(PolicyTable()), pair, log))
    {
      hide Replayed, EvidenceTable, StateTable, CardTable;
      if log != [] {
        var latest := LatestPolicy(PolicyTable(), pair);
        if latest.Some? {
          var decision := policies[latest.value];
          var recall := if schedule.Some? then 1.0 else 0.0;
          decision.row := decision.row.(
            policy := Policy.Compile(pair.point, mastery, recall, 0.0, None, false),
            mastery := mastery,
            retrievability := recall);
        }
      }
    }

    /** Replays the survivors of a pair and rewrites its derived rows. */
    method Recompute(pair: Pair, ids: seq<Id>, log: seq<Attempt>) returns (mastery: real, nextReview: Option<real>)
      requires Valid() && |ids| == |log|
      modifies this`cards, states.Values, cards.Values, policies
      ensures Valid()
      ensures Tables() == old(Tables()).(
        states := StatesAfter(k, old(StateTable()), pair, log),
        cards := CardsAfter(k, old(CardTable()), pair, ids, log),
        policies := PoliciesAfter(k, old(PolicyTable()), pair, log))
      ensures mastery == Replayed(k, log).mastery
      ensures nextReview == NextReviewOf(Replayed(k, log).schedule)
    {
      hide Replayed, StatesAfter, CardsAfter, PoliciesAfter, EvidenceTable, StateTable, CardTable, PolicyTable;
      var predicted, schedule;
      mastery, predicted, schedule := ReplayEvidence(k, log);
      nextReview := NextReviewOf(schedule);
      UpdateState(pair, log, mastery, predicted, schedule);
      UpdateCard(pair, ids, log, schedule);
      UpdatePolicy(pair, log, mastery, schedule);
    }

    /** An unknown id changes nothing; a known one leaves exactly the tables Correct describes. */
    method InvalidateAndRecompute(id: Id, reason: string, now: real) returns (r: Result<Report, Error>)
      requires Valid()
      modifies this`cards, evidence.Values, states.Values, cards.Values, policies
      ensures Valid()
      ensures r.Failure? <==> id !in old(EvidenceTable())
      ensures r.Failure? ==> Tables() == old(Tables())
      ensures r.Success? ==>
        && Tables() == Correct(k, old(Tables()), id, reason, now)
        && r.value == ReportOf(k, Tables().evidence, id)
    {
      if id !in evidence { return Failure(EvidenceNotFound); }
      var pair := evidence[id].pair;
      assert EvidenceTable()[id].pair == pair;
      MarkInvalid(id, reason, now);
      var table := EvidenceTable();
      hide Replayed, RowOrder.Sorted, StatesAfter, CardsAfter, PoliciesAfter;
      var ids, log := Survivors(table, pair), Log(table, pair);
      var mastery, nextReview := Recompute(pair, ids, log);
      return Success(Report(id, |log|, mastery, nextReview));
    }
  }
}
