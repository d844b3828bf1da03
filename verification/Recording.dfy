/** How evidence enters the log: the gate that decides whether an interaction may update the
    learning state, and how the engine's incremental updates compare with a later replay of the
    rows they left. */
module Recording {
  import opened Prelude
  import opened Kernels
  import opened Irt
  import opened Fsrs
  import opened Replay
  import opened EvidenceLog
  import Dominance
  import Mastery
  import RowOrder

  datatype Interaction = Assessment | Browsing | Explanation | AnswerReveal

  datatype Decision = Decision(accepted: bool, updates: bool)

  function EvaluateEvidence(interaction: Interaction, confidence: real, threshold: real): Decision {
    if !interaction.Assessment? then Decision(false, false)
    else if confidence < threshold then Decision(true, false)
    else Decision(true, true)
  }

  /** Only assessments are accepted, and only confident ones update the learning state. */
  lemma EvaluateExactly(interaction: Interaction, confidence: real, threshold: real)
    ensures var d := EvaluateEvidence(interaction, confidence, threshold);
      && (d.accepted <==> interaction == Assessment)
      && (d.updates <==> interaction == Assessment && confidence >= threshold)
  {
  }

  function Entry(pair: Pair, a: Attempt, d: Decision): Evidence {
    Evidence(pair, a, d.updates, None, None)
  }

  // ----- one new row -----

  /** Row order, by creation time and then identifier. */
  predicate Earlier(at: real, id: Id, at': real, id': Id) {
    at < at' || (at == at' && id < id')
  }

  /** How many survivors of a pair come before a row with this identifier and creation time. */
  function Place(table: Table, pair: Pair, id: Id, at: real): nat {
    |set x | x in Surviving(table, pair) && Earlier(table[x].attempt.at, x, at, id)|
  }

  lemma InertEntry(table: Table, id: Id, e: Evidence, pair: Pair)
    requires id !in table && !Survives(e, pair)
    ensures Log(table[id := e], pair) == Log(table, pair)
  {
    assert Surviving(table[id := e], pair) == Surviving(table, pair);
    LogStable(table, table[id := e], pair);
  }

  lemma SurvivingWith(table: Table, id: Id, e: Evidence)
    requires id !in table && Survives(e, e.pair)
    ensures Surviving(table[id := e], e.pair) == Surviving(table, e.pair) + {id}
    ensures Surviving(table, e.pair) <= table.Keys
  {
  }

  lemma PlaceIsNumber(table: Table, id: Id, e: Evidence)
    requires id !in table
    ensures Surviving(table, e.pair) <= table.Keys
    ensures Place(table, e.pair, id, e.attempt.at)
         == RowOrder.RowNumber(Times(table[id := e]), Surviving(table, e.pair), id) - 1
  {
    var times, ids := Times(table[id := e]), Surviving(table, e.pair);
    assert (set x | x in ids && RowOrder.Before(times, x, id))
        == (set x | x in ids && Earlier(table[x].attempt.at, x, e.attempt.at, id));
  }

  lemma LiveEntry(table: Table, id: Id, e: Evidence)
    requires id !in table && Survives(e, e.pair)
    ensures var log, p := Log(table, e.pair), Place(table, e.pair, id, e.attempt.at);
      p <= |log| && Log(table[id := e], e.pair) == log[..p] + [e.attempt] + log[p..]
  {
    var table', ids := table[id := e], Surviving(table, e.pair);
    SurvivingWith(table, id, e);
    PlaceIsNumber(table, id, e);
    hide RowOrder.Sorted, RowOrder.RowNumber, Surviving, Place;
    RowOrder.SortedInsert(Times(table'), ids, id);
    RowOrder.SortedStable(Times(table), Times(table'), ids);
    SurvivorsInTable(table, e.pair);
    SurvivorsInTable(table', e.pair);
    var s, p := Survivors(table, e.pair), Place(table, e.pair, id, e.attempt.at);
    assert Survivors(table', e.pair) == s[..p] + [id] + s[p..];
    hide Survivors, Times;
    AttemptsInserted(table, id, e, s, p);
  }

  lemma AttemptsInserted(table: Table, id: Id, e: Evidence, s: seq<Id>, p: nat)
    requires id !in table && p <= |s| && forall i :: 0 <= i < |s| ==> s[i] in table
    ensures forall i :: 0 <= i < |s| + 1 ==> (s[..p] + [id] + s[p..])[i] in table[id := e]
    ensures Attempts(table[id := e], s[..p] + [id] + s[p..])
         == Attempts(table, s)[..p] + [e.attempt] + Attempts(table, s)[p..]
  {
  }

  /** A new row puts its attempt into the replayed log of its own pair at its (created_at, id) place
      exactly when the gate lets it update the state, and never touches the log of another pair. */
  lemma RecordingExtendsLog(table: Table, id: Id, pair: Pair, a: Attempt,
                            interaction: Interaction, confidence: real, threshold: real, other: Pair)
    requires id !in table
    ensures var table' := table[id := Entry(pair, a, EvaluateEvidence(interaction, confidence, threshold))];
      var log, p := Log(table, pair), Place(table, pair, id, a.at);
      && p <= |log|
      && Log(table', pair)
         == (if interaction.Assessment? && confidence >= threshold then log[..p] + [a] + log[p..] else log)
      && (other != pair ==> Log(table', other) == Log(table, other))
  {
    var e := Entry(pair, a, EvaluateEvidence(interaction, confidence, threshold));
    if other != pair { InertEntry(table, id, e, other); }
    LiveEntry(table, id, Entry(pair, a, Decision(true, true)));
    if !e.updates { InertEntry(table, id, e, pair); }
    hide Log, Place;
  }

  // ----- the engine's incremental update -----

  /** What the engine is told of one attempt. */
  datatype Signal = Signal(
    pair: Pair,
    attemptId: Option<nat>,
    prior: Option<real>,
    interaction: Interaction,
    confidence: real,
    correct: bool,
    score: Option<real>,
    hints: nat,
    retries: nat,
    responseMs: Option<nat>,
    transfer: bool)

  /** A signal with the engine's clock reading, and with the identifier and creation time that the
      database gives to its evidence row: the creation time is the start of the transaction. */
  datatype Arrival = Arrival(signal: Signal, reviewedAt: real, id: Id, createdAt: real)

  /** The attempt as its evidence row records it, dated as given. */
  function RecordedAttempt(s: Signal, at: real): Attempt {
    Attempt(Clip(if s.score.Some? then s.score.value else if s.correct then 1.0 else 0.0),
            if s.prior.Some? then Clip(s.prior.value) else 0.0,
            s.hints == 0 && s.retries == 0, s.hints, s.retries, s.responseMs, at)
  }

  /** The attempt that a replay reads. */
  function RowOf(v: Arrival): Attempt {
    RecordedAttempt(v.signal, v.createdAt)
  }

  function LiveRating(s: Signal): Rating {
    InferRating(s.correct, s.hints == 0 && s.retries == 0, s.hints, s.retries, s.responseMs, s.transfer)
  }

  function LiveStep(k: Kernel, l: Learned, v: Arrival): Learned {
    var a := RowOf(v);
    var irt := UpdateAbility(k, l.mastery, a.outcome, a.difficulty, a.independent, a.hints, a.retries);
    Learned(irt.ability, Some(irt.predictedSuccess),
            Some(ScheduleReview(k, l.Card(), LiveRating(v.signal), v.reviewedAt)))
  }

  function Live(k: Kernel, vs: seq<Arrival>): Learned {
    if vs == [] then BLANK
    else LiveStep(k, Live(k, vs[..|vs| - 1]), vs[|vs| - 1])
  }

  /** What the evidence row does not carry: a verdict that disagrees with the score, and transfer
      credit. */
  predicate RowTellsAll(s: Signal) {
    && (s.correct <==> RecordedAttempt(s, 0.0).outcome >= PASS_SCORE)
    && !(s.transfer && s.correct && s.hints == 0 && s.retries == 0
         && (s.responseMs.None? || s.responseMs.value > 3000))
  }

  /** From the same state, the engine's step and the replayed step give the same mastery and
      predicted success always, the same rating exactly when the row tells all, then also the same
      difficulty, and the same whole state exactly when the engine's clock also read the row's
      creation time. */
  lemma LiveStepMatchesReplay(k: Kernel, l: Learned, v: Arrival)
    ensures var live, replayed := LiveStep(k, l, v), Absorb(k, l, RowOf(v));
      && live.mastery == replayed.mastery
      && live.predicted == replayed.predicted
      && (live.schedule.value.rating == replayed.schedule.value.rating <==> RowTellsAll(v.signal))
      && (RowTellsAll(v.signal) ==> live.schedule.value.difficulty == replayed.schedule.value.difficulty)
      && (live == replayed <==> RowTellsAll(v.signal) && v.reviewedAt == v.createdAt)
  {
  }

  // ----- whole histories of one pair -----

  function Rows(vs: seq<Arrival>): (rows: seq<Attempt>)
    ensures |rows| == |vs|
  {
    seq(|vs|, i requires 0 <= i < |vs| => RowOf(vs[i]))
  }

  /** The same attempts, dated by the engine's clock. */
  function Clocked(vs: seq<Arrival>): (rows: seq<Attempt>)
    ensures |rows| == |vs|
  {
    seq(|vs|, i requires 0 <= i < |vs| => RecordedAttempt(vs[i].signal, vs[i].reviewedAt))
  }

  predicate AllTold(vs: seq<Arrival>) {
    forall i :: 0 <= i < |vs| ==> RowTellsAll(vs[i].signal)
  }

  lemma AbsorbMastery(k: Kernel, l: Learned, l': Learned, a: Attempt)
    requires l.mastery == l'.mastery
    ensures Absorb(k, l, a).mastery == Absorb(k, l', a).mastery
    ensures Absorb(k, l, a).predicted == Absorb(k, l', a).predicted
  {
  }

  lemma RowsSnoc(vs: seq<Arrival>)
    requires vs != []
    ensures var n := |vs| - 1;
      && Rows(vs) == Rows(vs[..n]) + [RowOf(vs[n])]
      && Clocked(vs) == Clocked(vs[..n]) + [RecordedAttempt(vs[n].signal, vs[n].reviewedAt)]
  {
  }

  lemma LiveStepClocked(k: Kernel, l: Learned, v: Arrival)
    requires RowTellsAll(v.signal)
    ensures LiveStep(k, l, v) == Absorb(k, l, RecordedAttempt(v.signal, v.reviewedAt))
  {
  }

  /** A whole history ends in the mastery and predicted success that replaying its rows in arrival
      order gives. When every row tells all, the live state is exactly what replaying the same
      attempts gives with the engine's dates in place of the rows' dates. */
  lemma {:induction false} LiveMatchesReplay(k: Kernel, vs: seq<Arrival>)
    ensures Live(k, vs).mastery == Replayed(k, Rows(vs)).mastery
    ensures Live(k, vs).predicted == Replayed(k, Rows(vs)).predicted
    ensures AllTold(vs) ==> Live(k, vs) == Replayed(k, Clocked(vs))
    decreases |vs|
  {
    if vs != [] {
      var front, v := vs[..|vs| - 1], vs[|vs| - 1];
      LiveMatchesReplay(k, front);
      RowsSnoc(vs);
      ReplayedAppend(k, Rows(front), RowOf(v));
      ReplayedAppend(k, Clocked(front), RecordedAttempt(v.signal, v.reviewedAt));
      LiveStepMatchesReplay(k, Live(k, front), v);
      AbsorbMastery(k, Live(k, front), Replayed(k, Rows(front)), RowOf(v));
      if AllTold(vs) { LiveStepClocked(k, Live(k, front), v); }
      hide UpdateAbility, ScheduleReview, Absorb, LiveStep, Rows, Clocked, Replayed, RowTellsAll;
    }
  }

  /** Difficulty depends on the ratings alone, not on when the reviews took place. */
  lemma {:induction false} DifficultyIgnoresDates(k: Kernel, xs: seq<Attempt>, ys: seq<Attempt>)
    requires |xs| == |ys| && forall i :: 0 <= i < |xs| ==> RatingFor(xs[i]) == RatingFor(ys[i])
    ensures Replayed(k, xs).Card().difficulty == Replayed(k, ys).Card().difficulty
    ensures Replayed(k, xs).Card().reviews == Replayed(k, ys).Card().reviews
    decreases |xs|
  {
    if xs != [] {
      DifficultyIgnoresDates(k, xs[..|xs| - 1], ys[..|ys| - 1]);
      hide RatingFor, NextStability;
    }
  }

  /** What becomes of the review row when a correction replaces the engine's dates by the rows' dates:
      difficulty and review count stay; where no gap between rows is longer than the gap the engine
      saw, stability and booked interval do not grow; and where every gap is the same they stay too,
      however late the engine's clock was. */
  lemma RedatedReviews(k: Kernel, vs: seq<Arrival>)
    requires k.Valid() && vs != [] && AllTold(vs)
    ensures var live, replayed := Live(k, vs), Replayed(k, Rows(vs));
      && live.schedule.Some? && replayed.schedule.Some?
      && live.schedule.value.difficulty == replayed.schedule.value.difficulty
      && live.schedule.value.reviews == replayed.schedule.value.reviews
      && ((forall i :: 0 < i < |vs| ==> Dominance.Gap(Rows(vs), i) <= Dominance.Gap(Clocked(vs), i)) ==>
            && replayed.schedule.value.stability <= live.schedule.value.stability
            && Dominance.BookedInterval(replayed.schedule.value) <= Dominance.BookedInterval(live.schedule.value))
      && ((forall i :: 0 < i < |vs| ==> Dominance.Gap(Rows(vs), i) == Dominance.Gap(Clocked(vs), i)) ==>
            && replayed.schedule.value.stability == live.schedule.value.stability
            && Dominance.BookedInterval(replayed.schedule.value) == Dominance.BookedInterval(live.schedule.value))
  {
    LiveMatchesReplay(k, vs);
    SameRatings(vs);
    RedatedLogs(k, Rows(vs), Clocked(vs));
    hide Replayed, Live, RowTellsAll, Rows, Clocked, Dominance.Gap;
  }

  /** The same attempts on other dates. */
  ghost predicate Redated(xs: seq<Attempt>, ys: seq<Attempt>) {
    |xs| == |ys| && forall i :: 0 <= i < |xs| ==> xs[i] == ys[i].(at := xs[i].at)
  }

  lemma SameRatings(vs: seq<Arrival>)
    ensures Redated(Rows(vs), Clocked(vs))
  {
  }

  lemma RedatedLogs(k: Kernel, xs: seq<Attempt>, ys: seq<Attempt>)
    requires k.Valid() && xs != [] && Redated(xs, ys)
    ensures var s, s' := Replayed(k, xs).schedule, Replayed(k, ys).schedule;
      && s.Some? && s'.Some?
      && s.value.difficulty == s'.value.difficulty && s.value.reviews == s'.value.reviews
      && ((forall i :: 0 < i < |xs| ==> Dominance.Gap(xs, i) <= Dominance.Gap(ys, i)) ==>
            && s.value.stability <= s'.value.stability
            && Dominance.BookedInterval(s.value) <= Dominance.BookedInterval(s'.value))
      && ((forall i :: 0 < i < |xs| ==> Dominance.Gap(xs, i) == Dominance.Gap(ys, i)) ==>
            && s.value.stability == s'.value.stability
            && Dominance.BookedInterval(s.value) == Dominance.BookedInterval(s'.value))
  {
    DifficultyIgnoresDates(k, xs, ys);
    ReplayRanges(k, xs);
    ReplayRanges(k, ys);
    if Dominance.Dominates(ys, xs) { Dominance.SchedulerDominance(k, xs, ys); }
    if Dominance.Dominates(xs, ys) { Dominance.SchedulerDominance(k, ys, xs); }
    hide Replayed, Dominance.Gap, Dominance.BookedInterval;
  }

  // ----- the engine and its table -----

  datatype Config = Config(enabled: bool, threshold: real)

  /** The evidence table, the attempt identifiers that have a row, and what the engine keeps for each
      pair (nothing yet is a blank state). */
  datatype Engine = Engine(table: Table, seen: set<nat>, learned: map<Pair, Learned>) {
    function Of(pair: Pair): Learned {
      if pair in learned then learned[pair] else BLANK
    }
  }

  const FRESH := Engine(map[], {}, map[])

  /** Signals without an attempt identifier or a difficulty take the older path. */
  predicate Adaptive(c: Config, s: Signal) {
    c.enabled && s.attemptId.Some? && s.prior.Some?
  }

  /** The older path: a fixed change of the score, with a bonus and penalties. */
  function NextScore(previous: real, s: Signal): real {
    Clip(previous + (if s.correct then 0.18 else -0.12)
         + (if s.correct then Clip(if s.score.Some? then s.score.value else 0.0) * 0.04 else 0.0)
         - Min(s.hints as real * 0.02, 0.08) - Min(s.retries as real * 0.03, 0.09))
  }

  predicate Accepts(c: Config, e: Engine, s: Signal) {
    && Adaptive(c, s) && s.attemptId.value !in e.seen
    && EvaluateEvidence(s.interaction, Clip(s.confidence), c.threshold).updates
  }

  /** One signal: a change of the score without evidence, nothing (no assessment, or a duplicate),
      a row that updates nothing, or a row with the step it stands for. */
  function Receive(k: Kernel, c: Config, e: Engine, v: Arrival): Engine {
    var s := v.signal;
    var l, d := e.Of(s.pair), EvaluateEvidence(s.interaction, Clip(s.confidence), c.threshold);
    if !Adaptive(c, s) then e.(learned := e.learned[s.pair := l.(mastery := NextScore(l.mastery, s))])
    else if !s.interaction.Assessment? || s.attemptId.value in e.seen then e
    else
      Engine(e.table[v.id := Entry(s.pair, RowOf(v), d)], e.seen + {s.attemptId.value},
             if d.updates then e.learned[s.pair := LiveStep(k, l, v)] else e.learned)
  }

  function Ingest(k: Kernel, c: Config, vs: seq<Arrival>): Engine {
    if vs == [] then FRESH else Receive(k, c, Ingest(k, c, vs[..|vs| - 1]), vs[|vs| - 1])
  }

  function TakenNow(c: Config, e: Engine, v: Arrival, pair: Pair): seq<Arrival> {
    if v.signal.pair == pair && Accepts(c, e, v.signal) then [v] else []
  }

  /** The arrivals that updated a pair through an evidence row, in arrival order. */
  function Taken(k: Kernel, c: Config, vs: seq<Arrival>, pair: Pair): seq<Arrival> {
    if vs == [] then []
    else
      var front, v := vs[..|vs| - 1], vs[|vs| - 1];
      Taken(k, c, front, pair) + TakenNow(c, Ingest(k, c, front), v, pair)
  }

  /** Row identifiers are never used twice. */
  ghost predicate DistinctIds(vs: seq<Arrival>) {
    forall i, j :: 0 <= i < j < |vs| ==> vs[i].id != vs[j].id
  }

  ghost predicate AllAdaptive(c: Config, vs: seq<Arrival>, pair: Pair) {
    forall i :: 0 <= i < |vs| && vs[i].signal.pair == pair ==> Adaptive(c, vs[i].signal)
  }

  /** Rows created in the order in which their signals arrived; within one transaction creation times
      are equal and the identifiers decide. */
  ghost predicate InRowOrder(vs: seq<Arrival>) {
    forall i, j :: 0 <= i < j < |vs| ==>
      Earlier(vs[i].createdAt, vs[i].id, vs[j].createdAt, vs[j].id)
  }

  function RowIds(vs: seq<Arrival>): (ids: seq<Id>)
    ensures |ids| == |vs|
  {
    seq(|vs|, i requires 0 <= i < |vs| => vs[i].id)
  }

  /** The table holds exactly the arrivals taken, each under its identifier. */
  ghost predicate Holds(table: Table, pair: Pair, taken: seq<Arrival>) {
    && (forall id :: id in Surviving(table, pair) <==> id in RowIds(taken))
    && (forall i :: 0 <= i < |taken| ==> taken[i].id in table && table[taken[i].id].attempt == RowOf(taken[i]))
  }

  lemma ReceiveHolds(k: Kernel, c: Config, e: Engine, v: Arrival, pair: Pair, taken: seq<Arrival>)
    requires v.id !in e.table && Holds(e.table, pair, taken)
    ensures Receive(k, c, e, v).table.Keys <= e.table.Keys + {v.id}
    ensures Holds(Receive(k, c, e, v).table, pair, taken + TakenNow(c, e, v, pair))
  {
    hide RowOf, LiveStep, NextScore;
    assert RowIds(taken + [v]) == RowIds(taken) + [v.id];
    assert taken + [] == taken;
  }

  lemma ReceiveOf(k: Kernel, c: Config, e: Engine, v: Arrival, pair: Pair)
    requires Adaptive(c, v.signal) || v.signal.pair != pair
    ensures Receive(k, c, e, v).Of(pair)
         == if TakenNow(c, e, v, pair) == [] then e.Of(pair) else LiveStep(k, e.Of(pair), v)
  {
    hide LiveStep, NextScore, RowOf;
  }

  lemma NothingHeld(pair: Pair)
    ensures Holds(FRESH.table, pair, [])
  {
  }

  lemma {:induction false} IngestRows(k: Kernel, c: Config, vs: seq<Arrival>, pair: Pair)
    requires DistinctIds(vs)
    ensures forall id :: id in Ingest(k, c, vs).table ==> exists i :: 0 <= i < |vs| && vs[i].id == id
    ensures Holds(Ingest(k, c, vs).table, pair, Taken(k, c, vs, pair))
    decreases |vs|
  {
    hide Receive, Holds;
    if vs == [] {
      NothingHeld(pair);
    } else {
      var front, v := vs[..|vs| - 1], vs[|vs| - 1];
      IngestRows(k, c, front, pair);
      ReceiveHolds(k, c, Ingest(k, c, front), v, pair, Taken(k, c, front, pair));
      forall id | id in Ingest(k, c, vs).table ensures exists i :: 0 <= i < |vs| && vs[i].id == id {
        if id in Ingest(k, c, front).table {
          var i :| 0 <= i < |front| && front[i].id == id;
          assert vs[i].id == id;
        } else {
          assert vs[|vs| - 1].id == id;
        }
      }
    }
  }

  /** The stored log lists the arrivals in arrival order exactly when they are in row order. */
  lemma LogIsArrivalOrder(k: Kernel, c: Config, vs: seq<Arrival>, pair: Pair)
    requires DistinctIds(vs)
    ensures var table, taken := Ingest(k, c, vs).table, Taken(k, c, vs, pair);
      && (Survivors(table, pair) == RowIds(taken) <==> InRowOrder(taken))
      && (InRowOrder(taken) ==> Log(table, pair) == Rows(taken))
  {
    IngestRows(k, c, vs, pair);
    var table, taken := Ingest(k, c, vs).table, Taken(k, c, vs, pair);
    hide Ingest, Taken, RowOf;
    OrderOfRows(table, pair, taken);
  }

  lemma OrderOfRows(table: Table, pair: Pair, taken: seq<Arrival>)
    requires Holds(table, pair, taken)
    ensures Survivors(table, pair) == RowIds(taken) <==> InRowOrder(taken)
    ensures InRowOrder(taken) ==> Log(table, pair) == Rows(taken)
  {
    hide RowOrder.Sorted, Surviving;
    var ids, times := Surviving(table, pair), Times(table);
    SurvivorsInTable(table, pair);
    RowOrder.SortedOrder(times, ids);
    if InRowOrder(taken) {
      RowOrder.SortedUnique(times, ids, RowIds(taken));
    }
    if Survivors(table, pair) == RowIds(taken) {
      forall i, j | 0 <= i < j < |taken|
        ensures Earlier(taken[i].createdAt, taken[i].id, taken[j].createdAt, taken[j].id)
      {
        assert RowOrder.Before(times, RowIds(taken)[i], RowIds(taken)[j]);
      }
    }
  }

  lemma {:induction false} EngineIsLive(k: Kernel, c: Config, vs: seq<Arrival>, pair: Pair)
    requires AllAdaptive(c, vs, pair)
    ensures Ingest(k, c, vs).Of(pair) == Live(k, Taken(k, c, vs, pair))
    decreases |vs|
  {
    if vs != [] {
      var front, v := vs[..|vs| - 1], vs[|vs| - 1];
      EngineIsLive(k, c, front, pair);
      ReceiveOf(k, c, Ingest(k, c, front), v, pair);
      LiveAppend(k, Taken(k, c, front, pair), v);
      TakenNowForm(c, Ingest(k, c, front), v, pair);
      hide Receive, LiveStep, TakenNow, Live;
      assert Taken(k, c, front, pair) + [] == Taken(k, c, front, pair);
    }
  }

  lemma LiveAppend(k: Kernel, vs: seq<Arrival>, v: Arrival)
    ensures Live(k, vs + [v]) == LiveStep(k, Live(k, vs), v)
  {
    assert (vs + [v])[..|vs|] == vs;
    hide LiveStep;
  }

  lemma TakenNowForm(c: Config, e: Engine, v: Arrival, pair: Pair)
    ensures TakenNow(c, e, v, pair) == [] || TakenNow(c, e, v, pair) == [v]
  {
  }

  /** When every signal of a pair takes the adaptive path and its rows are in row order, the engine's
      mastery and predicted success are what a correction would replay from the table; and its whole
      state is, when also every row tells all and every clock reading is the row's creation time. */
  lemma EngineMatchesLog(k: Kernel, c: Config, vs: seq<Arrival>, pair: Pair)
    requires DistinctIds(vs) && AllAdaptive(c, vs, pair) && InRowOrder(Taken(k, c, vs, pair))
    ensures var e, taken := Ingest(k, c, vs), Taken(k, c, vs, pair);
      var replayed := Replayed(k, Log(e.table, pair));
      && e.Of(pair).mastery == replayed.mastery
      && e.Of(pair).predicted == replayed.predicted
      && (AllTold(taken) && (forall i :: 0 <= i < |taken| ==> taken[i].reviewedAt == taken[i].createdAt) ==>
            e.Of(pair) == replayed)
  {
    var taken := Taken(k, c, vs, pair);
    LogIsArrivalOrder(k, c, vs, pair);
    EngineIsLive(k, c, vs, pair);
    LiveMatchesReplay(k, taken);
    if forall i :: 0 <= i < |taken| ==> taken[i].reviewedAt == taken[i].createdAt {
      assert Clocked(taken) == Rows(taken);
    }
    hide Ingest, Taken, Live, Replayed, Log, RowTellsAll;
  }

  // Each of these conditions matters.

  lemma NextScoreMoves(previous: real, s: Signal)
    requires 0.0 <= previous <= 1.0
    ensures NextScore(previous, s) == previous <==> previous == if s.correct then 1.0 else 0.0
  {
    var bonus := if s.correct then Clip(if s.score.Some? then s.score.value else 0.0) * 0.04 else 0.0;
    assert 0.0 <= bonus <= 0.04;
    var h, r := Min(s.hints as real * 0.02, 0.08), Min(s.retries as real * 0.03, 0.09);
    assert 0.0 <= h <= 0.08 && 0.0 <= r <= 0.09;
  }

  /** The older path in numbers: a right answer is worth 0.18 and up to 0.04 for its score, a wrong one
      costs 0.12; each of the first four hints costs 0.02 and each of the first three retries 0.03. */
  lemma NextScoreExactly(previous: real, s: Signal)
    requires 0.0 <= previous <= 1.0 && s.hints <= 4 && s.retries <= 3
    requires s.score.Some? ==> 0.0 <= s.score.value <= 1.0
    ensures var score := if s.score.Some? then s.score.value else 0.0;
      var help := 0.02 * s.hints as real + 0.03 * s.retries as real;
      && (s.correct ==> NextScore(previous, s) == Min(1.0, previous + 0.18 + 0.04 * score - help))
      && (!s.correct ==> NextScore(previous, s) == Max(0.0, previous - 0.12 - help))
  {
  }

  lemma SeenGrows(k: Kernel, c: Config, e: Engine, v: Arrival, pair: Pair)
    ensures e.seen <= Receive(k, c, e, v).seen
    ensures TakenNow(c, e, v, pair) != [] ==>
      && TakenNow(c, e, v, pair) == [v] && v.signal.attemptId.Some?
      && v.signal.attemptId.value !in e.seen && v.signal.attemptId.value in Receive(k, c, e, v).seen
  {
    hide LiveStep, NextScore, RowOf;
  }

  /** All attempts taken have been seen, and no two are the same. */
  ghost predicate SeenOnce(taken: seq<Arrival>, seen: set<nat>) {
    && (forall i :: 0 <= i < |taken| ==> taken[i].signal.attemptId.Some? && taken[i].signal.attemptId.value in seen)
    && (forall i, j :: 0 <= i < j < |taken| ==> taken[i].signal.attemptId != taken[j].signal.attemptId)
  }

  lemma OneMoreSeen(taken: seq<Arrival>, v: Arrival, seen: set<nat>, seen': set<nat>)
    requires SeenOnce(taken, seen) && seen <= seen'
    ensures SeenOnce(taken, seen')
    ensures v.signal.attemptId.Some? && v.signal.attemptId.value in seen' && v.signal.attemptId.value !in seen ==>
      SeenOnce(taken + [v], seen')
  {
  }

  /** No attempt updates the learning state twice. */
  lemma {:induction false} TakenOnce(k: Kernel, c: Config, vs: seq<Arrival>, pair: Pair)
    ensures SeenOnce(Taken(k, c, vs, pair), Ingest(k, c, vs).seen)
    decreases |vs|
  {
    if vs != [] {
      var front, v := vs[..|vs| - 1], vs[|vs| - 1];
      var before := Taken(k, c, front, pair);
      TakenOnce(k, c, front, pair);
      SeenGrows(k, c, Ingest(k, c, front), v, pair);
      OneMoreSeen(before, v, Ingest(k, c, front).seen, Ingest(k, c, vs).seen);
      hide Receive, TakenNow, SeenOnce;
      assert before + [] == before;
    }
  }

  /** A signal on the older path leaves no row, so a pair that agreed with its log no longer does,
      unless its mastery was already at the end the signal pushes to. */
  lemma PlainSignalLeavesNoRow(k: Kernel, c: Config, e: Engine, v: Arrival)
    requires !Adaptive(c, v.signal)
    requires e.Of(v.signal.pair).mastery == Replayed(k, Log(e.table, v.signal.pair)).mastery
    ensures var pair, e' := v.signal.pair, Receive(k, c, e, v);
      && e'.table == e.table
      && (e'.Of(pair).mastery == Replayed(k, Log(e'.table, pair)).mastery
          <==> e.Of(pair).mastery == if v.signal.correct then 1.0 else 0.0)
  {
    ReplayRanges(k, Log(e.table, v.signal.pair));
    NextScoreMoves(e.Of(v.signal.pair).mastery, v.signal);
    hide Replayed, NextScore, Log;
  }

  const SPOT := Pair(1, 1)

  /** An unaided assessment on a middle item, recorded in one transaction at time zero. */
  function InOneTransaction(id: Id, correct: bool): Arrival {
    Arrival(Signal(SPOT, Some(id), Some(0.5), Assessment, 1.0, correct, None, 0, 0, None, false), 0.0, id, 0.0)
  }

  /** Two observations of one point in one transaction: rows created at the same time are replayed
      by identifier, so an engine that took the higher identifier first ends elsewhere. */
  lemma TiesMayDiffer(k: Kernel)
    ensures var c, vs := Config(true, 0.7), [InOneTransaction(2, true), InOneTransaction(1, false)];
      && DistinctIds(vs) && AllAdaptive(c, vs, SPOT)
      && Ingest(k, c, vs).Of(SPOT).mastery < Replayed(k, Log(Ingest(k, c, vs).table, SPOT)).mastery
  {
    var a, b := InOneTransaction(2, true), InOneTransaction(1, false);
    TiesInEngine(k, Config(true, 0.7), a, b);
    TiesInTable(k, Config(true, 0.7), a, b);
    OrderMatters(k, RowOf(a), RowOf(b));
    TwoSound(Config(true, 0.7), a, b);
    hide Ingest, Log, Replayed, InOneTransaction, DistinctIds, AllAdaptive;
  }

  lemma TwoSound(c: Config, a: Arrival, b: Arrival)
    requires c == Config(true, 0.7) && a == InOneTransaction(2, true) && b == InOneTransaction(1, false)
    ensures DistinctIds([a, b]) && AllAdaptive(c, [a, b], SPOT)
  {
  }

  lemma TiesInEngine(k: Kernel, c: Config, a: Arrival, b: Arrival)
    requires c == Config(true, 0.7) && a == InOneTransaction(2, true) && b == InOneTransaction(1, false)
    ensures Ingest(k, c, [a, b]).Of(SPOT).mastery == Replayed(k, [RowOf(a)] + [RowOf(b)]).mastery
  {
    hide RowOf, InOneTransaction, Live, Replayed, Ingest, Taken, AllAdaptive;
    TwoSound(c, a, b);
    TwoTaken(k, c, a, b);
    EngineIsLive(k, c, [a, b], SPOT);
    LiveMatchesReplay(k, [a, b]);
    assert Rows([a, b]) == [RowOf(a)] + [RowOf(b)];
  }

  lemma TiesInTable(k: Kernel, c: Config, a: Arrival, b: Arrival)
    requires c == Config(true, 0.7) && a == InOneTransaction(2, true) && b == InOneTransaction(1, false)
    ensures Log(Ingest(k, c, [a, b]).table, SPOT) == [RowOf(b)] + [RowOf(a)]
  {
    hide RowOf, InOneTransaction, Ingest, Taken, Holds, Log, DistinctIds;
    TwoSound(c, a, b);
    TwoTaken(k, c, a, b);
    IngestRows(k, c, [a, b], SPOT);
    SortedPair(Ingest(k, c, [a, b]).table, a, b);
  }

  lemma OrderMatters(k: Kernel, a: Attempt, b: Attempt)
    requires a == Attempt(1.0, 0.5, true, 0, 0, None, 0.0) && b == Attempt(0.0, 0.5, true, 0, 0, None, 0.0)
    ensures Replayed(k, [a] + [b]).mastery < Replayed(k, [b] + [a]).mastery
  {
    hide Replayed;
    Mastery.HalfwayItem(k, a);
    Mastery.HalfwayItem(k, b);
    ThenMiddle(k, a, b);
    ThenMiddle(k, b, a);
  }

  lemma TwoTaken(k: Kernel, c: Config, a: Arrival, b: Arrival)
    requires c == Config(true, 0.7) && a == InOneTransaction(2, true) && b == InOneTransaction(1, false)
    ensures Taken(k, c, [a, b], SPOT) == [a, b]
  {
    assert [a, b][..1] == [a] && [a][..0] == [];
    hide LiveStep;
    assert Ingest(k, c, []) == FRESH && Taken(k, c, [], SPOT) == [];
    assert Taken(k, c, [a], SPOT) == [a] && Ingest(k, c, [a]) == Receive(k, c, FRESH, a);
  }

  lemma SortedPair(table: Table, a: Arrival, b: Arrival)
    requires a == InOneTransaction(2, true) && b == InOneTransaction(1, false)
    requires Holds(table, SPOT, [a, b])
    ensures Log(table, SPOT) == [RowOf(b)] + [RowOf(a)]
  {
    assert RowIds([a, b]) == [2, 1] && RowIds([b, a]) == [1, 2];
    assert [a, b][0] == a && [a, b][1] == b;
    hide RowOf, Surviving;
    assert Holds(table, SPOT, [b, a]);
    OrderOfRows(table, SPOT, [b, a]);
    assert Rows([b, a]) == [RowOf(b)] + [RowOf(a)];
  }

  lemma ThenMiddle(k: Kernel, a: Attempt, b: Attempt)
    requires b.difficulty == 0.5 && b.independent && b.hints == 0 && b.retries == 0
    ensures var m := Replayed(k, [a]).mastery;
      Replayed(k, [a] + [b]).mastery == Clip(m + 0.22 * (b.outcome - Bounded(m)))
  {
    ReplayedAppend(k, [a], b);
    PredictAtHalf(k, Replayed(k, [a]).mastery);
  }
}
