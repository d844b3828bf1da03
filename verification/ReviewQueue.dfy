/** Human review of parser findings: one-way decisions, taken singly or in batches inside one
    database session. */
module ReviewQueue {
  import opened Prelude
  import opened Sessions
  import Text

  type ItemId = nat

  datatype Decision = Pending | Confirmed | Updated | Ignored
  datatype Severity = Blocker | Warning | Info

  datatype Item = Item(
    source: nat,
    severity: Severity,
    decision: Decision,
    note: Option<string>,
    reviewedAt: Option<real>)

  type Queue = map<ItemId, Item>

  /** The clock as it reads when an item is stamped. */
  type Clock = ItemId -> real

  datatype Error =
    | UnknownAction
    | NoIds
    | TooManyIds
    | ItemNotFound
    | AlreadyDecided
    | BlockerNeedsPermission
    | BlockerNeedsNote
    | TargetFailed

  const BATCH_LIMIT := 200

  /** A note, stripped; a blank note counts as none. */
  function OptionalText(value: Option<string>): Option<string> {
    if value.None? || Text.Strip(value.value) == "" then None else Some(Text.Strip(value.value))
  }

  /** Batch actions, given in lower case without surrounding whitespace. */
  function BatchAction(name: string): Option<Decision> {
    if name == "confirm" || name == "confirmed" then Some(Confirmed)
    else if name == "ignore" || name == "ignored" then Some(Ignored)
    else None
  }

  function Decide(item: Item, action: Decision, note: Option<string>, allow: bool, now: real): Result<Item, Error> {
    if !item.decision.Pending? then Failure(AlreadyDecided)
    else if action.Ignored? && item.severity.Blocker? && !allow then Failure(BlockerNeedsPermission)
    else if action.Ignored? && item.severity.Blocker? && OptionalText(note).None? then Failure(BlockerNeedsNote)
    else Success(item.(decision := action, note := OptionalText(note), reviewedAt := Some(now)))
  }

  predicate Decidable(item: Item, action: Decision, note: Option<string>, allow: bool) {
    && item.decision.Pending?
    && (action.Ignored? && item.severity.Blocker? ==> allow && OptionalText(note).Some?)
  }

  /** Decisions of the listed items one after the other, stopping at the first that fails. */
  function DecideAll(q: Queue, ids: seq<ItemId>, action: Decision, note: Option<string>, allow: bool, clock: Clock)
    : (r: Result<Queue, Error>)
    requires forall i :: 0 <= i < |ids| ==> ids[i] in q
    ensures r.Success? ==> r.value.Keys == q.Keys
  {
    if ids == [] then Success(q)
    else
      var n := |ids| - 1;
      var before := DecideAll(q, ids[..n], action, note, allow, clock);
      if before.Failure? then before
      else
        var item := Decide(before.value[ids[n]], action, note, allow, clock(ids[n]));
        if item.Failure? then Failure(item.error) else Success(before.value[ids[n] := item.value])
  }

  lemma DecideAllSnoc(q: Queue, ids: seq<ItemId>, n: nat,
                      action: Decision, note: Option<string>, allow: bool, clock: Clock)
    requires n < |ids| && forall i :: 0 <= i < |ids| ==> ids[i] in q
    ensures var before := DecideAll(q, ids[..n], action, note, allow, clock);
      before.Success? ==>
        var item := Decide(before.value[ids[n]], action, note, allow, clock(ids[n]));
        DecideAll(q, ids[..n + 1], action, note, allow, clock)
        == if item.Failure? then Failure(item.error) else Success(before.value[ids[n] := item.value])
  {
    assert ids[..n + 1][..n] == ids[..n];
  }

  predicate InSource(q: Queue, source: nat, id: ItemId) {
    id in q && q[id].source == source
  }

  datatype Reply = Rejected(error: Error) | Decided(count: nat)

  /** What a batch request leaves committed, and what it answers. `saved` tells whether what follows the
      decisions goes through: the changes of their targets and the recalculated quality gate. */
  function Batch(q: Queue, source: nat, name: string, ids: seq<ItemId>, note: Option<string>, allow: bool,
                 clock: Clock, saved: bool)
    : (Queue, Reply)
  {
    var action := BatchAction(name);
    if action.None? then (q, Rejected(UnknownAction))
    else if ids == [] then (q, Rejected(NoIds))
    else if |ids| > BATCH_LIMIT then (q, Rejected(TooManyIds))
    else if exists i :: 0 <= i < |ids| && !InSource(q, source, ids[i]) then (q, Rejected(ItemNotFound))
    else
      var r := DecideAll(q, ids, action.value, OptionalText(note), allow, clock);
      if r.Failure? then (q, Rejected(r.error))
      else if !saved then (q, Rejected(TargetFailed))
      else (r.value, Decided(|ids|))
  }

  /** What a single decision leaves committed, and what it answers. */
  function Single(q: Queue, source: nat, id: ItemId, action: Decision, note: Option<string>, allow: bool,
                  now: real, saved: bool)
    : (Queue, Reply)
  {
    if !InSource(q, source, id) then (q, Rejected(ItemNotFound))
    else
      var r := Decide(q[id], action, note, allow, now);
      if r.Failure? then (q, Rejected(r.error))
      else if !saved then (q, Rejected(TargetFailed))
      else (q[id := r.value], Decided(1))
  }

  class ReviewApi {
    const db: Session<Queue>

    constructor (db: Session<Queue>)
      ensures this.db == db
    {
      this.db := db;
    }

    /** Applies one decision to the row in the session, or raises and leaves it. */
    method Apply(id: ItemId, action: Decision, note: Option<string>, allow: bool, now: real)
      returns (r: Result<(), Error>)
      requires id in db.working
      modifies db`working
      ensures var d := Decide(old(db.working[id]), action, note, allow, now);
        if d.Failure? then r == Failure(d.error) && db.working == old(db.working)
        else r == Success(()) && db.working == old(db.working)[id := d.value]
    {
      var item := db.working[id];
      if !item.decision.Pending? { return Failure(AlreadyDecided); }
      var text := OptionalText(note);
      if action.Ignored? && item.severity.Blocker? && !allow { return Failure(BlockerNeedsPermission); }
      if action.Ignored? && item.severity.Blocker? && text.None? { return Failure(BlockerNeedsNote); }
      db.working := db.working[id := item.(decision := action, note := text, reviewedAt := Some(now))];
      return Success(());
    }

    /** The batch loop: one item after the other, until the first that raises. */
    method ApplyAll(ids: seq<ItemId>, action: Decision, note: Option<string>, allow: bool, clock: Clock)
      returns (r: Result<(), Error>)
      requires forall i :: 0 <= i < |ids| ==> ids[i] in db.working
      modifies db`working
      ensures var d := DecideAll(old(db.working), ids, action, note, allow, clock);
        if d.Failure? then r == Failure(d.error) else r == Success(()) && db.working == d.value
    {
      ghost var q := db.working;
      assert DecideAll(q, ids[..0], action, note, allow, clock) == Success(q);
      hide DecideAll, Decide;
      for n := 0 to |ids|
        invariant db.working.Keys == q.Keys
        invariant DecideAll(q, ids[..n], action, note, allow, clock) == Success(db.working)
      {
        DecideAllSnoc(q, ids, n, action, note, allow, clock);
        var applied := Apply(ids[n], action, note, allow, clock(ids[n]));
        if applied.Failure? {
          FailurePersists(q, ids, n + 1, action, note, allow, clock);
          return applied;
        }
      }
      assert ids[..|ids|] == ids;
      return Success(());
    }

    method HandleBatch(source: nat, name: string, ids: seq<ItemId>, note: Option<string>, allow: bool,
                       clock: Clock, saved: bool)
      returns (reply: Reply)
      modifies db`working
      ensures reply == Batch(old(db.working), source, name, ids, note, allow, clock, saved).1
      ensures reply.Decided? ==> db.working == Batch(old(db.working), source, name, ids, note, allow, clock, saved).0
    {
      hide DecideAll, OptionalText;
      var action := BatchAction(name);
      if action.None? { return Rejected(UnknownAction); }
      if ids == [] { return Rejected(NoIds); }
      if |ids| > BATCH_LIMIT { return Rejected(TooManyIds); }
      if exists i :: 0 <= i < |ids| && !InSource(db.working, source, ids[i]) { return Rejected(ItemNotFound); }
      var r := ApplyAll(ids, action.value, OptionalText(note), allow, clock);
      reply := if r.Failure? then Rejected(r.error) else if !saved then Rejected(TargetFailed) else Decided(|ids|);
    }

    /** The endpoint: a batch that fails anywhere is rolled back as a whole. */
    method DecideBatch(source: nat, name: string, ids: seq<ItemId>, note: Option<string>, allow: bool,
                       clock: Clock, saved: bool)
      returns (reply: Reply)
      requires db.working == db.committed
      modifies db
      ensures db.working == db.committed
      ensures (db.committed, reply) == Batch(old(db.committed), source, name, ids, note, allow, clock, saved)
    {
      reply := HandleBatch(source, name, ids, note, allow, clock, saved);
      db.Close(reply.Rejected?);
    }

    /** The single endpoints: a decision whose target cannot be changed accordingly is taken back. */
    method DecideOne(source: nat, id: ItemId, action: Decision, note: Option<string>, allow: bool,
                     now: real, saved: bool)
      returns (reply: Reply)
      requires db.working == db.committed
      modifies db
      ensures db.working == db.committed
      ensures (db.committed, reply) == Single(old(db.committed), source, id, action, note, allow, now, saved)
    {
      if !InSource(db.working, source, id) {
        reply := Rejected(ItemNotFound);
      } else {
        var r := Apply(id, action, note, allow, now);
        reply := if r.Failure? then Rejected(r.error) else if !saved then Rejected(TargetFailed) else Decided(1);
      }
      db.Close(reply.Rejected?);
    }
  }

  /** A failure in a prefix is the failure of the whole list. */
  lemma {:induction false} FailurePersists(q: Queue, ids: seq<ItemId>, n: nat,
                                           action: Decision, note: Option<string>, allow: bool, clock: Clock)
    requires n <= |ids| && forall i :: 0 <= i < |ids| ==> ids[i] in q
    requires DecideAll(q, ids[..n], action, note, allow, clock).Failure?
    ensures DecideAll(q, ids, action, note, allow, clock) == DecideAll(q, ids[..n], action, note, allow, clock)
    decreases |ids|
  {
    if n == |ids| {
      assert ids[..n] == ids;
    } else {
      var m := |ids| - 1;
      assert ids[..m][..n] == ids[..n];
      FailurePersists(q, ids[..m], n, action, note, allow, clock);
    }
  }

  // ----- all or nothing -----

  predicate Distinct(ids: seq<ItemId>) {
    forall i, j :: 0 <= i < j < |ids| ==> ids[i] != ids[j]
  }

  function After(q: Queue, ids: seq<ItemId>, action: Decision, note: Option<string>, clock: Clock): Queue {
    map id | id in q ::
      if id in ids then q[id].(decision := action, note := OptionalText(note), reviewedAt := Some(clock(id))) else q[id]
  }

  /** No item repeats and each could be decided on its own. */
  predicate AllDecidable(q: Queue, ids: seq<ItemId>, action: Decision, note: Option<string>, allow: bool)
    requires forall i :: 0 <= i < |ids| ==> ids[i] in q
  {
    Distinct(ids) && forall i :: 0 <= i < |ids| ==> Decidable(q[ids[i]], action, note, allow)
  }

  lemma AllDecidableSnoc(q: Queue, ids: seq<ItemId>, action: Decision, note: Option<string>, allow: bool)
    requires ids != [] && forall i :: 0 <= i < |ids| ==> ids[i] in q
    ensures var n := |ids| - 1;
      AllDecidable(q, ids, action, note, allow)
      <==> AllDecidable(q, ids[..n], action, note, allow)
           && ids[n] !in ids[..n] && Decidable(q[ids[n]], action, note, allow)
  {
    DistinctSnoc(ids);
    hide Decidable, Distinct;
    assert forall i :: 0 <= i < |ids| - 1 ==> ids[..|ids| - 1][i] == ids[i];
  }

  /** The listed decisions all go through exactly when no item repeats and each could be decided on
      its own; then exactly the listed items carry the decision. */
  lemma {:induction false} DecideAllExactly(q: Queue, ids: seq<ItemId>,
                                            action: Decision, note: Option<string>, allow: bool, clock: Clock)
    requires !action.Pending? && forall i :: 0 <= i < |ids| ==> ids[i] in q
    ensures var r := DecideAll(q, ids, action, note, allow, clock);
      && (r.Success? <==> AllDecidable(q, ids, action, note, allow))
      && (r.Success? ==> r.value == After(q, ids, action, note, clock))
    decreases |ids|
  {
    hide OptionalText, Decide, Decidable, AllDecidable, After;
    if ids == [] {
      NoneDecided(q, action, note, allow, clock);
    } else {
      var n := |ids| - 1;
      DecideAllExactly(q, ids[..n], action, note, allow, clock);
      AllDecidableSnoc(q, ids, action, note, allow);
      var before := DecideAll(q, ids[..n], action, note, allow, clock);
      if before.Success? {
        AfterSnoc(q, ids, action, note, clock);
        DecideExactly(before.value[ids[n]], action, note, allow, clock(ids[n]));
        PendingOnly(before.value[ids[n]], action, note, allow);
      }
    }
  }

  lemma NoneDecided(q: Queue, action: Decision, note: Option<string>, allow: bool, clock: Clock)
    ensures After(q, [], action, note, clock) == q && AllDecidable(q, [], action, note, allow)
  {
  }

  lemma DecideExactly(item: Item, action: Decision, note: Option<string>, allow: bool, now: real)
    ensures var r := Decide(item, action, note, allow, now);
      && (r.Success? <==> Decidable(item, action, note, allow))
      && (r.Success? ==> r.value == item.(decision := action, note := OptionalText(note), reviewedAt := Some(now)))
  {
    hide OptionalText;
  }

  lemma PendingOnly(item: Item, action: Decision, note: Option<string>, allow: bool)
    ensures Decidable(item, action, note, allow) ==> item.decision.Pending?
  {
  }

  lemma DistinctSnoc(ids: seq<ItemId>)
    requires ids != []
    ensures Distinct(ids) <==> Distinct(ids[..|ids| - 1]) && ids[|ids| - 1] !in ids[..|ids| - 1]
  {
  }

  lemma AfterSnoc(q: Queue, ids: seq<ItemId>, action: Decision, note: Option<string>, clock: Clock)
    requires !action.Pending? && ids != [] && forall i :: 0 <= i < |ids| ==> ids[i] in q
    ensures var n := |ids| - 1;
      var front, last := ids[..n], ids[n];
      var before := After(q, front, action, note, clock);
      var decided := q[last].(decision := action, note := OptionalText(note), reviewedAt := Some(clock(last)));
      && (last in front ==> !before[last].decision.Pending?)
      && (last !in front ==>
            && before[last] == q[last]
            && After(q, ids, action, note, clock) == before[last := decided])
  {
  }

  function PendingIn(q: Queue, source: nat): set<ItemId> {
    set id | id in q && q[id].source == source && q[id].decision.Pending?
  }

  lemma OptionalTextTwice(note: Option<string>)
    ensures OptionalText(OptionalText(note)) == OptionalText(note)
  {
    if note.Some? { Text.StripTwice(note.value); }
    hide Text.Strip;
  }

  function Members(ids: seq<ItemId>): set<ItemId> {
    set i | 0 <= i < |ids| :: ids[i]
  }

  lemma PendingWithout(q: Queue, source: nat, ids: seq<ItemId>, action: Decision, note: Option<string>, clock: Clock)
    requires !action.Pending?
    requires forall i :: 0 <= i < |ids| ==> InSource(q, source, ids[i]) && q[ids[i]].decision.Pending?
    ensures PendingIn(After(q, ids, action, note, clock), source) == PendingIn(q, source) - Members(ids)
    ensures Members(ids) <= PendingIn(q, source)
  {
  }

  lemma PendingFalls(q: Queue, source: nat, ids: seq<ItemId>, action: Decision, note: Option<string>, clock: Clock)
    requires !action.Pending? && Distinct(ids)
    requires forall i :: 0 <= i < |ids| ==> InSource(q, source, ids[i]) && q[ids[i]].decision.Pending?
    ensures |PendingIn(After(q, ids, action, note, clock), source)| == |PendingIn(q, source)| - |ids|
  {
    PendingWithout(q, source, ids, action, note, clock);
    DistinctCount(ids);
    hide PendingIn, After, Members;
    var before, named := PendingIn(q, source), Members(ids);
    assert before == (before - named) + named;
  }

  /** A batch is all or nothing: it succeeds exactly when the request is well-formed, no id repeats,
      every listed item of the source could be decided and what follows goes through; then the
      pending count of the source falls by exactly the reported count. Otherwise no item changes. */
  lemma BatchAllOrNothing(q: Queue, source: nat, name: string, ids: seq<ItemId>, note: Option<string>, allow: bool,
                          clock: Clock, saved: bool)
    ensures var (q', reply) := Batch(q, source, name, ids, note, allow, clock, saved);
      && (reply.Decided? <==>
            && BatchAction(name).Some?
            && 1 <= |ids| <= BATCH_LIMIT
            && (forall i :: 0 <= i < |ids| ==> InSource(q, source, ids[i]))
            && AllDecidable(q, ids, BatchAction(name).value, note, allow)
            && saved)
      && (reply.Rejected? ==> q' == q)
      && (reply.Decided? ==>
            && reply.count == |ids|
            && q' == After(q, ids, BatchAction(name).value, note, clock)
            && |PendingIn(q', source)| == |PendingIn(q, source)| - reply.count)
  {
    var (q', reply) := Batch(q, source, name, ids, note, allow, clock, saved);
    var action := BatchAction(name);
    OptionalTextTwice(note);
    if action.Some? && (forall i :: 0 <= i < |ids| ==> InSource(q, source, ids[i])) {
      DecideAllExactly(q, ids, action.value, OptionalText(note), allow, clock);
      if reply.Decided? {
        PendingFalls(q, source, ids, action.value, note, clock);
      }
      hide DecideAll, PendingIn, OptionalText;
    }
  }

  // ----- the same, item by item -----

  ghost predicate NamesAction(name: string, action: Decision) {
    || (action.Confirmed? && (name == "confirm" || name == "confirmed"))
    || (action.Ignored? && (name == "ignore" || name == "ignored"))
  }

  ghost predicate Blank(note: Option<string>) {
    note.Some? ==> Text.Strip(note.value) == ""
  }

  /** A pending item may be decided; ignoring a blocker takes permission and a note besides. */
  ghost predicate MayDecide(item: Item, action: Decision, note: Option<string>, allow: bool) {
    item.decision == Pending && (action == Ignored && item.severity == Blocker ==> allow && !Blank(note))
  }

  ghost predicate DecidedAs(item: Item, item': Item, action: Decision, note: Option<string>, at: real) {
    && item'.source == item.source && item'.severity == item.severity
    && item'.decision == action && item'.reviewedAt == Some(at)
    && item'.note == if Blank(note) then None else Some(Text.Strip(note.value))
  }

  lemma DecidableExactly(item: Item, action: Decision, note: Option<string>, allow: bool)
    ensures Decidable(item, action, OptionalText(note), allow) <==> MayDecide(item, action, note, allow)
    ensures OptionalText(note) == if Blank(note) then None else Some(Text.Strip(note.value))
  {
    OptionalTextTwice(note);
    hide Text.Strip;
  }

  lemma ActionExactly(name: string)
    ensures forall action :: BatchAction(name) == Some(action) <==> NamesAction(name, action)
  {
  }

  /** A batch goes through exactly when its name is one of the four, it lists one to two hundred
      different items of the source, each of which may be decided, and what follows goes through. Then
      exactly those items carry the named decision, the stripped note and their own time stamp. */
  lemma BatchExactly(q: Queue, source: nat, name: string, ids: seq<ItemId>, note: Option<string>, allow: bool,
                     clock: Clock, saved: bool, action: Decision)
    ensures var (q', reply) := Batch(q, source, name, ids, note, allow, clock, saved);
      && (NamesAction(name, action) ==>
            (reply.Decided? <==>
              && saved && 1 <= |ids| <= 200
              && (forall i, j :: 0 <= i < j < |ids| ==> ids[i] != ids[j])
              && (forall i :: 0 <= i < |ids| ==>
                    ids[i] in q && q[ids[i]].source == source && MayDecide(q[ids[i]], action, note, allow))))
      && (reply == Rejected(UnknownAction) <==> forall a :: !NamesAction(name, a))
      && (NamesAction(name, action) ==>
            && (reply == Rejected(NoIds) <==> ids == [])
            && (reply == Rejected(TooManyIds) <==> |ids| > 200)
            && (reply == Rejected(ItemNotFound) <==>
                  1 <= |ids| <= 200 && exists i :: 0 <= i < |ids| && !InSource(q, source, ids[i])))
      && (reply.Decided? ==> q'.Keys == q.Keys)
      && (reply.Decided? && NamesAction(name, action) ==>
            forall id :: id in q && id in q' ==>
              if id in ids then DecidedAs(q[id], q'[id], action, note, clock(id)) else q'[id] == q[id])
  {
    BatchAllOrNothing(q, source, name, ids, note, allow, clock, saved);
    ActionExactly(name);
    if NamesAction(name, action) {
      forall i | 0 <= i < |ids| && ids[i] in q
        ensures Decidable(q[ids[i]], action, note, allow) <==> MayDecide(q[ids[i]], action, note, allow)
      {
        DecidableExactly(q[ids[i]], action, note, allow);
      }
      NotesExactly(note);
    } else {
      NotDecidedUnnamed(q, source, name, ids, note, allow, clock, saved);
    }
    ShapeErrors(q, source, name, ids, note, allow, clock, saved);
    hide Batch, OptionalText, Decidable, MayDecide, Blank, BatchAction, NamesAction;
  }

  lemma NotesExactly(note: Option<string>)
    ensures OptionalText(note) == if Blank(note) then None else Some(Text.Strip(note.value))
  {
  }

  lemma NotDecidedUnnamed(q: Queue, source: nat, name: string, ids: seq<ItemId>, note: Option<string>, allow: bool,
                          clock: Clock, saved: bool)
    ensures BatchAction(name).None? ==> Batch(q, source, name, ids, note, allow, clock, saved).1.Rejected?
  {
  }

  lemma ShapeErrors(q: Queue, source: nat, name: string, ids: seq<ItemId>, note: Option<string>, allow: bool,
                       clock: Clock, saved: bool)
    ensures var reply := Batch(q, source, name, ids, note, allow, clock, saved).1;
      && (reply == Rejected(UnknownAction) <==> BatchAction(name).None?)
      && (BatchAction(name).Some? ==>
            && (reply == Rejected(NoIds) <==> ids == [])
            && (reply == Rejected(TooManyIds) <==> |ids| > 200)
            && (reply == Rejected(ItemNotFound) <==>
                  1 <= |ids| <= 200 && exists i :: 0 <= i < |ids| && !InSource(q, source, ids[i])))
  {
    if BatchAction(name).Some? && forall i :: 0 <= i < |ids| ==> InSource(q, source, ids[i]) {
      KnownErrors(q, ids, BatchAction(name).value, OptionalText(note), allow, clock);
    }
    hide DecideAll, OptionalText, BatchAction;
  }

  lemma {:induction false} KnownErrors(q: Queue, ids: seq<ItemId>, action: Decision, note: Option<string>,
                                       allow: bool, clock: Clock)
    requires forall i :: 0 <= i < |ids| ==> ids[i] in q
    ensures var r := DecideAll(q, ids, action, note, allow, clock);
      r.Failure? ==> r.error in {AlreadyDecided, BlockerNeedsPermission, BlockerNeedsNote}
    decreases |ids|
  {
    if ids != [] { KnownErrors(q, ids[..|ids| - 1], action, note, allow, clock); }
    hide OptionalText;
  }

  /** A single decision: each answer exactly when it is due, and what it leaves. */
  lemma SingleExactly(q: Queue, source: nat, id: ItemId, action: Decision, note: Option<string>, allow: bool,
                      now: real, saved: bool)
    ensures var (q', reply) := Single(q, source, id, action, note, allow, now, saved);
      var found := id in q && q[id].source == source;
      var pending := found && q[id].decision == Pending;
      var hard := pending && action == Ignored && q[id].severity == Blocker;
      && (reply == Rejected(ItemNotFound) <==> !found)
      && (reply == Rejected(AlreadyDecided) <==> found && !pending)
      && (reply == Rejected(BlockerNeedsPermission) <==> hard && !allow)
      && (reply == Rejected(BlockerNeedsNote) <==> hard && allow && Blank(note))
      && (reply == Rejected(TargetFailed) <==> found && MayDecide(q[id], action, note, allow) && !saved)
      && (reply == Decided(1) <==> found && MayDecide(q[id], action, note, allow) && saved)
      && (reply != Decided(1) ==> q' == q)
      && (reply == Decided(1) ==>
            && q'.Keys == q.Keys && DecidedAs(q[id], q'[id], action, note, now)
            && forall other :: other in q && other != id ==> q'[other] == q[other])
  {
    NotesExactly(note);
    hide Text.Strip;
  }

  lemma {:induction false} DistinctCount(ids: seq<ItemId>)
    requires Distinct(ids)
    ensures |Members(ids)| == |ids|
    decreases |ids|
  {
    if ids != [] {
      var n := |ids| - 1;
      var front := ids[..n];
      DistinctSnoc(ids);
      DistinctCount(front);
      assert Members(ids) == Members(front) + {ids[n]} by {
        forall i | 0 <= i < n ensures ids[i] in Members(front) { assert front[i] == ids[i]; }
      }
    }
  }

  // ----- whole runs -----

  datatype Request =
    | OneRequest(source: nat, id: ItemId, action: Decision, note: Option<string>, allow: bool, at: real, saved: bool)
    | BatchRequest(source: nat, name: string, ids: seq<ItemId>, note: Option<string>, allow: bool,
                   clock: Clock, saved: bool)

  function Handle(q: Queue, r: Request): Queue {
    match r
    case OneRequest(source, id, action, note, allow, at, saved) =>
      Single(q, source, id, action, note, allow, at, saved).0
    case BatchRequest(source, name, ids, note, allow, clock, saved) =>
      Batch(q, source, name, ids, note, allow, clock, saved).0
  }

  function Run(q: Queue, rs: seq<Request>): Queue {
    if rs == [] then q else Handle(Run(q, rs[..|rs| - 1]), rs[|rs| - 1])
  }

  /** The single endpoints never ask for the pending decision. */
  ghost predicate Proper(rs: seq<Request>) {
    forall i :: 0 <= i < |rs| && rs[i].OneRequest? ==> !rs[i].action.Pending?
  }

  ghost predicate Names(r: Request, id: ItemId) {
    match r
    case OneRequest(_, one, _, _, _, _, _) => id == one
    case BatchRequest(_, _, ids, _, _, _, _) => id in ids
  }

  lemma StepIsOneWay(q: Queue, r: Request)
    requires r.OneRequest? ==> !r.action.Pending?
    ensures Handle(q, r).Keys == q.Keys
    ensures forall id :: id in q && Handle(q, r)[id] != q[id] ==>
      && q[id].decision.Pending?
      && !Handle(q, r)[id].decision.Pending?
      && Names(r, id)
      && Handle(q, r)[id].severity == q[id].severity
      && Handle(q, r)[id].source == q[id].source
      && (Handle(q, r)[id].decision.Ignored? && q[id].severity.Blocker? ==>
            r.allow && Handle(q, r)[id].note.Some? && Handle(q, r)[id].note.value != "")
  {
    if r.BatchRequest? {
      BatchAllOrNothing(q, r.source, r.name, r.ids, r.note, r.allow, r.clock, r.saved);
      hide Batch;
    }
  }

  /** Over any run of single and batch requests an item that was decided once is never altered
      again, and a blocker ignored during the run was ignored by a request that named it with
      explicit permission, and carries a non-empty note. */
  lemma {:induction false} DecisionsAreFinal(q: Queue, rs: seq<Request>, id: ItemId)
    requires Proper(rs) && id in q
    ensures Run(q, rs).Keys == q.Keys
    ensures forall m :: 0 <= m <= |rs| && id in Run(q, rs[..m]) && !Run(q, rs[..m])[id].decision.Pending? ==>
      Run(q, rs)[id] == Run(q, rs[..m])[id]
    ensures var item := Run(q, rs)[id];
      && item.severity == q[id].severity
      && (q[id].decision.Pending? && item.decision.Ignored? && item.severity.Blocker? ==>
            && item.note.Some? && item.note.value != ""
            && exists i :: 0 <= i < |rs| && Names(rs[i], id) && rs[i].allow)
    decreases |rs|
  {
    assert rs[..|rs|] == rs;
    if rs != [] {
      var n := |rs| - 1;
      var front := rs[..n];
      DecisionsAreFinal(q, front, id);
      StepIsOneWay(Run(q, front), rs[n]);
      forall m | 0 <= m <= n && id in Run(q, rs[..m]) && !Run(q, rs[..m])[id].decision.Pending?
        ensures Run(q, rs)[id] == Run(q, rs[..m])[id]
      {
        assert front[..m] == rs[..m];
      }
      hide Handle;
    }
  }
}
