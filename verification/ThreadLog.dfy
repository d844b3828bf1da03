/** Numbering of conversation messages by concurrent chat turns. Each turn is one database
    transaction: it locks its thread row (or creates a thread of its own), reads the greatest
    committed sequence number, inserts a user and an assistant message, and commits or rolls back.
    Steps of different turns interleave freely; statements see committed rows only. */
module ThreadLog {
  import opened Prelude
  import RowOrder

  type TurnId = nat
  type ThreadId = nat
  type LearnerId = nat

  datatype Role = User | Assistant

  datatype Message = Message(learner: LearnerId, role: Role, sequence: int, turn: Option<TurnId>)

  /** A committed thread: its owner, its messages in the order they became visible, and how many of
      them predate the sequence column. */
  datatype Thread = Thread(owner: LearnerId, messages: seq<Message>, legacy: nat)

  datatype Phase =
    | Started
    | Holding
    | Numbered(next: int)
    | Inserted(user: Message, assistant: Message)
    | Committed
    | RolledBack

  datatype Turn = Turn(learner: LearnerId, thread: ThreadId, creates: bool, phase: Phase) {
    predicate Live() {
      phase.Holding? || phase.Numbered? || phase.Inserted?
    }
  }

  datatype Db = Db(
    threads: map<ThreadId, Thread>,
    locks: map<ThreadId, TurnId>,
    turns: map<TurnId, Turn>)

  datatype Action =
    | Begin(turn: TurnId, learner: LearnerId, thread: ThreadId)
    | BeginNew(turn: TurnId, learner: LearnerId, thread: ThreadId)
    | Lock(turn: TurnId)
    | ReadMax(turn: TurnId)
    | Insert(turn: TurnId)
    | Commit(turn: TurnId)
    | Rollback(turn: TurnId)

  /** max(sequence) over the learner's messages, plus one; 1 when there are none. */
  function NextSequence(messages: seq<Message>, learner: LearnerId): int {
    GreatestSequence(messages, learner) + 1
  }

  function GreatestSequence(messages: seq<Message>, learner: LearnerId): int {
    if messages == [] then 0
    else
      var n := |messages| - 1;
      var before := GreatestSequence(messages[..n], learner);
      if messages[n].learner == learner && messages[n].sequence > before then messages[n].sequence else before
  }

  /** The messages of a thread a turn can see: none of a thread that is still its own secret. */
  function Visible(db: Db, thread: ThreadId): seq<Message> {
    if thread in db.threads then db.threads[thread].messages else []
  }

  /** A thread identifier no transaction has used. */
  predicate Unused(db: Db, thread: ThreadId) {
    thread !in db.threads && forall t :: t in db.turns ==> db.turns[t].thread != thread
  }

  predicate Enabled(db: Db, a: Action) {
    match a
    case Begin(t, learner, thread) => t !in db.turns && thread in db.threads && db.threads[thread].owner == learner
    case BeginNew(t, learner, thread) => t !in db.turns && Unused(db, thread)
    case Lock(t) =>
      && t in db.turns && db.turns[t].phase.Started?
      && var turn := db.turns[t];
         || turn.creates
         || (&& turn.thread in db.threads && db.threads[turn.thread].owner == turn.learner
             && turn.thread !in db.locks)
    case ReadMax(t) => t in db.turns && db.turns[t].phase.Holding?
    case Insert(t) => t in db.turns && db.turns[t].phase.Numbered?
    case Commit(t) =>
      t in db.turns && db.turns[t].phase.Inserted? && (db.turns[t].creates || db.turns[t].thread in db.threads)
    case Rollback(t) => t in db.turns && (db.turns[t].phase.Started? || db.turns[t].Live())
  }

  function Moved(db: Db, t: TurnId, phase: Phase): Db
    requires t in db.turns
  {
    db.(turns := db.turns[t := db.turns[t].(phase := phase)])
  }

  function Released(db: Db, t: TurnId): map<ThreadId, TurnId> {
    map th | th in db.locks && db.locks[th] != t :: db.locks[th]
  }

  function Step(db: Db, a: Action): Db
    requires Enabled(db, a)
  {
    match a
    case Begin(t, learner, thread) => db.(turns := db.turns[t := Turn(learner, thread, false, Started)])
    case BeginNew(t, learner, thread) => db.(turns := db.turns[t := Turn(learner, thread, true, Started)])
    case Lock(t) =>
      // a new thread row is invisible to others until it commits, so it needs no lock
      var turn := db.turns[t];
      Moved(if turn.creates then db else db.(locks := db.locks[turn.thread := t]), t, Holding)
    case ReadMax(t) =>
      var turn := db.turns[t];
      Moved(db, t, Numbered(NextSequence(Visible(db, turn.thread), turn.learner)))
    case Insert(t) =>
      var turn := db.turns[t];
      var next := turn.phase.next;
      Moved(db, t, Inserted(Message(turn.learner, User, next, Some(t)),
                            Message(turn.learner, Assistant, next + 1, Some(t))))
    case Commit(t) =>
      var turn := db.turns[t];
      var messages := Visible(db, turn.thread) + [turn.phase.user, turn.phase.assistant];
      var thread := if turn.creates then Thread(turn.learner, messages, 0)
                    else db.threads[turn.thread].(messages := messages);
      Moved(db, t, Committed).(threads := db.threads[turn.thread := thread], locks := Released(db, t))
    case Rollback(t) =>
      Moved(db, t, RolledBack).(locks := Released(db, t))
  }

  // ----- the invariant -----

  /** The committed messages of a thread are numbered 1, 2, ... without gap or repeat; behind the
      legacy part they come in pairs, user then assistant, each pair from one committed turn. */
  ghost predicate GoodThread(db: Db, th: ThreadId)
    requires th in db.threads
  {
    var thread := db.threads[th];
    var m, base := thread.messages, thread.legacy;
    && base <= |m| && (|m| - base) % 2 == 0
    && (forall i :: 0 <= i < |m| ==> m[i].sequence == i + 1 && m[i].learner == thread.owner)
    && (forall i :: 0 <= i < base ==> m[i].turn.None?)
    && (forall i :: base <= i < |m| ==> GoodMessage(db, th, i))
    && (forall i, j :: base <= i < j < |m| && m[i].turn == m[j].turn ==> j == i + 1 && (i - base) % 2 == 0)
  }

  ghost predicate GoodMessage(db: Db, th: ThreadId, i: nat)
    requires th in db.threads && i < |db.threads[th].messages|
  {
    var m, base := db.threads[th].messages, db.threads[th].legacy;
    && m[i].turn.Some? && m[i].turn.value in db.turns
    && db.turns[m[i].turn.value].phase.Committed? && db.turns[m[i].turn.value].thread == th
    && m[i].role == (if (i - base) % 2 == 0 then User else Assistant)
    && ((i - base) % 2 == 0 ==> i + 1 < |m| && m[i + 1].turn == m[i].turn)
  }

  /** The pair of messages of turn t stands at positions i and i + 1 of its thread. */
  ghost predicate PairAt(db: Db, t: TurnId, i: nat)
    requires t in db.turns
  {
    var th := db.turns[t].thread;
    && th in db.threads && i + 1 < |db.threads[th].messages|
    && db.threads[th].messages[i] == Message(db.turns[t].learner, User, i + 1, Some(t))
    && db.threads[th].messages[i + 1] == Message(db.turns[t].learner, Assistant, i + 2, Some(t))
  }

  ghost predicate GoodTurn(db: Db, t: TurnId)
    requires t in db.turns
  {
    var turn := db.turns[t];
    var next := |Visible(db, turn.thread)| + 1;
    && (!turn.creates ==> turn.thread in db.threads && db.threads[turn.thread].owner == turn.learner)
    && (!turn.creates && turn.Live() ==> turn.thread in db.locks && db.locks[turn.thread] == t)
    && (turn.creates && !turn.phase.Committed? ==>
          && turn.thread !in db.threads
          && forall u :: u in db.turns && u != t ==> db.turns[u].thread != turn.thread)
    && (turn.phase.Numbered? ==> turn.phase.next == next)
    && (turn.phase.Inserted? ==>
          && turn.phase.user == Message(turn.learner, User, next, Some(t))
          && turn.phase.assistant == Message(turn.learner, Assistant, next + 1, Some(t)))
    && (turn.phase.Committed? ==> exists i :: PairAt(db, t, i))
  }

  ghost predicate GoodLock(db: Db, th: ThreadId)
    requires th in db.locks
  {
    var t := db.locks[th];
    t in db.turns && db.turns[t].thread == th && !db.turns[t].creates && db.turns[t].Live()
  }

  ghost predicate Good(db: Db) {
    && (forall th :: th in db.threads ==> GoodThread(db, th))
    && (forall t :: t in db.turns ==> GoodTurn(db, t))
    && (forall th :: th in db.locks ==> GoodLock(db, th))
  }

  lemma {:induction false} GreatestOfGapless(messages: seq<Message>, learner: LearnerId)
    requires forall i :: 0 <= i < |messages| ==> messages[i].sequence == i + 1 && messages[i].learner == learner
    ensures GreatestSequence(messages, learner) == |messages|
  {
    if messages != [] { GreatestOfGapless(messages[..|messages| - 1], learner); }
  }

  /** A thread stays good while its messages stand still and no committed turn is altered. */
  lemma ThreadStands(db: Db, db': Db, th: ThreadId)
    requires th in db.threads && GoodThread(db, th)
    requires th in db'.threads && db'.threads[th] == db.threads[th]
    requires forall t :: t in db.turns && db.turns[t].phase.Committed? ==> t in db'.turns && db'.turns[t] == db.turns[t]
    ensures GoodThread(db', th)
  {
    forall i | db.threads[th].legacy <= i < |db.threads[th].messages| ensures GoodMessage(db', th, i) {
      assert GoodMessage(db, th, i);
    }
  }

  /** A turn's own step keeps it good. */
  lemma OwnMoveKeepsTurn(db: Db, a: Action)
    requires Good(db) && Enabled(db, a) && !a.Commit?
    ensures GoodTurn(Step(db, a), a.turn)
  {
    hide GoodThread, NextSequence;
    if a.turn in db.turns {
      var turn := db.turns[a.turn];
      assert GoodTurn(db, a.turn);
      NextIsLength(db, turn.thread, turn.learner);
    }
  }

  /** A step of one turn keeps the others good. */
  lemma OtherMoveKeepsTurn(db: Db, a: Action, t: TurnId)
    requires Good(db) && Enabled(db, a) && !a.Commit? && t in db.turns && t != a.turn
    ensures GoodTurn(Step(db, a), t)
  {
    hide GoodThread, GoodLock, NextSequence;
    var db' := Step(db, a);
    assert GoodTurn(db, t);
    assert db'.turns[t] == db.turns[t] && db'.threads == db.threads;
    if db.turns[t].phase.Committed? {
      var i :| PairAt(db, t, i);
      assert PairAt(db', t, i);
    }
  }

  lemma NextIsLength(db: Db, th: ThreadId, learner: LearnerId)
    requires Good(db)
    requires th in db.threads ==> db.threads[th].owner == learner
    ensures NextSequence(Visible(db, th), learner) == |Visible(db, th)| + 1
  {
    if th in db.threads {
      assert GoodThread(db, th);
      GreatestOfGapless(db.threads[th].messages, learner);
    }
  }

  lemma MoveKeepsLock(db: Db, a: Action, th: ThreadId)
    requires Good(db) && Enabled(db, a) && th in Step(db, a).locks
    ensures GoodLock(Step(db, a), th)
  {
    hide GoodThread, GoodTurn, NextSequence;
    if th in db.locks { assert GoodLock(db, th); }
  }

  /** A turn that has not committed is named by no message. */
  lemma NotYetNamed(db: Db, t: TurnId, th: ThreadId, i: nat)
    requires Good(db) && t in db.turns && !db.turns[t].phase.Committed?
    requires th in db.threads && i < |db.threads[th].messages|
    ensures db.threads[th].messages[i].turn != Some(t)
  {
    assert GoodThread(db, th);
    if i >= db.threads[th].legacy { assert GoodMessage(db, th, i); }
  }

  /** The messages before the new pair stay good. */
  lemma CommitKeepsMessage(db: Db, t: TurnId, i: nat)
    requires Good(db) && Enabled(db, Commit(t))
    requires var th := db.turns[t].thread;
      th in db.threads && db.threads[th].legacy <= i < |db.threads[th].messages|
    ensures GoodMessage(Step(db, Commit(t)), db.turns[t].thread, i)
  {
    var th := db.turns[t].thread;
    assert GoodTurn(db, t) && GoodThread(db, th);
    assert GoodMessage(db, th, i);
    hide GoodTurn, GoodThread, GoodLock, NextSequence;
    NotYetNamed(db, t, th, i);
  }

  /** What the thread holds after the commit. */
  lemma CommitAppends(db: Db, t: TurnId)
    requires Good(db) && Enabled(db, Commit(t))
    ensures var turn := db.turns[t];
      var n := |Visible(db, turn.thread)|;
      var after := Step(db, Commit(t)).threads[turn.thread];
      && after.messages
         == Visible(db, turn.thread)
            + [Message(turn.learner, User, n + 1, Some(t)), Message(turn.learner, Assistant, n + 2, Some(t))]
      && after.owner == turn.learner
      && after.legacy == if turn.thread in db.threads then db.threads[turn.thread].legacy else 0
  {
  }

  /** A good thread extended by the pair of a committed turn it did not name before is good. */
  lemma PairExtends(db: Db, db': Db, th: ThreadId, t: TurnId, learner: LearnerId)
    requires th in db.threads ==> GoodThread(db, th) && db.threads[th].owner == learner
    requires th in db'.threads && db'.threads[th].owner == learner
    requires db'.threads[th].legacy == if th in db.threads then db.threads[th].legacy else 0
    requires var n := |Visible(db, th)|;
      db'.threads[th].messages
      == Visible(db, th) + [Message(learner, User, n + 1, Some(t)), Message(learner, Assistant, n + 2, Some(t))]
    requires forall i :: 0 <= i < |Visible(db, th)| ==> Visible(db, th)[i].turn != Some(t)
    requires forall i :: db'.threads[th].legacy <= i < |Visible(db, th)| ==> GoodMessage(db', th, i)
    requires t in db'.turns && db'.turns[t].phase.Committed? && db'.turns[t].thread == th
    ensures GoodThread(db', th)
  {
    var n, base := |Visible(db, th)|, db'.threads[th].legacy;
    CommitArithmetic(n, base);
    assert GoodMessage(db', th, n) && GoodMessage(db', th, n + 1);
    hide GoodMessage;
  }

  lemma CommitExtends(db: Db, t: TurnId)
    requires Good(db) && Enabled(db, Commit(t))
    ensures GoodThread(Step(db, Commit(t)), db.turns[t].thread)
  {
    var turn := db.turns[t];
    var th := turn.thread;
    CommitAppends(db, t);
    assert GoodTurn(db, t);
    if th in db.threads {
      assert GoodThread(db, th);
      forall i | 0 <= i < |db.threads[th].messages| ensures db.threads[th].messages[i].turn != Some(t) {
        NotYetNamed(db, t, th, i);
      }
      forall i | db.threads[th].legacy <= i < |db.threads[th].messages|
        ensures GoodMessage(Step(db, Commit(t)), th, i)
      {
        CommitKeepsMessage(db, t, i);
      }
    }
    hide Good, GoodThread, GoodMessage, GoodLock, NextSequence;
    PairExtends(db, Step(db, Commit(t)), th, t, turn.learner);
  }

  lemma CommitArithmetic(n: nat, base: nat)
    requires base <= n && (n - base) % 2 == 0
    ensures (n + 2 - base) % 2 == 0 && (n + 1 - base) % 2 == 1
  {
  }

  lemma CommitKeepsTurns(db: Db, t: TurnId, u: TurnId)
    requires Good(db) && Enabled(db, Commit(t)) && u in db.turns
    ensures GoodTurn(Step(db, Commit(t)), u)
  {
    hide GoodThread, GoodMessage, GoodLock, NextSequence;
    var db' := Step(db, Commit(t));
    assert GoodTurn(db, t) && GoodTurn(db, u);
    if u == t {
      assert PairAt(db', t, |Visible(db, db.turns[t].thread)|);
    } else if db.turns[u].phase.Committed? {
      var i :| PairAt(db, u, i);
      assert PairAt(db', u, i);
    }
  }

  lemma CommitKeepsThread(db: Db, t: TurnId, th: ThreadId)
    requires Good(db) && Enabled(db, Commit(t)) && th in Step(db, Commit(t)).threads
    ensures GoodThread(Step(db, Commit(t)), th)
  {
    if th == db.turns[t].thread { CommitExtends(db, t); }
    else { ThreadStands(db, Step(db, Commit(t)), th); }
  }

  /** Every step of every turn keeps the invariant. */
  lemma StepKeepsGood(db: Db, a: Action)
    requires Good(db) && Enabled(db, a)
    ensures Good(Step(db, a))
  {
    var db' := Step(db, a);
    forall th | th in db'.threads ensures GoodThread(db', th) {
      if a.Commit? { CommitKeepsThread(db, a.turn, th); } else { ThreadStands(db, db', th); }
    }
    forall t | t in db'.turns ensures GoodTurn(db', t) {
      if a.Commit? {
        CommitKeepsTurns(db, a.turn, t);
      } else if t == a.turn {
        OwnMoveKeepsTurn(db, a);
      } else {
        OtherMoveKeepsTurn(db, a, t);
      }
    }
    forall th | th in db'.locks ensures GoodLock(db', th) { MoveKeepsLock(db, a, th); }
    hide GoodThread, GoodTurn, GoodLock, NextSequence;
  }

  // ----- every interleaving -----

  ghost predicate Allowed(db: Db, run: seq<Action>)
    decreases |run|
  {
    run == [] || (Enabled(db, run[0]) && Allowed(Step(db, run[0]), run[1..]))
  }

  ghost function After(db: Db, run: seq<Action>): Db
    requires Allowed(db, run)
    decreases |run|
  {
    if run == [] then db else After(Step(db, run[0]), run[1..])
  }

  /** A database at rest: gapless legacy threads, no turn under way. */
  ghost predicate Seeded(db: Db) {
    && db.turns == map[] && db.locks == map[]
    && forall th :: th in db.threads ==> GoodThread(db, th) && db.threads[th].legacy == |db.threads[th].messages|
  }

  lemma SeededIsGood(db: Db)
    requires Seeded(db)
    ensures Good(db)
  {
  }

  /** Committed messages are never renumbered, altered or removed. */
  ghost predicate Extends(db: Db, db': Db) {
    && (forall th :: th in db.threads ==>
          && th in db'.threads
          && db'.threads[th].owner == db.threads[th].owner
          && db'.threads[th].legacy == db.threads[th].legacy
          && db.threads[th].messages <= db'.threads[th].messages)
    && (forall th :: th in db'.threads && th !in db.threads ==> db'.threads[th].legacy == 0)
  }

  lemma StepExtends(db: Db, a: Action)
    requires Good(db) && Enabled(db, a)
    ensures Extends(db, Step(db, a))
  {
  }

  lemma {:induction false} RunKeepsGood(db: Db, run: seq<Action>)
    requires Good(db) && Allowed(db, run)
    ensures Good(After(db, run)) && Extends(db, After(db, run))
    decreases |run|
  {
    hide Good, Step, Enabled;
    if run != [] {
      StepKeepsGood(db, run[0]);
      StepExtends(db, run[0]);
      RunKeepsGood(Step(db, run[0]), run[1..]);
    }
  }

  ghost predicate Mentions(db: Db, th: ThreadId, i: nat, t: TurnId) {
    th in db.threads && i < |db.threads[th].messages| && db.threads[th].messages[i].turn == Some(t)
  }

  /** The messages of a committed turn are one adjacent pair of its thread; no other turn has any. */
  ghost predicate AllOrNothing(db: Db, t: TurnId)
    requires t in db.turns
  {
    if db.turns[t].phase.Committed? then
      exists i ::
        && PairAt(db, t, i)
        && forall th, j :: Mentions(db, th, j, t) ==> th == db.turns[t].thread && (j == i || j == i + 1)
    else
      forall th, j :: !Mentions(db, th, j, t)
  }

  lemma TurnIsAllOrNothing(db: Db, t: TurnId)
    requires Good(db) && t in db.turns
    ensures AllOrNothing(db, t)
  {
    hide NextSequence;
    forall th, j | Mentions(db, th, j, t) ensures db.turns[t].phase.Committed? && th == db.turns[t].thread {
      assert GoodThread(db, th);
      assert GoodMessage(db, th, j);
    }
    if db.turns[t].phase.Committed? {
      assert GoodTurn(db, t);
      var i :| PairAt(db, t, i);
      assert GoodThread(db, db.turns[t].thread);
    }
  }

  /** Under every interleaving of any number of turns from a database at rest: the sequence numbers
      of each thread are exactly 1..n, each once, so the unique constraint never fires; each turn's
      two messages are adjacent and both present or both absent; in threads born on the way odd
      numbers are the user's and even ones the assistant's; and history is only appended to. */
  lemma Numbering(db: Db, run: seq<Action>)
    requires Seeded(db) && Allowed(db, run)
    ensures var db' := After(db, run);
      && Extends(db, db')
      && (forall th, i :: th in db'.threads && 0 <= i < |db'.threads[th].messages| ==>
            db'.threads[th].messages[i].sequence == i + 1)
      && (forall t :: t in db'.turns ==> AllOrNothing(db', t))
      && (forall th, i :: th in db'.threads && th !in db.threads && 0 <= i < |db'.threads[th].messages| ==>
            var m := db'.threads[th].messages[i];
            m.role == if m.sequence % 2 == 1 then User else Assistant)
  {
    SeededIsGood(db);
    RunKeepsGood(db, run);
    hide Seeded, Allowed, After, Good;
    NumberingIn(db, After(db, run));
  }

  lemma NumberingIn(db: Db, db': Db)
    requires Good(db') && Extends(db, db')
    ensures forall th, i :: th in db'.threads && 0 <= i < |db'.threads[th].messages| ==>
      db'.threads[th].messages[i].sequence == i + 1
    ensures forall t :: t in db'.turns ==> AllOrNothing(db', t)
    ensures forall th, i :: th in db'.threads && th !in db.threads && 0 <= i < |db'.threads[th].messages| ==>
      var m := db'.threads[th].messages[i];
      m.role == if m.sequence % 2 == 1 then User else Assistant
  {
    forall t | t in db'.turns ensures AllOrNothing(db', t) { TurnIsAllOrNothing(db', t); }
    forall th, i | th in db'.threads && 0 <= i < |db'.threads[th].messages|
      ensures db'.threads[th].messages[i].sequence == i + 1
      ensures th !in db.threads ==>
        db'.threads[th].messages[i].role == if (i + 1) % 2 == 1 then User else Assistant
    {
      assert GoodThread(db', th);
      if th !in db.threads { assert GoodMessage(db', th, i); }
    }
    hide AllOrNothing, Good, GoodThread;
  }

  // ----- a turn writes for the learner who began it -----

  predicate Begins(a: Action) {
    a.Begin? || a.BeginNew?
  }

  /** Turn t is the one that action a began. */
  ghost predicate BegunBy(db: Db, a: Action)
    requires Begins(a)
  {
    && a.turn in db.turns
    && db.turns[a.turn].learner == a.learner && db.turns[a.turn].thread == a.thread
    && (db.turns[a.turn].creates <==> a.BeginNew?)
  }

  /** When turn t committed, its thread belongs to the learner and holds the learner's pair. */
  ghost predicate WroteFor(db: Db, t: TurnId, learner: LearnerId, thread: ThreadId)
    requires t in db.turns
  {
    db.turns[t].phase.Committed? ==>
      && thread in db.threads && db.threads[thread].owner == learner
      && exists i :: 0 <= i && i + 1 < |db.threads[thread].messages|
           && db.threads[thread].messages[i] == Message(learner, User, i + 1, Some(t))
           && db.threads[thread].messages[i + 1] == Message(learner, Assistant, i + 2, Some(t))
  }

  lemma BeginBegins(db: Db, a: Action)
    requires Begins(a) && Enabled(db, a)
    ensures BegunBy(Step(db, a), a) && Step(db, a).turns[a.turn].phase.Started?
    ensures a.turn !in db.turns
    ensures Step(db, a).threads == db.threads && Step(db, a).locks == db.locks
    ensures Step(db, a).turns.Keys == db.turns.Keys + {a.turn}
    ensures forall t :: t in db.turns ==> Step(db, a).turns[t] == db.turns[t]
  {
  }

  /** Whoever it is about, a step leaves every known turn with its learner, thread and kind. */
  lemma StepKeepsIdentity(db: Db, a: Action, t: TurnId)
    requires Enabled(db, a) && t in db.turns
    ensures var db' := Step(db, a);
      && t in db'.turns && db'.turns[t].learner == db.turns[t].learner
      && db'.turns[t].thread == db.turns[t].thread && db'.turns[t].creates == db.turns[t].creates
  {
    hide NextSequence;
  }

  lemma {:induction false} RunKeepsIdentity(db: Db, run: seq<Action>, a: Action)
    requires Allowed(db, run) && Begins(a) && BegunBy(db, a)
    ensures BegunBy(After(db, run), a)
    decreases |run|
  {
    hide Step, Enabled;
    if run != [] {
      StepKeepsIdentity(db, run[0], a.turn);
      RunKeepsIdentity(Step(db, run[0]), run[1..], a);
    }
  }

  lemma {:induction false} BegunInRun(db: Db, run: seq<Action>, n: nat)
    requires Allowed(db, run) && n < |run| && Begins(run[n])
    ensures BegunBy(After(db, run), run[n])
    decreases |run|
  {
    hide Step, Enabled, BegunBy;
    if n == 0 {
      BeginBegins(db, run[0]);
      RunKeepsIdentity(Step(db, run[0]), run[1..], run[0]);
    } else {
      BegunInRun(Step(db, run[0]), run[1..], n - 1);
    }
  }

  lemma CommittedWroteFor(db: Db, a: Action)
    requires Good(db) && Begins(a) && BegunBy(db, a)
    ensures WroteFor(db, a.turn, a.learner, a.thread)
  {
    if db.turns[a.turn].phase.Committed? {
      assert GoodTurn(db, a.turn);
      var i :| PairAt(db, a.turn, i);
      assert GoodThread(db, a.thread);
    }
    hide GoodMessage, GoodLock;
  }

  /** Under every interleaving from a database at rest, a turn keeps the learner and the thread it was
      begun with, creates a thread exactly when begun on a new one, and, once committed, has written
      one pair of that learner's messages into that thread, which that learner owns. */
  lemma TurnsWriteForTheirLearner(db: Db, run: seq<Action>, n: nat)
    requires Seeded(db) && Allowed(db, run) && n < |run| && Begins(run[n])
    ensures BegunBy(After(db, run), run[n])
    ensures WroteFor(After(db, run), run[n].turn, run[n].learner, run[n].thread)
  {
    hide GoodThread, BegunBy, WroteFor;
    SeededIsGood(db);
    RunKeepsGood(db, run);
    BegunInRun(db, run, n);
    CommittedWroteFor(After(db, run), run[n]);
  }

  // ----- no turn can be blocked for ever -----

  lemma AfterThen(db: Db, a: Action, rest: seq<Action>)
    requires Enabled(db, a) && Allowed(Step(db, a), rest)
    ensures Allowed(db, [a] + rest) && After(db, [a] + rest) == After(Step(db, a), rest)
  {
  }

  lemma {:induction false} AfterConcat(db: Db, run: seq<Action>, rest: seq<Action>)
    requires Allowed(db, run) && Allowed(After(db, run), rest)
    ensures Allowed(db, run + rest) && After(db, run + rest) == After(After(db, run), rest)
    decreases |run|
  {
    if run == [] {
      assert run + rest == rest;
    } else {
      assert (run + rest)[1..] == run[1..] + rest;
      AfterConcat(Step(db, run[0]), run[1..], rest);
      hide Step, Enabled;
    }
  }

  function StepsLeft(phase: Phase): nat {
    match phase
    case Holding => 3
    case Numbered(_) => 2
    case Inserted(_, _) => 1
    case _ => 0
  }

  function NextAction(t: TurnId, phase: Phase): Action {
    match phase
    case Holding => ReadMax(t)
    case Numbered(_) => Insert(t)
    case _ => Commit(t)
  }

  /** Only turn t has moved; the locks it held are free once it has committed. */
  ghost predicate OnlyMoved(db: Db, t: TurnId, db': Db)
    requires t in db.turns
  {
    && db'.turns.Keys == db.turns.Keys
    && (forall u :: u in db.turns && u != t ==> db'.turns[u] == db.turns[u])
    && db'.locks == if db'.turns[t].phase.Committed? then Released(db, t) else db.locks
  }

  lemma LiveStep(db: Db, t: TurnId)
    requires Good(db) && t in db.turns && db.turns[t].Live()
    ensures var a := NextAction(t, db.turns[t].phase);
      && Enabled(db, a)
      && OnlyMoved(db, t, Step(db, a))
      && StepsLeft(Step(db, a).turns[t].phase) == StepsLeft(db.turns[t].phase) - 1
      && (Step(db, a).turns[t].Live() || Step(db, a).turns[t].phase.Committed?)
  {
    hide NextSequence, GoodThread, GoodLock, GoodMessage;
    assert GoodTurn(db, t);
    hide Good, GoodTurn;
    match db.turns[t].phase
    case Holding =>
    case Numbered(_) =>
    case Inserted(_, _) =>
  }

  /** A turn past its lock can run to its commit on its own. */
  lemma {:induction false} FinishLive(db: Db, t: TurnId) returns (plan: seq<Action>)
    requires Good(db) && t in db.turns && db.turns[t].Live()
    ensures Allowed(db, plan)
    ensures Good(After(db, plan)) && OnlyMoved(db, t, After(db, plan))
    ensures After(db, plan).turns[t].phase.Committed?
    decreases StepsLeft(db.turns[t].phase)
  {
    var a := NextAction(t, db.turns[t].phase);
    LiveStep(db, t);
    StepKeepsGood(db, a);
    hide Step, Enabled, Good;
    var rest := [];
    if Step(db, a).turns[t].Live() { rest := FinishLive(Step(db, a), t); }
    AfterThen(db, a, rest);
    plan := [a] + rest;
  }

  /** From every reachable state every unfinished turn can still be brought to its commit: its
      thread's lock, if taken, is held by a turn that can finish. */
  lemma CanCommit(db: Db, t: TurnId) returns (plan: seq<Action>)
    requires Good(db) && t in db.turns && (db.turns[t].phase.Started? || db.turns[t].Live())
    ensures Allowed(db, plan) && t in After(db, plan).turns && After(db, plan).turns[t].phase.Committed?
  {
    hide NextSequence, GoodThread;
    if db.turns[t].Live() {
      plan := FinishLive(db, t);
    } else {
      var th := db.turns[t].thread;
      assert GoodTurn(db, t);
      plan := [];
      var mid := db;
      if !db.turns[t].creates && th in db.locks {
        assert GoodLock(db, th);
        plan := FinishLive(db, db.locks[th]);
        mid := After(db, plan);
        assert GoodTurn(mid, t);
      }
      hide GoodTurn, GoodLock, Good;
      StepKeepsGood(mid, Lock(t));
      var rest := FinishLive(Step(mid, Lock(t)), t);
      AfterThen(mid, Lock(t), rest);
      AfterConcat(db, plan, [Lock(t)] + rest);
      plan := plan + ([Lock(t)] + rest);
    }
  }

  /** In every good state a learner can take a turn on a thread of their own, or on a new thread, under
      any unused turn name, and bring it to its commit. */
  lemma AnyTurnCanBeTaken(db: Db, t: TurnId, learner: LearnerId, thread: ThreadId) returns (plan: seq<Action>)
    requires Good(db) && t !in db.turns
    requires Unused(db, thread) || (thread in db.threads && db.threads[thread].owner == learner)
    ensures Allowed(db, plan)
    ensures var db' := After(db, plan);
      && Good(db') && t in db'.turns && db'.turns[t].phase.Committed?
      && WroteFor(db', t, learner, thread)
  {
    var a := if thread in db.threads then Begin(t, learner, thread) else BeginNew(t, learner, thread);
    hide GoodThread, GoodTurn, GoodLock;
    BeginBegins(db, a);
    StepKeepsGood(db, a);
    hide Step, Enabled, Good, WroteFor;
    var rest := CanCommit(Step(db, a), t);
    AfterThen(db, a, rest);
    plan := [a] + rest;
    RunKeepsIdentity(Step(db, a), rest, a);
    RunKeepsGood(Step(db, a), rest);
    CommittedWroteFor(After(db, plan), a);
  }

  /** An unfinished turn can be rolled back at any time, and leaves nothing behind: no thread changes,
      no other turn changes, and exactly its own locks are free. */
  lemma CanRollBack(db: Db, t: TurnId)
    requires Good(db) && t in db.turns && (db.turns[t].phase.Started? || db.turns[t].Live())
    ensures Enabled(db, Rollback(t))
    ensures var db' := Step(db, Rollback(t));
      && Good(db') && db'.threads == db.threads && db'.turns[t].phase.RolledBack?
      && (forall u :: u in db.turns && u != t ==> u in db'.turns && db'.turns[u] == db.turns[u])
      && (forall th :: th in db'.locks <==> th in db.locks && db.locks[th] != t)
  {
    StepKeepsGood(db, Rollback(t));
    hide Good;
  }

  // ----- the migration that numbered old threads -----

  datatype OldMessage = OldMessage(thread: ThreadId, learner: LearnerId, role: Role, createdAt: real)

  function OldTimes(rows: map<RowOrder.Id, OldMessage>): RowOrder.Times {
    map id | id in rows :: rows[id].createdAt
  }

  function OldIds(rows: map<RowOrder.Id, OldMessage>, th: ThreadId): set<RowOrder.Id> {
    set id | id in rows && rows[id].thread == th
  }

  /** The rows of one thread in (created_at, id) order, each with its row_number(). */
  function Backfilled(rows: map<RowOrder.Id, OldMessage>, th: ThreadId, owner: LearnerId): Thread {
    var times, ids := OldTimes(rows), OldIds(rows, th);
    var order := RowOrder.Sorted(times, ids);
    RowOrder.SortedOrder(times, ids);
    Thread(owner,
           seq(|order|, i requires 0 <= i < |order| =>
             Message(rows[order[i]].learner, rows[order[i]].role, RowOrder.RowNumber(times, ids, order[i]), None)),
           |order|)
  }

  function BackfilledDb(rows: map<RowOrder.Id, OldMessage>, owners: map<ThreadId, LearnerId>): Db {
    Db(map th | th in owners :: Backfilled(rows, th, owners[th]), map[], map[])
  }

  /** No thread holds a message of a learner other than its owner. */
  ghost predicate OwnMessagesOnly(rows: map<RowOrder.Id, OldMessage>, owners: map<ThreadId, LearnerId>) {
    forall id :: id in rows && rows[id].thread in owners ==> rows[id].learner == owners[rows[id].thread]
  }

  /** Every old row of a thread is there under its row_number(), with its learner and role. */
  lemma BackfillCarries(rows: map<RowOrder.Id, OldMessage>, th: ThreadId, owner: LearnerId, id: RowOrder.Id)
    requires id in OldIds(rows, th)
    ensures var m, n := Backfilled(rows, th, owner).messages,
                        RowOrder.RowNumber(OldTimes(rows), OldIds(rows, th), id);
      1 <= n <= |m| && m[n - 1] == Message(rows[id].learner, rows[id].role, n, None)
  {
    var times, ids := OldTimes(rows), OldIds(rows, th);
    RowOrder.SortedOrder(times, ids);
    var order := RowOrder.Sorted(times, ids);
    hide RowOrder.Sorted, RowOrder.RowNumber;
    var i :| 0 <= i < |order| && order[i] == id;
    RowOrder.RowNumberIsPlace(times, ids, i);
  }

  lemma BackfilledRows(rows: map<RowOrder.Id, OldMessage>, th: ThreadId, owner: LearnerId)
    ensures var m := Backfilled(rows, th, owner).messages;
      && |m| == |OldIds(rows, th)|
      && (forall i :: 0 <= i < |m| ==> m[i].sequence == i + 1)
      && ((forall i :: 0 <= i < |m| ==> m[i].learner == owner)
          <==> forall id :: id in OldIds(rows, th) ==> rows[id].learner == owner)
  {
    var times, ids := OldTimes(rows), OldIds(rows, th);
    RowOrder.SortedOrder(times, ids);
    var order, m := RowOrder.Sorted(times, ids), Backfilled(rows, th, owner).messages;
    hide RowOrder.Sorted, RowOrder.RowNumber;
    forall i | 0 <= i < |m| ensures m[i].sequence == i + 1 { RowOrder.RowNumberIsPlace(times, ids, i); }
    if forall i :: 0 <= i < |m| ==> m[i].learner == owner {
      forall id | id in ids ensures rows[id].learner == owner {
        var i :| 0 <= i < |order| && order[i] == id;
        assert m[i].learner == owner;
      }
    }
  }

  /** The migration numbers every old thread 1, 2, ... without gap or repeat, and leaves a database at
      rest exactly when every thread holds messages of its owner only. */
  lemma BackfillSeeds(rows: map<RowOrder.Id, OldMessage>, owners: map<ThreadId, LearnerId>)
    ensures forall th :: th in owners ==>
      var m := BackfilledDb(rows, owners).threads[th].messages;
      |m| == |OldIds(rows, th)| && forall i :: 0 <= i < |m| ==> m[i].sequence == i + 1
    ensures Seeded(BackfilledDb(rows, owners)) <==> OwnMessagesOnly(rows, owners)
  {
    var db := BackfilledDb(rows, owners);
    forall th | th in owners
      ensures |db.threads[th].messages| == |OldIds(rows, th)|
      ensures forall i :: 0 <= i < |db.threads[th].messages| ==> db.threads[th].messages[i].sequence == i + 1
      ensures GoodThread(db, th) <==> forall id :: id in OldIds(rows, th) ==> rows[id].learner == owners[th]
      ensures db.threads[th].legacy == |db.threads[th].messages|
    {
      BackfilledGood(rows, owners, th);
    }
    hide Backfilled, GoodThread;
  }

  lemma BackfilledGood(rows: map<RowOrder.Id, OldMessage>, owners: map<ThreadId, LearnerId>, th: ThreadId)
    requires th in owners
    ensures var db := BackfilledDb(rows, owners);
      var thread := db.threads[th];
      && |thread.messages| == |OldIds(rows, th)| == thread.legacy
      && (forall i :: 0 <= i < |thread.messages| ==> thread.messages[i].sequence == i + 1)
      && (GoodThread(db, th) <==> forall id :: id in OldIds(rows, th) ==> rows[id].learner == owners[th])
  {
    BackfilledRows(rows, th, owners[th]);
    RowOrder.SortedOrder(OldTimes(rows), OldIds(rows, th));
    hide RowOrder.Sorted, RowOrder.RowNumber;
  }
}
