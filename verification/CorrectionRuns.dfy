/** What holds after any sequence of corrections: the derived rows are a function of the surviving
    log, corrections commute and repeat harmlessly, and every other learner's rows stand still. */
module CorrectionRuns {
  import opened Prelude
  import opened Kernels
  import opened Fsrs
  import opened Replay
  import opened EvidenceLog
  import opened Correction
  import Mastery
  import Policy
  import RowOrder

  datatype Request = Request(id: Id, reason: string, at: real)

  /** One request; an unknown id raises and leaves the tables alone. */
  function Handle(k: Kernel, db: Db, r: Request): Db {
    if r.id in db.evidence then Correct(k, db, r.id, r.reason, r.at) else db
  }

  function Run(k: Kernel, db: Db, rs: seq<Request>): Db {
    if rs == [] then db else Handle(k, Run(k, db, rs[..|rs| - 1]), rs[|rs| - 1])
  }

  function Ids(rs: seq<Request>): set<Id> {
    set i | 0 <= i < |rs| :: rs[i].id
  }

  ghost predicate Touched(db: Db, rs: seq<Request>, pair: Pair) {
    exists id :: id in Ids(rs) && id in db.evidence && db.evidence[id].pair == pair
  }

  // ----- consistency of the derived rows of one pair -----

  ghost predicate StateFollowsLog(k: Kernel, db: Db, pair: Pair) {
    pair in db.states ==> db.states[pair] == RebuiltState(k, Log(db.evidence, pair))
  }

  ghost predicate CardFollowsLog(k: Kernel, db: Db, pair: Pair) {
    pair in db.cards ==>
      var ids := Survivors(db.evidence, pair);
      ids != [] && db.cards[pair] == RebuiltCard(k, ids[|ids| - 1], Log(db.evidence, pair))
  }

  ghost predicate PolicyFollowsLog(k: Kernel, db: Db, pair: Pair) {
    var latest := LatestPolicy(db.policies, pair);
    latest.Some? ==>
      var row := db.policies[latest.value];
      row == RebuiltPolicy(k, row, Log(db.evidence, pair))
  }

  ghost predicate HasCard(db: Db, pair: Pair) {
    pair in db.cards
  }

  ghost predicate HasSurvivor(db: Db, pair: Pair) {
    Surviving(db.evidence, pair) != {}
  }

  /** The policy rows of a pair, in table order. */
  ghost predicate SamePolicies(db: Db, db': Db, pair: Pair) {
    && |db.policies| == |db'.policies|
    && forall i :: 0 <= i < |db.policies| ==>
      && db'.policies[i].pair == db.policies[i].pair
      && db'.policies[i].createdAt == db.policies[i].createdAt
      && (db.policies[i].pair == pair ==> db'.policies[i] == db.policies[i])
  }

  ghost predicate Unmoved(db: Db, db': Db, pair: Pair) {
    && (pair in db'.states <==> pair in db.states)
    && (pair in db.states ==> db'.states[pair] == db.states[pair])
    && (pair in db'.cards <==> pair in db.cards)
    && (pair in db.cards ==> db'.cards[pair] == db.cards[pair])
    && SamePolicies(db, db', pair)
    && Surviving(db'.evidence, pair) == Surviving(db.evidence, pair)
  }

  // ----- one correction -----

  /** Evidence rows keep everything but their invalidation mark, and that is set once only. */
  lemma EvidenceStep(db: Db, k: Kernel, id: Id, reason: string, now: real, pair: Pair)
    requires id in db.evidence
    ensures var db' := Correct(k, db, id, reason, now);
      && db'.evidence.Keys == db.evidence.Keys
      && (forall x :: x in db.evidence ==>
            && db'.evidence[x].pair == db.evidence[x].pair
            && db'.evidence[x].attempt == db.evidence[x].attempt
            && db'.evidence[x].updates == db.evidence[x].updates
            && (db'.evidence[x].invalidatedAt.None? <==> db.evidence[x].invalidatedAt.None? && x != id)
            && (db.evidence[x].invalidatedAt.Some? || x != id ==> db'.evidence[x] == db.evidence[x]))
      && Surviving(db'.evidence, pair) == Surviving(db.evidence, pair) - {id}
  {
  }

  lemma LatestPolicyKept(rows: seq<PolicyRow>, rows': seq<PolicyRow>, pair: Pair)
    requires |rows| == |rows'|
    requires forall i :: 0 <= i < |rows| ==> rows'[i].pair == rows[i].pair && rows'[i].createdAt == rows[i].createdAt
    ensures LatestPolicy(rows', pair) == LatestPolicy(rows, pair)
  {
  }

  /** The pair of the invalidated evidence follows its surviving log from then on, whatever its
      rows held before. The review row outlives the correction exactly when something survives;
      the latest policy is recompiled exactly when something survives. */
  lemma StepRebuilds(k: Kernel, db: Db, id: Id, reason: string, now: real)
    requires id in db.evidence
    ensures var db', pair := Correct(k, db, id, reason, now), db.evidence[id].pair;
      && StateFollowsLog(k, db', pair)
      && CardFollowsLog(k, db', pair)
      && (pair in db'.states <==> pair in db.states)
      && (HasCard(db', pair) <==> HasCard(db, pair) && HasSurvivor(db', pair))
      && (HasSurvivor(db', pair) ==> PolicyFollowsLog(k, db', pair))
      && (!HasSurvivor(db', pair) ==> db'.policies == db.policies)
  {
    hide Replayed, RowOrder.Sorted;
    var db', pair := Correct(k, db, id, reason, now), db.evidence[id].pair;
    SurvivorsInTable(db'.evidence, pair);
    var log := Log(db'.evidence, pair);
    var latest := LatestPolicy(db.policies, pair);
    if log != [] && latest.Some? {
      LatestPolicyKept(db.policies, db'.policies, pair);
    }
  }

  /** No other pair is moved. */
  lemma StepFrame(k: Kernel, db: Db, id: Id, reason: string, now: real, pair: Pair)
    requires id in db.evidence && db.evidence[id].pair != pair
    ensures Unmoved(db, Correct(k, db, id, reason, now), pair)
  {
  }

  // ----- any sequence of corrections -----

  ghost predicate SameFacts(t: Table, u: Table) {
    && t.Keys == u.Keys
    && forall x :: x in t ==>
      && u[x].pair == t[x].pair
      && u[x].attempt == t[x].attempt
      && u[x].updates == t[x].updates
  }

  /** Only the latest policy row of the pair may differ. */
  ghost predicate OnlyLatestPolicy(db: Db, db': Db, pair: Pair) {
    && |db.policies| == |db'.policies|
    && forall i :: 0 <= i < |db.policies| ==>
      && db'.policies[i].pair == db.policies[i].pair
      && db'.policies[i].createdAt == db.policies[i].createdAt
      && (db.policies[i].pair == pair && LatestPolicy(db.policies, pair) != Some(i) ==>
            db'.policies[i] == db.policies[i])
  }

  /** Everything corrections promise about a pair they touched, relative to the tables before. */
  ghost predicate Rebuilt(k: Kernel, db: Db, db': Db, pair: Pair) {
    && StateFollowsLog(k, db', pair)
    && CardFollowsLog(k, db', pair)
    && (pair in db'.states <==> pair in db.states)
    && (HasCard(db', pair) <==> HasCard(db, pair) && HasSurvivor(db', pair))
    && (HasSurvivor(db', pair) ==> PolicyFollowsLog(k, db', pair))
    && OnlyLatestPolicy(db, db', pair)
  }

  lemma StepTouches(k: Kernel, db: Db, id: Id, reason: string, now: real)
    requires id in db.evidence
    ensures Rebuilt(k, db, Correct(k, db, id, reason, now), db.evidence[id].pair)
  {
    StepRebuilds(k, db, id, reason, now);
    hide Replayed, RowOrder.Sorted, StateFollowsLog, CardFollowsLog, PolicyFollowsLog, HasCard, HasSurvivor;
  }

  /** A pair rebuilt and then left alone is still rebuilt. */
  lemma RebuiltThenUnmoved(k: Kernel, db: Db, mid: Db, db': Db, pair: Pair)
    requires Rebuilt(k, db, mid, pair) && Unmoved(mid, db', pair) && SameFacts(mid.evidence, db'.evidence)
    ensures Rebuilt(k, db, db', pair)
  {
    LogStable(mid.evidence, db'.evidence, pair);
    LatestPolicyKept(mid.policies, db'.policies, pair);
    hide Replayed, RowOrder.Sorted, Log;
  }

  /** Rebuilding again after an earlier rebuild, or after nothing, gives one rebuild. */
  lemma MovedThenRebuilt(k: Kernel, db: Db, mid: Db, db': Db, pair: Pair)
    requires Rebuilt(k, db, mid, pair) || Unmoved(db, mid, pair)
    requires Rebuilt(k, mid, db', pair)
    requires Surviving(db'.evidence, pair) <= Surviving(mid.evidence, pair)
    ensures Rebuilt(k, db, db', pair)
  {
    LatestPolicyKept(db.policies, mid.policies, pair);
    hide Replayed, RowOrder.Sorted, Log, Survivors, StateFollowsLog, CardFollowsLog, PolicyFollowsLog;
  }

  lemma UnmovedTwice(db: Db, mid: Db, db': Db, pair: Pair)
    requires Unmoved(db, mid, pair) && Unmoved(mid, db', pair)
    ensures Unmoved(db, db', pair)
  {
  }

  lemma IdsSnoc(rs: seq<Request>)
    requires rs != []
    ensures Ids(rs) == Ids(rs[..|rs| - 1]) + {rs[|rs| - 1].id}
  {
  }

  /** After any sequence of corrections, in any order and with any repetitions: the survivors of
      every pair are the earlier ones minus the named ids; a pair named at least once follows its
      surviving log; a pair never named has not moved. */
  lemma {:induction false} RunRebuilds(k: Kernel, db: Db, rs: seq<Request>, pair: Pair)
    ensures var db' := Run(k, db, rs);
      && SameFacts(db.evidence, db'.evidence)
      && Surviving(db'.evidence, pair) == Surviving(db.evidence, pair) - Ids(rs)
      && (Touched(db, rs, pair) ==> Rebuilt(k, db, db', pair))
      && (!Touched(db, rs, pair) ==> Unmoved(db, db', pair))
    decreases |rs|
  {
    if rs != [] {
      var front, r := rs[..|rs| - 1], rs[|rs| - 1];
      var mid := Run(k, db, front);
      RunRebuilds(k, db, front, pair);
      IdsSnoc(rs);
      hide Rebuilt, Unmoved;
      RunStep(k, db, front, r, mid, pair);
    }
  }

  lemma RunStep(k: Kernel, db: Db, front: seq<Request>, r: Request, mid: Db, pair: Pair)
    requires mid == Run(k, db, front)
    requires SameFacts(db.evidence, mid.evidence)
    requires Surviving(mid.evidence, pair) == Surviving(db.evidence, pair) - Ids(front)
    requires Touched(db, front, pair) ==> Rebuilt(k, db, mid, pair)
    requires !Touched(db, front, pair) ==> Unmoved(db, mid, pair)
    ensures var db' := Handle(k, mid, r);
      && SameFacts(db.evidence, db'.evidence)
      && Surviving(db'.evidence, pair) == Surviving(db.evidence, pair) - (Ids(front) + {r.id})
      && (Touched(db, front, pair) || (r.id in db.evidence && db.evidence[r.id].pair == pair) ==>
            Rebuilt(k, db, db', pair))
      && (!Touched(db, front, pair) && !(r.id in db.evidence && db.evidence[r.id].pair == pair) ==>
            Unmoved(db, db', pair))
  {
    hide Rebuilt, Unmoved, Correct, Run;
    var db' := Handle(k, mid, r);
    if r.id in mid.evidence {
      EvidenceStep(mid, k, r.id, r.reason, r.at, pair);
      if mid.evidence[r.id].pair == pair {
        StepTouches(k, mid, r.id, r.reason, r.at);
        MovedThenRebuilt(k, db, mid, db', pair);
      } else {
        StepFrame(k, mid, r.id, r.reason, r.at, pair);
        if Touched(db, front, pair) { RebuiltThenUnmoved(k, db, mid, db', pair); }
        else { UnmovedTwice(db, mid, db', pair); }
      }
    }
  }

  // ----- order and repetition do not matter -----

  ghost predicate SameTargets(db: Db, rs: seq<Request>, rs': seq<Request>) {
    Ids(rs) * db.evidence.Keys == Ids(rs') * db.evidence.Keys
  }

  lemma SameLog(k: Kernel, db: Db, rs: seq<Request>, rs': seq<Request>, pair: Pair)
    requires SameTargets(db, rs, rs')
    ensures var a, b := Run(k, db, rs), Run(k, db, rs');
      && Surviving(a.evidence, pair) == Surviving(b.evidence, pair)
      && Survivors(a.evidence, pair) == Survivors(b.evidence, pair)
      && Log(a.evidence, pair) == Log(b.evidence, pair)
    ensures Touched(db, rs, pair) <==> Touched(db, rs', pair)
  {
    RunRebuilds(k, db, rs, pair);
    RunRebuilds(k, db, rs', pair);
    hide Run, Rebuilt, Unmoved;
    forall id ensures id in Surviving(db.evidence, pair) - Ids(rs) <==> id in Surviving(db.evidence, pair) - Ids(rs') {
      assert id in db.evidence.Keys ==> (id in Ids(rs) * db.evidence.Keys <==> id in Ids(rs') * db.evidence.Keys);
    }
    forall id | id in db.evidence.Keys ensures id in Ids(rs) <==> id in Ids(rs') {
      assert id in Ids(rs) * db.evidence.Keys <==> id in Ids(rs') * db.evidence.Keys;
    }
    LogStable(Run(k, db, rs).evidence, Run(k, db, rs').evidence, pair);
  }

  /** The learner-state row, the review row and, while something survives, every policy row of a
      pair come out the same for any two request sequences that name the same evidence. */
  lemma PairCommutes(k: Kernel, db: Db, rs: seq<Request>, rs': seq<Request>, pair: Pair)
    requires SameTargets(db, rs, rs')
    ensures var a, b := Run(k, db, rs), Run(k, db, rs');
      && (pair in a.states <==> pair in b.states)
      && (pair in a.states ==> a.states[pair] == b.states[pair])
      && (pair in a.cards <==> pair in b.cards)
      && (pair in a.cards ==> a.cards[pair] == b.cards[pair])
      && |a.policies| == |b.policies| == |db.policies|
      && (HasSurvivor(a, pair) || !Touched(db, rs, pair) ==>
            forall i :: 0 <= i < |a.policies| && db.policies[i].pair == pair ==> a.policies[i] == b.policies[i])
  {
    var a, b := Run(k, db, rs), Run(k, db, rs');
    SameLog(k, db, rs, rs', pair);
    RunRebuilds(k, db, rs, pair);
    RunRebuilds(k, db, rs', pair);
    hide Run, Replayed, Survivors, Log, Surviving;
    if Touched(db, rs, pair) {
      LatestPolicyKept(db.policies, a.policies, pair);
      LatestPolicyKept(db.policies, b.policies, pair);
    }
  }

  /** Corrections commute and are idempotent on all derived numbers. */
  lemma CorrectionsCommute(k: Kernel, db: Db, rs: seq<Request>, rs': seq<Request>)
    requires SameTargets(db, rs, rs')
    ensures Run(k, db, rs).states == Run(k, db, rs').states
    ensures Run(k, db, rs).cards == Run(k, db, rs').cards
  {
    forall pair
      ensures var a, b := Run(k, db, rs), Run(k, db, rs');
        && (pair in a.states <==> pair in b.states)
        && (pair in a.states ==> a.states[pair] == b.states[pair])
        && (pair in a.cards <==> pair in b.cards)
        && (pair in a.cards ==> a.cards[pair] == b.cards[pair])
    {
      PairCommutes(k, db, rs, rs', pair);
    }
  }

  // ----- which policy is left -----

  /** The survivors a pair had after the last request that named it and left it any. */
  function LastLive(db: Db, rs: seq<Request>, pair: Pair): (left: Option<set<Id>>)
    ensures left.Some? ==> left.value != {} && left.value <= Surviving(db.evidence, pair)
  {
    if rs == [] then None
    else
      var r, left := rs[|rs| - 1], Surviving(db.evidence, pair) - Ids(rs);
      if r.id in db.evidence && db.evidence[r.id].pair == pair && left != {} then Some(left)
      else LastLive(db, rs[..|rs| - 1], pair)
  }

  /** What a run makes of the latest policy row of a pair, told from the tables before the run. */
  function PolicyLeft(k: Kernel, db: Db, rs: seq<Request>, pair: Pair, row: PolicyRow): PolicyRow {
    var left := LastLive(db, rs, pair);
    if left.None? then row else RebuiltPolicy(k, row, LogOf(db.evidence, left.value))
  }

  lemma StepPolicies(k: Kernel, db: Db, mid: Db, r: Request, pair: Pair)
    requires SameFacts(db.evidence, mid.evidence) && OnlyLatestPolicy(db, mid, pair)
    ensures var db', latest := Handle(k, mid, r), LatestPolicy(db.policies, pair);
      && OnlyLatestPolicy(db, db', pair)
      && (latest.Some? ==>
            var i, left := latest.value, Surviving(db'.evidence, pair);
            && i < |db'.policies|
            && left <= db.evidence.Keys
            && db'.policies[i]
               == if r.id in db.evidence && db.evidence[r.id].pair == pair && left != {}
                  then RebuiltPolicy(k, mid.policies[i], LogOf(db.evidence, left))
                  else mid.policies[i])
  {
    var db' := Handle(k, mid, r);
    hide Handle, Replayed, LogOf, Surviving, LatestPolicy, SameFacts, OnlyLatestPolicy, RebuiltPolicy;
    LeftInTable(k, db, mid, r, pair);
    if r.id in mid.evidence && mid.evidence[r.id].pair == pair { HitPolicies(k, mid, r); }
    else { MissedPolicies(k, mid, r, pair); }
    OnlyLatestTwice(db, mid, db', pair);
    SamePairs(db, mid, r.id);
  }

  lemma SamePairs(db: Db, mid: Db, id: Id)
    requires SameFacts(db.evidence, mid.evidence)
    ensures id in db.evidence <==> id in mid.evidence
    ensures id in db.evidence ==> mid.evidence[id].pair == db.evidence[id].pair
  {
  }

  lemma OnlyLatestTwice(db: Db, mid: Db, db': Db, pair: Pair)
    requires OnlyLatestPolicy(db, mid, pair) && OnlyLatestPolicy(mid, db', pair)
    ensures OnlyLatestPolicy(db, db', pair)
    ensures LatestPolicy(mid.policies, pair) == LatestPolicy(db.policies, pair)
    ensures |db'.policies| == |mid.policies| == |db.policies|
  {
    LatestPolicyKept(db.policies, mid.policies, pair);
    hide LatestPolicy;
  }

  /** The survivors of a pair after one request are rows of the table, with their attempts. */
  lemma LeftInTable(k: Kernel, db: Db, mid: Db, r: Request, pair: Pair)
    requires SameFacts(db.evidence, mid.evidence)
    ensures var db', left := Handle(k, mid, r), Surviving(Handle(k, mid, r).evidence, pair);
      && left <= db.evidence.Keys && left <= db'.evidence.Keys
      && LogOf(db'.evidence, left) == LogOf(db.evidence, left)
  {
    hide Correct, LogOf, Surviving;
    if r.id in mid.evidence { EvidenceStep(mid, k, r.id, r.reason, r.at, pair); }
    SurvivingInTable(Handle(k, mid, r).evidence, pair);
    LogOfFacts(db.evidence, Handle(k, mid, r).evidence, Surviving(Handle(k, mid, r).evidence, pair));
  }

  lemma HitPolicies(k: Kernel, mid: Db, r: Request)
    requires r.id in mid.evidence
    ensures var db', pair := Handle(k, mid, r), mid.evidence[r.id].pair;
      var left, latest := Surviving(db'.evidence, pair), LatestPolicy(mid.policies, pair);
      && left <= db'.evidence.Keys
      && OnlyLatestPolicy(mid, db', pair)
      && (latest.Some? && left != {} ==>
            db'.policies[latest.value] == RebuiltPolicy(k, mid.policies[latest.value], LogOf(db'.evidence, left)))
      && (left == {} ==> db'.policies == mid.policies)
  {
    var db', pair := Handle(k, mid, r), mid.evidence[r.id].pair;
    LogIsOfSurviving(db'.evidence, pair);
    StepTouches(k, mid, r.id, r.reason, r.at);
    StepRebuilds(k, mid, r.id, r.reason, r.at);
    hide Correct, Replayed, LogOf, Log, Surviving, StateFollowsLog, CardFollowsLog;
    LatestPolicyKept(mid.policies, db'.policies, pair);
  }

  lemma MissedPolicies(k: Kernel, mid: Db, r: Request, pair: Pair)
    requires r.id in mid.evidence ==> mid.evidence[r.id].pair != pair
    ensures var db', latest := Handle(k, mid, r), LatestPolicy(mid.policies, pair);
      && OnlyLatestPolicy(mid, db', pair)
      && (latest.Some? ==> db'.policies[latest.value] == mid.policies[latest.value])
  {
    if r.id in mid.evidence { StepFrame(k, mid, r.id, r.reason, r.at, pair); }
    hide Correct;
  }

  lemma SurvivingInTable(table: Table, pair: Pair)
    ensures Surviving(table, pair) <= table.Keys
  {
  }

  lemma LogIsOfSurviving(table: Table, pair: Pair)
    ensures Surviving(table, pair) <= table.Keys
    ensures Log(table, pair) == LogOf(table, Surviving(table, pair))
  {
  }

  /** After any run the latest policy row of a pair is compiled from the survivors that the last
      request naming the pair and leaving any had left; it is the original row when there was no
      such request. Every other policy row of the pair is the original. */
  lemma {:induction false} PolicyAfterRun(k: Kernel, db: Db, rs: seq<Request>, pair: Pair)
    ensures var db', latest := Run(k, db, rs), LatestPolicy(db.policies, pair);
      && OnlyLatestPolicy(db, db', pair)
      && (latest.Some? ==>
            && latest.value < |db'.policies|
            && db'.policies[latest.value] == PolicyLeft(k, db, rs, pair, db.policies[latest.value]))
    decreases |rs|
  {
    if rs != [] {
      var front := rs[..|rs| - 1];
      PolicyAfterRun(k, db, front, pair);
      RunRebuilds(k, db, front, pair);
      RunRebuilds(k, db, rs, pair);
      hide Rebuilt, Unmoved, Handle, Surviving, LogOf, OnlyLatestPolicy;
      StepPolicies(k, db, Run(k, db, front), rs[|rs| - 1], pair);
    }
  }

  /** Two runs leave a pair the same policies exactly when its last live survivors compile to the
      same row; where both runs had some, that means the same replayed mastery. */
  lemma PoliciesCommuteExactly(k: Kernel, db: Db, rs: seq<Request>, rs': seq<Request>, pair: Pair)
    requires LatestPolicy(db.policies, pair).Some?
    ensures var a, b, i := Run(k, db, rs), Run(k, db, rs'), LatestPolicy(db.policies, pair).value;
      var left, left' := LastLive(db, rs, pair), LastLive(db, rs', pair);
      && |a.policies| == |b.policies| == |db.policies|
      && ((forall j :: 0 <= j < |db.policies| && db.policies[j].pair == pair ==> a.policies[j] == b.policies[j])
          <==> PolicyLeft(k, db, rs, pair, db.policies[i]) == PolicyLeft(k, db, rs', pair, db.policies[i]))
      && (left.Some? && left'.Some? ==>
            (PolicyLeft(k, db, rs, pair, db.policies[i]) == PolicyLeft(k, db, rs', pair, db.policies[i])
             <==> Replayed(k, LogOf(db.evidence, left.value)).mastery
                  == Replayed(k, LogOf(db.evidence, left'.value)).mastery))
  {
    PolicyAfterRun(k, db, rs, pair);
    PolicyAfterRun(k, db, rs', pair);
    var left, left' := LastLive(db, rs, pair), LastLive(db, rs', pair);
    if left.Some? && left'.Some? {
      var log, log' := LogOf(db.evidence, left.value), LogOf(db.evidence, left'.value);
      ReplayRanges(k, log);
      ReplayRanges(k, log');
    }
    hide Run, LastLive, LogOf, Replayed;
  }

  /** On gentle items, the better of two surviving records never gets the easier policy. */
  lemma BetterRecordPolicy(k: Kernel, row: PolicyRow, xs: seq<Attempt>, ys: seq<Attempt>)
    requires Mastery.BetterRecord(ys, xs) && forall i :: 0 <= i < |xs| ==> Mastery.Gentle(xs[i])
    ensures Policy.NoEasier(RebuiltPolicy(k, row, xs).policy, RebuiltPolicy(k, row, ys).policy)
  {
    Mastery.MasteryDominance(k, xs, ys);
    ReplayRanges(k, xs);
    ReplayRanges(k, ys);
    var l, l' := Replayed(k, xs), Replayed(k, ys);
    var recall := if l.schedule.Some? then 1.0 else 0.0;
    Policy.CompileMonotone(row.pair.point, l.mastery, l'.mastery, recall, 0.0, None, None, false);
    hide Replayed, Policy.Compile, Mastery.Gentle;
  }

  function FirstNaming(rs: seq<Request>, id: Id): Option<Request> {
    if rs == [] then None
    else
      var before := FirstNaming(rs[..|rs| - 1], id);
      if before.None? && rs[|rs| - 1].id == id then Some(rs[|rs| - 1]) else before
  }

  /** Repeats keep the mark of the first request that named the evidence. */
  lemma {:induction false} FirstMarkStays(k: Kernel, db: Db, rs: seq<Request>, id: Id)
    requires id in db.evidence
    ensures Run(k, db, rs).evidence.Keys == db.evidence.Keys
    ensures Run(k, db, rs).evidence[id]
         == match FirstNaming(rs, id)
            case None => db.evidence[id]
            case Some(r) => Invalidated(db.evidence[id], r.reason, r.at)
    ensures db.evidence[id].invalidatedAt.None? && FirstNaming(rs, id).None? ==>
      Run(k, db, rs).evidence[id].invalidatedAt.None?
    decreases |rs|
  {
    if rs != [] {
      var mid, r := Run(k, db, rs[..|rs| - 1]), rs[|rs| - 1];
      FirstMarkStays(k, db, rs[..|rs| - 1], id);
      if r.id in mid.evidence { EvidenceStep(mid, k, r.id, r.reason, r.at, mid.evidence[r.id].pair); }
    }
  }

  /** Invalidating evidence that never updated the learning state changes no derived row of a
      consistent pair. */
  lemma InertEvidence(k: Kernel, db: Db, id: Id, reason: string, now: real)
    requires id in db.evidence && !db.evidence[id].updates
    requires var pair := db.evidence[id].pair;
      StateFollowsLog(k, db, pair) && CardFollowsLog(k, db, pair)
      && (HasSurvivor(db, pair) ==> PolicyFollowsLog(k, db, pair))
    ensures var db' := Correct(k, db, id, reason, now);
      db'.states == db.states && db'.cards == db.cards && db'.policies == db.policies
  {
    var db', pair := Correct(k, db, id, reason, now), db.evidence[id].pair;
    EvidenceStep(db, k, id, reason, now, pair);
    assert Surviving(db'.evidence, pair) == Surviving(db.evidence, pair);
    LogStable(db.evidence, db'.evidence, pair);
    SurvivorsInTable(db.evidence, pair);
    AlreadyFresh(k, db, pair);
    hide Replayed, RowOrder.Sorted, StatesAfter, CardsAfter, PoliciesAfter, Log;
    assert db'.states == StatesAfter(k, db.states, pair, Log(db.evidence, pair));
  }

  lemma AlreadyFresh(k: Kernel, db: Db, pair: Pair)
    requires StateFollowsLog(k, db, pair) && CardFollowsLog(k, db, pair)
    requires HasSurvivor(db, pair) ==> PolicyFollowsLog(k, db, pair)
    ensures var ids, log := Survivors(db.evidence, pair), Log(db.evidence, pair);
      && StatesAfter(k, db.states, pair, log) == db.states
      && CardsAfter(k, db.cards, pair, ids, log) == db.cards
      && PoliciesAfter(k, db.policies, pair, log) == db.policies
  {
  }

  /** When nothing survives, the review row is gone and the state row is blank, but the latest
      policy stays whatever it was compiled from before. */
  lemma EmptyLogKeepsPolicy(k: Kernel, db: Db, id: Id, reason: string, now: real)
    requires id in db.evidence && Surviving(db.evidence, db.evidence[id].pair) <= {id}
    ensures var db', pair := Correct(k, db, id, reason, now), db.evidence[id].pair;
      && db'.policies == db.policies
      && pair !in db'.cards
      && (pair in db'.states ==> db'.states[pair] == StateRow(0.0, 0.0, None, 0, 0, NotStarted, None, None))
  {
    StepRebuilds(k, db, id, reason, now);
    EvidenceStep(db, k, id, reason, now, db.evidence[id].pair);
    SurvivorsInTable(Correct(k, db, id, reason, now).evidence, db.evidence[id].pair);
    hide Correct;
  }

  // So the condition on PairCommutes is needed: two orders of the same two corrections can leave
  // different policies behind.

  const SPOT := Pair(1, 1)
  const WELL := Evidence(SPOT, Attempt(1.0, 0.5, true, 0, 0, None, 0.0), true, None, None)
  const BADLY := Evidence(SPOT, Attempt(0.0, 0.5, true, 0, 0, None, 1.0), true, None, None)

  function TwoRecords(policy: PolicyRow): Db {
    Db(map[1 := WELL, 2 := BADLY], map[], map[], [policy])
  }

  lemma StalePolicyDependsOnOrder(k: Kernel, policy: PolicyRow, reason: string, now: real)
    requires policy.pair == SPOT
    ensures var db, a, b := TwoRecords(policy), Request(1, reason, now), Request(2, reason, now);
      && |Run(k, db, [a, b]).policies| == |Run(k, db, [b, a]).policies| == 1
      && Run(k, db, [a, b]).policies[0].mastery == 0.0
      && Run(k, db, [b, a]).policies[0].mastery == 0.21978
  {
    var db, a, b := TwoRecords(policy), Request(1, reason, now), Request(2, reason, now);
    KeepsOneRecord(k, db, a, 2);
    KeepsOneRecord(k, db, b, 1);
    ThenLosesIt(k, db, a, b);
    ThenLosesIt(k, db, b, a);
    OneRecordMastery(k);
  }

  lemma OneRecordMastery(k: Kernel)
    ensures Replayed(k, [BADLY.attempt]).mastery == 0.0
    ensures Replayed(k, [WELL.attempt]).mastery == 0.21978
  {
    Mastery.FreshMastery(k);
    Mastery.HalfwayItem(k, BADLY.attempt);
    Mastery.HalfwayItem(k, WELL.attempt);
  }

  lemma KeepsOneRecord(k: Kernel, db: Db, r: Request, other: Id)
    requires db.evidence == map[1 := WELL, 2 := BADLY] && |db.policies| == 1 && db.policies[0].pair == SPOT
    requires r.id in {1, 2} && other in {1, 2} && other != r.id
    ensures var mid := Run(k, db, [r]);
      && |mid.policies| == 1
      && mid.policies[0].mastery == Replayed(k, [db.evidence[other].attempt]).mastery
      && mid.evidence.Keys == {1, 2} && mid.evidence[other] == db.evidence[other]
      && Surviving(mid.evidence, SPOT) == {other}
  {
    hide PoliciesAfter, StatesAfter, CardsAfter;
    var mid := Correct(k, db, r.id, r.reason, r.at);
    RunOne(k, db, r);
    EvidenceStep(db, k, r.id, r.reason, r.at, SPOT);
    assert Surviving(db.evidence, SPOT) == {1, 2};
    assert Surviving(mid.evidence, SPOT) == {other};
    OneSurvivor(mid.evidence, SPOT, other);
    hide Log, Survivors, Surviving, Run;
    OnlyPolicy(k, db.policies, [db.evidence[other].attempt]);
  }

  lemma RunOne(k: Kernel, db: Db, r: Request)
    ensures Run(k, db, [r]) == Handle(k, db, r)
  {
  }

  lemma OnlyPolicy(k: Kernel, rows: seq<PolicyRow>, log: seq<Attempt>)
    requires |rows| == 1 && rows[0].pair == SPOT && log != []
    ensures var after := PoliciesAfter(k, rows, SPOT, log);
      |after| == 1 && after[0].mastery == Replayed(k, log).mastery
  {
  }

  lemma ThenLosesIt(k: Kernel, db: Db, r: Request, last: Request)
    requires var mid := Run(k, db, [r]);
      last.id in mid.evidence && mid.evidence[last.id].pair == SPOT && Surviving(mid.evidence, SPOT) == {last.id}
    ensures Run(k, db, [r, last]).policies == Run(k, db, [r]).policies
  {
    assert [r, last][..1] == [r];
    EmptyLogKeepsPolicy(k, Run(k, db, [r]), last.id, last.reason, last.at);
  }

  /** A pair that corrections touched is marked mastered only on four surviving attempts worth at
      least 40/11 in total, and its latest policy then asks for unsupported novel transfer. */
  lemma MasteredIsEarned(k: Kernel, db: Db, rs: seq<Request>, pair: Pair)
    requires Touched(db, rs, pair) && pair in Run(k, db, rs).states
    requires forall id :: id in db.evidence ==> Mastery.Recorded(db.evidence[id].attempt)
    requires Run(k, db, rs).states[pair].status.Mastered?
    ensures var db' := Run(k, db, rs);
      && |Surviving(db'.evidence, pair)| >= 4
      && Mastery.TotalOutcome(Log(db'.evidence, pair)) >= 40.0 / 11.0
      && var latest := LatestPolicy(db'.policies, pair);
         latest.Some? ==>
           db'.policies[latest.value].policy
           == Policy.TeachingPolicy(pair.point, 0.65, 0.8, Policy.Minimal, Policy.ProductionMode, Policy.NovelTransfer)
  {
    RunRebuilds(k, db, rs, pair);
    hide Run;
    MasteredRow(k, Run(k, db, rs), pair);
  }

  lemma MasteredRow(k: Kernel, db: Db, pair: Pair)
    requires StateFollowsLog(k, db, pair) && pair in db.states && db.states[pair].status.Mastered?
    requires HasSurvivor(db, pair) ==> PolicyFollowsLog(k, db, pair)
    requires forall id :: id in db.evidence ==> Mastery.Recorded(db.evidence[id].attempt)
    ensures |Surviving(db.evidence, pair)| >= 4
    ensures Mastery.TotalOutcome(Log(db.evidence, pair)) >= 40.0 / 11.0
    ensures var latest := LatestPolicy(db.policies, pair);
      latest.Some? ==>
        db.policies[latest.value].policy
        == Policy.TeachingPolicy(pair.point, 0.65, 0.8, Policy.Minimal, Policy.ProductionMode, Policy.NovelTransfer)
  {
    SurvivorsInTable(db.evidence, pair);
    var log := Log(db.evidence, pair);
    ReplayRanges(k, log);
    Mastery.MasteredNeedsFour(k, log);
    hide Replayed, Mastery.TotalOutcome, LatestPolicy;
  }
}
