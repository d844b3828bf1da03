/** Email verification challenges: what one request to send a code and one attempt to confirm it do
    to the stored challenges, including what survives when the request ends in an exception. */
module EmailVerification {
  import opened Prelude
  import opened Sessions

  type Secret = nat

  datatype Challenge = Challenge(
    email: string,
    secret: Secret,
    attempts: nat,
    sentAt: real,
    expiresAt: real,
    verifiedAt: Option<real>)

  /** Settings, with the keyed-hash comparison as an abstract predicate. Durations in seconds. */
  datatype Config = Config(
    resend: nat,
    ttl: nat,
    maxAttempts: nat,
    matches: (string, string, Secret) -> bool)

  datatype AskReply = Throttled(retryAfter: int) | DeliveryFailed | CodeSent
  datatype ConfirmReply = InvalidOrExpired | TooManyAttempts | Confirmed

  predicate Wanted(c: Challenge, email: string, unverifiedOnly: bool) {
    c.email == email && (unverifiedOnly ==> c.verifiedAt.None?)
  }

  /** The row with the greatest sent_at among the wanted ones. */
  function Latest(cs: seq<Challenge>, email: string, unverifiedOnly: bool): (i: Option<nat>)
    ensures i.Some? ==>
      && i.value < |cs| && Wanted(cs[i.value], email, unverifiedOnly)
      && forall j :: 0 <= j < |cs| && Wanted(cs[j], email, unverifiedOnly) ==> cs[j].sentAt <= cs[i.value].sentAt
    ensures i.None? ==> forall j :: 0 <= j < |cs| ==> !Wanted(cs[j], email, unverifiedOnly)
  {
    if cs == [] then None
    else
      var n := |cs| - 1;
      var before := Latest(cs[..n], email, unverifiedOnly);
      assert forall j :: 0 <= j < n ==> cs[..n][j] == cs[j];
      if Wanted(cs[n], email, unverifiedOnly) && (before.None? || cs[before.value].sentAt <= cs[n].sentAt)
      then Some(n) else before
  }

  /** Python's int(): truncation toward zero. */
  function Truncate(x: real): int {
    if x >= 0.0 then x.Floor else -((-x).Floor)
  }

  function RetryAfter(cfg: Config, elapsed: real): int {
    var left := cfg.resend as int - Truncate(elapsed);
    if left < 1 then 1 else left
  }

  function NewChallenge(cfg: Config, email: string, secret: Secret, now: real): Challenge {
    Challenge(email, secret, 0, now, now + cfg.ttl as real, None)
  }

  /** What one request to send a code leaves committed, and what it answers. */
  function Asked(cfg: Config, cs: seq<Challenge>, email: string, secret: Secret, delivered: bool, now: real)
    : (seq<Challenge>, AskReply)
  {
    var latest := Latest(cs, email, false);
    if latest.Some? && now - cs[latest.value].sentAt < cfg.resend as real then
      (cs, Throttled(RetryAfter(cfg, now - cs[latest.value].sentAt)))
    else if !delivered then (cs, DeliveryFailed)
    else (cs + [NewChallenge(cfg, email, secret, now)], CodeSent)
  }

  /** The challenge whose code this attempt is compared with, if any. */
  function Compared(cfg: Config, cs: seq<Challenge>, email: string, now: real): (i: Option<nat>)
    ensures i.Some? ==> i.value < |cs|
  {
    var latest := Latest(cs, email, true);
    if latest.None? || cs[latest.value].expiresAt < now || cs[latest.value].attempts >= cfg.maxAttempts then None
    else latest
  }

  /** What one attempt to confirm leaves committed, and what it answers. */
  function Tried(cfg: Config, cs: seq<Challenge>, email: string, code: string, now: real)
    : (seq<Challenge>, ConfirmReply)
  {
    var compared := Compared(cfg, cs, email, now);
    if compared.None? then
      var latest := Latest(cs, email, true);
      (cs, if latest.None? || cs[latest.value].expiresAt < now then InvalidOrExpired else TooManyAttempts)
    else
      var i, c := compared.value, cs[compared.value];
      if cfg.matches(email, code, c.secret) then
        (cs[i := c.(attempts := c.attempts + 1, verifiedAt := Some(now))], Confirmed)
      else
        (cs[i := c.(attempts := c.attempts + 1)], InvalidOrExpired)
  }

  // ----- what the answers mean -----

  /** Challenge i is the newest unverified one of an email: none was sent later, or at the same time
      and stored later. */
  ghost predicate NewestUnverified(cs: seq<Challenge>, email: string, i: int) {
    && 0 <= i < |cs| && cs[i].email == email && cs[i].verifiedAt.None?
    && forall j :: 0 <= j < |cs| && cs[j].email == email && cs[j].verifiedAt.None? && j != i ==>
      cs[j].sentAt < cs[i].sentAt || (cs[j].sentAt == cs[i].sentAt && j < i)
  }

  ghost predicate Live(cs: seq<Challenge>, email: string, now: real, i: int) {
    NewestUnverified(cs, email, i) && now <= cs[i].expiresAt
  }

  ghost predicate Guessable(cfg: Config, cs: seq<Challenge>, email: string, now: real, i: int) {
    Live(cs, email, now, i) && cs[i].attempts < cfg.maxAttempts
  }

  ghost predicate Matching(cfg: Config, cs: seq<Challenge>, email: string, code: string, now: real, i: int) {
    Guessable(cfg, cs, email, now, i) && cfg.matches(email, code, cs[i].secret)
  }

  /** The law of one attempt. Confirmed: exactly when the newest unverified challenge is within its
      lifetime, has attempts left and the code matches; too many attempts: exactly when it is within
      its lifetime and has none left. An attempt against a challenge with attempts left is counted
      there, and a match also stamps it; nothing else changes. */
  ghost predicate ConfirmLaw(cfg: Config, cs: seq<Challenge>, email: string, code: string, now: real,
                             cs': seq<Challenge>, reply: ConfirmReply)
  {
    && (reply.Confirmed? <==> exists i :: Matching(cfg, cs, email, code, now, i))
    && (reply.TooManyAttempts? <==>
          exists i :: Live(cs, email, now, i) && cs[i].attempts >= cfg.maxAttempts)
    && |cs'| == |cs|
    && (forall i :: 0 <= i < |cs| && !Guessable(cfg, cs, email, now, i) ==> cs'[i] == cs[i])
    && (forall i :: Guessable(cfg, cs, email, now, i) ==>
          cs'[i] == cs[i].(attempts := cs[i].attempts + 1,
                           verifiedAt := if cfg.matches(email, code, cs[i].secret) then Some(now) else None))
  }

  ghost predicate SentLately(cfg: Config, cs: seq<Challenge>, email: string, now: real) {
    exists i :: 0 <= i < |cs| && cs[i].email == email && now - cs[i].sentAt < cfg.resend as real
  }

  /** The law of one request for a code. Throttled: exactly when one was sent to the email less than
      the resend gap ago; otherwise delivery decides, and a delivered code is stored as a fresh
      challenge behind the others. */
  ghost predicate AskLaw(cfg: Config, cs: seq<Challenge>, email: string, secret: Secret, delivered: bool, now: real,
                         cs': seq<Challenge>, reply: AskReply)
  {
    && (reply.Throttled? <==> SentLately(cfg, cs, email, now))
    && (reply.DeliveryFailed? <==> !SentLately(cfg, cs, email, now) && !delivered)
    && (!reply.CodeSent? ==> cs' == cs)
    && (reply.CodeSent? ==>
          && |cs'| == |cs| + 1 && cs'[..|cs|] == cs
          && var c := cs'[|cs|];
             && c.email == email && c.secret == secret && c.attempts == 0 && c.verifiedAt.None?
             && c.sentAt == now && c.expiresAt == now + cfg.ttl as real)
  }

  lemma {:induction false} LatestIsNewest(cs: seq<Challenge>, email: string)
    ensures Latest(cs, email, true).Some? ==> NewestUnverified(cs, email, Latest(cs, email, true).value)
    ensures Latest(cs, email, true).None? ==> forall i :: !NewestUnverified(cs, email, i)
    decreases |cs|
  {
    if cs != [] {
      LatestIsNewest(cs[..|cs| - 1], email);
    }
  }

  lemma NewestIsOne(cs: seq<Challenge>, email: string, i: int, j: int)
    requires NewestUnverified(cs, email, i) && NewestUnverified(cs, email, j)
    ensures i == j
  {
  }

  lemma TriedLaw(cfg: Config, cs: seq<Challenge>, email: string, code: string, now: real)
    ensures var (cs', reply) := Tried(cfg, cs, email, code, now);
      ConfirmLaw(cfg, cs, email, code, now, cs', reply)
  {
    LatestIsNewest(cs, email);
    hide Latest, NewestUnverified;
    var latest := Latest(cs, email, true);
    if latest.Some? {
      forall i | NewestUnverified(cs, email, i) ensures i == latest.value { NewestIsOne(cs, email, i, latest.value); }
      var n := latest.value;
      assert Live(cs, email, now, n) <==> now <= cs[n].expiresAt;
      assert Matching(cfg, cs, email, code, now, n)
        <==> Guessable(cfg, cs, email, now, n) && cfg.matches(email, code, cs[n].secret);
    }
  }

  /** A code is compared exactly with a challenge that can be guessed at. */
  lemma ComparedLaw(cfg: Config, cs: seq<Challenge>, email: string, now: real, i: int)
    ensures Guessable(cfg, cs, email, now, i) <==> 0 <= i && Compared(cfg, cs, email, now) == Some(i)
  {
    LatestIsNewest(cs, email);
    hide Latest, NewestUnverified;
    var latest := Latest(cs, email, true);
    if latest.Some? && NewestUnverified(cs, email, i) { NewestIsOne(cs, email, i, latest.value); }
  }

  lemma AskedLaw(cfg: Config, cs: seq<Challenge>, email: string, secret: Secret, delivered: bool, now: real)
    ensures var (cs', reply) := Asked(cfg, cs, email, secret, delivered, now);
      AskLaw(cfg, cs, email, secret, delivered, now, cs', reply)
  {
    hide Latest;
  }

  class VerificationApi {
    const cfg: Config
    const db: Session<seq<Challenge>>

    constructor (cfg: Config, db: Session<seq<Challenge>>)
      ensures this.cfg == cfg && this.db == db
    {
      this.cfg, this.db := cfg, db;
    }

    /** The handler: adds the row before trying to deliver, and raises when delivery fails. */
    method HandleAsk(email: string, secret: Secret, delivered: bool, now: real) returns (reply: AskReply)
      modifies db`working
      ensures reply.CodeSent? ==> db.working == Asked(cfg, old(db.working), email, secret, delivered, now).0
      ensures reply == Asked(cfg, old(db.working), email, secret, delivered, now).1
    {
      var latest := Latest(db.working, email, false);
      if latest.Some? {
        var elapsed := now - db.working[latest.value].sentAt;
        if elapsed < cfg.resend as real { return Throttled(RetryAfter(cfg, elapsed)); }
      }
      db.working := db.working + [NewChallenge(cfg, email, secret, now)];
      if !delivered { return DeliveryFailed; }
      return CodeSent;
    }

    /** The endpoint: a throttled or undelivered request leaves no row behind. */
    method RequestVerification(email: string, secret: Secret, delivered: bool, now: real) returns (reply: AskReply)
      requires db.working == db.committed
      modifies db
      ensures db.working == db.committed
      ensures (db.committed, reply) == Asked(cfg, old(db.committed), email, secret, delivered, now)
      ensures AskLaw(cfg, old(db.committed), email, secret, delivered, now, db.committed, reply)
    {
      AskedLaw(cfg, db.committed, email, secret, delivered, now);
      hide AskLaw;
      reply := HandleAsk(email, secret, delivered, now);
      db.Close(!reply.CodeSent?);
    }

    /** The handler: counts the attempt first, and commits the count itself before it raises on a
        wrong code. */
    method HandleConfirm(email: string, code: string, now: real) returns (reply: ConfirmReply)
      requires db.working == db.committed
      modifies db
      ensures reply == Tried(cfg, old(db.committed), email, code, now).1
      ensures reply.Confirmed? ==> db.working == Tried(cfg, old(db.committed), email, code, now).0
      ensures !reply.Confirmed? ==> db.committed == Tried(cfg, old(db.committed), email, code, now).0
    {
      var latest := Latest(db.working, email, true);
      if latest.None? { return InvalidOrExpired; }
      var i := latest.value;
      if db.working[i].expiresAt < now { return InvalidOrExpired; }
      if db.working[i].attempts >= cfg.maxAttempts { return TooManyAttempts; }
      db.working := db.working[i := db.working[i].(attempts := db.working[i].attempts + 1)];
      if !cfg.matches(email, code, db.working[i].secret) {
        db.Commit();
        return InvalidOrExpired;
      }
      db.working := db.working[i := db.working[i].(verifiedAt := Some(now))];
      return Confirmed;
    }

    /** The endpoint: a wrong guess stays counted although the request raises. */
    method ConfirmVerification(email: string, code: string, now: real) returns (reply: ConfirmReply)
      requires db.working == db.committed
      modifies db
      ensures db.working == db.committed
      ensures (db.committed, reply) == Tried(cfg, old(db.committed), email, code, now)
      ensures ConfirmLaw(cfg, old(db.committed), email, code, now, db.committed, reply)
    {
      TriedLaw(cfg, db.committed, email, code, now);
      hide ConfirmLaw;
      reply := HandleConfirm(email, code, now);
      db.Close(!reply.Confirmed?);
    }
  }
}
