/** Email verification over whole runs: requests taken one at a time, with a clock that never goes
    back, starting from no stored challenge. */
module EmailRuns {
  import opened Prelude
  import opened EmailVerification

  datatype Event =
    | Ask(email: string, secret: Secret, delivered: bool, at: real)
    | Try(email: string, code: string, at: real)

  /** One comparison of a submitted code with the code of a stored challenge. */
  datatype Comparison = Comparison(challenge: nat, at: real, matched: bool)

  datatype World = World(challenges: seq<Challenge>, comparisons: seq<Comparison>)

  const EMPTY := World([], [])

  function Step(cfg: Config, w: World, e: Event): World {
    match e
    case Ask(email, secret, delivered, at) =>
      w.(challenges := Asked(cfg, w.challenges, email, secret, delivered, at).0)
    case Try(email, code, at) =>
      var compared := Compared(cfg, w.challenges, email, at);
      World(Tried(cfg, w.challenges, email, code, at).0,
            if compared.None? then w.comparisons
            else w.comparisons + [Comparison(compared.value, at,
                                  cfg.matches(email, code, w.challenges[compared.value].secret))])
  }

  function Run(cfg: Config, es: seq<Event>): World {
    if es == [] then EMPTY else Step(cfg, Run(cfg, es[..|es| - 1]), es[|es| - 1])
  }

  ghost predicate Chronological(es: seq<Event>) {
    forall i, j :: 0 <= i < j < |es| ==> es[i].at <= es[j].at
  }

  function ComparisonsOf(log: seq<Comparison>, i: nat): nat {
    if log == [] then 0
    else ComparisonsOf(log[..|log| - 1], i) + if log[|log| - 1].challenge == i then 1 else 0
  }

  // ----- the invariant of every run -----

  ghost predicate Spaced(cfg: Config, cs: seq<Challenge>) {
    forall i, j :: 0 <= i < j < |cs| && cs[i].email == cs[j].email ==>
      cs[i].sentAt + cfg.resend as real <= cs[j].sentAt
  }

  ghost predicate GoodChallenge(cfg: Config, c: Challenge, clock: real) {
    && c.sentAt <= clock
    && c.expiresAt == c.sentAt + cfg.ttl as real
    && c.attempts <= cfg.maxAttempts
    && (c.verifiedAt.Some? ==> c.attempts > 0 && c.sentAt <= c.verifiedAt.value <= c.expiresAt)
  }

  ghost predicate GoodComparison(w: World, p: nat)
    requires p < |w.comparisons|
  {
    var c := w.comparisons[p];
    && c.challenge < |w.challenges|
    && w.challenges[c.challenge].sentAt <= c.at <= w.challenges[c.challenge].expiresAt
    && (c.matched ==> w.challenges[c.challenge].verifiedAt == Some(c.at))
    // a matched challenge is never compared again
    && (forall q :: p < q < |w.comparisons| && c.matched ==> w.comparisons[q].challenge != c.challenge)
  }

  /** Verification comes from one matching comparison. */
  ghost predicate VerifiedByMatch(w: World, i: nat)
    requires i < |w.challenges|
  {
    w.challenges[i].verifiedAt.Some? ==>
      Comparison(i, w.challenges[i].verifiedAt.value, true) in w.comparisons
  }

  ghost predicate Good(cfg: Config, w: World, clock: real) {
    && Spaced(cfg, w.challenges)
    && (forall i :: 0 <= i < |w.challenges| ==> GoodChallenge(cfg, w.challenges[i], clock))
    && (forall i :: 0 <= i < |w.challenges| ==> w.challenges[i].attempts == ComparisonsOf(w.comparisons, i))
    && (forall p :: 0 <= p < |w.comparisons| ==> GoodComparison(w, p))
    && (forall i :: 0 <= i < |w.challenges| ==> VerifiedByMatch(w, i))
  }

  lemma AskKeepsGood(cfg: Config, w: World, clock: real, e: Event)
    requires Good(cfg, w, clock) && clock <= e.at && e.Ask?
    ensures Good(cfg, Step(cfg, w, e), e.at)
  {
    var w' := Step(cfg, w, e);
    var n := |w.challenges|;
    forall p | 0 <= p < |w'.comparisons| ensures GoodComparison(w', p) {
      assert GoodComparison(w, p);
    }
    forall p | 0 <= p < |w.comparisons| ensures w.comparisons[p].challenge < n {
      assert GoodComparison(w, p);
    }
    NoComparisons(w.comparisons, n);
    forall i | 0 <= i < |w'.challenges| ensures VerifiedByMatch(w', i) {
      if i < n { assert VerifiedByMatch(w, i); }
    }
    hide Latest;
  }

  lemma {:induction false} NoComparisons(log: seq<Comparison>, i: nat)
    requires forall p :: 0 <= p < |log| ==> log[p].challenge < i
    ensures ComparisonsOf(log, i) == 0
  {
    if log != [] { NoComparisons(log[..|log| - 1], i); }
  }

  lemma TryKeepsGood(cfg: Config, w: World, clock: real, e: Event)
    requires Good(cfg, w, clock) && clock <= e.at && e.Try?
    ensures Good(cfg, Step(cfg, w, e), e.at)
  {
    var w' := Step(cfg, w, e);
    var compared := Compared(cfg, w.challenges, e.email, e.at);
    hide Latest;
    if compared.Some? {
      var m := |w.comparisons|;
      assert w'.comparisons[..m] == w.comparisons;
      forall i | 0 <= i < |w'.challenges| ensures VerifiedByMatch(w', i) {
        assert VerifiedByMatch(w, i);
        if i == compared.value && w'.challenges[i].verifiedAt.Some? {
          assert w'.comparisons[m] == Comparison(i, e.at, true);
        }
      }
      forall p | 0 <= p < |w'.comparisons| ensures GoodComparison(w', p) {
        if p < |w.comparisons| { assert GoodComparison(w, p); }
      }
    } else {
      forall p | 0 <= p < |w'.comparisons| ensures GoodComparison(w', p) {
        assert GoodComparison(w, p);
      }
    }
  }

  /** After every run: challenges of one email are at least the resend gap apart; the number of
      comparisons ever made against a challenge is its stored attempt count and at most the
      maximum; each happened within the challenge's lifetime; a challenge is verified only by a
      matching comparison and is never compared again. */
  lemma {:induction false} RunIsGood(cfg: Config, es: seq<Event>, clock: real)
    requires Chronological(es) && forall i :: 0 <= i < |es| ==> es[i].at <= clock
    ensures Good(cfg, Run(cfg, es), clock)
    decreases |es|
  {
    if es != [] {
      var front, e := es[..|es| - 1], es[|es| - 1];
      RunIsGood(cfg, front, e.at);
      if e.Ask? { AskKeepsGood(cfg, Run(cfg, front), e.at, e); }
      else { TryKeepsGood(cfg, Run(cfg, front), e.at, e); }
    }
  }

  // ----- the answers over a run -----

  /** What the last event of a run was answered, when it was an attempt to confirm. */
  function LastConfirm(cfg: Config, es: seq<Event>): Option<ConfirmReply> {
    if es == [] then None
    else match es[|es| - 1]
      case Ask(_, _, _, _) => None
      case Try(email, code, at) => Some(Tried(cfg, Run(cfg, es[..|es| - 1]).challenges, email, code, at).1)
  }

  /** The times of the attempts answered with a confirmation. */
  function ConfirmedAt(cfg: Config, es: seq<Event>): seq<real> {
    if es == [] then []
    else ConfirmedAt(cfg, es[..|es| - 1]) + if LastConfirm(cfg, es) == Some(Confirmed) then [es[|es| - 1].at] else []
  }

  /** The times of the comparisons that matched. */
  function MatchedAt(log: seq<Comparison>): seq<real> {
    if log == [] then []
    else MatchedAt(log[..|log| - 1]) + if log[|log| - 1].matched then [log[|log| - 1].at] else []
  }

  function Verified(cs: seq<Challenge>): set<nat> {
    set i | 0 <= i < |cs| && cs[i].verifiedAt.Some?
  }

  /** One attempt: it is answered with a confirmation exactly when it added a matched comparison, and
      then one challenge more is verified. */
  lemma TryAnswers(cfg: Config, w: World, e: Event)
    requires e.Try?
    ensures var w', confirmed := Step(cfg, w, e), Tried(cfg, w.challenges, e.email, e.code, e.at).1.Confirmed?;
      && MatchedAt(w'.comparisons) == MatchedAt(w.comparisons) + (if confirmed then [e.at] else [])
      && |Verified(w'.challenges)| == |Verified(w.challenges)| + (if confirmed then 1 else 0)
  {
    hide Latest;
    var w', cs := Step(cfg, w, e), w.challenges;
    var compared := Compared(cfg, cs, e.email, e.at);
    if compared.Some? {
      var i, m := compared.value, |w.comparisons|;
      assert w'.comparisons[..m] == w.comparisons;
      ComparedUnverified(cfg, cs, e.email, e.at);
      assert Verified(w'.challenges)
          == Verified(cs) + if cfg.matches(e.email, e.code, cs[i].secret) then {i} else {};
    }
  }

  lemma ComparedUnverified(cfg: Config, cs: seq<Challenge>, email: string, now: real)
    ensures var compared := Compared(cfg, cs, email, now);
      compared.Some? ==> cs[compared.value].verifiedAt.None?
  {
  }

  lemma AskVerifiesNone(cfg: Config, w: World, e: Event)
    requires e.Ask?
    ensures Verified(Step(cfg, w, e).challenges) == Verified(w.challenges)
    ensures Step(cfg, w, e).comparisons == w.comparisons
  {
    hide Latest;
  }

  /** Over every run the confirmations are exactly the matched comparisons, one for each verified
      challenge. */
  lemma {:induction false} ConfirmedAreMatched(cfg: Config, es: seq<Event>)
    ensures ConfirmedAt(cfg, es) == MatchedAt(Run(cfg, es).comparisons)
    ensures |Verified(Run(cfg, es).challenges)| == |ConfirmedAt(cfg, es)|
    decreases |es|
  {
    if es != [] {
      var front, e := es[..|es| - 1], es[|es| - 1];
      ConfirmedAreMatched(cfg, front);
      if e.Try? { TryAnswers(cfg, Run(cfg, front), e); } else { AskVerifiesNone(cfg, Run(cfg, front), e); }
      hide Step, Tried, Verified;
    }
  }

  /** Event a is a request whose code was sent. */
  ghost predicate SentBy(cfg: Config, es: seq<Event>, a: int) {
    && 0 <= a < |es| && es[a].Ask?
    && Asked(cfg, Run(cfg, es[..a]).challenges, es[a].email, es[a].secret, es[a].delivered, es[a].at).1.CodeSent?
  }

  /** Since event a no other code was sent to its email, and no attempt used a matching code. */
  ghost predicate QuietSince(cfg: Config, es: seq<Event>, a: nat)
    requires a < |es| && es[a].Ask?
  {
    forall b :: a < b < |es| && es[b].email == es[a].email ==>
      && !SentBy(cfg, es, b)
      && (es[b].Try? ==> !cfg.matches(es[a].email, es[b].code, es[a].secret))
  }

  function TriesSince(es: seq<Event>, a: nat, email: string): nat {
    if |es| <= a + 1 then 0
    else TriesSince(es[..|es| - 1], a, email) + if es[|es| - 1].Try? && es[|es| - 1].email == email then 1 else 0
  }

  /** The challenge of event a is still the newest unverified one of its email, and was guessed at no
      more often than attempts were made since. */
  ghost predicate StillOpen(cfg: Config, es: seq<Event>, a: nat, cs: seq<Challenge>, i: int)
    requires a < |es| && es[a].Ask?
  {
    && NewestUnverified(cs, es[a].email, i)
    && cs[i].secret == es[a].secret
    && cs[i].expiresAt == es[a].at + cfg.ttl as real
    && cs[i].attempts <= TriesSince(es, a, es[a].email)
  }

  lemma FreshIsNewest(cfg: Config, cs: seq<Challenge>, e: Event, cs': seq<Challenge>, reply: AskReply)
    requires e.Ask? && AskLaw(cfg, cs, e.email, e.secret, e.delivered, e.at, cs', reply) && reply.CodeSent?
    requires forall j :: 0 <= j < |cs| ==> cs[j].sentAt <= e.at
    ensures NewestUnverified(cs', e.email, |cs|)
    ensures cs'[|cs|].secret == e.secret && cs'[|cs|].expiresAt == e.at + cfg.ttl as real && cs'[|cs|].attempts == 0
  {
    assert forall j :: 0 <= j < |cs| ==> cs'[j] == cs'[..|cs|][j];
  }

  lemma JustSent(cfg: Config, es: seq<Event>, a: nat) returns (i: int)
    requires Chronological(es) && |es| == a + 1 && SentBy(cfg, es, a)
    ensures StillOpen(cfg, es, a, Run(cfg, es).challenges, i)
  {
    var front, e := es[..a], es[a];
    var cs := Run(cfg, front).challenges;
    hide Asked, AskLaw, NewestUnverified, Spaced, GoodComparison, VerifiedByMatch;
    RunIsGood(cfg, front, e.at);
    AskedLaw(cfg, cs, e.email, e.secret, e.delivered, e.at);
    assert forall j :: 0 <= j < |cs| ==> GoodChallenge(cfg, cs[j], e.at);
    var (cs', reply) := Asked(cfg, cs, e.email, e.secret, e.delivered, e.at);
    FreshIsNewest(cfg, cs, e, cs', reply);
    i := |cs|;
  }

  lemma AskLeavesOpen(cfg: Config, cs: seq<Challenge>, email: string, e: Event, cs': seq<Challenge>,
                      reply: AskReply, i: int)
    requires e.Ask? && AskLaw(cfg, cs, e.email, e.secret, e.delivered, e.at, cs', reply)
    requires NewestUnverified(cs, email, i) && (e.email == email ==> !reply.CodeSent?)
    ensures NewestUnverified(cs', email, i) && cs'[i] == cs[i]
  {
  }

  lemma TryLeavesOpen(cfg: Config, cs: seq<Challenge>, email: string, e: Event, cs': seq<Challenge>,
                      reply: ConfirmReply, i: int)
    requires e.Try? && ConfirmLaw(cfg, cs, e.email, e.code, e.at, cs', reply)
    requires NewestUnverified(cs, email, i) && (e.email == email ==> !cfg.matches(email, e.code, cs[i].secret))
    ensures NewestUnverified(cs', email, i)
    ensures cs'[i].secret == cs[i].secret && cs'[i].expiresAt == cs[i].expiresAt
    ensures cs'[i].attempts <= cs[i].attempts + if e.email == email then 1 else 0
  {
    forall j | 0 <= j < |cs|
      ensures cs'[j].email == cs[j].email && cs'[j].sentAt == cs[j].sentAt
      ensures cs[j].email == email ==> cs'[j].verifiedAt == cs[j].verifiedAt
    {
      if Guessable(cfg, cs, e.email, e.at, j) && cs[j].email == email { NewestIsOne(cs, email, i, j); }
    }
  }

  lemma SentAndQuietBefore(cfg: Config, es: seq<Event>, a: nat)
    requires a < |es| - 1 && SentBy(cfg, es, a) && QuietSince(cfg, es, a)
    ensures SentBy(cfg, es[..|es| - 1], a) && QuietSince(cfg, es[..|es| - 1], a)
  {
    var front := es[..|es| - 1];
    hide Asked, Run;
    assert front[..a] == es[..a];
    forall b | a < b < |front| && front[b].email == front[a].email
      ensures !SentBy(cfg, front, b)
      ensures front[b].Try? ==> !cfg.matches(front[a].email, front[b].code, front[a].secret)
    {
      assert front[..b] == es[..b];
      assert !SentBy(cfg, es, b);
    }
  }

  lemma {:induction false} StaysOpen(cfg: Config, es: seq<Event>, a: nat) returns (i: int)
    requires Chronological(es) && SentBy(cfg, es, a) && QuietSince(cfg, es, a)
    ensures StillOpen(cfg, es, a, Run(cfg, es).challenges, i)
    decreases |es|
  {
    var n := |es| - 1;
    if a == n {
      i := JustSent(cfg, es, a);
    } else {
      SentAndQuietBefore(cfg, es, a);
      hide QuietSince, SentBy, StillOpen, Run;
      i := StaysOpen(cfg, es[..n], a);
      OpenAfterOne(cfg, es, a, i);
    }
  }

  lemma OpenAfterOne(cfg: Config, es: seq<Event>, a: nat, i: int)
    requires a < |es| - 1 && es[a].Ask? && QuietSince(cfg, es, a)
    requires StillOpen(cfg, es[..|es| - 1], a, Run(cfg, es[..|es| - 1]).challenges, i)
    ensures StillOpen(cfg, es, a, Run(cfg, es).challenges, i)
  {
    if es[|es| - 1].Ask? { OpenAfterAsk(cfg, es, a, i); } else { OpenAfterTry(cfg, es, a, i); }
  }

  lemma LastStep(cfg: Config, es: seq<Event>, a: nat, email: string)
    requires a < |es| - 1
    ensures var n := |es| - 1;
      var e, cs, tries := es[n], Run(cfg, es[..n]).challenges, TriesSince(es[..n], a, email);
      && Run(cfg, es).challenges
         == (match e
             case Ask(_, secret, delivered, at) => Asked(cfg, cs, e.email, secret, delivered, at).0
             case Try(_, code, at) => Tried(cfg, cs, e.email, code, at).0)
      && TriesSince(es, a, email) == tries + if e.Try? && e.email == email then 1 else 0
  {
    hide Asked, Tried;
  }

  lemma OpenAfterAsk(cfg: Config, es: seq<Event>, a: nat, i: int)
    requires a < |es| - 1 && es[a].Ask? && es[|es| - 1].Ask? && QuietSince(cfg, es, a)
    requires StillOpen(cfg, es[..|es| - 1], a, Run(cfg, es[..|es| - 1]).challenges, i)
    ensures StillOpen(cfg, es, a, Run(cfg, es).challenges, i)
  {
    hide Asked, Tried, NewestUnverified, AskLaw, Run, TriesSince;
    var n := |es| - 1;
    var e, cs, email := es[n], Run(cfg, es[..n]).challenges, es[a].email;
    LastStep(cfg, es, a, email);
    AskedLaw(cfg, cs, e.email, e.secret, e.delivered, e.at);
    var (cs', reply) := Asked(cfg, cs, e.email, e.secret, e.delivered, e.at);
    assert e.email == email ==> !SentBy(cfg, es, n);
    AskLeavesOpen(cfg, cs, email, e, cs', reply, i);
  }

  lemma OpenAfterTry(cfg: Config, es: seq<Event>, a: nat, i: int)
    requires a < |es| - 1 && es[a].Ask? && es[|es| - 1].Try? && QuietSince(cfg, es, a)
    requires StillOpen(cfg, es[..|es| - 1], a, Run(cfg, es[..|es| - 1]).challenges, i)
    ensures StillOpen(cfg, es, a, Run(cfg, es).challenges, i)
  {
    hide Asked, Tried, NewestUnverified, ConfirmLaw, SentBy, Run, TriesSince;
    var n := |es| - 1;
    var e, cs, email := es[n], Run(cfg, es[..n]).challenges, es[a].email;
    LastStep(cfg, es, a, email);
    TriedLaw(cfg, cs, e.email, e.code, e.at);
    var (cs', reply) := Tried(cfg, cs, e.email, e.code, e.at);
    TryLeavesOpen(cfg, cs, email, e, cs', reply, i);
  }

  lemma OpenIsConfirmed(cfg: Config, cs: seq<Challenge>, email: string, code: string, now: real, i: int)
    requires NewestUnverified(cs, email, i) && now <= cs[i].expiresAt && cs[i].attempts < cfg.maxAttempts
    requires cfg.matches(email, code, cs[i].secret)
    ensures Tried(cfg, cs, email, code, now).1.Confirmed?
  {
    hide NewestUnverified, Tried;
    TriedLaw(cfg, cs, email, code, now);
    assert Matching(cfg, cs, email, code, now, i);
  }

  lemma LastConfirmOf(cfg: Config, es: seq<Event>, email: string, code: string, now: real)
    ensures LastConfirm(cfg, es + [Try(email, code, now)])
         == Some(Tried(cfg, Run(cfg, es).challenges, email, code, now).1)
  {
    assert (es + [Try(email, code, now)])[..|es|] == es;
    hide Run, Tried;
  }

  /** A learner who enters the code last sent, within its lifetime and after fewer attempts than the
      maximum, none of them matching, is confirmed. */
  lemma CorrectCodeIsConfirmed(cfg: Config, es: seq<Event>, a: nat, code: string, now: real)
    requires Chronological(es) && SentBy(cfg, es, a) && QuietSince(cfg, es, a)
    requires TriesSince(es, a, es[a].email) < cfg.maxAttempts
    requires now <= es[a].at + cfg.ttl as real && cfg.matches(es[a].email, code, es[a].secret)
    ensures LastConfirm(cfg, es + [Try(es[a].email, code, now)]) == Some(Confirmed)
  {
    hide Run, Tried, Asked, NewestUnverified, QuietSince, TriesSince, LastConfirm, Chronological;
    var i := StaysOpen(cfg, es, a);
    OpenIsConfirmed(cfg, Run(cfg, es).challenges, es[a].email, code, now, i);
    LastConfirmOf(cfg, es, es[a].email, code, now);
  }

  // ----- how many challenges fit a window -----

  ghost predicate SentWithin(cs: seq<Challenge>, email: string, s: set<nat>, lo: real, hi: real) {
    forall i :: i in s ==> i < |cs| && cs[i].email == email && lo <= cs[i].sentAt <= hi
  }

  /** n challenges with a gap between neighbours. */
  function Stretch(n: int, gap: real): real {
    (n - 1) as real * gap
  }

  lemma StretchMore(n: int, gap: real)
    ensures Stretch(n + 1, gap) == Stretch(n, gap) + gap && Stretch(1, gap) == 0.0
  {
  }

  /** Spaced challenges of one email stretch over at least one resend gap each but the first. */
  lemma {:induction false} SpacedStretch(cfg: Config, cs: seq<Challenge>, email: string, s: set<nat>,
                                         lo: real, hi: real, n: nat)
    requires Spaced(cfg, cs) && SentWithin(cs, email, s, lo, hi) && n <= |cs|
    requires forall i :: i in s ==> i < n
    requires s != {}
    ensures Stretch(|s|, cfg.resend as real) <= hi - lo
    decreases n
  {
    hide Stretch;
    assert n > 0 by { var i :| i in s; }
    var last := n - 1;
    if last !in s {
      SpacedStretch(cfg, cs, email, s, lo, hi, last);
    } else {
      var rest := s - {last};
      assert |s| == |rest| + 1 by { assert s == rest + {last}; }
      StretchMore(|rest|, cfg.resend as real);
      if rest != {} {
        assert SentWithin(cs, email, rest, lo, cs[last].sentAt - cfg.resend as real);
        hide Spaced, SentWithin;
        SpacedStretch(cfg, cs, email, rest, lo, cs[last].sentAt - cfg.resend as real, last);
      }
    }
  }

  function MostIn(cfg: Config, window: real): int
    requires cfg.resend > 0
  {
    (window / cfg.resend as real).Floor + 1
  }

  /** Any window of `width` seconds holds at most floor(width / resend) + 1 challenges of one email. */
  lemma WindowHolds(cfg: Config, cs: seq<Challenge>, email: string, s: set<nat>, start: real, width: real)
    requires cfg.resend > 0 && Spaced(cfg, cs) && 0.0 <= width
    requires SentWithin(cs, email, s, start, start + width)
    ensures |s| <= MostIn(cfg, width)
  {
    DivLe(width, 0.0, cfg.resend as real);
    if s != {} {
      SpacedStretch(cfg, cs, email, s, start, start + width, |cs|);
      DivLe(width, (|s| - 1) as real, cfg.resend as real);
    }
  }

  /** The challenges of an email that could still be confirmed at some time. */
  function Unexpired(cs: seq<Challenge>, email: string, now: real): set<nat> {
    set i | 0 <= i < |cs| && cs[i].email == email && now <= cs[i].expiresAt
  }

  /** After every run, at most floor(ttl / resend) + 1 challenges of one email are unexpired. */
  lemma UnexpiredAtOnce(cfg: Config, es: seq<Event>, email: string, now: real)
    requires cfg.resend > 0 && Chronological(es) && forall i :: 0 <= i < |es| ==> es[i].at <= now
    ensures |Unexpired(Run(cfg, es).challenges, email, now)| <= MostIn(cfg, cfg.ttl as real)
  {
    RunIsGood(cfg, es, now);
    hide Run;
    WindowHolds(cfg, Run(cfg, es).challenges, email, Unexpired(Run(cfg, es).challenges, email, now),
                now - cfg.ttl as real, cfg.ttl as real);
  }

  // ----- how many guesses fit a window -----

  /** Guesses whose fibres over the challenges are bounded are bounded in number. */
  lemma {:induction false} FibresBound(log: seq<Comparison>, s: set<nat>, targets: set<nat>, most: nat)
    requires forall p :: p in s ==> p < |log| && log[p].challenge in targets
    requires forall i :: i in targets ==> ComparisonsOf(log, i) <= most
    ensures |s| <= |targets| * most
    decreases |targets|
  {
    if targets == {} {
      assert s == {} by { if p :| p in s { assert false; } }
    } else {
      var i :| i in targets;
      var fibre := set p | p in s && log[p].challenge == i;
      FibreSize(log, fibre, i);
      FibresBound(log, s - fibre, targets - {i}, most);
      assert |s| == |s - fibre| + |fibre| by { assert s == (s - fibre) + fibre; }
      OneFewer(|targets|, |targets - {i}|, most);
    }
  }

  lemma OneFewer(n: nat, m: nat, most: nat)
    requires n == m + 1
    ensures n * most == m * most + most
  {
  }

  lemma {:induction false} FibreSize(log: seq<Comparison>, s: set<nat>, i: nat)
    requires forall p :: p in s ==> p < |log| && log[p].challenge == i
    ensures |s| <= ComparisonsOf(log, i)
    decreases |log|
  {
    if log == [] {
      assert s == {} by { if p :| p in s { assert false; } }
    } else {
      var n := |log| - 1;
      assert forall p :: p in s - {n} ==> log[..n][p] == log[p];
      FibreSize(log[..n], s - {n}, i);
      if n in s { assert |s - {n}| == |s| - 1; } else { assert s - {n} == s; }
    }
  }

  function GuessesWithin(w: World, email: string, start: real, width: real): set<nat> {
    set p | 0 <= p < |w.comparisons|
      && w.comparisons[p].challenge < |w.challenges|
      && w.challenges[w.comparisons[p].challenge].email == email
      && start <= w.comparisons[p].at <= start + width
  }

  /** After every run, the codes of one email were guessed at within any window of `width` seconds
      at most maxAttempts * (floor((width + ttl) / resend) + 1) times: attempt counter, expiry and
      resend gap together bound the guessing rate, over all challenges ever sent. */
  lemma GuessingRate(cfg: Config, es: seq<Event>, email: string, start: real, width: real, now: real)
    requires cfg.resend > 0 && Chronological(es) && forall i :: 0 <= i < |es| ==> es[i].at <= now
    requires 0.0 <= width
    ensures |GuessesWithin(Run(cfg, es), email, start, width)| <= MostIn(cfg, width + cfg.ttl as real) * cfg.maxAttempts
  {
    RunIsGood(cfg, es, now);
    hide Run;
    GuessesInGoodWorld(cfg, Run(cfg, es), email, start, width, now);
  }

  lemma GuessTargets(cfg: Config, w: World, email: string, start: real, width: real, clock: real, targets: set<nat>)
    requires Good(cfg, w, clock)
    requires targets == set p | p in GuessesWithin(w, email, start, width) :: w.comparisons[p].challenge
    ensures SentWithin(w.challenges, email, targets, start - cfg.ttl as real, start + width)
    ensures forall i :: i in targets ==> ComparisonsOf(w.comparisons, i) <= cfg.maxAttempts
  {
    forall i | i in targets
      ensures i < |w.challenges| && w.challenges[i].email == email
      ensures start - cfg.ttl as real <= w.challenges[i].sentAt <= start + width
      ensures ComparisonsOf(w.comparisons, i) <= cfg.maxAttempts
    {
      var p :| p in GuessesWithin(w, email, start, width) && w.comparisons[p].challenge == i;
      assert GoodComparison(w, p) && GoodChallenge(cfg, w.challenges[i], clock);
    }
  }

  lemma GuessesInGoodWorld(cfg: Config, w: World, email: string, start: real, width: real, clock: real)
    requires cfg.resend > 0 && Good(cfg, w, clock) && 0.0 <= width
    ensures |GuessesWithin(w, email, start, width)| <= MostIn(cfg, width + cfg.ttl as real) * cfg.maxAttempts
  {
    var guesses := GuessesWithin(w, email, start, width);
    var targets := set p | p in guesses :: w.comparisons[p].challenge;
    GuessTargets(cfg, w, email, start, width, clock, targets);
    var span := width + cfg.ttl as real;
    WindowHolds(cfg, w.challenges, email, targets, start - cfg.ttl as real, span);
    FibresBound(w.comparisons, guesses, targets, cfg.maxAttempts);
    NatMulLe(|targets|, MostIn(cfg, span), cfg.maxAttempts);
  }

  lemma NatMulLe(a: int, b: int, c: nat)
    requires a <= b
    ensures a * c <= b * c
  {
  }

  // ----- waiting as told -----

  /** A throttled caller who waits the advertised time is not throttled again, unless a code was
      sent to the same email meanwhile; and one second less would not always do. */
  lemma RetryAfterSuffices(cfg: Config, cs: seq<Challenge>, email: string, secret: Secret, delivered: bool,
                           now: real, later: real)
    requires forall i :: 0 <= i < |cs| ==> cs[i].sentAt <= now
    requires Asked(cfg, cs, email, secret, delivered, now).1.Throttled?
    ensures var wait := Asked(cfg, cs, email, secret, delivered, now).1.retryAfter;
      && wait >= 1
      && (later >= now + wait as real ==> !Asked(cfg, cs, email, secret, delivered, later).1.Throttled?)
      && (wait > 1 ==> Asked(cfg, cs, email, secret, delivered, now + wait as real - 1.0).1.Throttled?)
  {
  }
}
