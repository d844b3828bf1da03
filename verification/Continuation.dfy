/** The chat reply loop: ask the model, and while it stops for length ask it to go on, up to a
    limit. Once by whole answers, once by streamed chunks. */
module Continuation {
  import opened Prelude

  /** What the two forms of the model request differ in: a fresh turn, or the text to go on from. */
  datatype Request = Opening | GoOn(prefix: string)

  /** An empty continuation text is falsy and yields an ordinary request. */
  function ModelRequest(continuation: Option<string>): Request {
    if continuation.Some? && continuation.value != "" then GoOn(continuation.value) else Opening
  }

  datatype Answer = Unavailable | Answered(text: string, finish: Option<string>)

  datatype Chunk = Chunk(content: string, finish: Option<string>)

  datatype Stream = Stream(chunks: seq<Chunk>, broken: bool)

  /** Models answer the last request of a conversation, possibly depending on the earlier ones. */
  type Model = seq<Request> -> Answer
  type StreamingModel = seq<Request> -> Stream

  const FALLBACK_REPLY := "抱歉，我暂时无法回复。"
  const LENGTH := "length"
  const STOP := "stop"

  /** A reason that is present and not empty. */
  function Named(finish: Option<string>): Option<string> {
    if finish.Some? && finish.value != "" then finish else None
  }

  function OrElse(reason: Option<string>, default: string): string {
    if reason.Some? then reason.value else default
  }

  function Content(chunks: seq<Chunk>): string {
    if chunks == [] then "" else Content(chunks[..|chunks| - 1]) + chunks[|chunks| - 1].content
  }

  /** The last finish reason named by any chunk. */
  function LastNamed(chunks: seq<Chunk>): Option<string> {
    if chunks == [] then None
    else
      var here := Named(chunks[|chunks| - 1].finish);
      if here.Some? then here else LastNamed(chunks[..|chunks| - 1])
  }

  /** A conversation with the model: requests sent, text so far, last finish reason, continuations. */
  datatype Talk = Talk(requests: seq<Request>, text: string, finish: string, count: nat, failed: bool)

  const START := Talk([], "", STOP, 0, false)

  function NextRequest(t: Talk): Request {
    ModelRequest(if t.count > 0 then Some(t.text) else None)
  }

  lemma NextRequestOf(t: Talk)
    ensures NextRequest(t) == ModelRequest(if t.count > 0 then Some(t.text) else None)
  {
  }

  predicate Stops(t: Talk, limit: nat) {
    t.failed || t.finish != LENGTH || t.count >= limit
  }

  /** One whole answer. A missing reason counts as "stop". */
  function Called(model: Model, t: Talk): Talk {
    var requests := t.requests + [NextRequest(t)];
    match model(requests)
    case Unavailable => t.(requests := requests, failed := true)
    case Answered(text, finish) =>
      t.(requests := requests, text := t.text + text, finish := OrElse(Named(finish), STOP))
  }

  /** One streamed answer. A missing reason leaves the reason of the answer before in place. */
  function Heard(model: StreamingModel, t: Talk): Talk {
    var requests := t.requests + [NextRequest(t)];
    var stream := model(requests);
    Talk(requests, t.text + Content(stream.chunks), OrElse(LastNamed(stream.chunks), t.finish), t.count, stream.broken)
  }

  function CallFrom(model: Model, limit: nat, t: Talk): Talk
    decreases limit - t.count
  {
    var next := Called(model, t);
    if Stops(next, limit) then next else CallFrom(model, limit, next.(count := next.count + 1))
  }

  function HearFrom(model: StreamingModel, limit: nat, t: Talk): Talk
    decreases limit - t.count
  {
    var next := Heard(model, t);
    if Stops(next, limit) then next else HearFrom(model, limit, next.(count := next.count + 1))
  }

  datatype Outcome = Failed | Replied(reply: string, finish: string, continuations: nat)

  function OutcomeOf(t: Talk): Outcome {
    if t.failed then Failed else Replied(if t.text == "" then FALLBACK_REPLY else t.text, t.finish, t.count)
  }

  // ----- what a run is, told by the raw reasons of the model -----

  /** No reason, or an empty one. */
  ghost predicate Silent(finish: Option<string>) {
    finish.Some? ==> finish.value == ""
  }

  ghost predicate LastReasonAt(chunks: seq<Chunk>, j: int, reason: string) {
    && 0 <= j < |chunks| && chunks[j].finish == Some(reason)
    && forall m :: j < m < |chunks| ==> Silent(chunks[m].finish)
  }

  /** The last chunk that carries a non-empty reason carries this one. */
  ghost predicate IsLastReason(chunks: seq<Chunk>, reason: string) {
    reason != "" && exists j :: LastReasonAt(chunks, j, reason)
  }

  ghost predicate NoReason(chunks: seq<Chunk>) {
    forall m :: 0 <= m < |chunks| ==> Silent(chunks[m].finish)
  }

  lemma {:induction false} LastNamedFound(chunks: seq<Chunk>)
    ensures LastNamed(chunks).Some? ==> IsLastReason(chunks, LastNamed(chunks).value)
    ensures LastNamed(chunks).None? ==> NoReason(chunks)
  {
    if chunks != [] {
      var n := |chunks| - 1;
      var front := chunks[..n];
      LastNamedFound(front);
      if Named(chunks[n].finish).Some? {
        assert LastReasonAt(chunks, n, chunks[n].finish.value);
      } else if LastNamed(front).Some? {
        var j :| LastReasonAt(front, j, LastNamed(front).value);
        assert LastReasonAt(chunks, j, LastNamed(front).value);
      }
    }
  }

  lemma LastReasonIsOne(chunks: seq<Chunk>, reason: string)
    requires IsLastReason(chunks, reason)
    ensures !NoReason(chunks)
    ensures forall other :: IsLastReason(chunks, other) ==> other == reason
  {
    var j :| LastReasonAt(chunks, j, reason);
    forall other | IsLastReason(chunks, other) ensures other == reason {
      var i :| LastReasonAt(chunks, i, other);
      assert i == j;
    }
  }

  lemma LastNamedExactly(chunks: seq<Chunk>)
    ensures LastNamed(chunks).None? <==> NoReason(chunks)
    ensures forall reason :: LastNamed(chunks) == Some(reason) <==> IsLastReason(chunks, reason)
  {
    LastNamedFound(chunks);
    hide LastNamed, IsLastReason, NoReason;
    if LastNamed(chunks).Some? {
      LastReasonIsOne(chunks, LastNamed(chunks).value);
    }
    forall reason | IsLastReason(chunks, reason) ensures LastNamed(chunks) == Some(reason) {
      LastReasonIsOne(chunks, reason);
    }
  }

  /** Everything heard in answer to the first n requests. */
  function ChunksOf(model: StreamingModel, requests: seq<Request>, n: nat): seq<Chunk>
    requires n <= |requests|
  {
    if n == 0 then [] else ChunksOf(model, requests, n - 1) + model(requests[..n]).chunks
  }

  /** The request that goes on from a text; an empty text leaves nothing to go on from. */
  ghost predicate GoesOnFrom(request: Request, text: string) {
    request == if text == "" then Opening else GoOn(text)
  }

  /** After stream i another is requested: it did not break, the last reason heard so far is "length",
      and the limit is not used up. */
  ghost predicate StreamContinues(model: StreamingModel, limit: nat, requests: seq<Request>, i: nat)
    requires i < |requests|
  {
    && !model(requests[..i + 1]).broken
    && IsLastReason(ChunksOf(model, requests, i + 1), "length")
    && i < limit
  }

  /** Each request goes on from all the text heard so far; another one follows a stream exactly while
      StreamContinues holds. */
  ghost predicate StreamRequests(model: StreamingModel, limit: nat, requests: seq<Request>) {
    var n := |requests|;
    && 1 <= n <= limit + 1
    && requests[0] == Opening
    && (forall i :: 0 < i < n ==> GoesOnFrom(requests[i], Content(ChunksOf(model, requests, i))))
    && (forall i :: 0 <= i < n ==> (i + 1 < n <==> StreamContinues(model, limit, requests, i)))
  }

  /** The reply fails exactly when its last stream broke; otherwise it is the text heard, or an apology
      for none, with the last reason heard in the whole run, or "stop" for none, and one continuation
      per request after the first. */
  ghost predicate StreamOutcome(model: StreamingModel, requests: seq<Request>, outcome: Outcome) {
    var heard := ChunksOf(model, requests, |requests|);
    && (outcome.Failed? <==> model(requests).broken)
    && (outcome.Replied? ==>
          && outcome.reply == (if Content(heard) == "" then "抱歉，我暂时无法回复。" else Content(heard))
          && outcome.continuations == |requests| - 1
          && (NoReason(heard) ==> outcome.finish == "stop")
          && (!NoReason(heard) ==> IsLastReason(heard, outcome.finish)))
  }

  /** The law of a streamed reply. */
  ghost predicate StreamLaw(model: StreamingModel, limit: nat, requests: seq<Request>, outcome: Outcome) {
    StreamRequests(model, limit, requests) && StreamOutcome(model, requests, outcome)
  }

  /** The texts answered to the first n requests, joined. */
  function Joined(model: Model, requests: seq<Request>, n: nat): string
    requires n <= |requests|
  {
    if n == 0 then "" else Joined(model, requests, n - 1) + AnswerText(model, requests[..n])
  }

  function AnswerText(model: Model, requests: seq<Request>): string {
    match model(requests) case Unavailable => "" case Answered(text, _) => text
  }

  ghost predicate AnswerContinues(model: Model, limit: nat, requests: seq<Request>, i: nat)
    requires i < |requests|
  {
    && model(requests[..i + 1]).Answered?
    && model(requests[..i + 1]).finish == Some("length")
    && i < limit
  }

  /** The law of a reply by whole answers: as above, but the reason reported is that of the last
      answer alone, or "stop" when it gave none. */
  ghost predicate AnswerLaw(model: Model, limit: nat, requests: seq<Request>, outcome: Outcome) {
    var n := |requests|;
    && 1 <= n <= limit + 1
    && requests[0] == Opening
    && (forall i :: 0 < i < n ==> GoesOnFrom(requests[i], Joined(model, requests, i)))
    && (forall i :: 0 <= i < n ==> (i + 1 < n <==> AnswerContinues(model, limit, requests, i)))
    && (outcome.Failed? <==> model(requests).Unavailable?)
    && (outcome.Replied? ==>
          var text, finish := Joined(model, requests, n), model(requests).finish;
          && outcome.reply == (if text == "" then "抱歉，我暂时无法回复。" else text)
          && outcome.continuations == n - 1
          && (finish.Some? && finish.value != "" ==> outcome.finish == finish.value)
          && (Silent(finish) ==> outcome.finish == "stop"))
  }

  lemma {:induction false} ChunksOfPrefix(model: StreamingModel, requests: seq<Request>, more: seq<Request>, n: nat)
    requires n <= |requests|
    ensures ChunksOf(model, requests + more, n) == ChunksOf(model, requests, n)
  {
    if n > 0 {
      ChunksOfPrefix(model, requests, more, n - 1);
      assert (requests + more)[..n] == requests[..n];
    }
  }

  lemma {:induction false} JoinedPrefix(model: Model, requests: seq<Request>, more: seq<Request>, n: nat)
    requires n <= |requests|
    ensures Joined(model, requests + more, n) == Joined(model, requests, n)
  {
    if n > 0 {
      JoinedPrefix(model, requests, more, n - 1);
      assert (requests + more)[..n] == requests[..n];
    }
  }

  /** Contents are joined in order, each once. */
  lemma {:induction false} ContentConcat(a: seq<Chunk>, b: seq<Chunk>)
    ensures Content(a + b) == Content(a) + Content(b)
    ensures |b| == 1 ==> Content(b) == b[0].content
    ensures LastNamed(a + b) == if LastNamed(b).Some? then LastNamed(b) else LastNamed(a)
    decreases |b|
  {
    if b == [] {
      assert a + b == a;
    } else {
      var n := |b| - 1;
      assert (a + b)[..|a + b| - 1] == a + b[..n];
      ContentConcat(a, b[..n]);
    }
  }

  /** The first n requests were made as they should, and each of their streams was continued. */
  ghost predicate StreamedWell(model: StreamingModel, limit: nat, requests: seq<Request>, n: nat)
    requires n <= |requests|
  {
    && (n > 0 ==> requests[0] == Opening)
    && (forall i :: 0 < i < n ==> GoesOnFrom(requests[i], Content(ChunksOf(model, requests, i))))
    && (forall i :: 0 <= i < n ==> StreamContinues(model, limit, requests, i))
  }

  /** A conversation about to make one more request. */
  ghost predicate Streaming(model: StreamingModel, limit: nat, t: Talk) {
    var n := |t.requests|;
    && t.count == n <= limit && !t.failed
    && t.text == Content(ChunksOf(model, t.requests, n))
    && t.finish == OrElse(LastNamed(ChunksOf(model, t.requests, n)), STOP)
    && StreamedWell(model, limit, t.requests, n)
  }

  lemma StreamContinuesAfter(model: StreamingModel, limit: nat, requests: seq<Request>, request: Request, i: nat)
    requires i < |requests|
    ensures StreamContinues(model, limit, requests + [request], i) <==> StreamContinues(model, limit, requests, i)
  {
    ChunksOfPrefix(model, requests, [request], i + 1);
    assert (requests + [request])[..i + 1] == requests[..i + 1];
    hide ChunksOf, IsLastReason;
  }

  lemma StreamedWellAfter(model: StreamingModel, limit: nat, requests: seq<Request>, request: Request)
    requires StreamedWell(model, limit, requests, |requests|)
    ensures StreamedWell(model, limit, requests + [request], |requests|)
    ensures ChunksOf(model, requests + [request], |requests|) == ChunksOf(model, requests, |requests|)
  {
    var r, n := requests + [request], |requests|;
    hide StreamContinues, GoesOnFrom, ChunksOf, Content;
    ChunksOfPrefix(model, requests, [request], n);
    forall i | 0 < i < n ensures GoesOnFrom(r[i], Content(ChunksOf(model, r, i))) {
      ChunksOfPrefix(model, requests, [request], i);
      assert r[i] == requests[i];
    }
    forall i | 0 <= i < n ensures StreamContinues(model, limit, r, i) {
      StreamContinuesAfter(model, limit, requests, request, i);
    }
  }

  /** A conversation that has just heard a stream. */
  ghost predicate JustHeard(model: StreamingModel, limit: nat, r: Talk) {
    var n := r.count;
    && |r.requests| == n + 1
    && r.text == Content(ChunksOf(model, r.requests, n + 1))
    && r.finish == OrElse(LastNamed(ChunksOf(model, r.requests, n + 1)), STOP)
    && r.failed == model(r.requests).broken
    && StreamedWell(model, limit, r.requests, n)
    && (n == 0 ==> r.requests[n] == Opening)
    && (n > 0 ==> GoesOnFrom(r.requests[n], Content(ChunksOf(model, r.requests, n))))
  }

  /** One more stream: what it adds, and whether it is continued. */
  lemma OneMoreStream(model: StreamingModel, limit: nat, t: Talk)
    requires Streaming(model, limit, t)
    ensures Heard(model, t).count == |t.requests| && JustHeard(model, limit, Heard(model, t))
  {
    var r, n := Heard(model, t), |t.requests|;
    hide LastNamed, Content, StreamedWell, ChunksOf;
    StreamedWellAfter(model, limit, t.requests, NextRequest(t));
    ChunksOfNext(model, r.requests, n);
    ContentConcat(ChunksOf(model, t.requests, n), model(r.requests).chunks);
  }

  lemma ChunksOfNext(model: StreamingModel, requests: seq<Request>, n: nat)
    requires |requests| == n + 1
    ensures ChunksOf(model, requests, n + 1) == ChunksOf(model, requests, n) + model(requests).chunks
  {
    assert requests[..n + 1] == requests;
  }

  lemma StopsExactly(model: StreamingModel, limit: nat, r: Talk)
    requires JustHeard(model, limit, r)
    ensures Stops(r, limit) <==> !StreamContinues(model, limit, r.requests, r.count)
  {
    LastNamedExactly(ChunksOf(model, r.requests, r.count + 1));
    assert r.requests[..r.count + 1] == r.requests;
    hide Content, LastNamed, IsLastReason, StreamedWell, ChunksOf;
  }

  lemma StreamingOn(model: StreamingModel, limit: nat, r: Talk)
    requires JustHeard(model, limit, r) && r.count < limit && !r.failed
    requires StreamContinues(model, limit, r.requests, r.count)
    ensures Streaming(model, limit, r.(count := r.count + 1))
  {
    hide Content, LastNamed, StreamContinues, ChunksOf, GoesOnFrom;
  }

  lemma StreamingAfter(model: StreamingModel, limit: nat, t: Talk)
    requires Streaming(model, limit, t) && !Stops(Heard(model, t), limit)
    ensures var next := Heard(model, t); Streaming(model, limit, next.(count := next.count + 1))
  {
    hide Heard, StreamContinues, JustHeard, Streaming;
    OneMoreStream(model, limit, t);
    StopsExactly(model, limit, Heard(model, t));
    StreamingOn(model, limit, Heard(model, t));
  }

  lemma LastStreamRequests(model: StreamingModel, limit: nat, r: Talk)
    requires JustHeard(model, limit, r) && r.count <= limit && !StreamContinues(model, limit, r.requests, r.count)
    ensures StreamRequests(model, limit, r.requests)
  {
    hide Content, LastNamed, StreamContinues, ChunksOf, GoesOnFrom;
  }

  lemma LastStreamOutcome(model: StreamingModel, limit: nat, r: Talk)
    requires JustHeard(model, limit, r)
    ensures StreamOutcome(model, r.requests, OutcomeOf(r)) && KeepsText(model, r)
  {
    LastNamedExactly(ChunksOf(model, r.requests, |r.requests|));
    hide Content, LastNamed, IsLastReason, NoReason, StreamedWell, ChunksOf, GoesOnFrom;
  }

  /** All text heard is kept, also when the last stream broke off. */
  ghost predicate KeepsText(model: StreamingModel, r: Talk) {
    && r.text == Content(ChunksOf(model, r.requests, |r.requests|))
    && r.failed == model(r.requests).broken
  }

  lemma {:induction false} HearFromLaw(model: StreamingModel, limit: nat, t: Talk)
    requires Streaming(model, limit, t)
    ensures var r := HearFrom(model, limit, t);
      StreamLaw(model, limit, r.requests, OutcomeOf(r)) && KeepsText(model, r)
    decreases limit - t.count
  {
    var next := Heard(model, t);
    OneMoreStream(model, limit, t);
    StopsExactly(model, limit, next);
    hide Heard, Content, LastNamed, StreamContinues, ChunksOf, StreamRequests, StreamOutcome, KeepsText;
    hide JustHeard, Streaming;
    if Stops(next, limit) {
      LastStreamRequests(model, limit, next);
      LastStreamOutcome(model, limit, next);
    } else {
      StreamingAfter(model, limit, t);
      HearFromLaw(model, limit, next.(count := next.count + 1));
    }
  }

  /** The same for whole answers. */
  ghost predicate AnsweredWell(model: Model, limit: nat, requests: seq<Request>, n: nat)
    requires n <= |requests|
  {
    && (n > 0 ==> requests[0] == Opening)
    && (forall i :: 0 < i < n ==> GoesOnFrom(requests[i], Joined(model, requests, i)))
    && (forall i :: 0 <= i < n ==> AnswerContinues(model, limit, requests, i))
  }

  ghost predicate Asking(model: Model, limit: nat, t: Talk) {
    var n := |t.requests|;
    && t.count == n <= limit && !t.failed
    && t.text == Joined(model, t.requests, n)
    && AnsweredWell(model, limit, t.requests, n)
  }

  lemma AnswerContinuesAfter(model: Model, limit: nat, requests: seq<Request>, request: Request, i: nat)
    requires i < |requests|
    ensures AnswerContinues(model, limit, requests + [request], i) <==> AnswerContinues(model, limit, requests, i)
  {
    assert (requests + [request])[..i + 1] == requests[..i + 1];
  }

  lemma AnsweredWellAfter(model: Model, limit: nat, requests: seq<Request>, request: Request)
    requires AnsweredWell(model, limit, requests, |requests|)
    ensures AnsweredWell(model, limit, requests + [request], |requests|)
    ensures Joined(model, requests + [request], |requests|) == Joined(model, requests, |requests|)
  {
    var r, n := requests + [request], |requests|;
    hide AnswerContinues, GoesOnFrom, Joined;
    JoinedPrefix(model, requests, [request], n);
    forall i | 0 < i < n ensures GoesOnFrom(r[i], Joined(model, r, i)) {
      JoinedPrefix(model, requests, [request], i);
      assert r[i] == requests[i];
    }
    forall i | 0 <= i < n ensures AnswerContinues(model, limit, r, i) {
      AnswerContinuesAfter(model, limit, requests, request, i);
    }
  }

  ghost predicate JustAnswered(model: Model, limit: nat, r: Talk) {
    var n := r.count;
    && |r.requests| == n + 1
    && (!r.failed ==> r.text == Joined(model, r.requests, n + 1))
    && r.failed == model(r.requests).Unavailable?
    && (!r.failed ==> r.finish == OrElse(Named(model(r.requests).finish), STOP))
    && AnsweredWell(model, limit, r.requests, n)
    && (n == 0 ==> r.requests[n] == Opening)
    && (n > 0 ==> GoesOnFrom(r.requests[n], Joined(model, r.requests, n)))
  }

  lemma OneMoreAnswer(model: Model, limit: nat, t: Talk)
    requires Asking(model, limit, t)
    ensures Called(model, t).count == |t.requests| && JustAnswered(model, limit, Called(model, t))
  {
    var r, n := Called(model, t), |t.requests|;
    hide AnsweredWell, Joined, Named;
    AnsweredWellAfter(model, limit, t.requests, NextRequest(t));
    JoinedNext(model, r.requests, n);
  }

  lemma JoinedNext(model: Model, requests: seq<Request>, n: nat)
    requires |requests| == n + 1
    ensures Joined(model, requests, n + 1) == Joined(model, requests, n) + AnswerText(model, requests)
  {
    assert requests[..n + 1] == requests;
  }

  lemma StopsAnswering(model: Model, limit: nat, r: Talk)
    requires JustAnswered(model, limit, r)
    ensures Stops(r, limit) <==> !AnswerContinues(model, limit, r.requests, r.count)
  {
    assert r.requests[..r.count + 1] == r.requests;
    hide AnsweredWell, Joined;
  }

  lemma AskingOn(model: Model, limit: nat, r: Talk)
    requires JustAnswered(model, limit, r) && r.count < limit && !r.failed
    requires AnswerContinues(model, limit, r.requests, r.count)
    ensures Asking(model, limit, r.(count := r.count + 1))
  {
    hide AnswerContinues, Joined, GoesOnFrom;
  }

  lemma AskingAfter(model: Model, limit: nat, t: Talk)
    requires Asking(model, limit, t) && !Stops(Called(model, t), limit)
    ensures var next := Called(model, t); Asking(model, limit, next.(count := next.count + 1))
  {
    hide Called, AnswerContinues, JustAnswered, Asking;
    OneMoreAnswer(model, limit, t);
    StopsAnswering(model, limit, Called(model, t));
    AskingOn(model, limit, Called(model, t));
  }

  lemma LastAnswerLaw(model: Model, limit: nat, r: Talk)
    requires JustAnswered(model, limit, r) && r.count <= limit && !AnswerContinues(model, limit, r.requests, r.count)
    ensures AnswerLaw(model, limit, r.requests, OutcomeOf(r))
  {
    hide AnswerContinues, Joined, GoesOnFrom;
  }

  lemma {:induction false} CallFromLaw(model: Model, limit: nat, t: Talk)
    requires Asking(model, limit, t)
    ensures var r := CallFrom(model, limit, t);
      AnswerLaw(model, limit, r.requests, OutcomeOf(r))
    decreases limit - t.count
  {
    var next := Called(model, t);
    OneMoreAnswer(model, limit, t);
    StopsAnswering(model, limit, next);
    hide Called, AnswerContinues, Joined, AnswerLaw, JustAnswered, Asking;
    if Stops(next, limit) {
      LastAnswerLaw(model, limit, next);
    } else {
      AskingAfter(model, limit, t);
      CallFromLaw(model, limit, next.(count := next.count + 1));
    }
  }

  /** Both loops obey their law, for every model and limit. */
  lemma RunsObeyLaws(model: Model, streaming: StreamingModel, limit: nat)
    ensures var r := CallFrom(model, limit, START); AnswerLaw(model, limit, r.requests, OutcomeOf(r))
    ensures var r := HearFrom(streaming, limit, START); StreamLaw(streaming, limit, r.requests, OutcomeOf(r))
  {
    CallFromLaw(model, limit, START);
    HearFromLaw(streaming, limit, START);
  }

  // ----- the two loops -----

  method CompleteNonStreaming(model: Model, limit: nat) returns (outcome: Outcome, requests: seq<Request>)
    ensures var t := CallFrom(model, limit, START);
      outcome == OutcomeOf(t) && requests == t.requests
    ensures AnswerLaw(model, limit, requests, outcome)
  {
    CallFromLaw(model, limit, START);
    hide AnswerLaw;
    requests := [ModelRequest(None)];
    assert START.requests + [NextRequest(START)] == requests;
    var result := model(requests);
    assert result.Answered? ==> START.text + result.text == result.text;
    if result.Unavailable? { return Failed, requests; }
    var reply, finish, count := result.text, OrElse(Named(result.finish), STOP), 0;
    while finish == LENGTH && count < limit
      invariant var t := Talk(requests, reply, finish, count, false);
        CallFrom(model, limit, START)
        == if Stops(t, limit) then t else CallFrom(model, limit, t.(count := t.count + 1))
    {
      count := count + 1;
      requests := requests + [ModelRequest(Some(reply))];
      result := model(requests);
      if result.Unavailable? { return Failed, requests; }
      reply := reply + result.text;
      finish := OrElse(Named(result.finish), STOP);
    }
    outcome := Replied(if reply == "" then FALLBACK_REPLY else reply, finish, count);
  }

  datatype Event = Meta | Delta(content: string) | Continuing(count: nat, limit: nat) | Error

  function Deltas(events: seq<Event>): string {
    if events == [] then ""
    else Deltas(events[..|events| - 1]) + match events[|events| - 1] case Delta(c) => c case _ => ""
  }

  /** The numbers announced with the continuations. */
  function Notices(events: seq<Event>): seq<nat> {
    if events == [] then []
    else Notices(events[..|events| - 1]) + match events[|events| - 1] case Continuing(n, _) => [n] case _ => []
  }

  lemma NoticesSnoc(events: seq<Event>, e: Event)
    ensures Notices(events + [e]) == Notices(events) + match e case Continuing(n, _) => [n] case _ => []
  {
    assert (events + [e])[..|events|] == events;
  }

  ghost predicate Announced(events: seq<Event>, count: nat) {
    && events != [] && events[0].Meta?
    && |Notices(events)| == count && forall i :: 0 <= i < count ==> Notices(events)[i] == i + 1
  }

  lemma AnnouncedSnoc(events: seq<Event>, count: nat, e: Event)
    requires Announced(events, count)
    ensures match e
      case Continuing(n, _) => n == count + 1 ==> Announced(events + [e], count + 1)
      case _ => Announced(events + [e], count)
  {
    NoticesSnoc(events, e);
  }

  lemma FirstAnnounced()
    ensures Announced([Meta], 0)
  {
    assert [Meta][..0] == [];
  }

  lemma DeltasSnoc(events: seq<Event>, e: Event)
    ensures Deltas(events + [e]) == Deltas(events) + match e case Delta(c) => c case _ => ""
    ensures EndsInError(events + [e]) <==> e.Error?
  {
  }

  lemma ChunkSnoc(chunks: seq<Chunk>, i: nat)
    requires i < |chunks|
    ensures Content(chunks[..i + 1]) == Content(chunks[..i]) + chunks[i].content
    ensures LastNamed(chunks[..i + 1])
         == if Named(chunks[i].finish).Some? then Named(chunks[i].finish) else LastNamed(chunks[..i])
  {
    assert chunks[..i + 1][..i] == chunks[..i];
  }

  lemma HearOnce(model: StreamingModel, limit: nat, t: Talk)
    ensures HearFrom(model, limit, t)
      == var next := Heard(model, t);
         if Stops(next, limit) then next else HearFrom(model, limit, next.(count := next.count + 1))
  {
  }

  lemma HeardIs(model: StreamingModel, t: Talk, requests: seq<Request>, text: string, finish: string)
    requires requests == t.requests + [NextRequest(t)]
    requires text == t.text + Content(model(requests).chunks)
    requires finish == OrElse(LastNamed(model(requests).chunks), t.finish)
    ensures Heard(model, t) == Talk(requests, text, finish, t.count, model(requests).broken)
  {
    hide Content, LastNamed;
  }

  lemma ConcatAssociates(a: string, b: string, c: string)
    ensures (a + b) + c == a + (b + c)
  {
  }

  ghost predicate EndsInError(events: seq<Event>) {
    events != [] && events[|events| - 1].Error?
  }

  /** Emits the deltas of one stream as they arrive. */
  method Relay(stream: Stream, events: seq<Event>, text: string, finish: string, ghost count: nat)
    returns (events': seq<Event>, text': string, finish': string)
    requires Deltas(events) == text && !EndsInError(events) && Announced(events, count)
    ensures Announced(events', count)
    ensures Deltas(events') == text' == text + Content(stream.chunks) && !EndsInError(events')
    ensures finish' == OrElse(LastNamed(stream.chunks), finish)
    ensures NoReason(stream.chunks) ==> finish' == finish
    ensures !NoReason(stream.chunks) ==> IsLastReason(stream.chunks, finish')
  {
    LastNamedExactly(stream.chunks);
    hide NoReason, IsLastReason, Announced;
    var chunks := stream.chunks;
    events', text', finish' := events, text, finish;
    assert Content(chunks[..0]) == "" && LastNamed(chunks[..0]) == None;
    hide Content, LastNamed, Deltas;
    for i := 0 to |chunks|
      invariant Deltas(events') == text' == text + Content(chunks[..i]) && !EndsInError(events')
      invariant finish' == OrElse(LastNamed(chunks[..i]), finish)
      invariant Announced(events', count)
    {
      var chunk := chunks[i];
      ChunkSnoc(chunks, i);
      ConcatAssociates(text, Content(chunks[..i]), chunk.content);
      if chunk.content != "" {
        text' := text' + chunk.content;
        DeltasSnoc(events', Delta(chunk.content));
        AnnouncedSnoc(events', count, Delta(chunk.content));
        events' := events' + [Delta(chunk.content)];
      }
      if Named(chunk.finish).Some? { finish' := chunk.finish.value; }
    }
    assert chunks[..|chunks|] == chunks;
  }

  /** What was emitted is all the text of all streams, and an error last exactly when the last broke. */
  ghost predicate EventsLaw(model: StreamingModel, requests: seq<Request>, events: seq<Event>) {
    && Deltas(events) == Content(ChunksOf(model, requests, |requests|))
    && (EndsInError(events) <==> model(requests).broken)
  }

  /** What the streaming endpoint has done when it ends: it is the specified conversation, it obeys the
      law of streamed replies, and its events tell all of the text, the continuations in order, and an
      error last exactly when it failed. */
  ghost predicate StreamDone(model: StreamingModel, limit: nat, outcome: Outcome, requests: seq<Request>,
                             events: seq<Event>)
  {
    && outcome == OutcomeOf(HearFrom(model, limit, START))
    && requests == HearFrom(model, limit, START).requests != []
    && StreamLaw(model, limit, requests, outcome)
    && EventsLaw(model, requests, events)
    && Announced(events, |requests| - 1)
  }

  lemma Finished(model: StreamingModel, limit: nat, r: Talk, events: seq<Event>)
    requires r == HearFrom(model, limit, START) && r.requests != []
    requires Deltas(events) == r.text && (EndsInError(events) <==> r.failed)
    requires Announced(events, |r.requests| - 1)
    ensures StreamDone(model, limit, OutcomeOf(r), r.requests, events)
  {
    HearFromLaw(model, limit, START);
    hide StreamLaw, Announced, HearFrom;
  }

  /** The loop of the streaming endpoint between two requests. */
  ghost predicate StreamState(model: StreamingModel, limit: nat, t: Talk, events: seq<Event>) {
    && !t.failed && t.count <= limit && |t.requests| == t.count
    && Deltas(events) == t.text && !EndsInError(events) && Announced(events, t.count)
    && HearFrom(model, limit, START) == HearFrom(model, limit, t)
  }

  lemma StreamStarts(model: StreamingModel, limit: nat)
    ensures StreamState(model, limit, START, [Meta])
  {
    FirstAnnounced();
    hide HearFrom, Announced;
  }

  /** One more stream heard and relayed: the run ends, in an error or a reply, or goes on. */
  lemma StreamTurns(model: StreamingModel, limit: nat, t: Talk, r: Talk, events: seq<Event>)
    requires !t.failed && t.count <= limit && |t.requests| == t.count
    requires HearFrom(model, limit, START) == HearFrom(model, limit, t)
    requires r == Heard(model, t)
    requires Deltas(events) == r.text && !EndsInError(events) && Announced(events, t.count)
    ensures r.failed ==> StreamDone(model, limit, Failed, r.requests, events + [Error])
    ensures !r.failed && Stops(r, limit) ==> StreamDone(model, limit, OutcomeOf(r), r.requests, events)
    ensures !Stops(r, limit) ==>
      StreamState(model, limit, r.(count := t.count + 1), events + [Continuing(t.count + 1, limit)])
  {
    HearOnce(model, limit, t);
    DeltasSnoc(events, Error);
    DeltasSnoc(events, Continuing(t.count + 1, limit));
    AnnouncedSnoc(events, t.count, Error);
    AnnouncedSnoc(events, t.count, Continuing(t.count + 1, limit));
    hide HearFrom, Deltas, EndsInError, Announced, StreamDone, Content, LastNamed, NextRequest;
    if r.failed { Finished(model, limit, r, events + [Error]); }
    else if Stops(r, limit) { Finished(model, limit, r, events); }
  }

  method StreamReply(model: StreamingModel, limit: nat)
    returns (outcome: Outcome, requests: seq<Request>, events: seq<Event>)
    ensures StreamDone(model, limit, outcome, requests, events)
  {
    requests, events := [], [Meta];
    var text, finish, count := "", STOP, 0;
    StreamStarts(model, limit);
    hide Deltas, EndsInError, Announced, StreamDone;
    hide HearFrom, Heard, NoReason, IsLastReason, Content, LastNamed, NextRequest, ModelRequest;
    while true
      invariant StreamState(model, limit, Talk(requests, text, finish, count, false), events)
      decreases limit - count
    {
      ghost var t := Talk(requests, text, finish, count, false);
      NextRequestOf(t);
      requests := requests + [ModelRequest(if count > 0 then Some(text) else None)];
      var stream := model(requests);
      events, text, finish := Relay(stream, events, text, finish, count);
      HeardIs(model, t, requests, text, finish);
      StreamTurns(model, limit, t, Talk(requests, text, finish, count, stream.broken), events);
      hide StreamState;
      if stream.broken {
        events := events + [Error];
        return Failed, requests, events;
      }
      if finish != LENGTH || count >= limit {
        return Replied(if text == "" then FALLBACK_REPLY else text, finish, count), requests, events;
      }
      count := count + 1;
      events := events + [Continuing(count, limit)];
    }
  }

  // ----- what both loops promise -----

  /** A conversation whose every request after the first carries exactly the text answered so far. */
  ghost predicate Coherent(model: Model, t: Talk) {
    && t.text == Joined(model, t.requests, |t.requests|)
    && forall i :: 0 <= i < |t.requests| ==>
      t.requests[i] == ModelRequest(if i > 0 then Some(Joined(model, t.requests, i)) else None)
  }

  lemma CalledCoherent(model: Model, t: Talk)
    requires Coherent(model, t) && t.count == |t.requests|
    ensures Coherent(model, Called(model, t))
  {
    var next := Called(model, t);
    var n := |t.requests|;
    assert next.requests[..n + 1] == next.requests;
    forall i | 0 <= i <= n ensures Joined(model, next.requests, i) == Joined(model, t.requests, i) {
      JoinedPrefix(model, t.requests, [NextRequest(t)], i);
    }
  }

  /** From a conversation about to make call number count + 1: one call is made per continuation plus
      one, at most limit + 1 in all; the reply is the answers joined, and each continuation request
      carries all of the text before it; and ending on "length" means the limit was used up. */
  lemma {:induction false} CallsAreBounded(model: Model, limit: nat, t: Talk)
    requires Coherent(model, t) && t.count == |t.requests| && t.count <= limit && !t.failed
    ensures var r := CallFrom(model, limit, t);
      && Coherent(model, r)
      && |r.requests| == r.count + 1 && t.count <= r.count <= limit
      && (!r.failed && r.finish == LENGTH ==> r.count == limit)
    decreases limit - t.count
  {
    CalledCoherent(model, t);
    var next := Called(model, t);
    if !Stops(next, limit) {
      CallsAreBounded(model, limit, next.(count := next.count + 1));
    }
  }

  lemma ReplyLoop(model: Model, limit: nat)
    ensures var r := CallFrom(model, limit, START);
      && Coherent(model, r)
      && |r.requests| == r.count + 1 <= limit + 1
      && (!r.failed && r.finish == LENGTH ==> r.count == limit)
  {
    CallsAreBounded(model, limit, START);
  }

  // ----- streaming refines not streaming -----

  /** Both models say the same to every request, and name the same reason or none. */
  ghost predicate SameAnswers(model: Model, streaming: StreamingModel) {
    forall h :: Corresponds(model(h), streaming(h))
  }

  predicate Corresponds(a: Answer, s: Stream) {
    match a
    case Unavailable => s.broken
    case Answered(text, finish) => !s.broken && Content(s.chunks) == text && LastNamed(s.chunks) == Named(finish)
  }

  /** Same requests and, unless both failed, same reply, finish reason and continuation count. */
  predicate SameTalk(a: Talk, b: Talk) {
    a.requests == b.requests && OutcomeOf(a) == OutcomeOf(b)
  }

  /** The whole-answer run ended on its opening answer, on a failure, or on a named reason. */
  predicate EndsNamed(model: Model, t: Talk)
    requires t.requests != []
  {
    || t.count == 0
    || t.failed
    || (model(t.requests).Answered? && Named(model(t.requests).finish).Some?)
  }

  lemma OneAnswer(model: Model, streaming: StreamingModel, t: Talk)
    requires SameAnswers(model, streaming) && !t.failed
    ensures var a, b := Called(model, t), Heard(streaming, t);
      && a.requests == b.requests == t.requests + [NextRequest(t)]
      && a.failed == b.failed && a.count == b.count == t.count
      && (!a.failed ==> model(a.requests).Answered?)
      && (!a.failed ==> a.text == b.text)
      && (!a.failed && Named(model(a.requests).finish).Some? ==> a == b)
      && (!a.failed && Named(model(a.requests).finish).None? ==> a.finish == STOP && b.finish == t.finish)
  {
  }

  lemma {:induction false} HearRequestsGrow(streaming: StreamingModel, limit: nat, t: Talk)
    ensures |HearFrom(streaming, limit, t).requests| > |t.requests|
    decreases limit - t.count
  {
    var next := Heard(streaming, t);
    if !Stops(next, limit) { HearRequestsGrow(streaming, limit, next.(count := next.count + 1)); }
  }

  /** The call on which the whole-answer run ends. */
  lemma LastAnswer(model: Model, streaming: StreamingModel, limit: nat, t: Talk)
    requires SameAnswers(model, streaming) && !t.failed && t.count <= limit
    requires t.finish == if t.count == 0 then STOP else LENGTH
    requires Stops(Called(model, t), limit)
    ensures Called(model, t).requests != []
    ensures SameTalk(Called(model, t), HearFrom(streaming, limit, t)) <==> EndsNamed(model, Called(model, t))
  {
    OneAnswer(model, streaming, t);
    hide SameAnswers, Called, Heard, NextRequest;
    var b := Heard(streaming, t);
    if !Stops(b, limit) {
      HearRequestsGrow(streaming, limit, b.(count := b.count + 1));
    }
  }

  /** The two loops agree, from any common point, exactly when the whole-answer run ends named: a
      continuation answered without a reason ends that run with "stop", while the streaming run
      still remembers "length". */
  lemma {:induction false} LoopsAgreeExactly(model: Model, streaming: StreamingModel, limit: nat, t: Talk)
    requires SameAnswers(model, streaming) && !t.failed && t.count <= limit
    requires t.finish == if t.count == 0 then STOP else LENGTH
    ensures var a := CallFrom(model, limit, t);
      && a.requests != []
      && (SameTalk(a, HearFrom(streaming, limit, t)) <==> EndsNamed(model, a))
    decreases limit - t.count
  {
    var a := Called(model, t);
    if Stops(a, limit) {
      LastAnswer(model, streaming, limit, t);
    } else {
      OneAnswer(model, streaming, t);
      hide SameAnswers, Called, Heard, NextRequest, SameTalk, EndsNamed;
      assert a == Heard(streaming, t);
      LoopsAgreeExactly(model, streaming, limit, a.(count := a.count + 1));
    }
  }

  /** The streaming endpoint refines the whole-answer endpoint exactly when the latter's run ends
      named; in particular whenever the model names a reason for every answer. */
  lemma StreamingRefines(model: Model, streaming: StreamingModel, limit: nat)
    requires SameAnswers(model, streaming)
    ensures var a, b := CallFrom(model, limit, START), HearFrom(streaming, limit, START);
      && a.requests != []
      && (SameTalk(a, b) <==> EndsNamed(model, a))
      && ((forall h :: model(h).Answered? ==> Named(model(h).finish).Some?) ==> SameTalk(a, b))
  {
    LoopsAgreeExactly(model, streaming, limit, START);
    AnsweredUnlessFailed(model, limit, START);
  }

  lemma {:induction false} AnsweredUnlessFailed(model: Model, limit: nat, t: Talk)
    requires !t.failed
    ensures var a := CallFrom(model, limit, t);
      a.requests != [] && (a.failed || model(a.requests).Answered?)
    decreases limit - t.count
  {
    var next := Called(model, t);
    if !Stops(next, limit) { AnsweredUnlessFailed(model, limit, next.(count := next.count + 1)); }
  }

  // A model that stops for length and then answers its continuation without a reason.

  function Forgetful(requests: seq<Request>): Answer {
    Answered("a", if |requests| == 1 then Some(LENGTH) else None)
  }

  function ForgetfulStream(requests: seq<Request>): Stream {
    Stream([Chunk("a", if |requests| == 1 then Some(LENGTH) else None)], false)
  }

  /** So the two endpoints can differ on the same text: here by the finish reason they report. */
  lemma StreamingMayDiffer()
    ensures SameAnswers(Forgetful, ForgetfulStream)
    ensures OutcomeOf(CallFrom(Forgetful, 1, START)) == Replied("aa", STOP, 1)
    ensures OutcomeOf(HearFrom(ForgetfulStream, 1, START)) == Replied("aa", LENGTH, 1)
  {
    forall h: seq<Request> ensures Corresponds(Forgetful(h), ForgetfulStream(h)) {
      var c := ForgetfulStream(h).chunks;
      assert c[..0] == [];
      assert Content(c) == "a";
    }
    var t1 := Called(Forgetful, START);
    assert t1 == Talk([Opening], "a", LENGTH, 0, false);
    var t2 := Called(Forgetful, t1.(count := 1));
    assert t2 == Talk([Opening, GoOn("a")], "aa", STOP, 1, false);
    var s1 := Heard(ForgetfulStream, START);
    assert Corresponds(Forgetful(s1.requests), ForgetfulStream(s1.requests));
    assert s1 == t1;
    var s2 := Heard(ForgetfulStream, s1.(count := 1));
    assert Corresponds(Forgetful(s2.requests), ForgetfulStream(s2.requests));
    assert s2 == Talk([Opening, GoOn("a")], "aa", LENGTH, 1, false);
  }
}
