# Adaptive learning, chat turns, email verification and review decisions: a verified model

This project models the parts of a language-learning server whose correctness is hardest to see
from one function at a time, and proves what they promise over whole runs.

- **Adaptive core** (`Kernel`, `Irt`, `Fsrs`, `Policy`, `RowOrder`, `EvidenceLog`, `Replay`,
  `Dominance`, `Mastery`, `Correction`, `CorrectionRuns`, `RebuiltRows`, `Grammar`, `Recording`). A disputed
  assessment is marked invalid and mastery, counts, status, review dates, the review row and the
  latest teaching policy are rebuilt by folding a Rasch ability update and a
  difficulty / stability / retrievability scheduler over the surviving evidence. `Correction` has
  the service over mutable row objects, proved to compute a function on table contents;
  `CorrectionRuns` proves what any sequence of corrections does and `RebuiltRows` what every field
  of the rebuilt rows then says; `Grammar` is the reader of the rebuilt rows.
- **Chat turn** (`ThreadLog`, `Continuation`, `Json`, `ArtifactContext`). The row-locked numbering
  of messages as interleaved steps of concurrent transactions; the continuation loop by whole
  answers and by streamed chunks; the context shrinker with its character budget.
- **Email verification** (`Sessions`, `EmailVerification`, `EmailRuns`). Challenges with a resend
  gap, an attempt counter and an expiry, inside a session that commits on success and rolls back on
  an exception.
- **Parser review** (`ReviewQueue`). One-way decisions, singly or in atomic batches.

Numbers are exact reals. The two transcendental quantities are parameters bundled in a `Kernel`:
e^12, known to lie between 162754 and 162755, and the forgetting curve x -> 0.9^x, known by its
values at 0, 1 and 2, positivity, antitony and convexity; `Kernels.LawsAreConsistent` shows these
laws have a model. `sigmoid(logit a - logit d)` is written o / (1 + o) with o the clamped ratio of
odds. Adaptive time is in days, email time in seconds. Identifiers are natural numbers ordered as
the database orders them. The language model, the keyed hash of a verification code, delivery
success and Python's `str()` of non-strings are parameters.

Things the proofs brought out:

- Seven perfect attempts on items of at least middle difficulty always reach the mastered
  threshold, and six do not always (`Mastery.SevenPerfectSuffice`, `Mastery.SixPerfectMayFail`).
- A pointwise better record ends with mastery no lower exactly on items whose weighted success
  curve is nowhere steeper than one, which for unaided attempts is difficulty 0.18 to 0.82 (up to a
  thousandth). On every other item two records that differ in one outcome end in the wrong order
  (`Mastery.DominanceExactly`, `Mastery.SteepRecords`, `Mastery.GentleDifficulties`).
- Corrections commute on learner-state and review rows always. On policy rows they commute while
  something survives. When nothing survives the latest policy is the one compiled from the last
  survivors a request left, so it can depend on the order of corrections, and two orders agree
  exactly when those survivors compile alike (`CorrectionRuns.PairCommutes`,
  `CorrectionRuns.PolicyAfterRun`, `CorrectionRuns.PoliciesCommuteExactly`).
- The streaming reply loop keeps the previous finish reason when a stream names none, the
  whole-answer loop falls back to "stop"; the two agree exactly when the whole-answer run does not
  end on an unnamed continuation (`Continuation.StreamingRefines`, `Continuation.StreamingMayDiffer`).
- An artifact context over the budget with nothing under a key the compact form keeps loses
  everything it held: it comes out as an empty object, and bounding that again gives no context. All
  other bounded contexts are fixed points (`ArtifactContext.EmptiedExactly`,
  `ArtifactContext.BoundingIsIdempotent`).
- A correction does not always restore what the engine had computed. The evidence row carries
  neither transfer credit nor a verdict that disagrees with the 0.6 pass score; it is dated by the
  start of its transaction, not by the engine's clock; rows created at the same instant are replayed
  by identifier; and signals on the older path leave no row at all. `Recording` says for each of
  these what still agrees and exactly when the rest does.

## Model

| member | source | states |
|---|---|---|
| Irt.PredictRange | src/adaptive/irt.py:13-25 | predicted success lies strictly inside (0, 1), between the two values of the clamped exponent |
| Irt.PredictMonotone | src/adaptive/irt.py:13-25 | success never falls with ability and never rises with difficulty, clamps included |
| Irt.PredictSymmetric | src/adaptive/irt.py:13-25 | p(a, d) + p(d, a) = 1 and p(a, a) = 1/2 |
| Irt.PredictAtHalf | src/adaptive/irt.py:13-25 | against an item of difficulty 0.5 the prediction is the bounded ability itself |
| Irt.RaschLaw | src/adaptive/irt.py:13-25 | success and failure are to each other as the odds of ability are to the odds of difficulty, both kept within 0.001 and 0.999, up to the ratio e^12 |
| Irt.ReportedSuccess | src/adaptive/irt.py:28-49 | the success reported with an update is that of the new ability and never moves away from the outcome |
| Irt.ReliabilityAntitone | src/adaptive/irt.py:38-40 | losing independence, more hints or more retries never raise the weight of an attempt |
| Irt.ReliabilityExactly | src/adaptive/irt.py:38-40 | full weight unaided; 0.12 off per hint up to four, 0.1 per retry up to three, a quarter always stays; 0.55 of that without independence |
| Irt.MiddleItemAverages | src/adaptive/irt.py:28-49 | on a middle item the new ability is the average of ability and outcome weighted by 0.22 times the attempt's weight |
| Irt.UpdateMonotoneInOutcome | src/adaptive/irt.py:28-49 | a better outcome never gives a lower updated ability |
| Irt.HelpShrinksUpdate | src/adaptive/irt.py:38-44 | more help leaves the new ability between the old one and the one less help would give |
| Fsrs.RecallAntitone | src/adaptive/fsrs.py:35-40 | waiting longer never makes recall likelier |
| Fsrs.RewardedStabilityMonotone | src/adaptive/fsrs.py:61-76 | stability times overdue bonus grows with stability although the bonus shrinks |
| Fsrs.ScheduleReviewRanges | src/adaptive/fsrs.py:61-85 | one review keeps difficulty in [1, 10] and stability at least 0.25 and at most 5.8-fold, and books 0.25 days to 1.25 stabilities ahead |
| Fsrs.BetterReviewIsStabler | src/adaptive/fsrs.py:64-76 | a rating no lower on a card rewarded no less gives a stability and an interval no shorter, across all rating pairs |
| Policy.CompileExactly | src/adaptive/policy.py:20-54 | the exact plan for effective mastery below 0.35, from 0.35 to 0.75, and above |
| Replay.ReplayEvidence | src/adaptive/correction.py:176-203 | the loop computes the fold of the update and the scheduler over the evidence, left to right |
| Replay.RatingExactly | src/adaptive/correction.py:206-213 | which of the four ratings an attempt gets: by the pass score, any help, and three seconds |
| Replay.ReviewExactly | src/adaptive/fsrs.py:61-85 | what one more attempt does after any history, in numbers: rating, difficulty, stability, next review, for each rating |
| Replay.ReplayRanges | src/adaptive/correction.py:176-203 | over every log of n attempts: mastery in [0, 1], n reviews counted, stability at most 5.8^n, booking dated from the last attempt |
| Replay.CorrectCountIsPassedReviews | src/adaptive/correction.py:83 | the stored correct count is the number of reviews not rated Again |
| Replay.PassedRunGrows | src/adaptive/fsrs.py:61-85 | after any history, n passed reviews in a row multiply the stability at least 1.35^n-fold, and the next is booked at least 0.8 of it ahead |
| Replay.LapsedRun | src/adaptive/fsrs.py:61-85 | after any history, n lapses in a row leave exactly 0.45^n of the stability, floored at a quarter of a day, which is also the interval |
| Dominance.SchedulerDominance | src/adaptive/correction.py:183-203 | attempts at least as good after gaps no shorter end with rating and stability no lower, difficulty no higher, interval no shorter, for any length |
| Dominance.NextReviewDominance | src/adaptive/fsrs.py:43-85 | at the same review times the better log rates pointwise no lower and has its next review no earlier |
| Mastery.MasteryIsEarned | src/adaptive/irt.py:28-49 | replayed mastery is at most 0.22 times the sum of outcomes |
| Mastery.MasteredNeedsFour | src/adaptive/correction.py:84 | the mastered threshold needs total outcome 40/11 and at least four attempts |
| Mastery.PerfectRun | src/adaptive/irt.py:28-49 | n perfect attempts after any history shrink the distance to full mastery by 0.78^n, up to 0.001 |
| Mastery.SevenPerfectSuffice | src/adaptive/correction.py:183-192 | a run ending in seven perfect attempts reaches 0.8 from any history |
| Mastery.SixPerfectMayFail | src/adaptive/correction.py:183-192 | seven is sharp: six perfect attempts on middle items leave a fresh point below 0.8 |
| Mastery.StepKeepsOrderExactly | src/adaptive/irt.py:28-49 | one attempt keeps the order of abilities under better outcomes exactly when 0.22 * weight * odds is at most the square of the least denominator of its success curve |
| Mastery.MasteryDominance | src/adaptive/correction.py:183-192 | over whole logs of such items, pointwise better outcomes end with mastery no lower |
| Mastery.SteepRecords | src/adaptive/correction.py:183-192 | for every other item there are two logs, differing in one outcome on a middle item, of which the better ends lower |
| Mastery.DominanceExactly | src/adaptive/correction.py:183-192 | an item keeps better records ahead, mixed with such items in any way, exactly when it is such an item |
| Mastery.GentleDifficulties | src/adaptive/irt.py:28-49 | difficulties 0.18 to 0.82 always qualify; unaided, those up to 0.179 or from 0.821 never do |
| Mastery.HardItems | src/adaptive/irt.py:28-49 | on the hardest items four perfect attempts reach 0.8, so the bound of four is reached; and one better outcome ends with lower mastery |
| EvidenceLog.LogStable | src/adaptive/correction.py:65-75 | the replayed log depends only on which rows survive and on their attempts |
| RowOrder.SortedOrder | src/adaptive/correction.py:73 | the query lists each row once, strictly increasing by creation time, then id |
| Correction.EvidenceCorrectionService.InvalidateAndRecompute | src/adaptive/correction.py:36-173 | an unknown id fails and changes nothing; a known one leaves exactly the tables the specification describes |
| Correction.EvidenceCorrectionService.MarkInvalid | src/adaptive/correction.py:52-54 | the mark is set once, with the stripped reason cut at 500 characters |
| Correction.EvidenceCorrectionService.UpdateState | src/adaptive/correction.py:78-86 | the state row, when present, becomes the one the log determines |
| Correction.EvidenceCorrectionService.UpdateCard | src/adaptive/correction.py:122-140 | the review row, when present, becomes the one the log determines or is deleted when nothing survives |
| Correction.EvidenceCorrectionService.UpdatePolicy | src/adaptive/correction.py:142-164 | the latest policy row is recompiled when something survives; no other row changes |
| CorrectionRuns.StepRebuilds | src/adaptive/correction.py:56-164 | after one correction the pair's rows follow its surviving log whatever they held; review row and policy exactly when something survives |
| CorrectionRuns.StepFrame | src/adaptive/correction.py:56-64 | no row of another learner or knowledge point moves |
| CorrectionRuns.RunRebuilds | src/adaptive/correction.py:36-173 | after any sequence of corrections survivors are the earlier ones minus the named ids, named pairs follow their log, others have not moved |
| RebuiltRows.RowsAfterRun | src/adaptive/correction.py:78-164 | after any run, every field of a named pair's state, review and policy rows in terms of its survivors: counts, passes, dates, prediction, status, rating, plan |
| RebuiltRows.ReportExactly | src/adaptive/correction.py:166-173 | the service reports the number of survivors and the mastery and date it stored |
| CorrectionRuns.PairCommutes | src/adaptive/correction.py:122-164 | request sequences naming the same evidence give a pair the same state and review rows, and the same policies while something survives |
| CorrectionRuns.PolicyAfterRun | src/adaptive/correction.py:142-164 | after any run the latest policy is compiled from what the last request naming the pair and leaving a survivor had left, and is the original when there was none |
| CorrectionRuns.PoliciesCommuteExactly | src/adaptive/correction.py:142-164 | two runs leave a pair the same policies exactly when those survivors compile alike; where both had some, exactly when their replayed masteries are equal |
| CorrectionRuns.BetterRecordPolicy | src/adaptive/policy.py:20-54 | on items that keep order, the better surviving record never gets an easier target band, more support, easier evidence or easier practice |
| CorrectionRuns.CorrectionsCommute | src/adaptive/correction.py:65-140 | order and repetition of corrections change no learner-state or review row |
| RebuiltRows.FirstMarkExactly | src/adaptive/correction.py:52-54 | an evidence row carries the time and the stripped, cut reason of the first request naming it |
| CorrectionRuns.FirstMarkStays | src/adaptive/correction.py:52-54 | the mark of an evidence row is that of the first request naming it |
| CorrectionRuns.InertEvidence | src/adaptive/correction.py:67-72 | invalidating evidence that never updated the state changes no derived row of a consistent pair |
| CorrectionRuns.EmptyLogKeepsPolicy | src/adaptive/correction.py:129-142 | when nothing survives the state row is blank, the review row gone, every policy row as before |
| CorrectionRuns.StalePolicyDependsOnOrder | src/adaptive/correction.py:142-164 | two orders of the same two corrections can leave different policies |
| CorrectionRuns.MasteredIsEarned | src/adaptive/policy.py:47-54 | a corrected pair marked mastered has four survivors worth 40/11, and its latest policy asks for unsupported novel transfer |
| Grammar.RecallUntilBooked | src/api/grammar.py:161-173 | until the booked date a rebuilt card is recalled with probability at least 0.81 |
| Grammar.CurrentRecallExactly | src/api/grammar.py:161-173 | the recall the reader goes by is the forgetting curve at the time since the last review |
| Grammar.StatusExactly | src/api/grammar.py:141-158 | for any rows, each of the five statuses exactly when due, repeated failure being the last two updating rows below one half |
| Grammar.RebuiltStatus | src/api/grammar.py:141-158 | the complete status table for corrected pairs: no evidence without a state row or survivors, review exactly from the booked date on, stable before it exactly from mastery 0.8 |
| Grammar.StatusOnlyDecays | src/api/grammar.py:141-158 | as time passes review is never left and stable never regained, for any rows |
| Recording.RecordingExtendsLog | src/adaptive/evidence.py:32-49 | new evidence enters the replayed log at its (created_at, id) place exactly when it is a confident assessment, and touches no other pair's log |
| Recording.EvaluateExactly | src/adaptive/evidence.py:32-49 | only assessments are accepted, only confident ones update the learning state |
| Recording.LiveStepMatchesReplay | src/mastery/engine.py:309-318 | one step: mastery agrees with the replay always, the rating exactly when the row tells all, the whole state exactly when the engine's clock also read the row's creation time |
| Recording.LiveMatchesReplay | src/mastery/engine.py:132-140 | a whole live history ends in the mastery its rows replay to in arrival order; when rows tell all, its state is the replay under the engine's dates |
| Recording.RedatedReviews | src/mastery/engine.py:288-318 | under the rows' dates difficulty and count stay; stability and interval do not grow where no gap is longer, and stay where gaps are equal |
| Recording.LogIsArrivalOrder | src/adaptive/correction.py:65-75 | the stored log lists the accepted signals in arrival order exactly when their rows are in (created_at, id) order |
| Recording.EngineMatchesLog | src/mastery/engine.py:78-142 | with only adaptive signals and rows in order, the engine's mastery is what the stored log replays to |
| Recording.PlainSignalLeavesNoRow | src/mastery/engine.py:141-142 | a signal on the older path breaks the agreement with the log unless mastery was already at the end it pushes to |
| Recording.NextScoreExactly | src/mastery/engine.py:545-550 | the older path in numbers, for a right and a wrong answer |
| Recording.TakenOnce | src/mastery/engine.py:207-212 | no attempt identifier updates the learning state twice |
| Recording.TiesMayDiffer | src/models/base.py:12-17 | two observations of one point in one transaction can make engine and replay end with different mastery |
| ThreadLog.StepKeepsGood | src/api/chat.py:480-556 | every lock, read, insert, commit or rollback of any turn keeps the numbering invariant |
| ThreadLog.Numbering | src/api/chat.py:209-222 | under every interleaving numbers are exactly 1..n, pairs adjacent and all or nothing, odd user and even assistant in new threads, history append-only |
| ThreadLog.TurnsWriteForTheirLearner | src/api/chat.py:480-556 | under every interleaving a turn keeps the learner and thread it was begun with, and a committed one wrote that learner's pair into that learner's thread |
| ThreadLog.CanCommit | src/api/chat.py:487-501 | from every reachable state every unfinished turn can still be brought to its commit |
| ThreadLog.AnyTurnCanBeTaken | src/api/chat.py:480-556 | in every good state a learner can take a turn on an own or a new thread and bring it to its commit |
| ThreadLog.CanRollBack | src/api/deps.py:17-26 | an unfinished turn can roll back at any time and leaves no message and no lock |
| ThreadLog.BackfillSeeds | alembic/versions/8d3e4f5a6b7c_add_conversation_message_sequence.py:27-40 | numbering old rows by row_number gives every thread exactly 1..n, and a fit starting point exactly when threads hold only their owner's messages |
| ThreadLog.BackfillCarries | alembic/versions/8d3e4f5a6b7c_add_conversation_message_sequence.py:27-40 | every old row is found under its row_number, with its learner and role |
| RowOrder.RowNumberIsPlace | alembic/versions/8d3e4f5a6b7c_add_conversation_message_sequence.py:30-33 | row_number, counted as rows before, is the place in the sorted listing |
| Continuation.CompleteNonStreaming | src/api/chat.py:369-410 | in terms of the model's raw answers: what each request carries, that one follows exactly on "length" within the limit, and the reply, reason and count |
| Continuation.StreamReply | src/api/chat.py:1000-1072 | the same in terms of raw chunks and the last reason of the whole run; emitted deltas are exactly the text heard, continuations are announced in order, an error comes last exactly on failure |
| Continuation.Relay | src/api/chat.py:1025-1048 | one stream's deltas concatenate to its content, and the last non-empty raw reason wins |
| Continuation.ContentConcat | src/api/chat.py:1025-1048 | contents are joined in order |
| Continuation.RunsObeyLaws | src/api/chat.py:1019-1072 | the call-by-call specification of either loop obeys its law, for every model and limit |
| Continuation.ReplyLoop | src/api/chat.py:386-410 | calls are continuations plus one, at most limit plus one; each continuation carries all text so far; ending on "length" means the limit was used up |
| Continuation.StreamingRefines | src/api/chat.py:1050-1072 | both loops send the same requests and give the same outcome exactly when the whole-answer run ends named |
| Continuation.StreamingMayDiffer | src/api/chat.py:1047-1056 | a model that omits the reason on a continuation makes them differ |
| Json.EscapeRoundTrip | src/api/chat.py:96 | escaping a string for printing loses nothing and stays within the grammar of JSON strings |
| Json.EscapeCharExactly | src/api/chat.py:96 | which characters are escaped, and by how many |
| Json.ObjectSize | src/api/chat.py:96 | how long an object prints: its quoted keys, its values and its separators |
| Json.ListSize | src/api/chat.py:96 | how long a list prints |
| Json.TruncatedTwice | src/api/chat.py:143 | cutting to n and then to m <= n is cutting to m, stripped whitespace included |
| Json.TruncatedExactly | src/api/chat.py:142-143 | a string within the limit stays, a longer one keeps its first characters less trailing whitespace |
| Json.BoundTwice | src/api/chat.py:141-154 | bounding composes over every tree, hence is idempotent |
| Json.BoundExactly | src/api/chat.py:141-154 | bounding case by case: the first items of a list in order, every key of an object in order |
| Json.BoundIsWithin | src/api/chat.py:141-154 | the result respects both limits, and a tree is unchanged exactly when it already did |
| Json.BoundSizeMonotone | src/api/chat.py:128-131 | a smaller string limit never prints longer |
| ArtifactContext.BoundedArtifactContext | src/api/chat.py:81-138 | the result is none exactly for an absent or empty context and otherwise prints to at most 8000 characters |
| ArtifactContext.KeptWhole | src/api/chat.py:96-97 | a context is kept whole exactly when it prints to at most 8000 characters |
| ArtifactContext.CutExactly | src/api/chat.py:86-94 | a material text over 1800 characters is cut and marked with its length, and nothing else changes |
| ArtifactContext.DecimalReadsBack | src/api/chat.py:94 | the recorded length reads back as the length |
| ArtifactContext.GivenUpExactly | src/api/chat.py:133-138 | what is left of a context that is given up |
| ArtifactContext.LabelExactly | src/api/chat.py:133-138 | a label is the beginning of its entry, or the default |
| ArtifactContext.FallbackFits | src/api/chat.py:133-138 | the last resort fits even when every character needs the longest escape |
| ArtifactContext.LargestFittingLimit | src/api/chat.py:128-131 | the retry loop settles on the largest of 1000, 500, 240 that fits and gives up exactly when 240 does not |
| ArtifactContext.EmptiedExactly | src/api/chat.py:99-131 | the result is an empty object exactly for a context over the budget with nothing under any kept key |
| ArtifactContext.EmptiedExample | src/api/chat.py:99-131 | one string of 8000 characters under a key of its own is such a context |
| ArtifactContext.BoundingIsIdempotent | src/api/chat.py:81-138 | bounding twice is bounding once, except that such a context becomes none |
| ArtifactContext.WorkSurvives | src/api/chat.py:99-131 | unless given up, exactly the named entries of context, payload and material stay, each bounded by one limit |
| Sessions.Session.Close | src/api/deps.py:17-26 | a normal return commits, an exception restores what was committed last |
| EmailVerification.VerificationApi.RequestVerification | src/api/email_verifications.py:52-98 | throttled exactly when a code was sent less than the gap ago; an undelivered request leaves no row; a delivered one leaves one fresh challenge with its code |
| EmailVerification.VerificationApi.ConfirmVerification | src/api/email_verifications.py:101-139 | confirmed exactly when the newest unverified challenge is alive, has attempts left and the code matches; the other answers exactly; the attempt stays counted although a wrong code raises |
| EmailVerification.ComparedLaw | src/api/email_verifications.py:106-122 | a code is compared exactly with the newest unverified challenge that is alive and has attempts left |
| EmailRuns.RunIsGood | src/api/email_verifications.py:57-134 | over every run: resend spacing, comparisons equal stored attempts and never exceed the maximum, verified once by a match within the lifetime and never compared again |
| EmailRuns.ConfirmedAreMatched | src/api/email_verifications.py:124-138 | over every run the confirmations are exactly the matched comparisons, one per verified challenge |
| EmailRuns.CorrectCodeIsConfirmed | src/api/email_verifications.py:106-138 | the code last sent, entered within its lifetime after fewer attempts than the maximum, none matching, is confirmed |
| EmailRuns.WindowHolds | src/api/email_verifications.py:65-73 | a window of W seconds holds at most floor(W / resend) + 1 challenges of one email |
| EmailRuns.UnexpiredAtOnce | src/api/email_verifications.py:77-83 | at most floor(ttl / resend) + 1 challenges of one email are unexpired at once |
| EmailRuns.GuessingRate | src/api/email_verifications.py:106-134 | within any window an email's codes are compared at most maxAttempts * (floor((W + ttl) / resend) + 1) times |
| EmailRuns.RetryAfterSuffices | src/api/email_verifications.py:66-73 | waiting the advertised time ends the throttling, and one second less would not whenever more than one is advertised |
| ReviewQueue.ReviewApi.DecideBatch | src/api/debug.py:531-591 | the item-by-item loop inside the session bracket commits exactly the specified queue or nothing |
| ReviewQueue.ReviewApi.DecideOne | src/api/debug.py:1342-1408 | a single decision commits, or leaves the queue alone, also when the change of its target raises after the checks |
| ReviewQueue.ReviewApi.ApplyAll | src/api/debug.py:569-580 | the loop decides the listed items in turn and stops at the first that raises |
| ReviewQueue.DecideAllExactly | src/api/debug.py:569-580 | a list of decisions goes through exactly when no id repeats and each was possible alone; then exactly those items change |
| ReviewQueue.BatchAllOrNothing | src/api/debug.py:538-591 | a batch succeeds exactly when well-formed and what follows goes through, and then the pending count falls by exactly the reported count; otherwise nothing changes |
| ReviewQueue.BatchExactly | src/api/debug.py:531-591 | the four action names and what they decide; success item by item; exactly the listed items get the decision, note and their own stamp |
| ReviewQueue.SingleExactly | src/api/debug.py:1342-1408 | each answer to a single decision exactly when it is due, and what it leaves |
| ReviewQueue.DecisionsAreFinal | src/api/debug.py:1378-1408 | over any run a decided item is never altered, and an ignored blocker was named with permission and has a non-empty note |

## Left out

- Floating-point rounding, and time zones: numbers and clocks are reals.
- Correction.EvidenceCorrectionService.InvalidateAndRecompute: does not model the audit fields a correction writes (`evidence_refs`, the decision trace's status, reason and payload, `evidence_summary`); repeated calls append to or overwrite them, so nothing is claimed about them.
- Recording.EngineMatchesLog: starts from empty tables, and says nothing of the engine's confidence, status, shadow predictions, and the review date that the older path books; vocabulary and phrase mastery are not modelled.
- Ties between policy rows created at the same instant: the database may pick any, the model takes the first in table order; likewise the last inserted among challenges sent at the same instant.
- StatusOnlyDecays: the reader's row order among evidence created at the same instant is left to the database; the lemmas take the rows in any order.
- Missing creation times of evidence: the column is never null, so the replay's fallback to the current time is not modelled.
- The dimension scores and status counters of the grammar map: weighted averages and sums.
- `_conversation_history`: one query, the newest messages in ascending order.
- ThreadLog.Numbering: assumes the READ COMMITTED isolation the server runs under and, for legacy threads, that all messages belong to the thread's owner, as the reading side filters by learner.
- Message contents and thread metadata (title, last-message time, skill), and the session objects of a chat turn: the transactions are steps on database values, so aliasing of rows inside one session is not captured.
- Concurrent requests to send a code: each request is one atomic step; they take no lock in the source.
- Infrastructure failures between a comparison and the final commit of a confirmed code.
- Hashing and signing, the mail transport, email normalisation, and parsing of identifiers and of the batch action's case and whitespace.
- Prompt construction beyond what tells a fresh request from a continuation, memory capture, summaries, skills, and the framing of server-sent events.
- Concurrent review decisions: the source takes no row lock, so each request is one atomic step.
- The lookup of a review item's textbook source, whose absence is answered like a missing item.
- What a review decision writes on its target, and the quality gate recalculated from the queue: only whether they go through is a parameter.
