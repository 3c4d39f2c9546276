# Verification of the task service's platform

A Dafny 4.11 model of the parts of the service where the hard guarantees live, and
proofs of what they guarantee. Each protocol is modelled twice: as classes whose
methods change their fields the way the Go code does, each proved against a function
of the old state, and as a state machine over those same functions, whose theorems
hold in every reachable state of every run. `dafny verify dfyconfig.toml` checks the
whole project.

## What is modelled

**Idempotency keys** (`ResponseCapture`, `ClaimStore`, `Idempotency`,
`IdempotencyRuns`, `IdempotencyAnswers`, `IdempotencyLate`). Any number of requests run claim, get, decide, reclaim, handler
and finalize against one table, one statement at a time, on results that may be stale;
the janitor purges in between; handlers panic and requests stop anywhere. Row ids are
never reused. A statement may use a timestamp read before it ran. One assumption about
the environment, because `Finalize` is keyed by id alone: a request finalizes before its
own deadline, or later while its row is still its own claim or gone, or never. A WHERE
clause could test that. `LateFinalize` is a run without it, at whose end two requests
of one scope execute under unexpired claims. `IdempotencyAnswers` says who gets which
answer: a retry of a remembered success is replayed, and each other answer is given
exactly for the record it is meant for.

**Outbox, relay and event bus** (`Backoff`, `Outbox`, `OutboxRelay`, `Routing`,
`EventBus`, `EventBusRuns`, `EventBusSteps`, `Delivery`, `DeliveryRestart`). The relay claims batches under a five-minute
lease, publishes, waits and settles; it may crash anywhere and a settling update may
fail. Two environments are covered: one relay at a time with restarts, and any number
of relays that act on a row only while its lease lasts. The bus has publishers, workers
and `Close` interleaving around the publish lock, the closed flag, the bounded channel
and the reply channels. `Delivery` joins the two machines. A process makes one bus and
one relay on it, so a relay there stands for one life of a process and has a bus of its
own; a restart is a new relay with an empty bus on the outbox as it is, and several
processes are several relays. When a row is done, the bus of one relay delivered it: the
handlers called are exactly those subscribed on that bus, with a matching pattern, at a
moment after it accepted the row's event, among them every matching one that this bus had
before the row was committed, and each call returned nil. That is all a commit guarantees: subscriptions of
another process, or of one that has crashed since, need not be called, and
`RestartLosesSubscriptions` is a run in which a done row never reached one.

**SQL splitter** (`SqlGrammar`, `SqlSplit`, `SqlRoundTrip`, `SqlStretches`). The five-flag
byte loop is proved to compute the statements of a token grammar, and the grammar is
proved to mean what it should: which token begins where and how far it goes, as an
if-and-only-if on the text, cuts exactly at the free semicolons, statements that are the
trimmed stretches between them, and a round trip with the join by `"\n;\n"`. A block comment's closer is searched from the opener's own
star, as the code does, so `/*/` closes.

**Rate limiter** (`RateLimit`, `RateLimitRuns`), over exact reals: the admission bound,
that a request is admitted if and only if it keeps every window within burst and rate,
optimality of admitting whenever there is a token, and the exact condition under which
dropping idle buckets cannot be observed. The admission bound and optimality hold for
request times in any order. The eviction theorem needs times in order; it holds if and
only if the rate fills a bucket within the cleanup time.

**Tasks, audit chain and search** (`TaskStore`, `TaskService`, `TaskEffects`, `TaskRuns`,
`Audit`, `Search`), on the SQLite path, where transactions are serial. Every operation is one
transaction over the tasks, their logs, the outbox and the audit log, run statement by
statement on a database whose statements may each fail or panic. The audit log's hash
and the JSON texts are parameters: a collision-free hash that never yields the genesis
value or a bar, and an encoding with an inverse. A row's columns are hashed as one text,
joined by bars. Whatever another valid log with the same last hash looks like, it has the
same length, the same hashes and row by row the same joined text (`TamperEvidence`). A
row's columns are pinned down exactly when none of them has a bar in it (`RowPinnedIff`).
The service writes headers without bars, but a title may have one, and then all the
hashed columns, action, type, public id and time included, can be altered unnoticed by
moving the bars (`HeaderMayShift`, `ValuesMayShift`); what is stored then is nothing that
the service would write. The user id and the entity's row id are not hashed at all. Among
the logs that the service itself writes, the last hash determines the whole task table
(`SameHashSameTasks`).

The repository documents no routing rule. The intended one, that a subscription is called
once when its pattern matches, holds only for event types whose last segment is not `*`;
`RoutingCount` has the number of calls for every type.

## Model

| member | source | states |
|---|---|---|
| ResponseCapture.CaptureResponseWriter.WriteHeader | internal/platform/mid/idempotency.go:28-34 | only the first status is recorded and forwarded; recorder and inner writer together follow the capture function |
| ResponseCapture.CaptureResponseWriter.Write | internal/platform/mid/idempotency.go:36-42 | a write before any status means 200; bytes are recorded and forwarded in order |
| ResponseCapture.PlayState | internal/platform/mid/idempotency.go:28-42 | after any sequence of handler calls the recorder mirrors the wire and holds the first status and all writes |
| ResponseCapture.WritesInOrder | internal/platform/mid/idempotency.go:36-42 | what is taken for all written bytes is every write's data, in order, and nothing else |
| ResponseCapture.CaptureIsFaithful | internal/platform/mid/idempotency.go:173-197 | what is finalized is exactly what the client received, including the implicit 200 |
| ResponseCapture.CaptureIsFaithfulIff | internal/platform/mid/idempotency.go:28-42 | for a handler that recovers from a refused status and goes on, the recorder still equals what the client got if and only if that status was not its first choice |
| ClaimStore.DbClaimStore.Claim | internal/platform/mid/idempotency.go:273-307 | inserts a processing row under a new id exactly when the scope has none |
| ClaimStore.DbClaimStore.Get | internal/platform/mid/idempotency.go:309-359 | returns a record of the scope if there is one, and only then |
| ClaimStore.DbClaimStore.ReclaimExpired | internal/platform/mid/idempotency.go:361-390 | takes over and clears the row exactly when it is still there and expired |
| ClaimStore.DbClaimStore.ReclaimFailed | internal/platform/mid/idempotency.go:392-419 | takes over the row exactly when it is failed with the same hash |
| ClaimStore.DbClaimStore.Finalize | internal/platform/mid/idempotency.go:421-451 | marks the row failed, or completed with the response and deadline, by id alone |
| ClaimStore.DbClaimStore.PurgeExpiredIdempotencyKeys | internal/platform/janitor/janitor.go:88-102 | deletes exactly the expired completed and failed rows and reports how many |
| ClaimStore.DbClaimStore.ResolveConflict | internal/platform/mid/idempotency.go:213-266 | answers a stale record by the resolution function, with the table after it |
| IdempotencyAnswers.ResolveIsSteps | internal/platform/mid/idempotency.go:213-266 | that resolution is the protocol's decide step followed by its reclaim step: same table, same answer, same owner |
| Idempotency.StepKeeps | internal/platform/mid/idempotency.go:140-200 | every step of every request and of the janitor keeps the invariant of rows, owners and history |
| IdempotencyRuns.RunSound | internal/platform/mid/idempotency.go:89-203 | the invariant, and that every stored or replayed response stems from an execution, hold in every reachable state |
| IdempotencyRuns.MutualExclusion | internal/platform/mid/idempotency.go:140-200 | at most one request with an unexpired claim executes per scope, and its row is processing with its hash and deadline |
| IdempotencyRuns.CompletedWindowHolds | internal/platform/mid/idempotency.go:222-265 | a completed record stays untouched and no run of its scope starts until its deadline, whatever stale reads are acted on |
| IdempotencyRuns.OneSuccessPerWindow | internal/platform/mid/idempotency.go:190-198 | after a recorded success no run of the scope starts or succeeds before its deadline |
| IdempotencyRuns.ExactlyOneSuccess | internal/platform/mid/idempotency.go:222-251 | an unexpired completed record is the work of exactly one execution |
| IdempotencyRuns.ReplayFidelity | internal/platform/mid/idempotency.go:242-252 | every replayed status and body equals what one earlier execution with the same scope and hash sent to its client |
| IdempotencyRuns.NothingSurvivesReclaim | internal/platform/mid/idempotency.go:361-419 | a reclaimed row holds nothing but the new claim |
| IdempotencyRuns.ConflictAnswerUnreachable | internal/platform/mid/idempotency.go:253-256 | the catch-all conflict answer is never given |
| IdempotencyRuns.RefusalsAreJustified | internal/platform/mid/idempotency.go:234-241 | a mismatch answer means that a run of the scope with another payload has begun, a concurrent one that a run with the same payload has |
| IdempotencyAnswers.DeadlineIs | internal/platform/mid/idempotency.go:133-138 | a request's deadline is its arrival plus the time to live |
| IdempotencyAnswers.ClaimIff | internal/platform/mid/idempotency.go:140-170 | in every reachable state a claim succeeds, under a new row, if and only if no row of the scope is there; a second try that meets one is refused as concurrent |
| IdempotencyAnswers.DecisionIff | internal/platform/mid/idempotency.go:222-265 | in every reachable state a request is refused as a mismatch if and only if its record is in force with another hash, as concurrent if and only if with the same hash and processing, replayed if and only if completed, sent to retry if and only if failed, and sent to take over if and only if the record has expired |
| IdempotencyAnswers.TakeOverIff | internal/platform/mid/idempotency.go:361-419 | a reclaim makes the request the owner, with its own claim in the row, if and only if the row is still expired, or still failed with the same hash; otherwise it is refused as concurrent |
| IdempotencyAnswers.RowAsReadIsTakenOver | internal/platform/mid/idempotency.go:222-265 | an expired record of any status, and a failed one of the same hash, lead to a new execution if the row is still as it was read |
| IdempotencyAnswers.RetryFindsSuccess | internal/platform/mid/idempotency.go:140-156 | while a success is remembered no request of its scope gets a claim, and one that looks reads exactly that success |
| IdempotencyAnswers.RetryIsReplayed | internal/platform/mid/idempotency.go:242-252 | a request that looks while a success of its scope and payload is remembered, and decides before the deadline, is answered with that execution's first status, all its bytes and its content type, or the fallback if it had none |
| IdempotencyAnswers.RememberedIff | internal/platform/mid/idempotency.go:173-200 | a run is recorded, with its status, body and content type until its deadline, if and only if its handler returned a status below 500 and its row is still there; any other leaves its row failed and without a response |
| IdempotencyAnswers.HandlerIsRecorded | internal/platform/mid/idempotency.go:28-42 | a handler's step in the protocol is the recorder's call, and panics exactly where net/http does |
| IdempotencyAnswers.PanicLeavesFailed | internal/platform/mid/idempotency.go:173-184 | a run that panicked records nothing and leaves its row failed |
| IdempotencyAnswers.ReturnIsRecorded | internal/platform/mid/idempotency.go:186-198 | a run that returned leaves its row completed with status, bytes and content type if the status is below 500, and failed otherwise |
| IdempotencyLate.OwnFinalizeSparesOthers | internal/platform/mid/idempotency.go:421-451 | a finalize in time, or late on the finalizer's own claim or a row that is gone, leaves alone every other live owner's row and every success in its window |
| IdempotencyLate.LateFinalizeHitsIff | internal/platform/mid/idempotency.go:421-451 | a finalize at any time changes a live owner's row, or that of a success still in its window, if and only if it is the finalizer's row too, and then ends that owner's claim |
| IdempotencyLate.LateFinalize | internal/platform/mid/idempotency.go:190-200 | a run of the protocol without the assumption that ends with two unexpired executions of one scope |
| Backoff.OutboxBackoff | internal/platform/event/outbox.go:266-275 | the doubling loop computes min(15 min, 5 s * 2^(n-1)) |
| Backoff.DelaysAre | internal/platform/event/outbox.go:266-275 | the delays are 5, 10, 20, 40, 80, 160, 320 and 640 seconds, then 900 for ever |
| Backoff.NineDelays | internal/platform/event/outbox.go:17-17 | the nine delays before the tenth delivery add up to 2175 seconds |
| Outbox.OutboxTable.Add | internal/platform/event/outbox.go:19-50 | adds one pending row, due at once |
| Outbox.OutboxTable.ClaimBatch | internal/platform/event/outbox.go:99-127 | marks exactly the batch processing, counts the attempt and sets the lease; returns the rows as they were |
| Outbox.BatchIsClaimable | internal/platform/event/outbox.go:100-126 | what the SELECT returns is a batch that the relay machine may claim |
| Outbox.OutboxTable.Settle | internal/platform/event/outbox.go:147-163 | done, failed with the backoff, or dead at the tenth attempt, by id alone |
| Outbox.OutboxTable.ProcessBatch | internal/platform/event/outbox.go:89-166 | every row of the batch is done, with its time, exactly if its own delivery succeeded, dead exactly if that failed for the tenth time, and else failed until its own time plus the backoff; messages and all other rows are as before |
| Outbox.ClaimsEach | internal/platform/event/outbox.go:119-126 | a claim marks at most fifty rows, each processing for five minutes with one attempt more, and touches no other |
| Outbox.OldestGoFirst | internal/platform/event/outbox.go:103-104 | of two due rows the older one is in the batch, and before the younger, if the younger is |
| Outbox.BatchIsAllOrFull | internal/platform/event/outbox.go:103-104 | a batch that is not full holds every due row |
| Outbox.OutboxTable.PurgeProcessedOutboxEvents | internal/platform/janitor/janitor.go:71-86 | deletes exactly the done rows published before the cutoff and reports how many |
| OutboxRelay.StepKeeps | internal/platform/event/outbox.go:99-163 | every step of every relay, writer and the janitor keeps leases, row states and accounting |
| OutboxRelay.RunSound | internal/platform/event/outbox.go:99-163 | that invariant holds in every reachable state, under either relay assumption |
| OutboxRelay.AddedIsClaimable | internal/platform/event/outbox.go:37-41 | in every reachable state a committed row is claimable from its commit time on, and not before |
| OutboxRelay.LeaseRunsOut | internal/platform/event/outbox.go:119-122 | a claimed row is claimable again exactly from five minutes after the claim on, so a crash loses nothing |
| OutboxRelay.FailedIsRetried | internal/platform/event/outbox.go:147-162 | a row whose delivery failed is claimable again exactly from the backoff for its attempts on; after the tenth attempt, or once delivered, never |
| OutboxRelay.StepKeepsRows | internal/platform/janitor/janitor.go:71-86 | a step removes a row if and only if it is a purge, and the row is done and was published before the cutoff |
| OutboxRelay.LeaseExcludes | internal/platform/event/outbox.go:99-127 | at most one relay may act on a row, and the row is processing for its claim |
| OutboxRelay.SettledRowsAreFinal | internal/platform/event/outbox.go:147-163 | done and dead rows are never claimed or changed again; a dead one is never removed |
| OutboxRelay.CommittedEventsStay | internal/platform/janitor/janitor.go:71-86 | no committed event disappears or changes its message unless it was done |
| OutboxRelay.DeadLetterAccounting | internal/platform/event/outbox.go:120-159 | attempts equals claims; dead means at least ten; if every claim was settled, dead exactly when ten deliveries failed, at least 2175 s after the first |
| OutboxRelay.ClaimsConserved | internal/platform/event/outbox.go:241-261 | every claim failed, delivered, is under way or was superseded |
| Routing.CollectTargets | internal/platform/event/bus.go:67-78 | the worker's lookup loop gathers the subscriptions of the patterns in order |
| Routing.JoinSplit | internal/platform/event/bus.go:72-74 | splitting at dots and joining again gives the type back |
| Routing.PartsHaveNoDot | internal/platform/event/bus.go:72-72 | no part has a dot left in it, so with JoinSplit the parts are the split |
| Routing.MatchesIs | internal/platform/event/bus.go:66-78 | a pattern matches exactly as the type itself, as `*`, or as what precedes one of the type's dots followed by `.*` |
| Routing.LookupsAreMatches | internal/platform/event/bus.go:66-78 | a pattern is looked up exactly when it is the type, `*`, or `p.*` for a proper dotted prefix p |
| Routing.PrefixesLongestFirst | internal/platform/event/bus.go:70-78 | order is exact, then wildcard, then prefixes from longest to shortest |
| Routing.TargetsInOrder | internal/platform/event/bus.go:66-78 | the targets are the subscriptions of the lookups one after the other, in the order of the lookups |
| Routing.RoutingCount | internal/platform/event/bus.go:66-79 | for every event type a subscription is called once for each way its pattern matches: as the type, as `*`, and as `p.*` for a proper dotted prefix p |
| Routing.RoutingExact | internal/platform/event/bus.go:66-79 | if the last segment is not `*`, a subscription is called once when its pattern matches and never otherwise |
| Routing.StarTypesRepeat | internal/platform/event/bus.go:66-79 | an exact subscription is called at least twice if and only if the last segment is `*` |
| Routing.OnlySubscriptions | internal/platform/event/bus.go:66-79 | nothing else is ever called |
| EventBus.Bus.Enqueue | internal/platform/event/bus.go:137-165 | accepted if and only if the bus is open, fewer than 1024 events wait and a cancelled context is not preferred; only saturation counts as dropped; an event's own attribution is kept and a missing one comes from the context |
| EventBus.Bus.Work | internal/platform/event/bus.go:62-112 | one turn of a worker runs every target of the oldest event in order, whatever fails, and replies with the first error |
| EventBus.Bus.Subscribe | internal/platform/event/bus.go:56-60 | appends one subscription to its pattern |
| EventBus.NilMeansAllReturned | internal/platform/event/bus.go:81-110 | a nil reply means that every handler returned nil and none panicked |
| EventBus.ErrorIsTheFirst | internal/platform/event/bus.go:98-100 | otherwise the reply is the earliest failure: the handler's own error, or the panic text |
| EventBusSteps.EnqueueIsSteps | internal/platform/event/bus.go:144-166 | what Enqueue decides is what the machine's publisher steps come to: a ticket at the end of the queue, or a refusal with its reason |
| EventBusSteps.WorkIsSteps | internal/platform/event/bus.go:64-110 | one turn of Work is what the machine's take, route, handle and reply steps come to |
| EventBusSteps.LeaveIsStep | internal/platform/event/bus.go:118-130 | an accepted publisher that wants an answer waits for its ticket; any other is done with its verdict |
| EventBusSteps.AnswerIsSteps | internal/platform/event/bus.go:118-135 | the waiting publisher whose event a worker takes its turn on is answered with the first failure of the targets, nil if there was none |
| EventBusRuns.StepKeeps | internal/platform/event/bus.go:62-187 | every step of publishers, workers and Close keeps the bus invariant |
| EventBusRuns.AcceptedConserved | internal/platform/event/bus.go:64-110 | an accepted event is queued, with one worker, or finished, in exactly one of these, and the counts add up |
| EventBusRuns.NoSendOnClosedChannel | internal/platform/event/bus.go:147-175 | a publisher that passed the closed check sends on an open channel |
| EventBusRuns.NothingAcceptedAfterClose | internal/platform/event/bus.go:169-175 | once the channel is closed nothing is accepted |
| EventBusRuns.ReplyNeverBlocks | internal/platform/event/bus.go:108-135 | the reply buffer is free when a worker replies, even if the publisher gave up |
| EventBusRuns.DroppedCountsSaturation | internal/platform/event/bus.go:157-167 | the dropped counter equals the saturation refusals, and the queue keeps its bound |
| EventBusRuns.DrainedCloseFinishedAll | internal/platform/event/bus.go:169-187 | when all workers have left, every accepted event is finished |
| EventBusRuns.FinishedRanEveryTarget | internal/platform/event/bus.go:64-135 | an answered publisher's own event ran every target of the subscriptions at some moment after its acceptance, which include all made before it; the answer is the first failure, nil exactly when none failed |
| EventBusRuns.EarlierSubscriberReached | internal/platform/event/bus.go:66-110 | every subscription made before an answered event was accepted was called for it as often as routing says, at least once if it matches, and each call returned nil if the answer is nil |
| Delivery.StepKeeps | internal/platform/event/outbox.go:132-163 | every joint step, the start of a process with a new bus included, keeps the relays' invariant, every bus's, and the link between each call and its row |
| Delivery.DoneMeansDelivered | internal/platform/event/outbox.go:147-162 | across restarts and with any number of processes, a row is done only if the event of one attempt for it, with its own message, was accepted by the attempting relay's own bus and answered nil after every target of that bus's subscriptions at a moment after acceptance ran and returned nil |
| Delivery.SettledByAnswer | internal/platform/event/outbox.go:146-162 | a relay settles its row as done if and only if the answer to its call was nil, otherwise as failed, or dead from the tenth attempt on |
| Delivery.DoneReachedSubscriber | internal/platform/event/bus.go:66-110 | every subscription that the delivering bus had before it accepted that event was called for it as often as routing says, at least once if it matches and just once unless the type ends in `*`, and each call returned nil |
| Delivery.DoneCalledOnlySubscribers | internal/platform/event/bus.go:66-79 | nothing else was called: every target was a matching subscription of the delivering bus when the worker looked |
| Delivery.DoneCalledIff | internal/platform/event/bus.go:66-79 | a handler was called for a delivered row if and only if it was subscribed with a matching pattern on the delivering bus at one moment after that bus accepted the event |
| Delivery.SubscribedBeforeCommit | internal/platform/event/outbox.go:147-162 | when a row is done, some relay delivered it, and every subscription that this relay's bus had before the row was committed was called for its event as often as routing says, at least once if it matches and just once unless the type ends in `*`, and each call returned nil |
| DeliveryRestart.RestartLosesSubscriptions | internal/app/app.go:43-44 | for every message a run with one relay at a time in which a process subscribes a handler to `*`, commits the row and crashes, and the next one, with a new bus, brings the row to done without that handler ever called |
| Delivery.SettledRowsAreNotRepublished | internal/platform/event/outbox.go:132-147 | what a relay publishes is a processing row with its committed message, never a done or dead one |
| Delivery.AcceptedWhileProcessing | internal/platform/event/bus.go:152-156 | when the bus accepts the event of a call in force, the row is still processing and the event carries its message |
| SqlSplit.ScanDollarTag | internal/platform/db/sql_split.go:100-120 | recognises exactly the dollar tag at the start |
| SqlSplit.ReadOpening | internal/platform/db/sql_split.go:62-91 | one turn between tokens reads an opener or a plain byte, and the flag it sets ends where the token does |
| SqlSplit.ReadInside | internal/platform/db/sql_split.go:31-61 | one turn inside a token reads on to the same end, with at most one flag on |
| SqlSplit.SplitSQLStatements | internal/platform/db/sql_split.go:17-98 | the loop computes the statements of the token grammar; its invariant has at most one mode on |
| SqlRoundTrip.TagAtIff | internal/platform/db/sql_split.go:100-120 | a dollar tag is recognised exactly when a well-formed one is there |
| SqlRoundTrip.KindIff | internal/platform/db/sql_split.go:62-92 | a string begins exactly at a single quote, an identifier at a double quote, comments at `--` and `/*`, a dollar quote at a tag, a cut at a semicolon, and a plain byte exactly where none of these does |
| SqlRoundTrip.TokenShape | internal/platform/db/sql_split.go:31-92 | a stretch of text is the token at its start if and only if it has that kind's opener and runs to that kind's first closer, or to the end |
| SqlRoundTrip.CharacterClasses | internal/platform/db/sql_split.go:107-114 | which characters may be in a tag, and which are trimmed, by their codes |
| SqlRoundTrip.PiecesJoinToText | internal/platform/db/sql_split.go:84-97 | the untrimmed pieces joined by semicolons are the input |
| SqlRoundTrip.PiecesAreSlices | internal/platform/db/sql_split.go:84-97 | the pieces are the input sliced at the cuts |
| SqlRoundTrip.CutsAreFreeSemicolons | internal/platform/db/sql_split.go:84-88 | cuts fall at exactly the semicolons outside every token |
| SqlStretches.StatementsAreStretches | internal/platform/db/sql_split.go:28-98 | the statements are, in order, the stretches of the text between its free semicolons, trimmed; all that is left out is space and those semicolons |
| SqlRoundTrip.TrimIs | internal/platform/db/sql_split.go:85-96 | trimming leaves what is between the first and the last non-space |
| SqlRoundTrip.JoinSplits | internal/platform/db/sql_split.go:17-98 | splitting the statements joined by newline, semicolon, newline returns the same statements |
| SqlRoundTrip.StatementIsOne | internal/platform/db/sql_split.go:17-98 | every returned statement splits into exactly itself |
| RateLimit.RateLimiter.constructor | internal/platform/mid/ratelimit.go:34-45 | no buckets yet; the configuration with what is not positive replaced by its default |
| RateLimit.RateLimiter.Allow | internal/platform/mid/ratelimit.go:65-79 | refills and spends the client's bucket, a full one if it is new, and touches no other |
| RateLimit.TokenBucket.Take | internal/platform/mid/ratelimit.go:69-78 | under the lock: refill up to the burst, admit exactly when a token is there |
| RateLimit.RequestIs | internal/platform/mid/ratelimit.go:71-78 | one request in numbers: elapsed time times rate is added up to the burst, and it is admitted, for one token, exactly if that makes one |
| RateLimit.NewClientAllowed | internal/platform/mid/ratelimit.go:66-67 | a client without a bucket is admitted |
| RateLimit.RateLimiter.Sweep | internal/platform/mid/ratelimit.go:87-97 | drops exactly the buckets idle since before the cutoff |
| RateLimit.AdmissionBound | internal/platform/mid/ratelimit.go:66-78 | over any window of calls, in lock order and with times in any order, at most burst + rate * (last admitted - first) are admitted |
| RateLimit.AdmittedIffWithinEveryWindow | internal/platform/mid/ratelimit.go:65-79 | on a new bucket a request is admitted if and only if, counting it, no window that ends with it holds more than burst + rate * its length, whatever the times |
| RateLimit.IdleAdmits | internal/platform/mid/ratelimit.go:71-78 | a bucket without debt lets n requests through at once after the time in which the rate yields n tokens, up to the burst |
| RateLimit.GreedyObeys | internal/platform/mid/ratelimit.go:74-78 | the limiter's own decisions are a policy its bucket allows |
| RateLimit.GreedyIsOptimal | internal/platform/mid/ratelimit.go:65-79 | no policy on the same bucket admits more of any prefix, whatever the times |
| RateLimitRuns.SweepIsEvictions | internal/platform/mid/ratelimit.go:88-97 | a sweep is an eviction of every key in any order |
| RateLimitRuns.ClientsAreIndependent | internal/platform/mid/ratelimit.go:67-68 | without sweeps each client is answered as if it were alone |
| RateLimitRuns.EvictionInvisibleIff | internal/platform/mid/ratelimit.go:67-100 | the limiter with cleanup decides like one that never deletes, on all ordered runs, if and only if rate * cleanup time >= burst |
| RateLimitRuns.ClientBound | internal/platform/mid/ratelimit.go:65-100 | under that condition the admission bound holds for each client across evictions and other clients |
| RateLimitRuns.ClientAdmittedIff | internal/platform/mid/ratelimit.go:65-100 | under that condition a client's request is admitted, across evictions and other clients, if and only if no window of the client's own requests that ends with it goes beyond burst and rate |
| Search.EscapeLike | internal/modules/tasks/store.go:54-64 | the loop puts a backslash before each backslash, percent sign and underscore |
| Search.LowerEscaped | internal/modules/tasks/sqlite_store.go:52-52 | folding case and escaping commute |
| Search.SearchFindsParts | internal/modules/tasks/sqlite_store.go:43-52 | a title is listed exactly when the folded search text is a substring of the folded title, for every search text |
| Search.SearchFindsText | internal/modules/tasks/sqlite_store.go:43-52 | a title is listed exactly when the search text, taken literally and in either case of its ASCII letters, stands somewhere in it |
| Audit.AppendKeepsChain | internal/platform/audit/writer.go:48-75 | appending the next row keeps the chain valid |
| Audit.ChainIs | internal/platform/audit/writer.go:36-46 | a log is valid exactly if its first row follows 64 zeros, every other the row before it, and each hash is that of previous hash, action, type, public id, time, old and new text in this order |
| Audit.GoodHashExists | internal/platform/audit/writer.go:36-46 | there is a hash as the chain's results ask for: collision-free, never the genesis value, without bars |
| Audit.TamperEvidence | internal/platform/audit/writer.go:36-46 | any two valid logs of any lengths ending in one hash have one length and row by row the same hashes and hashed text; beside a row without bars in its header the other agrees exactly when it has none either, and a row without any bar is the same in every hashed column |
| Audit.ValuesSplitIff | internal/platform/audit/writer.go:42-45 | the joined text determines an entry's old and new text if and only if neither has a bar in it |
| Audit.TextsPinnedIff | internal/platform/audit/writer.go:36-46 | a row's two texts alone cannot be altered with the chain staying valid if and only if neither has a bar in it |
| Audit.RowPinnedIff | internal/platform/audit/writer.go:36-46 | a row is the same in every hashed column of every valid log with that last hash if and only if none of its columns has a bar in it |
| Audit.HeaderMayShift | internal/platform/audit/writer.go:38-44 | a bar in a row's new text lets action, type, public id and time be altered with the chain staying valid and the last hash the same |
| Audit.ValuesMayShift | internal/platform/audit/writer.go:42-45 | the entry of a task whose title has a bar, and an altered one with other texts and the same hash |
| TaskStore.Input.Validate | internal/modules/tasks/model.go:83-97 | no message exactly for a title of 1 to 255 bytes, a description of at most 4096 and a known status or none; otherwise the message of the first rule broken |
| TaskStore.Database.Begin | internal/platform/db/db.go:97-101 | a transaction starts on the committed tables, or not at all |
| TaskStore.Database.End | internal/platform/db/db.go:103-127 | commits what the function did if it returned nil and the commit succeeds; otherwise nothing remains |
| TaskStore.Database.InsertTask | internal/modules/tasks/sqlite_store.go:97-114 | inserts the task for a known user under a new public id, status pending by default |
| TaskStore.Database.UpdateTask | internal/modules/tasks/sqlite_store.go:115-134 | stores title, description, status and time of update in the user's own task, pending if no status is given, and changes nothing else of it |
| TaskStore.Database.AssignTask | internal/modules/tasks/sqlite_store.go:160-175 | stores the assignee and the time in the user's own task and changes nothing else of it |
| TaskStore.Database.DeleteTask | internal/modules/tasks/sqlite_store.go:136-146 | deletes the user's own task, and with it its log rows |
| TaskStore.Database.AddEvent | internal/platform/event/outbox.go:19-50 | adds one outbox row with the request's correlation id, or a new one, and its user |
| TaskStore.Database.LogTx | internal/platform/audit/writer.go:48-96 | two statements: reads the last hash, or genesis, then appends the row that continues the chain |
| TaskService.Service.Create | internal/modules/tasks/service.go:47-71 | all or nothing: task, outbox row and audit row, or no change, whatever step fails; without a failure the answer is the expected one |
| TaskService.Service.Update | internal/modules/tasks/service.go:73-101 | likewise for an update of the user's own task |
| TaskService.Service.Assign | internal/modules/tasks/service.go:103-145 | likewise for an assignment, with its log row; only to active users |
| TaskService.Service.Delete | internal/modules/tasks/service.go:147-165 | likewise for a deletion |
| TaskService.Service.LogAudit | internal/modules/tasks/service.go:167-186 | appends one audit row with the JSON of the old and the new task |
| TaskEffects.CreateAcceptedIff | internal/modules/tasks/service.go:47-52 | which creations are accepted, and which are refused as invalid |
| TaskEffects.UpdateAcceptedIff | internal/modules/tasks/service.go:73-86 | an update is accepted from the owner with valid input, and from anyone else the task is not found |
| TaskEffects.AssignAcceptedIff | internal/modules/tasks/service.go:103-122 | an assignment is accepted from the owner to an active user, refused as invalid for nobody or an inactive one, and from anyone else the task is not found |
| TaskEffects.DeleteAcceptedIff | internal/modules/tasks/service.go:147-155 | a deletion is accepted from the owner, and from anyone else the task is not found |
| TaskEffects.CreateEffect | internal/modules/tasks/service.go:53-70 | every field of the created task, of its `task.created` event and of its `CREATE` audit row |
| TaskEffects.UpdateEffect | internal/modules/tasks/service.go:79-100 | title, description and status as given and trimmed, the rest of the task and all others as before; every field of the `task.updated` event and the `UPDATE` audit row |
| TaskEffects.AssignEffect | internal/modules/tasks/service.go:108-144 | the assignee asked for, the rest of the task and all others as before; every field of the log row, the `task.assigned` event and the `ASSIGN` audit row |
| TaskEffects.DeleteEffect | internal/modules/tasks/service.go:148-164 | the task and its log rows gone, every other task and its log rows in order as before; every field of the `task.deleted` event and the `DELETE` audit row |
| TaskRuns.GoodCodecExists | internal/modules/tasks/service.go:167-186 | there is an encoding with an inverse, together with such a hash |
| TaskRuns.StepAddsOne | internal/modules/tasks/service.go:47-165 | an attempt that takes effect adds exactly one audit row and one pending outbox row, under the next id; one that fails or is refused changes nothing, and nothing else adds any |
| TaskRuns.AddedUnderNewId | internal/platform/event/outbox.go:19-50 | in any run the id of an added outbox row is one that no row had at any moment before |
| TaskRuns.OneRowEach | internal/modules/tasks/service.go:47-165 | over any run, audit rows and outbox rows added are as many as the attempts that took effect |
| TaskRuns.OwnersOnly | internal/modules/tasks/sqlite_store.go:115-175 | an operation changes no other owner's task and never a task's owner |
| TaskRuns.ReplayRebuilds | internal/modules/tasks/service.go:167-186 | replaying the audit log from the empty table gives the current task table keyed by public id |
| TaskRuns.OldValuesAreReplayed | internal/modules/tasks/service.go:78-94 | every entry's old value is the replayed value at its point |
| TaskRuns.ChainStaysValid | internal/platform/audit/writer.go:48-96 | the audit log of every run is a valid chain |
| TaskRuns.RunLogPinned | internal/platform/audit/writer.go:36-96 | any valid log with the last hash of a run has its length and hashes, and its hashed columns in every row whose JSON texts have no bar |
| TaskRuns.SameHashSameTasks | internal/platform/audit/writer.go:36-96 | two runs whose logs end in the same hash show the same tasks |
| TaskRuns.AssignmentsAreLogged | internal/modules/tasks/service.go:119-130 | in every run each task's log rows lead, old to new, from no assignee to the present one |

## Left out

- HTTP plumbing around the middlewares: headers, status texts, skipped paths, client address, request hashing, bodies that cannot be read. A request hash is an opaque string.
- Informational 1xx statuses, and the Content-Type a server adds to a handler that set none; the replayed content type is the recorded one or the fallback.
- Database errors in the idempotency and relay statements: a request or relay that meets one stops or skips there, which the crash, end and skip steps cover.
- A finalize after another request has taken the row: excluded by the assumption above, without which `LateFinalize` is a run.
- A handler that recovers from the panic net/http raises on a refused status and goes on: the protocol's machine ends its run there. For the recorder alone `CaptureIsFaithfulIff` covers it: the refused status is recorded as the handler's first choice while the client gets 200.
- What a stopped process no longer does: after a relay's crash its bus may still take steps here and the relay may claim again, so the results also cover a relay that dies alone.
- Delivery.AcceptedWhileProcessing: speaks of calls whose relay still waits and, with several relays, whose lease still lasts; an event that a crashed relay left behind may be accepted later.
- Outbox.OutboxTable.ClaimBatch: takes the result of the SELECT as a parameter constrained by its WHERE, ORDER BY and LIMIT; how the database picks among equal timestamps is open. The relay machine claims any due rows up to the limit, so it covers a Postgres batch that skipped locked rows.
- OutboxRelay.LeaseExcludes: the many-relay case assumes that a relay acts on a row only before its lease ends, because the settling updates are keyed by id alone.
- Handler timeouts and contexts of the bus, the thirty-second limit of draining, and liveness: nothing is said about when steps happen.
- TaskStore.Input.Validate: a char of a task's texts stands for one byte, so the limits count bytes as `len` does; the texts' reading as UTF-8 is not modelled.
- Bytes beyond ASCII in the splitter's TrimSpace, and case folding beyond ASCII in the search.
- Search.SearchFindsParts: models the SQLite query; the Postgres query matches a title against itself as a pattern when there is no search, which a title with a backslash need not survive. Search text is taken as valid characters.
- Paging, order and status filter of the task list.
- RateLimit.RateLimiter.Allow: exact reals instead of float64, and loading a bucket, using it and a sweep of its key are one step each; the race between loading a bucket and the sweep that deletes it is not modelled.
- Audit concurrency on Postgres: reading the last row FOR UPDATE and a plain SELECT before an UPDATE do not make transactions serial there, so the claims are for SQLite.
- TaskStore.Database.LogTx: the row's own random id and its redaction are left out; no task field has a sensitive name, so redaction only re-encodes the JSON, and ids beyond 2^53, which that would round, are not modelled. A missing audit writer is not modelled.
- TaskStore.Database.End: a commit that reports failure is taken not to have happened.
- Timestamp texts: times are integers, so the fixed-width format that makes text comparison agree with time is not modelled. The audit row's time text is a parameter without a bar.
- User deletion and its cascades: no code path deletes users. User rows may change in any other way between operations.
- JWT, sessions, configuration, migrations and the janitor's report: thin code over libraries.
