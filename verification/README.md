# Verified model of the outbox pipeline and the ledgers around it

The system keeps counters, announces every change in a transactional outbox, projects the
outbox into a read model and relays it to an event bus. Beside it stand a quota ledger in two
implementations, three callers that reserve and settle quota, a delivery worker with retries,
the workers' idempotency and dedupe stores, and a billing webhook that maintains entitlements.
This project states in Dafny what these parts promise over whole runs and proves it.

`dafny verify dfyconfig.toml` checks everything.

## How it is laid out

| files | part |
|---|---|
| `Counter`, `EventLog` | the counter as a sequential specification, and the meaning of a log prefix |
| `CounterRepository`, `CounterProtocol`, `CounterGuarantees`, `CounterService` | libSQL commit, any number of interleaved clients, what callers may rely on, the retry loop |
| `Projector`, `Pipeline` | batched replay with a checkpoint, and clients, projector and crashes in one system |
| `SurrealRepository`, `SurrealInterleaving` | the second repository, compared with the first, and its commits interleaved statement by statement |
| `MapSums`, `Quota`, `SqlQuota`, `Guards`, `GuardRequests` | the two quota ledgers, the guarded callers, and that these reserve and meter what was asked for |
| `Retry`, `Delivery`, `DeliveryWorker` | backoff, the job state machine, the worker's round |
| `Stores`, `Relay`, `RelayGuarantees`, `RelayLoss`, `RelayDelivery`, `RelayCrashes`, `RelayWorker` | stores with eviction, the relay cycle that uses them, what it loses, what it sends twice, and crashes on a store that survives them |
| `Webhooks`, `WebhookHandlers` | webhook processing in sequence, and handlers interleaved |

Code that changes state is a class whose methods are proved equal to a function of the old
state; the theorems are about folds of those functions over arbitrary sequences of actions.
Every database statement or transaction, every locked section and every port call is one
action, so a claim about all action sequences is a claim about all interleavings. Transactions
are serialised because they open with BEGIN IMMEDIATE
(packages/data-adapters/turso/src/embedded.rs:69-76).

Outcomes of the outside world (which publish succeeds, what a transport answers and when, what
a hash map yields first, whether a statement fails) are parameters of the action. Identifiers
that the code draws at random are parameters too, required to be new where the code relies on
it. SHA-256 is represented by the text it digests, that is, taken to be injective.

## Where the code falls short of what it promises

Each of these has a concrete failing input and an exact condition.

- Relay, loss: the counter service describes relaying as guaranteed delivery
  (services/counter-service/src/application/service.rs:18-21), and a poller test is named after
  not checkpointing failed entries. The checkpoint does pass a failed entry whenever a later
  entry of the batch succeeds. Such a row stays out of reach until a cycle that cannot read the
  checkpoint publishes it or writes a lower checkpoint, or a restart reads one: `LossHappens`,
  `CycleLosesNothingIff`, `FoundAgainIff`, `LostIff`, `LostForGoodIff`.
- Relay, crashes: on a shared database the idempotency store survives the process. An id that was
  started and not settled is skipped for good, but its row is still polled, so a full batch of
  such rows stops the relay: nothing behind them is ever published. `CrashStrands`,
  `CrashBlocks`, `NeverPublishedIff`.
- Relay, repetition: a publish whose mirror fails, or a cycle that is cut off before marking, has
  already reached the event bus: `RepeatHappens`, `ExactlyOnceIff`, `SentExactlyOnceIff`.
- Webhooks: a delivery whose projection fails, or whose handler is cut off before projecting, is
  answered with an error or not at all, but its redelivery is a duplicate, so the event is lost:
  `FailedGrantIsLost`, `CutOffLoses`, `LossShowsIff`, `NeverAppliedIff`.
- Quota: limit keys of different pairs collide when a colon occurs in a name
  (`LimitKeySharedIff`). As long as numbers fit an i64 and no pair without a limit would hold more
  than that, then and only then do the two ledgers differ (`SharedKeySeparatesLedgers`,
  `LedgersAgreeIffUnambiguous`). Sums wrap around in a release build (`WrapAroundAdmits`,
  `DecisionRightIff`, `WithinPeakIff`).
- Guards: a dropped call or a failing quota or meter call leaves its reservation open for good;
  nothing collects it (`DropLeaks`, `OpenForeverIffLost`).
- Delivery: a round that is dropped in an attempt, a retry delay that does not convert and a
  retry time past the end of the calendar leave the job in progress, where no claim finds it
  (`StrandedIff`, whose witness is `StrandingRun`).
- SurrealDB: the statements of a commit are not one transaction; when one commit writes between
  the version check and the write of another, both succeed and the version falls behind the
  events for good (`OverlapHappens`, `VersionIsEventCountIff`).

## Model

| member | source | states |
|---|---|---|
| `EventLog.VersionPinsState` | services/counter-service/src/domain/entity.rs:58-82 | versions never fall along the log; between two prefixes the version is unchanged iff no event concerned the counter, and then the whole state is unchanged |
| `EventLog.VersionIsCount` | services/counter-service/src/domain/entity.rs:58-82 | the version of a replayed counter is the number of its events |
| `EventLog.EventCarriesItsOrdinal` | services/counter-service/src/application/service.rs:199-226 | the k-th event of a counter announces version k |
| `EventLog.DeltasSumToValue` | services/counter-service/src/application/service.rs:205-214 | the announced deltas of a counter add up to its value |
| `EventLog.ValueSinceReset` | services/counter-service/src/domain/entity.rs:58-82 | the value of a replayed counter is the number of increments minus the number of decrements since its last reset |
| `EventLog.ValueBoundedByVersion` | services/counter-service/src/application/service.rs:205-214 | the absolute value never exceeds the version, which never exceeds the length of the log |
| `CounterRepository.RequestHashInjective` | services/counter-service/src/infrastructure/libsql_adapter.rs:447-456 | with an injective digest, a fingerprint determines tenant and operation (the colon-joined text is unambiguous) |
| `CounterRepository.BuildMutation` | services/counter-service/src/application/service.rs:200-241 | the command built from a snapshot announces exactly what the operation does to that snapshot |
| `CounterRepository.CasMeaning` | services/counter-service/src/infrastructure/libsql_adapter.rs:364-402 | the CAS statement takes effect iff no event of the counter lies between snapshot and commit, and then the row computed in SQL is the one the stale event announces |
| `CounterRepository.TransactionKeepsConsistent` | services/counter-service/src/infrastructure/libsql_adapter.rs:334-443 | a transaction either changes no table or performs one faithful mutation in all of them; rows stay the replay of the outbox and no key is left in progress |
| `CounterRepository.CommitNeverStuck` | services/counter-service/src/infrastructure/libsql_adapter.rs:354-361 | a commit on consistent tables never ends in the still-in-progress error |
| `CounterRepository.LibSqlCounterRepository.RunTransaction` | services/counter-service/src/infrastructure/libsql_adapter.rs:334-443 | the statements run one by one, with rollback, have the effect of the atomic transaction |
| `CounterRepository.LibSqlCounterRepository.CommitMutation` | services/counter-service/src/infrastructure/libsql_adapter.rs:315-444 | pre-check, transaction and second look-up together are the specified commit |
| `CounterProtocol.LostCasIsContested` | services/counter-service/src/infrastructure/libsql_adapter.rs:398-402 | a lost CAS has a commit of another client on the same counter inside its load-to-commit window |
| `CounterProtocol.RunKeepsInv` | services/counter-service/src/application/service.rs:190-289 | every reachable state of any number of interleaved clients satisfies the invariant tying tables, history, keys, snapshots and failed windows together |
| `CounterGuarantees.OutboxIsTheHistory` | services/counter-service/src/infrastructure/libsql_adapter.rs:364-417 | in every reachable state the events of a counter carry versions 1..n, announce what replay yields, and the row is (sum of deltas, n), absent when n is 0 |
| `CounterGuarantees.SuccessIsOneLogEntry` | services/counter-service/src/application/service.rs:243-271 | a successful answer is the replayed counter right after one row of the log, with the delta of that row if the call wrote it and 0 if it is a replay; without a key that row is the only effect of the call and was written while the call ran |
| `CounterGuarantees.ErrorMeansNoEffect` | services/counter-service/src/application/service.rs:272-287 | a call that returns an error committed nothing |
| `CounterGuarantees.EffectsFollowRealTime` | services/counter-service/src/application/service.rs:190-289 | of two calls that committed, one that returned before the other began took effect first |
| `CounterGuarantees.OneCommitPerKey` | services/counter-service/src/infrastructure/libsql_adapter.rs:336-361 | at most one commit ever exists for a (counter, key), over all clients, retries and races |
| `CounterGuarantees.KeyedSuccessesAgree` | services/counter-service/src/infrastructure/libsql_adapter.rs:419-435 | all successful calls under one key had the same operation and got the same value and version |
| `CounterGuarantees.ConflictMeansKeyOwnedByOther` | services/counter-service/src/infrastructure/libsql_adapter.rs:484-486 | an idempotency conflict is returned only when the key was committed by a different operation |
| `CounterGuarantees.OtherOperationNeverSucceeds` | services/counter-service/src/infrastructure/libsql_adapter.rs:325-361 | a call under a key that a different operation committed gets an idempotency conflict, or a CAS conflict only if the key was committed after its fourth failed attempt; if the key was committed before the call began it is always the conflict |
| `CounterGuarantees.RepeatedCallSucceeds` | services/counter-service/src/infrastructure/libsql_adapter.rs:325-331 | a call begun after its key was committed by the same operation succeeds with exactly the stored value and version and commits nothing |
| `CounterGuarantees.NeverStillInProgress` | services/counter-service/src/infrastructure/libsql_adapter.rs:356-359 | the still-in-progress error is unreachable and every visible key row is completed |
| `CounterGuarantees.CasConflictNeedsFourRivals` | services/counter-service/src/application/service.rs:274-287 | a CasConflict answer proves four distinct commits by other clients on that counter, one inside the load-to-commit window of each failed attempt of the call |
| `CounterGuarantees.CallReturns` | services/counter-service/src/application/service.rs:197-289 | under every schedule the steps a client takes and its remaining budget never exceed the budget it began with, until the call has returned |
| `CounterGuarantees.CallReturnsWithinFourteenSteps` | services/counter-service/src/application/service.rs:197-289 | a call has returned once its client took fourteen steps, whatever the others do |
| `CounterGuarantees.ArithmeticFits` | services/counter-service/src/application/service.rs:205-214 | below version 2^63 - 1 the computed value, version and delta fit an i64 |
| `CounterService.CommitMeaning` | services/counter-service/src/infrastructure/libsql_adapter.rs:315-444 | what each of the four outcomes says about the tables left behind: a commit is one new last row with value, version and delta, and the key holds them; a replay returns what the key holds and a conflict finds another operation in it, and neither changes anything; a lost CAS means an event of the counter since the snapshot |
| `CounterService.Service.Attempt` | services/counter-service/src/application/service.rs:200-247 | one pass of the loop with rivals let in between load and commit: the outcome means what CommitMeaning says of the tables the rivals left, and a lost CAS means an event of the counter in the window |
| `CounterService.Service.RunAtomicMutation` | services/counter-service/src/application/service.rs:190-289 | the retry loop: failed attempts leave only what the rivals did and have disjoint windows, each touched; CasConflict iff exactly four failed; a success wrote one row with the value, version and delta returned and stored it under the key, or returns what the key held with delta 0; a conflict found another operation under the key and wrote nothing; without a key it is a success or a CasConflict, and without rivals a success |
| `Projector.PositionSplitsLog` | workers/projector/src/source.rs:40-51 | the position of a sequence splits an ascending log into the rows at or below it and those above |
| `Projector.FetchIsASlice` | workers/projector/src/source.rs:35-65 | a bounded ordered read returns the next rows of the log, as many as the limit allows |
| `Projector.ProjectionIsReplay` | workers/projector/src/readmodels/mod.rs:74-100 | the projection of a well-formed log shows value and version of sequential replay, for exactly the counters that have events |
| `Projector.ProjectionShowsLastOperation` | workers/projector/src/readmodels/mod.rs:74-100 | a projected row carries value, version and operation of the last event of its counter |
| `Projector.UpsertTwice` | workers/projector/src/readmodels/mod.rs:74-100 | reapplying the row applied last changes nothing |
| `Projector.ProjectorWorker.ProcessBatch` | workers/projector/src/main.rs:232-245 | a batch is applied in order, each row once, the checkpoint becomes the larger of its old value and the last sequence, and the count returned is that of the counter events |
| `Projector.ProjectorWorker.ReplayOutbox` | workers/projector/src/main.rs:219-249 | replay terminates, processes the rows after the start once each in order, gives a result independent of any batch size above 0, and ends at max(old checkpoint, last sequence) |
| `Pipeline.RunKeepsInv` | workers/projector/src/main.rs:192-249 | over every interleaving of clients, worker steps, crashes and restarts the projection is that of a log prefix tied to the checkpoint |
| `Pipeline.CheckpointNeverFalls` | workers/projector/src/main.rs:203-211 | the checkpoint never decreases along a run |
| `Pipeline.ProcessedIsAPrefixWithRepeats` | workers/projector/src/main.rs:226-247 | processed rows are a log prefix with only adjacent repeats, at most one per crash of a running worker, and cover everything up to the checkpoint and at most one row beyond it |
| `Pipeline.ProjectionShowsAPrefix` | workers/projector/src/main.rs:219-249 | the projection shows every counter exactly as the processed prefix leaves it |
| `Pipeline.CaughtUpProjectionEqualsTable` | workers/projector/src/main.rs:219-249 | once the checkpoint has reached the end of the outbox the projection has one row per counter, with value and version of the counter table and the operation of the last event, and no other row |
| `Pipeline.WorkerCatchesUp` | workers/projector/src/main.rs:192-211 | a worker that stays up takes at most three steps per row that was waiting or is appended meanwhile, and with none left checkpoint and projection are at the end of the outbox |
| `SurrealRepository.SurrealDbCounterRepository.CommitMutation` | services/counter-service/src/infrastructure/surrealdb_adapter.rs:157-226 | the reads and writes of a commit in sequence are the specified commit |
| `SurrealRepository.CommitAgrees` | services/counter-service/src/infrastructure/surrealdb_adapter.rs:157-226 | one atomic commit gives the same outcome as libSQL and keeps counters, keys and outbox equal |
| `SurrealRepository.RepositoriesAgree` | services/counter-service/src/infrastructure/surrealdb_adapter.rs:157-226 | for every sequence of commands, however stale their snapshots, both repositories give the same outcomes and the same tables at every point |
| `SurrealInterleaving.RunKeepsInv` | services/counter-service/src/infrastructure/surrealdb_adapter.rs:157-226 | over every interleaving of the statements of any number of commits, a version never exceeds the number of counter writes, which is events plus writes not announced yet |
| `SurrealInterleaving.VersionCountsWritesIff` | services/counter-service/src/infrastructure/surrealdb_adapter.rs:173-201 | over every interleaving the stored version equals the number of writes of the counter iff no commit wrote it between the version check and the write of another |
| `SurrealInterleaving.VersionIsEventCountIff` | services/counter-service/src/infrastructure/surrealdb_adapter.rs:173-210 | wherever each commit stands or stopped, the stored version equals the number of events announced or still to be announced iff there was no such overlap; after one it stays behind for good |
| `SurrealInterleaving.UndisturbedIsAtomic` | services/counter-service/src/infrastructure/surrealdb_adapter.rs:157-226 | the statements of one commit with nothing in between are the atomic commit |
| `SurrealInterleaving.OverlapHappens` | services/counter-service/src/infrastructure/surrealdb_adapter.rs:82-121 | a concrete interleaving in which two increments both report success with version 1 and two events are announced |
| `Quota.InMemoryQuotaLedger.ReserveQuota` | packages/commercial/src/quota.rs:107-148 | denied against the wrapped sum of used, reserved and requested, otherwise recorded as Reserved |
| `Quota.LimitKeySharedIff` | packages/commercial/src/quota.rs:190-192 | a pair shares its text key with another pair iff its tenant or capability contains a colon |
| `Quota.KeysOfPlainTenantsDiffer` | packages/commercial/src/quota.rs:190-192 | the key is injective on tenants without a colon |
| `Quota.UsedEqualsCommitted` | packages/commercial/src/quota.rs:150-171 | over every run the running total is the sum of committed reservations modulo 2^64, and exactly that sum while requests stay below 2^64 |
| `Quota.DecisionRightIff` | packages/commercial/src/quota.rs:114-133 | over every run a limited reserve is denied exactly when committed, reserved and requested quantity pass the limit in force, iff that sum fits a u64 or its remainder still passes the limit |
| `Quota.WrapAroundAdmits` | packages/commercial/src/quota.rs:128 | a concrete run in which 2^64 - 1 units pass a limit of one |
| `Quota.LimitInForce` | packages/commercial/src/quota.rs:68-79 | the limit in force under a key is the one set last; there is none iff none was ever set |
| `Quota.ReservationIsAsAsked` | packages/commercial/src/quota.rs:107-187 | over every run an accepted reservation keeps the tenant, capability and quantity of its reserve, and its status is the one the first commit or release after it gave |
| `Quota.SettlementReply` | packages/commercial/src/quota.rs:150-187 | over every run a commit or release is done iff the reservation was made and not settled yet, an invalid transition iff it was settled, not found iff it was never made |
| `Quota.HeldNeverPassesPeakLimit` | packages/commercial/src/quota.rs:107-171 | a pair limited before its first reservation never holds, reserved plus committed, more than the largest limit set so far, as long as none of its own reserves wraps around to within its limit |
| `Quota.WithinPeakIff` | packages/commercial/src/quota.rs:107-171 | a pair with a key of its own, limited before its first reservation, is within the largest limit so far at every point of the run iff none of its reserves wraps around to within the limit in force |
| `SqlQuota.LibSqlQuotaLedger.CommittedUsage` | servers/bff/web-bff/src/commercial.rs:576-595 | the sum of the committed rows of a pair |
| `SqlQuota.LibSqlQuotaLedger.ReserveQuota` | servers/bff/web-bff/src/commercial.rs:600-645 | inserts iff reserved plus committed plus requested is within the limit, which defaults to the largest i64 |
| `SqlQuota.RunsAgree` | servers/bff/web-bff/src/commercial.rs:600-680 | on unambiguous pairs, with limits and quantities in i64 and unlimited pairs holding at most the largest i64, the SQL ledger takes the same decision as the in-memory one on every command of every run and holds the same reservations |
| `SqlQuota.SharedKeySeparatesLedgers` | packages/commercial/src/quota.rs:190-192 | any two pairs under one key have a two-command run on which the ledgers differ |
| `SqlQuota.LedgersAgreeIffUnambiguous` | servers/bff/web-bff/src/commercial.rs:576-680 | the ledgers agree on all runs over a set of pairs iff no two of the pairs share a limit key |
| `SqlQuota.PlainTenantsAreUnambiguous` | packages/commercial/src/quota.rs:190-192 | pairs whose tenants contain no colon never share a limit key, so the ledgers agree on them |
| `Guards.RunKeepsInv` | servers/bff/web-bff/src/commercial.rs:195-306 | over every interleaving of guarded calls, failing ports and dropped calls, each reservation has the status its call prescribes |
| `Guards.ReservationsFollowCalls` | packages/bot-channel/src/dispatch.rs:92-138 | open reservations are exactly those of calls in flight or leaked; a finished call is committed iff its work succeeded and released otherwise |
| `Guards.SettledIsFinal` | packages/commercial/src/quota.rs:150-187 | a settled reservation never changes again in any continuation |
| `Guards.OpenForeverIffLost` | packages/ai/src/invocation.rs:215-272 | a reservation stays open in every continuation of the run iff its call was dropped, or a quota or meter call of it failed, before it was settled |
| `Guards.DropLeaks` | servers/bff/web-bff/src/commercial.rs:291-306 | a BFF call that is begun and dropped keeps its unit reserved in every continuation |
| `Guards.SmoothRunsSettleEverything` | packages/ai/src/invocation.rs:196-272 | with ports that do not fail and calls that are not dropped, open reservations are exactly those of calls in flight |
| `Guards.CommittedIsMeteredPlusPending` | servers/bff/web-bff/src/commercial.rs:245-276 | on a pair only the BFF uses, committed quota equals metered usage plus the commits not metered yet |
| `Guards.UsageEqualsCommittedAtRest` | servers/bff/web-bff/src/commercial.rs:245-276 | with no commit of that pair between quota and meter and no failed meter call, its total usage equals its committed quota |
| `GuardRequests.ReservationsAreAsAsked` | packages/ai/src/invocation.rs:196-216 | over every run each reservation belongs to the action that first began its call, for the pair the caller named and exactly the units it asked for: one for the BFF, the quantity of the route for the bot, max_tokens for the AI |
| `GuardRequests.RejectedIff` | packages/ai/src/invocation.rs:196-216 | over every run a call is rejected, at once and for good, iff the quota port was down or committed plus reserved plus requested units, wrapped to a u64, passed the limit set last |
| `GuardRequests.OverLimitIff` | packages/commercial/src/quota.rs:114-133 | unless the sum wraps around to within the limit, it is the true sum that is compared with the limit set last |
| `GuardRequests.SettledAsReported` | packages/bot-channel/src/dispatch.rs:110-138 | over every run a finished call has committed its reservation iff its work was reported as done and released it otherwise |
| `GuardRequests.UsageIsAsReported` | packages/ai/src/invocation.rs:246-268 | over every run a usage event belongs to a BFF or AI call whose work was reported as done, names the pair of its caller, and counts one unit for the BFF and the reported total tokens for the AI |
| `GuardRequests.MeteredOnceIff` | packages/ai/src/invocation.rs:246-272 | over every run no call is metered twice; a BFF call is metered iff it finished well, an AI call that is not lost iff it got past its meter, a bot call never |
| `Guards.CommercialStack.ReserveCounterWrite` | servers/bff/web-bff/src/commercial.rs:195-230 | the BFF reserve is its step: one unit for the write, rejected if the port is down or the quota is denied |
| `Guards.CommercialStack.Dispatch` | packages/bot-channel/src/dispatch.rs:92-138 | the bot dispatch has the effect of its steps in a row, failing reserve, commit or release included |
| `Guards.CommercialStack.Invoke` | packages/ai/src/invocation.rs:177-272 | the AI invocation has the effect of its steps in a row, failing ports included; it meters before it commits |
| `Guards.CounterWriteGuard.Commit` | servers/bff/web-bff/src/commercial.rs:245-299 | takes the reservation, commits, then meters; a second commit does nothing |
| `Guards.CounterWriteGuard.Release` | servers/bff/web-bff/src/commercial.rs:278-305 | takes the reservation and releases it; a failing release is swallowed |
| `Retry.NewPolicy` | packages/notification/src/retry.rs:10-15 | the attempts of a policy are the larger of the given number and one |
| `Retry.DelayMonotone` | packages/notification/src/retry.rs:25-29 | later attempts never wait less, and the delay is constant from the eleventh on |
| `Retry.DelayDoubles` | packages/notification/src/retry.rs:25-29 | the first delay is the backoff itself and each of the next ten is twice the one before, both up to the longest duration |
| `Delivery.StatusTellsAttempts` | packages/notification/src/delivery.rs:64-100 | between rounds Pending means 0 attempts, Failed 1 to max-1, DeadLettered exactly max, Delivered and stranded 1 to max |
| `Delivery.AttemptsAreSpaced` | packages/notification/src/delivery.rs:82-89 | of two attempts on a job the later has the higher number and starts no sooner than the backoff after the earlier failed |
| `Delivery.FinalJobsStay` | packages/notification/src/outbox.rs:158-177 | delivered, dead-lettered and stranded jobs never change again in any continuation |
| `Delivery.JobsShowTheirLastAttempt` | packages/notification/src/delivery.rs:68-96 | over every run each job was attempted as often as it says and shows its last attempt: Delivered iff it was accepted, DeadLettered iff refused with no attempt left, Failed iff refused before that with a time for the retry, otherwise in progress; the error shown is that of the refusal and a retry is due exactly one delay after it |
| `Delivery.DeadLetteredIff` | packages/notification/src/delivery.rs:79-95 | over every run a job is dead-lettered iff its last attempt was refused and was number max_attempts |
| `Delivery.RoundGrowsLog` | packages/notification/src/delivery.rs:68-97 | a round makes as many attempts as it has claims up to the first that strands, all of them if none does |
| `Delivery.RoundAttempts` | packages/notification/src/delivery.rs:68-97 | the i-th claim of a round is attempted iff no earlier one strands; then it is the i-th attempt made and the job becomes what its own response prescribes, otherwise the job is unchanged |
| `Delivery.DrainingTerminates` | packages/notification/src/delivery.rs:64-100 | for any transport there are at most as many non-empty rounds as enqueued jobs bring attempts, each lowering the remaining budget |
| `Delivery.PassedOverAtMostBacklog` | packages/notification/src/outbox.rs:158-177 | a due job goes unattempted, claimed or not, in at most as many rounds as there are attempts left to jobs created no later than it |
| `Delivery.StrandedIff` | packages/notification/src/delivery.rs:68-96 | some run in a given period leaves a job in progress for ever iff rounds can be cut off in an attempt, or a retry that can fall due in the period has a delay that does not convert or leads past the end of the calendar |
| `DeliveryWorker.InMemoryDeliveryOutbox.DueByAge` | packages/notification/src/outbox.rs:163-174 | exactly the due jobs, each once, oldest first |
| `DeliveryWorker.InMemoryDeliveryOutbox.ClaimDue` | packages/notification/src/outbox.rs:158-177 | at most limit due jobs, oldest first; one is left out only if the batch is full of jobs at least as old |
| `DeliveryWorker.Worker.DeliverJob` | packages/notification/src/delivery.rs:68-96 | one claimed job goes through attempt and mark as specified; a dropped round, a delay that does not convert and a time past the calendar leave it in progress and end the round |
| `DeliveryWorker.Worker.DeliverDue` | packages/notification/src/delivery.rs:64-100 | a round claims oldest first, processes the batch in order until one job ends it, and otherwise returns how many of the claimed jobs it leaves delivered |
| `DeliveryWorker.RoundResultMeaning` | packages/notification/src/delivery.rs:64-100 | a round ends early iff some claimed job strands, for the reason of the first that does; otherwise it returns the number of claimed jobs that are delivered afterwards |
| `Stores.NoSecondStart` | packages/worker-runtime/src/adapters/memory.rs:41-62 | while a key is in progress no start on it succeeds and no eviction removes it, until it is completed or failed; without evictions this is the in-memory store |
| `Stores.StoreShowsLastStatus` | packages/worker-runtime/src/adapters/memory.rs:41-62 | over every run the store shows for each key what its own starts, completions, failures and evictions say, and a start succeeds iff the key is unknown, evicted or failed |
| `Stores.StoreSizeBounded` | packages/worker-runtime/src/adapters/file.rs:101-153 | the store holds at most max(max_size, 4, peak number of simultaneously active keys) entries |
| `Stores.DedupeSizeBounded` | packages/worker-runtime/src/adapters/file.rs:187-208 | the dedupe set holds at most max(max_size, 4) ids, always including the one marked last |
| `Stores.FileIdempotencyStore.EvictIfNeeded` | packages/worker-runtime/src/adapters/file.rs:101-119 | a full store drops a quarter of its size in settled keys, or all settled keys if there are fewer, and never an active one |
| `Stores.FileIdempotencyStore.StartKey` | packages/worker-runtime/src/adapters/file.rs:131-142 | after the eviction, succeeds iff the key is absent or failed |
| `Stores.FileDedupeStore.MarkProcessed` | packages/worker-runtime/src/adapters/file.rs:187-208 | evicts a quarter of a full set, adds the id, and tells whether it was new |
| `RelayWorker.OutboxRelay.PollCycle` | workers/outbox-relay/src/polling/mod.rs:215-255 | the oldest unpublished rows after the checkpoint, or after 0 when it cannot be read, up to the limit, without the deduplicated ones |
| `RelayWorker.OutboxRelay.FilterStarted` | workers/outbox-relay/src/main.rs:89-105 | starts each id that is not completed and keeps those whose start succeeded |
| `RelayWorker.OutboxRelay.PublishBatch` | workers/outbox-relay/src/publish/mod.rs:45-103 | partitions the batch into delivered and failed ids, in order; the bus keeps what it took even when the mirror then fails |
| `RelayWorker.OutboxRelay.SettleAll` | workers/outbox-relay/src/main.rs:117-132 | gives every listed id the same settled status |
| `RelayWorker.OutboxRelay.MarkProcessedById` | workers/outbox-relay/src/polling/mod.rs:258-293 | dedupes the completed ids and advances the checkpoint to each completed sequence above what is read of it, in memory and on disk as the write goes |
| `RelayWorker.OutboxRelay.RunCycle` | workers/outbox-relay/src/main.rs:84-138 | one turn of the loop is the specified cycle, including a failing database mark |
| `RelayGuarantees.AdmitIsExclusive` | workers/outbox-relay/src/main.rs:89-105 | even if the poll repeats ids and whatever is evicted, the list to publish has no duplicates and is exactly what became in progress |
| `RelayGuarantees.CompletedNeverReadmitted` | packages/worker-runtime/src/adapters/memory.rs:41-67 | a store that never evicts never lets a completed id through again |
| `RelayGuarantees.PollIsFetch` | workers/outbox-relay/src/polling/mod.rs:215-255 | between cycles nothing fetched is skipped: a poll returns the oldest unpublished rows and all of them are started |
| `RelayGuarantees.RunKeepsInv` | workers/outbox-relay/src/main.rs:80-140 | between cycles no id is in progress, and every completed or deduplicated id belongs to a published row, whatever fails and however often the worker restarts |
| `RelayGuarantees.CycleMarksRows` | workers/outbox-relay/src/main.rs:107-122 | a cycle publishes exactly the rows it fetched, delivered and marked |
| `RelayGuarantees.CycleMovesCheckpoint` | workers/outbox-relay/src/polling/mod.rs:258-278 | where a cycle leaves the checkpoint: above every completed row unless the write is refused, at a completed row if it moves, back only if it could be read neither before nor after |
| `RelayGuarantees.StoreAfterCycle` | workers/outbox-relay/src/main.rs:107-136 | after a cycle a fetched id is completed, and in the dedupe set, iff it was delivered and marked, and failed otherwise with the reason; any other id has the status it had unless it was evicted |
| `RelayLoss.CycleLosesNothingIff` | workers/outbox-relay/src/polling/mod.rs:258-293 | from a state without loss, a cycle leaves every unpublished row above the checkpoint iff it marks nothing, its checkpoint write is refused, or no failed row precedes a delivered one |
| `RelayLoss.FoundAgainIff` | workers/outbox-relay/src/polling/mod.rs:216-278 | a lost row is in reach again after a cycle iff the cycle published it, or wrote the checkpoint without being able to read it and completed only rows before it; neither happens if the poll read the checkpoint |
| `RelayLoss.LostIff` | workers/outbox-relay/src/main.rs:84-136 | for every row over every run, whatever reads and writes of the checkpoint fail: it is lost iff some cycle or restart overtook it and no later one published it or put the checkpoint before it |
| `RelayLoss.OrderlyRunsLoseNothing` | workers/outbox-relay/src/main.rs:134-136 | as long as no cycle completes a row behind a failed one no row is ever lost, whatever reads, writes and restarts do |
| `RelayLoss.LostForGoodIff` | packages/worker-runtime/src/adapters/file.rs:36-80 | a row is lost in every continuation in which polls can read the checkpoint iff it is lost now and the saved checkpoint is past it too |
| `RelayLoss.RunLosesNothingIff` | workers/outbox-relay/src/main.rs:134-136 | when polls can read the checkpoint and its writes are kept or refused, nothing is lost iff every cycle was orderly |
| `RelayDelivery.LossHappens` | workers/outbox-relay/src/polling/mod.rs:258-293 | a concrete run with two events in which the first is lost in every continuation whose polls can read the checkpoint |
| `RelayDelivery.RunAtLeastOnce` | workers/outbox-relay/src/main.rs:107-136 | every row that is marked published went out on the bus |
| `RelayDelivery.SentInSequence` | workers/outbox-relay/src/publish/mod.rs:85-104 | within a cycle the bus gets the events in the order of their sequence |
| `RelayDelivery.ExactlyOnceIff` | workers/outbox-relay/src/publish/mod.rs:63-80 | over every run the bus holds exactly the published ids, each once, iff everything the bus ever took was mirrored and marked in the same cycle |
| `RelayDelivery.RepeatHappens` | workers/outbox-relay/src/publish/mod.rs:63-80 | a concrete run in which no mark fails and the bus gets an event twice because the mirror failed once |
| `RelayDelivery.RelayDrains` | workers/outbox-relay/src/main.rs:80-140 | from a state without loss, with good cycles and any appends and restarts, at most as many cycles find a backlog as rows were waiting or have been appended, and they leave the rest |
| `RelayCrashes.RunKeepsSound` | workers/outbox-relay/src/main.rs:84-136 | whatever statements of a cycle fail or are never reached, rows stay in order and completed ids are published |
| `RelayCrashes.FetchIff` | workers/outbox-relay/src/polling/mod.rs:91-99 | a row is polled iff it is pending and fewer than limit pending rows come before it |
| `RelayCrashes.InUseIffAbandoned` | packages/worker-runtime/src/adapters/libsql.rs:119-140 | an id is in progress between cycles iff some attempt started it without settling it, answered or not, and the store was kept since |
| `RelayCrashes.NeverPublishedIff` | workers/outbox-relay/src/main.rs:84-136 | with a store that survives crashes, a row is published in no continuation iff it is unpublished and either in progress itself, or behind at least limit unpublished rows in progress with no other unpublished row among them, the checkpoint being before those rows or past the row |
| `RelayCrashes.SentExactlyOnceIff` | workers/outbox-relay/src/publish/mod.rs:45-103 | over every run with cut-offs and lost stores every published row went out, and the bus holds exactly the published ids, each once, iff no attempt failed or was cut off between sending an id and marking it |
| `RelayCrashes.UndisturbedIsCycle` | workers/outbox-relay/src/main.rs:84-136 | an attempt in which nothing is cut off is the relay cycle: same rows, checkpoint and bus |
| `RelayCrashes.CrashStrands` | workers/outbox-relay/src/main.rs:99-132 | a concrete run: one crash between start and settle, and the event is never published |
| `RelayCrashes.CrashBlocks` | workers/outbox-relay/src/polling/mod.rs:91-99 | a concrete run with batches of one: the same crash keeps the next event from ever being published though nothing happened to it |
| `Webhooks.ActiveIffLastWasGrant` | servers/bff/web-bff/src/commercial.rs:376-424 | an entitlement is active iff the last grant or revoke applied for it was a grant, and then it shows the customer of that grant |
| `Webhooks.RowNamesLastGrant` | servers/bff/web-bff/src/commercial.rs:376-424 | there is an entitlement row iff it was ever granted, and it names customer and subscription of the last grant, revoked or not |
| `Webhooks.OutcomeIff` | servers/bff/web-bff/src/billing.rs:201-251 | Duplicate iff accepted but not first, Done iff first, projected and marked; anything but a first delivery changes nothing |
| `Webhooks.RepeatsChangeNothing` | servers/bff/web-bff/src/billing.rs:217-236 | processing with repeats leaves exactly the ledger and entitlements of processing first occurrences only |
| `Webhooks.EntitlementsAreReplay` | servers/bff/web-bff/src/billing.rs:253-282 | the entitlements are the replay of the first deliveries whose projection succeeded, each once |
| `Webhooks.RowTellsFirstDelivery` | servers/bff/web-bff/src/billing.rs:237-306 | for good, the ledger row of an event has its type and is processed iff the mark succeeded and the event was applied, failed iff marked and not applied, received iff not marked; attempts is 1 iff marked |
| `Webhooks.ActiveIffHeardGrant` | servers/bff/web-bff/src/billing.rs:201-251 | for every sequence of deliveries an entitlement is active iff the last first delivery about it that was projected is a grant |
| `Webhooks.LossShowsIff` | servers/bff/web-bff/src/billing.rs:238-250 | whether an entitlement is active differs from what it would be had every projection succeeded, iff the last first delivery about it failed to project and asked for the opposite of the last one projected |
| `Webhooks.FailedEventLeavesNoTrace` | servers/bff/web-bff/src/billing.rs:217-250 | an event whose first projection failed is never applied, however often it is redelivered: the entitlements are those of a history without it |
| `Webhooks.FailedGrantIsLost` | servers/bff/web-bff/src/billing.rs:217-250 | a concrete history: a grant that fails to project and its redelivery, which is a duplicate, leave the customer without access |
| `WebhookHandlers.CreemBillingProvider.HandleWebhook` | servers/bff/web-bff/src/billing.rs:201-251 | the handler with all its error returns is the specified one |
| `WebhookHandlers.StepsAreHandle` | servers/bff/web-bff/src/billing.rs:217-250 | the three statements of a handler in a row leave the ledger and the entitlements that the whole handler leaves, and touch no other handler |
| `WebhookHandlers.RunKeepsInv` | servers/bff/web-bff/src/billing.rs:217-250 | over every interleaving of handlers each id in flight has one owner, and finished rows tell the truth |
| `WebhookHandlers.InterleavedIsSequential` | servers/bff/web-bff/src/billing.rs:201-251 | however handlers interleave or stop, no event is applied twice and the entitlements are those of handling the applied events one after another |
| `WebhookHandlers.NeverAppliedIff` | servers/bff/web-bff/src/billing.rs:217-250 | an event is applied in no continuation of the run, redeliveries included, iff a different event took its id first, its handler was cut off between insert and projection, or its projection failed |
| `WebhookHandlers.CutOffLoses` | servers/bff/web-bff/src/billing.rs:217-238 | a handler cut off after its insert loses the event though no projection failed |

## Left out

- SQL engines, drivers, HTTP, NATS: tables are maps and sequences, statements are atomic steps that succeed unless a parameter says otherwise.
- Database errors in the counter protocol: a failing load, begin or commit is not modelled; a call in which it happens stops at its step.
- The remote Turso backend: its transactions are not serialised, so nothing is claimed for it.
- The direct increment, decrement, reset and upsert of the libSQL repository: the service does not call them, and upsert could store version 0.
- Event envelopes, correlation ids, JSON decoding and the event fields the pipeline does not interpret; an outbox row that does not decode is not modelled.
- The consumers' own in-memory copy of the counters, other read models, and projected_at; the store reads of the projector are taken to succeed.
- The projector's live event-bus tail and its replay manager.
- SurrealInterleaving: versions and event counts are related, not values or the order of events, since an overlapped commit may also announce out of order; a statement that fails ends its commit there, like one that takes no further step.
- Quota: a debug build panics on overflow instead of wrapping.
- SqlQuota: quantities and limits beyond i64, where the SQL cast clamps, are not modelled.
- Guards.CommercialStack.Dispatch: routing, entitlement checks, audit records and disabled mode are left out, as the entitlement check and disabled mode are in Guards.CommercialStack.ReserveCounterWrite, and so are prompts, tools and traces in Guards.CommercialStack.Invoke; they happen before the reservation or have no effect on it. A reserve call that fails is taken to have reserved nothing.
- Guards: the calls run on the in-memory ledger; SqlQuota.RunsAgree carries decisions over to the SQL one.
- Delivery: the worker ignores the per-job maximum (packages/notification/src/delivery.rs:79-83 asks only the policy), so the model does too; one worker at a time, since claiming does not mark jobs. A payload that does not serialise is a cut-off round. The panic on a time past the calendar is taken to leave the outbox behind, as unwinding does; a release build aborts.
- Relay: several relays at once, and the retry_count filter, which no code in the relay can trigger. In the cycle model a cycle is not cut off, idempotency and dedupe calls do not fail, evictions of the dedupe set are a separate action that may forget any ids, and checkpoint reads and writes succeed or fail for a whole poll or acknowledgement; RelayCrashes lifts these restrictions for a store that does not evict.
- Webhooks: signature computation, JSON field fallbacks and the choice of the event id; timestamps; the entitlement resolver and its fallback list.
- Stores: the fallback of a corrupt checkpoint file; complete and fail on the idempotency store are covered by the lemmas about runs; two workers on the libSQL idempotency store, whose check and write are separate statements.
- Config, bootstrap, health servers, sessions, feature flags, generators and validators.
