# A verified model of the Reliar outbox

Reliar publishes messages at least once: a message is inserted into a PostgreSQL table in the
application's own transaction, any number of dispatchers lease rows from that table, publish them to
a broker and write the outcome back. This project models that protocol and the codecs around it, and
proves what they promise. `dafny verify dfyconfig.toml` checks all of it.

## How it is laid out

| file | what it models |
|---|---|
| `Table.dfy`, `TableRuns.dfy`, `Recovery.dfy` | the `outbox` table as a state machine over its thirteen SQL statements, safety over every run of statements by anybody, and over every run exactly what each statement takes, writes and removes |
| `Store.dfy`, `Purge.dfy`, `DeadLetters.dfy`, `DeadLetterRuns.dfy` | the store that issues the statements: claim selection, `acquire`, `fail`, the bounded purge and the caller's loop around it, dead-letter pages and the keyset walk, also over a table that anybody's statements change between two pages |
| `DispatcherState.dfy`, `WorkerSpec.dfy`, `WorkerProgress.dfy`, `Worker.dfy` | the dispatcher: what it tracks; the worker loop turn by turn and over whole runs, against a store that may return anything; what each turn and a drain achieve; and the loop with its shutdown as a program over mutable collections |
| `Protocol.dfy`, `ProtocolSafety.dfy`, `ProtocolRuns.dfy`, `CallEffects.dfy` | any number of dispatchers over one table: calls that commit late, lost replies, crashes, panics, expired leases, operators; its invariant; what it means for runs |
| `WorkerActs.dfy`, `WorkerTiming.dfy` | the three views of the dispatcher are of one: the loop's turns are sequences of the system's local acts, and the rows whose leases are timed are the rows the loop tracks |
| `DeliveryInvariant.dfy`, `SecondDelivery.dfy`, `DeliveredTwice.dfy` | when a message can be delivered twice: what every step keeps about deliveries, what a second delivery takes, and a run with one |
| `ProtocolBudget.dfy`, `BudgetLimits.dfy` | the attempt budget: exactly when it holds, what is enough for it, and a run of the program that exceeds it |
| `LeaseTiming.dfy`, `LeaseKeeping.dfy` | lease renewal over time, and over one clock with the table: what a worker tracks it keeps |
| `Backoff.dfy`, `RetryDelays.dfy` | the retry policy, and its delay from the computation to the claim that has to wait it out |
| `Headers.dfy`, `Envelopes.dfy`, `WireNames.dfy`, `Mapper.dfy`, `MapperTheorems.dfy`, `Projection.dfy`, `MapperCode.dfy` | custom headers, the envelope and its NATS projection: what is written and read, the round trip, the projection by its literal header names, and the loops over hash maps |
| `RowCodec.dfy`, `StagedRows.dfy` | the envelope as a table row, and what the table's statements leave of it |
| `PublishBatch.dfy` | the windowed batch publisher |

Modelling decisions:

- Every statement carries its own reading of the clock and nothing relates two readings, so the
  table theorems hold for clocks that stall or jump and for statements that take effect late. A purge
  names ids chosen at any earlier moment and acts only on those that pass its repeated predicate.
- `SKIP LOCKED` is an arbitrary set of rows removed before the first `limit` are taken.
- The worker guard matches the worker id only, so two claims of a row by one worker are told apart by
  the number of the `acquire` call that made them; ledgers count claim instances, not messages.
- A message is delivered when a publish task's call returns `Ok`; what an aborted task may have sent is not counted.
- A store call is issued, commits one statement at a time at any later moment or never, and is
  answered `Ok` only after its last statement. `acquire` and `fail` are two statements each.
- Times and durations are nanoseconds; a statement sees a duration in whole milliseconds
  (`Basics.Interval`), and a `timestamptz` column holds whole microseconds, cut towards 2000-01-01
  (`RowCodec.Timestamptz`).
- UUID, decimal, RFC 3339 and header-name rules of libraries are function parameters (`Mapper.Formats`)
  with the law that parsing undoes printing; JSON columns are typed values.
- What the worker loop cannot decide itself (which `select!` branch fires, store replies, how tasks end)
  is a script it is given.

## Where the code and its documentation differ

- A repeated `fail` is documented as idempotent (`docs/decisions/0014-shutdown-drain-and-run-error-policy.md`,
  line 68). It is, until the same worker claims the row again: `TableRuns.RepeatedFailExactly` says when it
  takes effect a second time, `TableRuns.RepeatedFailCanCountTwice` and
  `BudgetLimits.BudgetCanBeExceeded` give runs in which one failure is counted twice, the second of them
  past `max_attempts`. `ProtocolBudget.BudgetExactly` is the exact condition for the budget to hold.
- The backoff formula `min(max_delay, base * 2^attempts)` (`crates/reliar-outbox/src/retry.rs`, line 30)
  does not hold for all parameters, since `2^attempts` saturates at 32 bits: `Backoff.CappedFormula` is the
  exact condition, `Backoff.FormulaCanFail` a policy outside it.
- A delay that is "never zero (given `base > 0`)" (`crates/reliar-outbox/src/retry.rs`, line 31) can be zero, by
  jitter or by a cap of zero: `Backoff.DelayCanBeZero` has a policy of each kind, and
  `Backoff.NeverZeroExactly` the exact condition. In the table, which keeps whole milliseconds, a retry
  is immediate more often: `Backoff.NeverImmediateExactly`.
- Duplicates are documented to come from three windows, all of them a lease that lapses or a drain that ends
  (`crates/reliar-outbox/src/dispatcher.rs`, lines 10-39), retried outcome writes being "not a fourth
  duplicate window" (line 432). There is a fourth: a `fail` whose reply was lost, retried after the same
  worker claimed the row anew, ends the new lease while its publish is in flight
  (`DeliveredTwice.FourthWindow`). `SecondDelivery.TwiceOnlyAfterLostLease` says that with it the list is
  complete, `SecondDelivery.DocumentedWindows` that without it the documented list is.
- `docs/decisions/0026-nats-header-projection.md`, section 6, names exactly two normalisations of the wire round
  trip. There is a third: an empty header map comes back as none (`MapperTheorems.EmptyHeaderMapIsLost`);
  `MapperTheorems.ComesBackExactly` has all three.
- A lease with a fraction of a millisecond is granted rounded down but renewed as if it were not:
  `LeaseTiming.FractionalLeaseCanLapse`. Below 2 ms the renewal tick is floored at 1 ms and a validated
  configuration can renew too late: `LeaseTiming.ShortLeaseCanLapse`. The exact conditions are
  `LeaseTiming.RenewalsBeatExpiryExactly` and `LeaseTiming.RenewsInTimeExactly`.

## Model

| member | source | states |
|---|---|---|
| `OutboxTable.ApplyKeepsValid` | crates/reliar-store-postgres/migrations/0001_outbox.sql:61-68 | no statement, whoever issues it and whenever, violates a table constraint; a leased row is neither published nor dead and its `locked_by` and `attempts` are those of its latest claim |
| `TableRuns.ReachableIsValid` | crates/reliar-store-postgres/src/store.rs:542-895 | every table reached by any run of statements satisfies these invariants |
| `TableRuns.LockedMeansHeld` | crates/reliar-store-postgres/src/store.rs:785-822 | `locked_by = w` means `w` made the row's most recent claim and the lease has been open ever since |
| `TableRuns.LockedUntilIsLastGrant` | crates/reliar-store-postgres/src/store.rs:703-721 | `locked_until` is what the last claim or renewal of the row granted |
| `TableRuns.TakeoverOnlyAfterExpiry` | crates/reliar-store-postgres/src/store.rs:793-808 | a still-leased row is claimed only at a reading strictly after its last granted `locked_until` |
| `TableRuns.GuardedWriteExcludesOthers` | crates/reliar-store-postgres/src/store.rs:660-776 | a guarded write takes effect only if nobody claimed the row since its worker did and the lease was never closed |
| `TableRuns.NoLoss` | crates/reliar-store-postgres/src/store.rs:576-658 | every message ever inserted is in the table or was deleted while published or dead |
| `TableRuns.GoneForGood` | crates/reliar-store-postgres/src/store.rs:884-895 | a message that has left the table never comes back |
| `TableRuns.PublishedIsFrozen` | crates/reliar-store-postgres/src/store.rs:663-682 | a published row is never changed by any statement and is removed only by the published purge, past its retention |
| `TableRuns.ImmutableColumns` | crates/reliar-store-postgres/src/store.rs:625-629 | no run changes what a row was inserted with: `expires_at`, `sequence`, type, tenant or decodability |
| `TableRuns.SweepRecheckIsEnough` | crates/reliar-store-postgres/src/store.rs:630-658 | the expiry sweep's shorter re-check is sound: every row it kills is expired, pending and unleased when it is killed, whatever ran since its ids were chosen |
| `TableRuns.CompleteIsIdempotent` | crates/reliar-store-postgres/src/store.rs:663-682 | once `complete` took effect, repeating it or sending a failure is a no-op on the row |
| `TableRuns.ClosedUntilReclaimed` | crates/reliar-store-postgres/src/store.rs:660-776 | once a worker's closing write took effect the row is not that worker's again until it claims it again |
| `TableRuns.FailIsIdempotent` | crates/reliar-store-postgres/src/store.rs:723-776 | once either half of `fail` took effect, every guarded write of that worker is a no-op on the row until it claims the row again |
| `TableRuns.RepeatedFailExactly` | crates/reliar-outbox/src/dispatcher.rs:973-995 | a repeated `fail` takes effect again if and only if the same worker has claimed the row since and still holds that lease |
| `TableRuns.RepeatedFailCanCountTwice` | crates/reliar-outbox/src/dispatcher.rs:973-995 | a five-statement run in which one failed publish is counted twice |
| `TableRuns.AttemptsAreOutcomes` | crates/reliar-store-postgres/src/store.rs:663-776 | in every reachable table `attempts` is the number of outcomes written since the row was inserted or last retried by an operator - never of claims, renewals, releases or sweeps |
| `TableRuns.RetryWaits` | crates/reliar-store-postgres/src/store.rs:723-748 | after a failure with a delay no worker claims the row before the failure's reading plus the delay, unless it is rescheduled |
| `TableRuns.ReleaseUndoesClaim` | crates/reliar-store-postgres/src/store.rs:684-701 | in every run a release that takes effect leaves the row exactly as its worker's claim found it, whatever ran in between |
| `TableRuns.RetryRevives` | crates/reliar-store-postgres/src/store.rs:861-880 | after an operator's retry the row has a fresh budget and, until some statement touches it, is claimable exactly until it expires |
| `TableRuns.ExpiryIsHonoured` | crates/reliar-store-postgres/src/store.rs:798-798 | a message is claimed only at readings before the `expires_at` it was inserted with |
| `Recovery.EligibleExactly` | crates/reliar-store-postgres/src/store.rs:795-800 | in every run a row is up for a claim if and only if it is neither published nor dead, its delay is over, it has not expired, no session has it locked, and the last lease granted on it was closed or has ended strictly before |
| `Recovery.ClaimedExactly` | crates/reliar-store-postgres/src/store.rs:785-822 | a claim takes exactly the free rows with fewer than `limit` free ones ahead of them by `available_at` and `sequence`; each is its worker's for the lease, and no other row changes |
| `Recovery.LapsedRowIsRecovered` | crates/reliar-store-postgres/src/store.rs:795-800 | no message is stuck with a worker that is gone: once the last lease granted on it has ended, a claim with room for every free row takes it, whatever its attempts |
| `Recovery.GuardedWriteExactly` | crates/reliar-store-postgres/src/store.rs:660-776 | what each worker-guarded write makes of a row it names, column by column, if its worker has held the row without a break since a claim of its own; otherwise nothing |
| `Recovery.SweptOrRetriedExactly` | crates/reliar-store-postgres/src/store.rs:630-658 | what the expiry sweep and the operator's retry make of a row, and exactly of which |
| `Recovery.RemovedExactly` | crates/reliar-store-postgres/src/store.rs:576-628 | a row leaves the table if and only if a purge names it and it has been published, or dead, for longer than that purge's retention, or an operator removes it while dead |
| `Recovery.DeadIsKept` | crates/reliar-store-postgres/src/store.rs:603-628 | until an operator retries it a dead row does not change, and only a purge past its retention or an operator who names it removes it |
| `Store.SelectFirst` | crates/reliar-store-postgres/src/store.rs:795-804 | the claim's order and limit: whatever is left behind is available later than every chosen row, or at the same time with a higher sequence, and nothing is left if fewer than the limit were chosen |
| `Store.FirstEligibleIsUnique` | crates/reliar-store-postgres/src/store.rs:795-804 | the claimed set is determined by the table, the clock and the skipped rows |
| `Store.DecodeRows` | crates/reliar-store-postgres/src/store.rs:943-957 | each claimed row is handed out once or reported as poisoned, under the `attempts` the claim saw |
| `Store.SplitByOutcome` | crates/reliar-store-postgres/src/store.rs:1035-1063 | one pass picks for every row named an item of its kind, and nothing else |
| `Store.OutboxStore.Execute` | crates/reliar-store-postgres/src/store.rs:542-895 | every statement the store issues extends a run of table statements, so the theorems about runs are about this object |
| `Store.OutboxStore.ClaimRows` | crates/reliar-store-postgres/src/store.rs:785-822 | the claim takes the first free rows - pending, due, unexpired, not under a running lease - up to the limit, leases exactly these to its worker, and returns them; the new table is the claim statement applied |
| `Store.OutboxStore.Acquire` | crates/reliar-store-postgres/src/store.rs:908-995 | `Ok` means claim and poison sweep both applied: the first free rows are leased for the lease in whole milliseconds if they decode and dead as undecodable if not, nothing else changes, and the records are the decodable ones; an error leaves the table as it was or only the claim applied; exactly these statements were issued |
| `Store.OutboxStore.Fail` | crates/reliar-store-postgres/src/store.rs:1030-1121 | a row its worker holds and a retry names is free, counted, and due at the reading plus that item's delay in whole milliseconds; one that only deaths name is dead for the reason of one of them; no other row changes; an error leaves nothing or only the retries applied; a statement with nothing to write is not issued; the count is of rows affected |
| `Store.OutboxStore.OnRows` | crates/reliar-store-postgres/src/store.rs:1000-1025 | a statement on listed rows is issued and applied; for an empty list no statement is issued and nothing changes |
| `Store.OutboxStore.Complete` | crates/reliar-store-postgres/src/store.rs:1000-1025 | exactly the listed rows the worker holds are published at the reading, counted and free, and they are the count |
| `Store.OutboxStore.Release` | crates/reliar-store-postgres/src/store.rs:1125-1145 | exactly the listed rows the worker holds are free, otherwise unchanged |
| `Store.OutboxStore.ExtendLease` | crates/reliar-store-postgres/src/store.rs:1149-1180 | exactly the listed rows the worker holds are leased anew, for the lease in whole milliseconds |
| `Store.OutboxStore.RetryDead` | crates/reliar-store-postgres/src/store.rs:1403-1422 | exactly the listed dead rows are pending again from the reading on, with no attempts |
| `Store.OutboxStore.PurgeDead` | crates/reliar-store-postgres/src/store.rs:1425-1444 | exactly the listed dead rows are gone |
| `Store.OutboxStore.PurgeRows` | crates/reliar-store-postgres/src/store.rs:576-658 | a bounded statement acts on as many matching rows as there are up to its limit, and on nothing else |
| `Store.OutboxStore.Purge` | crates/reliar-store-postgres/src/store.rs:1183-1254 | one pass: a row goes only if it has been published, or dead, for longer than the retention asked for; a row that stays is as it was, or had expired and is now dead; a statement short of its limit left no such row; the report counts what each did |
| `Store.PurgeUntilComplete` | crates/reliar-outbox/src/store.rs:329-333 | with a positive batch and no other writer the caller's loop ends; its tables and reports are pass after pass up to the first complete one, no more passes than twice the live rows plus the terminal ones and one, and then nothing the request names is left at the last pass's readings: no row published or dead beyond its retention, none expired |
| `Purge.PurgeProgress` | crates/reliar-store-postgres/src/store.rs:576-658 | each row a purge statement acts on lowers twice the live rows plus the terminal rows by one |
| `Purge.PassProgress` | crates/reliar-store-postgres/src/store.rs:1183-1254 | a pass makes one unit of progress per row reported, and after a complete report nothing the request names is left although the sweep has made new dead rows |
| `Purge.PassRow` | crates/reliar-store-postgres/src/store.rs:1183-1254 | what one pass does to any one row, in terms of its columns, the retentions and the report |
| `Purge.PassesEnd` | crates/reliar-outbox/src/store.rs:329-333 | any sequence of passes up to the first complete report is that short and leaves the table that clean |
| `Purge.LaterPassKeepsClean` | crates/reliar-store-postgres/src/store.rs:1190-1216 | a later statement of a pass undoes nothing an earlier one achieved |
| `DeadLetters.ListDead` | crates/reliar-store-postgres/src/store.rs:1356-1398 | a page lists dead rows of the type, tenant and time asked for beyond the cursor, each among the decodable or the poisoned, up to the capped limit; a matching row is left out only if the page is full and its sequence higher; the cursor is the last sequence scanned, exactly when the page is full |
| `DeadLetters.Walk` | crates/reliar-store-postgres/src/store.rs:827-857 | following the cursor ends with every page but the last full, lists nothing twice, in ascending sequence, every row that is dead and matches at every page read, and only rows that matched when read, whatever happens to the table between pages |
| `DeadLetterRuns.TablesOfRun` | crates/reliar-store-postgres/migrations/0001_outbox.sql:14-14 | the tables a walk reads at later and later moments of any run of statements keep what the walk relies on: each row its sequence and decodability, no sequence twice |
| `DeadLetterRuns.WalkRun` | crates/reliar-store-postgres/src/store.rs:827-857 | over any run of anybody's statements between its pages the walk lists every row that is dead and matches throughout, nothing twice, and reads at most one page more than rows were ever inserted |
| `DispatcherState.PublishedNeverReleased` | crates/reliar-outbox/src/dispatcher.rs:861-887 | an instance observed published is never released, failed or dropped as panicked |
| `DispatcherState.GivenUpPastLease` | crates/reliar-outbox/src/dispatcher.rs:1008-1023 | an outcome write is given up on exactly when it is older than the lease |
| `DispatcherState.ValidateSharedExactly` | crates/reliar-outbox/src/dispatcher.rs:262-294 | the configurations the dispatcher accepts, and what each error says |
| `DispatcherState.RecordAllKeeps` | crates/reliar-outbox/src/dispatcher.rs:1238-1311 | recording a batch of results moves each instance from outstanding to exactly one other place and drops nothing else |
| `DispatcherState.RecordedExactly` | crates/reliar-outbox/src/dispatcher.rs:1275-1310 | after recording, the unwritten lists hold what they held and exactly the new successes and failures with their outcomes, stamped with the present |
| `DispatcherState.StopStartingKeeps` | crates/reliar-outbox/src/dispatcher.rs:684-716 | cancellation accounts for every instance, the unstarted ones as released |
| `DispatcherState.FinishDrainKeeps` | crates/reliar-outbox/src/dispatcher.rs:861-887 | the end of the drain accounts for every instance, unwritten successes as left to their lease |
| `WorkerSpec.RoundGuarantee` | crates/reliar-outbox/src/dispatcher.rs:940-1000 | an unwritten outcome leaves its list only because the store accepted it or it is older than the lease, even if the round is cut short; a full round leaves nothing older than the lease |
| `WorkerLoop.Retain` | crates/reliar-outbox/src/dispatcher.rs:1008-1023 | the retain loop splits the list into the kept and the given up |
| `WorkerLoop.AbortUnstarted` | crates/reliar-outbox/src/dispatcher.rs:687-699 | the retain loop at cancellation keeps the started tasks and returns the others' rows |
| `WorkerSpec.JoinsTell` | crates/reliar-outbox/src/dispatcher.rs:1251-1311 | each task that ended yields one entry: its own claim with success or the policy's decision at that claim's attempts, or a join error |
| `WorkerSpec.TurnKeeps` | crates/reliar-outbox/src/dispatcher.rs:538-680 | every turn keeps every instance in exactly one place, leaves nothing pending, keeps the permits within their bound whatever the store returned, and adds exactly the batch received |
| `WorkerSpec.TraceIsReady` | crates/reliar-outbox/src/dispatcher.rs:1188-1199 | at every loop head of every run all this holds, with a store that may return any batch |
| `WorkerSpec.TraceReceives` | crates/reliar-outbox/src/dispatcher.rs:618-661 | at every loop head the books hold exactly the batches of the turns taken |
| `WorkerSpec.HonestLoadBounded` | crates/reliar-outbox/src/dispatcher.rs:545-559 | with a store that honours the batch size the rows held never exceed `max_in_flight`, at any loop head of any run |
| `WorkerSpec.DrainSettles` | crates/reliar-outbox/src/dispatcher.rs:806-890 | however the drain goes it ends with everything received settled exactly once, published instances never as released, and receives nothing |
| `WorkerProgress.TurnAchieves` | crates/reliar-outbox/src/dispatcher.rs:538-680 | what a turn gets done: a task that ended leaves and its success, or its failure with what the policy decides, is to be written; a waiting task starts if there is a permit; what the store accepts is settled; a batch is tracked whenever there was room to ask for it; and nothing else changes |
| `WorkerProgress.StopsExactly` | crates/reliar-outbox/src/dispatcher.rs:600-655 | the loop ends with a turn exactly when a write of something unwritten, or an `acquire` there was room for, is refused for good |
| `WorkerProgress.DrainWaits` | crates/reliar-outbox/src/dispatcher.rs:820-838 | a drain goes through its turns, joining whatever they resolve, until they run out, nothing is in flight, or a write was refused for good; exactly the tasks no turn resolved are left |
| `WorkerProgress.DrainAchieves` | crates/reliar-outbox/src/dispatcher.rs:806-890 | a task that resolves while the drain waits ends as it resolved: a success is seen and, if its round's write was accepted, completed; a failure whose write was accepted is failed; a panic is recorded; only unresolved tasks are handed back unresolved |
| `WorkerProgress.LastRoundAchieves` | crates/reliar-outbox/src/dispatcher.rs:842-856 | unless a write was refused for good, what the last round gets accepted is neither left to its lease nor handed back |
| `WorkerProgress.PermitsCount` | crates/reliar-outbox/src/dispatcher.rs:1188-1199 | the permits in use are the number of tasks that publish |
| `WorkerLoop.Collect` | crates/reliar-outbox/src/dispatcher.rs:1251-1265 | the batch of joined entries, task by task |
| `WorkerLoop.Worker.SpawnReady` | crates/reliar-outbox/src/dispatcher.rs:757-795 | every pending row becomes one task and nothing stays pending |
| `WorkerLoop.Worker.RecordPublishResults` | crates/reliar-outbox/src/dispatcher.rs:1238-1311 | the loop's effect on outstanding rows and both unwritten lists |
| `WorkerLoop.Worker.RetryUnwrittenOutcomes` | crates/reliar-outbox/src/dispatcher.rs:940-1000 | the effect of one round, and when it ends the worker |
| `WorkerLoop.Worker.TakeTurn` | crates/reliar-outbox/src/dispatcher.rs:538-680 | the program's iteration is the specified turn, and stops the loop exactly when that does |
| `WorkerLoop.Run` | crates/reliar-outbox/src/dispatcher.rs:482-748 | the program runs the specified turns of its script and the specified shutdown; at each loop head permits and - if the store honours the batch size - load are bounded; when it returns exactly the batches of the turns taken have been received and all of them are settled; it returns the rows it hands to `release`; under a valid policy the whole run is a sequence of the composed system's local acts; and `run` fails exactly if a turn stopped the loop or the drain met a write refused for good |
| `WorkerLoop.Drain` | crates/reliar-outbox/src/dispatcher.rs:806-890 | the program's drain waits for what resolves and deals with it as it resolved, hands back only tasks no turn resolved and failures not written, never what was seen published, receives nothing, settles everything that is left, and fails exactly on a write refused for good |
| `WorkerActs.TurnIsActs` | crates/reliar-outbox/src/dispatcher.rs:538-680 | every turn of the loop is a sequence of the composed system's local acts and of calls with their replies, each enabled when it is taken |
| `WorkerActs.RunIsActs` | crates/reliar-outbox/src/dispatcher.rs:482-748 | so is every whole run of the worker, with its shutdown |
| `WorkerActs.ExchangeIsTwoSteps` | crates/reliar-outbox/src/dispatcher.rs:940-1000 | a call and its reply are two steps of the system: one issues it, and from any later state in which the store has finished it, or at any time with an error, the other ends it with the same effect |
| `WorkerActs.MovesKeep` | crates/reliar-outbox/src/dispatcher.rs:1188-1199 | what every act keeps - each instance in one place, permits within bound - every such sequence keeps |
| `ProtocolSafety.StepKeepsInv` | crates/reliar-outbox/src/dispatcher.rs:482-748 | every step of the composed system keeps its invariant |
| `ProtocolSafety.RenewsWhatIsTracked` | crates/reliar-outbox/src/dispatcher.rs:554-559 | a renewal names exactly the instances the worker tracks, with multiplicity |
| `ProtocolSafety.CancelReleasesWhatIsRecorded` | crates/reliar-outbox/src/dispatcher.rs:684-716 | the release at cancellation names exactly the instances accounted as released |
| `ProtocolSafety.FinishReleasesWhatIsRecorded` | crates/reliar-outbox/src/dispatcher.rs:874-887 | so does the release at the end of the drain |
| `ProtocolRuns.PublishedOnlyAfterDelivery` | crates/reliar-outbox/src/dispatcher.rs:1205-1209 | in every interleaving a row is published only if a publish of that message returned Ok earlier |
| `ProtocolRuns.AtLeastOnce` | docs/decisions/0007-at-least-once-publication.md:1-43 | in every run every message ever inserted is in the table, or some publish of it returned Ok, or it was deleted as dead |
| `SecondDelivery.TwiceOnlyAfterLostLease` | crates/reliar-outbox/src/dispatcher.rs:10-39 | in every interleaving two successful publishes of one message are of two claims, and between the claims the first one's lease was lost: it lapsed, a write issued for another claim ended it, or it was released after its delivery, the success unseen |
| `SecondDelivery.DocumentedWindows` | crates/reliar-outbox/src/lib.rs:25-37 | if every closing write lands under the claim it was issued for, only a lapsed lease and such a release are left |
| `DeliveredTwice.FourthWindow` | crates/reliar-outbox/src/dispatcher.rs:427-436 | a run of one validated worker that delivers a message twice although nobody crashes or shuts down and no reading reaches the end of even the first lease |
| `DeliveryInvariant.StepKeepsDelivery` | crates/reliar-outbox/src/dispatcher.rs:861-887 | every step keeps: a delivered instance is nowhere a failure could be, one handed to `fail` or `release` is in nobody's flight again, a failed one was never delivered, and what is received is what claims returned |
| `ProtocolRuns.EveryInstanceInOnePlace` | crates/reliar-outbox/src/dispatcher.rs:940-1023 | in every reachable state every instance a dispatcher received is in exactly one place, and a published one not among the released, failed or panicked |
| `ProtocolRuns.OneOwner` | crates/reliar-outbox/src/dispatcher.rs:618-661 | in a run's whole history, across crashes and restarts, a claim instance is received by one dispatcher, once |
| `ProtocolRuns.Backpressure` | crates/reliar-outbox/src/dispatcher.rs:545-559 | at every reachable state nothing is pending and the rows held do not exceed `max_in_flight` |
| `ProtocolRuns.PermitsBounded` | crates/reliar-outbox/src/dispatcher.rs:1188-1199 | at every moment of every run of a dispatcher against a store that may return anything, at most `max_in_flight` tasks hold a permit |
| `ProtocolRuns.TableOfRun` | crates/reliar-store-postgres/src/store.rs:542-895 | the table's history under the composed system, state by state and statement by statement, is a run of table statements, so every theorem about those applies, also between two moments |
| `ProtocolRuns.PublishedStaysPublished` | crates/reliar-store-postgres/src/store.rs:663-682 | in every interleaving a published row is never changed again |
| `CallEffects.CommitWrites` | crates/reliar-store-postgres/src/store.rs:660-776 | whenever a call commits, and whether or not its caller still waits, each row its worker holds gets what the call asked for - published, delayed by the item's delay, killed for its reason, freed or leased anew - and no other row changes |
| `CallEffects.AsksFor` | crates/reliar-outbox/src/dispatcher.rs:545-559 | each request names exactly the unwritten outcomes, and an `acquire` asks for what is free of `max_in_flight`, up to the batch size |
| `ProtocolBudget.PolicyDecides` | crates/reliar-outbox/src/retry.rs:154-171 | what the backoff computes is a decision the system model allows and the budget relies on |
| `ProtocolBudget.BudgetExactly` | crates/reliar-outbox/src/retry.rs:153-171 | in every run whose workers share one policy, all rows of all states are within budget if and only if every failure written fits the row it is written to: a retry leaves an attempt, a death by exhaustion takes the last |
| `ProtocolBudget.OwnClaimsFit` | crates/reliar-outbox/src/dispatcher.rs:1286-1286 | failures written under the claims they were decided for fit |
| `ProtocolBudget.AttemptBudget` | crates/reliar-outbox/src/retry.rs:153-171 | so with one shared policy and each failure written under its own claim, live rows have attempts to spare, `attempts` never exceeds `max_attempts`, and a row dies exhausted only at `max_attempts` |
| `BudgetLimits.BudgetCanBeExceeded` | crates/reliar-outbox/src/dispatcher.rs:973-995 | without that, a run in which every decision is the one the policy computes, nobody crashes and no lease lapses, but two replies are lost, leaves a live row with `max_attempts` attempts |
| `LeaseTiming.RenewsInTimeExactly` | crates/reliar-outbox/src/dispatcher.rs:504-507 | at every loop head of every run every tracked row was last covered less than a lease ago, if and only if one period and one store call fit in a lease |
| `LeaseTiming.WorstIs` | crates/reliar-outbox/src/dispatcher.rs:504-507 | the latest a renewal starts: half the lease, at least a millisecond, and a store call begun just before |
| `LeaseTiming.RenewalsBeatExpiryExactly` | crates/reliar-outbox/src/dispatcher.rs:577-579 | every renewal that commits beats the expiry it extends if and only if one period and two store calls fit in the lease as granted |
| `LeaseKeeping.TrackedRowsAreKept` | crates/reliar-outbox/src/dispatcher.rs:554-583 | over one clock with any statements of anybody in between, if that holds and renewals land, nobody but the worker touches a row it tracks until it closes the lease itself, and until then the row is its own in the table |
| `LeaseKeeping.NoTakeoverWhileTracked` | crates/reliar-store-postgres/src/store.rs:793-808 | no other worker claims a tracked row unless the tracking worker's own outcome write has taken effect on it |
| `LeaseKeeping.ValidatedKeepsRows` | crates/reliar-outbox/src/dispatcher.rs:286-294 | tracked rows are so kept under every validated configuration with a lease of whole milliseconds, at least two, and a store timeout of at most a quarter of it |
| `WorkerTiming.RenewalCoversTracked` | crates/reliar-outbox/src/dispatcher.rs:551-583 | a renewal's statement names exactly the rows the worker tracks, and is the one the timing is about |
| `WorkerTiming.HeldIsTracked` | crates/reliar-outbox/src/dispatcher.rs:538-680 | at every loop head of every run of the worker loop the rows whose leases are timed are the rows it tracks |
| `WorkerTiming.TrackedRenewedInTime` | crates/reliar-outbox/src/dispatcher.rs:504-507 | so every row the worker loop tracks was last covered less than a lease ago, under the exact condition for that |
| `WorkerTiming.TrackedByLoopIsKept` | crates/reliar-outbox/src/dispatcher.rs:554-583 | and is kept: nobody else touches it until the worker's own write has closed its lease, if renewals land and fit |
| `LeaseTiming.ValidatedRenewsInTime` | crates/reliar-outbox/src/dispatcher.rs:286-294 | the validated bound gives the first for leases of at least 2 ms; a quarter-lease timeout and whole milliseconds give the second |
| `LeaseTiming.ShortLeaseCanLapse` | crates/reliar-outbox/src/dispatcher.rs:504-504 | a validated configuration with a shorter lease that renews too late |
| `LeaseTiming.FractionalLeaseCanLapse` | crates/reliar-store-postgres/src/store.rs:1159-1159 | a validated configuration whose lease is rounded down and lapses before its renewal lands |
| `Backoff.CappedFormula` | crates/reliar-outbox/src/retry.rs:166-168 | the saturating computation equals the documented formula if and only if the exponent has not saturated, the cap is within the saturated product, or the base is zero |
| `Backoff.FormulaCanFail` | crates/reliar-outbox/src/retry.rs:30-30 | a valid policy for which it does not |
| `Backoff.CappedIsMonotone` | crates/reliar-outbox/src/retry.rs:166-168 | the delay before jitter never decreases with attempts, never exceeds the cap, and is positive exactly when base and cap are |
| `Backoff.DelayWithinJitter` | crates/reliar-outbox/src/retry.rs:131-150 | the real product of delay and jitter factor stays within the jitter fraction of the capped delay |
| `Backoff.DrawsAt` | crates/reliar-outbox/src/retry.rs:131-150 | the lowest, the middle and the highest draw give the capped delay less its jitter, itself, and plus its jitter |
| `Backoff.DrawSpreadsDelay` | crates/reliar-outbox/src/retry.rs:131-150 | in between the delay grows by the same amount for the same distance of the draw |
| `Backoff.DelayGrowsWithDraw` | crates/reliar-outbox/src/retry.rs:131-150 | strictly, unless jitter or cap is zero |
| `Backoff.NeverZeroExactly` | crates/reliar-outbox/src/retry.rs:166-170 | the computed delay is never zero, whatever is drawn, if and only if the capped delay less its jitter is more than half a nanosecond |
| `Backoff.NeverImmediateExactly` | crates/reliar-store-postgres/src/store.rs:1044-1047 | a retry is never immediate in the table, whatever is drawn, if and only if the capped delay less its jitter rounds to a millisecond at least |
| `Backoff.DelayCanBeZero` | crates/reliar-outbox/src/retry.rs:31-31 | two valid policies that compute a zero delay, one by jitter and one by a zero cap |
| `Backoff.NextVerdict` | crates/reliar-outbox/src/retry.rs:154-171 | permanent failures die at once, transient ones exactly when this outcome uses up the budget, and otherwise wait for a delay within half a nanosecond of the real product, which is within the jittered cap |
| `RetryDelays.WrittenDelayIsWaitedOut` | crates/reliar-store-postgres/src/store.rs:723-748 | a retry written to a row its worker holds makes it available at the reading plus the item's delay in whole milliseconds, and no claim takes it before, unless it is rescheduled |
| `RetryDelays.BackoffIsWaitedOut` | crates/reliar-outbox/src/retry.rs:154-171 | end to end: after a transient failure no claim before the capped exponential delay less its jitter has passed since the failure was written, to the millisecond |
| `Basics.IntervalIsWholeMillis` | crates/reliar-store-postgres/src/store.rs:1044-1047 | durations reach SQL rounded down to the millisecond, clamped to 64 bits |
| `Headers.HeaderSet.Insert` | crates/reliar-core/src/headers.rs:52-85 | an entry is accepted exactly when it is valid and there is room or its key is present; a refused one changes nothing; an error names what is wrong |
| `Headers.ContentTypeExactly` | crates/reliar-core/src/content_type.rs:34-56 | a content type is a text of which the first slash has something before and after it |
| `WireNames.ClassifyIs` | crates/reliar-transport-nats/src/mapper.rs:351-393 | a name classifies as a framework header exactly when it is that header's name up to case |
| `WireNames.CustomKeyClass` | crates/reliar-transport-nats/src/mapper.rs:178-186 | a custom key `encode` lets through decodes as custom or as the trace header it spells, and nothing else |
| `MapperCode.EncodeCustom` | crates/reliar-transport-nats/src/mapper.rs:107-161 | the custom headers are accepted and written the same in every order |
| `MapperCode.Encode` | crates/reliar-transport-nats/src/mapper.rs:99-167 | for every iteration order, `encode` succeeds exactly on the encodable envelopes and yields their one wire form |
| `MapperCode.InsertFrameworkHeaders` | crates/reliar-transport-nats/src/mapper.rs:194-320 | the framework headers override what is there, and fail exactly when one is not expressible or has a line break |
| `MapperCode.Scan` | crates/reliar-transport-nats/src/mapper.rs:421-499 | for every iteration order, the scan fails exactly on header maps with a duplicate framework header or a rejected custom one, and yields the same slots and custom headers |
| `MapperCode.DecodeMessage` | crates/reliar-transport-nats/src/mapper.rs:169-171 | `decode` does not depend on the order of the header map |
| `MapperTheorems.DecodeEncoded` | crates/reliar-transport-nats/src/mapper.rs:504-662 | what `encode` wrote never has a duplicate header and decodes, unless the type name is empty, to the envelope's normal form |
| `Projection.WireProjection` | crates/reliar-transport-nats/src/mapper.rs:194-320 | for every encodable envelope, under each of the seventeen literal header names exactly the one value of its field, or no header |
| `Projection.CustomOnWire` | crates/reliar-transport-nats/src/mapper.rs:107-161 | every other custom header is written as it is, and nothing else is written |
| `Projection.EncodableExactly` | crates/reliar-transport-nats/src/mapper.rs:99-167 | `encode` accepts exactly the envelopes without line breaks and with printable times whose custom headers are not under `Nats-`, have legal names, and spell a trace header at most once or in vain |
| `Projection.DecodeProjection` | crates/reliar-transport-nats/src/mapper.rs:569-662 | each field of a decoded envelope is the text of the header that is its literal name up to case, and unset exactly when there is none |
| `Projection.CustomFromWire` | crates/reliar-transport-nats/src/mapper.rs:421-499 | its custom headers are exactly the names that are none of the seventeen and not under `reliar-` or `Nats-`, with their first values |
| `Projection.ScannableExactly` | crates/reliar-transport-nats/src/mapper.rs:421-499 | a header map scans exactly when each framework header occurs once, in any case, with one value, and at most 32 custom ones are valid |
| `Projection.DecodesExactly` | crates/reliar-transport-nats/src/mapper.rs:504-600 | it then decodes exactly when the four identity headers are there and well formed and so is whatever else is there |
| `Projection.RejectionTells` | crates/reliar-transport-nats/src/mapper.rs:504-600 | a refusal names an identity header that is missing, or a header whose text is malformed |
| `MapperTheorems.ReencodesTheSame` | crates/reliar-transport-nats/src/mapper.rs:99-172 | encoding the decoded envelope gives the same wire message |
| `MapperTheorems.ComesBackExactly` | crates/reliar-transport-nats/src/mapper.rs:569-662 | the envelope itself comes back if and only if its header map is not present but empty, no custom header spells a trace header, and its dedup key is not its own id |
| `MapperTheorems.EmptyHeaderMapIsLost` | docs/decisions/0026-nats-header-projection.md:129-135 | an envelope that meets every other condition and loses its empty header map |
| `RowCodec.EpochMillisRoundTrip` | crates/reliar-store-postgres/src/records.rs:61-78 | every instant comes back rounded down to the millisecond, also before 1970 |
| `RowCodec.TimestamptzIsWhole` | crates/reliar-store-postgres/migrations/0001_outbox.sql:30-30 | a stored instant is a whole microsecond less than one away from the given one, and equal to it exactly when that is whole |
| `RowCodec.DeadReasonCodec` | crates/reliar-store-postgres/src/records.rs:127-155 | the two directions of the dead-reason codec are inverse and nothing else decodes |
| `RowCodec.ReadHeaders` | crates/reliar-store-postgres/src/records.rs:272-287 | the headers column reads exactly when all its values are strings and the entries are a valid header map, in any order |
| `RowCodec.DecodeRow` | crates/reliar-store-postgres/src/records.rs:192-321 | a row decodes exactly when each column does, to the record its columns spell; an error names a column that is at fault |
| `RowCodec.DecodableExactly` | crates/reliar-store-postgres/src/records.rs:192-321 | which rows decode, column by column |
| `RowCodec.StagedColumns` | crates/reliar-store-postgres/src/store.rs:351-450 | which field of an envelope goes to which column, and which to the JSON metadata |
| `RowCodec.RowRoundTrip` | crates/reliar-store-postgres/src/store.rs:351-450 | a staged envelope reads back, with any readable state and its sequence, creation time and last error, but for the millisecond of `sent_at`, the microsecond of `expires_at`, an empty header map and the content type it was staged with |
| `StagedRows.ReachableStateReads` | crates/reliar-store-postgres/src/records.rs:296-309 | whatever state any run of statements leaves a row in is readable |
| `StagedRows.StagedIsNeverPoisoned` | crates/reliar-store-postgres/src/records.rs:192-321 | an envelope staged into the table is never poisoned: in every later table that has its row, whatever anybody did to it, the claim finds it decodable and reading it gives the envelope back, as it is stored, with the row's state |
| `RowCodec.StoredExactly` | crates/reliar-store-postgres/src/store.rs:351-450 | it comes back unchanged exactly when it has no empty header map, `sent_at` is a whole millisecond and `expires_at` a whole microsecond |
| `RowCodec.TruncateLastError` | crates/reliar-store-postgres/src/records.rs:168-181 | at most 2048 bytes; a longer text keeps the longest prefix of whole characters that leaves room for the marker |
| `PublishBatch.Build` | crates/reliar-transport-nats/src/publisher.rs:88-108 | a publisher exists exactly for a positive depth, a positive timeout and no zero payload limit |
| `PublishBatch.PublishBatch` | crates/reliar-transport-nats/src/publisher.rs:169-215 | one result per envelope, each its own verdict in its own place, for every mix of failures; and on the connection exactly the sends and awaits of the windows the prepared envelopes are chopped into |
| `PublishBatch.BatchIsBounded` | crates/reliar-transport-nats/src/publisher.rs:196-207 | a batch sends every prepared envelope once and in order, and at no moment has more than `depth` acks outstanding |
| `PublishBatch.SentAndAwaitedExactly` | crates/reliar-transport-nats/src/publisher.rs:169-215 | an envelope is sent exactly when it can be prepared, and its ack awaited exactly when its send went out |
| `PublishBatch.ChopCovers` | crates/reliar-transport-nats/src/publisher.rs:199-201 | the windows hold everything prepared, once and in order, none empty or deeper than `depth` |
| `PublishBatch.WindowsIsCeiling` | crates/reliar-transport-nats/src/publisher.rs:196-207 | the number of windows is the ceiling of prepared over depth |
| `PublishBatch.SortByIndex` | crates/reliar-transport-nats/src/publisher.rs:209-210 | sorting by index keeps exactly the same tagged results |

## Left out

- Tokio scheduling, atomics, tracing and metrics: only permits, task resolution and the worker's clock are kept, as steps.
- sqlx, connection pools, `search_path`, `statement_timeout` wrapping, migrations and schema checks: a statement applies atomically or fails.
- `stats` and lag, settings builders, environment loaders, serde and redacted output, error classification tables: each is settled by reading one branch.
- Routing policy, staging wrapper and subject resolution: easy members beside the codec they use.
- `attempts` is unbounded in the table model; the 32-bit column and `u32` are not, nor are timestamps that overflow when a delay is added.
- `last_error` and `updated_at` are not part of the table model; what is written to `last_error` for a poisoned row is bounded by `RowCodec.TruncateLastError`.
- Liveness: nothing says an outcome write is eventually retried, since another branch can always win; `WorkerSpec.RoundGuarantee` says what a round achieves.
- The worker loop's pacing (`next_poll_at`, `next_outcome_retry_at`): turns come when the script says; `LeaseTiming` has time, but only for renewals.
- The abort of an unstarted task is atomic with the test that it has not started.
- The `f64` representation and the overflow panic in `Duration::mul_f64`: the jittered delay is the real product, rounded to the nearest nanosecond, ties to even.
- Whitespace and size limits of NATS headers on the wire: a wire message is its header map and payload; `wire_len` and the `max_payload` guard are a prepare failure.
- The seventeen framework inserts, one after another in the source, are one loop over their table in `MapperCode.InsertFrameworkHeaders`.
