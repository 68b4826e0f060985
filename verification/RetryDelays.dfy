/** From the retry policy to the table: a failed message is not claimed before the backoff its policy
    computed has passed. */
module RetryDelays {
  import opened Basics
  import opened Backoff
  import opened DispatcherState
  import opened OutboxTable
  import opened Protocol
  import opened TableRuns

  /** Statement `i` writes the retries picked from `items`, and `m`'s is `f`. */
  ghost predicate WritesRetry(sts: seq<Stmt>, i: nat, items: seq<FailedMessage>,
                              picked: map<MessageId, FailedMessage>, w: WorkerId, now: Time, m: MessageId,
                              f: FailedMessage)
    requires i < |sts|
  {
    Picks(items, true, picked) && sts[i] == RetryStmt(picked, w, now) && m in picked && picked[m] == f
  }

  /** What a written retry leaves of a row its worker holds, and what that means for every claim to come:
      none before the written reading plus the item's delay, in whole milliseconds. */
  lemma WrittenDelayIsWaitedOut(dbs: seq<Db>, sts: seq<Stmt>, i: nat, k: nat, items: seq<FailedMessage>,
                                picked: map<MessageId, FailedMessage>, w: WorkerId, now: Time, m: MessageId,
                                f: FailedMessage)
    requires Run(dbs, sts) && i < k < |sts| && WritesRetry(sts, i, items, picked, w, now, m, f)
    requires m in dbs[i].rows && dbs[i].rows[m].lockedBy == Some(w)
    requires Claims(sts[k], m) && forall j | i < j < k :: !Reschedules(dbs, sts, j, m)
    ensures m in dbs[i + 1].rows && dbs[i + 1].rows[m].availableAt == now + Interval(f.outcome.delay)
    ensures sts[k].now >= now + Interval(f.outcome.delay)
  {
    assert Touches(sts[i], m, dbs[i].rows[m]);
    Across(dbs, sts, i, m);
    RetryWaits(dbs, sts, i, k, m);
  }

  /** The policy's own bound on what it computes: the capped delay less its jitter, up to half a nanosecond. */
  lemma DecidedDelay(b: ExponentialBackoff, attempts: nat, unit: real)
    requires Validate(b) == None && 0.0 <= unit <= 1.0 && attempts + 1 < b.maxAttempts
    ensures Next(b, attempts, Transient, unit).Retry?
    ensures Next(b, attempts, Transient, unit).delay as real >= Scale(Capped(b, attempts), 1.0 - b.jitter) - 0.5
  {
    NextVerdict(b, attempts, Transient, unit);
  }

  /** End to end: a message whose publish failed transiently at `attempts` is claimed again only after
      `base * 2^attempts`, capped, less the jitter, has passed since the failure was written - to the
      millisecond, as long as the delay's milliseconds fit in 64 bits. */
  lemma BackoffIsWaitedOut(dbs: seq<Db>, sts: seq<Stmt>, i: nat, k: nat, items: seq<FailedMessage>,
                           picked: map<MessageId, FailedMessage>, w: WorkerId, now: Time, m: MessageId,
                           f: FailedMessage, b: ExponentialBackoff, unit: real)
    requires Run(dbs, sts) && i < k < |sts| && WritesRetry(sts, i, items, picked, w, now, m, f)
    requires m in dbs[i].rows && dbs[i].rows[m].lockedBy == Some(w)
    requires Claims(sts[k], m) && forall j | i < j < k :: !Reschedules(dbs, sts, j, m)
    requires Validate(b) == None && 0.0 <= unit <= 1.0 && f.claim.attempts + 1 < b.maxAttempts
    requires f.outcome == Next(b, f.claim.attempts, Transient, unit)
    requires f.outcome.Retry? && f.outcome.delay < 0x8000_0000_0000_0000 * 1_000_000
    ensures (sts[k].now - now) as real > Scale(Capped(b, f.claim.attempts), 1.0 - b.jitter) - 1_000_000.5
  {
    WrittenDelayIsWaitedOut(dbs, sts, i, k, items, picked, w, now, m, f);
    DecidedDelay(b, f.claim.attempts, unit);
    IntervalIsWholeMillis(f.outcome.delay);
  }
}
