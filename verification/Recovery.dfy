/** Exactly which rows a claim takes, and what leaves the table, over whole runs: in terms of the columns
    and of what earlier statements granted. */
module Recovery {
  import opened Basics
  import opened OutboxTable
  import opened TableRuns

  // ---------------------------------------------------------------- which rows are eligible

  lemma LastGrantIsUnique(dbs: seq<Db>, sts: seq<Stmt>, g: nat, h: nat, k: nat, id: MessageId, w: WorkerId)
    requires |dbs| == |sts| + 1 && k <= |sts|
    requires LastGrant(dbs, sts, g, k, id, w) && LastGrant(dbs, sts, h, k, id, w)
    ensures g == h
  {
  }

  /** The last lease granted on the row has ended strictly before `t`. */
  ghost predicate LapsedBefore(dbs: seq<Db>, sts: seq<Stmt>, k: nat, id: MessageId, w: WorkerId, t: Time)
    requires |dbs| == |sts| + 1 && k <= |sts|
  {
    exists g: nat :: LastGrant(dbs, sts, g, k, id, w) && sts[g].now + sts[g].lease < t
  }

  /** `locked_until` has passed exactly when the last grant has ended. */
  lemma LockEndsWithGrant(dbs: seq<Db>, sts: seq<Stmt>, k: nat, id: MessageId, w: WorkerId, t: Time)
    requires Run(dbs, sts) && k <= |sts| && id in dbs[k].rows && dbs[k].rows[id].lockedBy == Some(w)
    ensures dbs[k].rows[id].lockedUntil.Some?
    ensures dbs[k].rows[id].lockedUntil.value < t <==> LapsedBefore(dbs, sts, k, id, w, t)
  {
    LockedUntilIsLastGrant(dbs, sts, k, id, w);
    var g: nat :| LastGrant(dbs, sts, g, k, id, w) && dbs[k].rows[id].lockedUntil == Some(sts[g].now + sts[g].lease);
    forall h: nat | LastGrant(dbs, sts, h, k, id, w) ensures h == g {
      LastGrantIsUnique(dbs, sts, g, h, k, id, w);
    }
  }

  /** A row is up for a claim at `t` exactly when it is neither published nor dead, its delay is over, it
      has not expired, nobody else's session has it, and it is free - never granted since it was last
      closed, or granted last for a lease that ended before `t`. */
  lemma EligibleExactly(dbs: seq<Db>, sts: seq<Stmt>, k: nat, id: MessageId, t: Time, skipped: set<MessageId>)
    requires Run(dbs, sts) && k <= |sts| && id in dbs[k].rows
    ensures var r := dbs[k].rows[id];
            id in Eligible(dbs[k].rows, t, skipped) <==>
              && id !in skipped && r.publishedAt.None? && r.deadAt.None? && r.availableAt <= t
              && (r.expiresAt.None? || t < r.expiresAt.value)
              && (r.lockedBy.None? || LapsedBefore(dbs, sts, k, id, r.lockedBy.value, t))
  {
    ReachableIsValid(dbs, sts, k);
    var r := dbs[k].rows[id];
    if r.lockedBy.Some? {
      LockEndsWithGrant(dbs, sts, k, id, r.lockedBy.value, t);
    }
  }

  // ---------------------------------------------------------------- which of them a claim takes

  /** The candidates ahead of `m`: available earlier, or at the same time with a lower sequence. */
  function Ahead(rows: map<MessageId, Row>, candidates: set<MessageId>, m: MessageId): set<MessageId>
    requires candidates <= rows.Keys && m in rows
  {
    set b | b in candidates &&
        (rows[b].availableAt < rows[m].availableAt ||
            (rows[b].availableAt == rows[m].availableAt && rows[b].sequence < rows[m].sequence))
  }

  lemma SubsetSize<T>(a: set<T>, b: set<T>)
    requires a <= b
    ensures |a| <= |b|
  {
    assert b == a + (b - a);
  }

  /** The first `limit` candidates are those with fewer than `limit` ahead of them. */
  lemma FirstExactly(rows: map<MessageId, Row>, eligible: set<MessageId>, limit: nat, ids: set<MessageId>, m: MessageId)
    requires FirstEligible(rows, eligible, limit, ids) && DistinctSequences(rows) && m in eligible
    ensures m in ids <==> |Ahead(rows, eligible, m)| < limit
  {
    var ahead := Ahead(rows, eligible, m);
    if m in ids {
      assert ahead <= ids - {m};
      SubsetSize(ahead, ids - {m});
    } else {
      assert ids <= ahead;
      SubsetSize(ids, ahead);
    }
  }

  /** Row `id` of table `k` can be claimed at `t`: the conditions of `EligibleExactly`. */
  ghost predicate Free(dbs: seq<Db>, sts: seq<Stmt>, k: nat, id: MessageId, t: Time)
    requires |dbs| == |sts| + 1 && k <= |sts| && id in dbs[k].rows
  {
    var r := dbs[k].rows[id];
    && r.publishedAt.None? && r.deadAt.None? && r.availableAt <= t
    && (r.expiresAt.None? || t < r.expiresAt.value)
    && (r.lockedBy.None? || LapsedBefore(dbs, sts, k, id, r.lockedBy.value, t))
  }

  /** Exactly which rows a claim takes, in every run, and what it does to them: the free rows it does not
      skip, if fewer than `limit` of those are ahead of them; each is then its worker's, for its lease. */
  lemma ClaimedExactly(dbs: seq<Db>, sts: seq<Stmt>, k: nat, id: MessageId, free: set<MessageId>)
    requires Run(dbs, sts) && k < |sts| && sts[k].Claim? && id in dbs[k].rows
    requires forall m :: m in free <==> m in dbs[k].rows && m !in sts[k].skipped && Free(dbs, sts, k, m, sts[k].now)
    ensures id in dbs[k + 1].rows
    ensures id in sts[k].ids <==> id in free && |Ahead(dbs[k].rows, free, id)| < sts[k].limit
    ensures dbs[k + 1].rows[id] ==
              if id in sts[k].ids then
                dbs[k].rows[id].(lockedBy := Some(sts[k].worker), lockedUntil := Some(sts[k].now + sts[k].lease))
              else dbs[k].rows[id]
  {
    var eligible := Eligible(dbs[k].rows, sts[k].now, sts[k].skipped);
    forall m | m in dbs[k].rows ensures m in eligible <==> m in free {
      EligibleExactly(dbs, sts, k, m, sts[k].now, sts[k].skipped);
    }
    assert eligible == free;
    assert StepAt(dbs, sts, k);
    ReachableIsValid(dbs, sts, k);
    Across(dbs, sts, k, id);
    if id in free {
      FirstExactly(dbs[k].rows, eligible, sts[k].limit, sts[k].ids, id);
    }
  }

  /** No message is stuck with a worker that is gone: once the last lease granted on it has ended, the next
      claim with room for every free row takes it, unless it was published, died or expired, or its
      delay is not over, or another session has it locked. */
  lemma LapsedRowIsRecovered(dbs: seq<Db>, sts: seq<Stmt>, k: nat, g: nat, id: MessageId, free: set<MessageId>)
    requires Run(dbs, sts) && k < |sts| && sts[k].Claim? && id in dbs[k].rows && id !in sts[k].skipped
    requires forall m :: m in free <==> m in dbs[k].rows && m !in sts[k].skipped && Free(dbs, sts, k, m, sts[k].now)
    requires |free| <= sts[k].limit
    requires g < k && Grants(dbs, sts, g, id) && forall j | g < j < k :: !Grants(dbs, sts, j, id)
    requires sts[g].now + sts[g].lease < sts[k].now
    requires var r := dbs[k].rows[id];
             && r.publishedAt.None? && r.deadAt.None? && r.availableAt <= sts[k].now
             && (r.expiresAt.None? || sts[k].now < r.expiresAt.value)
    ensures id in sts[k].ids && id in dbs[k + 1].rows && dbs[k + 1].rows[id].lockedBy == Some(sts[k].worker)
  {
    var r := dbs[k].rows[id];
    if r.lockedBy.Some? {
      LockedUntilIsLastGrant(dbs, sts, k, id, r.lockedBy.value);
      var h: nat :| LastGrant(dbs, sts, h, k, id, r.lockedBy.value) &&
          r.lockedUntil == Some(sts[h].now + sts[h].lease);
      assert h == g;
    }
    assert Free(dbs, sts, k, id, sts[k].now);
    ClaimedExactly(dbs, sts, k, id, free);
    AheadIsFewer(dbs[k].rows, free, id);
  }

  lemma AheadIsFewer(rows: map<MessageId, Row>, candidates: set<MessageId>, m: MessageId)
    requires candidates <= rows.Keys && m in candidates
    ensures |Ahead(rows, candidates, m)| < |candidates|
  {
    assert Ahead(rows, candidates, m) <= candidates - {m};
    SubsetSize(Ahead(rows, candidates, m), candidates - {m});
  }

  // ---------------------------------------------------------------- what a worker's write does

  /** `w` has held the row without a break since some claim of its own. */
  ghost predicate Holding(dbs: seq<Db>, sts: seq<Stmt>, k: nat, id: MessageId, w: WorkerId)
    requires |dbs| == |sts| + 1 && k <= |sts|
  {
    exists h: nat :: HeldSince(dbs, sts, h, k, id, w)
  }

  lemma HoldingIsLocked(dbs: seq<Db>, sts: seq<Stmt>, k: nat, id: MessageId, w: WorkerId)
    requires Run(dbs, sts) && k <= |sts| && id in dbs[k].rows
    ensures Holding(dbs, sts, k, id, w) <==> dbs[k].rows[id].lockedBy == Some(w)
  {
    if dbs[k].rows[id].lockedBy == Some(w) {
      LockedMeansHeld(dbs, sts, k, id, w);
    }
  }

  /** What a worker's write makes of a row it names and holds, column by column; of any other row it makes
      nothing, in any run. */
  lemma GuardedWriteExactly(dbs: seq<Db>, sts: seq<Stmt>, k: nat, id: MessageId)
    requires Run(dbs, sts) && k < |sts| && Guarded(sts[k]) && id in dbs[k].rows
    ensures id in dbs[k + 1].rows
    ensures var r, r' := dbs[k].rows[id], dbs[k + 1].rows[id];
            var free := r.(lockedBy := None, lockedUntil := None);
            if !Holding(dbs, sts, k, id, sts[k].worker) then r' == r
            else
              match sts[k]
              case Complete(ids, _, now) =>
                r' == if id in ids then free.(publishedAt := Some(now), attempts := r.attempts + 1) else r
              case FailRetry(delays, _, now) =>
                r' == if id in delays then free.(attempts := r.attempts + 1, availableAt := now + delays[id]) else r
              case FailDead(reasons, _, now) =>
                r' == if id in reasons then
                        free.(attempts := r.attempts + 1, deadAt := Some(now), deadReason := Some(reasons[id]))
                      else r
              case Release(ids, _) => r' == if id in ids then free else r
              case Extend(ids, _, now, lease) => r' == if id in ids then r.(lockedUntil := Some(now + lease)) else r
              case PoisonSweep(ids, _, now) =>
                r' == if id in ids then free.(deadAt := Some(now), deadReason := Some(Undecodable)) else r
              case _ => true
  {
    Across(dbs, sts, k, id);
    HoldingIsLocked(dbs, sts, k, id, sts[k].worker);
  }

  /** What the sweep and the operator make of a row, column by column. */
  lemma SweptOrRetriedExactly(dbs: seq<Db>, sts: seq<Stmt>, k: nat, id: MessageId)
    requires Run(dbs, sts) && k < |sts| && (sts[k].ExpirySweep? || sts[k].RetryDead?) && id in dbs[k].rows
    ensures id in dbs[k + 1].rows
    ensures var r, r' := dbs[k].rows[id], dbs[k + 1].rows[id];
            var free := r.(lockedBy := None, lockedUntil := None);
            match sts[k]
            case ExpirySweep(ids, now) =>
              r' == if id in ids && r.publishedAt.None? && r.deadAt.None?
                        && (r.lockedBy.None? || LapsedBefore(dbs, sts, k, id, r.lockedBy.value, now)) then
                      free.(deadAt := Some(now), deadReason := Some(Expired))
                    else r
            case RetryDead(ids, now) =>
              r' == if id in ids && r.deadAt.Some? then
                      free.(deadAt := None, deadReason := None, availableAt := now, attempts := 0)
                    else r
            case _ => true
  {
    Across(dbs, sts, k, id);
    var r := dbs[k].rows[id];
    if r.lockedBy.Some? && sts[k].ExpirySweep? {
      LockEndsWithGrant(dbs, sts, k, id, r.lockedBy.value, sts[k].now);
    }
  }

  // ---------------------------------------------------------------- what leaves the table

  /** The three ways out of the table. */
  predicate MayRemove(st: Stmt, id: MessageId, r: Row) {
    || (st.PurgePublished? && id in st.ids && r.publishedAt.Some? && r.publishedAt.value + st.retention < st.now)
    || (st.PurgeDeadRetention? && id in st.ids && r.deadAt.Some? && r.deadAt.value + st.retention < st.now)
    || (st.PurgeDead? && id in st.ids && r.deadAt.Some?)
  }

  /** A row leaves the table exactly when it is named by a purge and has been published, or dead, for longer
      than that purge's retention - or when an operator removes it while it is dead. */
  lemma RemovedExactly(dbs: seq<Db>, sts: seq<Stmt>, k: nat, id: MessageId)
    requires Run(dbs, sts) && k < |sts| && id in dbs[k].rows
    ensures id !in dbs[k + 1].rows <==> MayRemove(sts[k], id, dbs[k].rows[id])
  {
    Across(dbs, sts, k, id);
  }

  /** Statement `j` removed the row, which was dead since `since`. */
  ghost predicate RemovedDead(sts: seq<Stmt>, j: nat, id: MessageId, since: Time)
    requires j < |sts|
  {
    || (sts[j].PurgeDead? && id in sts[j].ids)
    || (sts[j].PurgeDeadRetention? && id in sts[j].ids && since + sts[j].retention < sts[j].now)
  }

  /** A dead letter is kept: until an operator retries it, nothing changes it and nothing but a purge past
      its retention, or an operator who names it, removes it. */
  lemma {:induction false} DeadIsKept(dbs: seq<Db>, sts: seq<Stmt>, i: nat, k: nat, id: MessageId)
    requires Run(dbs, sts) && i <= k <= |sts| && id in dbs[i].rows && dbs[i].rows[id].deadAt.Some?
    requires forall j | i <= j < k :: !(sts[j].RetryDead? && id in sts[j].ids)
    ensures id in dbs[k].rows ==> dbs[k].rows[id] == dbs[i].rows[id]
    ensures id !in dbs[k].rows ==>
              exists j: nat :: i <= j < k && RemovedDead(sts, j, id, dbs[i].rows[id].deadAt.value)
  {
    if i < k {
      DeadIsKept(dbs, sts, i, k - 1, id);
      Across(dbs, sts, k - 1, id);
      if id in dbs[k - 1].rows {
        if id !in dbs[k].rows {
          RemovedExactly(dbs, sts, k - 1, id);
          assert RemovedDead(sts, k - 1, id, dbs[i].rows[id].deadAt.value);
        }
      } else {
        ReachableIsValid(dbs, sts, i);
        UsedGrows(dbs, sts, i, k - 1);
      }
    }
  }
}
