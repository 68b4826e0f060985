/** Properties of whole runs of the outbox table: any statements, in any order, by any number of
    workers, operators and purges, starting from the empty table. */
module TableRuns {
  import opened Basics
  import opened OutboxTable

  ghost predicate StepAt(dbs: seq<Db>, sts: seq<Stmt>, i: nat)
    requires i < |sts| && |dbs| == |sts| + 1
  {
    Enabled(dbs[i], sts[i]) && dbs[i + 1] == Apply(dbs[i], sts[i])
  }

  ghost predicate Run(dbs: seq<Db>, sts: seq<Stmt>) {
    && |dbs| == |sts| + 1
    && dbs[0] == EMPTY
    && forall i: nat | i < |sts| :: StepAt(dbs, sts, i)
  }

  lemma {:induction false} ReachableIsValid(dbs: seq<Db>, sts: seq<Stmt>, k: nat)
    requires Run(dbs, sts) && k <= |sts|
    ensures Valid(dbs[k])
  {
    if k > 0 {
      ReachableIsValid(dbs, sts, k - 1);
      assert StepAt(dbs, sts, k - 1);
      ApplyKeepsValid(dbs[k - 1], sts[k - 1]);
    }
  }

  lemma ExtendRun(dbs: seq<Db>, sts: seq<Stmt>, st: Stmt) returns (dbs': seq<Db>, sts': seq<Stmt>)
    requires Run(dbs, sts) && Enabled(dbs[|sts|], st)
    ensures dbs' == dbs + [Apply(dbs[|sts|], st)] && sts' == sts + [st] && Run(dbs', sts')
  {
    dbs', sts' := dbs + [Apply(dbs[|sts|], st)], sts + [st];
    forall i: nat | i < |sts'| ensures StepAt(dbs', sts', i) {
      if i < |sts| {
        assert StepAt(dbs, sts, i);
      }
    }
  }

  // ---------------------------------------------------------------- one step, one row

  /** `id`'s row across one step of a run: inserted, deleted, rewritten or kept. */
  lemma Across(dbs: seq<Db>, sts: seq<Stmt>, k: nat, id: MessageId)
    requires Run(dbs, sts) && k < |sts|
    ensures Valid(dbs[k])
    ensures dbs[k].used <= dbs[k + 1].used
    ensures id in dbs[k].rows ==>
              if Touches(sts[k], id, dbs[k].rows[id]) then
                if Deletes(sts[k]) then id !in dbs[k + 1].rows
                else id in dbs[k + 1].rows && dbs[k + 1].rows[id] == Rewrite(sts[k], id, dbs[k].rows[id])
              else
                id in dbs[k + 1].rows && dbs[k + 1].rows[id] == dbs[k].rows[id]
    ensures id in dbs[k + 1].used && id !in dbs[k].used ==> id in dbs[k + 1].rows
    ensures id !in dbs[k].rows && id in dbs[k + 1].rows ==>
              id !in dbs[k].used && sts[k].Insert? && sts[k].id == id && dbs[k + 1].rows[id] == sts[k].row &&
                  FreshRow(sts[k].row)
    ensures sts[k].Claim? && id in sts[k].ids ==> id in dbs[k].rows && Claimable(dbs[k].rows[id], sts[k].now)
  {
    ReachableIsValid(dbs, sts, k);
    assert StepAt(dbs, sts, k);
  }

  predicate Claims(st: Stmt, id: MessageId) {
    st.Claim? && id in st.ids
  }

  /** A worker-guarded write: every statement with `locked_by = $worker` in its WHERE clause. */
  predicate Guarded(st: Stmt) {
    st.Complete? || st.FailRetry? || st.FailDead? || st.Release? || st.Extend? || st.PoisonSweep?
  }

  // ---------------------------------------------------------------- leases

  /** Statement `i` claimed the row for `w`, and from then up to state `k` the row has been locked
      by `w` without a break and without another claim of any kind. */
  ghost predicate HeldSince(dbs: seq<Db>, sts: seq<Stmt>, i: nat, k: nat, id: MessageId, w: WorkerId)
    requires |dbs| == |sts| + 1 && k <= |sts|
  {
    && i < k
    && Claims(sts[i], id) && sts[i].worker == w
    && (forall j | i < j <= k :: id in dbs[j].rows && dbs[j].rows[id].lockedBy == Some(w))
    && (forall j | i < j < k :: !Claims(sts[j], id))
  }

  /** `locked_by = w` means `w` made the row's most recent claim and nothing has closed it since. */
  lemma {:induction false} LockedMeansHeld(dbs: seq<Db>, sts: seq<Stmt>, k: nat, id: MessageId, w: WorkerId)
    requires Run(dbs, sts) && k <= |sts|
    requires id in dbs[k].rows && dbs[k].rows[id].lockedBy == Some(w)
    ensures exists i: nat :: HeldSince(dbs, sts, i, k, id, w)
  {
    if k > 0 {
      Across(dbs, sts, k - 1, id);
      if Claims(sts[k - 1], id) {
        assert HeldSince(dbs, sts, k - 1, k, id, w);
      } else {
        LockedMeansHeld(dbs, sts, k - 1, id, w);
        var i: nat :| HeldSince(dbs, sts, i, k - 1, id, w);
        assert HeldSince(dbs, sts, i, k, id, w);
      }
    }
  }

  /** Statement `g` is the last to set the row's `locked_until` before state `k`. */
  ghost predicate LastGrant(dbs: seq<Db>, sts: seq<Stmt>, g: nat, k: nat, id: MessageId, w: WorkerId)
    requires |dbs| == |sts| + 1 && k <= |sts|
  {
    && g < k
    && Grants(dbs, sts, g, id) && sts[g].worker == w
    && (forall j | g < j < k :: !Grants(dbs, sts, j, id))
  }

  ghost predicate Grants(dbs: seq<Db>, sts: seq<Stmt>, g: nat, id: MessageId)
    requires |dbs| == |sts| + 1 && g < |sts|
  {
    (sts[g].Claim? || sts[g].Extend?) && id in dbs[g].rows && Touches(sts[g], id, dbs[g].rows[id])
  }

  lemma {:induction false} LockedUntilIsLastGrant(dbs: seq<Db>, sts: seq<Stmt>, k: nat, id: MessageId, w: WorkerId)
    requires Run(dbs, sts) && k <= |sts|
    requires id in dbs[k].rows && dbs[k].rows[id].lockedBy == Some(w)
    ensures exists g: nat :: LastGrant(dbs, sts, g, k, id, w) &&
              dbs[k].rows[id].lockedUntil == Some(sts[g].now + sts[g].lease)
  {
    if k > 0 {
      Across(dbs, sts, k - 1, id);
      if Grants(dbs, sts, k - 1, id) {
        assert LastGrant(dbs, sts, k - 1, k, id, w);
      } else {
        LockedUntilIsLastGrant(dbs, sts, k - 1, id, w);
        var g: nat :| LastGrant(dbs, sts, g, k - 1, id, w) &&
            dbs[k - 1].rows[id].lockedUntil == Some(sts[g].now + sts[g].lease);
        assert LastGrant(dbs, sts, g, k, id, w);
      }
    }
  }

  /** A still-leased row is claimed only at a reading strictly after the last granted or extended
      `locked_until` - by whichever worker. */
  lemma TakeoverOnlyAfterExpiry(dbs: seq<Db>, sts: seq<Stmt>, k: nat, id: MessageId, w: WorkerId)
    requires Run(dbs, sts) && k < |sts| && Claims(sts[k], id)
    requires id in dbs[k].rows && dbs[k].rows[id].lockedBy == Some(w)
    ensures exists g: nat :: LastGrant(dbs, sts, g, k, id, w) && sts[k].now > sts[g].now + sts[g].lease
  {
    Across(dbs, sts, k, id);
    LockedUntilIsLastGrant(dbs, sts, k, id, w);
    var g: nat :| LastGrant(dbs, sts, g, k, id, w) && dbs[k].rows[id].lockedUntil == Some(sts[g].now + sts[g].lease);
    assert LastGrant(dbs, sts, g, k, id, w);
  }

  /** A guarded write by `w` takes effect only if nobody else has claimed the row since `w` last
      claimed it, and only if that lease was never closed in between. */
  lemma GuardedWriteExcludesOthers(dbs: seq<Db>, sts: seq<Stmt>, i: nat, k: nat, id: MessageId)
    requires Run(dbs, sts) && i < k < |sts|
    requires Claims(sts[i], id)
    requires Guarded(sts[k]) && sts[k].worker == sts[i].worker
    requires id in dbs[k].rows && Touches(sts[k], id, dbs[k].rows[id])
    requires forall j | i < j < k && Claims(sts[j], id) :: sts[j].worker != sts[i].worker
    ensures HeldSince(dbs, sts, i, k, id, sts[i].worker)
  {
    var w := sts[i].worker;
    LockedMeansHeld(dbs, sts, k, id, w);
    var h: nat :| HeldSince(dbs, sts, h, k, id, w);
    assert h <= i;
  }

  // ---------------------------------------------------------------- no loss

  /** Statement `j` deleted a row that was published or dead. */
  ghost predicate DeletedTerminal(dbs: seq<Db>, sts: seq<Stmt>, j: nat, id: MessageId)
    requires |dbs| == |sts| + 1 && j < |sts|
  {
    Deletes(sts[j]) && id in dbs[j].rows && Terminal(dbs[j].rows[id]) && id !in dbs[j + 1].rows
  }

  /** Every message ever inserted is still in the table, or was deleted while published or dead. */
  lemma {:induction false} NoLoss(dbs: seq<Db>, sts: seq<Stmt>, k: nat, id: MessageId)
    requires Run(dbs, sts) && k <= |sts|
    requires id in dbs[k].used
    ensures id in dbs[k].rows || exists j: nat :: j < k && DeletedTerminal(dbs, sts, j, id)
  {
    if k > 0 {
      Across(dbs, sts, k - 1, id);
      if id in dbs[k - 1].used {
        NoLoss(dbs, sts, k - 1, id);
        if id in dbs[k - 1].rows && id !in dbs[k].rows {
          assert DeletedTerminal(dbs, sts, k - 1, id);
        }
      }
    }
  }

  /** Once a message has left the table it never comes back. */
  lemma {:induction false} GoneForGood(dbs: seq<Db>, sts: seq<Stmt>, i: nat, k: nat, id: MessageId)
    requires Run(dbs, sts) && i <= k <= |sts|
    requires id in dbs[i].used && id !in dbs[i].rows
    ensures id in dbs[k].used && id !in dbs[k].rows
  {
    if i < k {
      GoneForGood(dbs, sts, i, k - 1, id);
      Across(dbs, sts, k - 1, id);
    }
  }

  /** A published row is frozen: no statement changes it, and only the retention purge removes it. */
  lemma {:induction false} PublishedIsFrozen(dbs: seq<Db>, sts: seq<Stmt>, i: nat, k: nat, id: MessageId)
    requires Run(dbs, sts) && i <= k <= |sts|
    requires id in dbs[i].rows && dbs[i].rows[id].publishedAt.Some?
    ensures id in dbs[k].rows ==> dbs[k].rows[id] == dbs[i].rows[id]
    ensures id !in dbs[k].rows ==>
              exists j: nat :: i <= j < k && sts[j].PurgePublished? && id in sts[j].ids
                && dbs[i].rows[id].publishedAt.value < sts[j].now - sts[j].retention
  {
    if i < k {
      PublishedIsFrozen(dbs, sts, i, k - 1, id);
      Across(dbs, sts, k - 1, id);
      if id !in dbs[k - 1].rows && id in dbs[k].rows {
        ReachableIsValid(dbs, sts, i);
        UsedGrows(dbs, sts, i, k - 1);
      }
    }
  }

  lemma {:induction false} UsedGrows(dbs: seq<Db>, sts: seq<Stmt>, i: nat, k: nat)
    requires Run(dbs, sts) && i <= k <= |sts|
    ensures dbs[i].used <= dbs[k].used
  {
    if i < k {
      UsedGrows(dbs, sts, i, k - 1);
      Across(dbs, sts, k - 1, 0);
    }
  }

  // ---------------------------------------------------------------- the purge re-checks

  predicate SameFixedColumns(a: Row, b: Row) {
    && a.sequence == b.sequence && a.expiresAt == b.expiresAt
    && a.messageType == b.messageType && a.tenantId == b.tenantId && a.decodable == b.decodable
  }

  /** While a message stays in the table, what it was inserted with never changes. */
  lemma {:induction false} ImmutableColumns(dbs: seq<Db>, sts: seq<Stmt>, i: nat, k: nat, id: MessageId)
    requires Run(dbs, sts) && i <= k <= |sts|
    requires id in dbs[i].rows && id in dbs[k].rows
    ensures SameFixedColumns(dbs[k].rows[id], dbs[i].rows[id])
  {
    if i < k {
      Across(dbs, sts, k - 1, id);
      if id in dbs[k - 1].rows {
        ImmutableColumns(dbs, sts, i, k - 1, id);
        if Touches(sts[k - 1], id, dbs[k - 1].rows[id]) {
          RewriteKeepsRow(sts[k - 1], id, dbs[k - 1].rows[id]);
        }
      } else {
        ReachableIsValid(dbs, sts, i);
        UsedGrows(dbs, sts, i, k - 1);
      }
    }
  }

  /** The expiry sweep chooses its ids under the snapshot of state `i` and acts at state `k`, after
      arbitrary other statements. Its outer WHERE does not repeat the `expires_at` test, yet every
      row it kills satisfies the whole predicate at the moment it is killed. */
  lemma SweepRecheckIsEnough(dbs: seq<Db>, sts: seq<Stmt>, i: nat, k: nat, id: MessageId)
    requires Run(dbs, sts) && i <= k < |sts| && sts[k].ExpirySweep?
    requires forall x | x in sts[k].ids :: x in dbs[i].rows && Sweepable(dbs[i].rows[x], sts[k].now)
    requires id in dbs[k].rows && Touches(sts[k], id, dbs[k].rows[id])
    ensures Sweepable(dbs[k].rows[id], sts[k].now)
    ensures id in dbs[k + 1].rows && dbs[k + 1].rows[id].deadReason == Some(Expired)
  {
    ImmutableColumns(dbs, sts, i, k, id);
    Across(dbs, sts, k, id);
  }

  // ---------------------------------------------------------------- repeated outcome writes

  /** Once `complete` has taken effect on a row, every later `complete` is a no-op on it. */
  lemma CompleteIsIdempotent(dbs: seq<Db>, sts: seq<Stmt>, i: nat, k: nat, id: MessageId, again: Stmt)
    requires Run(dbs, sts) && i < k <= |sts|
    requires sts[i].Complete? && id in dbs[i].rows && Touches(sts[i], id, dbs[i].rows[id])
    requires id in dbs[k].rows && (again.Complete? || again.FailRetry? || again.FailDead?)
    ensures !Touches(again, id, dbs[k].rows[id])
    ensures id in Apply(dbs[k], again).rows && Apply(dbs[k], again).rows[id] == dbs[k].rows[id]
    ensures dbs[k].rows[id].attempts == dbs[i].rows[id].attempts + 1
  {
    Across(dbs, sts, i, id);
    PublishedIsFrozen(dbs, sts, i + 1, k, id);
    ReachableIsValid(dbs, sts, k);
  }

  /** The outcome statements that close a lease for its worker. */
  predicate ClosesLease(st: Stmt) {
    st.FailRetry? || st.FailDead? || st.Complete? || st.Release? || st.PoisonSweep?
  }

  /** Once a closing write by `w` has taken effect, the row is not `w`'s again until `w` claims it. */
  lemma {:induction false} ClosedUntilReclaimed(dbs: seq<Db>, sts: seq<Stmt>, i: nat, k: nat, id: MessageId)
    requires Run(dbs, sts) && i < k <= |sts|
    requires ClosesLease(sts[i]) && id in dbs[i].rows && Touches(sts[i], id, dbs[i].rows[id])
    requires forall j | i < j < k && Claims(sts[j], id) :: sts[j].worker != sts[i].worker
    ensures id in dbs[k].rows ==> dbs[k].rows[id].lockedBy != Some(sts[i].worker)
  {
    Across(dbs, sts, k - 1, id);
    if i < k - 1 {
      ClosedUntilReclaimed(dbs, sts, i, k - 1, id);
    }
  }

  /** Once `fail` has taken effect on a row - either half of it - repeating it, or sending any other
      guarded write, is a no-op on that row until the same worker claims the row again. */
  lemma FailIsIdempotent(dbs: seq<Db>, sts: seq<Stmt>, i: nat, k: nat, id: MessageId, again: Stmt)
    requires Run(dbs, sts) && i < k <= |sts|
    requires (sts[i].FailRetry? || sts[i].FailDead?) && id in dbs[i].rows && Touches(sts[i], id, dbs[i].rows[id])
    requires forall j | i < j < k && Claims(sts[j], id) :: sts[j].worker != sts[i].worker
    requires id in dbs[k].rows && Guarded(again) && again.worker == sts[i].worker
    ensures id in Apply(dbs[k], again).rows && Apply(dbs[k], again).rows[id] == dbs[k].rows[id]
  {
    ClosedUntilReclaimed(dbs, sts, i, k, id);
  }

  /** Exactly when a repeated `fail` does take effect again: the same worker has claimed the row
      since, and that lease is still open. */
  lemma RepeatedFailExactly(dbs: seq<Db>, sts: seq<Stmt>, i: nat, k: nat, id: MessageId)
    requires Run(dbs, sts) && i < k <= |sts|
    requires (sts[i].FailRetry? || sts[i].FailDead?) && id in dbs[i].rows && Touches(sts[i], id, dbs[i].rows[id])
    requires id in dbs[k].rows
    ensures Touches(sts[i], id, dbs[k].rows[id]) <==>
              exists h: nat :: i < h && HeldSince(dbs, sts, h, k, id, sts[i].worker)
  {
    var w := sts[i].worker;
    if Touches(sts[i], id, dbs[k].rows[id]) {
      LockedMeansHeld(dbs, sts, k, id, w);
      var h: nat :| HeldSince(dbs, sts, h, k, id, w);
      Across(dbs, sts, i, id);
      assert h > i;
    }
  }

  /** One more statement, on a table of one row. */
  lemma Grow(dbs: seq<Db>, sts: seq<Stmt>, st: Stmt, id: MessageId, r: Row) returns (dbs': seq<Db>, sts': seq<Stmt>)
    requires Run(dbs, sts) && dbs[|sts|].rows == map[id := r] && Touches(st, id, r) && !Deletes(st)
    requires st.Claim? ==> st.ids == {id} && st.limit == 1 && st.skipped == {} && Claimable(r, st.now)
    ensures sts' == sts + [st] && Run(dbs', sts') && dbs'[..|dbs|] == dbs
    ensures dbs'[|sts'|].rows == map[id := Rewrite(st, id, r)]
  {
    if st.Claim? {
      assert Eligible(dbs[|sts|].rows, st.now, {}) == {id};
    }
    dbs', sts' := ExtendRun(dbs, sts, st);
  }

  /** And it can: a `fail` whose reply was lost, repeated after its worker claimed the row anew,
      ends the new lease and counts a second failure for one publish. */
  lemma RepeatedFailCanCountTwice() returns (dbs: seq<Db>, sts: seq<Stmt>)
    ensures Run(dbs, sts) && |sts| == 5 && sts[2].FailRetry? && sts[4] == sts[2]
    ensures 7 in dbs[2].rows && 7 in dbs[5].rows
    ensures dbs[2].rows[7].attempts == 0 && dbs[5].rows[7].attempts == 2 && !Leased(dbs[5].rows[7])
  {
    var row := Row(1, "order.placed", None, true, None, 0, 0, None, None, None, None, None);
    var fail := FailRetry(map[7 := 1], "w", 1);
    dbs, sts := ExtendRun([EMPTY], [], Insert(7, row));
    dbs, sts := Grow(dbs, sts, Claim(1, "w", 0, 10, 1, {}, {7}), 7, row);
    var leased := row.(lockedBy := Some("w"), lockedUntil := Some(10));
    var two := dbs;
    dbs, sts := Grow(dbs, sts, fail, 7, leased);
    var failed := row.(availableAt := 2, attempts := 1);
    dbs, sts := Grow(dbs, sts, Claim(2, "w", 5, 10, 1, {}, {7}), 7, failed);
    dbs, sts := Grow(dbs, sts, fail, 7, failed.(lockedBy := Some("w"), lockedUntil := Some(15)));
    assert dbs[2] == two[2];
  }

  // ---------------------------------------------------------------- attempts

  /** `attempts` counts outcomes: a statement changes it only by recording an outcome (plus one) or
      by the operator's `retry_dead` (back to zero). */
  lemma AttemptsCountOutcomes(dbs: seq<Db>, sts: seq<Stmt>, k: nat, id: MessageId)
    requires Run(dbs, sts) && k < |sts| && id in dbs[k].rows && id in dbs[k + 1].rows
    ensures var before, after := dbs[k].rows[id].attempts, dbs[k + 1].rows[id].attempts;
            if Touches(sts[k], id, dbs[k].rows[id]) && (sts[k].Complete? || sts[k].FailRetry? || sts[k].FailDead?) then
              after == before + 1
            else if Touches(sts[k], id, dbs[k].rows[id]) && sts[k].RetryDead? then
              after == 0
            else
              after == before
  {
    Across(dbs, sts, k, id);
  }

  // ---------------------------------------------------------------- when a row may be claimed

  /** Sets `available_at`. */
  ghost predicate Reschedules(dbs: seq<Db>, sts: seq<Stmt>, j: nat, id: MessageId)
    requires |dbs| == |sts| + 1 && j < |sts|
  {
    (sts[j].FailRetry? || sts[j].RetryDead?) && id in dbs[j].rows && Touches(sts[j], id, dbs[j].rows[id])
  }

  lemma {:induction false} AvailableAtKept(dbs: seq<Db>, sts: seq<Stmt>, i: nat, k: nat, id: MessageId)
    requires Run(dbs, sts) && i <= k <= |sts| && id in dbs[i].rows && id in dbs[k].rows
    requires forall j | i <= j < k :: !Reschedules(dbs, sts, j, id)
    ensures dbs[k].rows[id].availableAt == dbs[i].rows[id].availableAt
  {
    if i < k {
      Across(dbs, sts, k - 1, id);
      assert !Reschedules(dbs, sts, k - 1, id);
      if id in dbs[k - 1].rows {
        AvailableAtKept(dbs, sts, i, k - 1, id);
      } else {
        ReachableIsValid(dbs, sts, i);
        UsedGrows(dbs, sts, i, k - 1);
      }
    }
  }

  /** A failed message waits out its delay: until it is rescheduled, no worker claims it at a reading
      before the failure's reading plus the delay. */
  lemma RetryWaits(dbs: seq<Db>, sts: seq<Stmt>, i: nat, k: nat, id: MessageId)
    requires Run(dbs, sts) && i < k < |sts| && Claims(sts[k], id)
    requires sts[i].FailRetry? && id in dbs[i].rows && Touches(sts[i], id, dbs[i].rows[id])
    requires forall j | i < j < k :: !Reschedules(dbs, sts, j, id)
    ensures sts[k].now >= sts[i].now + sts[i].delays[id]
  {
    Across(dbs, sts, i, id);
    Across(dbs, sts, k, id);
    AvailableAtKept(dbs, sts, i + 1, k, id);
  }

  /** While a lease is held without a break, only its lock columns can have changed since the claim. */
  lemma {:induction false} HeldKeepsRow(dbs: seq<Db>, sts: seq<Stmt>, i: nat, k: nat, id: MessageId, w: WorkerId)
    requires Run(dbs, sts) && k <= |sts| && HeldSince(dbs, sts, i, k, id, w)
    ensures id in dbs[i].rows && Unlocked(dbs[k].rows[id]) == Unlocked(dbs[i].rows[id])
  {
    Across(dbs, sts, k - 1, id);
    if i < k - 1 {
      assert HeldSince(dbs, sts, i, k - 1, id, w);
      HeldKeepsRow(dbs, sts, i, k - 1, id, w);
    }
  }

  /** A release that takes effect hands the row back exactly as its worker's claim found it, whatever
      ran in between: a release is not a failure. */
  lemma ReleaseUndoesClaim(dbs: seq<Db>, sts: seq<Stmt>, k: nat, id: MessageId)
    requires Run(dbs, sts) && k < |sts| && sts[k].Release?
    requires id in dbs[k].rows && Touches(sts[k], id, dbs[k].rows[id])
    ensures exists i: nat :: HeldSince(dbs, sts, i, k, id, sts[k].worker)
              && id in dbs[i].rows && id in dbs[k + 1].rows && dbs[k + 1].rows[id] == Unlocked(dbs[i].rows[id])
  {
    var w := sts[k].worker;
    LockedMeansHeld(dbs, sts, k, id, w);
    var i: nat :| HeldSince(dbs, sts, i, k, id, w);
    HeldKeepsRow(dbs, sts, i, k, id, w);
    Across(dbs, sts, k, id);
  }

  /** A row nothing touches stays as it is. */
  lemma {:induction false} UntouchedKept(dbs: seq<Db>, sts: seq<Stmt>, i: nat, k: nat, id: MessageId)
    requires Run(dbs, sts) && i <= k <= |sts| && id in dbs[i].rows
    requires forall j | i <= j < k :: !TouchedAt(dbs, sts, j, id)
    ensures id in dbs[k].rows && dbs[k].rows[id] == dbs[i].rows[id]
  {
    if i < k {
      UntouchedKept(dbs, sts, i, k - 1, id);
      Across(dbs, sts, k - 1, id);
      assert !TouchedAt(dbs, sts, k - 1, id);
    }
  }

  ghost predicate TouchedAt(dbs: seq<Db>, sts: seq<Stmt>, j: nat, id: MessageId)
    requires |dbs| == |sts| + 1 && j < |sts|
  {
    id in dbs[j].rows && Touches(sts[j], id, dbs[j].rows[id])
  }

  /** An operator's retry makes a dead message claimable again, with a fresh budget, and it stays so
      until some statement touches it - or it expires. */
  lemma RetryRevives(dbs: seq<Db>, sts: seq<Stmt>, i: nat, k: nat, id: MessageId, t: Time)
    requires Run(dbs, sts) && i < k <= |sts| && sts[i].RetryDead? && TouchedAt(dbs, sts, i, id)
    requires forall j | i < j < k :: !TouchedAt(dbs, sts, j, id)
    requires t >= sts[i].now
    ensures id in dbs[k].rows && dbs[k].rows[id].attempts == 0
    ensures Claimable(dbs[k].rows[id], t) <==> (dbs[i].rows[id].expiresAt.None? || dbs[i].rows[id].expiresAt.value > t)
  {
    Across(dbs, sts, i, id);
    UntouchedKept(dbs, sts, i + 1, k, id);
  }

  /** A message is claimed only at readings before the `expires_at` it was inserted with. */
  lemma ExpiryIsHonoured(dbs: seq<Db>, sts: seq<Stmt>, i: nat, k: nat, id: MessageId)
    requires Run(dbs, sts) && i < k < |sts| && sts[i].Insert? && sts[i].id == id && Claims(sts[k], id)
    ensures sts[i].row.expiresAt.None? || sts[k].now < sts[i].row.expiresAt.value
  {
    assert StepAt(dbs, sts, i);
    Across(dbs, sts, k, id);
    ImmutableColumns(dbs, sts, i + 1, k, id);
  }

  // ---------------------------------------------------------------- attempts, over the whole history

  /** The outcomes recorded for a row since it was inserted or last retried by an operator. */
  ghost function Outcomes(dbs: seq<Db>, sts: seq<Stmt>, k: nat, id: MessageId): nat
    requires |dbs| == |sts| + 1 && k <= |sts|
  {
    if k == 0 then 0
    else if !TouchedAt(dbs, sts, k - 1, id) then Outcomes(dbs, sts, k - 1, id)
    else if sts[k - 1].RetryDead? then 0
    else if sts[k - 1].Complete? || sts[k - 1].FailRetry? || sts[k - 1].FailDead? then Outcomes(dbs, sts, k - 1, id) + 1
    else Outcomes(dbs, sts, k - 1, id)
  }

  lemma {:induction false} NoOutcomesBeforeInsert(dbs: seq<Db>, sts: seq<Stmt>, k: nat, id: MessageId)
    requires Run(dbs, sts) && k <= |sts| && id !in dbs[k].used
    ensures Outcomes(dbs, sts, k, id) == 0
  {
    if k > 0 {
      Across(dbs, sts, k - 1, id);
      ReachableIsValid(dbs, sts, k - 1);
      NoOutcomesBeforeInsert(dbs, sts, k - 1, id);
    }
  }

  /** In every reachable table `attempts` is the number of outcomes recorded since the row was inserted
      or last retried: never of claims, renewals, releases or sweeps. */
  lemma {:induction false} AttemptsAreOutcomes(dbs: seq<Db>, sts: seq<Stmt>, k: nat, id: MessageId)
    requires Run(dbs, sts) && k <= |sts| && id in dbs[k].rows
    ensures dbs[k].rows[id].attempts == Outcomes(dbs, sts, k, id)
  {
    if k > 0 {
      Across(dbs, sts, k - 1, id);
      if id in dbs[k - 1].rows {
        AttemptsAreOutcomes(dbs, sts, k - 1, id);
        AttemptsCountOutcomes(dbs, sts, k - 1, id);
      } else {
        NoOutcomesBeforeInsert(dbs, sts, k - 1, id);
      }
    }
  }
}
