/** Renewal timing and the table together: a worker whose renewals land keeps every row it tracks.

    The loop's timing (`LeaseTiming`) says when the worker asks; the table's runs (`TableRuns`) say what
    anybody's statements do. Here a trace of the loop and a run of the table share one clock, and between
    two loop heads any statements of anybody may run - claims by other workers, sweeps, purges, late
    commits of this worker's own calls. */
module LeaseKeeping {
  import opened Basics
  import opened DispatcherState
  import opened OutboxTable
  import opened LeaseTiming
  import opened TableRuns

  // ---------------------------------------------------------------- one clock

  function Reading(st: Stmt): Option<Time> {
    if st.Insert? || st.Release? || st.PurgeDead? then None else Some(st.now)
  }

  predicate NotAfter(st: Stmt, t: Time) {
    Reading(st).Some? ==> Reading(st).value <= t
  }

  predicate NotBefore(st: Stmt, t: Time) {
    Reading(st).Some? ==> Reading(st).value >= t
  }

  /** The clock never runs backwards from one statement to the next. */
  ghost predicate Clocked(sts: seq<Stmt>) {
    forall a, b | 0 <= a < b < |sts| && Reading(sts[a]).Some? :: NotBefore(sts[b], Reading(sts[a]).value)
  }

  predicate Renews(st: Stmt, w: WorkerId, t: Time, lease: nat, rows: set<MessageId>) {
    st.Extend? && st.worker == w && st.now == t && st.lease == lease && rows <= st.ids
  }

  predicate Grabs(st: Stmt, w: WorkerId, t: Time, lease: nat, rows: set<MessageId>) {
    st.Claim? && st.worker == w && st.now == t && st.lease == lease && rows <= st.ids
  }

  /** The statements `sts[p..q]` include the one a branch of the loop is about: a renewal that landed, or
      the claim behind a batch that was received. */
  ghost predicate Includes(s: Settings, w: WorkerId, l: Loop, b: Branch, sts: seq<Stmt>, p: nat, q: nat)
    requires q <= |sts|
  {
    match b
    case Renewed(_, Some(x)) => exists j: nat ::
        p <= j < q && Renews(sts[j], w, l.now + x, Interval(s.lease), l.held.Keys)
    case Acquired(_, x, rows) => rows == {} || exists j: nat ::
        p <= j < q && Grabs(sts[j], w, l.now + x, Interval(s.lease), rows)
    case _ => true
  }

  /** While branch `i` runs, the table executes `sts[at[i]..at[i + 1]]`, all read between its two heads. */
  ghost predicate SyncedAt(s: Settings, w: WorkerId, loops: seq<Loop>, branches: seq<Branch>, sts: seq<Stmt>,
                           at: seq<nat>, i: nat)
    requires |loops| == |branches| + 1 && |at| == |loops| && i < |branches|
  {
    && at[i] <= at[i + 1] <= |sts|
    && Includes(s, w, loops[i], branches[i], sts, at[i], at[i + 1])
    && forall j | at[i] <= j < at[i + 1] :: NotBefore(sts[j], loops[i].now) && NotAfter(sts[j], loops[i + 1].now)
  }

  ghost predicate Synced(s: Settings, w: WorkerId, loops: seq<Loop>, branches: seq<Branch>, dbs: seq<Db>,
                         sts: seq<Stmt>, at: seq<nat>) {
    && Trace(s, loops, branches) && Run(dbs, sts) && Clocked(sts) && |at| == |loops|
    && (forall i: nat | i < |branches| :: SyncedAt(s, w, loops, branches, sts, at, i))
    && (forall j | 0 <= j < |sts| && sts[j].Extend? && sts[j].worker == w :: sts[j].lease == Interval(s.lease))
  }

  /** Every renewal commits within its timeout. */
  predicate AllLand(branches: seq<Branch>) {
    forall i | 0 <= i < |branches| :: branches[i].Renewed? ==> branches[i].landed.Some?
  }

  // ---------------------------------------------------------------- the row in the table

  ghost predicate OwnClose(dbs: seq<Db>, sts: seq<Stmt>, c: nat, r: MessageId, w: WorkerId)
    requires |dbs| == |sts| + 1 && c < |sts|
  {
    TouchedAt(dbs, sts, c, r) && ClosesLease(sts[c]) && sts[c].worker == w
  }

  /** After its claim `a` the worker itself has closed the lease before state `p`. */
  ghost predicate Closed(dbs: seq<Db>, sts: seq<Stmt>, a: nat, p: nat, r: MessageId, w: WorkerId)
    requires |dbs| == |sts| + 1 && p <= |sts|
  {
    exists c: nat :: a < c < p && OwnClose(dbs, sts, c, r, w)
  }

  /** Statement `j` left the row alone, or was the worker's own: a renewal, its closing write, or after it. */
  ghost predicate OwnAt(dbs: seq<Db>, sts: seq<Stmt>, a: nat, j: nat, r: MessageId, w: WorkerId)
    requires |dbs| == |sts| + 1 && j < |sts|
  {
    TouchedAt(dbs, sts, j, r) ==> (sts[j].Extend? && sts[j].worker == w) || Closed(dbs, sts, a, j + 1, r, w)
  }

  predicate Holds(db: Db, r: MessageId, w: WorkerId, until: Time) {
    && r in db.rows && db.rows[r].lockedBy == Some(w)
    && db.rows[r].lockedUntil.Some? && db.rows[r].lockedUntil.value >= until
  }

  /** Since the worker's claim `a` nobody but the worker has touched the row, until it closed the lease
      itself; and if it has not, it holds the row at least until `until`. */
  ghost predicate Kept(dbs: seq<Db>, sts: seq<Stmt>, a: nat, p: nat, r: MessageId, w: WorkerId, until: Time)
    requires |dbs| == |sts| + 1 && p <= |sts|
  {
    && a < p && Claims(sts[a], r) && sts[a].worker == w
    && (forall j | a < j < p :: OwnAt(dbs, sts, a, j, r, w))
    && (Closed(dbs, sts, a, p, r, w) || Holds(dbs[p], r, w, until))
  }

  lemma ClosedStays(dbs: seq<Db>, sts: seq<Stmt>, a: nat, p: nat, q: nat, r: MessageId, w: WorkerId)
    requires |dbs| == |sts| + 1 && p <= q <= |sts| && Closed(dbs, sts, a, p, r, w)
    ensures Closed(dbs, sts, a, q, r, w)
  {
    var c: nat :| a < c < p && OwnClose(dbs, sts, c, r, w);
    assert OwnClose(dbs, sts, c, r, w);
  }

  /** A statement read no later than the lease runs leaves a held row alone, unless it is its holder's. */
  lemma HolderOnly(st: Stmt, r: MessageId, row: Row, w: WorkerId, until: Time)
    requires WellFormedRow(row) && row.lockedBy == Some(w) && row.lockedUntil.Some? && row.lockedUntil.value >= until
    requires NotAfter(st, until) && Touches(st, r, row) && (st.Claim? ==> Claimable(row, st.now))
    ensures Guarded(st) && st.worker == w && (st.Extend? || ClosesLease(st))
  {
  }

  /** One statement. */
  lemma KeptStep(dbs: seq<Db>, sts: seq<Stmt>, a: nat, p: nat, r: MessageId, w: WorkerId, until: Time)
    requires Run(dbs, sts) && p < |sts| && Kept(dbs, sts, a, p, r, w, until) && NotAfter(sts[p], until)
    requires sts[p].Extend? && sts[p].worker == w ==> sts[p].now + sts[p].lease >= until
    ensures Kept(dbs, sts, a, p + 1, r, w, until)
  {
    Across(dbs, sts, p, r);
    if Closed(dbs, sts, a, p, r, w) {
      ClosedStays(dbs, sts, a, p, p + 1, r, w);
    } else if Touches(sts[p], r, dbs[p].rows[r]) {
      HolderOnly(sts[p], r, dbs[p].rows[r], w, until);
      if !sts[p].Extend? {
        assert OwnClose(dbs, sts, p, r, w);
      }
    }
    assert OwnAt(dbs, sts, a, p, r, w);
  }

  /** The statements between `p` and `q` are read within the lease, and the worker's own renewals among
      them do not shorten it. */
  ghost predicate Within(sts: seq<Stmt>, p: nat, q: nat, w: WorkerId, until: Time)
    requires q <= |sts|
  {
    forall j | p <= j < q ::
      NotAfter(sts[j], until) && (sts[j].Extend? && sts[j].worker == w ==> sts[j].now + sts[j].lease >= until)
  }

  lemma {:induction false} KeptOver(dbs: seq<Db>, sts: seq<Stmt>, a: nat, p: nat, q: nat, r: MessageId, w: WorkerId,
                                    until: Time)
    requires Run(dbs, sts) && p <= q <= |sts| && Kept(dbs, sts, a, p, r, w, until) && Within(sts, p, q, w, until)
    ensures Kept(dbs, sts, a, q, r, w, until)
    decreases q - p
  {
    if p < q {
      KeptOver(dbs, sts, a, p, q - 1, r, w, until);
      KeptStep(dbs, sts, a, q - 1, r, w, until);
    }
  }

  /** The worker's claim starts it. */
  lemma ClaimKeeps(dbs: seq<Db>, sts: seq<Stmt>, j: nat, r: MessageId, w: WorkerId)
    requires Run(dbs, sts) && j < |sts| && Claims(sts[j], r) && sts[j].worker == w
    ensures Kept(dbs, sts, j, j + 1, r, w, sts[j].now + sts[j].lease)
  {
    Across(dbs, sts, j, r);
  }

  /** A renewal that lands in time moves the end of the lease. */
  lemma RenewalKeeps(dbs: seq<Db>, sts: seq<Stmt>, a: nat, j: nat, r: MessageId, w: WorkerId, until: Time)
    requires Run(dbs, sts) && j < |sts| && Kept(dbs, sts, a, j, r, w, until)
    requires sts[j].Extend? && sts[j].worker == w && r in sts[j].ids
    ensures Kept(dbs, sts, a, j + 1, r, w, sts[j].now + sts[j].lease)
  {
    Across(dbs, sts, j, r);
    if Closed(dbs, sts, a, j, r, w) {
      ClosedStays(dbs, sts, a, j, j + 1, r, w);
    }
    assert OwnAt(dbs, sts, a, j, r, w);
  }

  // ---------------------------------------------------------------- the loop

  /** One period and two store calls fit in the lease as granted. */
  predicate RenewsSafely(s: Settings) {
    Worst(s) + s.storeTimeout <= Interval(s.lease)
  }

  ghost predicate KeptAt(s: Settings, w: WorkerId, loops: seq<Loop>, dbs: seq<Db>, sts: seq<Stmt>, at: seq<nat>,
                         i: nat, r: MessageId)
    requires |dbs| == |sts| + 1 && |at| == |loops| && i < |loops| && at[i] <= |sts| && r in loops[i].held
  {
    exists a: nat :: Kept(dbs, sts, a, at[i], r, w, loops[i].held[r].leasedUntil)
  }

  lemma {:induction false} AlwaysGranted(s: Settings, loops: seq<Loop>, branches: seq<Branch>, i: nat, r: nat)
    requires Trace(s, loops, branches) && AllLand(branches) && i < |loops| && r in loops[i].held
    ensures loops[i].held[r].granted
  {
    if i > 0 {
      assert Ready(s, loops[i - 1], branches[i - 1]) && loops[i] == Run1(s, loops[i - 1], branches[i - 1]);
      if r in loops[i - 1].held {
        AlwaysGranted(s, loops, branches, i - 1, r);
      }
    }
  }

  /** The timing of a tracked row, at a loop head. */
  lemma Timely(s: Settings, loops: seq<Loop>, branches: seq<Branch>, i: nat, r: nat)
    requires Trace(s, loops, branches) && AllLand(branches) && RenewsSafely(s) && i < |loops| && r in loops[i].held
    ensures loops[i].now + s.storeTimeout <= loops[i].held[r].leasedUntil <= loops[i].now + Interval(s.lease)
  {
    TraceIsOnTime(s, loops, branches, i);
    AlwaysGranted(s, loops, branches, i, r);
    assert HeldOnTime(s, loops[i], loops[i].held[r]);
  }

  /** The worker's own renewals in a stretch of statements read from `t` on do not shorten a lease that
      ends a lease after `t` at the latest. */
  lemma OwnRenewalsExtend(s: Settings, w: WorkerId, loops: seq<Loop>, branches: seq<Branch>, dbs: seq<Db>,
                          sts: seq<Stmt>, at: seq<nat>, p: nat, q: nat, t: Time, until: Time)
    requires Synced(s, w, loops, branches, dbs, sts, at) && q <= |sts| && until <= t + Interval(s.lease)
    requires forall j | p <= j < q :: NotBefore(sts[j], t) && NotAfter(sts[j], until)
    ensures Within(sts, p, q, w, until)
  {
  }

  /** A branch that neither renews nor claims the row. */
  lemma QuietBranch(s: Settings, w: WorkerId, loops: seq<Loop>, branches: seq<Branch>, dbs: seq<Db>, sts: seq<Stmt>,
                    at: seq<nat>, i: nat, r: nat)
    requires Synced(s, w, loops, branches, dbs, sts, at) && AllLand(branches) && RenewsSafely(s) && i < |branches|
    requires at[i] <= at[i + 1] <= |sts| && r in loops[i].held && r in loops[i + 1].held
    requires loops[i + 1].held[r] == loops[i].held[r] && KeptAt(s, w, loops, dbs, sts, at, i, r)
    ensures KeptAt(s, w, loops, dbs, sts, at, i + 1, r)
  {
    var until := loops[i].held[r].leasedUntil;
    Timely(s, loops, branches, i, r);
    Timely(s, loops, branches, i + 1, r);
    assert SyncedAt(s, w, loops, branches, sts, at, i);
    OwnRenewalsExtend(s, w, loops, branches, dbs, sts, at, at[i], at[i + 1], loops[i].now, until);
    var a: nat :| Kept(dbs, sts, a, at[i], r, w, until);
    KeptOver(dbs, sts, a, at[i], at[i + 1], r, w, until);
  }

  /** After statement `j` of branch `i`, which granted the lease the branch ends with. */
  lemma RestOfBranch(s: Settings, w: WorkerId, loops: seq<Loop>, branches: seq<Branch>, dbs: seq<Db>, sts: seq<Stmt>,
                     at: seq<nat>, i: nat, r: nat, a: nat, j: nat)
    requires Synced(s, w, loops, branches, dbs, sts, at) && AllLand(branches) && RenewsSafely(s) && i < |branches|
    requires at[i] <= j < at[i + 1] <= |sts| && r in loops[i + 1].held && Reading(sts[j]).Some?
    requires Reading(sts[j]).value + Interval(s.lease) == loops[i + 1].held[r].leasedUntil
    requires Kept(dbs, sts, a, j + 1, r, w, loops[i + 1].held[r].leasedUntil)
    ensures KeptAt(s, w, loops, dbs, sts, at, i + 1, r)
  {
    var until := loops[i + 1].held[r].leasedUntil;
    Timely(s, loops, branches, i + 1, r);
    assert SyncedAt(s, w, loops, branches, sts, at, i);
    OwnRenewalsExtend(s, w, loops, branches, dbs, sts, at, j + 1, at[i + 1], Reading(sts[j]).value, until);
    KeptOver(dbs, sts, a, j + 1, at[i + 1], r, w, until);
  }

  /** A branch that renews the row: the lease holds until the renewal lands, and the renewed one after. */
  lemma RenewingBranch(s: Settings, w: WorkerId, loops: seq<Loop>, branches: seq<Branch>, dbs: seq<Db>,
                       sts: seq<Stmt>, at: seq<nat>, i: nat, r: nat)
    requires Synced(s, w, loops, branches, dbs, sts, at) && AllLand(branches) && RenewsSafely(s) && i < |branches|
    requires at[i] <= at[i + 1] <= |sts| && branches[i].Renewed? && r in loops[i].held && r in loops[i + 1].held
    requires KeptAt(s, w, loops, dbs, sts, at, i, r)
    ensures KeptAt(s, w, loops, dbs, sts, at, i + 1, r)
  {
    var until, x := loops[i].held[r].leasedUntil, branches[i].landed.value;
    Timely(s, loops, branches, i, r);
    assert SyncedAt(s, w, loops, branches, sts, at, i) && Ready(s, loops[i], branches[i]);
    assert loops[i + 1] == Run1(s, loops[i], branches[i]);
    var j: nat :| at[i] <= j < at[i + 1] && Renews(sts[j], w, loops[i].now + x, Interval(s.lease), loops[i].held.Keys);
    OwnRenewalsExtend(s, w, loops, branches, dbs, sts, at, at[i], j, loops[i].now, until);
    var a: nat :| Kept(dbs, sts, a, at[i], r, w, until);
    KeptOver(dbs, sts, a, at[i], j, r, w, until);
    RenewalKeeps(dbs, sts, a, j, r, w, until);
    RestOfBranch(s, w, loops, branches, dbs, sts, at, i, r, a, j);
  }

  /** A branch that claims the row. */
  lemma ClaimingBranch(s: Settings, w: WorkerId, loops: seq<Loop>, branches: seq<Branch>, dbs: seq<Db>,
                       sts: seq<Stmt>, at: seq<nat>, i: nat, r: nat)
    requires Synced(s, w, loops, branches, dbs, sts, at) && AllLand(branches) && RenewsSafely(s) && i < |branches|
    requires at[i] <= at[i + 1] <= |sts| && branches[i].Acquired? && r in branches[i].rows && r in loops[i + 1].held
    ensures KeptAt(s, w, loops, dbs, sts, at, i + 1, r)
  {
    var x, rows := branches[i].offset, branches[i].rows;
    assert SyncedAt(s, w, loops, branches, sts, at, i) && loops[i + 1] == Run1(s, loops[i], branches[i]);
    var j: nat :| at[i] <= j < at[i + 1] && Grabs(sts[j], w, loops[i].now + x, Interval(s.lease), rows);
    ClaimKeeps(dbs, sts, j, r, w);
    RestOfBranch(s, w, loops, branches, dbs, sts, at, i, r, j, j);
  }

  /** A worker whose renewals land keeps what it tracks: at every loop head, for every tracked row, nobody
      but the worker itself has touched the row since the worker claimed it, up to the write with which
      the worker closed its lease; and until then the row is the worker's in the table, at least as long
      as the worker believes. In particular no other worker has claimed it and no sweep has killed it. */
  lemma {:induction false} TrackedRowsAreKept(s: Settings, w: WorkerId, loops: seq<Loop>, branches: seq<Branch>,
                                              dbs: seq<Db>, sts: seq<Stmt>, at: seq<nat>, i: nat, r: nat)
    requires Synced(s, w, loops, branches, dbs, sts, at) && AllLand(branches) && RenewsSafely(s)
    requires i < |loops| && at[i] <= |sts| && r in loops[i].held
    ensures KeptAt(s, w, loops, dbs, sts, at, i, r)
  {
    if i > 0 {
      assert SyncedAt(s, w, loops, branches, sts, at, i - 1);
      assert Ready(s, loops[i - 1], branches[i - 1]) && loops[i] == Run1(s, loops[i - 1], branches[i - 1]);
      if branches[i - 1].Acquired? && r in branches[i - 1].rows {
        ClaimingBranch(s, w, loops, branches, dbs, sts, at, i - 1, r);
      } else {
        TrackedRowsAreKept(s, w, loops, branches, dbs, sts, at, i - 1, r);
        if branches[i - 1].Renewed? {
          RenewingBranch(s, w, loops, branches, dbs, sts, at, i - 1, r);
        } else {
          QuietBranch(s, w, loops, branches, dbs, sts, at, i - 1, r);
        }
      }
    }
  }

  /** No other worker claims a tracked row, unless the tracking worker's own outcome write has already
      taken effect on it. */
  lemma NoTakeoverWhileTracked(s: Settings, w: WorkerId, loops: seq<Loop>, branches: seq<Branch>, dbs: seq<Db>,
                               sts: seq<Stmt>, at: seq<nat>, i: nat, r: nat)
    returns (a: nat)
    requires Synced(s, w, loops, branches, dbs, sts, at) && AllLand(branches) && RenewsSafely(s)
    requires i < |loops| && at[i] <= |sts| && r in loops[i].held
    ensures a < at[i] && Claims(sts[a], r) && sts[a].worker == w
    ensures forall j | a < j < at[i] && Claims(sts[j], r) :: Closed(dbs, sts, a, j, r, w)
  {
    TrackedRowsAreKept(s, w, loops, branches, dbs, sts, at, i, r);
    a :| Kept(dbs, sts, a, at[i], r, w, loops[i].held[r].leasedUntil);
    forall j | a < j < at[i] && Claims(sts[j], r) ensures Closed(dbs, sts, a, j, r, w) {
      Across(dbs, sts, j, r);
      assert OwnAt(dbs, sts, a, j, r, w);
      var c: nat :| a < c < j + 1 && OwnClose(dbs, sts, c, r, w);
      assert c != j;
    }
  }

  /** The same for a validated configuration with a lease of whole milliseconds, at least two, and a store
      timeout of at most a quarter of it. */
  lemma ValidatedKeepsRows(s: Settings, w: WorkerId, loops: seq<Loop>, branches: seq<Branch>, dbs: seq<Db>,
                           sts: seq<Stmt>, at: seq<nat>, i: nat, r: nat)
    requires ValidateShared(s) == None && s.lease >= 2 * MILLISECOND
    requires s.storeTimeout <= s.lease / 4 && Interval(s.lease) == s.lease
    requires Synced(s, w, loops, branches, dbs, sts, at) && AllLand(branches)
    requires i < |loops| && at[i] <= |sts| && r in loops[i].held
    ensures KeptAt(s, w, loops, dbs, sts, at, i, r)
  {
    assert RenewsSafely(s);
    TrackedRowsAreKept(s, w, loops, branches, dbs, sts, at, i, r);
  }
}
