/** The worker loop and the timing of its leases speak of the same rows: turn by turn the rows `LeaseTiming`
    holds are those the dispatcher tracks, so what is proved there - and with the table in
    `LeaseKeeping` - is proved of every row the worker loop tracks. */
module WorkerTiming {
  import opened Basics
  import opened Backoff
  import opened DispatcherState
  import opened Protocol
  import opened ProtocolSafety
  import opened OutboxTable
  import opened WorkerSpec
  import LeaseTiming
  import LeaseKeeping
  import TableRuns

  function TaskIds(ts: seq<Task>): set<MessageId> {
    set t | t in ts :: t.claim.id
  }

  function CompleteIds(us: seq<Stamped<Claimed>>): set<MessageId> {
    set u | u in us :: u.item.id
  }

  function FailIds(us: seq<Stamped<FailedMessage>>): set<MessageId> {
    set u | u in us :: u.item.claim.id
  }

  /** The rows a dispatcher tracks: in flight, or waiting for their outcome to be written. */
  function TrackedIds(d: Dispatcher): set<MessageId> {
    TaskIds(d.outstanding) + CompleteIds(d.unwrittenComplete) + FailIds(d.unwrittenFail)
  }

  // ---------------------------------------------------------------- the statements behind the branches

  lemma TaskItemIds(ts: seq<Task>)
    ensures IdsOf(TaskItems(ts)) == TaskIds(ts)
  {
    forall t | t in ts ensures t.claim in TaskItems(ts) {
      var i :| 0 <= i < |ts| && ts[i] == t;
      assert TaskItems(ts)[i] == t.claim;
    }
  }

  lemma CompleteItemIds(us: seq<Stamped<Claimed>>)
    ensures IdsOf(CompleteItems(us)) == CompleteIds(us)
  {
    forall u | u in us ensures u.item in CompleteItems(us) {
      var i :| 0 <= i < |us| && us[i] == u;
      assert CompleteItems(us)[i] == u.item;
    }
  }

  lemma FailRefIds(us: seq<Stamped<FailedMessage>>)
    ensures IdsOf(FailRefs(us)) == FailIds(us)
  {
    forall u | u in us ensures u.item.claim in FailRefs(us) {
      var i :| 0 <= i < |us| && us[i] == u;
      assert FailRefs(us)[i] == u.item.claim;
    }
  }

  lemma IdsOfConcat(a: seq<Claimed>, b: seq<Claimed>)
    ensures IdsOf(a + b) == IdsOf(a) + IdsOf(b)
  {
  }

  /** A renewal names exactly the tracked rows; so, committed at `now`, it is the statement the timing of
      a landed renewal is about. */
  lemma RenewalCoversTracked(p: nat, d: Dispatcher, c: nat, e: Step)
    requires e.Commit?
    ensures IdsOf(LeaseRefs(d)) == TrackedIds(d)
    ensures var st := NextStmt(c, Call(p, d.worker, Ask(d, AskExtend(c)), 0, [], {}, false), e);
            LeaseKeeping.Renews(st, d.worker, e.now, Interval(d.settings.lease), TrackedIds(d))
  {
    TaskItemIds(d.outstanding);
    CompleteItemIds(d.unwrittenComplete);
    FailRefIds(d.unwrittenFail);
    IdsOfConcat(TaskItems(d.outstanding), CompleteItems(d.unwrittenComplete));
    IdsOfConcat(TaskItems(d.outstanding) + CompleteItems(d.unwrittenComplete), FailRefs(d.unwrittenFail));
  }

  /** And the claim behind a batch, committed at `now`, covers the rows of the batch. */
  lemma ClaimCoversBatch(p: nat, d: Dispatcher, c: nat, e: Step, rows: map<MessageId, Row>)
    requires e.Commit? && Lists(e.order, rows, e.ids)
    ensures var st := NextStmt(c, Call(p, d.worker, Ask(d, AskAcquire(c)), 0, [], {}, false), e);
            LeaseKeeping.Grabs(st, d.worker, e.now, Interval(d.settings.lease), IdsOf(Records(e.order, rows, c)))
  {
    var batch := Records(e.order, rows, c);
    forall x | x in batch ensures x.id in e.ids {
      var i :| 0 <= i < |batch| && batch[i] == x;
      assert e.order[i] in e.order;
    }
  }

  // ---------------------------------------------------------------- what a turn does to the tracked rows

  lemma StartsTracked(d: Dispatcher, tid: nat)
    ensures TrackedIds(Starts(d, tid)) == TrackedIds(d)
  {
    var ts, ts' := d.outstanding, WithStatus(d.outstanding, tid, Publishing);
    forall t | t in ts ensures t.claim.id in TaskIds(ts') {
      var i :| 0 <= i < |ts| && ts[i] == t;
      assert ts'[i] in ts';
    }
    forall t | t in ts' ensures t.claim.id in TaskIds(ts) {
      var i :| 0 <= i < |ts'| && ts'[i] == t;
      assert ts[i] in ts;
    }
  }

  lemma JoinTracked(d: Dispatcher, resolutions: seq<Resolution>, b: ExponentialBackoff)
    requires ProcOk(d) && OncePerTask(resolutions)
    ensures TrackedIds(JoinTurn(d, resolutions, b)) <= TrackedIds(d)
  {
    var ended := Ended(d.outstanding, resolutions);
    EndedOnce(d.outstanding, resolutions);
    JoinsTell(d.outstanding, ended, b);
    RecordAllTracked(d, Joins(d.outstanding, ended, b));
  }

  lemma RecordAllTracked(d: Dispatcher, results: seq<Joined>)
    requires ProcOk(d) && AllJoinable(d.outstanding, results)
    ensures TrackedIds(RecordAll(d, results)) <= TrackedIds(d)
  {
    RecordAllKeeps(d, results);
    RecordedExactly(d, results);
    forall j | j in results && j.Done? ensures j.claim.id in TaskIds(d.outstanding) {
      assert Joinable(d.outstanding, j);
    }
  }

  lemma RoundTracked(d: Dispatcher, complete: Reply, fail: Reply, between: Time)
    ensures TrackedIds(Round(d, complete, fail, between)) <= TrackedIds(d)
  {
    RoundGuarantee(d, complete, fail, between);
    RoundFrame(d, complete, fail, between);
  }

  lemma TakenTracked(d: Dispatcher, batch: seq<Claimed>)
    ensures TrackedIds(Taken(d, batch)) == TrackedIds(d) + IdsOf(batch)
  {
    var tasks := Spawned(batch, d.nextTask);
    forall c | c in batch ensures c.id in TaskIds(tasks) {
      var i :| 0 <= i < |batch| && batch[i] == c;
      assert tasks[i] in tasks;
    }
    assert TaskIds(d.outstanding + tasks) == TaskIds(d.outstanding) + TaskIds(tasks);
    assert TaskIds(tasks) == IdsOf(batch);
  }

  /** A turn tracks the rows of the batch it receives, and no others it did not track before. */
  lemma TurnTracked(d: Dispatcher, turn: Turn, b: ExponentialBackoff)
    requires ProcOk(d) && WellFormedTurn(turn)
    ensures turn.event.Acquired? ==>
              TrackedIds(TurnOf(d, turn, b)) == TrackedIds(d) + IdsOf(BatchOf(d, turn))
    ensures !turn.event.Acquired? ==> TrackedIds(TurnOf(d, turn, b)) <= TrackedIds(d)
    ensures !turn.event.Acquired? && !turn.event.TasksEnd? && !turn.event.OutcomesRetried? ==>
              TrackedIds(TurnOf(d, turn, b)) == TrackedIds(d)
  {
    var d1 := At(d, turn.at);
    assert TrackedIds(d1) == TrackedIds(d);
    SameBooks(d, d.waiting, d1.now);
    match turn.event
    case TaskStarts(tid) => StartsTracked(d1, tid);
    case TasksEnd(resolutions) => JoinTracked(d1, resolutions, b);
    case OutcomesRetried(complete, fail, between) => RoundTracked(d1, complete, fail, between);
    case Acquired(batch) => TakenTracked(d1, batch);
    case _ =>
  }

  // ---------------------------------------------------------------- turn and branch

  /** The branch a turn takes, in time: the rows it drops are those the worker drops, the rows it claims
      those of the batch. A task that gets its permit is no branch of the loop's: it takes no time. */
  predicate Times(d: Dispatcher, d': Dispatcher, turn: Turn, br: LeaseTiming.Branch) {
    match turn.event
    case TaskStarts(_) => br == LeaseTiming.JoinedTasks({})
    case TasksEnd(_) => br == LeaseTiming.JoinedTasks(TrackedIds(d) - TrackedIds(d'))
    case Idles => br.Waited? || br.Polled?
    case LeaseTicks => br.Renewed?
    case OutcomesRetried(_, _, _) => br.RetriedOutcomes? && br.written == TrackedIds(d) - TrackedIds(d')
    case Acquired(_) => br.Acquired? && br.rows == IdsOf(BatchOf(d, turn))
    case AcquireFails(_) => br.Acquired? && br.rows == {}
  }

  /** One turn keeps the rows held and the rows tracked the same. */
  lemma BranchHoldsTracked(s: Settings, l: LeaseTiming.Loop, br: LeaseTiming.Branch, d: Dispatcher, turn: Turn,
                           b: ExponentialBackoff)
    requires ProcOk(d) && WellFormedTurn(turn) && Times(d, TurnOf(d, turn, b), turn, br)
    requires l.held.Keys == TrackedIds(d)
    ensures LeaseTiming.Run1(s, l, br).held.Keys == TrackedIds(TurnOf(d, turn, b))
  {
    TurnTracked(d, turn, b);
  }

  ghost predicate TimesAt(ds: seq<Dispatcher>, script: seq<Turn>, branches: seq<LeaseTiming.Branch>, i: nat)
    requires i < |script| && i + 1 < |ds| && i < |branches|
  {
    Times(ds[i], ds[i + 1], script[i], branches[i])
  }

  /** A trace of the loop and a trace of its timing, turn by turn. */
  ghost predicate Together(d: Dispatcher, script: seq<Turn>, b: ExponentialBackoff, ds: seq<Dispatcher>,
                           loops: seq<LeaseTiming.Loop>, branches: seq<LeaseTiming.Branch>) {
    && Trace(d, script, b, ds) && WellFormedScript(script) && Ready(d) && TrackedIds(d) == {}
    && LeaseTiming.Trace(d.settings, loops, branches) && |loops| == |ds|
    && forall i: nat | i < |branches| :: TimesAt(ds, script, branches, i)
  }

  /** At every loop head the rows whose leases are timed are the rows the worker tracks. */
  lemma {:induction false} HeldIsTracked(d: Dispatcher, script: seq<Turn>, b: ExponentialBackoff, ds: seq<Dispatcher>,
                                         loops: seq<LeaseTiming.Loop>, branches: seq<LeaseTiming.Branch>, k: nat)
    requires Together(d, script, b, ds, loops, branches) && k < |ds|
    ensures loops[k].held.Keys == TrackedIds(ds[k])
  {
    if k > 0 {
      HeldIsTracked(d, script, b, ds, loops, branches, k - 1);
      TraceIsReady(d, script, b, ds, k - 1);
      assert TurnAt(ds, script, b, k - 1) && WellFormedTurn(script[k - 1]) && TimesAt(ds, script, branches, k - 1);
      BranchHoldsTracked(d.settings, loops[k - 1], branches[k - 1], ds[k - 1], script[k - 1], b);
    }
  }

  /** Every row the worker loop tracks, at every loop head, is renewed within a lease ... */
  lemma TrackedRenewedInTime(d: Dispatcher, script: seq<Turn>, b: ExponentialBackoff, ds: seq<Dispatcher>,
                             loops: seq<LeaseTiming.Loop>, branches: seq<LeaseTiming.Branch>, k: nat, c: Claimed)
    requires Together(d, script, b, ds, loops, branches) && k < |ds| && c in LeaseRefs(ds[k])
    requires LeaseTiming.Worst(d.settings) < d.settings.lease
    ensures c.id in loops[k].held && loops[k].now - loops[k].held[c.id].asked < d.settings.lease
  {
    RenewedIsTracked(ds[k], c);
    HeldIsTracked(d, script, b, ds, loops, branches, k);
    LeaseTiming.RenewsInTimeExactly(d.settings);
    assert LeaseTiming.HeldAt(loops, k, c.id);
  }

  lemma RenewedIsTracked(d: Dispatcher, c: Claimed)
    requires c in LeaseRefs(d)
    ensures c.id in TrackedIds(d)
  {
    RenewalCoversTracked(0, d, 0, Commit(0, 0, {}, {}, [], map[]));
  }

  /** ... and if the renewals land and fit in the lease as granted, the row is kept: nobody else touches it
      until the worker's own outcome write has closed its lease. */
  lemma TrackedByLoopIsKept(d: Dispatcher, script: seq<Turn>, b: ExponentialBackoff, ds: seq<Dispatcher>,
                            loops: seq<LeaseTiming.Loop>, branches: seq<LeaseTiming.Branch>, dbs: seq<Db>,
                            sts: seq<Stmt>, at: seq<nat>, k: nat, c: Claimed)
    requires Together(d, script, b, ds, loops, branches) && k < |ds| && c in LeaseRefs(ds[k])
    requires LeaseKeeping.Synced(d.settings, d.worker, loops, branches, dbs, sts, at) && at[k] <= |sts|
    requires LeaseKeeping.AllLand(branches) && LeaseKeeping.RenewsSafely(d.settings)
    ensures c.id in loops[k].held && LeaseKeeping.KeptAt(d.settings, d.worker, loops, dbs, sts, at, k, c.id)
  {
    RenewedIsTracked(ds[k], c);
    HeldIsTracked(d, script, b, ds, loops, branches, k);
    LeaseKeeping.TrackedRowsAreKept(d.settings, d.worker, loops, branches, dbs, sts, at, k, c.id);
  }
}
