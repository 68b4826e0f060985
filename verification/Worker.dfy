/** The worker loop as a program: an object with the loop's own collections, updated in place, held to
    the specification of its turns. */
module WorkerLoop {
  import opened Basics
  import opened Backoff
  import opened DispatcherState
  import opened Protocol
  import opened ProtocolSafety
  import opened WorkerSpec
  import opened WorkerActs
  import opened WorkerProgress
  import Runs = ProtocolRuns

  // ---------------------------------------------------------------- loops over the collections

  /** `retain` in `expire_past_lease`. */
  method Retain<T>(us: seq<Stamped<T>>, now: Time, lease: nat) returns (kept: seq<Stamped<T>>, givenUp: seq<Stamped<T>>)
    ensures kept == Kept(us, now, lease) && givenUp == GivenUp(us, now, lease)
  {
    kept, givenUp := [], [];
    for i := 0 to |us|
      invariant kept + Kept(us[i..], now, lease) == Kept(us, now, lease)
      invariant givenUp + GivenUp(us[i..], now, lease) == GivenUp(us, now, lease)
    {
      assert us[i..][1..] == us[i + 1..];
      if PastLease(us[i].since, now, lease) {
        givenUp := givenUp + [us[i]];
      } else {
        kept := kept + [us[i]];
      }
    }
    assert us[|us|..] == [];
  }

  /** `retain` at cancellation: tasks that hold a permit stay, the others are aborted. */
  method AbortUnstarted(ts: seq<Task>) returns (kept: seq<Task>, refs: seq<Claimed>)
    ensures kept == Started(ts) && refs == Unstarted(ts)
  {
    kept, refs := [], [];
    for i := 0 to |ts|
      invariant kept + Started(ts[i..]) == Started(ts)
      invariant refs + Unstarted(ts[i..]) == Unstarted(ts)
    {
      assert ts[i..][1..] == ts[i + 1..];
      if ts[i].status.Queued? {
        refs := refs + [ts[i].claim];
      } else {
        kept := kept + [ts[i]];
      }
    }
    assert ts[|ts|..] == [];
  }

  method Find(ts: seq<Task>, tid: nat) returns (found: Option<Task>)
    ensures found == FindTask(ts, tid)
  {
    for i := 0 to |ts|
      invariant FindTask(ts, tid) == FindTask(ts[i..], tid)
    {
      assert ts[i..][1..] == ts[i + 1..];
      if ts[i].tid == tid {
        return Some(ts[i]);
      }
    }
    found := None;
  }

  /** The JoinSet yields nothing for a task still waiting for its permit. */
  method DropUnstarted(ts: seq<Task>, resolutions: seq<Resolution>) returns (ended: seq<Resolution>)
    ensures ended == Ended(ts, resolutions)
  {
    ended := [];
    for i := 0 to |resolutions|
      invariant ended == Ended(ts, resolutions[..i])
    {
      assert resolutions[..i + 1][..i] == resolutions[..i];
      var task := Find(ts, resolutions[i].tid);
      if task.None? || !task.value.status.Queued? {
        ended := ended + [resolutions[i]];
      }
    }
    assert resolutions[..|resolutions|] == resolutions;
  }

  /** What the JoinSet yields for a batch of tasks that ended. */
  method Collect(ts: seq<Task>, resolutions: seq<Resolution>, policy: ExponentialBackoff) returns (results: seq<Joined>)
    ensures results == Joins(ts, resolutions, policy)
  {
    results := [];
    for i := 0 to |resolutions|
      invariant results == Joins(ts, resolutions[..i], policy)
    {
      var r := resolutions[i];
      var task := Find(ts, r.tid);
      match task {
        case None => results := results + [JoinFailed(r.tid)];
        case Some(t) =>
          match r.outcome
          case TaskPanicked => results := results + [JoinFailed(r.tid)];
          case PublishedOk => results := results + [Done(r.tid, t.claim, Published)];
          case PublishFailed(kind) =>
            var outcome := Next(policy, t.claim.attempts, kind, r.unit);
            results := results + [Done(r.tid, t.claim, Failed(outcome))];
      }
    }
    assert resolutions[..|resolutions|] == resolutions;
  }

  // ---------------------------------------------------------------- the worker

  class Worker {
    const worker: WorkerId
    const settings: Settings
    const policy: ExponentialBackoff
    var phase: Phase
    var now: Time
    var pending: seq<Claimed>
    var outstanding: seq<Task>
    var unwrittenComplete: seq<Stamped<Claimed>>
    var unwrittenFail: seq<Stamped<FailedMessage>>
    var nextTask: nat
    ghost var ledger: Ledger

    ghost function View(): Dispatcher
      reads this
    {
      Dispatcher(worker, settings, Some(policy), phase, now, None, pending, outstanding, unwrittenComplete,
          unwrittenFail, nextTask, ledger)
    }

    constructor (worker: WorkerId, settings: Settings, policy: ExponentialBackoff)
      ensures this.worker == worker && this.settings == settings && this.policy == policy
      ensures View() == Dispatcher(worker, settings, Some(policy), Running, 0, None, [], [], [], [], 0, NO_LEDGER)
    {
      this.worker, this.settings, this.policy := worker, settings, policy;
      phase, now, nextTask, ledger := Running, 0, 0, NO_LEDGER;
      pending, outstanding, unwrittenComplete, unwrittenFail := [], [], [], [];
    }

    method Advance(to: Time)
      modifies this
      ensures View() == At(old(View()), to)
    {
      now := Later(now, to);
    }

    /** `spawn_ready`: every pending row becomes a task. */
    method SpawnReady()
      modifies this
      ensures View() == DispatcherState.SpawnReady(old(View()))
    {
      ghost var claims, tasks, first := pending, outstanding, nextTask;
      ghost var k := 0;
      while pending != []
        invariant k <= |claims| && pending == claims[k..] && nextTask == first + k
        invariant outstanding == tasks + Spawned(claims[..k], first)
        invariant phase == old(phase) && now == old(now) && ledger == old(ledger)
        invariant unwrittenComplete == old(unwrittenComplete) && unwrittenFail == old(unwrittenFail)
        decreases |pending|
      {
        assert Spawned(claims[..k + 1], first) == Spawned(claims[..k], first) + [Task(nextTask, pending[0], Queued)];
        outstanding := outstanding + [Task(nextTask, pending[0], Queued)];
        pending, nextTask, k := pending[1..], nextTask + 1, k + 1;
      }
      assert claims[..k] == claims;
    }

    /** `record_publish_results`. */
    method RecordPublishResults(results: seq<Joined>)
      modifies this
      ensures View() == RecordAll(old(View()), results)
    {
      for i := 0 to |results|
        invariant View() == RecordAll(old(View()), results[..i])
      {
        assert results[..i + 1][..i] == results[..i];
        var j := results[i];
        ghost var before := outstanding;
        outstanding := Remove(outstanding, j.tid);
        match j
        case JoinFailed(_) =>
          ledger := ledger.(panicked := ledger.panicked + (Tasks(before) - Tasks(outstanding)));
        case Done(_, claim, Published) =>
          unwrittenComplete := unwrittenComplete + [Stamped(now, claim)];
          ledger := ledger.(observedOk := ledger.observedOk + multiset{claim});
        case Done(_, claim, Failed(outcome)) =>
          unwrittenFail := unwrittenFail + [Stamped(now, FailedMessage(claim, outcome))];
      }
      assert results[..|results|] == results;
    }

    method WriteCompletes(reply: Reply) returns (halted: bool)
      modifies this
      ensures halted == (old(unwrittenComplete) != [] && Halts(reply))
      ensures View() == if halted then old(View()) else CompleteHalf(old(View()), reply)
    {
      if unwrittenComplete != [] && Halts(reply) {
        return true;
      }
      if reply.Accepted? {
        ledger := ledger.(completed := ledger.completed + Completes(unwrittenComplete));
        unwrittenComplete := [];
      }
      var kept, givenUp := Retain(unwrittenComplete, now, settings.lease);
      unwrittenComplete := kept;
      ledger := ledger.(gaveUpComplete := ledger.gaveUpComplete + Completes(givenUp));
      halted := false;
    }

    method WriteFails(reply: Reply) returns (halted: bool)
      modifies this
      ensures halted == (old(unwrittenFail) != [] && Halts(reply))
      ensures View() == if halted then old(View()) else FailHalf(old(View()), reply)
    {
      if unwrittenFail != [] && Halts(reply) {
        return true;
      }
      if reply.Accepted? {
        ledger := ledger.(failed := ledger.failed + Fails(unwrittenFail));
        unwrittenFail := [];
      }
      var kept, givenUp := Retain(unwrittenFail, now, settings.lease);
      unwrittenFail := kept;
      ledger := ledger.(gaveUpFail := ledger.gaveUpFail + Fails(givenUp));
      halted := false;
    }

    /** `retry_unwritten_outcomes`: the completes, then the failures; a write refused for good ends the
        round at once, and with it the worker. */
    method RetryUnwrittenOutcomes(complete: Reply, fail: Reply, between: Time) returns (fatal: bool)
      modifies this
      ensures View() == Round(old(View()), complete, fail, between)
      ensures fatal == if old(unwrittenComplete) != [] && Halts(complete) then complete.Fatal?
                       else old(unwrittenFail) != [] && fail.Fatal?
    {
      var halted := WriteCompletes(complete);
      if halted {
        return complete.Fatal?;
      }
      Advance(between);
      halted := WriteFails(fail);
      fatal := halted && fail.Fatal?;
    }

    /** Cancellation: what never started is aborted and handed back. */
    method StopStarting() returns (released: seq<Claimed>)
      modifies this
      ensures View() == DispatcherState.StopStarting(old(View()))
      ensures released == old(pending) + Unstarted(old(outstanding))
    {
      var kept, refs := AbortUnstarted(outstanding);
      released := pending + refs;
      ledger := ledger.(released := ledger.released + Batch(pending) + Batch(refs));
      phase, pending, outstanding := Draining, [], kept;
    }

    /** The end of the drain: what failed or never resolved is handed back; what was published but never
        written is left to its lease. */
    method FinishDrain() returns (released: seq<Claimed>)
      modifies this
      ensures View() == DispatcherState.FinishDrain(old(View()))
      ensures released == TaskItems(old(outstanding)) + FailRefs(old(unwrittenFail))
    {
      released := TaskItems(outstanding) + FailRefs(unwrittenFail);
      ledger := ledger.(released := ledger.released + Tasks(outstanding) + Fails(unwrittenFail),
                        leftToLease := ledger.leftToLease + Completes(unwrittenComplete));
      phase, outstanding, unwrittenComplete, unwrittenFail := Stopped, [], [], [];
    }

    /** Tasks that ended are no longer tracked and become unwritten outcomes. */
    method JoinTasks(resolutions: seq<Resolution>)
      modifies this
      ensures View() == JoinTurn(old(View()), resolutions, policy)
    {
      var ended := DropUnstarted(outstanding, resolutions);
      var results := Collect(outstanding, ended, policy);
      RecordPublishResults(results);
    }

    /** A claimed batch is tracked at once. */
    method Accept(batch: seq<Claimed>)
      modifies this
      ensures View() == Taken(old(View()), batch)
    {
      pending := batch;
      ledger := ledger.(received := ledger.received + Batch(batch));
      SpawnReady();
    }

    /** A queued task gets a permit if there is one. */
    method StartTask(tid: nat)
      modifies this
      ensures View() == Starts(old(View()), tid)
    {
      var task := Find(outstanding, tid);
      if task.Some? && task.value.status.Queued? && Permits(outstanding) < settings.maxInFlight {
        outstanding := WithStatus(outstanding, tid, Publishing);
      }
    }

    /** One iteration of the `select!` loop. */
    method TakeTurn(turn: Turn) returns (stop: bool)
      modifies this
      ensures View() == TurnOf(old(View()), turn, policy) && stop == Stops(old(View()), turn)
    {
      var load := |outstanding| + |unwrittenComplete| + |unwrittenFail|;
      var capacity := if settings.maxInFlight >= load then settings.maxInFlight - load else 0;
      var want := Min(settings.batchSize, capacity);
      Advance(turn.at);
      stop := false;
      match turn.event
      case TaskStarts(tid) => StartTask(tid);
      case TasksEnd(resolutions) => JoinTasks(resolutions);
      case Idles =>
      case LeaseTicks =>
      case OutcomesRetried(complete, fail, between) => stop := RetryUnwrittenOutcomes(complete, fail, between);
      case Acquired(batch) =>
        if want > 0 {
          Accept(batch);
        }
      case AcquireFails(fatal) => stop := fatal && want > 0;
    }
  }

  /** `run`: the loop until cancellation or a fatal store error, then the shutdown. `ds` are the worker's
      states at the loop heads. At each of them no more than `max_in_flight` tasks publish, whatever the
      store returned, and no more than `max_in_flight` rows are held if it returned no more than asked.
      The whole run is a sequence of the composed system's local acts, if the policy is a valid one.
      When `run` returns, everything received in the turns taken is settled exactly once, what was seen
      published only as written, given up on or left to its lease - never released. */
  method Run(w: Worker, script: seq<Turn>, drain: seq<DrainTurn>, complete: Reply, fail: Reply)
    returns (ghost ds: seq<Dispatcher>, ghost moves: seq<Move>, early: seq<Claimed>, late: seq<Claimed>,
             failed: bool)
    requires Ready(w.View()) && w.phase.Running? && Load(w.View()) <= w.settings.maxInFlight
    requires WellFormedScript(script) && WellFormedDrain(drain)
    modifies w
    ensures Trace(old(w.View()), script, w.policy, ds)
    ensures forall k | 0 <= k < |ds| :: Permits(ds[k].outstanding) <= w.settings.maxInFlight && ds[k].pending == []
    ensures Honest(ds, script) ==> forall k | 0 <= k < |ds| :: Load(ds[k]) <= w.settings.maxInFlight
    ensures var last := DispatcherState.StopStarting(ds[|ds| - 1]);
            var end := BeforeFinish(last, drain, complete, fail, w.policy);
            && w.View() == DispatcherState.FinishDrain(end)
            && early == ds[|ds| - 1].pending + Unstarted(ds[|ds| - 1].outstanding)
            && late == TaskItems(end.outstanding) + FailRefs(end.unwrittenFail)
            && DrainDone(last, drain, end.outstanding, w.ledger)
            && (failed <==> (|ds| > 1 && StopsAt(ds, script, |ds| - 2))
                            || DrainFails(last, drain, complete, fail, w.policy))
    ensures w.ledger.received == old(w.ledger).received + ReceivedBy(ds, script, |ds| - 1)
    ensures AllSettled(w.ledger)
    ensures Validate(w.policy) == None ==> Does(old(w.View()), moves, 0, w.View())
  {
    var stopped, drainFailed;
    ds, stopped := RunLoop(w, script);
    TraceFacts(old(w.View()), script, w.policy, ds);
    StopStartingKeeps(w.View());
    StartedMembers(w.outstanding);
    Runs.FewerPermits(w.outstanding, 0);
    early := w.StopStarting();
    late, drainFailed := Drain(w, drain, complete, fail);
    failed := stopped || drainFailed;
    moves := [];
    if Validate(w.policy) == None {
      moves := RunIsActs(old(w.View()), script, w.policy, ds, drain, complete, fail, 0);
    }
  }

  /** The loop itself. */
  method RunLoop(w: Worker, script: seq<Turn>) returns (ghost ds: seq<Dispatcher>, stop: bool)
    modifies w
    ensures Trace(old(w.View()), script, w.policy, ds) && w.View() == ds[|ds| - 1]
    ensures stop <==> |ds| > 1 && StopsAt(ds, script, |ds| - 2)
  {
    var i := 0;
    stop := false;
    ds := [w.View()];
    while i < |script| && !stop
      invariant i <= |script| && TraceSoFar(old(w.View()), script, w.policy, ds, i, stop) && w.View() == ds[i]
    {
      stop := w.TakeTurn(script[i]);
      TraceGrows(old(w.View()), script, w.policy, ds, i, w.View());
      ds := ds + [w.View()];
      i := i + 1;
    }
  }

  /** The first `i` turns of a trace; `stop` if the last of them ended it. */
  ghost predicate TraceSoFar(d: Dispatcher, script: seq<Turn>, b: ExponentialBackoff, ds: seq<Dispatcher>, i: nat,
                             stop: bool)
    requires i <= |script|
  {
    && |ds| == i + 1 && ds[0] == d
    && (forall k: nat | k < i :: TurnAt(ds, script, b, k))
    && (forall k: nat | k < i - 1 :: !StopsAt(ds, script, k))
    && (stop <==> i > 0 && StopsAt(ds, script, i - 1))
  }

  lemma TraceGrows(d: Dispatcher, script: seq<Turn>, b: ExponentialBackoff, ds: seq<Dispatcher>, i: nat,
                   next: Dispatcher)
    requires i < |script| && TraceSoFar(d, script, b, ds, i, false) && next == TurnOf(ds[i], script[i], b)
    ensures TraceSoFar(d, script, b, ds + [next], i + 1, Stops(ds[i], script[i]))
  {
    var ds' := ds + [next];
    forall k: nat | k < i + 1 ensures TurnAt(ds', script, b, k) {
      assert k < i ==> TurnAt(ds, script, b, k);
    }
    forall k: nat | k < i ensures !StopsAt(ds', script, k) {
      assert StopsAt(ds', script, k) == StopsAt(ds, script, k);
    }
  }

  /** What the specification says of every loop head. */
  lemma TraceFacts(d: Dispatcher, script: seq<Turn>, b: ExponentialBackoff, ds: seq<Dispatcher>)
    requires Trace(d, script, b, ds) && WellFormedScript(script)
    requires Ready(d) && Load(d) <= d.settings.maxInFlight
    ensures forall k | 0 <= k < |ds| :: Permits(ds[k].outstanding) <= d.settings.maxInFlight && ds[k].pending == []
    ensures Honest(ds, script) ==> forall k | 0 <= k < |ds| :: Load(ds[k]) <= d.settings.maxInFlight
    ensures Ready(ds[|ds| - 1])
    ensures ds[|ds| - 1].ledger.received == d.ledger.received + ReceivedBy(ds, script, |ds| - 1)
  {
    forall k | 0 <= k < |ds|
      ensures Permits(ds[k].outstanding) <= d.settings.maxInFlight && ds[k].pending == []
      ensures Honest(ds, script) ==> Load(ds[k]) <= d.settings.maxInFlight
    {
      TraceIsReady(d, script, b, ds, k);
      if Honest(ds, script) {
        HonestLoadBounded(d, script, b, ds, k);
      }
    }
    TraceIsReady(d, script, b, ds, |ds| - 1);
    TraceReceives(d, script, b, ds, |ds| - 1);
  }

  /** `drain`: joins what still resolves, writing outcomes as they come; one last round unless a write
      was refused for good; then everything left is handed back or left to its lease. */
  method Drain(w: Worker, drain: seq<DrainTurn>, complete: Reply, fail: Reply)
    returns (released: seq<Claimed>, failed: bool)
    requires Ready(w.View()) && WellFormedDrain(drain)
    modifies w
    ensures var end := BeforeFinish(old(w.View()), drain, complete, fail, w.policy);
            && w.View() == DispatcherState.FinishDrain(end)
            && released == TaskItems(end.outstanding) + FailRefs(end.unwrittenFail)
            && DrainDone(old(w.View()), drain, end.outstanding, w.ledger)
    ensures failed == DrainFails(old(w.View()), drain, complete, fail, w.policy)
    ensures forall c | c in released && w.ledger.received[c] == 1 :: c !in w.ledger.observedOk
    ensures AllSettled(w.ledger) && w.ledger.received == old(w.ledger).received
  {
    ghost var end := BeforeFinish(w.View(), drain, complete, fail, w.policy);
    DrainSettles(w.View(), drain, complete, fail, w.policy);
    DrainAchieves(w.View(), drain, complete, fail, w.policy);
    failed := DrainLoop(w, drain);
    if !failed {
      failed := w.RetryUnwrittenOutcomes(complete, fail, w.now);
    }
    released := w.FinishDrain();
    forall c | c in released && w.ledger.received[c] == 1 ensures c !in w.ledger.observedOk {
      if c in w.ledger.observedOk {
        PublishedNotHandedBack(end, c);
      }
    }
  }

  method DrainOnce(w: Worker, t: DrainTurn) returns (fatal: bool)
    modifies w
    ensures w.View() == DrainTurnOf(old(w.View()), t, w.policy)
    ensures fatal == FatalRound(Joined1(old(w.View()), t, w.policy), t.complete, t.fail)
  {
    w.Advance(t.at);
    w.JoinTasks(t.resolutions);
    fatal := w.RetryUnwrittenOutcomes(t.complete, t.fail, w.now);
  }

  method DrainLoop(w: Worker, drain: seq<DrainTurn>) returns (fatal: bool)
    modifies w
    ensures (w.View(), fatal) == Drained(old(w.View()), drain, w.policy)
  {
    var i := 0;
    fatal := false;
    while i < |drain| && w.outstanding != [] && !fatal
      invariant i <= |drain|
      invariant !fatal ==> Drained(w.View(), drain[i..], w.policy) == Drained(old(w.View()), drain, w.policy)
      invariant fatal ==> (w.View(), true) == Drained(old(w.View()), drain, w.policy)
    {
      assert drain[i..][1..] == drain[i + 1..];
      fatal := DrainOnce(w, drain[i]);
      i := i + 1;
    }
  }
}
