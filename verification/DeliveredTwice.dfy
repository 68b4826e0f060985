/** A duplicate that needs no crash, no shutdown and no lapsed lease. A failure is written and the reply is
    lost; the worker claims the row anew and, while the new publish is in flight, writes the failure
    again. That ends the new lease, so the row is claimed a third time - and both publishes succeed. */
module DeliveredTwice {
  import opened Basics
  import opened Backoff
  import opened DispatcherState
  import opened OutboxTable
  import opened Protocol
  import opened ProtocolSafety
  import opened ProtocolRuns
  import opened BudgetLimits

  /** Some uneventful run with calls numbered below `n` ends with this worker and this row. */
  ghost predicate Gets(d: Dispatcher, r: Row, n: nat) {
    exists calls :: Reaches(d, r, calls, POLICY) && Below(calls, n)
  }

  ghost predicate Below(calls: map<nat, Call>, n: nat) {
    forall c | c in calls :: c < n
  }

  lemma GetsLocal(d: Dispatcher, r: Row, n: nat, a: Act)
    requires Gets(d, r, n) && ActEnabled(d, a) && !Asks(a) && !a.ReplyOk? && !a.Join?
    ensures Gets(Acted(d, a), r, n)
  {
    var calls :| Reaches(d, r, calls, POLICY) && Below(calls, n);
    ReachLocal(d, r, calls, POLICY, a);
    assert CallsAfter(0, d, a, calls) == calls;
  }

  /** A worker with room for one row, whose `acquire` is call `n`. */
  predicate HasRoomForOne(d: Dispatcher) {
    && d.worker == "w" && d.settings == SETTINGS && d.phase.Running? && d.waiting.None? && d.pending == []
    && Load(d) == 1
  }

  function Granted(r: Row, now: Time): Row {
    BudgetLimits.Leased(r, now)
  }

  /** The claim commits. */
  lemma ClaimCommits(d: Dispatcher, r: Row, calls: map<nat, Call>, n: nat, now: Time)
    requires Reaches(d, r, calls, POLICY) && Below(calls, n) && HasRoomForOne(d)
    requires Claimable(r, now) && r.decodable && 0 <= now < SETTINGS.lease
    ensures Reaches(d.(waiting := Some(n)), Granted(r, now), calls[n := Advanced(n, Acquire(1), r)], POLICY)
  {
    ReachLocal(d, r, calls, POLICY, AskAcquire(n));
    assert CallsAfter(0, d, AskAcquire(n), calls) == calls[n := Acquire(1)];
    ReachCommit(d.(waiting := Some(n)), r, calls[n := Acquire(1)], POLICY, Commit(n, now, {}, {M}, [M], map[]));
    assert calls[n := Acquire(1)][n := Advanced(n, Acquire(1), r)] == calls[n := Advanced(n, Acquire(1), r)];
  }

  lemma RepliedIsTaken(d: Dispatcher, n: nat, call: Call)
    requires d.pending == [] && d.waiting.None? && call.request.AcquireReq?
    ensures Replied(d.(waiting := Some(n)), call) == Taken(d, call.batch)
  {
    assert d.pending + call.batch == call.batch;
  }

  /** And is answered with the one row. */
  lemma ClaimAnswered(d: Dispatcher, r: Row, calls: map<nat, Call>, n: nat, half: Call, attempts: nat)
    requires half == Acquire(1).(stage := 1, batch := [Claimed(n, M, attempts)])
    requires Reaches(d.(waiting := Some(n)), r, calls[n := half], POLICY) && Below(calls, n) && HasRoomForOne(d)
    ensures Gets(Taken(d, [Claimed(n, M, attempts)]), r, n + 1)
  {
    var waiting, full := d.(waiting := Some(n)), half.(stage := 2);
    ReachCommit(waiting, r, calls[n := half], POLICY, Commit(n, 0, {}, {}, [], map[]));
    assert calls[n := half][n := full] == calls[n := full];
    ReachReply(waiting, r, calls[n := full], POLICY, n);
    RepliedIsTaken(d, n, full);
    assert Below(calls[n := full][n := full.(answered := true)], n + 1);
  }

  lemma GetsBatch(d: Dispatcher, r: Row, n: nat, now: Time)
    requires Gets(d, r, n) && HasRoomForOne(d) && Claimable(r, now) && r.decodable && 0 <= now < SETTINGS.lease
    ensures Gets(Taken(d, [Claimed(n, M, r.attempts)]), Granted(r, now), n + 1)
  {
    var calls :| Reaches(d, r, calls, POLICY) && Below(calls, n);
    ClaimCommits(d, r, calls, n, now);
    ClaimAnswered(d, Granted(r, now), calls, n, Advanced(n, Acquire(1), r), r.attempts);
  }

  /** A worker that owes the one failure. */
  predicate Owes(d: Dispatcher) {
    && d.worker == "w" && d.phase.Running? && d.waiting.None?
    && FailItems(d.unwrittenFail) == [FAILURE]
  }

  lemma ReportCommits(d: Dispatcher, r: Row, calls: map<nat, Call>, n: nat, now: Time)
    requires Reaches(d, r, calls, POLICY) && Below(calls, n) && Owes(d)
    requires r.lockedBy == Some("w") && 0 <= now < SETTINGS.lease
    ensures var r' := Unlocked(r).(attempts := r.attempts + 1, availableAt := now);
            Reaches(d.(waiting := Some(n)), r', calls[n := REPORT.(stage := 1)], POLICY)
  {
    ReachLocal(d, r, calls, POLICY, AskFail(n));
    assert CallsAfter(0, d, AskFail(n), calls) == calls[n := REPORT];
    var e := Commit(n, now, {}, {}, [], map[M := FAILURE]);
    assert Picks([FAILURE], true, e.picked);
    ReachCommit(d.(waiting := Some(n)), r, calls[n := REPORT], POLICY, e);
    assert calls[n := REPORT][n := REPORT.(stage := 1)] == calls[n := REPORT.(stage := 1)];
  }

  lemma ReportAnswered(d: Dispatcher, r: Row, calls: map<nat, Call>, n: nat)
    requires Reaches(d.(waiting := Some(n)), r, calls[n := REPORT.(stage := 1)], POLICY)
    requires Below(calls, n) && d.waiting.None?
    ensures Gets(FailAcknowledged(d), r, n + 1)
  {
    var waiting, half, full := d.(waiting := Some(n)), REPORT.(stage := 1), REPORT.(stage := 2);
    assert Picks([FAILURE], false, map[]);
    ReachCommit(waiting, r, calls[n := half], POLICY, Commit(n, 0, {}, {}, [], map[]));
    assert calls[n := half][n := full] == calls[n := full];
    ReachReply(waiting, r, calls[n := full], POLICY, n);
    assert Replied(waiting, full) == FailAcknowledged(d);
    assert Below(calls[n := full][n := full.(answered := true)], n + 1);
  }

  /** The failure is written - to whatever claim the row is under - and the reply arrives. */
  lemma GetsReported(d: Dispatcher, r: Row, n: nat, now: Time)
    requires Gets(d, r, n) && Owes(d) && r.lockedBy == Some("w") && 0 <= now < SETTINGS.lease
    ensures Gets(FailAcknowledged(d), Unlocked(r).(attempts := r.attempts + 1, availableAt := now), n + 1)
  {
    var calls :| Reaches(d, r, calls, POLICY) && Below(calls, n);
    ReportCommits(d, r, calls, n, now);
    ReportAnswered(d, Unlocked(r).(attempts := r.attempts + 1, availableAt := now), calls, n);
  }

  // ---------------------------------------------------------------- the run

  const SECOND := Claimed(3, M, 1)
  const THIRD := Claimed(5, M, 2)
  const DONE := Resolved(PublishedOk)

  /** The worker with the failure still owed and the second claim in flight ... */
  function Retrying(status: TaskStatus): Dispatcher {
    Taken(OWING, [SECOND]).(outstanding := [Task(1, SECOND, status)])
  }

  /** ... and with the failure written and the third claim beside it. */
  function Doubled(second: TaskStatus, third: TaskStatus): Dispatcher {
    Taken(FailAcknowledged(Retrying(Publishing)), [THIRD])
      .(outstanding := [Task(1, SECOND, second), Task(2, THIRD, third)])
  }

  lemma FirstReportLost()
    ensures Gets(OWING, FailedRow(1, 1), 3)
  {
    Publishes();
    ReportIsLost(BudgetLimits.Leased(FRESH, 0), map[1 := ANSWERED], 2, 1);
    assert Below(map[1 := ANSWERED][2 := REPORT.(stage := 1)], 3);
  }

  lemma ClaimsAnew()
    ensures Gets(Retrying(Publishing), Granted(FailedRow(1, 1), 2), 4)
  {
    FirstReportLost();
    GetsBatch(OWING, FailedRow(1, 1), 3, 2);
    assert Spawned([SECOND], 1) == [Task(1, SECOND, Queued)];
    var d := Retrying(Queued);
    assert d == Taken(OWING, [SECOND]);
    assert d.outstanding[0] in d.outstanding;
    GetsLocal(d, Granted(FailedRow(1, 1), 2), 4, TaskStart(1));
    assert Acted(d, TaskStart(1)) == Retrying(Publishing);
  }

  lemma ReportsAgain()
    ensures Gets(FailAcknowledged(Retrying(Publishing)), FailedRow(2, 3), 5)
  {
    ClaimsAnew();
    var d := Retrying(Publishing);
    assert FailItems(d.unwrittenFail) == [FAILURE];
    GetsReported(d, Granted(FailedRow(1, 1), 2), 4, 3);
    assert Unlocked(Granted(FailedRow(1, 1), 2)).(attempts := 2, availableAt := 3) == FailedRow(2, 3);
  }

  lemma ClaimsAThirdTime()
    ensures Gets(Doubled(Publishing, Queued), Granted(FailedRow(2, 3), 4), 6)
  {
    ReportsAgain();
    var d := FailAcknowledged(Retrying(Publishing));
    GetsBatch(d, FailedRow(2, 3), 5, 4);
    assert Spawned([THIRD], 2) == [Task(2, THIRD, Queued)];
    assert Taken(d, [THIRD]) == Doubled(Publishing, Queued);
  }

  lemma RoomToPublish(t: Task, u: Task)
    requires u.status.Queued?
    ensures Permits([t, u]) <= 1
  {
    assert [t, u][1..] == [u] && [u][1..] == [];
    assert Permits([u]) == 0;
  }

  lemma ThirdStarts()
    ensures Gets(Doubled(Publishing, Publishing), Granted(FailedRow(2, 3), 4), 6)
  {
    ClaimsAThirdTime();
    var d := Doubled(Publishing, Queued);
    assert d.outstanding[1] in d.outstanding;
    RoomToPublish(d.outstanding[0], d.outstanding[1]);
    GetsLocal(d, Granted(FailedRow(2, 3), 4), 6, TaskStart(2));
    assert Acted(d, TaskStart(2)) == Doubled(Publishing, Publishing);
  }

  lemma ThirdDelivers()
    ensures Gets(Doubled(Publishing, DONE), Granted(FailedRow(2, 3), 4), 6)
  {
    ThirdStarts();
    var d := Doubled(Publishing, Publishing);
    assert d.outstanding[1] in d.outstanding;
    GetsLocal(d, Granted(FailedRow(2, 3), 4), 6, TaskResolve(2, PublishedOk));
    assert Acted(d, TaskResolve(2, PublishedOk)) == Doubled(Publishing, DONE);
  }

  lemma BothDeliver()
    ensures Gets(Doubled(DONE, DONE), Granted(FailedRow(2, 3), 4), 6)
  {
    ThirdDelivers();
    var d := Doubled(Publishing, DONE);
    assert d.outstanding[0] in d.outstanding;
    GetsLocal(d, Granted(FailedRow(2, 3), 4), 6, TaskResolve(1, PublishedOk));
    assert Acted(d, TaskResolve(1, PublishedOk)) == Doubled(DONE, DONE);
  }

  /** A run of one validated worker that delivers one message twice, although nobody crashes or shuts down,
      every decision is the policy's and no clock reading reaches the end of even the first lease. */
  lemma FourthWindow() returns (states: seq<System>, steps: seq<Step>, x: Claimed, y: Claimed)
    ensures ValidateShared(SETTINGS) == None && Validate(POLICY) == None
    ensures Run(states, steps) && Uneventful(steps, POLICY)
    ensures x != y && x.id == y.id && x in states[|steps|].delivered && y in states[|steps|].delivered
  {
    BothDeliver();
    var calls :| Reaches(Doubled(DONE, DONE), Granted(FailedRow(2, 3), 4), calls, POLICY) && Below(calls, 6);
    states, steps :| EndsIn(states, steps, Doubled(DONE, DONE), Granted(FailedRow(2, 3), 4), calls, POLICY);
    x, y := SECOND, THIRD;
    Reachable(states, steps, |steps|);
    var d := states[|steps|].procs[0];
    assert ProcInv(0, d, states[|steps|].calls, states[|steps|].delivered);
    assert d.outstanding[0] in d.outstanding && d.outstanding[1] in d.outstanding;
  }
}
