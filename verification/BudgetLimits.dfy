/** Why the attempt budget needs its discipline: a run of one worker, one message and two lost replies
    after which a live message has used up all its attempts and is still retried. */
module BudgetLimits {
  import opened Basics
  import opened Backoff
  import opened DispatcherState
  import opened OutboxTable
  import opened Protocol
  import opened ProtocolRuns
  import opened ProtocolBudget

  const M: MessageId := 7

  /** A system of one worker and one message. */
  predicate Small(s: System, d: Dispatcher, r: Row) {
    s.procs == map[0 := d] && s.db.rows == map[M := r]
  }

  lemma Extend(states: seq<System>, steps: seq<Step>, e: Step) returns (states': seq<System>, steps': seq<Step>)
    requires Run(states, steps) && CanStep(states[|steps|], e)
    ensures Run(states', steps') && steps' == steps + [e] && states'[|steps'|] == After(states[|steps|], e)
  {
    states', steps' := states + [After(states[|steps|], e)], steps + [e];
    forall i: nat | i < |steps'| ensures Moves(states', steps', i) {
      if i < |steps| {
        assert Moves(states, steps, i);
      }
    }
  }

  lemma LocalMove(s: System, d: Dispatcher, r: Row, a: Act)
    requires Small(s, d, r) && ActEnabled(d, a) && !a.ReplyOk? && (Asks(a) ==> a.call !in s.calls)
    ensures CanStep(s, Local(0, a))
    ensures var s' := After(s, Local(0, a)); Small(s', Acted(d, a), r) && s'.calls == CallsAfter(0, d, a, s.calls)
  {
  }

  lemma ReplyMove(s: System, d: Dispatcher, r: Row, c: nat)
    requires Small(s, d, r) && d.waiting == Some(c) && c in s.calls && s.calls[c].stage == Stages(s.calls[c].request)
    ensures CanStep(s, Local(0, ReplyOk))
    ensures var s' := After(s, Local(0, ReplyOk));
            Small(s', Replied(d, s.calls[c]), r) && s'.calls == s.calls[c := s.calls[c].(answered := true)]
  {
  }

  predicate ClaimsTheRow(st: Stmt, r: Row)
    requires st.Claim?
  {
    st.ids == {M} && st.limit >= 1 && st.skipped == {} && Claimable(r, st.now) && r.decodable
  }

  /** What a statement makes of the one row. */
  function Result(st: Stmt, r: Row): Row {
    if Touches(st, M, r) then Rewrite(st, M, r) else r
  }

  lemma StatementOnRow(db: Db, r: Row, st: Stmt)
    requires db.rows == map[M := r] && !st.Insert? && !Deletes(st)
    requires st.Claim? ==> ClaimsTheRow(st, r)
    ensures Enabled(db, st) && Apply(db, st).rows == map[M := Result(st, r)]
  {
    if st.Claim? {
      assert Eligible(db.rows, st.now, {}) == {M};
    }
  }

  lemma CommitMove(s: System, d: Dispatcher, r: Row, e: Step)
    requires Small(s, d, r) && e.Commit? && e.call in s.calls && s.calls[e.call].stage < Stages(s.calls[e.call].request)
    requires var st := NextStmt(e.call, s.calls[e.call], e);
             !Deletes(st) && (st.Claim? ==> ClaimsTheRow(st, r) && e.order == [M])
    requires s.calls[e.call].request.FailReq? ==>
               Picks(s.calls[e.call].request.fails, s.calls[e.call].stage == 0, e.picked)
    ensures CanStep(s, e)
    ensures var st, s' := NextStmt(e.call, s.calls[e.call], e), After(s, e);
            && Small(s', d, Result(st, r))
            && s'.calls == s.calls[e.call := Advanced(e.call, s.calls[e.call], r)]
  {
    StatementOnRow(s.db, r, NextStmt(e.call, s.calls[e.call], e));
    if NextStmt(e.call, s.calls[e.call], e).Claim? {
      assert Records(e.order, s.db.rows, e.call) == [Claimed(e.call, M, r.attempts)];
      assert Committed(s, e).poisoned == {};
    }
    assert Committed(s, e) == Advanced(e.call, s.calls[e.call], r);
  }

  /** A call after its next statement. */
  function Advanced(c: nat, call: Call, r: Row): Call {
    if call.request.AcquireReq? && call.stage == 0 then
      call.(stage := 1, batch := [Claimed(c, M, r.attempts)], poisoned := {})
    else
      call.(stage := call.stage + 1)
  }

  // ---------------------------------------------------------------- what such a system can reach

  /** A decision the policy computes, for some entropy. */
  ghost predicate Computes(b: ExponentialBackoff, attempts: nat, outcome: FailureOutcome) {
    exists kind, unit :: 0.0 <= unit <= 1.0 && outcome == Next(b, attempts, kind, unit)
  }

  /** Every worker started has policy `b`, and every failure joined carries a decision `b` computes. */
  ghost predicate ObeysPolicy(e: Step, b: ExponentialBackoff) {
    && (e.Start? ==> e.policy == Some(b))
    && (e.Local? && e.act.Join? ==>
          forall j | j in e.act.results && j.Done? && j.verdict.Failed? ::
            Computes(b, j.claim.attempts, j.verdict.outcome))
  }

  /** Nobody crashes or shuts down, and every statement is read before even the first lease has ended. */
  predicate Calm(e: Step) {
    && !e.Crash?
    && (e.Local? ==> !e.act.Cancel? && !e.act.Finish?)
    && (e.Commit? ==> 0 <= e.now < SETTINGS.lease)
    && (e.Outside? ==> e.st.Insert?)
  }

  ghost predicate Uneventful(steps: seq<Step>, b: ExponentialBackoff) {
    forall i | 0 <= i < |steps| :: ObeysPolicy(steps[i], b) && Calm(steps[i])
  }

  /** Some uneventful run ends with this worker, this row and these calls. */
  ghost predicate Reaches(d: Dispatcher, r: Row, calls: map<nat, Call>, b: ExponentialBackoff) {
    exists states, steps :: EndsIn(states, steps, d, r, calls, b)
  }

  ghost predicate EndsIn(states: seq<System>, steps: seq<Step>, d: Dispatcher, r: Row, calls: map<nat, Call>,
                         b: ExponentialBackoff) {
    Run(states, steps) && Uneventful(steps, b) && Small(states[|steps|], d, r) && states[|steps|].calls == calls
  }

  lemma Witness(d: Dispatcher, r: Row, calls: map<nat, Call>, b: ExponentialBackoff)
    returns (states: seq<System>, steps: seq<Step>)
    requires Reaches(d, r, calls, b)
    ensures Run(states, steps) && Uneventful(steps, b) && states[|steps|].db.rows == map[M := r]
  {
    states, steps :| EndsIn(states, steps, d, r, calls, b);
  }

  lemma UneventfulMore(steps: seq<Step>, e: Step, b: ExponentialBackoff)
    requires Uneventful(steps, b) && ObeysPolicy(e, b) && Calm(e)
    ensures Uneventful(steps + [e], b)
  {
  }

  lemma ReachLocal(d: Dispatcher, r: Row, calls: map<nat, Call>, b: ExponentialBackoff, a: Act)
    requires Reaches(d, r, calls, b) && ActEnabled(d, a) && !a.ReplyOk? && (Asks(a) ==> a.call !in calls)
    requires ObeysPolicy(Local(0, a), b) && Calm(Local(0, a))
    ensures Reaches(Acted(d, a), r, CallsAfter(0, d, a, calls), b)
  {
    var states, steps :| EndsIn(states, steps, d, r, calls, b);
    LocalMove(states[|steps|], d, r, a);
    var states', steps' := Extend(states, steps, Local(0, a));
    UneventfulMore(steps, Local(0, a), b);
    assert EndsIn(states', steps', Acted(d, a), r, CallsAfter(0, d, a, calls), b);
  }

  lemma ReachReply(d: Dispatcher, r: Row, calls: map<nat, Call>, b: ExponentialBackoff, c: nat)
    requires Reaches(d, r, calls, b) && d.waiting == Some(c) && c in calls && calls[c].stage == Stages(calls[c].request)
    ensures Reaches(Replied(d, calls[c]), r, calls[c := calls[c].(answered := true)], b)
  {
    var states, steps :| EndsIn(states, steps, d, r, calls, b);
    ReplyMove(states[|steps|], d, r, c);
    var states', steps' := Extend(states, steps, Local(0, ReplyOk));
    UneventfulMore(steps, Local(0, ReplyOk), b);
    assert EndsIn(states', steps', Replied(d, calls[c]), r, calls[c := calls[c].(answered := true)], b);
  }

  lemma ReachCommit(d: Dispatcher, r: Row, calls: map<nat, Call>, b: ExponentialBackoff, e: Step)
    requires Reaches(d, r, calls, b) && e.Commit? && e.call in calls &&
               calls[e.call].stage < Stages(calls[e.call].request)
    requires var st := NextStmt(e.call, calls[e.call], e);
             !Deletes(st) && (st.Claim? ==> ClaimsTheRow(st, r) && e.order == [M])
    requires calls[e.call].request.FailReq? ==> Picks(calls[e.call].request.fails, calls[e.call].stage == 0, e.picked)
    requires Calm(e)
    ensures var st := NextStmt(e.call, calls[e.call], e);
            Reaches(d, Result(st, r), calls[e.call := Advanced(e.call, calls[e.call], r)], b)
  {
    var states, steps :| EndsIn(states, steps, d, r, calls, b);
    CommitMove(states[|steps|], d, r, e);
    var states', steps' := Extend(states, steps, e);
    UneventfulMore(steps, e, b);
    var st := NextStmt(e.call, calls[e.call], e);
    assert EndsIn(states', steps', d, Result(st, r), calls[e.call := Advanced(e.call, calls[e.call], r)], b);
  }

  // ---------------------------------------------------------------- the run

  const MAX: nat := 2
  const SETTINGS := Settings(2, 2, 4 * MILLISECOND, 1, 1, 1, 1, false)
  const POLICY := ExponentialBackoff(1, 1, MAX, 0.0)
  const IDLE := Dispatcher("w", SETTINGS, Some(POLICY), Running, 0, None, [], [], [], [], 0, NO_LEDGER)
  const FRESH := Row(1, "order.placed", None, true, None, 0, 0, None, None, None, None, None)
  const FIRST := Claimed(1, M, 0)
  const FAILURE := FailedMessage(FIRST, Retry(1))

  /** The worker once it has received the row, at each stage of its publish task. */
  function Working(status: TaskStatus): Dispatcher {
    IDLE.(outstanding := [Task(0, FIRST, status)], nextTask := 1, ledger := NO_LEDGER.(received := multiset{FIRST}))
  }

  /** The worker that owes the store a failure. */
  const OWING := Working(Queued).(outstanding := [], unwrittenFail := [Stamped(0, FAILURE)])

  function Acquire(limit: nat): Call {
    Call(0, "w", AcquireReq(limit, 4 * MILLISECOND), 0, [], {}, false)
  }

  const ANSWERED := Acquire(2).(stage := 2, batch := [FIRST], answered := true)
  const REPORT := Call(0, "w", FailReq([FAILURE]), 0, [], {}, false)

  function Leased(r: Row, now: Time): Row {
    r.(lockedBy := Some("w"), lockedUntil := Some(now + 4 * MILLISECOND))
  }

  /** The row after `n` recorded failures, the last one at `now`. */
  function FailedRow(n: nat, now: Time): Row {
    FRESH.(attempts := n, availableAt := now)
  }

  lemma Begins()
    ensures Reaches(IDLE, FRESH, map[], POLICY)
  {
    var start := Start(0, "w", SETTINGS, Some(POLICY));
    var states, steps := Extend([INITIAL], [], start);
    assert states[1].db == EMPTY;
    states, steps := Extend(states, steps, Outside(Insert(M, FRESH)));
    assert EndsIn(states, steps, IDLE, FRESH, map[], POLICY);
  }

  lemma Claims()
    ensures Reaches(IDLE.(waiting := Some(1)), Leased(FRESH, 0), map[1 := Acquire(2).(stage := 2, batch := [FIRST])],
              POLICY)
  {
    Begins();
    ReachLocal(IDLE, FRESH, map[], POLICY, AskAcquire(1));
    var d, call, sent := IDLE.(waiting := Some(1)), Acquire(2), map[1 := Acquire(2)];
    assert CallsAfter(0, IDLE, AskAcquire(1), map[]) == sent;
    ReachCommit(d, FRESH, sent, POLICY, Commit(1, 0, {}, {M}, [M], map[]));
    var half := call.(stage := 1, batch := [FIRST]);
    assert sent[1 := Advanced(1, call, FRESH)] == map[1 := half];
    ReachCommit(d, Leased(FRESH, 0), map[1 := half], POLICY, Commit(1, 0, {}, {}, [], map[]));
    assert map[1 := half][1 := Advanced(1, half, Leased(FRESH, 0))] == map[1 := call.(stage := 2, batch := [FIRST])];
  }

  lemma TakesTheRow(d: Dispatcher, call: Call)
    requires d == IDLE.(waiting := Some(1)) && call == Acquire(2).(stage := 2, batch := [FIRST])
    ensures Replied(d, call) == Working(Queued)
  {
    BagAppend([], FIRST, ItemClaim);
    assert [] + [FIRST] == [FIRST];
    assert NO_LEDGER.received + Batch([FIRST]) == multiset{FIRST};
    assert Spawned([FIRST], 0) == [Task(0, FIRST, Queued)];
  }

  lemma Receives()
    ensures Reaches(Working(Queued), Leased(FRESH, 0), map[1 := ANSWERED], POLICY)
  {
    Claims();
    var d, call := IDLE.(waiting := Some(1)), Acquire(2).(stage := 2, batch := [FIRST]);
    ReachReply(d, Leased(FRESH, 0), map[1 := call], POLICY, 1);
    TakesTheRow(d, call);
    assert map[1 := call][1 := call.(answered := true)] == map[1 := ANSWERED];
  }

  lemma StatusMove(from: TaskStatus, a: Act, to: TaskStatus)
    requires Reaches(Working(from), Leased(FRESH, 0), map[1 := ANSWERED], POLICY)
    requires (from == Queued && a == TaskStart(0) && to == Publishing)
          || (from == Publishing && a == TaskResolve(0, PublishFailed(Transient)) &&
              to == Resolved(PublishFailed(Transient)))
    ensures Reaches(Working(to), Leased(FRESH, 0), map[1 := ANSWERED], POLICY)
  {
    assert Working(from).outstanding[0] in Working(from).outstanding;
    ReachLocal(Working(from), Leased(FRESH, 0), map[1 := ANSWERED], POLICY, a);
    assert Acted(Working(from), a) == Working(to);
  }

  lemma Publishes()
    ensures Reaches(OWING, Leased(FRESH, 0), map[1 := ANSWERED], POLICY)
  {
    Receives();
    StatusMove(Queued, TaskStart(0), Publishing);
    StatusMove(Publishing, TaskResolve(0, PublishFailed(Transient)), Resolved(PublishFailed(Transient)));
    var done := Working(Resolved(PublishFailed(Transient)));
    Fails(done);
    FailureIsComputed();
    ReachLocal(done, Leased(FRESH, 0), map[1 := ANSWERED], POLICY, Join([Done(0, FIRST, Failed(Retry(1)))]));
  }

  /** At attempt 0 of 2 the policy always decides to retry after its base delay. */
  lemma PolicyRetries(unit: real)
    ensures Next(POLICY, 0, Transient, unit) == Retry(1)
  {
    assert Capped(POLICY, 0) == 1;
    assert Delay(POLICY, 0, unit) == 1.0;
  }

  lemma FailureIsComputed()
    ensures ObeysPolicy(Local(0, Join([Done(0, FIRST, Failed(Retry(1)))])), POLICY)
  {
    PolicyRetries(0.0);
    assert Computes(POLICY, 0, Retry(1));
  }

  lemma Fails(d: Dispatcher)
    requires d == Working(Resolved(PublishFailed(Transient)))
    ensures ActEnabled(d, Join([Done(0, FIRST, Failed(Retry(1)))]))
    ensures Acted(d, Join([Done(0, FIRST, Failed(Retry(1)))])) == OWING
  {
    var j := Done(0, FIRST, Failed(Retry(1)));
    assert d.outstanding[0] in d.outstanding;
    assert Reports(d, j) && Joinable(d.outstanding, j);
    assert [j][..0] == [];
    assert RecordAll(d, [j]) == RecordOne(d, j);
  }

  /** The worker reports its one failure, the report commits, and the reply is lost. */
  lemma ReportIsLost(r: Row, calls: map<nat, Call>, c: nat, now: Time)
    requires 0 <= now < SETTINGS.lease
    requires Reaches(OWING, r, calls, POLICY) && c !in calls && r.lockedBy == Some("w")
    ensures Reaches(OWING, r.(attempts := r.attempts + 1, availableAt := now, lockedBy := None, lockedUntil := None),
                    calls[c := REPORT.(stage := 1)], POLICY)
  {
    ReachLocal(OWING, r, calls, POLICY, AskFail(c));
    assert FailItems(OWING.unwrittenFail) == [FAILURE];
    var d := OWING.(waiting := Some(c));
    var e := Commit(c, now, {}, {}, [], map[M := FAILURE]);
    assert Picks([FAILURE], true, e.picked);
    ReachCommit(d, r, calls[c := REPORT], POLICY, e);
    var r' := r.(attempts := r.attempts + 1, availableAt := now, lockedBy := None, lockedUntil := None);
    assert calls[c := REPORT][c := REPORT.(stage := 1)] == calls[c := REPORT.(stage := 1)];
    ReachLocal(d, r', calls[c := REPORT.(stage := 1)], POLICY, ReplyErr);
    assert Acted(d, ReplyErr) == OWING;
  }

  /** The worker claims the row again before it learns that the report went through. */
  lemma ClaimIsLost(calls: map<nat, Call>, c: nat)
    requires Reaches(OWING, FailedRow(1, 1), calls, POLICY) && c !in calls
    ensures Reaches(OWING, Leased(FailedRow(1, 1), 2), calls[c := Advanced(c, Acquire(1), FailedRow(1, 1))], POLICY)
  {
    ReachLocal(OWING, FailedRow(1, 1), calls, POLICY, AskAcquire(c));
    var d := OWING.(waiting := Some(c));
    ReachCommit(d, FailedRow(1, 1), calls[c := Acquire(1)], POLICY, Commit(c, 2, {}, {M}, [M], map[]));
    var calls' := calls[c := Advanced(c, Acquire(1), FailedRow(1, 1))];
    assert calls[c := Acquire(1)][c := Advanced(c, Acquire(1), FailedRow(1, 1))] == calls';
    ReachLocal(d, Leased(FailedRow(1, 1), 2), calls', POLICY, ReplyErr);
    assert Acted(d, ReplyErr) == OWING;
  }

  lemma UneventfulIsShared(steps: seq<Step>, b: ExponentialBackoff)
    requires Uneventful(steps, b)
    ensures forall i: nat | i < |steps| :: SharedPolicy(steps[i], b.maxAttempts)
  {
    forall i: nat | i < |steps| ensures SharedPolicy(steps[i], b.maxAttempts) {
      assert ObeysPolicy(steps[i], b);
    }
  }

  /** All workers share one valid policy of two attempts and decide as it computes, nobody crashes and no
      lease ever lapses, and yet a message is neither published nor dead, free to be claimed, with two
      attempts recorded: one failure was written twice, the second time under a claim it was not
      decided for. */
  lemma BudgetCanBeExceeded() returns (states: seq<System>, steps: seq<Step>)
    ensures Validate(POLICY) == None && POLICY.maxAttempts == MAX && Uneventful(steps, POLICY)
    ensures SharedRun(states, steps, MAX) && M in states[|steps|].db.rows
    ensures var r := states[|steps|].db.rows[M];
            r.publishedAt.None? && r.deadAt.None? && r.lockedBy.None? && r.attempts >= MAX
  {
    Publishes();
    var calls := map[1 := ANSWERED];
    ReportIsLost(Leased(FRESH, 0), calls, 2, 1);
    calls := calls[2 := REPORT.(stage := 1)];
    assert Reaches(OWING, FailedRow(1, 1), calls, POLICY);
    ClaimIsLost(calls, 3);
    calls := calls[3 := Advanced(3, Acquire(1), FailedRow(1, 1))];
    ReportIsLost(Leased(FailedRow(1, 1), 2), calls, 4, 3);
    calls := calls[4 := REPORT.(stage := 1)];
    states, steps := Witness(OWING, FailedRow(2, 3), calls, POLICY);
    UneventfulIsShared(steps, POLICY);
  }
}
