/** The attempt budget: with one shared backoff policy, and as long as every failure is written
    under the claim it was decided for, no message is retried past `max_attempts`. */
module ProtocolBudget {
  import opened Basics
  import opened Backoff
  import opened DispatcherState
  import opened OutboxTable
  import opened Protocol
  import opened ProtocolSafety
  import opened ProtocolRuns

  /** What the budget says of a row. */
  predicate WithinBudget(r: Row, max: nat) {
    && r.attempts <= max
    && (!Terminal(r) ==> r.attempts < max)
    && (r.deadReason == Some(AttemptsExhausted) ==> r.attempts == max)
    && (r.publishedAt.None? && r.attempts == max ==>
        r.deadReason == Some(AttemptsExhausted) || r.deadReason == Some(PermanentError))
  }

  ghost predicate RowsWithinBudget(rows: map<MessageId, Row>, max: nat) {
    forall m | m in rows :: WithinBudget(rows[m], max)
  }

  /** What the policy decides at a given number of attempts. */
  predicate Decided(f: FailedMessage, max: nat) {
    && (f.outcome.Retry? ==> f.claim.attempts + 1 < max)
    && (f.outcome == Dead(AttemptsExhausted) ==> f.claim.attempts + 1 >= max)
    && (f.outcome.Dead? ==> f.outcome.reason == AttemptsExhausted || f.outcome.reason == PermanentError)
  }

  /** A granted instance carries the row's `attempts` for as long as it is the row's latest claim. */
  ghost predicate GrantsOk(granted: set<Claimed>, latest: map<MessageId, Lease>, calls: map<nat, Call>) {
    && (forall x | x in granted ::
          && x.call in calls && calls[x.call].stage > 0
          && (x.id in latest && latest[x.id].claim == x.call ==> latest[x.id].attempts == x.attempts))
    && (forall m | m in latest :: latest[m].claim in calls && calls[latest[m].claim].stage > 0)
  }

  ghost predicate ProcBudget(d: Dispatcher, granted: set<Claimed>, max: nat) {
    && d.policy.Some? && d.policy.value.maxAttempts == max
    && (forall t | t in d.outstanding :: t.claim in granted)
    && (forall u | u in d.unwrittenFail :: u.item.claim in granted && Decided(u.item, max))
  }

  ghost predicate CallBudget(call: Call, granted: set<Claimed>, max: nat) {
    && (forall x | x in call.batch :: x in granted)
    && (call.request.FailReq? ==> forall f | f in call.request.fails :: f.claim in granted && Decided(f, max))
  }

  ghost predicate ProcsBudget(procs: map<nat, Dispatcher>, granted: set<Claimed>, max: nat) {
    forall p | p in procs :: ProcBudget(procs[p], granted, max)
  }

  ghost predicate CallsBudget(calls: map<nat, Call>, granted: set<Claimed>, max: nat) {
    forall c | c in calls :: CallBudget(calls[c], granted, max)
  }

  /** What every run of workers with one policy keeps, disciplined or not. */
  ghost predicate GrantInv(s: System, max: nat) {
    && GrantsOk(s.granted, s.db.latest, s.calls)
    && ProcsBudget(s.procs, s.granted, max)
    && CallsBudget(s.calls, s.granted, max)
  }

  /** The failure a `fail` writes to a row was decided for the claim the row is leased under. */
  ghost predicate OwnClaims(s: System, e: Step) {
    e.Commit? && e.call in s.calls && s.calls[e.call].request.FailReq? ==>
      forall m | m in e.picked && m in s.db.rows && s.db.rows[m].lockedBy == Some(s.calls[e.call].worker) ::
        m in s.db.latest && s.db.latest[m].claim == e.picked[m].claim.call
  }

  ghost predicate SharedPolicy(e: Step, max: nat) {
    e.Start? ==> e.policy.Some? && e.policy.value.maxAttempts == max
  }

  /** What the exponential backoff computes is one of the decisions the system allows its workers. */
  lemma PolicyDecides(b: ExponentialBackoff, attempts: nat, kind: FailureKind, unit: real)
    requires Validate(b) == None && 0.0 <= unit <= 1.0
    ensures Decides(Some(b), attempts, kind, Next(b, attempts, kind, unit))
    ensures Decided(FailedMessage(Claimed(0, 0, attempts), Next(b, attempts, kind, unit)), b.maxAttempts)
  {
  }

  // ---------------------------------------------------------------- statements

  /** A failure that fits the row it is written to, as the row is: a retry leaves an attempt to spare, a
      death by exhaustion uses up the last. */
  predicate FitsRow(st: Stmt, m: MessageId, r: Row, max: nat)
    requires Touches(st, m, r)
  {
    && (st.FailRetry? ==> r.attempts + 1 < max)
    && (st.FailDead? && st.reasons[m] == AttemptsExhausted ==> r.attempts + 1 >= max)
  }

  ghost predicate StmtFits(db: Db, st: Stmt, max: nat) {
    forall m | m in db.rows && Touches(st, m, db.rows[m]) :: FitsRow(st, m, db.rows[m], max)
  }

  /** The policy kills for two reasons only. */
  ghost predicate PolicyReasons(st: Stmt) {
    st.FailDead? ==> forall m | m in st.reasons :: st.reasons[m] == AttemptsExhausted || st.reasons[m] == PermanentError
  }

  /** A rewritten row stays within budget exactly when what is written fits it. */
  lemma RewriteWithinBudget(st: Stmt, m: MessageId, r: Row, max: nat)
    requires WellFormedRow(r) && WithinBudget(r, max) && max >= 1 && Touches(st, m, r) && (st.Claim? ==> !Terminal(r))
    requires PolicyReasons(st)
    ensures WithinBudget(Rewrite(st, m, r), max) <==> FitsRow(st, m, r, max)
  {
  }

  lemma FittingKeepsRows(db: Db, st: Stmt, max: nat)
    requires Valid(db) && Enabled(db, st) && RowsWithinBudget(db.rows, max) && max >= 1 && PolicyReasons(st)
    requires StmtFits(db, st, max)
    ensures RowsWithinBudget(Apply(db, st).rows, max)
  {
    forall m | m in Apply(db, st).rows ensures WithinBudget(Apply(db, st).rows[m], max) {
      if !(st.Insert? && st.id == m) {
        RowAfter(db, st, m);
        assert WithinBudget(db.rows[m], max);
        if Touches(st, m, db.rows[m]) {
          RewriteWithinBudget(st, m, db.rows[m], max);
        }
      }
    }
  }

  lemma KeptRowsFit(db: Db, st: Stmt, max: nat, m: MessageId)
    requires Valid(db) && Enabled(db, st) && RowsWithinBudget(db.rows, max) && max >= 1 && PolicyReasons(st)
    requires RowsWithinBudget(Apply(db, st).rows, max)
    requires m in db.rows && Touches(st, m, db.rows[m])
    ensures FitsRow(st, m, db.rows[m], max)
  {
    if st.FailRetry? || st.FailDead? {
      assert m in Apply(db, st).rows && Apply(db, st).rows[m] == Rewrite(st, m, db.rows[m]);
      assert WithinBudget(Apply(db, st).rows[m], max);
      RewriteWithinBudget(st, m, db.rows[m], max);
    }
  }

  /** One statement keeps all rows within budget exactly when it fits every row it touches. */
  lemma StatementBudget(db: Db, st: Stmt, max: nat)
    requires Valid(db) && Enabled(db, st) && RowsWithinBudget(db.rows, max) && max >= 1 && PolicyReasons(st)
    ensures RowsWithinBudget(Apply(db, st).rows, max) <==> StmtFits(db, st, max)
  {
    if StmtFits(db, st, max) {
      FittingKeepsRows(db, st, max);
    }
    if RowsWithinBudget(Apply(db, st).rows, max) {
      forall m | m in db.rows && Touches(st, m, db.rows[m]) ensures FitsRow(st, m, db.rows[m], max) {
        KeptRowsFit(db, st, max, m);
      }
    }
  }

  /** What a call's next statement writes comes from its items. */
  lemma NextReasons(c: nat, call: Call, e: Step, granted: set<Claimed>, max: nat)
    requires e.Commit? && CallBudget(call, granted, max)
    requires call.request.FailReq? ==> Picks(call.request.fails, call.stage == 0, e.picked)
    ensures PolicyReasons(NextStmt(c, call, e))
  {
    var st := NextStmt(c, call, e);
    if st.FailDead? {
      forall m | m in st.reasons ensures st.reasons[m] == AttemptsExhausted || st.reasons[m] == PermanentError {
        assert e.picked[m] in call.request.fails;
      }
    }
  }

  /** The statement a step executes fits the rows it touches. */
  ghost predicate Fits(s: System, e: Step, max: nat) {
    e.Commit? && e.call in s.calls ==> StmtFits(s.db, NextStmt(e.call, s.calls[e.call], e), max)
  }

  /** Under its own claim, a picked failure was decided at the row's present `attempts`. */
  lemma PickedMatchesRow(s: System, e: Step, max: nat, m: MessageId)
    requires Valid(s.db) && GrantInv(s, max) && CanStep(s, e) && e.Commit? && OwnClaims(s, e)
    requires s.calls[e.call].request.FailReq?
    requires m in e.picked && m in s.db.rows && s.db.rows[m].lockedBy == Some(s.calls[e.call].worker)
    ensures e.picked[m].claim.attempts == s.db.rows[m].attempts && Decided(e.picked[m], max)
  {
    assert CallBudget(s.calls[e.call], s.granted, max);
    assert e.picked[m] in s.calls[e.call].request.fails;
    assert e.picked[m].claim in s.granted;
  }

  /** Failures written under the claims they were decided for fit. */
  lemma OwnClaimsFit(s: System, e: Step, max: nat)
    requires Valid(s.db) && GrantInv(s, max) && CanStep(s, e) && OwnClaims(s, e)
    ensures Fits(s, e, max)
  {
    if e.Commit? {
      var st := NextStmt(e.call, s.calls[e.call], e);
      forall m | m in s.db.rows && Touches(st, m, s.db.rows[m]) ensures FitsRow(st, m, s.db.rows[m], max) {
        if st.FailRetry? || st.FailDead? {
          PickedMatchesRow(s, e, max, m);
        }
      }
    }
  }

  /** A new claim's instances carry the attempts its lease records, and disturb no earlier one. */
  lemma ClaimKeepsGrants(db: Db, st: Stmt, granted: set<Claimed>, calls: map<nat, Call>, order: seq<MessageId>)
    requires st.Claim? && GrantsOk(granted, db.latest, calls) && Lists(order, db.rows, st.ids)
    requires forall x | x in granted :: x.call != st.claim
    ensures forall x | x in granted + (set y | y in Records(order, db.rows, st.claim)) &&
              x.id in Apply(db, st).latest ::
              Apply(db, st).latest[x.id].claim == x.call ==> Apply(db, st).latest[x.id].attempts == x.attempts
  {
    forall x | x in Records(order, db.rows, st.claim) && x.id in Apply(db, st).latest
      ensures Apply(db, st).latest[x.id].attempts == x.attempts
    {
      var i :| 0 <= i < |order| && x == Records(order, db.rows, st.claim)[i];
      assert order[i] in order;
    }
  }

  /** A claim is the first statement of its call, so its instances are the first of that call. */
  lemma ClaimExtendsGrants(db: Db, st: Stmt, granted: set<Claimed>, calls: map<nat, Call>, call: Call,
                           order: seq<MessageId>)
    requires st.Claim? && GrantsOk(granted, db.latest, calls) && Lists(order, db.rows, st.ids)
    requires st.claim in calls && calls[st.claim].stage == 0 && call.stage == 1
    requires call.batch == Records(order, db.rows, st.claim)
    ensures GrantsOk(granted + (set x | x in call.batch), Apply(db, st).latest, calls[st.claim := call])
  {
    ClaimKeepsGrants(db, st, granted, calls, order);
    forall x | x in call.batch ensures x.call == st.claim {
      var i :| 0 <= i < |order| && x == Records(order, db.rows, st.claim)[i];
    }
  }

  lemma CommitKeepsGrants(s: System, e: Step, max: nat)
    requires GrantInv(s, max) && CanStep(s, e) && e.Commit?
    ensures GrantsOk(After(s, e).granted, After(s, e).db.latest, After(s, e).calls)
  {
    var c := e.call;
    var st := NextStmt(c, s.calls[c], e);
    if st.Claim? {
      ClaimExtendsGrants(s.db, st, s.granted, s.calls, Committed(s, e), e.order);
    } else {
      assert CallBudget(s.calls[c], s.granted, max);
      assert After(s, e).granted == s.granted;
    }
  }

  // ---------------------------------------------------------------- dispatchers

  lemma {:induction false} RecordAllBudget(d: Dispatcher, results: seq<Joined>, granted: set<Claimed>, max: nat)
    requires ProcBudget(d, granted, max)
    requires forall j | j in results && j.Done? :: j.claim in granted
    requires forall j | j in results && j.Done? && j.verdict.Failed? ::
               Decided(FailedMessage(j.claim, j.verdict.outcome), max)
    ensures ProcBudget(RecordAll(d, results), granted, max)
  {
    if results != [] {
      var before, last := results[..|results| - 1], results[|results| - 1];
      RecordAllBudget(d, before, granted, max);
      RemoveMembers(RecordAll(d, before).outstanding, last.tid);
    }
  }

  lemma ActedBudget(d: Dispatcher, a: Act, granted: set<Claimed>, max: nat)
    requires ProcOk(d) && ActEnabled(d, a) && ProcBudget(d, granted, max)
    ensures ProcBudget(Acted(d, a), granted, max)
  {
    match a
    case TaskStart(tid) => WithStatusUnique(d.outstanding, tid, Publishing);
    case TaskResolve(tid, outcome) => WithStatusUnique(d.outstanding, tid, Resolved(outcome));
    case Join(results) =>
      forall j | j in results && j.Done?
        ensures j.claim in granted
        ensures j.verdict.Failed? ==> Decided(FailedMessage(j.claim, j.verdict.outcome), max)
      {
        assert Reports(d, j);
      }
      RecordAllBudget(d, results, granted, max);
    case GiveUpFails => GivenUpPastLease(d.unwrittenFail, d.now, d.settings.lease);
    case Cancel(_) => StartedMembers(d.outstanding);
    case _ =>
  }

  lemma RepliedBudget(d: Dispatcher, call: Call, granted: set<Claimed>, max: nat)
    requires ProcOk(d) && ProcBudget(d, granted, max) && CallBudget(call, granted, max)
    ensures ProcBudget(Replied(d, call), granted, max)
  {
    if call.request.AcquireReq? {
      assert d.pending + call.batch == call.batch;
      forall t | t in Replied(d, call).outstanding ensures t.claim in granted {
        if t !in d.outstanding {
          var i :| 0 <= i < |call.batch| && t == Spawned(call.batch, d.nextTask)[i];
          assert call.batch[i] in call.batch;
        }
      }
    }
  }

  lemma AskedBudget(p: nat, d: Dispatcher, a: Act, granted: set<Claimed>, max: nat)
    requires Asks(a) && ProcBudget(d, granted, max)
    ensures CallBudget(Call(p, d.worker, Ask(d, a), 0, [], {}, false), granted, max)
  {
  }

  // ---------------------------------------------------------------- the step

  lemma MoreGrants(procs: map<nat, Dispatcher>, calls: map<nat, Call>, c: nat, call: Call, granted: set<Claimed>,
                   max: nat)
    requires ProcsBudget(procs, granted, max) && CallsBudget(calls, granted, max)
    requires c in calls && call.request == calls[c].request
    ensures ProcsBudget(procs, granted + (set x | x in call.batch), max)
    ensures CallsBudget(calls[c := call], granted + (set x | x in call.batch), max)
  {
  }

  lemma CommitKeepsGrantInv(s: System, e: Step, max: nat)
    requires GrantInv(s, max) && CanStep(s, e) && e.Commit?
    ensures GrantInv(After(s, e), max)
  {
    CommitKeepsGrants(s, e, max);
    assert CallBudget(s.calls[e.call], s.granted, max);
    MoreGrants(s.procs, s.calls, e.call, Committed(s, e), s.granted, max);
  }

  lemma OneCallChanged(calls: map<nat, Call>, c: nat, call: Call, granted: set<Claimed>,
                       latest: map<MessageId, Lease>, max: nat)
    requires CallsBudget(calls, granted, max) && CallBudget(call, granted, max) && GrantsOk(granted, latest, calls)
    requires c in calls ==> call.stage == calls[c].stage
    ensures CallsBudget(calls[c := call], granted, max) && GrantsOk(granted, latest, calls[c := call])
  {
  }

  lemma OneProcChanged(procs: map<nat, Dispatcher>, p: nat, d: Dispatcher, granted: set<Claimed>, max: nat)
    requires ProcsBudget(procs, granted, max) && ProcBudget(d, granted, max)
    ensures ProcsBudget(procs[p := d], granted, max)
  {
  }

  lemma ReplyKeepsGrantInv(s: System, e: Step, max: nat)
    requires Inv(s) && GrantInv(s, max) && CanStep(s, e) && e.Local? && e.act.ReplyOk?
    ensures GrantInv(After(s, e), max)
  {
    var d := s.procs[e.proc];
    var c := d.waiting.value;
    assert ProcInv(e.proc, d, s.calls, s.delivered);
    RepliedBudget(d, s.calls[c], s.granted, max);
    OneProcChanged(s.procs, e.proc, Replied(d, s.calls[c]), s.granted, max);
    OneCallChanged(s.calls, c, s.calls[c].(answered := true), s.granted, s.db.latest, max);
  }

  lemma LocalKeepsGrantInv(s: System, e: Step, max: nat)
    requires Inv(s) && GrantInv(s, max) && CanStep(s, e) && e.Local? && !e.act.ReplyOk?
    ensures GrantInv(After(s, e), max)
  {
    var d := s.procs[e.proc];
    assert ProcInv(e.proc, d, s.calls, s.delivered);
    ActedBudget(d, e.act, s.granted, max);
    OneProcChanged(s.procs, e.proc, Acted(d, e.act), s.granted, max);
    if Asks(e.act) {
      AskedBudget(e.proc, d, e.act, s.granted, max);
      OneCallChanged(s.calls, e.act.call, Call(e.proc, d.worker, Ask(d, e.act), 0, [], {}, false), s.granted,
          s.db.latest, max);
    }
  }

  lemma StepKeepsGrantInv(s: System, e: Step, max: nat)
    requires Inv(s) && GrantInv(s, max) && CanStep(s, e) && SharedPolicy(e, max)
    ensures GrantInv(After(s, e), max)
  {
    match e
    case Outside(_) =>
    case Commit(_, _, _, _, _, _) => CommitKeepsGrantInv(s, e, max);
    case Local(_, a) =>
      if a.ReplyOk? {
        ReplyKeepsGrantInv(s, e, max);
      } else {
        LocalKeepsGrantInv(s, e, max);
      }
    case Start(_, _, _, _) =>
    case Crash(_) =>
  }

  /** One step of the system keeps the budget exactly when its statement fits. */
  lemma StepBudget(s: System, e: Step, max: nat)
    requires Valid(s.db) && GrantInv(s, max) && CanStep(s, e) && RowsWithinBudget(s.db.rows, max) && max >= 1
    ensures RowsWithinBudget(After(s, e).db.rows, max) <==> Fits(s, e, max)
  {
    TableStep(s, e);
    match e
    case Outside(st) => StatementBudget(s.db, st, max);
    case Commit(c, _, _, _, _, _) =>
      assert CallBudget(s.calls[c], s.granted, max);
      NextReasons(c, s.calls[c], e, s.granted, max);
      StatementBudget(s.db, NextStmt(c, s.calls[c], e), max);
    case _ =>
  }

  lemma MoveBudget(s: System, e: Step, s': System, max: nat)
    requires Valid(s.db) && GrantInv(s, max) && CanStep(s, e) && s' == After(s, e) && max >= 1
    requires RowsWithinBudget(s.db.rows, max)
    ensures RowsWithinBudget(s'.db.rows, max) <==> Fits(s, e, max)
  {
    StepBudget(s, e, max);
  }

  // ---------------------------------------------------------------- runs

  /** A run in which all workers share one policy of `max` attempts. */
  ghost predicate SharedRun(states: seq<System>, steps: seq<Step>, max: nat) {
    Run(states, steps) && max >= 1 && forall i: nat | i < |steps| :: SharedPolicy(steps[i], max)
  }

  lemma InitialGrants(max: nat)
    ensures GrantInv(INITIAL, max) && RowsWithinBudget(INITIAL.db.rows, max)
  {
  }

  lemma SharedStep(states: seq<System>, steps: seq<Step>, k: nat, max: nat)
    requires SharedRun(states, steps, max) && 0 < k <= |steps| && Inv(states[k - 1]) && GrantInv(states[k - 1], max)
    ensures GrantInv(states[k], max)
  {
    assert Moves(states, steps, k - 1) && SharedPolicy(steps[k - 1], max);
    StepKeepsGrantInv(states[k - 1], steps[k - 1], max);
  }

  lemma {:induction false} GrantsHold(states: seq<System>, steps: seq<Step>, k: nat, max: nat)
    requires SharedRun(states, steps, max) && k <= |steps|
    ensures GrantInv(states[k], max)
  {
    if k == 0 {
      InitialGrants(max);
    } else {
      GrantsHold(states, steps, k - 1, max);
      Reachable(states, steps, k - 1);
      SharedStep(states, steps, k, max);
    }
  }

  ghost predicate WithinAt(states: seq<System>, k: nat, max: nat)
    requires k < |states|
  {
    RowsWithinBudget(states[k].db.rows, max)
  }

  ghost predicate FitsAt(states: seq<System>, steps: seq<Step>, i: nat, max: nat)
    requires i < |steps| && |states| == |steps| + 1
  {
    Fits(states[i], steps[i], max)
  }

  lemma BudgetAcross(states: seq<System>, steps: seq<Step>, k: nat, max: nat)
    requires SharedRun(states, steps, max) && 0 < k <= |steps| && WithinAt(states, k - 1, max)
    ensures WithinAt(states, k, max) <==> FitsAt(states, steps, k - 1, max)
  {
    ReachableTable(states, steps, k - 1);
    GrantsHold(states, steps, k - 1, max);
    assert Moves(states, steps, k - 1);
    MoveBudget(states[k - 1], steps[k - 1], states[k], max);
  }

  lemma {:induction false} FittingRunStaysWithin(states: seq<System>, steps: seq<Step>, k: nat, max: nat)
    requires SharedRun(states, steps, max) && k <= |steps| && forall i: nat | i < k :: FitsAt(states, steps, i, max)
    ensures WithinAt(states, k, max)
  {
    if k > 0 {
      FittingRunStaysWithin(states, steps, k - 1, max);
      assert FitsAt(states, steps, k - 1, max);
      BudgetAcross(states, steps, k, max);
    }
  }

  /** The budget, exactly: in a run whose workers share one policy every row of every state is within
      budget if and only if every failure written fits the row it is written to. */
  lemma BudgetExactly(states: seq<System>, steps: seq<Step>, max: nat)
    requires SharedRun(states, steps, max)
    ensures (forall k: nat | k <= |steps| :: WithinAt(states, k, max)) <==>
            (forall i: nat | i < |steps| :: FitsAt(states, steps, i, max))
  {
    if forall i: nat | i < |steps| :: FitsAt(states, steps, i, max) {
      forall k: nat | k <= |steps| ensures WithinAt(states, k, max) {
        FittingRunStaysWithin(states, steps, k, max);
      }
    }
    if forall k: nat | k <= |steps| :: WithinAt(states, k, max) {
      forall i: nat | i < |steps| ensures FitsAt(states, steps, i, max) {
        assert WithinAt(states, i, max) && WithinAt(states, i + 1, max);
        BudgetAcross(states, steps, i + 1, max);
      }
    }
  }

  /** One shared policy, and each failure written under the claim it was decided for. */
  ghost predicate Disciplined(states: seq<System>, steps: seq<Step>, max: nat) {
    SharedRun(states, steps, max) && forall i: nat | i < |steps| :: OwnClaims(states[i], steps[i])
  }

  lemma DisciplinedFits(states: seq<System>, steps: seq<Step>, i: nat, max: nat)
    requires Disciplined(states, steps, max) && i < |steps|
    ensures FitsAt(states, steps, i, max)
  {
    ReachableTable(states, steps, i);
    GrantsHold(states, steps, i, max);
    assert Moves(states, steps, i) && OwnClaims(states[i], steps[i]);
    OwnClaimsFit(states[i], steps[i], max);
  }

  /** In every disciplined run a live message has attempts to spare, `attempts` never exceeds
      `max_attempts`, and a message dies of exhaustion only when `attempts` is `max_attempts`. */
  lemma AttemptBudget(states: seq<System>, steps: seq<Step>, k: nat, max: nat, m: MessageId)
    requires Disciplined(states, steps, max) && k <= |steps| && m in states[k].db.rows
    ensures var r := states[k].db.rows[m];
            && r.attempts <= max
            && (r.publishedAt.None? && r.deadAt.None? ==> r.attempts < max)
            && (r.deadReason == Some(AttemptsExhausted) ==> r.attempts == max)
            && (r.publishedAt.None? && r.attempts == max ==>
                  r.deadReason == Some(AttemptsExhausted) || r.deadReason == Some(PermanentError))
  {
    forall i: nat | i < k ensures FitsAt(states, steps, i, max) {
      DisciplinedFits(states, steps, i, max);
    }
    FittingRunStaysWithin(states, steps, k, max);
    assert WithinBudget(states[k].db.rows[m], max);
  }
}
