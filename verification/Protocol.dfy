/** Any number of dispatchers over one outbox table.

    A store call is first issued, then commits - one statement at a time, at any later moment or
    never - and its caller sees `Ok` only if everything committed, or an error at any time. So a
    call may commit after its caller gave up on it (a lost reply, a timeout, a `select!` branch
    dropped midway, a crash), and `fail` may leave its retry half applied. */
module Protocol {
  import opened Basics
  import opened Backoff
  import opened DispatcherState
  import opened OutboxTable

  datatype Request =
    | AcquireReq(limit: nat, lease: nat)
    | CompleteReq(completes: seq<Claimed>)
    | FailReq(fails: seq<FailedMessage>)
    | ReleaseReq(items: seq<Claimed>)
    | ExtendReq(items: seq<Claimed>, lease: nat)

  /** A store call. `acquire` and `fail` are two statements, the others one; `batch` is what an
      `acquire` returns, `poisoned` the claimed rows it could not decode. */
  datatype Call = Call(
    proc: nat, worker: WorkerId, request: Request, stage: nat, batch: seq<Claimed>, poisoned: set<MessageId>,
        answered: bool)

  /** `granted` and `delivered` are history: the claim instances ever granted to a decodable row,
      and those whose publish returned Ok. */
  datatype System = System(
    db: Db, calls: map<nat, Call>, procs: map<nat, Dispatcher>, granted: set<Claimed>, delivered: set<Claimed>)

  const INITIAL := System(EMPTY, map[], map[], {}, {})

  datatype Act =
    | Tick(to: Time)
    | AskAcquire(call: nat)
    | AskComplete(call: nat)
    | AskFail(call: nat)
    | AskExtend(call: nat)
    | Cancel(call: nat)
    | Finish(call: nat)
    | ReplyOk
    | ReplyErr
    | TaskStart(tid: nat)
    | TaskResolve(tid: nat, outcome: TaskOutcome)
    | Join(results: seq<Joined>)
    | GiveUpCompletes
    | GiveUpFails

  datatype Step =
    | Outside(st: Stmt)
    | Commit(call: nat, now: Time, skipped: set<MessageId>, ids: set<MessageId>, order: seq<MessageId>,
        picked: map<MessageId, FailedMessage>)
    | Start(proc: nat, worker: WorkerId, settings: Settings, policy: Option<ExponentialBackoff>)
    | Crash(proc: nat)
    | Local(proc: nat, act: Act)

  // ---------------------------------------------------------------- statements of a call

  function Stages(r: Request): nat {
    if r.AcquireReq? || r.FailReq? then 2 else 1
  }

  function IdsOf(items: seq<Claimed>): set<MessageId> {
    set c | c in items :: c.id
  }

  /** The two halves of `fail`, for the items picked for each. */
  function RetryStmt(picked: map<MessageId, FailedMessage>, worker: WorkerId, now: Time): Stmt {
    FailRetry(map m | m in picked && picked[m].outcome.Retry? :: Interval(picked[m].outcome.delay), worker, now)
  }

  function DeadStmt(picked: map<MessageId, FailedMessage>, worker: WorkerId, now: Time): Stmt {
    FailDead(map m | m in picked && picked[m].outcome.Dead? :: picked[m].outcome.reason, worker, now)
  }

  /** The next statement of a call. */
  function NextStmt(id: nat, call: Call, s: Step): Stmt
    requires s.Commit?
  {
    match call.request
    case AcquireReq(limit, lease) =>
      if call.stage == 0 then Stmt.Claim(id, call.worker, s.now, Interval(lease), limit, s.skipped, s.ids)
      else PoisonSweep(call.poisoned, call.worker, s.now)
    case CompleteReq(items) => Complete(IdsOf(items), call.worker, s.now)
    case FailReq(_) =>
      if call.stage == 0 then RetryStmt(s.picked, call.worker, s.now) else DeadStmt(s.picked, call.worker, s.now)
    case ReleaseReq(items) => Release(IdsOf(items), call.worker)
    case ExtendReq(items, lease) => Extend(IdsOf(items), call.worker, s.now, Interval(lease))
  }

  /** A multi-row UPDATE ... FROM UNNEST applies one of the items naming a row, not a chosen one. */
  ghost predicate Picks(items: seq<FailedMessage>, retries: bool, picked: map<MessageId, FailedMessage>) {
    && (forall m | m in picked :: picked[m] in items && picked[m].claim.id == m && picked[m].outcome.Retry? == retries)
    && (forall f | f in items && f.outcome.Retry? == retries :: f.claim.id in picked)
  }

  ghost predicate NoDuplicates<T(!new)>(s: seq<T>) {
    forall i, j | 0 <= i < j < |s| :: s[i] != s[j]
  }

  /** `order` lists the decodable rows of the claim, each once. */
  ghost predicate Lists(order: seq<MessageId>, rows: map<MessageId, Row>, ids: set<MessageId>) {
    && NoDuplicates(order)
    && (forall m | m in order :: m in ids && m in rows && rows[m].decodable)
    && (forall m | m in ids && m in rows && rows[m].decodable :: m in order)
  }

  function Records(order: seq<MessageId>, rows: map<MessageId, Row>, call: nat): seq<Claimed>
    requires forall m | m in order :: m in rows
  {
    seq(|order|, i requires 0 <= i < |order| =>
        assert order[i] in order; Claimed(call, order[i], rows[order[i]].attempts))
  }

  // ---------------------------------------------------------------- a dispatcher's own actions

  predicate Asks(a: Act) {
    a.AskAcquire? || a.AskComplete? || a.AskFail? || a.AskExtend? || a.Cancel? || a.Finish?
  }

  function CompleteItems(us: seq<Stamped<Claimed>>): seq<Claimed> {
    seq(|us|, i requires 0 <= i < |us| => us[i].item)
  }

  function FailItems(us: seq<Stamped<FailedMessage>>): seq<FailedMessage> {
    seq(|us|, i requires 0 <= i < |us| => us[i].item)
  }

  function TaskItems(ts: seq<Task>): seq<Claimed> {
    seq(|ts|, i requires 0 <= i < |ts| => ts[i].claim)
  }

  function FailRefs(us: seq<Stamped<FailedMessage>>): seq<Claimed> {
    seq(|us|, i requires 0 <= i < |us| => us[i].item.claim)
  }

  /** The rows whose lease the worker loop renews. */
  function LeaseRefs(d: Dispatcher): seq<Claimed> {
    TaskItems(d.outstanding) + CompleteItems(d.unwrittenComplete) + FailRefs(d.unwrittenFail)
  }

  /** `max_in_flight.saturating_sub(outstanding_count)`. */
  function Capacity(d: Dispatcher): nat {
    if d.settings.maxInFlight >= Load(d) then d.settings.maxInFlight - Load(d) else 0
  }

  function Ask(d: Dispatcher, a: Act): Request
    requires Asks(a)
  {
    match a
    case AskAcquire(_) =>
      AcquireReq(Min(d.settings.batchSize, Capacity(d)), d.settings.lease)
    case AskComplete(_) => CompleteReq(CompleteItems(d.unwrittenComplete))
    case AskFail(_) => FailReq(FailItems(d.unwrittenFail))
    case AskExtend(_) => ExtendReq(LeaseRefs(d), d.settings.lease)
    case Cancel(_) => ReleaseReq(d.pending + Unstarted(d.outstanding))
    case Finish(_) => ReleaseReq(TaskItems(d.outstanding) + FailRefs(d.unwrittenFail))
  }

  function WithStatus(ts: seq<Task>, tid: nat, status: TaskStatus): seq<Task> {
    seq(|ts|, i requires 0 <= i < |ts| => if ts[i].tid == tid then ts[i].(status := status) else ts[i])
  }

  /** Tasks currently holding a publish permit. */
  function Permits(ts: seq<Task>): nat {
    if ts == [] then 0 else (if ts[0].status.Publishing? then 1 else 0) + Permits(ts[1..])
  }

  /** What a valid exponential backoff may decide: its verdict, with any jittered delay. */
  predicate Decides(policy: Option<ExponentialBackoff>, attempts: nat, kind: FailureKind, outcome: FailureOutcome) {
    policy.None? ||
    if kind == Permanent then outcome == Dead(PermanentError)
    else if attempts + 1 >= policy.value.maxAttempts then outcome == Dead(AttemptsExhausted)
    else outcome.Retry?
  }

  /** A joined entry reports what its task ended with. */
  ghost predicate Reports(d: Dispatcher, j: Joined) {
    match j
    case Done(tid, claim, Published) => exists t :: t in d.outstanding && t == Task(tid, claim, Resolved(PublishedOk))
    case Done(tid, claim, Failed(outcome)) =>
      exists t :: t in d.outstanding && t.tid == tid && t.claim == claim && t.status.Resolved?
        && t.status.outcome.PublishFailed? && Decides(d.policy, claim.attempts, t.status.outcome.kind, outcome)
    case JoinFailed(tid) => forall t | t in d.outstanding && t.tid == tid :: t.status == Resolved(TaskPanicked)
  }

  ghost predicate ActEnabled(d: Dispatcher, a: Act) {
    match a
    case Tick(to) => to >= d.now
    case AskAcquire(_) => d.phase.Running? && d.waiting.None? && Load(d) < d.settings.maxInFlight
    case AskComplete(_) => !d.phase.Stopped? && d.waiting.None? && d.unwrittenComplete != []
    case AskFail(_) => !d.phase.Stopped? && d.waiting.None? && d.unwrittenFail != []
    case AskExtend(_) => d.phase.Running? && d.waiting.None? && Load(d) > 0
    case Cancel(_) => d.phase.Running? && d.waiting.None?
    case Finish(_) => d.phase.Draining? && d.waiting.None?
    case ReplyOk => d.waiting.Some?
    case ReplyErr => d.waiting.Some?
    case TaskStart(tid) =>
      (exists t :: t in d.outstanding && t.tid == tid && t.status.Queued?) &&
          Permits(d.outstanding) < d.settings.maxInFlight
    case TaskResolve(tid, _) => exists t :: t in d.outstanding && t.tid == tid && t.status.Publishing?
    case Join(results) =>
      && !d.phase.Stopped? && d.waiting.None?
      && AllJoinable(d.outstanding, results)
      && (forall j | j in results :: Reports(d, j))
    case GiveUpCompletes => !d.phase.Stopped? && d.waiting.None?
    case GiveUpFails => !d.phase.Stopped? && d.waiting.None?
  }

  /** The reply to a finished call. */
  function Replied(d: Dispatcher, call: Call): Dispatcher {
    var d' := d.(waiting := None);
    match call.request
    case AcquireReq(_, _) =>
      SpawnReady(d'.(pending := d.pending + call.batch,
          ledger := d.ledger.(received := d.ledger.received + Batch(call.batch))))
    case CompleteReq(_) => CompleteAcknowledged(d')
    case FailReq(_) => FailAcknowledged(d')
    case _ => d'
  }

  /** The effect of an action that is not the reply to a call. */
  function Acted(d: Dispatcher, a: Act): Dispatcher {
    match a
    case Tick(to) => d.(now := to)
    case AskAcquire(c) => d.(waiting := Some(c))
    case AskComplete(c) => d.(waiting := Some(c))
    case AskFail(c) => d.(waiting := Some(c))
    case AskExtend(c) => d.(waiting := Some(c))
    case Cancel(c) => StopStarting(d).(waiting := Some(c))
    case Finish(c) => FinishDrain(d).(waiting := Some(c))
    case ReplyOk => d
    case ReplyErr => d.(waiting := None)
    case TaskStart(tid) => d.(outstanding := WithStatus(d.outstanding, tid, Publishing))
    case TaskResolve(tid, outcome) => d.(outstanding := WithStatus(d.outstanding, tid, Resolved(outcome)))
    case Join(results) => RecordAll(d, results)
    case GiveUpCompletes => ExpireCompletes(d)
    case GiveUpFails => ExpireFails(d)
  }

  function CallsAfter(p: nat, d: Dispatcher, a: Act, calls: map<nat, Call>): map<nat, Call> {
    if Asks(a) then calls[a.call := Call(p, d.worker, Ask(d, a), 0, [], {}, false)] else calls
  }

  /** The claim instances a task resolution adds to the delivered history. */
  function Deliveries(d: Dispatcher, a: Act): set<Claimed> {
    if a.TaskResolve? && a.outcome.PublishedOk? then set t | t in d.outstanding && t.tid == a.tid :: t.claim else {}
  }

  // ---------------------------------------------------------------- the system's steps

  /** Statements that no dispatcher issues. */
  predicate FromOutside(st: Stmt) {
    st.Insert? || st.PurgePublished? || st.PurgeDeadRetention? || st.ExpirySweep? || st.RetryDead? || st.PurgeDead?
  }

  ghost predicate CanStep(s: System, e: Step) {
    match e
    case Outside(st) => FromOutside(st) && Enabled(s.db, st)
    case Commit(c, _, _, ids, order, picked) =>
      && c in s.calls && s.calls[c].stage < Stages(s.calls[c].request)
      && Enabled(s.db, NextStmt(c, s.calls[c], e))
      && (s.calls[c].request.AcquireReq? && s.calls[c].stage == 0 ==> Lists(order, s.db.rows, ids))
      && (s.calls[c].request.FailReq? ==> Picks(s.calls[c].request.fails, s.calls[c].stage == 0, picked))
    case Start(p, _, settings, policy) =>
      p !in s.procs && ValidateShared(settings) == None && (policy.Some? ==> Validate(policy.value) == None)
    case Crash(p) => p in s.procs
    case Local(p, a) =>
      && p in s.procs && ActEnabled(s.procs[p], a)
      && (Asks(a) ==> a.call !in s.calls)
      && (a.ReplyOk? ==>
            var c := s.procs[p].waiting.value;
            c in s.calls && s.calls[c].stage == Stages(s.calls[c].request))
  }

  function Committed(s: System, e: Step): Call
    requires CanStep(s, e) && e.Commit?
  {
    var call := s.calls[e.call].(stage := s.calls[e.call].stage + 1);
    if call.request.AcquireReq? && call.stage == 1 then
      call.(batch := Records(e.order, s.db.rows, e.call),
            poisoned := set m | m in e.ids && m in s.db.rows && !s.db.rows[m].decodable)
    else
      call
  }

  function After(s: System, e: Step): System
    requires CanStep(s, e)
  {
    match e
    case Outside(st) => s.(db := Apply(s.db, st))
    case Commit(c, _, _, _, _, _) =>
      s.(db := Apply(s.db, NextStmt(c, s.calls[c], e)), calls := s.calls[c := Committed(s, e)],
         granted := s.granted + set x | x in Committed(s, e).batch)
    case Start(p, w, settings, policy) =>
      s.(procs := s.procs[p := Dispatcher(w, settings, policy, Running, 0, None, [], [], [], [], 0, NO_LEDGER)])
    case Crash(p) => s.(procs := s.procs - {p})
    case Local(p, a) =>
      var d := s.procs[p];
      if a.ReplyOk? then
        var c := d.waiting.value;
        s.(procs := s.procs[p := Replied(d, s.calls[c])], calls := s.calls[c := s.calls[c].(answered := true)])
      else
        s.(procs := s.procs[p := Acted(d, a)],
           calls := CallsAfter(p, d, a, s.calls),
           delivered := s.delivered + Deliveries(d, a))
  }
}
