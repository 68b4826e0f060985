/** What the worker loop does, turn by turn, as values: the specification its program is held to, and
    what follows for whole runs of it.

    What the loop cannot decide itself - which `select!` branch fires, what the store answers, how
    tasks end, how late it is - comes in as a script of turns. A store may return any batch. */
module WorkerSpec {
  import opened Basics
  import opened Backoff
  import opened DispatcherState
  import opened Protocol
  import opened ProtocolSafety
  import Runs = ProtocolRuns

  /** How an outcome write ends: accepted, refused for now (a transient error or a timeout), refused
      for good, or abandoned because another branch of the `select!` won. */
  datatype Reply = Accepted | Refused | Fatal | Dropped

  /** How a publish task ends, with the entropy its retry delay would draw. */
  datatype Resolution = Resolution(tid: nat, outcome: TaskOutcome, unit: real)

  datatype Event =
    | TaskStarts(tid: nat)
    | TasksEnd(resolutions: seq<Resolution>)
    | Idles              // nothing is ready, or statistics are read
    | LeaseTicks
    | OutcomesRetried(complete: Reply, fail: Reply, between: Time)
    | Acquired(batch: seq<Claimed>)
    | AcquireFails(fatal: bool)

  datatype Turn = Turn(at: Time, event: Event)

  predicate Halts(r: Reply) {
    r.Fatal? || r.Dropped?
  }

  function Later(a: Time, b: Time): Time {
    if a >= b then a else b
  }

  function At(d: Dispatcher, t: Time): Dispatcher {
    d.(now := Later(d.now, t))
  }

  /** The two halves of a round of `retry_unwritten_outcomes`. */
  function CompleteHalf(d: Dispatcher, reply: Reply): Dispatcher {
    ExpireCompletes(if reply.Accepted? then CompleteAcknowledged(d) else d)
  }

  function FailHalf(d: Dispatcher, reply: Reply): Dispatcher {
    ExpireFails(if reply.Accepted? then FailAcknowledged(d) else d)
  }

  function Round(d: Dispatcher, complete: Reply, fail: Reply, between: Time): Dispatcher {
    if d.unwrittenComplete != [] && Halts(complete) then d
    else
      var half := At(CompleteHalf(d, complete), between);
      if half.unwrittenFail != [] && Halts(fail) then half else FailHalf(half, fail)
  }

  /** `us'` is what one half of a round leaves of `us`: entries leave only because the store accepted
      them or because they are older than the lease. */
  ghost predicate LeavesOnlyDone<T(!new)>(us: seq<Stamped<T>>, us': seq<Stamped<T>>, reply: Reply, now: Time,
                                   lease: nat) {
    && (forall u | u in us && u !in us' :: reply.Accepted? || now - u.since > lease)
    && (forall u | u in us' :: u in us)
  }

  /** And if nothing cut it short: nothing is left of an accepted list, and nothing older than the
      lease of a refused one. */
  ghost predicate LeavesOnlyYoung<T(!new)>(us': seq<Stamped<T>>, reply: Reply, now: Time, lease: nat) {
    if reply.Accepted? then us' == [] else forall u | u in us' :: now - u.since <= lease
  }

  lemma CompleteHalfGuarantee(d: Dispatcher, reply: Reply)
    ensures LeavesOnlyDone(d.unwrittenComplete, CompleteHalf(d, reply).unwrittenComplete, reply, d.now,
              d.settings.lease)
    ensures LeavesOnlyYoung(CompleteHalf(d, reply).unwrittenComplete, reply, d.now, d.settings.lease)
    ensures CompleteHalf(d, reply).unwrittenFail == d.unwrittenFail
  {
    GivenUpPastLease(d.unwrittenComplete, d.now, d.settings.lease);
    var left := CompleteHalf(d, reply).unwrittenComplete;
    assert left == if reply.Accepted? then [] else Kept(d.unwrittenComplete, d.now, d.settings.lease);
  }

  lemma FailHalfGuarantee(d: Dispatcher, reply: Reply)
    ensures LeavesOnlyDone(d.unwrittenFail, FailHalf(d, reply).unwrittenFail, reply, d.now, d.settings.lease)
    ensures LeavesOnlyYoung(FailHalf(d, reply).unwrittenFail, reply, d.now, d.settings.lease)
    ensures FailHalf(d, reply).unwrittenComplete == d.unwrittenComplete
  {
    GivenUpPastLease(d.unwrittenFail, d.now, d.settings.lease);
    var left := FailHalf(d, reply).unwrittenFail;
    assert left == if reply.Accepted? then [] else Kept(d.unwrittenFail, d.now, d.settings.lease);
  }

  /** What a round guarantees, even one that is cut short. */
  lemma RoundGuarantee(d: Dispatcher, complete: Reply, fail: Reply, between: Time)
    ensures var d' := Round(d, complete, fail, between);
            && LeavesOnlyDone(d.unwrittenComplete, d'.unwrittenComplete, complete, d.now, d.settings.lease)
            && LeavesOnlyDone(d.unwrittenFail, d'.unwrittenFail, fail, d'.now, d.settings.lease)
            && (!Halts(complete) ==> LeavesOnlyYoung(d'.unwrittenComplete, complete, d.now, d.settings.lease))
            && (!Halts(complete) && !Halts(fail) ==> LeavesOnlyYoung(d'.unwrittenFail, fail, d'.now, d.settings.lease))
  {
    CompleteHalfGuarantee(d, complete);
    FailHalfGuarantee(At(CompleteHalf(d, complete), between), fail);
  }

  lemma CompleteHalfKeeps(d: Dispatcher, reply: Reply)
    requires ProcOk(d)
    ensures ProcOk(CompleteHalf(d, reply)) && Load(CompleteHalf(d, reply)) <= Load(d)
  {
    AcknowledgedKeeps(d);
    ExpireCompletesKeeps(if reply.Accepted? then CompleteAcknowledged(d) else d);
  }

  lemma FailHalfKeeps(d: Dispatcher, reply: Reply)
    requires ProcOk(d)
    ensures ProcOk(FailHalf(d, reply)) && Load(FailHalf(d, reply)) <= Load(d)
  {
    AcknowledgedKeeps(d);
    ExpireFailsKeeps(if reply.Accepted? then FailAcknowledged(d) else d);
  }

  lemma RoundKeeps(d: Dispatcher, complete: Reply, fail: Reply, between: Time)
    requires ProcOk(d)
    ensures ProcOk(Round(d, complete, fail, between)) && Load(Round(d, complete, fail, between)) <= Load(d)
  {
    if d.unwrittenComplete == [] || !Halts(complete) {
      CompleteHalfKeeps(d, complete);
      var one := CompleteHalf(d, complete);
      SameBooks(one, one.waiting, Later(one.now, between));
      var half := At(one, between);
      if half.unwrittenFail == [] || !Halts(fail) {
        FailHalfKeeps(half, fail);
      }
    }
  }

  lemma TakenPermits(d: Dispatcher, batch: seq<Claimed>)
    ensures Permits(Taken(d, batch).outstanding) == Permits(d.outstanding)
  {
    Runs.PermitsConcat(d.outstanding, Spawned(batch, d.nextTask));
    Runs.SpawnedHoldNoPermit(batch, d.nextTask);
  }

  // ---------------------------------------------------------------- tasks that end

  /** Each task ends once, and entropy is drawn from [0, 1]. */
  ghost predicate OncePerTask(resolutions: seq<Resolution>) {
    && (forall i, k | 0 <= i < k < |resolutions| :: resolutions[i].tid != resolutions[k].tid)
    && (forall i | 0 <= i < |resolutions| :: 0.0 <= resolutions[i].unit <= 1.0)
  }

  /** A task that has not got its permit cannot have ended. */
  predicate StillQueued(ts: seq<Task>, tid: nat) {
    FindTask(ts, tid).Some? && FindTask(ts, tid).value.status.Queued?
  }

  function Ended(ts: seq<Task>, resolutions: seq<Resolution>): seq<Resolution> {
    if resolutions == [] then []
    else
      var n := |resolutions| - 1;
      Ended(ts, resolutions[..n]) + if StillQueued(ts, resolutions[n].tid) then [] else [resolutions[n]]
  }

  lemma {:induction false} EndedOnce(ts: seq<Task>, resolutions: seq<Resolution>)
    requires OncePerTask(resolutions)
    ensures OncePerTask(Ended(ts, resolutions))
    ensures forall r :: r in Ended(ts, resolutions) <==> r in resolutions && !StillQueued(ts, r.tid)
  {
    if resolutions != [] {
      var n := |resolutions| - 1;
      assert resolutions == resolutions[..n] + [resolutions[n]];
      EndedOnce(ts, resolutions[..n]);
      forall r | r in Ended(ts, resolutions[..n]) ensures r.tid != resolutions[n].tid {
        var i :| 0 <= i < n && resolutions[i] == r;
      }
    }
  }

  function FindTask(ts: seq<Task>, tid: nat): Option<Task> {
    if ts == [] then None else if ts[0].tid == tid then Some(ts[0]) else FindTask(ts[1..], tid)
  }

  lemma {:induction false} FindTaskFinds(ts: seq<Task>, tid: nat)
    ensures match FindTask(ts, tid)
            case Some(t) => t in ts && t.tid == tid
            case None => forall t | t in ts :: t.tid != tid
  {
    if ts != [] {
      FindTaskFinds(ts[1..], tid);
    }
  }

  /** What the JoinSet yields for a task that ended. */
  function JoinOf(ts: seq<Task>, r: Resolution, policy: ExponentialBackoff): Joined {
    var task := FindTask(ts, r.tid);
    if task.None? || r.outcome.TaskPanicked? then JoinFailed(r.tid)
    else if r.outcome.PublishedOk? then Done(r.tid, task.value.claim, Published)
    else Done(r.tid, task.value.claim, Failed(Next(policy, task.value.claim.attempts, r.outcome.kind, r.unit)))
  }

  function Joins(ts: seq<Task>, resolutions: seq<Resolution>, policy: ExponentialBackoff): seq<Joined> {
    seq(|resolutions|, i requires 0 <= i < |resolutions| => JoinOf(ts, resolutions[i], policy))
  }

  /** A joined entry tells how its task ended: success, a failure with the policy's decision at the
      attempts of the claim, or - if it panicked or is no longer tracked - only its id. */
  ghost predicate Tells(ts: seq<Task>, r: Resolution, j: Joined, policy: ExponentialBackoff) {
    && j.tid == r.tid
    && (j.Done? <==> !r.outcome.TaskPanicked? && exists t :: t in ts && t.tid == r.tid)
    && (j.Done? ==> exists t :: t in ts && t.tid == r.tid && t.claim == j.claim)
    && (j.Done? ==>
          && (r.outcome.PublishedOk? ==> j.verdict == Published)
          && (r.outcome.PublishFailed? ==>
                j.verdict == Failed(Next(policy, j.claim.attempts, r.outcome.kind, r.unit))))
  }

  /** Each task that ended yields one entry, and the entries speak of distinct tasks. */
  lemma JoinsTell(ts: seq<Task>, resolutions: seq<Resolution>, policy: ExponentialBackoff)
    requires OncePerTask(resolutions)
    ensures AllJoinable(ts, Joins(ts, resolutions, policy))
    ensures forall k | 0 <= k < |resolutions| :: Tells(ts, resolutions[k], Joins(ts, resolutions, policy)[k], policy)
  {
    var results := Joins(ts, resolutions, policy);
    forall k | 0 <= k < |resolutions|
      ensures Tells(ts, resolutions[k], results[k], policy) && Joinable(ts, results[k])
    {
      FindTaskFinds(ts, resolutions[k].tid);
    }
  }

  // ---------------------------------------------------------------- one turn

  /** How many rows the next `acquire` asks for. */
  function Room(d: Dispatcher): nat {
    Min(d.settings.batchSize, Capacity(d))
  }

  function Starts(d: Dispatcher, tid: nat): Dispatcher {
    if StillQueued(d.outstanding, tid) && Permits(d.outstanding) < d.settings.maxInFlight then
      d.(outstanding := WithStatus(d.outstanding, tid, Publishing))
    else
      d
  }

  function JoinTurn(d: Dispatcher, resolutions: seq<Resolution>, b: ExponentialBackoff): Dispatcher {
    RecordAll(d, Joins(d.outstanding, Ended(d.outstanding, resolutions), b))
  }

  /** One iteration of the `select!` loop. */
  function TurnOf(d: Dispatcher, turn: Turn, b: ExponentialBackoff): Dispatcher {
    var d1 := At(d, turn.at);
    match turn.event
    case TaskStarts(tid) => Starts(d1, tid)
    case TasksEnd(resolutions) => JoinTurn(d1, resolutions, b)
    case Idles => d1
    case LeaseTicks => d1
    case OutcomesRetried(complete, fail, between) => Round(d1, complete, fail, between)
    case Acquired(batch) => if Room(d) > 0 then Taken(d1, batch) else d1
    case AcquireFails(_) => d1
  }

  /** A write refused for good ends the round it is part of, and the loop. */
  predicate FatalRound(d: Dispatcher, complete: Reply, fail: Reply) {
    if d.unwrittenComplete != [] && Halts(complete) then complete.Fatal?
    else d.unwrittenFail != [] && fail.Fatal?
  }

  predicate Stops(d: Dispatcher, turn: Turn) {
    match turn.event
    case OutcomesRetried(complete, fail, _) => FatalRound(d, complete, fail)
    case AcquireFails(fatal) => fatal && Room(d) > 0
    case _ => false
  }

  /** The batch a turn adds to what the worker has received. */
  function BatchOf(d: Dispatcher, turn: Turn): seq<Claimed> {
    if turn.event.Acquired? && Room(d) > 0 then turn.event.batch else []
  }

  ghost predicate WellFormedTurn(t: Turn) {
    t.event.TasksEnd? ==> OncePerTask(t.event.resolutions)
  }

  ghost predicate WellFormedScript(script: seq<Turn>) {
    forall i | 0 <= i < |script| :: WellFormedTurn(script[i])
  }

  lemma {:induction false} RecordAllPhase(d: Dispatcher, results: seq<Joined>)
    ensures RecordAll(d, results).phase == d.phase
  {
    if results != [] {
      RecordAllPhase(d, results[..|results| - 1]);
    }
  }

  lemma RoundFrame(d: Dispatcher, complete: Reply, fail: Reply, between: Time)
    ensures var d' := Round(d, complete, fail, between);
            && d'.phase == d.phase && d'.ledger.received == d.ledger.received
            && d'.outstanding == d.outstanding && d'.settings == d.settings
  {
  }

  /** What every turn keeps: each instance in exactly one place, nothing pending, the permits within
      their bound whatever the store returned, and the load raised by at most the batch received. */
  ghost predicate Keeps(d: Dispatcher, d': Dispatcher, batch: seq<Claimed>) {
    && ProcOk(d') && Permits(d'.outstanding) <= d.settings.maxInFlight && NoneResolved(d'.outstanding)
    && Load(d') <= Load(d) + |batch|
    && d'.phase == d.phase && d'.settings == d.settings
    && d'.ledger.received == d.ledger.received + Batch(batch)
  }

  /** A task is queued or publishing until it is joined. */
  ghost predicate NoneResolved(ts: seq<Task>) {
    forall t | t in ts :: !t.status.Resolved?
  }

  ghost predicate Ready(d: Dispatcher) {
    ProcOk(d) && Permits(d.outstanding) <= d.settings.maxInFlight && NoneResolved(d.outstanding)
  }

  lemma JoinTurnKeeps(d: Dispatcher, resolutions: seq<Resolution>, b: ExponentialBackoff)
    requires Ready(d) && OncePerTask(resolutions)
    ensures Keeps(d, JoinTurn(d, resolutions, b), [])
  {
    var ended := Ended(d.outstanding, resolutions);
    EndedOnce(d.outstanding, resolutions);
    var results := Joins(d.outstanding, ended, b);
    JoinsTell(d.outstanding, ended, b);
    Runs.RecordPermits(d, results);
    RecordAllKeeps(d, results);
    RecordAllPending(d, results);
    RecordAllPhase(d, results);
  }

  lemma StartsKeeps(d: Dispatcher, tid: nat)
    requires Ready(d)
    ensures Keeps(d, Starts(d, tid), [])
  {
    StatusKeepsProc(d, tid, Publishing);
    Runs.StatusPermits(d.outstanding, tid, Publishing);
    WithStatusUnique(d.outstanding, tid, Publishing);
    WithStatusSets(d.outstanding, tid, Publishing);
  }

  lemma WithStatusSets(ts: seq<Task>, tid: nat, status: TaskStatus)
    ensures forall t | t in WithStatus(ts, tid, status) && t.tid == tid :: t.status == status
  {
  }

  lemma RoundTurnKeeps(d: Dispatcher, complete: Reply, fail: Reply, between: Time)
    requires Ready(d)
    ensures Keeps(d, Round(d, complete, fail, between), [])
  {
    RoundKeeps(d, complete, fail, between);
    RoundFrame(d, complete, fail, between);
  }

  lemma TakenTurnKeeps(d: Dispatcher, batch: seq<Claimed>)
    requires Ready(d)
    ensures Keeps(d, Taken(d, batch), batch)
  {
    TakenKeeps(d, batch);
    TakenPermits(d, batch);
  }

  lemma AtKeeps(d: Dispatcher, t: Time)
    requires Ready(d)
    ensures Keeps(d, At(d, t), []) && Ready(At(d, t))
  {
    SameBooks(d, d.waiting, Later(d.now, t));
  }

  lemma KeepsOn(d: Dispatcher, d1: Dispatcher, d2: Dispatcher, batch: seq<Claimed>)
    requires Keeps(d, d1, []) && Keeps(d1, d2, batch)
    ensures Keeps(d, d2, batch) && Ready(d2)
  {
  }

  lemma TurnKeeps(d: Dispatcher, turn: Turn, b: ExponentialBackoff)
    requires Ready(d) && WellFormedTurn(turn)
    ensures Keeps(d, TurnOf(d, turn, b), BatchOf(d, turn)) && Ready(TurnOf(d, turn, b))
  {
    AtKeeps(d, turn.at);
    var d1 := At(d, turn.at);
    match turn.event {
      case TaskStarts(tid) =>
        StartsKeeps(d1, tid);
        KeepsOn(d, d1, Starts(d1, tid), []);
      case TasksEnd(resolutions) =>
        JoinTurnKeeps(d1, resolutions, b);
        KeepsOn(d, d1, JoinTurn(d1, resolutions, b), []);
      case OutcomesRetried(complete, fail, between) =>
        RoundTurnKeeps(d1, complete, fail, between);
        KeepsOn(d, d1, Round(d1, complete, fail, between), []);
      case Acquired(batch) =>
        if Room(d) > 0 {
          TakenTurnKeeps(d1, batch);
          KeepsOn(d, d1, Taken(d1, batch), batch);
        }
      case _ =>
    }
  }

  // ---------------------------------------------------------------- whole runs of the loop

  ghost predicate TurnAt(ds: seq<Dispatcher>, script: seq<Turn>, b: ExponentialBackoff, i: nat)
    requires i < |script| && i + 1 < |ds|
  {
    ds[i + 1] == TurnOf(ds[i], script[i], b)
  }

  predicate StopsAt(ds: seq<Dispatcher>, script: seq<Turn>, i: nat)
    requires i < |script| && i < |ds|
  {
    Stops(ds[i], script[i])
  }

  /** `ds` are the worker's states at the loop heads: one turn of the script after another, until the
      script ends or a turn stops the loop. */
  ghost predicate Trace(d: Dispatcher, script: seq<Turn>, b: ExponentialBackoff, ds: seq<Dispatcher>) {
    && 1 <= |ds| <= |script| + 1 && ds[0] == d
    && (forall i: nat | i < |ds| - 1 :: TurnAt(ds, script, b, i))
    && (forall i: nat | i < |ds| - 2 :: !StopsAt(ds, script, i))
    && (|ds| <= |script| ==> |ds| > 1 && StopsAt(ds, script, |ds| - 2))
  }

  lemma TraceStep(d: Dispatcher, script: seq<Turn>, b: ExponentialBackoff, ds: seq<Dispatcher>, k: nat)
    requires Trace(d, script, b, ds) && 0 < k < |ds| && WellFormedScript(script) && Ready(ds[k - 1])
    ensures Keeps(ds[k - 1], ds[k], BatchOf(ds[k - 1], script[k - 1])) && Ready(ds[k])
  {
    assert WellFormedTurn(script[k - 1]);
    TurnKeeps(ds[k - 1], script[k - 1], b);
    assert TurnAt(ds, script, b, k - 1);
  }

  /** At every loop head every instance received is in exactly one place and nothing is pending; and no
      more than `max_in_flight` tasks publish at once, although the store may return any batch. */
  lemma {:induction false} TraceIsReady(d: Dispatcher, script: seq<Turn>, b: ExponentialBackoff, ds: seq<Dispatcher>,
                                        k: nat)
    requires Trace(d, script, b, ds) && k < |ds| && WellFormedScript(script) && Ready(d)
    ensures Ready(ds[k]) && ds[k].settings == d.settings && ds[k].phase == d.phase
  {
    if k > 0 {
      TraceIsReady(d, script, b, ds, k - 1);
      TraceStep(d, script, b, ds, k);
    }
  }

  /** Everything received in the first `k` turns. */
  function ReceivedBy(ds: seq<Dispatcher>, script: seq<Turn>, k: nat): multiset<Claimed>
    requires k <= |script| && k <= |ds|
  {
    if k == 0 then multiset{} else ReceivedBy(ds, script, k - 1) + Batch(BatchOf(ds[k - 1], script[k - 1]))
  }

  /** The books hold exactly the batches of the turns taken. */
  lemma {:induction false} TraceReceives(d: Dispatcher, script: seq<Turn>, b: ExponentialBackoff,
                                         ds: seq<Dispatcher>, k: nat)
    requires Trace(d, script, b, ds) && k < |ds| && WellFormedScript(script) && Ready(d)
    ensures ds[k].ledger.received == d.ledger.received + ReceivedBy(ds, script, k)
  {
    if k > 0 {
      TraceReceives(d, script, b, ds, k - 1);
      StepReceives(d, script, b, ds, k);
      Regroup(d.ledger.received, ReceivedBy(ds, script, k - 1), Batch(BatchOf(ds[k - 1], script[k - 1])));
    }
  }

  lemma StepReceives(d: Dispatcher, script: seq<Turn>, b: ExponentialBackoff, ds: seq<Dispatcher>, k: nat)
    requires Trace(d, script, b, ds) && 0 < k < |ds| && WellFormedScript(script) && Ready(d)
    ensures ds[k].ledger.received == ds[k - 1].ledger.received + Batch(BatchOf(ds[k - 1], script[k - 1]))
  {
    TraceIsReady(d, script, b, ds, k - 1);
    TraceStep(d, script, b, ds, k);
  }

  lemma Regroup(a: multiset<Claimed>, b: multiset<Claimed>, c: multiset<Claimed>)
    ensures a + b + c == a + (b + c)
  {
  }

  /** The store returned no more than was asked for. */
  ghost predicate Honest(ds: seq<Dispatcher>, script: seq<Turn>)
    requires |ds| <= |script| + 1
  {
    forall i | 0 <= i < |ds| - 1 :: |BatchOf(ds[i], script[i])| <= Room(ds[i])
  }

  lemma HonestStep(d: Dispatcher, d': Dispatcher, batch: seq<Claimed>)
    requires Keeps(d, d', batch) && |batch| <= Room(d) && Load(d) <= d.settings.maxInFlight
    ensures Load(d') <= d'.settings.maxInFlight
  {
  }

  /** With a store that honours the batch size the worker never holds more than `max_in_flight` rows. */
  lemma {:induction false} HonestLoadBounded(d: Dispatcher, script: seq<Turn>, b: ExponentialBackoff,
                                             ds: seq<Dispatcher>, k: nat)
    requires Trace(d, script, b, ds) && k < |ds| && WellFormedScript(script) && Honest(ds, script)
    requires Ready(d) && Load(d) <= d.settings.maxInFlight
    ensures Load(ds[k]) <= ds[k].settings.maxInFlight
  {
    if k > 0 {
      HonestLoadBounded(d, script, b, ds, k - 1);
      TraceIsReady(d, script, b, ds, k - 1);
      TraceStep(d, script, b, ds, k);
      HonestStep(ds[k - 1], ds[k], BatchOf(ds[k - 1], script[k - 1]));
    }
  }

  // ---------------------------------------------------------------- shutdown

  /** One turn of the drain: tasks that ended, and how the outcome writes then fared. */
  datatype DrainTurn = DrainTurn(at: Time, resolutions: seq<Resolution>, complete: Reply, fail: Reply)

  ghost predicate WellFormedDrain(drain: seq<DrainTurn>) {
    forall i | 0 <= i < |drain| :: OncePerTask(drain[i].resolutions)
  }

  function Joined1(d: Dispatcher, t: DrainTurn, b: ExponentialBackoff): Dispatcher {
    JoinTurn(At(d, t.at), t.resolutions, b)
  }

  function DrainTurnOf(d: Dispatcher, t: DrainTurn, b: ExponentialBackoff): Dispatcher {
    var joined := Joined1(d, t, b);
    Round(joined, t.complete, t.fail, joined.now)
  }

  /** The drain loop: until the turns run out, nothing is in flight, or a write is refused for good. */
  function Drained(d: Dispatcher, drain: seq<DrainTurn>, b: ExponentialBackoff): (Dispatcher, bool)
    decreases |drain|
  {
    if drain == [] || d.outstanding == [] then (d, false)
    else
      var d' := DrainTurnOf(d, drain[0], b);
      if FatalRound(Joined1(d, drain[0], b), drain[0].complete, drain[0].fail) then (d', true)
      else Drained(d', drain[1..], b)
  }

  /** The worker when all that is left is to hand rows back: after one last round, unless it is futile. */
  function BeforeFinish(d: Dispatcher, drain: seq<DrainTurn>, complete: Reply, fail: Reply,
                        b: ExponentialBackoff): Dispatcher {
    var (x, fatal) := Drained(d, drain, b);
    if fatal then x else Round(x, complete, fail, x.now)
  }

  /** Whether a write was refused for good during the drain or its last round. */
  predicate DrainFails(d: Dispatcher, drain: seq<DrainTurn>, complete: Reply, fail: Reply, b: ExponentialBackoff) {
    var (x, fatal) := Drained(d, drain, b);
    fatal || FatalRound(x, complete, fail)
  }

  lemma DrainTurnKeeps(d: Dispatcher, t: DrainTurn, b: ExponentialBackoff)
    requires Ready(d) && OncePerTask(t.resolutions)
    ensures Keeps(d, DrainTurnOf(d, t, b), []) && Ready(DrainTurnOf(d, t, b))
  {
    AtKeeps(d, t.at);
    JoinTurnKeeps(At(d, t.at), t.resolutions, b);
    var joined := Joined1(d, t, b);
    RoundTurnKeeps(joined, t.complete, t.fail, joined.now);
  }

  lemma {:induction false} DrainedKeeps(d: Dispatcher, drain: seq<DrainTurn>, b: ExponentialBackoff)
    requires Ready(d) && WellFormedDrain(drain)
    ensures Ready(Drained(d, drain, b).0) && Drained(d, drain, b).0.ledger.received == d.ledger.received
    decreases |drain|
  {
    if drain != [] && d.outstanding != [] {
      DrainTurnKeeps(d, drain[0], b);
      DrainedKeeps(DrainTurnOf(d, drain[0], b), drain[1..], b);
    }
  }

  /** Every instance received is in exactly one final place, and every one seen published is in a
      place a published instance may end up in. */
  ghost predicate AllSettled(l: Ledger) {
    && (forall c :: l.received[c] == Settled(l, c))
    && (forall c :: l.observedOk[c] == l.completed[c] + l.gaveUpComplete[c] + l.leftToLease[c])
  }

  lemma StoppedIsSettled(d: Dispatcher)
    requires ProcOk(d)
    ensures AllSettled(FinishDrain(d).ledger)
  {
  }

  /** However the drain goes, it ends with everything received settled, and with nothing received or
      forgotten on the way. */
  lemma DrainSettles(d: Dispatcher, drain: seq<DrainTurn>, complete: Reply, fail: Reply, b: ExponentialBackoff)
    requires Ready(d) && WellFormedDrain(drain)
    ensures var x := BeforeFinish(d, drain, complete, fail, b);
            && ProcOk(x) && AllSettled(FinishDrain(x).ledger) && FinishDrain(x).ledger.received == d.ledger.received
  {
    DrainedKeeps(d, drain, b);
    var x := Drained(d, drain, b).0;
    RoundTurnKeeps(x, complete, fail, x.now);
    StoppedIsSettled(BeforeFinish(d, drain, complete, fail, b));
  }
}
