/** The worker loop and the composed system speak of one dispatcher: every turn of the loop, and every
    whole run of it with its shutdown, is a sequence of the system's local acts. So what is proved of
    dispatchers in every interleaving is proved of the loop. */
module WorkerActs {
  import opened Basics
  import opened Backoff
  import opened DispatcherState
  import opened Protocol
  import opened ProtocolSafety
  import opened WorkerSpec
  import Runs = ProtocolRuns
  import ProtocolBudget

  /** What a dispatcher does at a time: an act of its own, or a store call awaited to its end - an answer,
      or an error, a timeout or a dropped branch. */
  datatype Move = Alone(act: Act) | Exchange(ask: Act, answer: Option<Call>)

  ghost predicate CanMove(d: Dispatcher, mv: Move) {
    match mv
    case Alone(a) => ActEnabled(d, a) && !Asks(a) && !a.ReplyOk? && !a.ReplyErr?
    case Exchange(ask, answer) =>
      Asks(ask) && ActEnabled(d, ask) && (answer.Some? ==> answer.value.request == Ask(d, ask))
  }

  function Moved(d: Dispatcher, mv: Move): Dispatcher {
    match mv
    case Alone(a) => Acted(d, a)
    case Exchange(ask, answer) =>
      if answer.Some? then Replied(Acted(d, ask), answer.value) else Acted(Acted(d, ask), ReplyErr)
  }

  ghost predicate Leads(d: Dispatcher, moves: seq<Move>, d': Dispatcher)
    decreases |moves|
  {
    if moves == [] then d' == d else CanMove(d, moves[0]) && Leads(Moved(d, moves[0]), moves[1..], d')
  }

  /** Every call has a number of its own. */
  ghost predicate Numbered(moves: seq<Move>, n: nat) {
    forall i | 0 <= i < |moves| && moves[i].Exchange? :: Asks(moves[i].ask) && moves[i].ask.call == n + i
  }

  /** `moves` take `d` to `d'`, with the calls numbered from `n` on. */
  ghost predicate Does(d: Dispatcher, moves: seq<Move>, n: nat, d': Dispatcher) {
    Leads(d, moves, d') && Numbered(moves, n)
  }

  lemma {:induction false} LeadsOn(a: Dispatcher, before: seq<Move>, b: Dispatcher, after: seq<Move>, c: Dispatcher)
    requires Leads(a, before, b) && Leads(b, after, c)
    ensures Leads(a, before + after, c)
    decreases |before|
  {
    if before == [] {
      assert before + after == after;
    } else {
      assert (before + after)[1..] == before[1..] + after;
      LeadsOn(Moved(a, before[0]), before[1..], b, after, c);
    }
  }

  lemma Then(a: Dispatcher, before: seq<Move>, n: nat, b: Dispatcher, after: seq<Move>, c: Dispatcher)
    requires Does(a, before, n, b) && Does(b, after, n + |before|, c)
    ensures Does(a, before + after, n, c)
  {
    LeadsOn(a, before, b, after, c);
  }

  lemma One(d: Dispatcher, mv: Move, n: nat)
    requires CanMove(d, mv) && (mv.Exchange? ==> mv.ask.call == n)
    ensures Does(d, [mv], n, Moved(d, mv))
  {
    assert [mv][1..] == [];
  }

  // ---------------------------------------------------------------- in the system

  /** In the system an act of a dispatcher's own is one step. */
  lemma AloneIsAStep(s: System, p: nat, mv: Move)
    requires p in s.procs && mv.Alone? && CanMove(s.procs[p], mv)
    ensures CanStep(s, Local(p, mv.act)) && After(s, Local(p, mv.act)).procs == s.procs[p := Moved(s.procs[p], mv)]
  {
  }

  /** A call under a new number is two: the first issues it, and the second, from any later state in which
      the call stands answered - or in any state at all, if it is given up on - ends it. */
  lemma ExchangeIsTwoSteps(s: System, p: nat, mv: Move, later: System)
    requires p in s.procs && mv.Exchange? && CanMove(s.procs[p], mv) && mv.ask.call !in s.calls
    requires p in later.procs && later.procs[p] == Acted(s.procs[p], mv.ask)
    requires mv.answer.Some? ==>
               && mv.ask.call in later.calls && later.calls[mv.ask.call] == mv.answer.value
               && mv.answer.value.stage == Stages(mv.answer.value.request)
    ensures CanStep(s, Local(p, mv.ask)) && After(s, Local(p, mv.ask)).procs == s.procs[p := later.procs[p]]
    ensures mv.ask.call in After(s, Local(p, mv.ask)).calls
    ensures After(s, Local(p, mv.ask)).calls[mv.ask.call].request == Ask(s.procs[p], mv.ask)
    ensures var reply := Local(p, if mv.answer.Some? then ReplyOk else ReplyErr);
            CanStep(later, reply) && After(later, reply).procs == later.procs[p := Moved(s.procs[p], mv)]
  {
    ActedFrame(s.procs[p], mv.ask);
  }

  /** What every act keeps, every turn keeps. */
  lemma {:induction false} MovesKeep(d: Dispatcher, moves: seq<Move>, d': Dispatcher)
    requires ProcOk(d) && Permits(d.outstanding) <= d.settings.maxInFlight && Leads(d, moves, d')
    ensures ProcOk(d') && d'.settings == d.settings && Permits(d'.outstanding) <= d'.settings.maxInFlight
    decreases |moves|
  {
    if moves != [] {
      MoveKeeps(d, moves[0]);
      MovesKeep(Moved(d, moves[0]), moves[1..], d');
    }
  }

  lemma MoveKeeps(d: Dispatcher, mv: Move)
    requires ProcOk(d) && Permits(d.outstanding) <= d.settings.maxInFlight && CanMove(d, mv)
    ensures ProcOk(Moved(d, mv)) && Moved(d, mv).settings == d.settings
    ensures Permits(Moved(d, mv).outstanding) <= d.settings.maxInFlight
  {
    match mv
    case Alone(a) => AloneKeeps(d, a);
    case Exchange(ask, answer) =>
      AloneKeeps(d, ask);
      ActedFrame(d, ask);
      ReplyKeeps(Acted(d, ask), answer);
  }

  lemma AloneKeeps(d: Dispatcher, a: Act)
    requires ProcOk(d) && Permits(d.outstanding) <= d.settings.maxInFlight && ActEnabled(d, a) && !a.ReplyOk?
    ensures ProcOk(Acted(d, a)) && Acted(d, a).settings == d.settings
    ensures Permits(Acted(d, a).outstanding) <= d.settings.maxInFlight
  {
    Runs.AloneStep(d, a, Call(0, "", CompleteReq([]), 0, [], {}, false));
  }

  lemma ReplyKeeps(d: Dispatcher, answer: Option<Call>)
    requires ProcOk(d) && Permits(d.outstanding) <= d.settings.maxInFlight && d.waiting.Some?
    ensures var d' := if answer.Some? then Replied(d, answer.value) else Acted(d, ReplyErr);
            ProcOk(d') && d'.settings == d.settings && Permits(d'.outstanding) <= d.settings.maxInFlight
  {
    if answer.Some? {
      Runs.AloneStep(d, ReplyOk, answer.value);
    } else {
      AloneKeeps(d, ReplyErr);
    }
  }

  // ---------------------------------------------------------------- a worker between two turns

  /** A worker at a loop head or in its drain, under policy `b`. */
  ghost predicate Idle(d: Dispatcher, b: ExponentialBackoff) {
    Ready(d) && d.waiting == None && d.policy == Some(b) && Validate(b) == None && !d.phase.Stopped?
  }

  lemma Waits(d: Dispatcher, t: Time, n: nat) returns (moves: seq<Move>)
    ensures Does(d, moves, n, At(d, t))
  {
    moves := [Alone(Tick(Later(d.now, t)))];
    One(d, moves[0], n);
  }

  /** A call that comes back with an error leaves everything as it was. */
  lemma Unanswered(d: Dispatcher, ask: Act, n: nat) returns (moves: seq<Move>)
    requires d.waiting == None && ActEnabled(d, ask) && Asks(ask) && ask.call == n && !ask.Cancel? && !ask.Finish?
    ensures Does(d, moves, n, d)
  {
    moves := [Exchange(ask, None)];
    One(d, moves[0], n);
    assert Moved(d, moves[0]) == d;
  }

  // ---------------------------------------------------------------- joined tasks

  lemma {:induction false} StatusThenRemoved(ts: seq<Task>, tid: nat, status: TaskStatus)
    ensures Remove(WithStatus(ts, tid, status), tid) == Remove(ts, tid)
  {
    if ts != [] {
      assert WithStatus(ts, tid, status)[1..] == WithStatus(ts[1..], tid, status);
      StatusThenRemoved(ts[1..], tid, status);
    }
  }

  function Ending(d: Dispatcher, tid: nat, outcome: TaskOutcome): Dispatcher {
    Acted(d, TaskResolve(tid, outcome))
  }

  /** How a task ended matters only in what its entry says. */
  lemma ResolvedThenJoined(d: Dispatcher, j: Joined, outcome: TaskOutcome)
    ensures RecordOne(Ending(d, j.tid, outcome), j) == RecordOne(d, j)
  {
    StatusThenRemoved(d.outstanding, j.tid, Resolved(outcome));
    WithStatusKeeps(d.outstanding, j.tid, Resolved(outcome));
  }

  lemma ResolvedIsThere(ts: seq<Task>, t: Task, status: TaskStatus)
    requires t in ts
    ensures t.(status := status) in WithStatus(ts, t.tid, status)
  {
    var i :| 0 <= i < |ts| && ts[i] == t;
    assert WithStatus(ts, t.tid, status)[i] == t.(status := status);
  }

  lemma JoinOneIsRecordOne(d: Dispatcher, j: Joined)
    ensures Acted(d, Join([j])) == RecordOne(d, j)
  {
    assert [j][..0] == [];
    assert RecordAll(d, []) == d;
  }

  /** What the JoinSet yields for task `t`. */
  function EntryOf(t: Task, r: Resolution, b: ExponentialBackoff): Joined {
    match r.outcome
    case TaskPanicked => JoinFailed(r.tid)
    case PublishedOk => Done(r.tid, t.claim, Published)
    case PublishFailed(kind) => Done(r.tid, t.claim, Failed(Next(b, t.claim.attempts, kind, r.unit)))
  }

  /** The entry of a task speaks the truth once the task has resolved. */
  lemma EntryReports(d: Dispatcher, t: Task, r: Resolution, j: Joined, b: ExponentialBackoff)
    requires UniqueTids(d.outstanding) && t in d.outstanding && t.tid == r.tid && d.policy == Some(b)
    requires Validate(b) == None && 0.0 <= r.unit <= 1.0
    requires j == EntryOf(t, r, b)
    ensures Reports(Ending(d, r.tid, r.outcome), j) && Joinable(Ending(d, r.tid, r.outcome).outstanding, j)
  {
    ResolvedIsThere(d.outstanding, t, Resolved(r.outcome));
    WithStatusSets(d.outstanding, r.tid, Resolved(r.outcome));
    if r.outcome.PublishFailed? {
      ProtocolBudget.PolicyDecides(b, t.claim.attempts, r.outcome.kind, r.unit);
    }
  }

  /** A task ends and is joined. */
  lemma TaskEnds(d: Dispatcher, t: Task, r: Resolution, j: Joined, b: ExponentialBackoff, n: nat)
    returns (moves: seq<Move>)
    requires Orderly(d) && d.waiting == None && d.policy == Some(b) && Validate(b) == None && !d.phase.Stopped?
    requires t in d.outstanding && t.tid == r.tid && t.status.Publishing? && 0.0 <= r.unit <= 1.0
    requires j == EntryOf(t, r, b)
    ensures Does(d, moves, n, RecordOne(d, j))
  {
    var first, second := Alone(TaskResolve(r.tid, r.outcome)), Alone(Join([j]));
    One(d, first, n);
    var mid := Ending(d, r.tid, r.outcome);
    EntryReports(d, t, r, j, b);
    One(mid, second, n + 1);
    JoinOneIsRecordOne(mid, j);
    ResolvedThenJoined(d, j, r.outcome);
    Then(d, [first], n, mid, [second], RecordOne(d, j));
    moves := [first] + [second];
  }

  /** A join error for a task no longer tracked. */
  lemma StrangerEnds(d: Dispatcher, tid: nat, n: nat) returns (moves: seq<Move>)
    requires d.waiting == None && !d.phase.Stopped? && forall t | t in d.outstanding :: t.tid != tid
    ensures Does(d, moves, n, RecordOne(d, JoinFailed(tid)))
  {
    moves := [Alone(Join([JoinFailed(tid)]))];
    One(d, moves[0], n);
    JoinOneIsRecordOne(d, JoinFailed(tid));
  }

  /** One entry of a batch, joined after the entries before it. */
  lemma EntryJoined(d: Dispatcher, mid: Dispatcher, r: Resolution, b: ExponentialBackoff, n: nat)
    returns (moves: seq<Move>)
    requires Orderly(mid) && mid.waiting == None && mid.policy == Some(b) && Validate(b) == None && !mid.phase.Stopped?
    requires 0.0 <= r.unit <= 1.0 && NoneResolved(d.outstanding) && !StillQueued(d.outstanding, r.tid)
    requires forall t: Task | t.tid == r.tid :: t in mid.outstanding <==> t in d.outstanding
    ensures Does(mid, moves, n, RecordOne(mid, JoinOf(d.outstanding, r, b)))
  {
    FindTaskFinds(d.outstanding, r.tid);
    match FindTask(d.outstanding, r.tid)
    case None => moves := StrangerEnds(mid, r.tid, n);
    case Some(t) => moves := TaskEnds(mid, t, r, JoinOf(d.outstanding, r, b), b, n);
  }

  lemma LastEntry(d: Dispatcher, ts: seq<Task>, rs: seq<Resolution>, b: ExponentialBackoff)
    requires rs != []
    ensures RecordAll(d, Joins(ts, rs, b)) ==
              RecordOne(RecordAll(d, Joins(ts, rs[..|rs| - 1], b)), JoinOf(ts, rs[|rs| - 1], b))
  {
    assert Joins(ts, rs[..|rs| - 1], b) == Joins(ts, rs, b)[..|rs| - 1];
  }

  /** The state the batch's first entries leave still has the tasks of the others. */
  lemma StillThere(d: Dispatcher, rs: seq<Resolution>, b: ExponentialBackoff)
    requires Idle(d, b) && rs != [] && OncePerTask(rs)
    ensures var n := |rs| - 1;
            var mid := RecordAll(d, Joins(d.outstanding, rs[..n], b));
            && Orderly(mid) && mid.waiting == None && mid.policy == Some(b) && !mid.phase.Stopped?
            && forall t: Task | t.tid == rs[n].tid :: t in mid.outstanding <==> t in d.outstanding
  {
    var n := |rs| - 1;
    var results := Joins(d.outstanding, rs[..n], b);
    JoinsTell(d.outstanding, rs[..n], b);
    RecordAllKeeps(d, results);
    RecordAllPending(d, results);
    RecordAllPhase(d, results);
    forall j | j in results ensures j.tid != rs[n].tid {
      var i :| 0 <= i < |results| && results[i] == j;
      assert Tells(d.outstanding, rs[..n][i], results[i], b);
    }
  }

  /** The batch: each task once, and none that is still queued. */
  ghost predicate Over(ts: seq<Task>, rs: seq<Resolution>) {
    OncePerTask(rs) && forall i | 0 <= i < |rs| :: !StillQueued(ts, rs[i].tid)
  }

  lemma PrefixOver(ts: seq<Task>, rs: seq<Resolution>)
    requires Over(ts, rs) && rs != []
    ensures Over(ts, rs[..|rs| - 1]) && !StillQueued(ts, rs[|rs| - 1].tid) && 0.0 <= rs[|rs| - 1].unit <= 1.0
  {
  }

  /** The last entry of a batch, joined after all others. */
  lemma LastJoined(d: Dispatcher, rs: seq<Resolution>, b: ExponentialBackoff, n: nat) returns (moves: seq<Move>)
    requires Idle(d, b) && Over(d.outstanding, rs) && rs != []
    ensures Does(RecordAll(d, Joins(d.outstanding, rs[..|rs| - 1], b)), moves, n,
              RecordAll(d, Joins(d.outstanding, rs, b)))
  {
    PrefixOver(d.outstanding, rs);
    StillThere(d, rs, b);
    LastEntry(d, d.outstanding, rs, b);
    var mid := RecordAll(d, Joins(d.outstanding, rs[..|rs| - 1], b));
    moves := EntryJoined(d, mid, rs[|rs| - 1], b, n);
  }

  lemma {:induction false} EntriesJoined(d: Dispatcher, rs: seq<Resolution>, b: ExponentialBackoff, n: nat)
    returns (moves: seq<Move>)
    requires Idle(d, b) && Over(d.outstanding, rs)
    ensures Does(d, moves, n, RecordAll(d, Joins(d.outstanding, rs, b)))
    decreases |rs|
  {
    if rs == [] {
      moves := [];
    } else {
      PrefixOver(d.outstanding, rs);
      var before := EntriesJoined(d, rs[..|rs| - 1], b, n);
      var mid := RecordAll(d, Joins(d.outstanding, rs[..|rs| - 1], b));
      var last := LastJoined(d, rs, b, n + |before|);
      Then(d, before, n, mid, last, RecordAll(d, Joins(d.outstanding, rs, b)));
      moves := before + last;
    }
  }

  lemma TasksJoined(d: Dispatcher, resolutions: seq<Resolution>, b: ExponentialBackoff, n: nat)
    returns (moves: seq<Move>)
    requires Idle(d, b) && OncePerTask(resolutions)
    ensures Does(d, moves, n, JoinTurn(d, resolutions, b))
  {
    EndedOnce(d.outstanding, resolutions);
    moves := EntriesJoined(d, Ended(d.outstanding, resolutions), b, n);
  }

  // ---------------------------------------------------------------- outcome writes

  /** The answer a store gives to a call it has finished. */
  function Finished(d: Dispatcher, ask: Act, batch: seq<Claimed>): Call
    requires Asks(ask)
  {
    Call(0, d.worker, Ask(d, ask), Stages(Ask(d, ask)), batch, {}, false)
  }

  lemma NothingToAcknowledge(d: Dispatcher)
    ensures d.unwrittenComplete == [] ==> CompleteAcknowledged(d) == d
    ensures d.unwrittenFail == [] ==> FailAcknowledged(d) == d
  {
  }

  lemma CompletesWritten(d: Dispatcher, reply: Reply, n: nat) returns (moves: seq<Move>)
    requires d.waiting == None && !d.phase.Stopped?
    ensures Does(d, moves, n, if reply.Accepted? then CompleteAcknowledged(d) else d)
  {
    NothingToAcknowledge(d);
    if d.unwrittenComplete == [] {
      moves := [];
    } else if reply.Accepted? {
      moves := [Exchange(AskComplete(n), Some(Finished(d, AskComplete(n), [])))];
      One(d, moves[0], n);
    } else {
      moves := Unanswered(d, AskComplete(n), n);
    }
  }

  lemma FailsWritten(d: Dispatcher, reply: Reply, n: nat) returns (moves: seq<Move>)
    requires d.waiting == None && !d.phase.Stopped?
    ensures Does(d, moves, n, if reply.Accepted? then FailAcknowledged(d) else d)
  {
    NothingToAcknowledge(d);
    if d.unwrittenFail == [] {
      moves := [];
    } else if reply.Accepted? {
      moves := [Exchange(AskFail(n), Some(Finished(d, AskFail(n), [])))];
      One(d, moves[0], n);
    } else {
      moves := Unanswered(d, AskFail(n), n);
    }
  }

  lemma CompleteHalfDone(d: Dispatcher, reply: Reply, n: nat) returns (moves: seq<Move>)
    requires d.waiting == None && !d.phase.Stopped?
    ensures Does(d, moves, n, CompleteHalf(d, reply))
  {
    var written := CompletesWritten(d, reply, n);
    var d' := if reply.Accepted? then CompleteAcknowledged(d) else d;
    One(d', Alone(GiveUpCompletes), n + |written|);
    Then(d, written, n, d', [Alone(GiveUpCompletes)], ExpireCompletes(d'));
    moves := written + [Alone(GiveUpCompletes)];
  }

  lemma FailHalfDone(d: Dispatcher, reply: Reply, n: nat) returns (moves: seq<Move>)
    requires d.waiting == None && !d.phase.Stopped?
    ensures Does(d, moves, n, FailHalf(d, reply))
  {
    var written := FailsWritten(d, reply, n);
    var d' := if reply.Accepted? then FailAcknowledged(d) else d;
    One(d', Alone(GiveUpFails), n + |written|);
    Then(d, written, n, d', [Alone(GiveUpFails)], ExpireFails(d'));
    moves := written + [Alone(GiveUpFails)];
  }

  lemma CompletesDone(d: Dispatcher, reply: Reply, between: Time, n: nat) returns (moves: seq<Move>)
    requires d.waiting == None && !d.phase.Stopped?
    ensures Does(d, moves, n, At(CompleteHalf(d, reply), between))
  {
    var half := CompleteHalf(d, reply);
    var first := CompleteHalfDone(d, reply, n);
    var second := Waits(half, between, n + |first|);
    Then(d, first, n, half, second, At(half, between));
    moves := first + second;
  }

  lemma RoundDone(d: Dispatcher, complete: Reply, fail: Reply, between: Time, n: nat) returns (moves: seq<Move>)
    requires d.waiting == None && !d.phase.Stopped?
    ensures Does(d, moves, n, Round(d, complete, fail, between))
  {
    if d.unwrittenComplete != [] && Halts(complete) {
      moves := Unanswered(d, AskComplete(n), n);
    } else {
      var half := At(CompleteHalf(d, complete), between);
      var first := CompletesDone(d, complete, between, n);
      var second;
      if half.unwrittenFail != [] && Halts(fail) {
        second := Unanswered(half, AskFail(n + |first|), n + |first|);
      } else {
        second := FailHalfDone(half, fail, n + |first|);
      }
      Then(d, first, n, half, second, Round(d, complete, fail, between));
      moves := first + second;
    }
  }

  // ---------------------------------------------------------------- one turn

  lemma Started1(d: Dispatcher, tid: nat, n: nat) returns (moves: seq<Move>)
    ensures Does(d, moves, n, Starts(d, tid))
  {
    FindTaskFinds(d.outstanding, tid);
    if StillQueued(d.outstanding, tid) && Permits(d.outstanding) < d.settings.maxInFlight {
      moves := [Alone(TaskStart(tid))];
      assert FindTask(d.outstanding, tid).value in d.outstanding;
      One(d, moves[0], n);
    } else {
      moves := [];
    }
  }

  lemma BatchTaken(d: Dispatcher, batch: seq<Claimed>, n: nat) returns (moves: seq<Move>)
    requires d.waiting == None && d.phase.Running? && d.pending == [] && Room(d) > 0
    ensures Does(d, moves, n, Taken(d, batch))
  {
    moves := [Exchange(AskAcquire(n), Some(Finished(d, AskAcquire(n), batch)))];
    One(d, moves[0], n);
    assert d.pending + batch == batch;
    assert Moved(d, moves[0]) == Taken(d, batch);
  }

  /** What the event of a turn does, once its time has come. */
  lemma EventDone(d: Dispatcher, event: Event, b: ExponentialBackoff, n: nat) returns (moves: seq<Move>)
    requires Idle(d, b) && d.phase.Running? && (event.TasksEnd? ==> OncePerTask(event.resolutions))
    ensures Does(d, moves, n, TurnOf(d, Turn(d.now, event), b))
  {
    assert At(d, d.now) == d;
    match event
    case TaskStarts(tid) => moves := Started1(d, tid, n);
    case TasksEnd(resolutions) => moves := TasksJoined(d, resolutions, b, n);
    case Idles => moves := [];
    case LeaseTicks =>
      if Load(d) > 0 {
        moves := Unanswered(d, AskExtend(n), n);
      } else {
        moves := [];
      }
    case OutcomesRetried(complete, fail, between) => moves := RoundDone(d, complete, fail, between, n);
    case Acquired(batch) =>
      if Room(d) > 0 {
        moves := BatchTaken(d, batch, n);
      } else {
        moves := [];
      }
    case AcquireFails(_) =>
      if Room(d) > 0 {
        moves := Unanswered(d, AskAcquire(n), n);
      } else {
        moves := [];
      }
  }

  lemma AtIsIdle(d: Dispatcher, t: Time, b: ExponentialBackoff)
    requires Idle(d, b)
    ensures Idle(At(d, t), b) && At(d, t).phase == d.phase
  {
    AtKeeps(d, t);
  }

  lemma TurnNow(d: Dispatcher, turn: Turn, b: ExponentialBackoff)
    ensures TurnOf(At(d, turn.at), Turn(At(d, turn.at).now, turn.event), b) == TurnOf(d, turn, b)
  {
    assert At(At(d, turn.at), At(d, turn.at).now) == At(d, turn.at);
  }

  /** Every turn of the worker loop is a sequence of the system's local acts. */
  lemma TurnIsActs(d: Dispatcher, turn: Turn, b: ExponentialBackoff, n: nat) returns (moves: seq<Move>)
    requires Idle(d, b) && d.phase.Running? && WellFormedTurn(turn)
    ensures Does(d, moves, n, TurnOf(d, turn, b))
  {
    var d1 := At(d, turn.at);
    AtIsIdle(d, turn.at, b);
    var first := Waits(d, turn.at, n);
    var second := EventDone(d1, turn.event, b, n + |first|);
    TurnNow(d, turn, b);
    Then(d, first, n, d1, second, TurnOf(d, turn, b));
    moves := first + second;
  }

  // ---------------------------------------------------------------- whole runs

  lemma JoinTurnIdle(d: Dispatcher, resolutions: seq<Resolution>, b: ExponentialBackoff)
    requires Idle(d, b) && OncePerTask(resolutions)
    ensures Idle(JoinTurn(d, resolutions, b), b) && JoinTurn(d, resolutions, b).phase == d.phase
  {
    JoinTurnKeeps(d, resolutions, b);
    RecordAllPending(d, Joins(d.outstanding, Ended(d.outstanding, resolutions), b));
  }

  lemma RoundWaits(d: Dispatcher, complete: Reply, fail: Reply, between: Time)
    ensures var d' := Round(d, complete, fail, between);
            d'.waiting == d.waiting && d'.policy == d.policy && d'.phase == d.phase
  {
  }

  lemma RoundIdle(d: Dispatcher, complete: Reply, fail: Reply, between: Time, b: ExponentialBackoff)
    requires Idle(d, b)
    ensures Idle(Round(d, complete, fail, between), b) && Round(d, complete, fail, between).phase == d.phase
  {
    RoundTurnKeeps(d, complete, fail, between);
    RoundWaits(d, complete, fail, between);
  }

  lemma TurnWaits(d: Dispatcher, turn: Turn, b: ExponentialBackoff)
    ensures TurnOf(d, turn, b).waiting == d.waiting && TurnOf(d, turn, b).policy == d.policy
  {
    if turn.event.TasksEnd? {
      var d1 := At(d, turn.at);
      RecordAllPending(d1, Joins(d1.outstanding, Ended(d1.outstanding, turn.event.resolutions), b));
    }
  }

  lemma TurnIdle(d: Dispatcher, turn: Turn, b: ExponentialBackoff)
    requires Idle(d, b) && WellFormedTurn(turn)
    ensures Idle(TurnOf(d, turn, b), b) && TurnOf(d, turn, b).phase == d.phase
  {
    TurnKeeps(d, turn, b);
    TurnWaits(d, turn, b);
  }

  /** The loop up to its head `k`. */
  lemma {:induction false} LoopIsActs(d: Dispatcher, script: seq<Turn>, b: ExponentialBackoff, ds: seq<Dispatcher>,
                                      k: nat, n: nat)
    returns (moves: seq<Move>)
    requires Trace(d, script, b, ds) && k < |ds| && WellFormedScript(script) && Idle(d, b) && d.phase.Running?
    ensures Does(d, moves, n, ds[k]) && Idle(ds[k], b) && ds[k].phase.Running?
  {
    if k == 0 {
      moves := [];
    } else {
      var before := LoopIsActs(d, script, b, ds, k - 1, n);
      assert TurnAt(ds, script, b, k - 1) && WellFormedTurn(script[k - 1]);
      var last := TurnIsActs(ds[k - 1], script[k - 1], b, n + |before|);
      TurnIdle(ds[k - 1], script[k - 1], b);
      Then(d, before, n, ds[k - 1], last, ds[k]);
      moves := before + last;
    }
  }

  lemma JoinedDone(d: Dispatcher, t: DrainTurn, b: ExponentialBackoff, n: nat) returns (moves: seq<Move>)
    requires Idle(d, b) && OncePerTask(t.resolutions)
    ensures Does(d, moves, n, Joined1(d, t, b)) && Idle(Joined1(d, t, b), b) && Joined1(d, t, b).phase == d.phase
  {
    var d1 := At(d, t.at);
    AtIsIdle(d, t.at, b);
    var first := Waits(d, t.at, n);
    var second := TasksJoined(d1, t.resolutions, b, n + |first|);
    JoinTurnIdle(d1, t.resolutions, b);
    Then(d, first, n, d1, second, Joined1(d, t, b));
    moves := first + second;
  }

  lemma DrainTurnIsActs(d: Dispatcher, t: DrainTurn, b: ExponentialBackoff, n: nat) returns (moves: seq<Move>)
    requires Idle(d, b) && OncePerTask(t.resolutions)
    ensures Does(d, moves, n, DrainTurnOf(d, t, b))
    ensures Idle(DrainTurnOf(d, t, b), b) && DrainTurnOf(d, t, b).phase == d.phase
  {
    var joined := Joined1(d, t, b);
    var first := JoinedDone(d, t, b, n);
    var second := RoundDone(joined, t.complete, t.fail, joined.now, n + |first|);
    RoundIdle(joined, t.complete, t.fail, joined.now, b);
    Then(d, first, n, joined, second, DrainTurnOf(d, t, b));
    moves := first + second;
  }

  lemma {:induction false} DrainedIsActs(d: Dispatcher, drain: seq<DrainTurn>, b: ExponentialBackoff, n: nat)
    returns (moves: seq<Move>)
    requires Idle(d, b) && WellFormedDrain(drain)
    ensures Does(d, moves, n, Drained(d, drain, b).0)
    ensures Idle(Drained(d, drain, b).0, b) && Drained(d, drain, b).0.phase == d.phase
    decreases |drain|
  {
    if drain == [] || d.outstanding == [] {
      moves := [];
    } else {
      var d' := DrainTurnOf(d, drain[0], b);
      moves := DrainTurnIsActs(d, drain[0], b, n);
      if !FatalRound(Joined1(d, drain[0], b), drain[0].complete, drain[0].fail) {
        var rest := DrainedIsActs(d', drain[1..], b, n + |moves|);
        Then(d, moves, n, d', rest, Drained(d', drain[1..], b).0);
        moves := moves + rest;
      }
    }
  }

  lemma BeforeFinishIsActs(d: Dispatcher, drain: seq<DrainTurn>, complete: Reply, fail: Reply, b: ExponentialBackoff,
                           n: nat)
    returns (moves: seq<Move>)
    requires Idle(d, b) && WellFormedDrain(drain)
    ensures var x := BeforeFinish(d, drain, complete, fail, b);
            Does(d, moves, n, x) && Idle(x, b) && x.phase == d.phase
  {
    var x := Drained(d, drain, b).0;
    moves := DrainedIsActs(d, drain, b, n);
    if !Drained(d, drain, b).1 {
      var rest := RoundDone(x, complete, fail, x.now, n + |moves|);
      RoundIdle(x, complete, fail, x.now, b);
      Then(d, moves, n, x, rest, BeforeFinish(d, drain, complete, fail, b));
      moves := moves + rest;
    }
  }

  lemma CancelIsAct(d: Dispatcher, b: ExponentialBackoff, n: nat) returns (moves: seq<Move>)
    requires Idle(d, b) && d.phase.Running?
    ensures Does(d, moves, n, StopStarting(d)) && Idle(StopStarting(d), b) && StopStarting(d).phase.Draining?
  {
    moves := [Exchange(Cancel(n), None)];
    One(d, moves[0], n);
    assert Moved(d, moves[0]) == StopStarting(d);
    StopStartingKeeps(d);
    StartedMembers(d.outstanding);
    Runs.FewerPermits(d.outstanding, 0);
  }

  lemma FinishIsAct(d: Dispatcher, b: ExponentialBackoff, n: nat) returns (moves: seq<Move>)
    requires Idle(d, b) && d.phase.Draining?
    ensures Does(d, moves, n, FinishDrain(d))
  {
    moves := [Exchange(Finish(n), None)];
    One(d, moves[0], n);
    assert Moved(d, moves[0]) == FinishDrain(d);
  }

  /** And so is the whole shutdown. */
  lemma ShutdownIsActs(d: Dispatcher, drain: seq<DrainTurn>, complete: Reply, fail: Reply, b: ExponentialBackoff,
                       n: nat)
    returns (moves: seq<Move>)
    requires Idle(d, b) && d.phase.Running? && WellFormedDrain(drain)
    ensures Does(d, moves, n, FinishDrain(BeforeFinish(StopStarting(d), drain, complete, fail, b)))
  {
    var stopped := StopStarting(d);
    var end := BeforeFinish(stopped, drain, complete, fail, b);
    moves := CancelIsAct(d, b, n);
    var second := BeforeFinishIsActs(stopped, drain, complete, fail, b, n + |moves|);
    Then(d, moves, n, stopped, second, end);
    moves := moves + second;
    var third := FinishIsAct(end, b, n + |moves|);
    Then(d, moves, n, end, third, FinishDrain(end));
    moves := moves + third;
  }

  /** A whole run of the worker - any trace of the loop, then the shutdown - is a sequence of the system's
      local acts, from the first loop head to the end. */
  lemma RunIsActs(d: Dispatcher, script: seq<Turn>, b: ExponentialBackoff, ds: seq<Dispatcher>, drain: seq<DrainTurn>,
                  complete: Reply, fail: Reply, n: nat)
    returns (moves: seq<Move>)
    requires Trace(d, script, b, ds) && WellFormedScript(script) && WellFormedDrain(drain)
    requires Idle(d, b) && d.phase.Running?
    ensures Does(d, moves, n, FinishDrain(BeforeFinish(StopStarting(ds[|ds| - 1]), drain, complete, fail, b)))
  {
    var last := ds[|ds| - 1];
    moves := LoopIsActs(d, script, b, ds, |ds| - 1, n);
    var rest := ShutdownIsActs(last, drain, complete, fail, b, n + |moves|);
    Then(d, moves, n, last, rest, FinishDrain(BeforeFinish(StopStarting(last), drain, complete, fail, b)));
    moves := moves + rest;
  }
}
