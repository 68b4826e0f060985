/** What the worker achieves: where each task that ends goes, what a round of outcome writes settles, and
    what a drain waits for. `WorkerSpec` says that nothing is lost; this says that things get done. */
module WorkerProgress {
  import opened Basics
  import opened Backoff
  import opened DispatcherState
  import opened Protocol
  import opened ProtocolSafety
  import opened WorkerSpec

  // ---------------------------------------------------------------- tasks that end

  ghost predicate Resolves(resolutions: seq<Resolution>, tid: nat) {
    exists r :: r in resolutions && r.tid == tid
  }

  /** A task that holds its permit and has ended is no longer tracked; every other one is. */
  ghost predicate Leaves(d: Dispatcher, d': Dispatcher, resolutions: seq<Resolution>) {
    forall t :: t in d'.outstanding <==>
      t in d.outstanding && (t.status.Queued? || !Resolves(resolutions, t.tid))
  }

  /** What is to be written about a task that ended with `r`: a success, a failure with what the policy
      decides, or - after a panic - nothing. */
  ghost predicate ToWrite(d': Dispatcher, t: Task, r: Resolution, b: ExponentialBackoff) {
    match r.outcome
    case PublishedOk => Stamped(d'.now, t.claim) in d'.unwrittenComplete && t.claim in d'.ledger.observedOk
    case PublishFailed(kind) =>
      Stamped(d'.now, FailedMessage(t.claim, Next(b, t.claim.attempts, kind, r.unit))) in d'.unwrittenFail
    case TaskPanicked => t.claim in d'.ledger.panicked
  }

  ghost predicate EndedWith(d: Dispatcher, t: Task, r: Resolution, resolutions: seq<Resolution>) {
    t in d.outstanding && !t.status.Queued? && r in resolutions && r.tid == t.tid
  }

  lemma {:induction false} RecordedLedger(d: Dispatcher, results: seq<Joined>)
    ensures d.ledger.panicked <= RecordAll(d, results).ledger.panicked
    ensures d.ledger.observedOk <= RecordAll(d, results).ledger.observedOk
    ensures forall j | j in results && j.Done? && j.verdict.Published? ::
              j.claim in RecordAll(d, results).ledger.observedOk
  {
    if results != [] {
      var before, last := results[..|results| - 1], results[|results| - 1];
      assert results == before + [last];
      RecordedLedger(d, before);
    }
  }

  lemma PanicRecorded(d: Dispatcher, t: Task)
    requires UniqueTids(d.outstanding) && t in d.outstanding
    ensures t.claim in RecordOne(d, JoinFailed(t.tid)).ledger.panicked
  {
    RemoveTask(d.outstanding, t);
  }

  lemma {:induction false} PanicsRecorded(d: Dispatcher, results: seq<Joined>, t: Task)
    requires Accounted(d) && Orderly(d) && AllJoinable(d.outstanding, results)
    requires t in d.outstanding && JoinFailed(t.tid) in results
    ensures t.claim in RecordAll(d, results).ledger.panicked
  {
    var before, last := results[..|results| - 1], results[|results| - 1];
    assert results == before + [last];
    RecordAllKeeps(d, before);
    if last == JoinFailed(t.tid) {
      PanicRecorded(RecordAll(d, before), t);
    } else {
      PanicsRecorded(d, before, t);
    }
  }

  /** The entry of a task that ended. */
  lemma EntryOfTask(d: Dispatcher, resolutions: seq<Resolution>, b: ExponentialBackoff, t: Task, r: Resolution)
    requires Ready(d) && OncePerTask(resolutions) && EndedWith(d, t, r, resolutions)
    ensures var results := Joins(d.outstanding, Ended(d.outstanding, resolutions), b);
            && AllJoinable(d.outstanding, results)
            && match r.outcome
               case PublishedOk => Done(t.tid, t.claim, Published) in results
               case PublishFailed(kind) =>
                 Done(t.tid, t.claim, Failed(Next(b, t.claim.attempts, kind, r.unit))) in results
               case TaskPanicked => JoinFailed(t.tid) in results
  {
    var ended := Ended(d.outstanding, resolutions);
    EndedOnce(d.outstanding, resolutions);
    JoinsTell(d.outstanding, ended, b);
    FindTaskFinds(d.outstanding, t.tid);
    FoundIs(d.outstanding, t);
    var i :| 0 <= i < |ended| && ended[i] == r;
    assert Joins(d.outstanding, ended, b)[i] in Joins(d.outstanding, ended, b);
  }

  lemma {:induction false} FoundIs(ts: seq<Task>, t: Task)
    requires UniqueTids(ts) && t in ts
    ensures FindTask(ts, t.tid) == Some(t)
  {
    if ts[0] != t {
      FoundIs(ts[1..], t);
    }
  }

  lemma EntryWritten(d: Dispatcher, results: seq<Joined>, t: Task, verdict: Verdict)
    requires Done(t.tid, t.claim, verdict) in results
    ensures var d' := RecordAll(d, results);
            match verdict
            case Published => Stamped(d'.now, t.claim) in d'.unwrittenComplete && t.claim in d'.ledger.observedOk
            case Failed(outcome) => Stamped(d'.now, FailedMessage(t.claim, outcome)) in d'.unwrittenFail
  {
    RecordedExactly(d, results);
    RecordedLedger(d, results);
  }

  lemma JoinWrites(d: Dispatcher, resolutions: seq<Resolution>, b: ExponentialBackoff, t: Task, r: Resolution)
    requires Ready(d) && OncePerTask(resolutions) && EndedWith(d, t, r, resolutions)
    ensures ToWrite(JoinTurn(d, resolutions, b), t, r, b)
  {
    EntryOfTask(d, resolutions, b, t, r);
    var results := Joins(d.outstanding, Ended(d.outstanding, resolutions), b);
    match r.outcome
    case PublishedOk => EntryWritten(d, results, t, Published);
    case PublishFailed(kind) => EntryWritten(d, results, t, Failed(Next(b, t.claim.attempts, kind, r.unit)));
    case TaskPanicked => PanicsRecorded(d, results, t);
  }

  lemma JoinLeaves(d: Dispatcher, resolutions: seq<Resolution>, b: ExponentialBackoff)
    requires Ready(d) && OncePerTask(resolutions)
    ensures Leaves(d, JoinTurn(d, resolutions, b), resolutions)
  {
    var ended := Ended(d.outstanding, resolutions);
    EndedOnce(d.outstanding, resolutions);
    JoinsTell(d.outstanding, ended, b);
    var results := Joins(d.outstanding, ended, b);
    RecordAllKeeps(d, results);
    forall t | t in d.outstanding
      ensures (exists j :: j in results && j.tid == t.tid) <==> !t.status.Queued? && Resolves(resolutions, t.tid)
    {
      FoundIs(d.outstanding, t);
      JoinedExactly(d, resolutions, b, t);
    }
  }

  lemma JoinedExactly(d: Dispatcher, resolutions: seq<Resolution>, b: ExponentialBackoff, t: Task)
    requires OncePerTask(resolutions) && t in d.outstanding && FindTask(d.outstanding, t.tid) == Some(t)
    ensures var results := Joins(d.outstanding, Ended(d.outstanding, resolutions), b);
            (exists j :: j in results && j.tid == t.tid) <==> !t.status.Queued? && Resolves(resolutions, t.tid)
  {
    var ended := Ended(d.outstanding, resolutions);
    EndedOnce(d.outstanding, resolutions);
    var results := Joins(d.outstanding, ended, b);
    if j :| j in results && j.tid == t.tid {
      var i :| 0 <= i < |results| && results[i] == j;
      assert ended[i] in ended && ended[i].tid == t.tid;
    }
    if !t.status.Queued? && Resolves(resolutions, t.tid) {
      var r :| r in resolutions && r.tid == t.tid;
      var i :| 0 <= i < |ended| && ended[i] == r;
      assert results[i] in results && results[i].tid == t.tid;
    }
  }

  // ---------------------------------------------------------------- a round of writes

  /** What a round settles: what the store accepts is settled as written, and nothing settled is unsettled. */
  ghost predicate RoundSettles(d: Dispatcher, d': Dispatcher, complete: Reply, fail: Reply) {
    && d'.outstanding == d.outstanding && d'.ledger.observedOk == d.ledger.observedOk
    && d'.ledger.panicked == d.ledger.panicked && d'.ledger.released == d.ledger.released
    && (complete.Accepted? ==>
          d'.unwrittenComplete == [] &&
            d'.ledger.completed == d.ledger.completed + Completes(d.unwrittenComplete))
    && (!complete.Accepted? ==> d'.ledger.completed == d.ledger.completed)
    && (fail.Accepted? && !Halts(complete) ==>
          d'.unwrittenFail == [] && d'.ledger.failed == d.ledger.failed + Fails(d.unwrittenFail))
    && d.ledger.failed <= d'.ledger.failed
  }

  lemma CompleteHalfSettles(d: Dispatcher, reply: Reply)
    ensures var d' := CompleteHalf(d, reply);
            && d'.outstanding == d.outstanding && d'.unwrittenFail == d.unwrittenFail
            && d'.ledger == d.ledger.(completed := d'.ledger.completed, gaveUpComplete := d'.ledger.gaveUpComplete)
            && (reply.Accepted? ==>
                  d'.unwrittenComplete == [] &&
                    d'.ledger.completed == d.ledger.completed + Completes(d.unwrittenComplete))
            && (!reply.Accepted? ==> d'.ledger.completed == d.ledger.completed)
  {
  }

  lemma FailHalfSettles(d: Dispatcher, reply: Reply)
    ensures var d' := FailHalf(d, reply);
            && d'.outstanding == d.outstanding && d'.unwrittenComplete == d.unwrittenComplete
            && d'.ledger == d.ledger.(failed := d'.ledger.failed, gaveUpFail := d'.ledger.gaveUpFail)
            && (reply.Accepted? ==>
                  d'.unwrittenFail == [] && d'.ledger.failed == d.ledger.failed + Fails(d.unwrittenFail))
            && (!reply.Accepted? ==> d'.ledger.failed == d.ledger.failed)
  {
  }

  lemma RoundAchieves(d: Dispatcher, complete: Reply, fail: Reply, between: Time)
    ensures RoundSettles(d, Round(d, complete, fail, between), complete, fail)
    ensures Round(d, complete, fail, between).now >= d.now
    ensures !Halts(complete) ==> Round(d, complete, fail, between).now >= between
  {
    if d.unwrittenComplete == [] || !Halts(complete) {
      CompleteHalfSettles(d, complete);
      FailHalfSettles(At(CompleteHalf(d, complete), between), fail);
    }
  }

  // ---------------------------------------------------------------- one turn

  ghost predicate AllToWrite(d: Dispatcher, d': Dispatcher, resolutions: seq<Resolution>, b: ExponentialBackoff) {
    forall t, r | EndedWith(d, t, r, resolutions) :: ToWrite(d', t, r, b)
  }

  /** Nothing is forgotten meanwhile, and nothing else is added to what is to be written. */
  ghost predicate OnlyAdds(d: Dispatcher, d': Dispatcher, resolutions: seq<Resolution>) {
    && (forall u | u in d.unwrittenComplete :: u in d'.unwrittenComplete)
    && (forall u | u in d.unwrittenFail :: u in d'.unwrittenFail)
    && (forall u | u in d'.unwrittenComplete && u !in d.unwrittenComplete ::
          exists t, r :: EndedWith(d, t, r, resolutions) && r.outcome.PublishedOk? && u.item == t.claim)
    && (forall u | u in d'.unwrittenFail && u !in d.unwrittenFail ::
          exists t, r :: EndedWith(d, t, r, resolutions) && r.outcome.PublishFailed? && u.item.claim == t.claim)
  }

  lemma EntryHasTask(d: Dispatcher, resolutions: seq<Resolution>, b: ExponentialBackoff, j: Joined)
    requires Ready(d) && OncePerTask(resolutions) && j.Done?
    requires j in Joins(d.outstanding, Ended(d.outstanding, resolutions), b)
    ensures exists t, r :: EndedWith(d, t, r, resolutions) && j.claim == t.claim
              && (r.outcome.PublishedOk? <==> j.verdict.Published?) && !r.outcome.TaskPanicked?
  {
    var ended := Ended(d.outstanding, resolutions);
    EndedOnce(d.outstanding, resolutions);
    var results := Joins(d.outstanding, ended, b);
    var i :| 0 <= i < |results| && results[i] == j;
    var r := ended[i];
    assert r in ended;
    FindTaskFinds(d.outstanding, r.tid);
    assert EndedWith(d, FindTask(d.outstanding, r.tid).value, r, resolutions);
  }

  lemma JoinOnlyAdds(d: Dispatcher, resolutions: seq<Resolution>, b: ExponentialBackoff)
    requires Ready(d) && OncePerTask(resolutions)
    ensures OnlyAdds(d, JoinTurn(d, resolutions, b), resolutions)
  {
    var results := Joins(d.outstanding, Ended(d.outstanding, resolutions), b);
    RecordedExactly(d, results);
    forall j | j in results && j.Done?
      ensures exists t, r :: EndedWith(d, t, r, resolutions) && j.claim == t.claim
                && (r.outcome.PublishedOk? <==> j.verdict.Published?) && !r.outcome.TaskPanicked?
    {
      EntryHasTask(d, resolutions, b, j);
    }
  }

  /** Tasks that ended: each is dealt with as it ended, and nothing else changes. */
  lemma JoinAchieves(d: Dispatcher, resolutions: seq<Resolution>, b: ExponentialBackoff)
    requires Ready(d) && OncePerTask(resolutions)
    ensures var d' := JoinTurn(d, resolutions, b);
            Leaves(d, d', resolutions) && AllToWrite(d, d', resolutions, b) && OnlyAdds(d, d', resolutions)
  {
    JoinLeaves(d, resolutions, b);
    JoinOnlyAdds(d, resolutions, b);
    forall t, r | EndedWith(d, t, r, resolutions) ensures ToWrite(JoinTurn(d, resolutions, b), t, r, b) {
      JoinWrites(d, resolutions, b, t, r);
    }
  }

  /** A waiting task gets its permit if one is left. */
  ghost predicate Permitted(d: Dispatcher, d': Dispatcher, tid: nat) {
    && |d'.outstanding| == |d.outstanding|
    && forall i | 0 <= i < |d.outstanding| ::
         var t := d.outstanding[i];
         d'.outstanding[i] ==
           if t.tid == tid && t.status.Queued? && Permits(d.outstanding) < d.settings.maxInFlight then
             t.(status := Publishing)
           else t
  }

  lemma StartsAchieves(d: Dispatcher, tid: nat)
    requires UniqueTids(d.outstanding)
    ensures Permitted(d, Starts(d, tid), tid)
  {
    forall i | 0 <= i < |d.outstanding| && d.outstanding[i].tid == tid
      ensures StillQueued(d.outstanding, tid) <==> d.outstanding[i].status.Queued?
    {
      assert d.outstanding[i] in d.outstanding;
      FoundIs(d.outstanding, d.outstanding[i]);
    }
  }

  /** A batch arrives: every instance of it is a task, waiting for its permit, under an id of its own. */
  ghost predicate Tracks(d: Dispatcher, d': Dispatcher, batch: seq<Claimed>) {
    && |d'.outstanding| == |d.outstanding| + |batch| && d'.outstanding[..|d.outstanding|] == d.outstanding
    && forall i | 0 <= i < |batch| ::
         d'.outstanding[|d.outstanding| + i] == Task(d.nextTask + i, batch[i], Queued)
  }

  /** Room for another row, and a batch size that asks for one. */
  predicate HasRoom(d: Dispatcher) {
    d.settings.batchSize > 0 && |d.outstanding| + |d.unwrittenComplete| + |d.unwrittenFail| < d.settings.maxInFlight
  }

  /** How much the next `acquire` asks for. */
  lemma RoomIs(d: Dispatcher)
    ensures Room(d) > 0 <==> HasRoom(d)
    ensures Room(d) <= d.settings.batchSize
    ensures Load(d) <= d.settings.maxInFlight ==> Room(d) + Load(d) <= d.settings.maxInFlight
    ensures Room(d) < d.settings.batchSize && Load(d) <= d.settings.maxInFlight ==>
              Room(d) + Load(d) == d.settings.maxInFlight
  {
  }

  predicate SameButClock(d: Dispatcher, d': Dispatcher, at: Time) {
    d' == d.(now := d'.now) && d'.now >= d.now && d'.now >= at && (d'.now == d.now || d'.now == at)
  }

  /** What a turn of the loop achieves. */
  ghost predicate Achieves(d: Dispatcher, d': Dispatcher, event: Event, b: ExponentialBackoff) {
    match event
    case TaskStarts(tid) => Permitted(d, d', tid)
    case TasksEnd(resolutions) =>
      Leaves(d, d', resolutions) && AllToWrite(d, d', resolutions, b) && OnlyAdds(d, d', resolutions)
    case OutcomesRetried(complete, fail, _) => RoundSettles(d, d', complete, fail)
    case Acquired(batch) => if HasRoom(d) then Tracks(d, d', batch) else d' == d
    case _ => d' == d
  }

  lemma TakenTracks(d: Dispatcher, batch: seq<Claimed>)
    ensures Tracks(d, Taken(d, batch), batch)
  {
  }

  lemma EventAchieves(d: Dispatcher, turn: Turn, b: ExponentialBackoff)
    requires Ready(At(d, turn.at)) && WellFormedTurn(turn)
    ensures Achieves(At(d, turn.at), TurnOf(d, turn, b), turn.event, b)
  {
    var d1 := At(d, turn.at);
    RoomIs(d);
    match turn.event
    case TaskStarts(tid) => StartsAchieves(d1, tid);
    case TasksEnd(resolutions) => JoinAchieves(d1, resolutions, b);
    case OutcomesRetried(complete, fail, between) => RoundAchieves(d1, complete, fail, between);
    case Acquired(batch) => TakenTracks(d1, batch);
    case _ =>
  }

  /** Every turn does its work: at the later of the worker's clock and its own time, a task that ended is
      dealt with as it ended, a waiting one is started if there is a permit, accepted outcomes are settled,
      and a batch is tracked whenever there was room to ask for it. */
  lemma TurnAchieves(d: Dispatcher, turn: Turn, b: ExponentialBackoff)
    returns (d1: Dispatcher)
    requires Ready(d) && WellFormedTurn(turn)
    ensures SameButClock(d, d1, turn.at) && Achieves(d1, TurnOf(d, turn, b), turn.event, b)
  {
    d1 := At(d, turn.at);
    AtKeeps(d, turn.at);
    EventAchieves(d, turn, b);
  }

  /** The loop ends with a turn exactly when that turn's write of something unwritten, or its `acquire`, is
      refused for good; a failure is not written in a round whose successes could not be. */
  lemma StopsExactly(d: Dispatcher, turn: Turn)
    ensures Stops(d, turn) <==>
              match turn.event
              case OutcomesRetried(complete, fail, _) =>
                || (d.unwrittenComplete != [] && complete.Fatal?)
                || (d.unwrittenFail != [] && fail.Fatal?
                    && (d.unwrittenComplete == [] || complete.Accepted? || complete.Refused?))
              case AcquireFails(fatal) => fatal && HasRoom(d)
              case _ => false
  {
    RoomIs(d);
  }

  /** Permits are the tasks that publish. */
  lemma {:induction false} PermitsCount(ts: seq<Task>)
    ensures Permits(ts) == |set i | 0 <= i < |ts| && ts[i].status.Publishing?|
  {
    if ts != [] {
      var n := |ts| - 1;
      PermitsCount(ts[..n]);
      assert ts == ts[..n] + [ts[n]];
      PermitsLast(ts[..n], ts[n]);
      var before := set i | 0 <= i < n && ts[..n][i].status.Publishing?;
      var all := set i | 0 <= i < |ts| && ts[i].status.Publishing?;
      assert all == before + if ts[n].status.Publishing? then {n} else {};
    }
  }

  lemma {:induction false} PermitsLast(ts: seq<Task>, t: Task)
    ensures Permits(ts + [t]) == Permits(ts) + if t.status.Publishing? then 1 else 0
  {
    if ts == [] {
      assert [] + [t] == [t] && [t][1..] == [];
    } else {
      assert (ts + [t])[1..] == ts[1..] + [t];
      PermitsLast(ts[1..], t);
    }
  }

  // ---------------------------------------------------------------- the drain

  /** What is settled stays settled, and what is seen published stays seen. */
  ghost predicate Further(l: Ledger, l': Ledger) {
    && l.completed <= l'.completed && l.failed <= l'.failed && l.panicked <= l'.panicked
    && l.observedOk <= l'.observedOk
  }

  lemma JoinFurther(d: Dispatcher, resolutions: seq<Resolution>, b: ExponentialBackoff)
    ensures Further(d.ledger, JoinTurn(d, resolutions, b).ledger)
  {
    RecordedLedger(d, Joins(d.outstanding, Ended(d.outstanding, resolutions), b));
    RecordedSame(d, Joins(d.outstanding, Ended(d.outstanding, resolutions), b));
  }

  lemma {:induction false} RecordedSame(d: Dispatcher, results: seq<Joined>)
    ensures RecordAll(d, results).ledger.completed == d.ledger.completed
    ensures RecordAll(d, results).ledger.failed == d.ledger.failed
  {
    if results != [] {
      RecordedSame(d, results[..|results| - 1]);
    }
  }

  /** One turn of the drain: tasks that ended are dealt with, then the outcomes are written. */
  lemma DrainTurnAchieves(d: Dispatcher, t: DrainTurn, b: ExponentialBackoff)
    requires Ready(d) && OncePerTask(t.resolutions)
    ensures var joined, d' := Joined1(d, t, b), DrainTurnOf(d, t, b);
            && Leaves(d, d', t.resolutions) && AllToWrite(d, joined, t.resolutions, b)
            && RoundSettles(joined, d', t.complete, t.fail) && Further(d.ledger, d'.ledger)
  {
    AtKeeps(d, t.at);
    var d1, joined := At(d, t.at), Joined1(d, t, b);
    JoinAchieves(d1, t.resolutions, b);
    JoinFurther(d1, t.resolutions, b);
    RoundAchieves(joined, t.complete, t.fail, joined.now);
    assert forall x, r :: EndedWith(d, x, r, t.resolutions) <==> EndedWith(d1, x, r, t.resolutions);
  }

  ghost predicate NotFatal(t: DrainTurn) {
    !t.complete.Fatal? && !t.fail.Fatal?
  }

  /** None of the first `n` turns resolves task `tid`. */
  ghost predicate Unresolved(drain: seq<DrainTurn>, n: nat, tid: nat)
    requires n <= |drain|
  {
    forall i | 0 <= i < n :: !Resolves(drain[i].resolutions, tid)
  }

  lemma UnresolvedShift(drain: seq<DrainTurn>, n: nat, tid: nat)
    requires 0 < n <= |drain|
    ensures Unresolved(drain, n, tid) <==> !Resolves(drain[0].resolutions, tid) && Unresolved(drain[1..], n - 1, tid)
  {
    if !Resolves(drain[0].resolutions, tid) && Unresolved(drain[1..], n - 1, tid) {
      forall i | 0 <= i < n ensures !Resolves(drain[i].resolutions, tid) {
        assert i > 0 ==> drain[i] == drain[1..][i - 1];
      }
    }
    if Unresolved(drain, n, tid) {
      forall i | 0 <= i < n - 1 ensures !Resolves(drain[1..][i].resolutions, tid) {
        assert drain[1..][i] == drain[i + 1];
      }
    }
  }

  /** After `n` turns of the drain: exactly the tasks none of them resolved are still tracked. */
  ghost predicate Waited(d: Dispatcher, x: Dispatcher, drain: seq<DrainTurn>, n: nat)
    requires n <= |drain|
  {
    forall t :: t in x.outstanding <==> t in d.outstanding && (t.status.Queued? || Unresolved(drain, n, t.tid))
  }

  lemma WaitedOn(d: Dispatcher, d1: Dispatcher, x: Dispatcher, drain: seq<DrainTurn>, n: nat)
    requires drain != [] && n < |drain| && Leaves(d, d1, drain[0].resolutions) && Waited(d1, x, drain[1..], n)
    ensures Waited(d, x, drain, n + 1)
  {
    forall t ensures t in x.outstanding <==>
        t in d.outstanding && (t.status.Queued? || Unresolved(drain, n + 1, t.tid))
    {
      UnresolvedShift(drain, n + 1, t.tid);
    }
  }

  predicate FatalTurn(d: Dispatcher, t: DrainTurn, b: ExponentialBackoff) {
    FatalRound(Joined1(d, t, b), t.complete, t.fail)
  }

  /** The drain goes through its first turn. */
  lemma DrainStep(d: Dispatcher, drain: seq<DrainTurn>, b: ExponentialBackoff)
    requires Ready(d) && WellFormedDrain(drain) && drain != [] && d.outstanding != []
    ensures var d1 := DrainTurnOf(d, drain[0], b);
            && Ready(d1) && WellFormedDrain(drain[1..]) && Leaves(d, d1, drain[0].resolutions)
            && Drained(d, drain, b) == (if FatalTurn(d, drain[0], b) then (d1, true) else Drained(d1, drain[1..], b))
            && (FatalTurn(d, drain[0], b) ==> !NotFatal(drain[0]))
  {
    DrainTurnAchieves(d, drain[0], b);
    DrainTurnKeeps(d, drain[0], b);
  }

  lemma WaitedOne(d: Dispatcher, d1: Dispatcher, drain: seq<DrainTurn>)
    requires drain != [] && Leaves(d, d1, drain[0].resolutions)
    ensures Waited(d, d1, drain, 1)
  {
    forall t ensures Unresolved(drain, 1, t) <==> !Resolves(drain[0].resolutions, t) {
      UnresolvedShift(drain, 1, t);
    }
  }

  /** The drain waits: it goes through its turns, joining whatever they resolve, until they run out, nothing
      is in flight any more, or a write was refused for good. */
  lemma {:induction false} DrainWaits(d: Dispatcher, drain: seq<DrainTurn>, b: ExponentialBackoff) returns (n: nat)
    requires Ready(d) && WellFormedDrain(drain)
    ensures n <= |drain| && Waited(d, Drained(d, drain, b).0, drain, n)
    ensures n == |drain| || Drained(d, drain, b).0.outstanding == [] || (n > 0 && !NotFatal(drain[n - 1]))
    ensures Drained(d, drain, b).1 ==> n > 0 && !NotFatal(drain[n - 1])
    decreases |drain|
  {
    if drain == [] || d.outstanding == [] {
      n := 0;
    } else {
      var d1 := DrainTurnOf(d, drain[0], b);
      DrainStep(d, drain, b);
      if FatalTurn(d, drain[0], b) {
        n := 1;
        WaitedOne(d, d1, drain);
      } else {
        var k := DrainWaits(d1, drain[1..], b);
        n := k + 1;
        WaitedOn(d, d1, Drained(d, drain, b).0, drain, k);
        assert k > 0 ==> drain[1..][k - 1] == drain[k];
      }
    }
  }

  lemma {:induction false} DrainedFurther(d: Dispatcher, drain: seq<DrainTurn>, b: ExponentialBackoff)
    requires Ready(d) && WellFormedDrain(drain)
    ensures Further(d.ledger, Drained(d, drain, b).0.ledger)
    decreases |drain|
  {
    if drain != [] && d.outstanding != [] {
      DrainTurnAchieves(d, drain[0], b);
      DrainTurnKeeps(d, drain[0], b);
      DrainedFurther(DrainTurnOf(d, drain[0], b), drain[1..], b);
    }
  }

  /** Where an instance is once its task has resolved with `r` in a turn with these replies. */
  ghost predicate Dealt(l: Ledger, c: Claimed, r: Resolution, t: DrainTurn) {
    match r.outcome
    case PublishedOk => c in l.observedOk && (t.complete.Accepted? ==> c in l.completed)
    case PublishFailed(_) => t.fail.Accepted? && !Halts(t.complete) ==> c in l.failed
    case TaskPanicked => c in l.panicked
  }

  lemma DealtStays(l: Ledger, l': Ledger, c: Claimed, r: Resolution, t: DrainTurn)
    requires Dealt(l, c, r, t) && Further(l, l')
    ensures Dealt(l', c, r, t)
  {
  }

  lemma WrittenIsDealt(joined: Dispatcher, d': Dispatcher, t: Task, r: Resolution, turn: DrainTurn,
                       b: ExponentialBackoff)
    requires ToWrite(joined, t, r, b) && RoundSettles(joined, d', turn.complete, turn.fail)
    ensures Dealt(d'.ledger, t.claim, r, turn)
  {
    match r.outcome
    case PublishedOk =>
      var u := Stamped(joined.now, t.claim);
      var i :| 0 <= i < |joined.unwrittenComplete| && joined.unwrittenComplete[i] == u;
      BagMember(joined.unwrittenComplete, CompleteClaim, i);
    case PublishFailed(kind) =>
      var u := Stamped(joined.now, FailedMessage(t.claim, Next(b, t.claim.attempts, kind, r.unit)));
      var i :| 0 <= i < |joined.unwrittenFail| && joined.unwrittenFail[i] == u;
      BagMember(joined.unwrittenFail, FailClaim, i);
    case TaskPanicked =>
  }

  /** Turn `i` is the first to resolve task `t`, with `r`, and no write before it was refused for good. */
  ghost predicate FirstResolves(d: Dispatcher, drain: seq<DrainTurn>, i: nat, t: Task, r: Resolution)
    requires i < |drain|
  {
    && EndedWith(d, t, r, drain[i].resolutions) && Unresolved(drain, i, t.tid)
    && forall j | 0 <= j < i :: NotFatal(drain[j])
  }

  lemma FirstResolvesShift(d: Dispatcher, d1: Dispatcher, drain: seq<DrainTurn>, i: nat, t: Task, r: Resolution)
    requires 0 < i < |drain| && FirstResolves(d, drain, i, t, r) && Leaves(d, d1, drain[0].resolutions)
    ensures FirstResolves(d1, drain[1..], i - 1, t, r) && NotFatal(drain[0])
  {
    UnresolvedShift(drain, i, t.tid);
    assert drain[1..][i - 1] == drain[i];
    forall j | 0 <= j < i - 1 ensures NotFatal(drain[1..][j]) {
      assert drain[1..][j] == drain[j + 1];
    }
  }

  lemma {:induction false} DrainDeals(d: Dispatcher, drain: seq<DrainTurn>, b: ExponentialBackoff, i: nat, t: Task,
                                      r: Resolution)
    requires Ready(d) && WellFormedDrain(drain) && i < |drain| && FirstResolves(d, drain, i, t, r)
    ensures Dealt(Drained(d, drain, b).0.ledger, t.claim, r, drain[i])
    decreases |drain|
  {
    var d1 := DrainTurnOf(d, drain[0], b);
    DrainStep(d, drain, b);
    if i == 0 {
      FirstTurnDeals(d, drain, b, t, r);
    } else {
      FirstResolvesShift(d, d1, drain, i, t, r);
      DrainDeals(d1, drain[1..], b, i - 1, t, r);
      assert drain[1..][i - 1] == drain[i];
    }
  }

  lemma FirstTurnDeals(d: Dispatcher, drain: seq<DrainTurn>, b: ExponentialBackoff, t: Task, r: Resolution)
    requires Ready(d) && WellFormedDrain(drain) && drain != [] && EndedWith(d, t, r, drain[0].resolutions)
    ensures Dealt(Drained(d, drain, b).0.ledger, t.claim, r, drain[0])
  {
    var d1 := DrainTurnOf(d, drain[0], b);
    DrainStep(d, drain, b);
    DrainTurnAchieves(d, drain[0], b);
    WrittenIsDealt(Joined1(d, drain[0], b), d1, t, r, drain[0], b);
    DrainedFurther(d1, drain[1..], b);
    DealtStays(d1.ledger, Drained(d, drain, b).0.ledger, t.claim, r, drain[0]);
  }

  // ---------------------------------------------------------------- the shutdown

  /** What a drain that started in `d` has achieved when the worker has stopped with ledger `l`, having
      handed back `released`: every task a turn resolved was waited for and dealt with as it resolved, and
      unless a write was refused for good only tasks that no turn resolved are handed back unresolved. */
  ghost predicate DrainDone(d: Dispatcher, drain: seq<DrainTurn>, rest: seq<Task>, l: Ledger) {
    && (forall i: nat, t, r | i < |drain| && FirstResolves(d, drain, i, t, r) :: Dealt(l, t.claim, r, drain[i]))
    && ((forall j | 0 <= j < |drain| :: NotFatal(drain[j])) ==>
          forall t :: t in rest <==> t in d.outstanding && (t.status.Queued? || Unresolved(drain, |drain|, t.tid)))
  }

  /** Nobody in flight any more: no later turn can resolve anything. */
  lemma NothingLeft(d: Dispatcher, x: Dispatcher, drain: seq<DrainTurn>, n: nat)
    requires n <= |drain| && Waited(d, x, drain, n) && x.outstanding == []
    ensures Waited(d, x, drain, |drain|)
  {
    forall t ensures t !in d.outstanding || !(t.status.Queued? || Unresolved(drain, |drain|, t.tid)) {
      assert t !in x.outstanding;
    }
  }

  lemma FinalRoundKeeps(x: Dispatcher, complete: Reply, fail: Reply)
    ensures Further(x.ledger, Round(x, complete, fail, x.now).ledger)
    ensures Round(x, complete, fail, x.now).outstanding == x.outstanding
  {
    RoundAchieves(x, complete, fail, x.now);
  }

  /** What the drain achieves, up to the moment its leftovers are handed back. */
  lemma DrainAchieves(d: Dispatcher, drain: seq<DrainTurn>, complete: Reply, fail: Reply, b: ExponentialBackoff)
    requires Ready(d) && WellFormedDrain(drain)
    ensures var end := BeforeFinish(d, drain, complete, fail, b);
            DrainDone(d, drain, end.outstanding, FinishDrain(end).ledger)
  {
    var x, end := Drained(d, drain, b).0, BeforeFinish(d, drain, complete, fail, b);
    FinalRoundKeeps(x, complete, fail);
    forall i: nat, t, r | i < |drain| && FirstResolves(d, drain, i, t, r)
      ensures Dealt(FinishDrain(end).ledger, t.claim, r, drain[i])
    {
      DrainDeals(d, drain, b, i, t, r);
      DealtStays(x.ledger, FinishDrain(end).ledger, t.claim, r, drain[i]);
    }
    var n := DrainWaits(d, drain, b);
    if forall j | 0 <= j < |drain| :: NotFatal(drain[j]) {
      if n < |drain| {
        NothingLeft(d, x, drain, n);
      }
      assert Waited(d, x, drain, |drain|);
    }
  }

  /** The last round: unless a write of the drain was refused for good, what the store then accepts is
      neither left to its lease nor handed back. */
  lemma LastRoundAchieves(d: Dispatcher, drain: seq<DrainTurn>, complete: Reply, fail: Reply, b: ExponentialBackoff)
    requires Ready(d) && WellFormedDrain(drain) && forall j | 0 <= j < |drain| :: NotFatal(drain[j])
    ensures var end := BeforeFinish(d, drain, complete, fail, b);
            && (complete.Accepted? ==> end.unwrittenComplete == [])
            && (complete.Accepted? && fail.Accepted? ==> end.unwrittenFail == [])
  {
    var n := DrainWaits(d, drain, b);
    var x := Drained(d, drain, b).0;
    RoundAchieves(x, complete, fail, x.now);
  }

  /** A drain fails only because a write was refused for good. */
  lemma DrainFailsExactly(d: Dispatcher, drain: seq<DrainTurn>, complete: Reply, fail: Reply, b: ExponentialBackoff)
    requires Ready(d) && WellFormedDrain(drain)
    ensures DrainFails(d, drain, complete, fail, b) ==>
              complete.Fatal? || fail.Fatal? || exists j :: 0 <= j < |drain| && !NotFatal(drain[j])
  {
    var n := DrainWaits(d, drain, b);
  }

  /** What was seen published and received once is not handed back. */
  lemma PublishedNotHandedBack(end: Dispatcher, c: Claimed)
    requires ProcOk(end) && FinishDrain(end).ledger.received[c] == 1 && c in FinishDrain(end).ledger.observedOk
    ensures c !in TaskItems(end.outstanding) + FailRefs(end.unwrittenFail)
  {
    FinishDrainKeeps(end);
    FinishRefs(end.outstanding, end.unwrittenFail);
    PublishedNeverReleased(FinishDrain(end), c);
    var items := TaskItems(end.outstanding) + FailRefs(end.unwrittenFail);
    if c in items {
      var i :| 0 <= i < |items| && items[i] == c;
      BagMember(items, ItemClaim, i);
    }
  }
}
