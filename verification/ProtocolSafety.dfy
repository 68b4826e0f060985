/** The invariant of the composed system, and what it means for every reachable state. */
module ProtocolSafety {
  import opened Basics
  import opened DispatcherState
  import opened OutboxTable
  import opened Protocol

  // ---------------------------------------------------------------- one dispatcher

  ghost predicate ProcOk(d: Dispatcher) {
    Accounted(d) && Orderly(d) && d.pending == []
  }

  lemma {:induction false} WithStatusKeeps(ts: seq<Task>, tid: nat, status: TaskStatus)
    ensures Tasks(WithStatus(ts, tid, status)) == Tasks(ts)
  {
    if ts != [] {
      assert WithStatus(ts, tid, status)[1..] == WithStatus(ts[1..], tid, status);
      WithStatusKeeps(ts[1..], tid, status);
    }
  }

  lemma {:induction false} WithStatusUnique(ts: seq<Task>, tid: nat, status: TaskStatus)
    requires UniqueTids(ts)
    ensures UniqueTids(WithStatus(ts, tid, status))
    ensures forall t | t in WithStatus(ts, tid, status) :: exists u :: u in ts && u.tid == t.tid && u.claim == t.claim
    ensures forall t | t in WithStatus(ts, tid, status) && t.tid != tid :: t in ts
  {
    var after := WithStatus(ts, tid, status);
    forall t | t in after
      ensures exists u :: u in ts && u.tid == t.tid && u.claim == t.claim
      ensures t.tid != tid ==> t in ts
    {
      var i :| 0 <= i < |after| && after[i] == t;
      assert ts[i] in ts;
    }
    if ts != [] {
      assert after[1..] == WithStatus(ts[1..], tid, status);
      WithStatusUnique(ts[1..], tid, status);
    }
  }

  lemma StatusKeepsProc(d: Dispatcher, tid: nat, status: TaskStatus)
    requires ProcOk(d)
    ensures ProcOk(d.(outstanding := WithStatus(d.outstanding, tid, status)))
  {
    WithStatusKeeps(d.outstanding, tid, status);
    WithStatusUnique(d.outstanding, tid, status);
  }

  lemma {:induction false} ItemsBag<T>(s: seq<T>, claim: T -> Claimed, items: seq<Claimed>)
    requires |items| == |s| && forall i | 0 <= i < |s| :: items[i] == claim(s[i])
    ensures Batch(items) == Bag(s, claim)
  {
    if s != [] {
      ItemsBag(s[1..], claim, items[1..]);
    }
  }

  /** A lease renewal names exactly the instances the worker tracks. */
  lemma RenewsWhatIsTracked(d: Dispatcher)
    requires d.pending == []
    ensures forall c :: Batch(LeaseRefs(d))[c] == Tracked(d, c)
  {
    ItemsBag(d.outstanding, TaskClaim, TaskItems(d.outstanding));
    ItemsBag(d.unwrittenComplete, CompleteClaim, CompleteItems(d.unwrittenComplete));
    ItemsBag(d.unwrittenFail, FailClaim, FailRefs(d.unwrittenFail));
    BagConcat(TaskItems(d.outstanding) + CompleteItems(d.unwrittenComplete), FailRefs(d.unwrittenFail), ItemClaim);
    BagConcat(TaskItems(d.outstanding), CompleteItems(d.unwrittenComplete), ItemClaim);
  }

  lemma FinishRefs(ts: seq<Task>, us: seq<Stamped<FailedMessage>>)
    ensures Batch(TaskItems(ts) + FailRefs(us)) == Tasks(ts) + Fails(us)
  {
    ItemsBag(ts, TaskClaim, TaskItems(ts));
    ItemsBag(us, FailClaim, FailRefs(us));
    BagConcat(TaskItems(ts), FailRefs(us), ItemClaim);
  }

  /** The release at cancellation names exactly the instances the books move to released. */
  lemma CancelReleasesWhatIsRecorded(d: Dispatcher, call: nat)
    ensures StopStarting(d).ledger.released == d.ledger.released + Batch(Ask(d, Cancel(call)).items)
  {
    var early, late := Batch(d.pending), Batch(Unstarted(d.outstanding));
    assert Batch(d.pending + Unstarted(d.outstanding)) == early + late by {
      BagConcat(d.pending, Unstarted(d.outstanding), ItemClaim);
    }
    assert d.ledger.released + early + late == d.ledger.released + (early + late);
  }

  /** And so does the release at the end of the drain. */
  lemma FinishReleasesWhatIsRecorded(d: Dispatcher, call: nat)
    ensures FinishDrain(d).ledger.released == d.ledger.released + Batch(Ask(d, Finish(call)).items)
  {
    var unresolved, failed := Tasks(d.outstanding), Fails(d.unwrittenFail);
    FinishRefs(d.outstanding, d.unwrittenFail);
    assert d.ledger.released + unresolved + failed == d.ledger.released + (unresolved + failed);
  }

  /** Awaiting a call, or the passing of time, does not disturb the books. */
  lemma SameBooks(d: Dispatcher, waiting: Option<nat>, now: Time)
    requires ProcOk(d) && now >= d.now
    ensures ProcOk(d.(waiting := waiting, now := now))
  {
  }

  lemma ActedKeepsProc(d: Dispatcher, a: Act)
    requires ProcOk(d) && ActEnabled(d, a)
    ensures ProcOk(Acted(d, a)) && Load(Acted(d, a)) <= Load(d)
  {
    match a
    case TaskStart(tid) => StatusKeepsProc(d, tid, Publishing);
    case TaskResolve(tid, outcome) => StatusKeepsProc(d, tid, Resolved(outcome));
    case Join(results) => RecordAllKeeps(d, results); RecordAllPending(d, results);
    case GiveUpCompletes => ExpireCompletesKeeps(d);
    case GiveUpFails => ExpireFailsKeeps(d);
    case Cancel(c) => StopStartingKeeps(d); SameBooks(StopStarting(d), Some(c), d.now);
    case Finish(c) => FinishDrainKeeps(d); SameBooks(FinishDrain(d), Some(c), d.now);
    case Tick(to) => SameBooks(d, d.waiting, to);
    case ReplyErr => SameBooks(d, None, d.now);
    case ReplyOk =>
    case _ => SameBooks(d, Some(a.call), d.now);
  }

  lemma {:induction false} RecordAllPending(d: Dispatcher, results: seq<Joined>)
    ensures var d' := RecordAll(d, results);
            d'.pending == d.pending && d'.waiting == d.waiting && d'.settings == d.settings && d'.worker == d.worker
            && d'.policy == d.policy && d'.ledger.received == d.ledger.received
  {
    if results != [] {
      RecordAllPending(d, results[..|results| - 1]);
    }
  }

  /** A batch as received, before its rows become tasks. */
  function Arrived(d: Dispatcher, batch: seq<Claimed>): Dispatcher {
    d.(pending := batch, ledger := d.ledger.(received := d.ledger.received + Batch(batch)))
  }

  function Taken(d: Dispatcher, batch: seq<Claimed>): Dispatcher {
    SpawnReady(Arrived(d, batch))
  }

  lemma ArrivedAccounts(d: Dispatcher, batch: seq<Claimed>)
    requires ProcOk(d)
    ensures Accounted(Arrived(d, batch)) && Orderly(Arrived(d, batch))
  {
  }

  lemma TakenKeeps(d: Dispatcher, batch: seq<Claimed>)
    requires ProcOk(d)
    ensures ProcOk(Taken(d, batch)) && Load(Taken(d, batch)) == Load(d) + |batch|
  {
    ArrivedAccounts(d, batch);
    SpawnReadyKeeps(Arrived(d, batch));
  }

  lemma RepliedKeepsProc(d: Dispatcher, call: Call)
    requires ProcOk(d)
    ensures ProcOk(Replied(d, call))
    ensures Load(Replied(d, call)) <= Load(d) + if call.request.AcquireReq? then |call.batch| else 0
  {
    SameBooks(d, None, d.now);
    var d' := d.(waiting := None);
    if call.request.AcquireReq? {
      TakenKeeps(d', call.batch);
      assert d.pending + call.batch == call.batch;
      assert Replied(d, call) == Taken(d', call.batch);
    } else {
      AcknowledgedKeeps(d');
    }
  }

  // ---------------------------------------------------------------- calls and deliveries

  ghost predicate CallOk(c: nat, call: Call, delivered: set<Claimed>) {
    && (forall x | x in call.batch :: x.call == c)
    && NoDuplicates(call.batch)
    && (call.request.AcquireReq? && call.stage > 0 ==> |call.batch| <= call.request.limit)
    && (!call.request.AcquireReq? || call.stage == 0 ==> call.batch == [])
    && (call.request.CompleteReq? ==> forall x | x in call.request.completes :: x in delivered)
  }

  /** A dispatcher awaits its own, still unanswered call, and an outcome call carries exactly the
      outcomes it would clear. */
  ghost predicate WaitOk(p: nat, d: Dispatcher, calls: map<nat, Call>) {
    d.waiting.Some? ==>
      && d.waiting.value in calls
      && var call := calls[d.waiting.value];
      && call.proc == p && !call.answered
      && (call.request.CompleteReq? ==> call.request.completes == CompleteItems(d.unwrittenComplete))
      && (call.request.FailReq? ==> call.request.fails == FailItems(d.unwrittenFail))
      && (call.request.AcquireReq? ==> Load(d) + call.request.limit <= d.settings.maxInFlight)
  }

  ghost predicate ReceivedOk(p: nat, d: Dispatcher, calls: map<nat, Call>) {
    forall x | x in d.ledger.received ::
      d.ledger.received[x] == 1 && x.call in calls && calls[x.call].answered && calls[x.call].proc == p
  }

  ghost predicate DeliveredOk(d: Dispatcher, delivered: set<Claimed>) {
    && (forall u | u in d.unwrittenComplete :: u.item in delivered)
    && (forall t | t in d.outstanding && t.status == Resolved(PublishedOk) :: t.claim in delivered)
  }

  ghost predicate ProcInv(p: nat, d: Dispatcher, calls: map<nat, Call>, delivered: set<Claimed>) {
    && ProcOk(d) && WaitOk(p, d, calls) && ReceivedOk(p, d, calls) && DeliveredOk(d, delivered)
    && Load(d) <= d.settings.maxInFlight
  }

  ghost predicate ProcsOk(procs: map<nat, Dispatcher>, calls: map<nat, Call>, delivered: set<Claimed>) {
    forall p | p in procs :: ProcInv(p, procs[p], calls, delivered)
  }

  ghost predicate CallsOk(calls: map<nat, Call>, delivered: set<Claimed>) {
    forall c | c in calls :: CallOk(c, calls[c], delivered)
  }

  ghost predicate WasDelivered(m: MessageId, delivered: set<Claimed>) {
    exists x :: x in delivered && x.id == m
  }

  ghost predicate RowsOk(rows: map<MessageId, Row>, delivered: set<Claimed>) {
    forall m | m in rows && rows[m].publishedAt.Some? :: WasDelivered(m, delivered)
  }

  ghost predicate Inv(s: System) {
    && Valid(s.db) && CallsOk(s.calls, s.delivered)
    && ProcsOk(s.procs, s.calls, s.delivered) && RowsOk(s.db.rows, s.delivered)
  }

  /** From dispatcher `q`'s point of view nothing happened to the calls. */
  ghost predicate SameCalls(q: nat, calls: map<nat, Call>, calls': map<nat, Call>) {
    forall c | c in calls && calls[c].proc == q ::
      && c in calls' && calls'[c].proc == q
      && calls'[c].request == calls[c].request && calls'[c].answered == calls[c].answered
  }

  lemma BystanderKeeps(q: nat, d: Dispatcher, calls: map<nat, Call>, calls': map<nat, Call>, before: set<Claimed>,
                       delivered: set<Claimed>)
    requires ProcInv(q, d, calls, before) && SameCalls(q, calls, calls') && before <= delivered
    ensures ProcInv(q, d, calls', delivered)
  {
  }

  ghost predicate OthersSame(p: nat, calls: map<nat, Call>, calls': map<nat, Call>) {
    forall q: nat | q != p :: SameCalls(q, calls, calls')
  }

  /** One dispatcher moves on to `d`, with one call of its own; every other is a bystander. */
  lemma OneProcMoves(procs: map<nat, Dispatcher>, p: nat, d: Dispatcher, calls: map<nat, Call>, calls': map<nat, Call>,
                     before: set<Claimed>, delivered: set<Claimed>)
    requires ProcsOk(procs, calls, before) && before <= delivered && ProcInv(p, d, calls', delivered)
    requires OthersSame(p, calls, calls')
    ensures ProcsOk(procs[p := d], calls', delivered)
  {
    forall q | q in procs && q != p ensures ProcInv(q, procs[q], calls', delivered) {
      BystanderKeeps(q, procs[q], calls, calls', before, delivered);
    }
  }

  /** A call makes progress without being answered: nobody's books change. */
  lemma CallProgresses(procs: map<nat, Dispatcher>, calls: map<nat, Call>, c: nat, call: Call, delivered: set<Claimed>)
    requires ProcsOk(procs, calls, delivered) && CallsOk(calls, delivered) && c in calls && CallOk(c, call, delivered)
    requires call.proc == calls[c].proc && call.request == calls[c].request && call.answered == calls[c].answered
    ensures ProcsOk(procs, calls[c := call], delivered) && CallsOk(calls[c := call], delivered)
  {
    forall q | q in procs ensures ProcInv(q, procs[q], calls[c := call], delivered) {
      BystanderKeeps(q, procs[q], calls, calls[c := call], delivered, delivered);
    }
  }

  /** A call issued by, or answered to, dispatcher `p` changes no other dispatcher's calls. */
  lemma OthersSeeSameCalls(calls: map<nat, Call>, p: nat, c: nat, call: Call)
    requires call.proc == p && (c in calls ==> calls[c].proc == p)
    ensures OthersSame(p, calls, calls[c := call])
  {
  }

  lemma RowsStayOk(rows: map<MessageId, Row>, before: set<Claimed>, delivered: set<Claimed>)
    requires RowsOk(rows, before) && before <= delivered
    ensures RowsOk(rows, delivered)
  {
  }

  // ---------------------------------------------------------------- local actions

  lemma {:induction false} RecordAllDelivered(d: Dispatcher, results: seq<Joined>, delivered: set<Claimed>)
    requires DeliveredOk(d, delivered)
    requires forall j | j in results && j.Done? && j.verdict.Published? :: j.claim in delivered
    ensures DeliveredOk(RecordAll(d, results), delivered)
  {
    if results != [] {
      var before, last := results[..|results| - 1], results[|results| - 1];
      RecordAllDelivered(d, before, delivered);
      RemoveMembers(RecordAll(d, before).outstanding, last.tid);
    }
  }

  lemma StatusKeepsDelivered(d: Dispatcher, tid: nat, status: TaskStatus, delivered: set<Claimed>)
    requires DeliveredOk(d, delivered) && UniqueTids(d.outstanding)
    ensures var d' := d.(outstanding := WithStatus(d.outstanding, tid, status));
            DeliveredOk(d', if status == Resolved(PublishedOk) then
                delivered + set t | t in d.outstanding && t.tid == tid :: t.claim else delivered)
  {
    WithStatusUnique(d.outstanding, tid, status);
  }

  lemma JoinKeepsDelivered(d: Dispatcher, results: seq<Joined>, delivered: set<Claimed>)
    requires DeliveredOk(d, delivered) && forall j | j in results :: Reports(d, j)
    ensures DeliveredOk(RecordAll(d, results), delivered)
  {
    forall j | j in results && j.Done? && j.verdict.Published? ensures j.claim in delivered {
      assert Reports(d, j);
    }
    RecordAllDelivered(d, results, delivered);
  }

  lemma ActedKeepsDelivered(d: Dispatcher, a: Act, delivered: set<Claimed>)
    requires ProcOk(d) && ActEnabled(d, a) && DeliveredOk(d, delivered)
    ensures DeliveredOk(Acted(d, a), delivered + Deliveries(d, a))
  {
    match a
    case TaskStart(tid) => StatusKeepsDelivered(d, tid, Publishing, delivered);
    case TaskResolve(tid, outcome) => StatusKeepsDelivered(d, tid, Resolved(outcome), delivered);
    case Join(results) => JoinKeepsDelivered(d, results, delivered);
    case GiveUpCompletes => GivenUpPastLease(d.unwrittenComplete, d.now, d.settings.lease);
    case Cancel(_) => StartedMembers(d.outstanding);
    case _ =>
  }

  /** Which fields of a dispatcher an action leaves alone. */
  lemma ActedFrame(d: Dispatcher, a: Act)
    requires ActEnabled(d, a) && !a.ReplyOk?
    ensures Acted(d, a).settings == d.settings && Acted(d, a).worker == d.worker && Acted(d, a).policy == d.policy
    ensures Acted(d, a).ledger.received == d.ledger.received
    ensures Acted(d, a).waiting == if Asks(a) then Some(a.call) else if a.ReplyErr? then None else d.waiting
    ensures d.waiting.Some? ==>
              Acted(d, a).unwrittenComplete == d.unwrittenComplete && Acted(d, a).unwrittenFail == d.unwrittenFail
  {
    if a.Join? {
      RecordAllPending(d, a.results);
    }
  }

  lemma AskedCallOk(p: nat, d: Dispatcher, a: Act, delivered: set<Claimed>)
    requires Asks(a) && DeliveredOk(d, delivered)
    ensures CallOk(a.call, Call(p, d.worker, Ask(d, a), 0, [], {}, false), delivered)
  {
  }

  lemma ActedWaits(p: nat, d: Dispatcher, a: Act, calls: map<nat, Call>)
    requires ActEnabled(d, a) && !a.ReplyOk? && WaitOk(p, d, calls) && (Asks(a) ==> a.call !in calls)
    requires Load(Acted(d, a)) <= Load(d)
    ensures WaitOk(p, Acted(d, a), CallsAfter(p, d, a, calls))
  {
    ActedFrame(d, a);
  }

  lemma ActedKeepsProcInv(p: nat, d: Dispatcher, a: Act, calls: map<nat, Call>, delivered: set<Claimed>)
    requires ProcInv(p, d, calls, delivered) && ActEnabled(d, a) && !a.ReplyOk? && (Asks(a) ==> a.call !in calls)
    ensures ProcInv(p, Acted(d, a), CallsAfter(p, d, a, calls), delivered + Deliveries(d, a))
  {
    ActedKeepsProc(d, a);
    ActedKeepsDelivered(d, a, delivered);
    ActedFrame(d, a);
    ActedWaits(p, d, a, calls);
    assert ReceivedOk(p, Acted(d, a), CallsAfter(p, d, a, calls));
  }

  lemma ActedKeepsCalls(s: System, e: Step)
    requires Inv(s) && CanStep(s, e) && e.Local? && !e.act.ReplyOk?
    ensures CallsOk(After(s, e).calls, After(s, e).delivered)
  {
    var s' := After(s, e);
    if Asks(e.act) {
      assert ProcInv(e.proc, s.procs[e.proc], s.calls, s.delivered);
      AskedCallOk(e.proc, s.procs[e.proc], e.act, s.delivered);
    }
    forall c | c in s'.calls ensures CallOk(c, s'.calls[c], s'.delivered) {
      if c in s.calls {
        assert CallOk(c, s.calls[c], s.delivered);
      }
    }
  }

  lemma LocalKeepsProcs(s: System, p: nat, a: Act)
    requires ProcsOk(s.procs, s.calls, s.delivered) && p in s.procs && ActEnabled(s.procs[p], a) && !a.ReplyOk?
    requires Asks(a) ==> a.call !in s.calls
    ensures var d := s.procs[p];
            ProcsOk(s.procs[p := Acted(d, a)], CallsAfter(p, d, a, s.calls), s.delivered + Deliveries(d, a))
  {
    var d := s.procs[p];
    ActedKeepsProcInv(p, d, a, s.calls, s.delivered);
    if Asks(a) {
      OthersSeeSameCalls(s.calls, p, a.call, Call(p, d.worker, Ask(d, a), 0, [], {}, false));
    }
    OneProcMoves(s.procs, p, Acted(d, a), s.calls, CallsAfter(p, d, a, s.calls), s.delivered,
        s.delivered + Deliveries(d, a));
  }

  lemma LocalKeepsInv(s: System, e: Step)
    requires Inv(s) && CanStep(s, e) && e.Local? && !e.act.ReplyOk?
    ensures Inv(After(s, e))
  {
    LocalKeepsProcs(s, e.proc, e.act);
    ActedKeepsCalls(s, e);
    RowsStayOk(s.db.rows, s.delivered, After(s, e).delivered);
  }

  // ---------------------------------------------------------------- replies

  /** A batch is delivered once: its instances are new to the dispatcher that receives them. */
  lemma {:induction false} BatchCounts(batch: seq<Claimed>)
    requires NoDuplicates(batch)
    ensures forall x :: Batch(batch)[x] == if x in batch then 1 else 0
  {
    if batch != [] {
      assert NoDuplicates(batch[1..]);
      BatchCounts(batch[1..]);
      assert batch == [batch[0]] + batch[1..];
      assert batch[0] !in batch[1..];
    }
  }

  lemma RepliedReceives(p: nat, d: Dispatcher, c: nat, calls: map<nat, Call>, delivered: set<Claimed>)
    requires ProcInv(p, d, calls, delivered) && d.waiting == Some(c) && c in calls && CallOk(c, calls[c], delivered)
    ensures ReceivedOk(p, Replied(d, calls[c]), calls[c := calls[c].(answered := true)])
  {
    var d' := Replied(d, calls[c]);
    if calls[c].request.AcquireReq? {
      forall x | x in d'.ledger.received
        ensures d'.ledger.received[x] == 1 && (x in d.ledger.received || x.call == c)
      {
        NewInstancesOnce(p, d, c, calls, delivered, x);
      }
    }
  }

  /** An unanswered call's instances are new to everybody. */
  lemma NewInstancesOnce(p: nat, d: Dispatcher, c: nat, calls: map<nat, Call>, delivered: set<Claimed>, x: Claimed)
    requires WaitOk(p, d, calls) && ReceivedOk(p, d, calls) && d.waiting == Some(c) && c in calls
    requires CallOk(c, calls[c], delivered)
    ensures x in d.ledger.received + Batch(calls[c].batch) ==>
              && (d.ledger.received + Batch(calls[c].batch))[x] == 1
              && (x in d.ledger.received || x.call == c)
  {
    BatchCounts(calls[c].batch);
    if x in calls[c].batch {
      assert x.call == c && x !in d.ledger.received;
    }
  }

  lemma RepliedDelivers(d: Dispatcher, call: Call, delivered: set<Claimed>)
    requires DeliveredOk(d, delivered)
    ensures DeliveredOk(Replied(d, call), delivered)
  {
  }

  lemma ReplyKeepsProcInv(p: nat, d: Dispatcher, c: nat, calls: map<nat, Call>, delivered: set<Claimed>)
    requires ProcInv(p, d, calls, delivered) && d.waiting == Some(c) && c in calls && CallOk(c, calls[c], delivered)
    requires calls[c].stage == Stages(calls[c].request)
    ensures ProcInv(p, Replied(d, calls[c]), calls[c := calls[c].(answered := true)], delivered)
  {
    RepliedKeepsProc(d, calls[c]);
    RepliedReceives(p, d, c, calls, delivered);
    RepliedDelivers(d, calls[c], delivered);
  }

  lemma ReplyKeepsParts(procs: map<nat, Dispatcher>, p: nat, c: nat, calls: map<nat, Call>, delivered: set<Claimed>)
    requires ProcsOk(procs, calls, delivered) && CallsOk(calls, delivered)
    requires p in procs && procs[p].waiting == Some(c) && c in calls && calls[c].stage == Stages(calls[c].request)
    ensures ProcsOk(procs[p := Replied(procs[p], calls[c])], calls[c := calls[c].(answered := true)], delivered)
    ensures CallsOk(calls[c := calls[c].(answered := true)], delivered)
  {
    var answered := calls[c].(answered := true);
    assert ProcInv(p, procs[p], calls, delivered) && CallOk(c, calls[c], delivered);
    assert CallOk(c, answered, delivered);
    ReplyKeepsProcInv(p, procs[p], c, calls, delivered);
    OthersSeeSameCalls(calls, p, c, answered);
    OneProcMoves(procs, p, Replied(procs[p], calls[c]), calls, calls[c := answered], delivered, delivered);
  }

  lemma ReplyKeepsInv(s: System, e: Step)
    requires Inv(s) && CanStep(s, e) && e.Local? && e.act.ReplyOk?
    ensures Inv(After(s, e))
  {
    ReplyKeepsParts(s.procs, e.proc, s.procs[e.proc].waiting.value, s.calls, s.delivered);
  }

  // ---------------------------------------------------------------- statements

  /** Only `complete` publishes a row. */
  lemma OnlyCompletePublishes(db: Db, st: Stmt, m: MessageId)
    requires Enabled(db, st) && m in Apply(db, st).rows && Apply(db, st).rows[m].publishedAt.Some?
    ensures (m in db.rows && db.rows[m].publishedAt.Some?) || (st.Complete? && m in st.ids)
  {
    if !(st.Insert? && m == st.id) {
      RowAfter(db, st, m);
    }
  }

  lemma StmtKeepsRows(db: Db, st: Stmt, delivered: set<Claimed>)
    requires Enabled(db, st) && RowsOk(db.rows, delivered)
    requires st.Complete? ==> forall m | m in st.ids :: WasDelivered(m, delivered)
    ensures RowsOk(Apply(db, st).rows, delivered)
  {
    forall m | m in Apply(db, st).rows && Apply(db, st).rows[m].publishedAt.Some? ensures WasDelivered(m, delivered) {
      OnlyCompletePublishes(db, st, m);
    }
  }

  lemma {:induction false} NoDuplicatesFit(order: seq<MessageId>, ids: set<MessageId>)
    requires NoDuplicates(order) && forall m | m in order :: m in ids
    ensures |order| <= |ids|
  {
    if order != [] {
      NoDuplicatesFit(order[1..], ids - {order[0]});
    }
  }

  lemma CommittedCallOk(s: System, e: Step)
    requires CanStep(s, e) && e.Commit? && CallOk(e.call, s.calls[e.call], s.delivered)
    ensures CallOk(e.call, Committed(s, e), s.delivered)
  {
    var call := s.calls[e.call];
    if call.request.AcquireReq? && call.stage == 0 {
      NoDuplicatesFit(e.order, e.ids);
      var batch := Records(e.order, s.db.rows, e.call);
      assert Committed(s, e).batch == batch;
    }
  }

  lemma CommitKeepsTable(db: Db, c: nat, call: Call, e: Step, delivered: set<Claimed>)
    requires e.Commit? && Valid(db) && RowsOk(db.rows, delivered) && CallOk(c, call, delivered)
    requires Enabled(db, NextStmt(c, call, e))
    ensures Valid(Apply(db, NextStmt(c, call, e))) && RowsOk(Apply(db, NextStmt(c, call, e)).rows, delivered)
  {
    ApplyKeepsValid(db, NextStmt(c, call, e));
    StmtKeepsRows(db, NextStmt(c, call, e), delivered);
  }

  lemma CommitKeepsInv(s: System, e: Step)
    requires Inv(s) && CanStep(s, e) && e.Commit?
    ensures Inv(After(s, e))
  {
    var c := e.call;
    assert CallOk(c, s.calls[c], s.delivered);
    CommitKeepsTable(s.db, c, s.calls[c], e, s.delivered);
    CommittedCallOk(s, e);
    CallProgresses(s.procs, s.calls, c, Committed(s, e), s.delivered);
  }

  lemma StartedProcInv(p: nat, d: Dispatcher, calls: map<nat, Call>, delivered: set<Claimed>)
    requires d.pending == [] && d.outstanding == [] && d.unwrittenComplete == [] && d.unwrittenFail == []
    requires d.waiting == None && d.ledger == NO_LEDGER
    ensures ProcInv(p, d, calls, delivered)
  {
  }

  lemma StepKeepsInv(s: System, e: Step)
    requires Inv(s) && CanStep(s, e)
    ensures Inv(After(s, e))
  {
    match e
    case Outside(st) =>
      ApplyKeepsValid(s.db, st);
      StmtKeepsRows(s.db, st, s.delivered);
    case Commit(_, _, _, _, _, _) => CommitKeepsInv(s, e);
    case Start(p, _, _, _) => StartedProcInv(p, After(s, e).procs[p], s.calls, s.delivered);
    case Crash(_) =>
    case Local(_, a) =>
      if a.ReplyOk? {
        ReplyKeepsInv(s, e);
      } else {
        LocalKeepsInv(s, e);
      }
  }
}
