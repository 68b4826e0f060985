/** What every step of the composed system keeps about deliveries: an instance that was delivered is, until
    its success is written, nowhere a failure could be; one handed to `fail` or `release` is in nobody's
    flight again; and what dispatchers received is what claims returned. */
module DeliveryInvariant {
  import opened Basics
  import opened DispatcherState
  import opened OutboxTable
  import opened Protocol
  import opened ProtocolSafety
  import opened ProtocolRuns

  // ---------------------------------------------------------------- instances in flight

  ghost predicate InFlight(d: Dispatcher, x: Claimed) {
    exists t :: t in d.outstanding && t.claim == x
  }

  ghost predicate NobodyFlies(procs: map<nat, Dispatcher>, x: Claimed) {
    forall p | p in procs :: !InFlight(procs[p], x)
  }

  predicate AnsweredIn(calls: map<nat, Call>, x: Claimed) {
    x.call in calls && calls[x.call].answered
  }

  /** What the store returned: an instance of the batch of its call. */
  predicate Genuine(calls: map<nat, Call>, x: Claimed) {
    x.call in calls && x in calls[x.call].batch
  }

  /** The instances a request takes out of flight. */
  function Withdrawn(r: Request): set<Claimed> {
    match r
    case FailReq(fails) => set f | f in fails :: f.claim
    case ReleaseReq(items) => set x | x in items
    case _ => {}
  }

  // ---------------------------------------------------------------- the invariant

  /** Until its success is joined, a delivered instance is nowhere but in its resolved task. */
  ghost predicate Unpublished(d: Dispatcher, delivered: set<Claimed>) {
    && (forall t | t in d.outstanding && t.status != Resolved(PublishedOk) :: t.claim !in delivered)
    && (forall u | u in d.unwrittenFail :: u.item.claim !in delivered)
  }

  ghost predicate AllUnpublished(procs: map<nat, Dispatcher>, delivered: set<Claimed>) {
    forall p | p in procs :: Unpublished(procs[p], delivered)
  }

  ghost predicate DeliveredAnswered(calls: map<nat, Call>, delivered: set<Claimed>) {
    forall x | x in delivered :: AnsweredIn(calls, x)
  }

  /** What was withdrawn is in nobody's flight again; what failed was never delivered. */
  ghost predicate OutOfFlight(r: Request, procs: map<nat, Dispatcher>, calls: map<nat, Call>,
                              delivered: set<Claimed>) {
    && (forall x | x in Withdrawn(r) :: AnsweredIn(calls, x) && NobodyFlies(procs, x))
    && (r.FailReq? ==> Withdrawn(r) !! delivered)
  }

  ghost predicate AllOutOfFlight(procs: map<nat, Dispatcher>, calls: map<nat, Call>, delivered: set<Claimed>) {
    forall c | c in calls :: OutOfFlight(calls[c].request, procs, calls, delivered)
  }

  ghost predicate ReceivedGenuine(procs: map<nat, Dispatcher>, calls: map<nat, Call>) {
    forall p | p in procs :: GenuineBooks(procs[p], calls)
  }

  ghost predicate GenuineBooks(d: Dispatcher, calls: map<nat, Call>) {
    forall x | x in d.ledger.received :: Genuine(calls, x)
  }

  ghost predicate Known(db: Db, m: MessageId, decodable: bool) {
    m in db.used && (m in db.rows ==> db.rows[m].decodable == decodable)
  }

  /** A batch names each row once; its rows decode, the poisoned ones do not. */
  ghost predicate BatchOk(call: Call, db: Db) {
    && (forall x, y | x in call.batch && y in call.batch && x.id == y.id :: x == y)
    && (forall x | x in call.batch :: Known(db, x.id, true))
    && (forall m | m in call.poisoned :: Known(db, m, false))
  }

  ghost predicate BatchesOk(calls: map<nat, Call>, db: Db) {
    forall c | c in calls :: BatchOk(calls[c], db)
  }

  ghost predicate DeliveryInv(s: System) {
    && AllUnpublished(s.procs, s.delivered) && DeliveredAnswered(s.calls, s.delivered)
    && AllOutOfFlight(s.procs, s.calls, s.delivered)
    && ReceivedGenuine(s.procs, s.calls) && BatchesOk(s.calls, s.db)
  }

  // ---------------------------------------------------------------- one dispatcher

  lemma InFlightCounts(d: Dispatcher, x: Claimed)
    requires InFlight(d, x)
    ensures Tasks(d.outstanding)[x] >= 1
  {
    var t :| t in d.outstanding && t.claim == x;
    var i :| 0 <= i < |d.outstanding| && d.outstanding[i] == t;
    BagMember(d.outstanding, TaskClaim, i);
  }

  lemma InFlightReceived(p: nat, d: Dispatcher, calls: map<nat, Call>, x: Claimed)
    requires ProcOk(d) && ReceivedOk(p, d, calls) && InFlight(d, x)
    ensures x in d.ledger.received && AnsweredIn(calls, x) && calls[x.call].proc == p
    ensures x !in d.ledger.released && x !in Fails(d.unwrittenFail)
  {
    InFlightCounts(d, x);
    assert d.ledger.received[x] == Tracked(d, x) + Settled(d.ledger, x);
  }

  lemma FailedReceived(p: nat, d: Dispatcher, calls: map<nat, Call>, u: Stamped<FailedMessage>)
    requires ProcOk(d) && ReceivedOk(p, d, calls) && u in d.unwrittenFail
    ensures var x := u.item.claim;
            x in d.ledger.received && AnsweredIn(calls, x) && calls[x.call].proc == p && !InFlight(d, x)
  {
    var x := u.item.claim;
    var i :| 0 <= i < |d.unwrittenFail| && d.unwrittenFail[i] == u;
    BagMember(d.unwrittenFail, FailClaim, i);
    assert d.ledger.received[x] == Tracked(d, x) + Settled(d.ledger, x);
    if InFlight(d, x) {
      InFlightCounts(d, x);
    }
  }

  lemma TwoTasksCount(ts: seq<Task>, t: Task, u: Task)
    requires UniqueTids(ts) && t in ts && u in ts && t.tid != u.tid && t.claim == u.claim
    ensures Tasks(ts)[t.claim] >= 2
  {
    RemoveTask(ts, t);
    RemoveMembers(ts, t.tid);
    var rest := Remove(ts, t.tid);
    var i :| 0 <= i < |rest| && rest[i] == u;
    BagMember(rest, TaskClaim, i);
  }

  /** Two tasks never have one instance. */
  lemma OneTaskEach(p: nat, d: Dispatcher, calls: map<nat, Call>, t: Task, u: Task)
    requires ProcOk(d) && ReceivedOk(p, d, calls) && t in d.outstanding && u in d.outstanding && t.claim == u.claim
    ensures t.tid == u.tid
  {
    assert d.ledger.received[t.claim] == Tracked(d, t.claim) + Settled(d.ledger, t.claim);
    if t.tid != u.tid {
      TwoTasksCount(d.outstanding, t, u);
    }
  }

  /** No act puts an instance in flight; only the answer to an `acquire` does. */
  lemma ActedFlies(d: Dispatcher, a: Act, x: Claimed)
    requires ProcOk(d) && ActEnabled(d, a) && !a.ReplyOk? && InFlight(Acted(d, a), x)
    ensures InFlight(d, x)
  {
    match a
    case TaskStart(tid) => WithStatusUnique(d.outstanding, tid, Publishing);
    case TaskResolve(tid, outcome) => WithStatusUnique(d.outstanding, tid, Resolved(outcome));
    case Join(results) => RecordAllKeeps(d, results);
    case Cancel(_) => StartedMembers(d.outstanding);
    case _ =>
  }

  lemma SpawnedClaim(tasks: seq<Task>, batch: seq<Claimed>, first: nat, t: Task)
    requires t in tasks + Spawned(batch, first)
    ensures t in tasks || t.claim in batch
  {
    if t !in tasks {
      var i :| 0 <= i < |batch| && t == Spawned(batch, first)[i];
    }
  }

  lemma RepliedFlies(d: Dispatcher, call: Call, x: Claimed)
    requires d.pending == [] && InFlight(Replied(d, call), x)
    ensures InFlight(d, x) || (call.request.AcquireReq? && x in call.batch)
  {
    if call.request.AcquireReq? {
      assert d.pending + call.batch == call.batch;
      assert Replied(d, call).outstanding == d.outstanding + Spawned(call.batch, d.nextTask);
      var t :| t in Replied(d, call).outstanding && t.claim == x;
      SpawnedClaim(d.outstanding, call.batch, d.nextTask, t);
    } else {
      assert Replied(d, call).outstanding == d.outstanding;
    }
  }

  lemma NewDelivery(d: Dispatcher, a: Act, x: Claimed)
    requires ActEnabled(d, a) && x in Deliveries(d, a)
    ensures InFlight(d, x)
  {
  }

  // ---------------------------------------------------------------- acts

  lemma RecordAllUnpublished(d: Dispatcher, results: seq<Joined>, delivered: set<Claimed>)
    requires ProcOk(d) && AllJoinable(d.outstanding, results) && Unpublished(d, delivered)
    requires forall j | j in results :: Reports(d, j)
    ensures Unpublished(RecordAll(d, results), delivered)
  {
    RecordAllKeeps(d, results);
    RecordedExactly(d, results);
    forall j | j in results && j.Done? && j.verdict.Failed? ensures j.claim !in delivered {
      assert Reports(d, j);
    }
  }

  /** An act that delivers nothing. */
  lemma QuietAct(d: Dispatcher, a: Act, delivered: set<Claimed>)
    requires ProcOk(d) && ActEnabled(d, a) && !a.ReplyOk? && Unpublished(d, delivered) && Deliveries(d, a) == {}
    ensures Unpublished(Acted(d, a), delivered)
  {
    match a
    case TaskStart(tid) => WithStatusUnique(d.outstanding, tid, Publishing); StartedUnpublished(d, tid, delivered);
    case TaskResolve(tid, outcome) => ResolvedUnpublished(d, tid, outcome, delivered);
    case Join(results) => RecordAllUnpublished(d, results, delivered);
    case GiveUpFails => GivenUpPastLease(d.unwrittenFail, d.now, d.settings.lease);
    case Cancel(_) => StartedMembers(d.outstanding);
    case _ =>
  }

  lemma StartedUnpublished(d: Dispatcher, tid: nat, delivered: set<Claimed>)
    requires ProcOk(d) && ActEnabled(d, TaskStart(tid)) && Unpublished(d, delivered)
    ensures Unpublished(Acted(d, TaskStart(tid)), delivered)
  {
    var ts' := WithStatus(d.outstanding, tid, Publishing);
    var queued :| queued in d.outstanding && queued.tid == tid && queued.status.Queued?;
    forall t | t in ts' ensures t.status != Resolved(PublishedOk) ==> t.claim !in delivered {
      var i :| 0 <= i < |ts'| && ts'[i] == t;
      SameTask(d.outstanding, d.outstanding[i], queued);
    }
  }

  lemma {:induction false} SameTask(ts: seq<Task>, t: Task, u: Task)
    requires UniqueTids(ts) && t in ts && u in ts
    ensures t.tid == u.tid ==> t == u
  {
    if t in ts[1..] && u in ts[1..] {
      SameTask(ts[1..], t, u);
    }
  }

  lemma ResolvedUnpublished(d: Dispatcher, tid: nat, outcome: TaskOutcome, delivered: set<Claimed>)
    requires ProcOk(d) && ActEnabled(d, TaskResolve(tid, outcome)) && Unpublished(d, delivered)
    ensures Unpublished(Acted(d, TaskResolve(tid, outcome)), delivered)
  {
    var ts' := WithStatus(d.outstanding, tid, Resolved(outcome));
    var running :| running in d.outstanding && running.tid == tid && running.status.Publishing?;
    forall t | t in ts' ensures t.status != Resolved(PublishedOk) ==> t.claim !in delivered {
      var i :| 0 <= i < |ts'| && ts'[i] == t;
      SameTask(d.outstanding, d.outstanding[i], running);
    }
  }

  /** A successful publish leaves its instance in its own resolved task only. */
  lemma DeliveringAct(p: nat, d: Dispatcher, a: Act, calls: map<nat, Call>, delivered: set<Claimed>)
    requires ProcOk(d) && ReceivedOk(p, d, calls) && ActEnabled(d, a) && Unpublished(d, delivered)
    requires a.TaskResolve? && a.outcome.PublishedOk?
    ensures Unpublished(Acted(d, a), delivered + Deliveries(d, a))
  {
    ResolvedUnpublished(d, a.tid, a.outcome, delivered);
    var d' := Acted(d, a);
    forall t | t in d'.outstanding && t.status != Resolved(PublishedOk) ensures t.claim !in Deliveries(d, a) {
      WithStatusSets(d.outstanding, a.tid, Resolved(a.outcome), t);
      forall u | u in d.outstanding && u.tid == a.tid ensures u.claim != t.claim {
        if u.claim == t.claim {
          OneTaskEach(p, d, calls, t, u);
        }
      }
    }
    forall u | u in d'.unwrittenFail ensures u.item.claim !in Deliveries(d, a) {
      FailedReceived(p, d, calls, u);
    }
  }

  lemma WithStatusSets(ts: seq<Task>, tid: nat, status: TaskStatus, t: Task)
    requires t in WithStatus(ts, tid, status) && t.status != status
    ensures t in ts && t.tid != tid
  {
    var i :| 0 <= i < |ts| && WithStatus(ts, tid, status)[i] == t;
  }

  lemma ActedUnpublished(p: nat, d: Dispatcher, a: Act, calls: map<nat, Call>, delivered: set<Claimed>)
    requires ProcOk(d) && ReceivedOk(p, d, calls) && ActEnabled(d, a) && !a.ReplyOk? && Unpublished(d, delivered)
    ensures Unpublished(Acted(d, a), delivered + Deliveries(d, a))
  {
    if a.TaskResolve? && a.outcome.PublishedOk? {
      DeliveringAct(p, d, a, calls, delivered);
    } else {
      QuietAct(d, a, delivered);
      assert delivered + Deliveries(d, a) == delivered;
    }
  }

  /** Others' books hold none of it. */
  lemma OthersUnpublished(p: nat, d: Dispatcher, a: Act, q: nat, other: Dispatcher, calls: map<nat, Call>,
                          delivered: set<Claimed>)
    requires ProcOk(d) && ReceivedOk(p, d, calls) && ActEnabled(d, a)
    requires p != q && ProcOk(other) && ReceivedOk(q, other, calls) && Unpublished(other, delivered)
    ensures Unpublished(other, delivered + Deliveries(d, a))
  {
    forall x | x in Deliveries(d, a) ensures x.call in calls && calls[x.call].proc == p {
      NewDelivery(d, a, x);
      InFlightReceived(p, d, calls, x);
    }
    forall t | t in other.outstanding ensures t.claim !in Deliveries(d, a) {
      assert InFlight(other, t.claim);
      InFlightReceived(q, other, calls, t.claim);
    }
    forall u | u in other.unwrittenFail ensures u.item.claim !in Deliveries(d, a) {
      FailedReceived(q, other, calls, u);
    }
  }

  // ---------------------------------------------------------------- withdrawn instances

  /** What a dispatcher asks to fail or release, it has received and no longer flies. */
  lemma AskWithdraws(p: nat, d: Dispatcher, a: Act, calls: map<nat, Call>, x: Claimed)
    requires ProcOk(d) && ReceivedOk(p, d, calls) && ActEnabled(d, a) && Asks(a) && x in Withdrawn(Ask(d, a))
    ensures x in d.ledger.received && !InFlight(Acted(d, a), x)
  {
    match a
    case AskFail(_) => FailWithdraws(p, d, calls, x);
    case Cancel(_) => CancelWithdraws(p, d, a, calls, x);
    case Finish(_) => FinishWithdraws(p, d, calls, x);
    case _ =>
  }

  lemma FailWithdraws(p: nat, d: Dispatcher, calls: map<nat, Call>, x: Claimed)
    requires ProcOk(d) && ReceivedOk(p, d, calls) && exists f :: f in FailItems(d.unwrittenFail) && f.claim == x
    ensures x in d.ledger.received && !InFlight(d, x)
    ensures exists u :: u in d.unwrittenFail && u.item.claim == x
  {
    var f :| f in FailItems(d.unwrittenFail) && f.claim == x;
    var i :| 0 <= i < |d.unwrittenFail| && d.unwrittenFail[i].item == f;
    assert d.unwrittenFail[i] in d.unwrittenFail;
    FailedReceived(p, d, calls, d.unwrittenFail[i]);
  }

  lemma CancelWithdraws(p: nat, d: Dispatcher, a: Act, calls: map<nat, Call>, x: Claimed)
    requires ProcOk(d) && ReceivedOk(p, d, calls) && a.Cancel? && x in Unstarted(d.outstanding)
    ensures x in d.ledger.received && !InFlight(Acted(d, a), x)
  {
    var d' := StopStarting(d);
    StopStartingKeeps(d);
    var i :| 0 <= i < |Unstarted(d.outstanding)| && Unstarted(d.outstanding)[i] == x;
    BagMember(Unstarted(d.outstanding), ItemClaim, i);
    assert d'.ledger.received[x] == Tracked(d', x) + Settled(d'.ledger, x);
    if InFlight(Acted(d, a), x) {
      assert InFlight(d', x);
      InFlightCounts(d', x);
    }
  }

  lemma FinishWithdraws(p: nat, d: Dispatcher, calls: map<nat, Call>, x: Claimed)
    requires ProcOk(d) && ReceivedOk(p, d, calls) && x in TaskItems(d.outstanding) + FailRefs(d.unwrittenFail)
    ensures x in d.ledger.received
  {
    if x in TaskItems(d.outstanding) {
      var i :| 0 <= i < |d.outstanding| && d.outstanding[i].claim == x;
      assert d.outstanding[i] in d.outstanding;
      assert InFlight(d, x);
      InFlightReceived(p, d, calls, x);
    } else {
      var i :| 0 <= i < |d.unwrittenFail| && d.unwrittenFail[i].item.claim == x;
      FailedReceived(p, d, calls, d.unwrittenFail[i]);
    }
  }

  lemma AskedFliesNowhere(s: System, p: nat, a: Act, x: Claimed)
    requires Inv(s) && p in s.procs && ActEnabled(s.procs[p], a) && Asks(a) && x in Withdrawn(Ask(s.procs[p], a))
    ensures AnsweredIn(s.calls, x) && NobodyFlies(s.procs[p := Acted(s.procs[p], a)], x)
  {
    var d := s.procs[p];
    assert ProcInv(p, d, s.calls, s.delivered);
    AskWithdraws(p, d, a, s.calls, x);
    forall q | q in s.procs && q != p ensures !InFlight(s.procs[q], x) {
      OthersDoNotFly(s, p, q, x);
    }
  }

  lemma FailedUndelivered(p: nat, d: Dispatcher, a: Act, calls: map<nat, Call>, delivered: set<Claimed>, x: Claimed)
    requires ProcInv(p, d, calls, delivered) && Unpublished(d, delivered)
    requires a.AskFail? && x in Withdrawn(Ask(d, a))
    ensures x !in delivered
  {
    FailWithdraws(p, d, calls, x);
  }

  lemma AskOutOfFlight(s: System, p: nat, a: Act)
    requires Inv(s) && AllUnpublished(s.procs, s.delivered)
    requires p in s.procs && ActEnabled(s.procs[p], a) && Asks(a)
    ensures OutOfFlight(Ask(s.procs[p], a), s.procs[p := Acted(s.procs[p], a)], s.calls, s.delivered)
  {
    var d := s.procs[p];
    forall x | x in Withdrawn(Ask(d, a))
      ensures AnsweredIn(s.calls, x) && NobodyFlies(s.procs[p := Acted(d, a)], x)
      ensures a.AskFail? ==> x !in s.delivered
    {
      AskedFliesNowhere(s, p, a, x);
      if a.AskFail? {
        assert ProcInv(p, d, s.calls, s.delivered) && Unpublished(d, s.delivered);
        FailedUndelivered(p, d, a, s.calls, s.delivered, x);
      }
    }
  }

  lemma OthersDoNotFly(s: System, p: nat, q: nat, x: Claimed)
    requires Inv(s) && p in s.procs && q in s.procs && p != q && x in s.procs[p].ledger.received
    ensures !InFlight(s.procs[q], x)
  {
    assert ProcInv(q, s.procs[q], s.calls, s.delivered);
    if InFlight(s.procs[q], x) {
      InFlightReceived(q, s.procs[q], s.calls, x);
      OneOwnerNow(s, p, q, x);
    }
  }

  // ---------------------------------------------------------------- the table

  lemma StatementKeepsKnown(db: Db, st: Stmt, m: MessageId, decodable: bool)
    requires Enabled(db, st) && Known(db, m, decodable)
    ensures Known(Apply(db, st), m, decodable)
  {
    if m in Apply(db, st).rows {
      RowAfter(db, st, m);
    }
  }

  lemma StatementKeepsBatches(db: Db, st: Stmt, calls: map<nat, Call>)
    requires Enabled(db, st) && BatchesOk(calls, db)
    ensures BatchesOk(calls, Apply(db, st))
  {
    forall c | c in calls ensures BatchOk(calls[c], Apply(db, st)) {
      StatementKeepsBatch(db, st, calls[c]);
    }
  }

  lemma StatementKeepsBatch(db: Db, st: Stmt, call: Call)
    requires Enabled(db, st) && BatchOk(call, db)
    ensures BatchOk(call, Apply(db, st))
  {
    forall x | x in call.batch ensures Known(Apply(db, st), x.id, true) {
      StatementKeepsKnown(db, st, x.id, true);
    }
    forall m | m in call.poisoned ensures Known(Apply(db, st), m, false) {
      StatementKeepsKnown(db, st, m, false);
    }
  }

  /** A claim returns each of its decodable rows once. */
  lemma ClaimedBatchOk(db: Db, st: Stmt, order: seq<MessageId>, call: Call)
    requires Valid(db) && st.Claim? && Enabled(db, st) && Lists(order, db.rows, st.ids)
    requires call.batch == Records(order, db.rows, st.claim)
    requires call.poisoned == set m | m in st.ids && m in db.rows && !db.rows[m].decodable
    ensures BatchOk(call, Apply(db, st))
  {
    forall x | x in call.batch ensures Known(db, x.id, true) {
      var i :| 0 <= i < |order| && call.batch[i] == x;
      assert order[i] in order;
    }
    StatementKeepsBatch(db, st, call);
  }

  lemma OneBatchChanged(calls: map<nat, Call>, c: nat, call: Call, db: Db)
    requires BatchesOk(calls, db) && BatchOk(call, db)
    ensures BatchesOk(calls[c := call], db)
  {
  }

  lemma CommittedBatchOk(s: System, e: Step)
    requires Valid(s.db) && CanStep(s, e) && e.Commit? && BatchOk(s.calls[e.call], s.db)
    ensures BatchOk(Committed(s, e), Apply(s.db, NextStmt(e.call, s.calls[e.call], e)))
  {
    var st := NextStmt(e.call, s.calls[e.call], e);
    if st.Claim? {
      ClaimedBatchOk(s.db, st, e.order, Committed(s, e));
    } else {
      StatementKeepsBatch(s.db, st, s.calls[e.call]);
    }
  }

  lemma CommitKeepsBatches(s: System, e: Step)
    requires Valid(s.db) && BatchesOk(s.calls, s.db) && CanStep(s, e) && e.Commit?
    ensures BatchesOk(After(s, e).calls, After(s, e).db)
  {
    var st := NextStmt(e.call, s.calls[e.call], e);
    StatementKeepsBatches(s.db, st, s.calls);
    assert BatchOk(s.calls[e.call], s.db);
    CommittedBatchOk(s, e);
    OneBatchChanged(s.calls, e.call, Committed(s, e), Apply(s.db, st));
  }

  // ---------------------------------------------------------------- calls go on

  ghost predicate CallsGrow(calls: map<nat, Call>, calls': map<nat, Call>) {
    forall c | c in calls ::
      && c in calls' && calls'[c].request == calls[c].request
      && (calls[c].answered ==> calls'[c].answered)
      && (calls[c].batch == [] || calls'[c].batch == calls[c].batch)
  }

  lemma StepGrowsCalls(s: System, e: Step)
    requires Inv(s) && CanStep(s, e)
    ensures CallsGrow(s.calls, After(s, e).calls) && s.delivered <= After(s, e).delivered
  {
    if e.Commit? {
      assert CallOk(e.call, s.calls[e.call], s.delivered);
    }
  }

  lemma CallsGrowOn(calls: map<nat, Call>, mid: map<nat, Call>, calls': map<nat, Call>)
    requires CallsGrow(calls, mid) && CallsGrow(mid, calls')
    ensures CallsGrow(calls, calls')
  {
  }

  lemma GrowKeepsParts(procs: map<nat, Dispatcher>, calls: map<nat, Call>, calls': map<nat, Call>,
                       delivered: set<Claimed>)
    requires CallsGrow(calls, calls')
    ensures DeliveredAnswered(calls, delivered) ==> DeliveredAnswered(calls', delivered)
    ensures ReceivedGenuine(procs, calls) ==> ReceivedGenuine(procs, calls')
  {
  }

  lemma GrowKeepsFlight(r: Request, procs: map<nat, Dispatcher>, calls: map<nat, Call>, calls': map<nat, Call>,
                        delivered: set<Claimed>)
    requires CallsGrow(calls, calls') && OutOfFlight(r, procs, calls, delivered)
    ensures OutOfFlight(r, procs, calls', delivered)
  {
  }

  // ---------------------------------------------------------------- local steps

  lemma ActedAllUnpublished(s: System, p: nat, a: Act)
    requires Inv(s) && AllUnpublished(s.procs, s.delivered)
    requires p in s.procs && ActEnabled(s.procs[p], a) && !a.ReplyOk?
    ensures AllUnpublished(s.procs[p := Acted(s.procs[p], a)], s.delivered + Deliveries(s.procs[p], a))
  {
    var d := s.procs[p];
    assert ProcInv(p, d, s.calls, s.delivered) && Unpublished(d, s.delivered);
    ActedUnpublished(p, d, a, s.calls, s.delivered);
    forall q | q in s.procs && q != p ensures Unpublished(s.procs[q], s.delivered + Deliveries(d, a)) {
      assert ProcInv(q, s.procs[q], s.calls, s.delivered) && Unpublished(s.procs[q], s.delivered);
      OthersUnpublished(p, d, a, q, s.procs[q], s.calls, s.delivered);
    }
  }

  /** What was withdrawn stays out of flight, and is not delivered any more. */
  lemma ActedKeepsFlight(r: Request, procs: map<nat, Dispatcher>, p: nat, a: Act, calls: map<nat, Call>,
                         delivered: set<Claimed>)
    requires OutOfFlight(r, procs, calls, delivered)
    requires p in procs && ProcOk(procs[p]) && ActEnabled(procs[p], a) && !a.ReplyOk?
    ensures OutOfFlight(r, procs[p := Acted(procs[p], a)], calls, delivered + Deliveries(procs[p], a))
  {
    forall x | x in Withdrawn(r)
      ensures NobodyFlies(procs[p := Acted(procs[p], a)], x) && x !in Deliveries(procs[p], a)
    {
      assert NobodyFlies(procs, x);
      if InFlight(Acted(procs[p], a), x) {
        ActedFlies(procs[p], a, x);
      }
      if x in Deliveries(procs[p], a) {
        NewDelivery(procs[p], a, x);
      }
    }
  }

  lemma ActedAllOutOfFlight(s: System, p: nat, a: Act)
    requires Inv(s) && AllUnpublished(s.procs, s.delivered) && AllOutOfFlight(s.procs, s.calls, s.delivered)
    requires p in s.procs && ActEnabled(s.procs[p], a) && !a.ReplyOk? && (Asks(a) ==> a.call !in s.calls)
    ensures var d := s.procs[p];
            AllOutOfFlight(s.procs[p := Acted(d, a)], CallsAfter(p, d, a, s.calls), s.delivered + Deliveries(d, a))
  {
    var d := s.procs[p];
    var procs', calls', delivered' := s.procs[p := Acted(d, a)], CallsAfter(p, d, a, s.calls),
        s.delivered + Deliveries(d, a);
    assert ProcInv(p, d, s.calls, s.delivered);
    assert CallsGrow(s.calls, calls');
    forall c | c in calls' ensures OutOfFlight(calls'[c].request, procs', calls', delivered') {
      if c in s.calls {
        assert OutOfFlight(s.calls[c].request, s.procs, s.calls, s.delivered);
        ActedKeepsFlight(s.calls[c].request, s.procs, p, a, s.calls, s.delivered);
      } else {
        AskOutOfFlight(s, p, a);
        assert delivered' == s.delivered;
      }
      GrowKeepsFlight(calls'[c].request, procs', s.calls, calls', delivered');
    }
  }

  lemma ActedDeliveredAnswered(p: nat, d: Dispatcher, a: Act, calls: map<nat, Call>, delivered: set<Claimed>)
    requires ProcOk(d) && ReceivedOk(p, d, calls) && ActEnabled(d, a) && DeliveredAnswered(calls, delivered)
    ensures DeliveredAnswered(calls, delivered + Deliveries(d, a))
  {
    forall x | x in Deliveries(d, a) ensures AnsweredIn(calls, x) {
      NewDelivery(d, a, x);
      InFlightReceived(p, d, calls, x);
    }
  }

  lemma ActedGrowsCalls(p: nat, d: Dispatcher, a: Act, calls: map<nat, Call>, db: Db)
    requires BatchesOk(calls, db) && (Asks(a) ==> a.call !in calls)
    ensures CallsGrow(calls, CallsAfter(p, d, a, calls)) && BatchesOk(CallsAfter(p, d, a, calls), db)
  {
    if Asks(a) {
      OneBatchChanged(calls, a.call, Call(p, d.worker, Ask(d, a), 0, [], {}, false), db);
    }
  }

  lemma OneBookChanged(procs: map<nat, Dispatcher>, p: nat, d: Dispatcher, calls: map<nat, Call>)
    requires ReceivedGenuine(procs, calls) && GenuineBooks(d, calls)
    ensures ReceivedGenuine(procs[p := d], calls)
  {
  }

  lemma ActedReceived(s: System, p: nat, a: Act)
    requires ReceivedGenuine(s.procs, s.calls) && p in s.procs && ActEnabled(s.procs[p], a) && !a.ReplyOk?
    ensures ReceivedGenuine(s.procs[p := Acted(s.procs[p], a)], s.calls)
  {
    ActedFrame(s.procs[p], a);
    assert GenuineBooks(s.procs[p], s.calls);
    OneBookChanged(s.procs, p, Acted(s.procs[p], a), s.calls);
  }

  lemma LocalKeepsDelivery(s: System, p: nat, a: Act)
    requires Inv(s) && DeliveryInv(s)
    requires p in s.procs && ActEnabled(s.procs[p], a) && !a.ReplyOk? && (Asks(a) ==> a.call !in s.calls)
    ensures var d := s.procs[p];
            DeliveryInv(s.(procs := s.procs[p := Acted(d, a)], calls := CallsAfter(p, d, a, s.calls),
                           delivered := s.delivered + Deliveries(d, a)))
  {
    var d := s.procs[p];
    ActedAllUnpublished(s, p, a);
    ActedAllOutOfFlight(s, p, a);
    ActedAnswered(s, p, a);
    ActedReceived(s, p, a);
    ActedGrowsCalls(p, d, a, s.calls, s.db);
    GrowKeepsParts(s.procs[p := Acted(d, a)], s.calls, CallsAfter(p, d, a, s.calls), s.delivered + Deliveries(d, a));
  }

  lemma ActedAnswered(s: System, p: nat, a: Act)
    requires Inv(s) && DeliveredAnswered(s.calls, s.delivered) && p in s.procs && ActEnabled(s.procs[p], a)
    ensures DeliveredAnswered(s.calls, s.delivered + Deliveries(s.procs[p], a))
  {
    assert ProcInv(p, s.procs[p], s.calls, s.delivered);
    ActedDeliveredAnswered(p, s.procs[p], a, s.calls, s.delivered);
  }

  // ---------------------------------------------------------------- replies

  lemma RepliedUnpublished(d: Dispatcher, c: nat, calls: map<nat, Call>, delivered: set<Claimed>)
    requires ProcOk(d) && Unpublished(d, delivered) && DeliveredAnswered(calls, delivered)
    requires c in calls && !calls[c].answered && CallOk(c, calls[c], delivered)
    ensures Unpublished(Replied(d, calls[c]), delivered)
  {
    var call := calls[c];
    if call.request.AcquireReq? {
      assert d.pending + call.batch == call.batch;
      forall t | t in Replied(d, call).outstanding && t !in d.outstanding ensures t.claim !in delivered {
        var i :| 0 <= i < |call.batch| && t == Spawned(call.batch, d.nextTask)[i];
        assert call.batch[i] in call.batch;
      }
    }
  }

  lemma ReplyKeepsFlight(r: Request, procs: map<nat, Dispatcher>, p: nat, c: nat, calls: map<nat, Call>,
                         delivered: set<Claimed>)
    requires OutOfFlight(r, procs, calls, delivered) && p in procs && ProcOk(procs[p])
    requires c in calls && !calls[c].answered && CallOk(c, calls[c], delivered)
    ensures OutOfFlight(r, procs[p := Replied(procs[p], calls[c])], calls, delivered)
  {
    forall x | x in Withdrawn(r) ensures NobodyFlies(procs[p := Replied(procs[p], calls[c])], x) {
      assert NobodyFlies(procs, x) && AnsweredIn(calls, x);
      if InFlight(Replied(procs[p], calls[c]), x) {
        RepliedFlies(procs[p], calls[c], x);
      }
    }
  }

  lemma ReplyGenuine(d: Dispatcher, c: nat, calls: map<nat, Call>, delivered: set<Claimed>)
    requires GenuineBooks(d, calls) && c in calls && CallOk(c, calls[c], delivered)
    ensures GenuineBooks(Replied(d, calls[c]), calls)
  {
    forall x | x in Replied(d, calls[c]).ledger.received ensures Genuine(calls, x) {
      if x !in d.ledger.received {
        ReplyHandsOut(d, calls[c], x);
        BatchMember(calls[c].batch, x);
      }
    }
  }

  lemma ReplyAllOutOfFlight(s: System, p: nat, c: nat)
    requires Inv(s) && AllOutOfFlight(s.procs, s.calls, s.delivered)
    requires p in s.procs && s.procs[p].waiting == Some(c) && c in s.calls && !s.calls[c].answered
    ensures AllOutOfFlight(s.procs[p := Replied(s.procs[p], s.calls[c])], s.calls[c := s.calls[c].(answered := true)],
              s.delivered)
  {
    var procs', calls' := s.procs[p := Replied(s.procs[p], s.calls[c])], s.calls[c := s.calls[c].(answered := true)];
    assert ProcInv(p, s.procs[p], s.calls, s.delivered) && CallOk(c, s.calls[c], s.delivered);
    assert CallsGrow(s.calls, calls');
    forall k | k in calls' ensures OutOfFlight(calls'[k].request, procs', calls', s.delivered) {
      assert OutOfFlight(s.calls[k].request, s.procs, s.calls, s.delivered);
      ReplyKeepsFlight(s.calls[k].request, s.procs, p, c, s.calls, s.delivered);
      GrowKeepsFlight(s.calls[k].request, procs', s.calls, calls', s.delivered);
    }
  }

  lemma AnsweringGrowsCalls(calls: map<nat, Call>, c: nat, db: Db)
    requires BatchesOk(calls, db) && c in calls
    ensures CallsGrow(calls, calls[c := calls[c].(answered := true)])
    ensures BatchesOk(calls[c := calls[c].(answered := true)], db)
  {
    assert BatchOk(calls[c], db);
    OneBatchChanged(calls, c, calls[c].(answered := true), db);
  }

  lemma ReplyBooks(s: System, p: nat, c: nat)
    requires Inv(s) && DeliveryInv(s) && p in s.procs && s.procs[p].waiting == Some(c)
    ensures c in s.calls && !s.calls[c].answered
    ensures Unpublished(Replied(s.procs[p], s.calls[c]), s.delivered)
    ensures GenuineBooks(Replied(s.procs[p], s.calls[c]), s.calls)
  {
    var d := s.procs[p];
    assert ProcInv(p, d, s.calls, s.delivered) && CallOk(c, s.calls[c], s.delivered);
    assert Unpublished(d, s.delivered) && GenuineBooks(d, s.calls);
    RepliedUnpublished(d, c, s.calls, s.delivered);
    ReplyGenuine(d, c, s.calls, s.delivered);
  }

  lemma ReplyKeepsDelivery(s: System, p: nat, c: nat)
    requires Inv(s) && DeliveryInv(s) && p in s.procs && s.procs[p].waiting == Some(c)
    ensures c in s.calls
    ensures DeliveryInv(s.(procs := s.procs[p := Replied(s.procs[p], s.calls[c])],
                           calls := s.calls[c := s.calls[c].(answered := true)]))
  {
    ReplyBooks(s, p, c);
    var d' := Replied(s.procs[p], s.calls[c]);
    ReplyAllOutOfFlight(s, p, c);
    AnsweringGrowsCalls(s.calls, c, s.db);
    OneBookChanged(s.procs, p, d', s.calls);
    GrowKeepsParts(s.procs[p := d'], s.calls, s.calls[c := s.calls[c].(answered := true)], s.delivered);
  }

  // ---------------------------------------------------------------- every step

  lemma CommitKeepsDelivery(s: System, e: Step)
    requires Inv(s) && DeliveryInv(s) && CanStep(s, e) && e.Commit?
    ensures DeliveryInv(After(s, e))
  {
    var s' := After(s, e);
    StepGrowsCalls(s, e);
    CommitKeepsBatches(s, e);
    GrowKeepsParts(s.procs, s.calls, s'.calls, s.delivered);
    forall c | c in s'.calls ensures OutOfFlight(s'.calls[c].request, s.procs, s'.calls, s.delivered) {
      assert OutOfFlight(s.calls[c].request, s.procs, s.calls, s.delivered);
      GrowKeepsFlight(s.calls[c].request, s.procs, s.calls, s'.calls, s.delivered);
    }
  }

  lemma ProcsShrink(s: System, procs: map<nat, Dispatcher>)
    requires DeliveryInv(s)
    requires forall p | p in procs ::
               (p in s.procs && procs[p] == s.procs[p]) || (procs[p].outstanding == [] && procs[p].unwrittenFail == []
                   && procs[p].ledger == NO_LEDGER)
    ensures DeliveryInv(s.(procs := procs))
  {
    forall c | c in s.calls ensures OutOfFlight(s.calls[c].request, procs, s.calls, s.delivered) {
      assert OutOfFlight(s.calls[c].request, s.procs, s.calls, s.delivered);
      forall x | x in Withdrawn(s.calls[c].request) ensures NobodyFlies(procs, x) {
        assert NobodyFlies(s.procs, x);
      }
    }
  }

  lemma StepKeepsDelivery(s: System, e: Step)
    requires Inv(s) && DeliveryInv(s) && CanStep(s, e)
    ensures DeliveryInv(After(s, e))
  {
    match e
    case Outside(st) => StatementKeepsBatches(s.db, st, s.calls);
    case Commit(_, _, _, _, _, _) => CommitKeepsDelivery(s, e);
    case Start(_, _, _, _) => ProcsShrink(s, After(s, e).procs);
    case Crash(_) => ProcsShrink(s, After(s, e).procs);
    case Local(p, a) =>
      if a.ReplyOk? {
        ReplyKeepsDelivery(s, p, s.procs[p].waiting.value);
      } else {
        LocalKeepsDelivery(s, p, a);
      }
  }

  lemma {:induction false} DeliveryHolds(states: seq<System>, steps: seq<Step>, k: nat)
    requires Run(states, steps) && k <= |steps|
    ensures DeliveryInv(states[k])
  {
    if k > 0 {
      DeliveryHolds(states, steps, k - 1);
      Reachable(states, steps, k - 1);
      assert Moves(states, steps, k - 1);
      StepKeepsDelivery(states[k - 1], steps[k - 1]);
    }
  }
}
