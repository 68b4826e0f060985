/** When a message can be delivered twice. Delivery is at least once; a second one takes a lease lost
    between the two claims: it lapsed, or a write meant for another claim closed it, or a shutdown
    released the instance after its publish had succeeded but before the success was seen. */
module SecondDelivery {
  import opened Basics
  import opened DispatcherState
  import opened OutboxTable
  import opened Protocol
  import opened ProtocolSafety
  import opened ProtocolRuns
  import opened DeliveryInvariant

  // ---------------------------------------------------------------- losing a lease

  /** The row is leased, under the claim that made `z`. */
  predicate Current(db: Db, z: Claimed) {
    z.id in db.rows && Leased(db.rows[z.id]) && z.id in db.latest && db.latest[z.id].claim == z.call
  }

  /** The statement a step executes, if any. */
  function StatementAt(s: System, e: Step): Option<Stmt> {
    match e
    case Outside(st) => Some(st)
    case Commit(c, _, _, _, _, _) => if c in s.calls then Some(NextStmt(c, s.calls[c], e)) else None
    case _ => None
  }

  predicate Hits(s: System, e: Step, z: Claimed) {
    StatementAt(s, e).Some? && z.id in s.db.rows && Touches(StatementAt(s, e).value, z.id, s.db.rows[z.id])
  }

  /** A claim or the expiry sweep takes the row at a reading past the end of its lease. */
  predicate Lapses(db: Db, st: Stmt, m: MessageId) {
    && m in db.rows && db.rows[m].lockedUntil.Some?
    && (st.Claim? || st.ExpirySweep?) && db.rows[m].lockedUntil.value < st.now
  }

  predicate Lapsed(s: System, e: Step, z: Claimed) {
    StatementAt(s, e).Some? && Lapses(s.db, StatementAt(s, e).value, z.id)
  }

  /** A `fail` or `release` of another instance of the row. */
  predicate Misdirected(s: System, e: Step, z: Claimed) {
    && e.Commit? && e.call in s.calls
    && match s.calls[e.call].request
       case FailReq(_) => z.id in e.picked && e.picked[z.id].claim != z
       case ReleaseReq(items) => z.id in IdsOf(items) && z !in items
       case _ => false
  }

  /** A `fail` or `release` of `z` itself. */
  predicate Withdraws(s: System, e: Step, z: Claimed) {
    e.Commit? && e.call in s.calls && z in Withdrawn(s.calls[e.call].request)
  }

  /** A `release` of `z` after `z` has been delivered. */
  predicate ReleasedUnseen(s: System, e: Step, z: Claimed) {
    Withdraws(s, e, z) && s.calls[e.call].request.ReleaseReq? && z in s.delivered
  }

  /** The step takes the row away from `z`'s claim, in one of the three ways. */
  predicate LosesLease(s: System, e: Step, z: Claimed) {
    Current(s.db, z) && Hits(s, e, z) && (Lapsed(s, e, z) || Misdirected(s, e, z) || ReleasedUnseen(s, e, z))
  }

  lemma WhatEndsALease(db: Db, st: Stmt, z: Claimed)
    requires Valid(db) && Enabled(db, st) && Current(db, z) && !Current(Apply(db, st), z)
    ensures Touches(st, z.id, db.rows[z.id])
    ensures Lapses(db, st, z.id) || st.Complete? || st.FailRetry? || st.FailDead? || st.Release? || st.PoisonSweep?
    ensures st.Complete? ==> z.id in Apply(db, st).rows && Apply(db, st).rows[z.id].publishedAt.Some?
  {
    assert WellFormedRow(db.rows[z.id]);
  }

  /** A row that a batch names is never swept as poisoned. */
  lemma NotPoisoned(calls: map<nat, Call>, db: Db, c: nat, z: Claimed)
    requires BatchesOk(calls, db) && c in calls && Genuine(calls, z) && z.id in db.rows
    ensures z.id !in calls[c].poisoned
  {
    assert BatchOk(calls[c], db) && BatchOk(calls[z.call], db);
    assert Known(db, z.id, true);
  }

  ghost predicate PublishedIn(db: Db, m: MessageId) {
    m in db.rows && db.rows[m].publishedAt.Some?
  }

  /** The closing writes of a call, and whom they are for. */
  lemma CallEndsLease(s: System, e: Step, z: Claimed)
    requires e.Commit? && e.call in s.calls && BatchesOk(s.calls, s.db) && Genuine(s.calls, z) && Hits(s, e, z)
    requires s.calls[e.call].request.FailReq? ==>
               Picks(s.calls[e.call].request.fails, s.calls[e.call].stage == 0, e.picked)
    requires var st := NextStmt(e.call, s.calls[e.call], e);
             st.FailRetry? || st.FailDead? || st.Release? || st.PoisonSweep?
    ensures Misdirected(s, e, z) || Withdraws(s, e, z)
  {
    NotPoisoned(s.calls, s.db, e.call, z);
  }

  /** Whatever ends a lease under a batch's claim: the row is published, or the lease lapsed, or a write did
      it - another instance's, or its own. */
  lemma HowLeasesEnd(s: System, e: Step, z: Claimed)
    requires Valid(s.db) && BatchesOk(s.calls, s.db) && CanStep(s, e) && Genuine(s.calls, z)
    requires Current(s.db, z) && !Current(After(s, e).db, z)
    ensures Hits(s, e, z)
    ensures PublishedIn(After(s, e).db, z.id) || Lapsed(s, e, z) || Misdirected(s, e, z) || Withdraws(s, e, z)
  {
    TableStep(s, e);
    var st := StatementAt(s, e).value;
    WhatEndsALease(s.db, st, z);
    if !st.Complete? && !Lapses(s.db, st, z.id) {
      CallEndsLease(s, e, z);
    }
  }

  // ---------------------------------------------------------------- claims

  /** At step `a` the claim that made `z` committed. */
  ghost predicate ClaimedAt(states: seq<System>, steps: seq<Step>, a: nat, z: Claimed)
    requires |states| == |steps| + 1 && a < |steps|
  {
    && steps[a].Commit? && steps[a].call == z.call && z.call in states[a].calls
    && states[a].calls[z.call].request.AcquireReq? && states[a].calls[z.call].stage == 0
    && Current(states[a + 1].db, z) && Genuine(states[a + 1].calls, z)
  }

  lemma ClaimMakesCurrent(db: Db, st: Stmt, order: seq<MessageId>, z: Claimed)
    requires st.Claim? && Lists(order, db.rows, st.ids) && z in Records(order, db.rows, st.claim)
    ensures Current(Apply(db, st), z)
  {
    var i :| 0 <= i < |order| && Records(order, db.rows, st.claim)[i] == z;
    assert order[i] in order;
  }

  /** Only the commit of its claim makes an instance. */
  lemma BecomesGenuine(s: System, e: Step, z: Claimed)
    requires Inv(s) && CanStep(s, e) && Genuine(After(s, e).calls, z) && !Genuine(s.calls, z)
    ensures e.Commit? && e.call == z.call && z.call in s.calls
    ensures s.calls[z.call].request.AcquireReq? && s.calls[z.call].stage == 0 && Current(After(s, e).db, z)
  {
    if e.Commit? {
      var st := NextStmt(e.call, s.calls[e.call], e);
      if st.Claim? {
        ClaimMakesCurrent(s.db, st, e.order, z);
      }
    }
  }

  lemma {:induction false} WasClaimed(states: seq<System>, steps: seq<Step>, k: nat, z: Claimed) returns (a: nat)
    requires Run(states, steps) && k <= |steps| && Genuine(states[k].calls, z)
    ensures a < k && ClaimedAt(states, steps, a, z)
  {
    assert k > 0;
    assert Moves(states, steps, k - 1);
    if Genuine(states[k - 1].calls, z) {
      a := WasClaimed(states, steps, k - 1, z);
    } else {
      Reachable(states, steps, k - 1);
      BecomesGenuine(states[k - 1], steps[k - 1], z);
      a := k - 1;
    }
  }

  lemma {:induction false} CallsGrowOver(states: seq<System>, steps: seq<Step>, i: nat, k: nat)
    requires Run(states, steps) && i <= k <= |steps|
    ensures CallsGrow(states[i].calls, states[k].calls) && states[i].delivered <= states[k].delivered
  {
    if i < k {
      CallsGrowOver(states, steps, i, k - 1);
      Reachable(states, steps, k - 1);
      assert Moves(states, steps, k - 1);
      StepGrowsCalls(states[k - 1], steps[k - 1]);
      CallsGrowOn(states[i].calls, states[k - 1].calls, states[k].calls);
    }
  }

  /** Two instances of one row have two claims. */
  lemma TwoInstancesTwoCalls(calls: map<nat, Call>, db: Db, x: Claimed, y: Claimed)
    requires BatchesOk(calls, db) && Genuine(calls, x) && Genuine(calls, y) && x.id == y.id && x != y
    ensures x.call != y.call
  {
    assert BatchOk(calls[x.call], db);
  }

  /** Between a claim of `z` and a later claim of the same row, the lease of `z` ends. */
  lemma {:induction false} LeaseEnds(states: seq<System>, a: nat, b: nat, z: Claimed) returns (e: nat)
    requires a <= b < |states| && Current(states[a].db, z) && !Current(states[b].db, z)
    ensures a <= e < b && Current(states[e].db, z) && !Current(states[e + 1].db, z)
    decreases b
  {
    if Current(states[b - 1].db, z) {
      e := b - 1;
    } else {
      e := LeaseEnds(states, a, b - 1, z);
    }
  }

  // ---------------------------------------------------------------- deliveries

  /** At step `i` a publish of instance `x` returned Ok. */
  ghost predicate DeliversAt(states: seq<System>, steps: seq<Step>, i: nat, x: Claimed)
    requires |states| == |steps| + 1 && i < |steps|
  {
    && steps[i].Local? && steps[i].proc in states[i].procs && !steps[i].act.ReplyOk?
    && x in Deliveries(states[i].procs[steps[i].proc], steps[i].act)
  }

  lemma PublishDelivers(states: seq<System>, steps: seq<Step>, i: nat, m: MessageId) returns (x: Claimed)
    requires |states| == |steps| + 1 && i < |steps| && PublishedAt(states, steps, i, m)
    ensures x.id == m && DeliversAt(states, steps, i, x)
  {
    var t :| t in states[i].procs[steps[i].proc].outstanding && t.tid == steps[i].act.tid && t.claim.id == m;
    x := t.claim;
  }

  /** What is known of a delivery when it happens: the instance is genuine and delivered for the first time. */
  lemma DeliveryFacts(s: System, p: nat, a: Act, x: Claimed)
    requires Inv(s) && DeliveryInv(s) && p in s.procs && ActEnabled(s.procs[p], a) && x in Deliveries(s.procs[p], a)
    ensures Genuine(s.calls, x) && x !in s.delivered
  {
    var d := s.procs[p];
    assert ProcInv(p, d, s.calls, s.delivered) && Unpublished(d, s.delivered) && GenuineBooks(d, s.calls);
    NewDelivery(d, a, x);
    InFlightReceived(p, d, s.calls, x);
    var t :| t in d.outstanding && t.tid == a.tid && t.claim == x;
    var running :| running in d.outstanding && running.tid == a.tid && running.status.Publishing?;
    SameTask(d.outstanding, t, running);
  }

  lemma DeliveredAtFacts(states: seq<System>, steps: seq<Step>, i: nat, x: Claimed)
    requires Run(states, steps) && i < |steps| && DeliversAt(states, steps, i, x)
    ensures Genuine(states[i].calls, x) && x !in states[i].delivered && x in states[i + 1].delivered
  {
    Reachable(states, steps, i);
    DeliveryHolds(states, steps, i);
    assert Moves(states, steps, i);
    DeliveryFacts(states[i], steps[i].proc, steps[i].act, x);
  }

  lemma WithdrawnStep(s: System, e: Step, c: nat, z: Claimed)
    requires CanStep(s, e) && AllOutOfFlight(s.procs, s.calls, s.delivered)
    requires c in s.calls && z in Withdrawn(s.calls[c].request) && z in After(s, e).delivered
    ensures z in s.delivered
  {
    assert OutOfFlight(s.calls[c].request, s.procs, s.calls, s.delivered);
    if z !in s.delivered {
      assert NobodyFlies(s.procs, z);
      NewDelivery(s.procs[e.proc], e.act, z);
    }
  }

  /** What is withdrawn is not delivered afterwards. */
  lemma {:induction false} WithdrawnBefore(states: seq<System>, steps: seq<Step>, e: nat, k: nat, c: nat, z: Claimed)
    requires Run(states, steps) && e <= k <= |steps|
    requires c in states[e].calls && z in Withdrawn(states[e].calls[c].request) && z in states[k].delivered
    ensures z in states[e].delivered
  {
    if e < k {
      CallsGrowOver(states, steps, e, k - 1);
      DeliveryHolds(states, steps, k - 1);
      assert Moves(states, steps, k - 1);
      WithdrawnStep(states[k - 1], steps[k - 1], c, z);
      WithdrawnBefore(states, steps, e, k - 1, c, z);
    }
  }

  /** A delivered instance that was withdrawn was released, and delivered before that. */
  lemma WithdrawnWasReleased(states: seq<System>, steps: seq<Step>, e: nat, k: nat, z: Claimed)
    requires Run(states, steps) && e <= k <= |steps| && e < |steps|
    requires Withdraws(states[e], steps[e], z) && z in states[k].delivered
    ensures ReleasedUnseen(states[e], steps[e], z)
  {
    var c := steps[e].call;
    WithdrawnBefore(states, steps, e, k, c, z);
    DeliveryHolds(states, steps, e);
    assert OutOfFlight(states[e].calls[c].request, states[e].procs, states[e].calls, states[e].delivered);
  }

  // ---------------------------------------------------------------- the theorem

  lemma MoveLosesLease(states: seq<System>, steps: seq<Step>, e: nat, z: Claimed)
    requires Run(states, steps) && e < |steps| && Genuine(states[e].calls, z)
    requires Current(states[e].db, z) && !Current(states[e + 1].db, z)
    ensures Hits(states[e], steps[e], z)
    ensures PublishedIn(states[e + 1].db, z.id) || Lapsed(states[e], steps[e], z) || Misdirected(states[e], steps[e], z)
              || Withdraws(states[e], steps[e], z)
  {
    ReachableTable(states, steps, e);
    DeliveryHolds(states, steps, e);
    assert Moves(states, steps, e);
    HowLeasesEnd(states[e], steps[e], z);
  }

  lemma ClaimedIsUnpublished(states: seq<System>, steps: seq<Step>, e: nat, b: nat, z: Claimed)
    requires Run(states, steps) && e <= b < |steps| && ClaimedAt(states, steps, b, z)
    ensures !PublishedIn(states[e + 1].db, z.id)
  {
    ReachableTable(states, steps, b + 1);
    assert WellFormedRow(states[b + 1].db.rows[z.id]);
    if PublishedIn(states[e + 1].db, z.id) {
      PublishedStaysPublished(states, steps, e + 1, b + 1, z.id);
    }
  }

  /** Between two claims of a row, the lease under the first is lost, if the first is ever delivered. */
  lemma LostBetween(states: seq<System>, steps: seq<Step>, a: nat, b: nat, k: nat, first: Claimed, second: Claimed)
    returns (e: nat)
    requires Run(states, steps) && a < b < k <= |steps| && first.id == second.id && first.call != second.call
    requires ClaimedAt(states, steps, a, first) && ClaimedAt(states, steps, b, second)
    requires first in states[k].delivered
    ensures a < e <= b && LosesLease(states[e], steps[e], first)
  {
    e := LeaseEnds(states, a + 1, b + 1, first);
    CallsGrowOver(states, steps, a + 1, e);
    MoveLosesLease(states, steps, e, first);
    ClaimedIsUnpublished(states, steps, e, b, second);
    if Withdraws(states[e], steps[e], first) {
      WithdrawnWasReleased(states, steps, e, k, first);
    }
  }

  /** From its delivery on an instance is genuine and delivered. */
  lemma DeliveredFromThen(states: seq<System>, steps: seq<Step>, i: nat, k: nat, x: Claimed)
    requires Run(states, steps) && i < k <= |steps| && DeliversAt(states, steps, i, x)
    ensures Genuine(states[k].calls, x) && x in states[k].delivered
  {
    DeliveredAtFacts(states, steps, i, x);
    CallsGrowOver(states, steps, i, k);
    CallsGrowOver(states, steps, i + 1, k);
  }

  lemma BatchesHold(states: seq<System>, steps: seq<Step>, k: nat)
    requires Run(states, steps) && k <= |steps|
    ensures BatchesOk(states[k].calls, states[k].db)
  {
    DeliveryHolds(states, steps, k);
  }

  /** Two deliveries are of two instances, from two claims. */
  lemma TwoDeliveries(states: seq<System>, steps: seq<Step>, i: nat, k: nat, x: Claimed, y: Claimed)
    requires Run(states, steps) && i < k < |steps| && x.id == y.id
    requires DeliversAt(states, steps, i, x) && DeliversAt(states, steps, k, y)
    ensures x != y && x.call != y.call && Genuine(states[k].calls, x) && Genuine(states[k].calls, y)
  {
    DeliveredFromThen(states, steps, i, k, x);
    DeliveredAtFacts(states, steps, k, y);
    BatchesHold(states, steps, k);
    TwoInstancesTwoCalls(states[k].calls, states[k].db, x, y);
  }

  /** A message delivered twice was claimed twice, and between the two claims the lease of the first was
      lost: it lapsed, or a write for another instance closed it, or a shutdown released it after it had
      been delivered, the success unseen. In a run without such a step no message is delivered twice. */
  lemma TwiceOnlyAfterLostLease(states: seq<System>, steps: seq<Step>, i: nat, k: nat, m: MessageId)
    returns (first: Claimed, second: Claimed, a: nat, e: nat, b: nat)
    requires Run(states, steps) && i < k < |steps|
    requires PublishedAt(states, steps, i, m) && PublishedAt(states, steps, k, m)
    ensures first.id == m && second.id == m && first != second
    ensures (DeliversAt(states, steps, i, first) && DeliversAt(states, steps, k, second))
              || (DeliversAt(states, steps, k, first) && DeliversAt(states, steps, i, second))
    ensures a < e <= b < k && ClaimedAt(states, steps, a, first) && ClaimedAt(states, steps, b, second)
    ensures LosesLease(states[e], steps[e], first)
  {
    var x := PublishDelivers(states, steps, i, m);
    var y := PublishDelivers(states, steps, k, m);
    TwoDeliveries(states, steps, i, k, x, y);
    DeliveredFromThen(states, steps, i, k + 1, x);
    DeliveredFromThen(states, steps, k, k + 1, y);
    var ax := WasClaimed(states, steps, k, x);
    var ay := WasClaimed(states, steps, k, y);
    if ax < ay {
      first, second, a, b := x, y, ax, ay;
    } else {
      first, second, a, b := y, x, ay, ax;
    }
    e := LostBetween(states, steps, a, b, k + 1, first, second);
  }

  /** Every `fail` and `release` that ends a lease was issued for the claim it ends. */
  ghost predicate OwnWrites(states: seq<System>, steps: seq<Step>) {
    |states| == |steps| + 1 &&
    forall j: nat, z: Claimed | j < |steps| && Current(states[j].db, z) :: !Misdirected(states[j], steps[j], z)
  }

  /** Then the documented windows are all there are: a lease that lapsed, or a release at the end of a drain
      of an instance delivered by then, the success unseen. */
  lemma DocumentedWindows(states: seq<System>, steps: seq<Step>, i: nat, k: nat, m: MessageId)
    returns (first: Claimed, e: nat)
    requires Run(states, steps) && OwnWrites(states, steps) && i < k < |steps|
    requires PublishedAt(states, steps, i, m) && PublishedAt(states, steps, k, m)
    ensures e < k && first.id == m && Current(states[e].db, first)
    ensures Lapsed(states[e], steps[e], first) || ReleasedUnseen(states[e], steps[e], first)
  {
    var second, a, b;
    first, second, a, e, b := TwiceOnlyAfterLostLease(states, steps, i, k, m);
  }
}
