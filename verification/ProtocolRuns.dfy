/** What the invariant says about whole runs of the composed system. */
module ProtocolRuns {
  import opened Basics
  import opened DispatcherState
  import opened OutboxTable
  import opened Protocol
  import opened ProtocolSafety
  import TableRuns

  ghost predicate Moves(states: seq<System>, steps: seq<Step>, i: nat)
    requires i < |steps| && |states| == |steps| + 1
  {
    CanStep(states[i], steps[i]) && states[i + 1] == After(states[i], steps[i])
  }

  ghost predicate Run(states: seq<System>, steps: seq<Step>) {
    && |states| == |steps| + 1
    && states[0] == INITIAL
    && forall i: nat | i < |steps| :: Moves(states, steps, i)
  }

  lemma {:induction false} Reachable(states: seq<System>, steps: seq<Step>, k: nat)
    requires Run(states, steps) && k <= |steps|
    ensures Inv(states[k])
  {
    if k > 0 {
      Reachable(states, steps, k - 1);
      assert Moves(states, steps, k - 1);
      StepKeepsInv(states[k - 1], steps[k - 1]);
    }
  }

  lemma ReachableTable(states: seq<System>, steps: seq<Step>, k: nat)
    requires Run(states, steps) && k <= |steps|
    ensures Valid(states[k].db)
  {
    Reachable(states, steps, k);
  }

  // ---------------------------------------------------------------- at least once, never before once

  /** At step `i` a publish task for message `m` returned Ok. */
  ghost predicate PublishedAt(states: seq<System>, steps: seq<Step>, i: nat, m: MessageId)
    requires i < |steps| && |states| == |steps| + 1
  {
    && steps[i].Local? && steps[i].act.TaskResolve? && steps[i].act.outcome.PublishedOk?
    && steps[i].proc in states[i].procs
    && exists t :: t in states[i].procs[steps[i].proc].outstanding && t.tid == steps[i].act.tid && t.claim.id == m
  }

  lemma {:induction false} DeliveriesHappened(states: seq<System>, steps: seq<Step>, k: nat, x: Claimed)
    requires Run(states, steps) && k <= |steps| && x in states[k].delivered
    ensures exists i: nat :: i < k && PublishedAt(states, steps, i, x.id)
  {
    assert k > 0;
    assert Moves(states, steps, k - 1);
    if x in states[k - 1].delivered {
      DeliveriesHappened(states, steps, k - 1, x);
    } else {
      assert PublishedAt(states, steps, k - 1, x.id);
    }
  }

  /** A row is marked published only if some publish task for that very message returned Ok
      earlier - in every interleaving, with crashes, lost replies, late commits and takeovers. */
  lemma PublishedOnlyAfterDelivery(states: seq<System>, steps: seq<Step>, k: nat, m: MessageId)
    requires Run(states, steps) && k <= |steps|
    requires m in states[k].db.rows && states[k].db.rows[m].publishedAt.Some?
    ensures exists i: nat :: i < k && PublishedAt(states, steps, i, m)
  {
    Reachable(states, steps, k);
    assert WasDelivered(m, states[k].delivered);
    var x :| x in states[k].delivered && x.id == m;
    DeliveriesHappened(states, steps, k, x);
  }

  // ---------------------------------------------------------------- the ledger

  /** Every claim instance a dispatcher received is in exactly one place, and one observed to have
      been published is never among the released, failed or panicked. */
  lemma EveryInstanceInOnePlace(states: seq<System>, steps: seq<Step>, k: nat, p: nat, x: Claimed)
    requires Run(states, steps) && k <= |steps| && p in states[k].procs && x in states[k].procs[p].ledger.received
    ensures var d := states[k].procs[p];
            && Tracked(d, x) + Settled(d.ledger, x) == 1
            && d.ledger.observedOk[x] == PublishedPlaces(d, x)
            && (x in d.ledger.observedOk ==>
                x !in d.ledger.released && x !in d.ledger.failed && x !in d.ledger.panicked)
  {
    Reachable(states, steps, k);
    var d := states[k].procs[p];
    assert ProcInv(p, d, states[k].calls, states[k].delivered);
    if x in d.ledger.observedOk {
      PublishedNeverReleased(d, x);
    }
  }

  /** Nobody alive has received `x`. */
  ghost predicate NobodyHas(s: System, x: Claimed) {
    forall p | p in s.procs :: x !in s.procs[p].ledger.received
  }

  /** Two dispatchers alive at once never have the same instance. */
  lemma OneOwnerNow(s: System, p: nat, q: nat, x: Claimed)
    requires Inv(s) && p in s.procs && q in s.procs
    requires x in s.procs[p].ledger.received && x in s.procs[q].ledger.received
    ensures p == q
  {
    assert ProcInv(p, s.procs[p], s.calls, s.delivered) && ProcInv(q, s.procs[q], s.calls, s.delivered);
  }

  /** Only the reply to the unanswered call that made an instance hands it out. */
  lemma ReplyHandsOut(d: Dispatcher, call: Call, x: Claimed)
    requires x in Replied(d, call).ledger.received && x !in d.ledger.received
    ensures call.request.AcquireReq? && x in Batch(call.batch)
  {
  }

  lemma {:induction false} BatchMember(batch: seq<Claimed>, x: Claimed)
    requires x in Batch(batch)
    ensures x in batch
  {
    if batch != [] && x != batch[0] {
      BatchMember(batch[1..], x);
    }
  }

  ghost predicate Answered(s: System, x: Claimed) {
    x.call in s.calls && s.calls[x.call].answered
  }

  /** An answered call stays answered. */
  lemma AnsweredStays(s: System, e: Step, x: Claimed)
    requires CanStep(s, e) && Answered(s, x)
    ensures Answered(After(s, e), x)
  {
  }

  /** What a dispatcher has received after a step it had before, or just got by a reply. */
  lemma ReceivedAfter(s: System, e: Step, p: nat, x: Claimed)
    requires CanStep(s, e) && p in After(s, e).procs && x in After(s, e).procs[p].ledger.received
    ensures
      || (p in s.procs && x in s.procs[p].ledger.received && e != Crash(p))
      || (e == Local(p, ReplyOk) && p in s.procs && s.procs[p].waiting.Some? && s.procs[p].waiting.value in s.calls
          && x in Batch(s.calls[s.procs[p].waiting.value].batch))
  {
    if e.Local? && e.proc == p && e.act.ReplyOk? && x !in s.procs[p].ledger.received {
      ReplyHandsOut(s.procs[p], s.calls[s.procs[p].waiting.value], x);
    } else if e.Local? && e.proc == p && !e.act.ReplyOk? {
      ActedFrame(s.procs[p], e.act);
    }
  }

  /** An instance whose call was answered, and which nobody alive has, is never handed out again. */
  lemma NeverAgainStep(s: System, e: Step, x: Claimed)
    requires Inv(s) && CanStep(s, e) && Answered(s, x) && NobodyHas(s, x)
    ensures NobodyHas(After(s, e), x)
  {
    forall p | p in After(s, e).procs ensures x !in After(s, e).procs[p].ledger.received {
      if x in After(s, e).procs[p].ledger.received {
        ReceivedAfter(s, e, p, x);
        var c := s.procs[p].waiting.value;
        assert ProcInv(p, s.procs[p], s.calls, s.delivered) && CallOk(c, s.calls[c], s.delivered);
        BatchMember(s.calls[c].batch, x);
        assert false;
      }
    }
  }

  predicate Has(s: System, p: nat, x: Claimed) {
    p in s.procs && x in s.procs[p].ledger.received
  }

  lemma OthersLack(s: System, p: nat, x: Claimed)
    requires Inv(s) && Has(s, p, x)
    ensures NobodyHas(s.(procs := s.procs - {p}), x)
  {
    forall q | q in s.procs && q != p ensures x !in s.procs[q].ledger.received {
      if x in s.procs[q].ledger.received {
        OneOwnerNow(s, p, q, x);
      }
    }
  }

  lemma ReplyKeepsReceived(d: Dispatcher, call: Call, x: Claimed)
    requires x in d.ledger.received
    ensures x in Replied(d, call).ledger.received
  {
  }

  /** What a dispatcher has received it keeps until it crashes. */
  lemma HasStep(s: System, e: Step, p: nat, x: Claimed)
    requires CanStep(s, e) && Has(s, p, x) && e != Crash(p)
    ensures Has(After(s, e), p, x)
  {
    if e.Local? && e.proc == p {
      if e.act.ReplyOk? {
        ReplyKeepsReceived(s.procs[p], s.calls[s.procs[p].waiting.value], x);
      } else {
        ActedFrame(s.procs[p], e.act);
      }
    }
  }

  /** And then nobody has it. */
  lemma OwnedStep(s: System, e: Step, p: nat, x: Claimed)
    requires Inv(s) && CanStep(s, e) && Answered(s, x) && (NobodyHas(s, x) || Has(s, p, x))
    ensures NobodyHas(After(s, e), x) || (!NobodyHas(s, x) && e != Crash(p) && Has(After(s, e), p, x))
  {
    if NobodyHas(s, x) {
      NeverAgainStep(s, e, x);
    } else if e == Crash(p) {
      OthersLack(s, p, x);
    } else {
      HasStep(s, e, p, x);
    }
  }

  /** From the moment `p` has received `x`, `p` has it without a crash, or nobody has it. */
  ghost predicate OwnedOrGone(states: seq<System>, steps: seq<Step>, i: nat, k: nat, p: nat, x: Claimed)
    requires |states| == |steps| + 1 && i <= k <= |steps|
  {
    && Answered(states[k], x)
    && (NobodyHas(states[k], x) || (Has(states[k], p, x) && NoCrash(steps, i, k, p)))
  }

  predicate NoCrash(steps: seq<Step>, i: nat, k: nat, p: nat)
    requires i <= k <= |steps|
  {
    forall j | i <= j < k :: steps[j] != Crash(p)
  }

  lemma NoCrashMore(steps: seq<Step>, i: nat, k: nat, p: nat)
    requires i < k <= |steps| && NoCrash(steps, i, k - 1, p) && steps[k - 1] != Crash(p)
    ensures NoCrash(steps, i, k, p)
  {
  }

  lemma OwnedOrGoneStep(states: seq<System>, steps: seq<Step>, i: nat, k: nat, p: nat, x: Claimed)
    requires |states| == |steps| + 1 && i < k <= |steps| && Inv(states[k - 1])
    requires Moves(states, steps, k - 1) && OwnedOrGone(states, steps, i, k - 1, p, x)
    ensures OwnedOrGone(states, steps, i, k, p, x)
  {
    var s, e, s' := states[k - 1], steps[k - 1], states[k];
    assert CanStep(s, e) && s' == After(s, e);
    AnsweredStays(s, e, x);
    OwnedStep(s, e, p, x);
    if !NobodyHas(s', x) {
      NoCrashMore(steps, i, k, p);
    }
  }

  lemma {:induction false} OwnedOrGoneHolds(states: seq<System>, steps: seq<Step>, i: nat, k: nat, p: nat, x: Claimed)
    requires Run(states, steps) && i <= k <= |steps|
    requires Has(states[i], p, x)
    ensures OwnedOrGone(states, steps, i, k, p, x)
  {
    if i == k {
      Reachable(states, steps, i);
      assert ProcInv(p, states[i].procs[p], states[i].calls, states[i].delivered);
    } else {
      OwnedOrGoneHolds(states, steps, i, k - 1, p, x);
      Reachable(states, steps, k - 1);
      assert Moves(states, steps, k - 1);
      OwnedOrGoneStep(states, steps, i, k, p, x);
    }
  }

  /** A claim instance is received once in a run's whole history: whoever has it at one moment and
      whoever has it at a later one are the same dispatcher, which has not crashed in between. */
  lemma OneOwner(states: seq<System>, steps: seq<Step>, i: nat, k: nat, p: nat, q: nat, x: Claimed)
    requires Run(states, steps) && i <= k <= |steps|
    requires Has(states[i], p, x) && Has(states[k], q, x)
    ensures p == q && NoCrash(steps, i, k, p)
  {
    OwnedOrGoneHolds(states, steps, i, k, p, x);
    Reachable(states, steps, k);
    OneOwnerNow(states[k], p, q, x);
  }

  // ---------------------------------------------------------------- backpressure

  /** A dispatcher never holds more than `max_in_flight` rows, however replies, expiries and
      shutdowns fall, and leaves nothing pending between two steps. */
  lemma Backpressure(states: seq<System>, steps: seq<Step>, k: nat, p: nat)
    requires Run(states, steps) && k <= |steps| && p in states[k].procs
    ensures states[k].procs[p].pending == [] && Load(states[k].procs[p]) <= states[k].procs[p].settings.maxInFlight
  {
    Reachable(states, steps, k);
    assert ProcInv(p, states[k].procs[p], states[k].calls, states[k].delivered);
  }

  lemma {:induction false} PermitsConcat(a: seq<Task>, b: seq<Task>)
    ensures Permits(a + b) == Permits(a) + Permits(b)
  {
    if a == [] {
      assert a + b == b;
    } else {
      assert (a + b)[1..] == a[1..] + b;
      PermitsConcat(a[1..], b);
    }
  }

  lemma {:induction false} SpawnedHoldNoPermit(claims: seq<Claimed>, first: nat)
    ensures Permits(Spawned(claims, first)) == 0
  {
    if claims != [] {
      assert Spawned(claims, first)[1..] == Spawned(claims[1..], first + 1);
      SpawnedHoldNoPermit(claims[1..], first + 1);
    }
  }

  lemma {:induction false} FewerPermits(ts: seq<Task>, tid: nat)
    ensures Permits(Remove(ts, tid)) <= Permits(ts) && Permits(Started(ts)) == Permits(ts)
  {
    if ts != [] {
      FewerPermits(ts[1..], tid);
      if ts[0].tid != tid {
        assert Remove(ts, tid)[1..] == Remove(ts[1..], tid);
      }
      if !ts[0].status.Queued? {
        assert Started(ts)[1..] == Started(ts[1..]);
      }
    }
  }

  lemma {:induction false} StatusPermits(ts: seq<Task>, tid: nat, status: TaskStatus)
    requires UniqueTids(ts)
    ensures Permits(WithStatus(ts, tid, status)) <= Permits(ts) + if status.Publishing? then 1 else 0
    ensures (forall t | t in ts :: t.tid != tid) ==> WithStatus(ts, tid, status) == ts
  {
    if ts != [] {
      assert WithStatus(ts, tid, status)[1..] == WithStatus(ts[1..], tid, status);
      StatusPermits(ts[1..], tid, status);
    }
  }

  lemma {:induction false} RecordPermits(d: Dispatcher, results: seq<Joined>)
    ensures Permits(RecordAll(d, results).outstanding) <= Permits(d.outstanding)
  {
    if results != [] {
      var before := results[..|results| - 1];
      RecordPermits(d, before);
      FewerPermits(RecordAll(d, before).outstanding, results[|results| - 1].tid);
    }
  }

  lemma StepPermits(d: Dispatcher, a: Act, reply: Call)
    requires ActEnabled(d, a) && UniqueTids(d.outstanding) && Permits(d.outstanding) <= d.settings.maxInFlight
    ensures Permits((if a.ReplyOk? then Replied(d, reply) else Acted(d, a)).outstanding) <= d.settings.maxInFlight
  {
    match a
    case ReplyOk =>
      PermitsConcat(d.outstanding, Spawned(d.pending + reply.batch, d.nextTask));
      SpawnedHoldNoPermit(d.pending + reply.batch, d.nextTask);
    case TaskStart(tid) => StatusPermits(d.outstanding, tid, Publishing);
    case TaskResolve(tid, outcome) => StatusPermits(d.outstanding, tid, Resolved(outcome));
    case Join(results) => RecordPermits(d, results);
    case Cancel(_) => FewerPermits(d.outstanding, 0);
    case _ =>
  }

  /** A dispatcher on its own: `replies[i]` is what the store answers at step `i`, with any batch. */
  ghost predicate Alone(ds: seq<Dispatcher>, acts: seq<Act>, replies: seq<Call>, i: nat)
    requires |ds| == |acts| + 1 && |replies| == |acts| && i < |acts|
  {
    && ActEnabled(ds[i], acts[i])
    && ds[i + 1] == if acts[i].ReplyOk? then Replied(ds[i], replies[i]) else Acted(ds[i], acts[i])
  }

  lemma AloneStep(d: Dispatcher, a: Act, reply: Call)
    requires ProcOk(d) && ActEnabled(d, a) && Permits(d.outstanding) <= d.settings.maxInFlight
    ensures var d' := if a.ReplyOk? then Replied(d, reply) else Acted(d, a);
            ProcOk(d') && d'.settings == d.settings && Permits(d'.outstanding) <= d.settings.maxInFlight
  {
    StepPermits(d, a, reply);
    if a.ReplyOk? {
      RepliedKeepsProc(d, reply);
    } else {
      ActedKeepsProc(d, a);
      ActedFrame(d, a);
    }
  }

  /** At most `max_in_flight` tasks publish at once, at every moment of every run of a dispatcher against
      a store that may hand back anything - even batches larger than asked for. */
  lemma {:induction false} PermitsBounded(ds: seq<Dispatcher>, acts: seq<Act>, replies: seq<Call>, k: nat)
    requires |ds| == |acts| + 1 && |replies| == |acts| && k <= |acts|
    requires ProcOk(ds[0]) && ds[0].outstanding == [] && forall i: nat | i < |acts| :: Alone(ds, acts, replies, i)
    ensures ProcOk(ds[k]) && ds[k].settings == ds[0].settings
    ensures Permits(ds[k].outstanding) <= ds[0].settings.maxInFlight
  {
    if k > 0 {
      PermitsBounded(ds, acts, replies, k - 1);
      assert Alone(ds, acts, replies, k - 1);
      AloneStep(ds[k - 1], acts[k - 1], replies[k - 1]);
    }
  }

  // ---------------------------------------------------------------- down to the table

  /** The statement a step executes, if any. */
  function StatementOf(s: System, e: Step): Option<Stmt>
    requires CanStep(s, e)
  {
    match e
    case Outside(st) => Some(st)
    case Commit(c, _, _, _, _, _) => Some(NextStmt(c, s.calls[c], e))
    case _ => None
  }

  /** Step `i` is statement `at[i]` of the table's run, or no statement at all. */
  ghost predicate Follows(states: seq<System>, steps: seq<Step>, i: nat, sts: seq<Stmt>, at: seq<nat>)
    requires |states| == |steps| + 1 && i < |steps| && i + 1 < |at|
  {
    && Moves(states, steps, i)
    && match StatementOf(states[i], steps[i])
       case None => at[i + 1] == at[i]
       case Some(st) => at[i + 1] == at[i] + 1 && at[i] < |sts| && sts[at[i]] == st
  }

  /** The table run `(dbs, sts)` is what the first `k` steps do to the table: state `i` has the table
      `dbs[at[i]]`, and every step's statement is there, in order. */
  ghost predicate Projects(states: seq<System>, steps: seq<Step>, k: nat, dbs: seq<Db>, sts: seq<Stmt>, at: seq<nat>)
    requires |states| == |steps| + 1 && k <= |steps|
  {
    && TableRuns.Run(dbs, sts)
    && |at| == k + 1 && at[0] == 0 && at[k] == |sts|
    && (forall i | 0 <= i <= k :: at[i] <= |sts| && dbs[at[i]] == states[i].db)
    && (forall i | 0 <= i < k :: Follows(states, steps, i, sts, at))
  }

  lemma ProjectionGrows(states: seq<System>, steps: seq<Step>, k: nat, dbs: seq<Db>, sts: seq<Stmt>, at: seq<nat>)
    returns (dbs': seq<Db>, sts': seq<Stmt>, at': seq<nat>)
    requires |states| == |steps| + 1 && k < |steps| && Moves(states, steps, k)
    requires Projects(states, steps, k, dbs, sts, at)
    ensures Projects(states, steps, k + 1, dbs', sts', at')
  {
    TableStep(states[k], steps[k]);
    match StatementOf(states[k], steps[k]) {
      case None => dbs', sts', at' := dbs, sts, at + [|sts|];
      case Some(st) =>
        dbs', sts' := TableRuns.ExtendRun(dbs, sts, st);
        at' := at + [|sts'|];
    }
    forall i | 0 <= i < k + 1 ensures Follows(states, steps, i, sts', at') {
      if i < k {
        assert Follows(states, steps, i, sts, at);
      }
    }
  }

  /** The table's whole history under the composed system, state by state and step by step, is a run of
      table statements, so everything proved about such runs - also between two moments - holds here. */
  lemma {:induction false} TableOfRun(states: seq<System>, steps: seq<Step>, k: nat)
    returns (dbs: seq<Db>, sts: seq<Stmt>, at: seq<nat>)
    requires Run(states, steps) && k <= |steps|
    ensures Projects(states, steps, k, dbs, sts, at)
  {
    if k == 0 {
      dbs, sts, at := [EMPTY], [], [0];
    } else {
      dbs, sts, at := TableOfRun(states, steps, k - 1);
      assert Moves(states, steps, k - 1);
      dbs, sts, at := ProjectionGrows(states, steps, k - 1, dbs, sts, at);
    }
  }

  lemma {:induction false} PositionsRise(states: seq<System>, steps: seq<Step>, k: nat, dbs: seq<Db>, sts: seq<Stmt>,
                                         at: seq<nat>, i: nat, j: nat)
    requires |states| == |steps| + 1 && k <= |steps| && Projects(states, steps, k, dbs, sts, at) && i <= j <= k
    ensures at[i] <= at[j]
  {
    if i < j {
      PositionsRise(states, steps, k, dbs, sts, at, i, j - 1);
      assert Follows(states, steps, j - 1, sts, at);
    }
  }

  /** In every interleaving a published row stays as it is until it is purged past its retention; no
      dispatcher, however late its call commits, and no operator changes it. */
  lemma PublishedStaysPublished(states: seq<System>, steps: seq<Step>, i: nat, k: nat, m: MessageId)
    requires Run(states, steps) && i <= k <= |steps|
    requires m in states[i].db.rows && states[i].db.rows[m].publishedAt.Some?
    ensures m in states[k].db.rows ==> states[k].db.rows[m] == states[i].db.rows[m]
  {
    var dbs, sts, at := TableOfRun(states, steps, k);
    PositionsRise(states, steps, k, dbs, sts, at, i, k);
    TableRuns.PublishedIsFrozen(dbs, sts, at[i], at[k], m);
  }

  // ---------------------------------------------------------------- at least once

  /** At step `j` message `m` was deleted as dead. */
  ghost predicate DeletedDead(states: seq<System>, steps: seq<Step>, j: nat, m: MessageId)
    requires j < |steps| && |states| == |steps| + 1
  {
    && m in states[j].db.rows && states[j].db.rows[m].deadAt.Some? && m !in states[j + 1].db.rows
    && steps[j].Outside? && Deletes(steps[j].st)
  }

  /** What one step does to the table. */
  lemma TableStep(s: System, e: Step)
    requires CanStep(s, e)
    ensures match StatementOf(s, e)
            case None => After(s, e).db == s.db
            case Some(st) => Enabled(s.db, st) && After(s, e).db == Apply(s.db, st) && (Deletes(st) ==> e.Outside?)
  {
  }

  lemma StatementKeepsOrDeletes(db: Db, st: Stmt, m: MessageId)
    requires Enabled(db, st) && m in Apply(db, st).used && m !in Apply(db, st).rows
    ensures m in db.used
    ensures m in db.rows ==> Deletes(st) && Terminal(db.rows[m])
  {
  }

  /** At-least-once: every message ever inserted is still in the table, or was published by some task
      before, or was deleted as dead. Nothing else makes a message disappear. */
  lemma {:induction false} AtLeastOnce(states: seq<System>, steps: seq<Step>, k: nat, m: MessageId)
    requires Run(states, steps) && k <= |steps| && m in states[k].db.used
    ensures
      || m in states[k].db.rows
      || (exists i: nat :: i < k && PublishedAt(states, steps, i, m))
      || (exists j: nat :: j < k && DeletedDead(states, steps, j, m))
  {
    if k > 0 && m !in states[k].db.rows {
      DisappearsOnce(states, steps, k, m);
      if m in states[k - 1].db.rows {
        if states[k - 1].db.rows[m].publishedAt.Some? {
          PublishedOnlyAfterDelivery(states, steps, k - 1, m);
        } else {
          assert DeletedDead(states, steps, k - 1, m);
        }
      } else {
        AtLeastOnce(states, steps, k - 1, m);
      }
    }
  }

  lemma DisappearsOnce(states: seq<System>, steps: seq<Step>, k: nat, m: MessageId)
    requires Run(states, steps) && 0 < k <= |steps| && m in states[k].db.used && m !in states[k].db.rows
    ensures m in states[k - 1].db.used
    ensures m in states[k - 1].db.rows ==>
              && (states[k - 1].db.rows[m].publishedAt.Some? || states[k - 1].db.rows[m].deadAt.Some?)
              && steps[k - 1].Outside? && Deletes(steps[k - 1].st)
  {
    assert Moves(states, steps, k - 1);
    TableStep(states[k - 1], steps[k - 1]);
    match StatementOf(states[k - 1], steps[k - 1])
    case None =>
    case Some(st) => StatementKeepsOrDeletes(states[k - 1].db, st, m);
  }
}
