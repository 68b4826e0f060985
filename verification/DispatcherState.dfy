/** The dispatcher's bookkeeping, as values: what it tracks, and the effect of each helper of the
    worker loop on it. Every function comes with the conservation law it obeys: a claim instance
    moves between places, and is never duplicated or forgotten. */
module DispatcherState {
  import opened Basics
  import opened Backoff

  /** One claim instance handed to a dispatcher: the acquire call that produced it, the row, and
      the row's `attempts` at the claim. Two claims of one row are two instances. */
  datatype Claimed = Claimed(call: nat, id: MessageId, attempts: nat)

  datatype TaskStatus = Queued | Publishing | Resolved(outcome: TaskOutcome)

  /** What a publish task ends with: `publish_one`'s verdict, or a panic. */
  datatype TaskOutcome = PublishedOk | PublishFailed(kind: FailureKind) | TaskPanicked

  datatype Task = Task(tid: nat, claim: Claimed, status: TaskStatus)

  datatype Stamped<T> = Stamped(since: Time, item: T)

  datatype FailedMessage = FailedMessage(claim: Claimed, outcome: FailureOutcome)

  /** One entry of the batch `record_publish_results` consumes: the verdict carried by a publish task
      itself, or a join error that carries only a task id. */
  datatype Joined = Done(tid: nat, claim: Claimed, verdict: Verdict) | JoinFailed(tid: nat)

  datatype Verdict = Published | Failed(outcome: FailureOutcome)

  datatype Settings = Settings(
    maxInFlight: nat,
    batchSize: nat,
    lease: nat,
    storeTimeout: nat,
    publishTimeout: nat,
    pollInterval: nat,
    idlePollInterval: nat,
    perKeyOrdering: bool)

  datatype ConfigError =
    | ZeroInFlight | ZeroBatchSize | ZeroPollInterval | UnsupportedOrdering | LeaseTooShort | StoreTimeoutTooLong

  function ValidateShared(s: Settings): Option<ConfigError> {
    if s.maxInFlight == 0 then Some(ZeroInFlight)
    else if s.batchSize == 0 then Some(ZeroBatchSize)
    else if s.pollInterval == 0 || s.idlePollInterval == 0 then Some(ZeroPollInterval)
    else if s.perKeyOrdering then Some(UnsupportedOrdering)
    else if s.lease <= s.publishTimeout then Some(LeaseTooShort)
    else if s.storeTimeout >= s.lease / 2 then Some(StoreTimeoutTooLong)
    else None
  }

  /** What is accepted: room for a row, a batch to ask for, intervals to wait, no ordering, a lease that
      outlives a publish, and a store timeout of less than half of it. */
  lemma ValidateSharedExactly(s: Settings)
    ensures ValidateShared(s) == None <==>
              && s.maxInFlight > 0 && s.batchSize > 0 && s.pollInterval > 0 && s.idlePollInterval > 0
              && !s.perKeyOrdering && s.publishTimeout < s.lease && s.storeTimeout < s.lease / 2
    ensures match ValidateShared(s)
            case None => true
            case Some(ZeroInFlight) => s.maxInFlight == 0
            case Some(ZeroBatchSize) => s.batchSize == 0
            case Some(ZeroPollInterval) => s.pollInterval == 0 || s.idlePollInterval == 0
            case Some(UnsupportedOrdering) => s.perKeyOrdering
            case Some(LeaseTooShort) => s.lease <= s.publishTimeout
            case Some(StoreTimeoutTooLong) => s.storeTimeout >= s.lease / 2
  {
  }

  /** Where claim instances end up. History only: the program keeps none of these. */
  datatype Ledger = Ledger(
    received: multiset<Claimed>,
    observedOk: multiset<Claimed>,        // joined with a successful publish
    completed: multiset<Claimed>,         // acknowledged by an Ok `complete`
    failed: multiset<Claimed>,            // acknowledged by an Ok `fail`
    gaveUpComplete: multiset<Claimed>,    // `complete` abandoned past the lease
    gaveUpFail: multiset<Claimed>,        // `fail` abandoned past the lease
    panicked: multiset<Claimed>,          // dropped after a panic
    released: multiset<Claimed>,          // handed to `release` at shutdown
    leftToLease: multiset<Claimed>)       // published, unwritten, left to its lease at shutdown

  const NO_LEDGER := Ledger(multiset{}, multiset{}, multiset{}, multiset{}, multiset{}, multiset{}, multiset{},
      multiset{}, multiset{})

  datatype Phase = Running | Draining | Stopped

  datatype Dispatcher = Dispatcher(
    worker: WorkerId,
    settings: Settings,
    policy: Option<ExponentialBackoff>,   // None: a custom policy, which may decide anything
    phase: Phase,
    now: Time,
    waiting: Option<nat>,                 // the store call being awaited
    pending: seq<Claimed>,
    outstanding: seq<Task>,
    unwrittenComplete: seq<Stamped<Claimed>>,
    unwrittenFail: seq<Stamped<FailedMessage>>,
    nextTask: nat,
    ledger: Ledger)

  /** The rows this worker still holds: `outstanding_count` of the worker loop. */
  function Load(d: Dispatcher): nat {
    |d.outstanding| + |d.unwrittenComplete| + |d.unwrittenFail|
  }

  // ---------------------------------------------------------------- bags of claim instances

  function Bag<T>(s: seq<T>, claim: T -> Claimed): multiset<Claimed> {
    if s == [] then multiset{} else multiset{claim(s[0])} + Bag(s[1..], claim)
  }

  function ItemClaim(c: Claimed): Claimed { c }
  function TaskClaim(t: Task): Claimed { t.claim }
  function CompleteClaim(s: Stamped<Claimed>): Claimed { s.item }
  function FailClaim(s: Stamped<FailedMessage>): Claimed { s.item.claim }

  function Batch(s: seq<Claimed>): multiset<Claimed> { Bag(s, ItemClaim) }
  function Tasks(s: seq<Task>): multiset<Claimed> { Bag(s, TaskClaim) }
  function Completes(s: seq<Stamped<Claimed>>): multiset<Claimed> { Bag(s, CompleteClaim) }
  function Fails(s: seq<Stamped<FailedMessage>>): multiset<Claimed> { Bag(s, FailClaim) }

  lemma {:induction false} BagConcat<T>(a: seq<T>, b: seq<T>, claim: T -> Claimed)
    ensures Bag(a + b, claim) == Bag(a, claim) + Bag(b, claim)
  {
    if a == [] {
      assert a + b == b;
    } else {
      assert (a + b)[1..] == a[1..] + b;
      BagConcat(a[1..], b, claim);
    }
  }

  lemma BagAppend<T>(s: seq<T>, x: T, claim: T -> Claimed)
    ensures Bag(s + [x], claim) == Bag(s, claim) + multiset{claim(x)}
  {
    BagConcat(s, [x], claim);
  }

  lemma {:induction false} BagMember<T>(s: seq<T>, claim: T -> Claimed, i: nat)
    requires i < |s|
    ensures claim(s[i]) in Bag(s, claim)
  {
    if i > 0 {
      BagMember(s[1..], claim, i - 1);
    }
  }

  // ---------------------------------------------------------------- tracked tasks

  ghost predicate UniqueTids(ts: seq<Task>) {
    ts == [] || ((forall t | t in ts[1..] :: t.tid != ts[0].tid) && UniqueTids(ts[1..]))
  }

  function Remove(ts: seq<Task>, tid: nat): seq<Task> {
    if ts == [] then [] else if ts[0].tid == tid then Remove(ts[1..], tid) else [ts[0]] + Remove(ts[1..], tid)
  }

  lemma {:induction false} RemoveMembers(ts: seq<Task>, tid: nat)
    ensures forall t :: t in Remove(ts, tid) <==> t in ts && t.tid != tid
    ensures (forall t | t in ts :: t.tid != tid) ==> Remove(ts, tid) == ts
  {
    if ts != [] {
      RemoveMembers(ts[1..], tid);
      assert ts == [ts[0]] + ts[1..];
    }
  }

  /** Removing a task takes exactly its own claim instance out of the table. */
  lemma {:induction false} RemoveTask(ts: seq<Task>, t: Task)
    requires UniqueTids(ts) && t in ts
    ensures Tasks(ts) == Tasks(Remove(ts, t.tid)) + multiset{t.claim}
    ensures |Remove(ts, t.tid)| == |ts| - 1
  {
    RemoveMembers(ts[1..], t.tid);
    if ts[0] != t {
      assert t in ts[1..];
      RemoveTask(ts[1..], t);
      assert Remove(ts, t.tid)[1..] == Remove(ts[1..], t.tid);
    }
  }

  lemma {:induction false} RemoveUnique(ts: seq<Task>, tid: nat)
    requires UniqueTids(ts)
    ensures UniqueTids(Remove(ts, tid)) && |Remove(ts, tid)| <= |ts|
  {
    if ts != [] {
      RemoveUnique(ts[1..], tid);
      RemoveMembers(ts[1..], tid);
      if ts[0].tid != tid {
        assert Remove(ts, tid)[1..] == Remove(ts[1..], tid);
      }
    }
  }

  lemma {:induction false} UniqueConcat(a: seq<Task>, b: seq<Task>)
    requires UniqueTids(a) && UniqueTids(b) && forall s, t | s in a && t in b :: s.tid != t.tid
    ensures UniqueTids(a + b)
  {
    if a == [] {
      assert a + b == b;
    } else {
      assert (a + b)[1..] == a[1..] + b;
      UniqueConcat(a[1..], b);
    }
  }

  // ---------------------------------------------------------------- spawn_ready

  function Spawned(claims: seq<Claimed>, first: nat): seq<Task> {
    seq(|claims|, i requires 0 <= i < |claims| => Task(first + i, claims[i], Queued))
  }

  function SpawnReady(d: Dispatcher): Dispatcher {
    d.(pending := [], outstanding := d.outstanding + Spawned(d.pending, d.nextTask),
        nextTask := d.nextTask + |d.pending|)
  }

  lemma {:induction false} SpawnedBag(claims: seq<Claimed>, first: nat)
    ensures Tasks(Spawned(claims, first)) == Batch(claims)
    ensures UniqueTids(Spawned(claims, first))
  {
    if claims != [] {
      assert Spawned(claims, first)[1..] == Spawned(claims[1..], first + 1);
      SpawnedBag(claims[1..], first + 1);
    }
  }

  // ---------------------------------------------------------------- record_publish_results

  /** The effect of one joined task. */
  function RecordOne(d: Dispatcher, j: Joined): Dispatcher {
    var d' := d.(outstanding := Remove(d.outstanding, j.tid));
    match j
    case JoinFailed(tid) =>
      d'.(ledger := d.ledger.(panicked := d.ledger.panicked + (Tasks(d.outstanding) - Tasks(d'.outstanding))))
    case Done(_, claim, Published) =>
      d'.(unwrittenComplete := d.unwrittenComplete + [Stamped(d.now, claim)],
          ledger := d.ledger.(observedOk := d.ledger.observedOk + multiset{claim}))
    case Done(_, claim, Failed(outcome)) =>
      d'.(unwrittenFail := d.unwrittenFail + [Stamped(d.now, FailedMessage(claim, outcome))])
  }

  function RecordAll(d: Dispatcher, results: seq<Joined>): Dispatcher {
    if results == [] then d else RecordOne(RecordAll(d, results[..|results| - 1]), results[|results| - 1])
  }

  // ---------------------------------------------------------------- expire_past_lease

  predicate PastLease(since: Time, now: Time, lease: nat) {
    now - since > lease
  }

  function Kept<T>(us: seq<Stamped<T>>, now: Time, lease: nat): seq<Stamped<T>> {
    if us == [] then []
    else if PastLease(us[0].since, now, lease) then Kept(us[1..], now, lease)
    else [us[0]] + Kept(us[1..], now, lease)
  }

  function GivenUp<T>(us: seq<Stamped<T>>, now: Time, lease: nat): seq<Stamped<T>> {
    if us == [] then []
    else if PastLease(us[0].since, now, lease) then [us[0]] + GivenUp(us[1..], now, lease)
    else GivenUp(us[1..], now, lease)
  }

  lemma {:induction false} ExpirySplits<T>(us: seq<Stamped<T>>, now: Time, lease: nat, claim: Stamped<T> -> Claimed)
    ensures Bag(us, claim) == Bag(Kept(us, now, lease), claim) + Bag(GivenUp(us, now, lease), claim)
    ensures |us| == |Kept(us, now, lease)| + |GivenUp(us, now, lease)|
  {
    if us != [] {
      ExpirySplits(us[1..], now, lease, claim);
      if PastLease(us[0].since, now, lease) {
        assert GivenUp(us, now, lease)[1..] == GivenUp(us[1..], now, lease);
      } else {
        assert Kept(us, now, lease)[1..] == Kept(us[1..], now, lease);
      }
    }
  }

  /** An outcome write is given up on exactly when it has been retried for longer than `lease`. */
  lemma {:induction false} GivenUpPastLease<T(!new)>(us: seq<Stamped<T>>, now: Time, lease: nat)
    ensures forall u :: u in Kept(us, now, lease) <==> u in us && now - u.since <= lease
    ensures forall u :: u in GivenUp(us, now, lease) <==> u in us && now - u.since > lease
  {
    if us != [] {
      GivenUpPastLease(us[1..], now, lease);
      assert us == [us[0]] + us[1..];
    }
  }

  function ExpireCompletes(d: Dispatcher): Dispatcher {
    d.(unwrittenComplete := Kept(d.unwrittenComplete, d.now, d.settings.lease),
       ledger := d.ledger.(gaveUpComplete :=
         d.ledger.gaveUpComplete + Completes(GivenUp(d.unwrittenComplete, d.now, d.settings.lease))))
  }

  function ExpireFails(d: Dispatcher): Dispatcher {
    d.(unwrittenFail := Kept(d.unwrittenFail, d.now, d.settings.lease),
       ledger := d.ledger.(gaveUpFail :=
         d.ledger.gaveUpFail + Fails(GivenUp(d.unwrittenFail, d.now, d.settings.lease))))
  }

  // ---------------------------------------------------------------- outcome writes

  function CompleteAcknowledged(d: Dispatcher): Dispatcher {
    d.(unwrittenComplete := [],
       ledger := d.ledger.(completed := d.ledger.completed + Completes(d.unwrittenComplete)))
  }

  function FailAcknowledged(d: Dispatcher): Dispatcher {
    d.(unwrittenFail := [],
       ledger := d.ledger.(failed := d.ledger.failed + Fails(d.unwrittenFail)))
  }

  // ---------------------------------------------------------------- shutdown

  function Started(ts: seq<Task>): seq<Task> {
    if ts == [] then [] else if ts[0].status.Queued? then Started(ts[1..]) else [ts[0]] + Started(ts[1..])
  }

  function Unstarted(ts: seq<Task>): seq<Claimed> {
    if ts == [] then [] else if ts[0].status.Queued? then [ts[0].claim] + Unstarted(ts[1..]) else Unstarted(ts[1..])
  }

  lemma {:induction false} StartedSplits(ts: seq<Task>)
    ensures Tasks(ts) == Tasks(Started(ts)) + Batch(Unstarted(ts))
  {
    if ts != [] {
      StartedSplits(ts[1..]);
      if ts[0].status.Queued? {
        assert Unstarted(ts)[1..] == Unstarted(ts[1..]);
      } else {
        assert Started(ts)[1..] == Started(ts[1..]);
      }
    }
  }

  lemma {:induction false} StartedMembers(ts: seq<Task>)
    ensures forall t :: t in Started(ts) <==> t in ts && !t.status.Queued?
    ensures |Started(ts)| <= |ts|
    ensures UniqueTids(ts) ==> UniqueTids(Started(ts))
  {
    if ts != [] {
      StartedMembers(ts[1..]);
      assert ts == [ts[0]] + ts[1..];
      if !ts[0].status.Queued? {
        assert Started(ts)[1..] == Started(ts[1..]);
      }
    }
  }

  /** Cancellation: rows never started are dropped from tracking and handed to `release`. */
  function StopStarting(d: Dispatcher): Dispatcher {
    d.(phase := Draining, pending := [], outstanding := Started(d.outstanding),
       ledger := d.ledger.(released := d.ledger.released + Batch(d.pending) + Batch(Unstarted(d.outstanding))))
  }

  /** End of the drain: unresolved and failed rows are released, published ones left to their lease. */
  function FinishDrain(d: Dispatcher): Dispatcher {
    d.(phase := Stopped, outstanding := [], unwrittenComplete := [], unwrittenFail := [],
       ledger := d.ledger.(released := d.ledger.released + Tasks(d.outstanding) + Fails(d.unwrittenFail),
                           leftToLease := d.ledger.leftToLease + Completes(d.unwrittenComplete)))
  }

  // ---------------------------------------------------------------- conservation

  /** How many times an instance occurs among those the dispatcher still tracks. */
  function Tracked(d: Dispatcher, c: Claimed): nat {
    Batch(d.pending)[c] + Tasks(d.outstanding)[c] + Completes(d.unwrittenComplete)[c] + Fails(d.unwrittenFail)[c]
  }

  /** How many times an instance occurs among those it no longer tracks. */
  function Settled(l: Ledger, c: Claimed): nat {
    l.completed[c] + l.failed[c] + l.gaveUpComplete[c] + l.gaveUpFail[c] + l.panicked[c] + l.released[c]
        + l.leftToLease[c]
  }

  /** How many times an instance occurs where a published instance may be. */
  function PublishedPlaces(d: Dispatcher, c: Claimed): nat {
    Completes(d.unwrittenComplete)[c] + d.ledger.completed[c] + d.ledger.gaveUpComplete[c] + d.ledger.leftToLease[c]
  }

  /** Every claim instance received is in exactly one place, counted with multiplicity; and so is
      every instance observed published, among the four places a published instance may be in. */
  ghost predicate Accounted(d: Dispatcher) {
    && (forall c :: d.ledger.received[c] == Tracked(d, c) + Settled(d.ledger, c))
    && (forall c :: d.ledger.observedOk[c] == PublishedPlaces(d, c))
  }

  /** Task ids are unique and already handed out, and no outcome is stamped in the future. */
  ghost predicate Orderly(d: Dispatcher) {
    && UniqueTids(d.outstanding)
    && (forall t | t in d.outstanding :: t.tid < d.nextTask)
    && (forall u | u in d.unwrittenComplete :: u.since <= d.now)
    && (forall u | u in d.unwrittenFail :: u.since <= d.now)
  }

  lemma SpawnReadyKeeps(d: Dispatcher)
    requires Accounted(d) && Orderly(d)
    ensures Accounted(SpawnReady(d)) && Orderly(SpawnReady(d)) && Load(SpawnReady(d)) == Load(d) + |d.pending|
  {
    SpawnReadyAccounts(d);
    SpawnedBag(d.pending, d.nextTask);
    UniqueConcat(d.outstanding, Spawned(d.pending, d.nextTask));
  }

  lemma SpawnReadyAccounts(d: Dispatcher)
    ensures Tasks(SpawnReady(d).outstanding) == Tasks(d.outstanding) + Batch(d.pending)
    ensures Accounted(d) ==> Accounted(SpawnReady(d))
  {
    SpawnedBag(d.pending, d.nextTask);
    BagConcat(d.outstanding, Spawned(d.pending, d.nextTask), TaskClaim);
  }

  /** A joined entry speaks about a task of this dispatcher: the JoinSet yields each task once, and
      a task aborted at shutdown is no longer in the table. */
  ghost predicate Joinable(ts: seq<Task>, j: Joined) {
    j.Done? ==> exists t :: t in ts && t.tid == j.tid && t.claim == j.claim
  }

  /** What joining a task does to the tracked tasks: its own instance leaves, nothing else does. */
  lemma JoinRemoves(ts: seq<Task>, j: Joined)
    requires UniqueTids(ts) && Joinable(ts, j)
    ensures Tasks(Remove(ts, j.tid)) <= Tasks(ts)
    ensures j.Done? ==> Tasks(ts) == Tasks(Remove(ts, j.tid)) + multiset{j.claim} && |Remove(ts, j.tid)| == |ts| - 1
  {
    RemoveMembers(ts, j.tid);
    if t :| t in ts && t.tid == j.tid && (j.Done? ==> t.claim == j.claim) {
      RemoveTask(ts, t);
    }
  }

  lemma RecordPanicAccounts(d: Dispatcher, tid: nat)
    requires Accounted(d) && UniqueTids(d.outstanding)
    ensures Accounted(RecordOne(d, JoinFailed(tid)))
  {
    JoinRemoves(d.outstanding, JoinFailed(tid));
  }

  lemma RecordPublishedAccounts(d: Dispatcher, tid: nat, claim: Claimed)
    requires Accounted(d) && UniqueTids(d.outstanding) && Joinable(d.outstanding, Done(tid, claim, Published))
    ensures Accounted(RecordOne(d, Done(tid, claim, Published)))
  {
    JoinRemoves(d.outstanding, Done(tid, claim, Published));
    BagAppend(d.unwrittenComplete, Stamped(d.now, claim), CompleteClaim);
  }

  lemma RecordFailedAccounts(d: Dispatcher, tid: nat, claim: Claimed, outcome: FailureOutcome)
    requires Accounted(d) && UniqueTids(d.outstanding) && Joinable(d.outstanding, Done(tid, claim, Failed(outcome)))
    ensures Accounted(RecordOne(d, Done(tid, claim, Failed(outcome))))
  {
    JoinRemoves(d.outstanding, Done(tid, claim, Failed(outcome)));
    BagAppend(d.unwrittenFail, Stamped(d.now, FailedMessage(claim, outcome)), FailClaim);
  }

  lemma RecordOneAccounts(d: Dispatcher, j: Joined)
    requires Accounted(d) && UniqueTids(d.outstanding) && Joinable(d.outstanding, j)
    ensures Accounted(RecordOne(d, j)) && Load(RecordOne(d, j)) <= Load(d)
  {
    JoinRemoves(d.outstanding, j);
    RemoveUnique(d.outstanding, j.tid);
    match j
    case JoinFailed(tid) => RecordPanicAccounts(d, tid);
    case Done(tid, claim, Published) => RecordPublishedAccounts(d, tid, claim);
    case Done(tid, claim, Failed(outcome)) => RecordFailedAccounts(d, tid, claim, outcome);
  }

  lemma RecordOneOrders(d: Dispatcher, j: Joined)
    requires Orderly(d)
    ensures Orderly(RecordOne(d, j))
    ensures forall t :: t in RecordOne(d, j).outstanding <==> t in d.outstanding && t.tid != j.tid
  {
    RemoveMembers(d.outstanding, j.tid);
    RemoveUnique(d.outstanding, j.tid);
  }

  ghost predicate AllJoinable(ts: seq<Task>, results: seq<Joined>) {
    && (forall j | j in results :: Joinable(ts, j))
    && (forall i, k | 0 <= i < k < |results| :: results[i].tid != results[k].tid)
  }

  lemma {:induction false} RecordAllKeeps(d: Dispatcher, results: seq<Joined>)
    requires Accounted(d) && Orderly(d) && AllJoinable(d.outstanding, results)
    ensures Accounted(RecordAll(d, results)) && Orderly(RecordAll(d, results)) && Load(RecordAll(d, results)) <= Load(d)
    ensures forall t :: t in RecordAll(d, results).outstanding <==>
              t in d.outstanding && forall j | j in results :: j.tid != t.tid
  {
    if results != [] {
      var before, last := results[..|results| - 1], results[|results| - 1];
      assert results == before + [last];
      RecordAllKeeps(d, before);
      var mid := RecordAll(d, before);
      assert Joinable(mid.outstanding, last) by {
        assert last in results;
      }
      RecordOneAccounts(mid, last);
      RecordOneOrders(mid, last);
    }
  }

  /** What a batch of results leaves to be written: each success as a complete and each failure, with
      its outcome, as a fail, stamped with the present. */
  lemma {:induction false} RecordedExactly(d: Dispatcher, results: seq<Joined>)
    ensures var d' := RecordAll(d, results);
            && d'.now == d.now
            && (forall u :: u in d'.unwrittenComplete <==>
                  u in d.unwrittenComplete ||
                      (u.since == d.now && exists j ::
                          j in results && j.Done? && j.verdict.Published? && j.claim == u.item))
            && (forall u :: u in d'.unwrittenFail <==>
                  u in d.unwrittenFail ||
                  (u.since == d.now && exists j ::
                      j in results && j.Done? && j.verdict == Failed(u.item.outcome) && j.claim == u.item.claim))
  {
    if results != [] {
      var before, last := results[..|results| - 1], results[|results| - 1];
      assert results == before + [last];
      RecordedExactly(d, before);
    }
  }

  lemma ExpireCompletesKeeps(d: Dispatcher)
    requires Accounted(d) && Orderly(d)
    ensures Accounted(ExpireCompletes(d)) && Orderly(ExpireCompletes(d)) && Load(ExpireCompletes(d)) <= Load(d)
  {
    ExpirySplits(d.unwrittenComplete, d.now, d.settings.lease, CompleteClaim);
    GivenUpPastLease(d.unwrittenComplete, d.now, d.settings.lease);
  }

  lemma ExpireFailsKeeps(d: Dispatcher)
    requires Accounted(d) && Orderly(d)
    ensures Accounted(ExpireFails(d)) && Orderly(ExpireFails(d)) && Load(ExpireFails(d)) <= Load(d)
  {
    ExpirySplits(d.unwrittenFail, d.now, d.settings.lease, FailClaim);
    GivenUpPastLease(d.unwrittenFail, d.now, d.settings.lease);
  }

  lemma AcknowledgedKeeps(d: Dispatcher)
    requires Accounted(d) && Orderly(d)
    ensures Accounted(CompleteAcknowledged(d)) && Orderly(CompleteAcknowledged(d))
    ensures Accounted(FailAcknowledged(d)) && Orderly(FailAcknowledged(d))
  {
  }

  lemma StopStartingKeeps(d: Dispatcher)
    requires Accounted(d) && Orderly(d)
    ensures Accounted(StopStarting(d)) && Orderly(StopStarting(d)) && Load(StopStarting(d)) <= Load(d)
  {
    StartedSplits(d.outstanding);
    StartedMembers(d.outstanding);
  }

  lemma FinishDrainKeeps(d: Dispatcher)
    requires Accounted(d)
    ensures Accounted(FinishDrain(d)) && Orderly(FinishDrain(d))
  {
  }

  /** A received instance known to have been published is never released, failed, dropped as
      panicked, or still counted as unresolved. */
  lemma PublishedNeverReleased(d: Dispatcher, c: Claimed)
    requires Accounted(d) && d.ledger.received[c] <= 1 && c in d.ledger.observedOk
    ensures c !in d.ledger.released && c !in d.ledger.failed && c !in d.ledger.panicked && c !in d.ledger.gaveUpFail
    ensures c !in Fails(d.unwrittenFail) && c !in Tasks(d.outstanding)
  {
  }
}
