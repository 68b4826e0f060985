/** Lease renewal in the worker loop, over time.

    The loop's `select!` is biased: when a renewal tick is due and rows are outstanding, it wins
    over everything but a join. Only store calls take time, each at most `store_timeout`; between
    calls the loop waits. The ticker never catches up on missed ticks: after firing at `t` it is
    due again at `t + period`. Times are nanoseconds on one axis shared with the database. */
module LeaseTiming {
  import opened Basics
  import opened DispatcherState

  /** `(lease / 2).max(1ms)`. */
  function Period(s: Settings): nat {
    if s.lease / 2 >= MILLISECOND then s.lease / 2 else MILLISECOND
  }

  /** A tracked row: when the last call covering it was issued, whether that call succeeded, and
      until when the database has the row leased. */
  datatype Held = Held(asked: Time, granted: bool, leasedUntil: Time)

  /** The loop at the head of an iteration. */
  datatype Loop = Loop(now: Time, due: Time, held: map<nat, Held>)

  datatype Branch =
    | JoinedTasks(resolved: set<nat>)                      // drops rows whose outcome is settled
    | Waited(until: Time)                             // nothing ready
    | Renewed(took: nat, landed: Option<nat>)         // extend_lease; landed: offset at which it committed
    | Polled(took: nat)                               // stats
    | RetriedOutcomes(took: nat, written: set<nat>)   // raced against the tick, dropped when it is due
    | Acquired(took: nat, offset: nat, rows: set<nat>) // acquire

  predicate TickReady(l: Loop) {
    l.held != map[] && l.now >= l.due
  }

  predicate Ready(s: Settings, l: Loop, b: Branch) {
    match b
    case JoinedTasks(_) => true
    case Waited(until) => !TickReady(l) && until >= l.now && (l.held != map[] ==> until <= l.due)
    case Renewed(took, landed) => TickReady(l) && took <= s.storeTimeout && (landed.Some? ==> landed.value <= took)
    case Polled(took) => !TickReady(l) && took <= s.storeTimeout
    case RetriedOutcomes(took, written) =>
        !TickReady(l) && written <= l.held.Keys && (l.held != map[] ==> l.now + took <= l.due)
    case Acquired(took, offset, rows) => !TickReady(l) && took <= s.storeTimeout && offset <= took
  }

  function Run1(s: Settings, l: Loop, b: Branch): Loop {
    match b
    case JoinedTasks(resolved) => l.(held := l.held - resolved)
    case Waited(until) => l.(now := until)
    case Renewed(took, landed) =>
      Loop(l.now + took, l.now + Period(s), map r | r in l.held ::
        if landed.Some? then Held(l.now, true, l.now + landed.value + Interval(s.lease))
            else Held(l.now, false, l.held[r].leasedUntil))
    case Polled(took) => l.(now := l.now + took)
    case RetriedOutcomes(took, written) => l.(now := l.now + took, held := l.held - written)
    case Acquired(took, offset, rows) =>
      l.(now := l.now + took, held := map r | r in l.held.Keys + rows ::
        if r in rows then Held(l.now, true, l.now + offset + Interval(s.lease)) else l.held[r])
  }

  ghost predicate Trace(s: Settings, loops: seq<Loop>, branches: seq<Branch>) {
    && |loops| == |branches| + 1
    && loops[0].held == map[] && loops[0].due == loops[0].now + Period(s)
    && forall i: nat | i < |branches| ::
        Ready(s, loops[i], branches[i]) && loops[i + 1] == Run1(s, loops[i], branches[i])
  }

  /** The latest a renewal can start after the call that last covered the row: one period, plus a
      store call that began just before the tick was due. */
  function Worst(s: Settings): nat {
    if s.storeTimeout == 0 then Period(s) else Period(s) + s.storeTimeout - 1
  }

  /** What the timing of one tracked row satisfies at every loop head. */
  predicate HeldOnTime(s: Settings, l: Loop, h: Held) {
    && h.asked <= l.now <= h.asked + Worst(s)
    && l.due <= h.asked + Period(s)
    && (h.granted ==> h.asked + Interval(s.lease) <= h.leasedUntil <= l.now + Interval(s.lease))
  }

  ghost predicate OnTime(s: Settings, l: Loop) {
    l.due <= l.now + Period(s) && forall r | r in l.held :: HeldOnTime(s, l, l.held[r])
  }

  lemma BranchKeepsOnTime(s: Settings, l: Loop, b: Branch)
    requires OnTime(s, l) && Ready(s, l, b)
    ensures OnTime(s, Run1(s, l, b))
  {
    var l' := Run1(s, l, b);
    forall r | r in l'.held ensures HeldOnTime(s, l', l'.held[r]) {
      if r in l.held {
        assert l.held != map[] && HeldOnTime(s, l, l.held[r]);
      }
    }
  }

  lemma {:induction false} TraceIsOnTime(s: Settings, loops: seq<Loop>, branches: seq<Branch>, k: nat)
    requires Trace(s, loops, branches) && k <= |branches|
    ensures OnTime(s, loops[k])
  {
    if k > 0 {
      TraceIsOnTime(s, loops, branches, k - 1);
      BranchKeepsOnTime(s, loops[k - 1], branches[k - 1]);
    }
  }

  // ---------------------------------------------------------------- the two promises

  ghost predicate HeldAt(loops: seq<Loop>, k: nat, r: nat) {
    k < |loops| && r in loops[k].held
  }

  /** At every loop head - so also when a renewal starts - a tracked row was last covered by a call
      issued less than one lease ago: no row goes a lease without a renewal being asked for. */
  ghost predicate RenewsInTime(s: Settings) {
    forall loops: seq<Loop>, branches: seq<Branch>, k: nat, r: nat | Trace(s, loops, branches) && HeldAt(loops, k, r) ::
      loops[k].now - loops[k].held[r].asked < s.lease
  }

  /** Every renewal that commits does so before the lease it extends - granted by a successful claim
      or renewal - has lapsed. */
  ghost predicate RenewalsBeatExpiry(s: Settings) {
    forall loops: seq<Loop>, branches: seq<Branch>, k: nat, r: nat |
        Trace(s, loops, branches) && RenewsAt(loops, branches, k, r) && branches[k].landed.Some? &&
            loops[k].held[r].granted ::
      loops[k].now + branches[k].landed.value <= loops[k].held[r].leasedUntil
  }

  ghost predicate RenewsAt(loops: seq<Loop>, branches: seq<Branch>, k: nat, r: nat) {
    k < |branches| && k < |loops| && branches[k].Renewed? && r in loops[k].held
  }

  /** The slowest run: a row claimed at once, a store call begun one tick short of the renewal's due
      time and running into its timeout, then a renewal that commits at the last moment. */
  lemma SlowestRun(s: Settings) returns (loops: seq<Loop>, branches: seq<Branch>, k: nat)
    ensures Trace(s, loops, branches) && RenewsAt(loops, branches, k, 7)
    ensures loops[k].held[7] == Held(0, true, Interval(s.lease))
    ensures loops[k].now == Worst(s) && branches[k].landed == Some(s.storeTimeout)
  {
    var p := Period(s);
    var l0 := Loop(0, p, map[]);
    var wait := if s.storeTimeout == 0 then p else p - 1;
    branches := [Acquired(0, 0, {7}), Waited(wait), Polled(s.storeTimeout),
        Renewed(s.storeTimeout, Some(s.storeTimeout))];
    if s.storeTimeout == 0 {
      branches := [Acquired(0, 0, {7}), Waited(wait), JoinedTasks({}), Renewed(s.storeTimeout, Some(s.storeTimeout))];
    }
    var l1 := Run1(s, l0, branches[0]);
    var l2 := Run1(s, l1, branches[1]);
    var l3 := Run1(s, l2, branches[2]);
    loops := [l0, l1, l2, l3, Run1(s, l3, branches[3])];
    assert 7 in l1.held && 7 in l2.held && 7 in l3.held;
    k := 3;
  }

  /** The tick in numbers: half the lease, but at least a millisecond. */
  lemma WorstIs(s: Settings)
    ensures Worst(s) == (if s.lease / 2 < 1_000_000 then 1_000_000 else s.lease / 2)
                        + (if s.storeTimeout == 0 then 0 else s.storeTimeout - 1)
  {
  }

  /** Exactly when the first promise holds. */
  lemma RenewsInTimeExactly(s: Settings)
    ensures RenewsInTime(s) <==> Worst(s) < s.lease
  {
    var loops, branches, k := SlowestRun(s);
    assert HeldAt(loops, k, 7);
    if Worst(s) < s.lease {
      forall loops: seq<Loop>, branches: seq<Branch>, k: nat, r: nat | Trace(s, loops, branches) && HeldAt(loops, k, r)
        ensures loops[k].now - loops[k].held[r].asked < s.lease
      {
        TraceIsOnTime(s, loops, branches, k);
        assert HeldOnTime(s, loops[k], loops[k].held[r]);
      }
    }
  }

  /** Exactly when the second one does. */
  lemma RenewalsBeatExpiryExactly(s: Settings)
    ensures RenewalsBeatExpiry(s) <==> Worst(s) + s.storeTimeout <= Interval(s.lease)
  {
    var loops, branches, k := SlowestRun(s);
    if Worst(s) + s.storeTimeout <= Interval(s.lease) {
      forall loops: seq<Loop>, branches: seq<Branch>, k: nat, r: nat |
          Trace(s, loops, branches) && RenewsAt(loops, branches, k, r) && branches[k].landed.Some? &&
              loops[k].held[r].granted
        ensures loops[k].now + branches[k].landed.value <= loops[k].held[r].leasedUntil
      {
        TraceIsOnTime(s, loops, branches, k);
        assert HeldOnTime(s, loops[k], loops[k].held[r]);
        assert Ready(s, loops[k], branches[k]);
      }
    }
  }

  /** A validated configuration with a lease of at least 2 ms renews in time; with
      `store_timeout <= lease / 4` and a lease of whole milliseconds its renewals also beat the expiry. */
  lemma ValidatedRenewsInTime(s: Settings)
    requires ValidateShared(s) == None && s.lease >= 2 * MILLISECOND
    ensures RenewsInTime(s)
    ensures s.storeTimeout <= s.lease / 4 && Interval(s.lease) == s.lease ==> RenewalsBeatExpiry(s)
  {
    RenewsInTimeExactly(s);
    RenewalsBeatExpiryExactly(s);
  }

  /** Below 2 ms the tick is floored at 1 ms, and a validated configuration can miss its renewal. */
  lemma ShortLeaseCanLapse() returns (s: Settings)
    ensures ValidateShared(s) == None && s.lease < 2 * MILLISECOND && !RenewsInTime(s)
  {
    s := Settings(1, 1, 1_000_000, 100_000, 1, 1, 1, false);
    RenewsInTimeExactly(s);
  }

  /** A lease of 2.9 ms is granted as 2 ms but renewed as if it were 2.9: even with
      `store_timeout <= lease / 4`, a renewal can land after the lease has lapsed. */
  lemma FractionalLeaseCanLapse() returns (s: Settings)
    ensures ValidateShared(s) == None && s.lease >= 2 * MILLISECOND && s.storeTimeout <= s.lease / 4 &&
              !RenewalsBeatExpiry(s)
  {
    s := Settings(1, 1, 2_900_000, 700_000, 1, 1, 1, false);
    RenewalsBeatExpiryExactly(s);
  }
}
