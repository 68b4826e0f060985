/** The PostgreSQL store: the class that holds the table and issues its statements.

    The clock, the rows another session has locked, and whether a statement fails are parameters.
    Every method is tied to `OutboxTable.Apply`, so the theorems about runs of statements are about
    these methods. */
module Store {
  import opened Basics
  import opened OutboxTable
  import opened DispatcherState
  import opened Protocol
  import opened Purge
  import TableRuns

  /** Which statement of a call fails, if any. */
  datatype Fault = NoFault | FirstFails | SecondFails

  /** The rows of an `acquire`: those handed out, in the order the database returned them, and those
      moved to dead as undecodable. */
  datatype AcquiredBatch = AcquiredBatch(records: seq<Claimed>, poisoned: set<MessageId>)

  // ---------------------------------------------------------------- choosing rows

  /** The head of `ORDER BY available_at, sequence`. */
  method First(rows: map<MessageId, Row>, candidates: set<MessageId>) returns (m: MessageId)
    requires candidates != {} && candidates <= rows.Keys && DistinctSequences(rows)
    ensures m in candidates && forall b | b in candidates && b != m :: Before(rows[m], rows[b])
  {
    m :| m in candidates;
    var rest := candidates - {m};
    while rest != {}
      invariant rest <= candidates && m in candidates && m !in rest
      invariant forall b | b in candidates && b !in rest && b != m :: Before(rows[m], rows[b])
    {
      var x :| x in rest;
      rest := rest - {x};
      if Before(rows[x], rows[m]) {
        m := x;
      }
    }
  }

  /** `ORDER BY ... LIMIT`. */
  method SelectFirst(rows: map<MessageId, Row>, eligible: set<MessageId>, limit: nat) returns (ids: set<MessageId>)
    requires eligible <= rows.Keys && DistinctSequences(rows)
    ensures FirstEligible(rows, eligible, limit, ids) && FirstOf(rows, eligible, limit, ids)
  {
    ids := {};
    while |ids| < limit && ids != eligible
      invariant ids <= eligible && |ids| <= limit
      invariant forall a, b | a in ids && b in eligible && b !in ids :: Before(rows[a], rows[b])
      decreases |eligible - ids|
    {
      var m := First(rows, eligible - ids);
      assert eligible - (ids + {m}) < eligible - ids;
      SmallerSet(eligible - (ids + {m}), eligible - ids);
      ids := ids + {m};
    }
  }

  /** The claim is determined by the table, the clock and the rows skipped: there is only one set of
      first eligible rows. */
  lemma FirstEligibleIsUnique(rows: map<MessageId, Row>, eligible: set<MessageId>, limit: nat, one: set<MessageId>,
                              two: set<MessageId>)
    requires FirstEligible(rows, eligible, limit, one) && FirstEligible(rows, eligible, limit, two)
    ensures one == two
  {
    assert one <= two || two <= one;
    if one < two {
      SmallerSet(one, two);
    } else if two < one {
      SmallerSet(two, one);
    }
  }

  /** A subselect with `LIMIT` and no order: any rows that match, as many as there are up to the limit. */
  method SelectAny(matching: set<MessageId>, limit: nat) returns (ids: set<MessageId>)
    ensures ids <= matching && |ids| == Min(limit, |matching|)
  {
    ids := {};
    var rest := matching;
    while |ids| < limit && rest != {}
      invariant ids + rest == matching && ids !! rest && |ids| <= limit
    {
      var x :| x in rest;
      ids, rest := ids + {x}, rest - {x};
    }
    assert |matching| == |ids| + |rest|;
  }

  /** `RETURNING`: the rows of an update, in no particular order. */
  method Returning(ids: set<MessageId>) returns (order: seq<MessageId>)
    ensures NoDuplicates(order) && forall m :: m in order <==> m in ids
  {
    order := [];
    var rest := ids;
    while rest != {}
      invariant rest <= ids && NoDuplicates(order)
      invariant forall m :: m in order <==> m in ids && m !in rest
    {
      var m :| m in rest;
      order, rest := order + [m], rest - {m};
    }
  }

  /** One pass over the claimed rows: the decodable ones become records, the others are poisoned. */
  method DecodeRows(call: nat, rows: map<MessageId, Row>, claimed: seq<MessageId>)
    returns (records: seq<Claimed>, poisoned: set<MessageId>, kept: seq<MessageId>)
    requires NoDuplicates(claimed) && forall m | m in claimed :: m in rows
    ensures NoDuplicates(kept) && (forall m :: m in kept <==> m in claimed && rows[m].decodable)
    ensures records == Records(kept, rows, call)
    ensures forall m :: m in poisoned <==> m in claimed && !rows[m].decodable
  {
    records, poisoned, kept := [], {}, [];
    for i := 0 to |claimed|
      invariant NoDuplicates(kept) && (forall m :: m in kept <==> m in claimed[..i] && rows[m].decodable)
      invariant records == Records(kept, rows, call)
      invariant forall m :: m in poisoned <==> m in claimed[..i] && !rows[m].decodable
    {
      var m := claimed[i];
      assert m in claimed && claimed[..i + 1] == claimed[..i] + [m];
      if rows[m].decodable {
        records, kept := records + [Claimed(call, m, rows[m].attempts)], kept + [m];
      } else {
        poisoned := poisoned + {m};
      }
    }
    assert claimed[..|claimed|] == claimed;
  }

  /** One pass over the failures: the retries and the deaths, one item per row and not a chosen one. */
  method SplitByOutcome(items: seq<FailedMessage>)
    returns (retries: map<MessageId, FailedMessage>, deaths: map<MessageId, FailedMessage>)
    ensures Picks(items, true, retries) && Picks(items, false, deaths)
  {
    retries, deaths := map[], map[];
    for i := 0 to |items|
      invariant Picks(items[..i], true, retries) && Picks(items[..i], false, deaths)
    {
      var item := items[i];
      assert items[..i + 1] == items[..i] + [item];
      var overwrite: bool := *;
      if item.outcome.Retry? {
        if item.claim.id !in retries || overwrite {
          retries := retries[item.claim.id := item];
        }
      } else {
        if item.claim.id !in deaths || overwrite {
          deaths := deaths[item.claim.id := item];
        }
      }
    }
    assert items[..|items|] == items;
  }

  /** A statement that matches no row changes nothing. */
  lemma NoRowsNoChange(db: Db, st: Stmt)
    requires !st.Insert? && !st.Claim? && Affected(db, st) == {}
    ensures Apply(db, st) == db
  {
    forall id | id in db.rows ensures !Touches(st, id, db.rows[id]) {
      assert id !in Affected(db, st);
    }
    assert ApplyRows(db.rows, st) == db.rows;
  }

  /** A row that may be claimed at `now`: neither published nor dead, its delay over, not expired, and
      without a lease or with one that ended before. */
  predicate FreeAt(r: Row, now: Time) {
    && r.publishedAt.None? && r.deadAt.None? && r.availableAt <= now
    && (r.expiresAt.None? || now < r.expiresAt.value)
    && (r.lockedUntil.None? || r.lockedUntil.value < now)
  }

  function FreeRows(rows: map<MessageId, Row>, now: Time, skipped: set<MessageId>): set<MessageId> {
    set m | m in rows && m !in skipped && FreeAt(rows[m], now)
  }

  /** `ids` are the first of the candidates, up to `limit`: whatever is left behind is available later than
      every one of them, or at the same time with a higher sequence. */
  ghost predicate FirstOf(rows: map<MessageId, Row>, candidates: set<MessageId>, limit: nat, ids: set<MessageId>)
    requires candidates <= rows.Keys
  {
    && ids <= candidates && |ids| <= limit && (|ids| < limit ==> ids == candidates)
    && forall a, b | a in ids && b in candidates && b !in ids ::
         || rows[a].availableAt < rows[b].availableAt
         || (rows[a].availableAt == rows[b].availableAt && rows[a].sequence < rows[b].sequence)
  }

  /** The rows in `ids` are leased to `worker` for `lease` from `now` on, and nothing else has changed. */
  ghost predicate LeasedTo(before: Db, after: Db, ids: set<MessageId>, worker: WorkerId, now: Time, lease: nat) {
    && before.rows.Keys == after.rows.Keys
    && forall m | m in before.rows :: after.rows[m] ==
         if m in ids then before.rows[m].(lockedBy := Some(worker), lockedUntil := Some(now + lease))
         else before.rows[m]
  }

  lemma EligibleIsFree(rows: map<MessageId, Row>, now: Time, skipped: set<MessageId>)
    ensures Eligible(rows, now, skipped) == FreeRows(rows, now, skipped)
  {
    forall m | m in rows ensures Claimable(rows[m], now) <==> FreeAt(rows[m], now) {
    }
  }

  lemma ClaimLeases(db: Db, st: Stmt)
    requires st.Claim? && st.ids <= db.rows.Keys
    ensures LeasedTo(db, Apply(db, st), st.ids, st.worker, st.now, st.lease)
  {
  }

  /** What `acquire` makes of a row: leased if it decodes, dead if it does not. */
  function Acquired(r: Row, worker: WorkerId, now: Time, lease: nat, later: Time): Row {
    if r.decodable then
      r.(lockedBy := Some(worker), lockedUntil := Some(now + lease))
    else
      r.(lockedBy := None, lockedUntil := None, deadAt := Some(later), deadReason := Some(Undecodable))
  }

  ghost predicate AcquiredRows(before: Db, after: Db, ids: set<MessageId>, worker: WorkerId, now: Time, lease: nat,
                               later: Time) {
    && before.rows.Keys == after.rows.Keys
    && forall m | m in before.rows :: after.rows[m] ==
         if m in ids then Acquired(before.rows[m], worker, now, lease, later) else before.rows[m]
  }

  /** The statements of an `acquire` and their effect: the claim takes the first eligible rows, `order` lists
      those that decode, and the sweep, if there is anything for it, takes the others. */
  ghost predicate AcquireRan(before: Db, after: Db, ran: seq<Stmt>, ran': seq<Stmt>, claim: Stmt, later: Time,
                             r: Result<AcquiredBatch, Fault>, order: seq<MessageId>)
    requires claim.Claim?
  {
    if r == Err(FirstFails) then after == before && ran' == ran
    else
      var claimed := Apply(before, claim);
      && FirstEligible(before.rows, Eligible(before.rows, claim.now, claim.skipped), claim.limit, claim.ids)
      && Lists(order, before.rows, claim.ids)
      && (r == Err(SecondFails) ==> after == claimed && ran' == ran + [claim])
      && (r.Ok? ==>
            && r.value.records == Records(order, before.rows, claim.claim)
            && r.value.poisoned == (set m | m in claim.ids && !before.rows[m].decodable)
            && after == Apply(claimed, PoisonSweep(r.value.poisoned, claim.worker, later))
            && ran' == ran + [claim]
                + Unless(r.value.poisoned == {}, PoisonSweep(r.value.poisoned, claim.worker, later)))
  }

  lemma SweepAcquires(before: Db, claimed: Db, ids: set<MessageId>, poisoned: set<MessageId>,
                      worker: WorkerId, now: Time, lease: nat, later: Time)
    requires LeasedTo(before, claimed, ids, worker, now, lease) && ids <= before.rows.Keys
    requires poisoned == set m | m in ids && !before.rows[m].decodable
    ensures AcquiredRows(before, Apply(claimed, PoisonSweep(poisoned, worker, later)), ids, worker, now, lease, later)
  {
  }

  lemma FirstEligibleIsFirstOf(rows: map<MessageId, Row>, now: Time, skipped: set<MessageId>, limit: nat,
                               ids: set<MessageId>)
    requires FirstEligible(rows, Eligible(rows, now, skipped), limit, ids)
    ensures FirstOf(rows, FreeRows(rows, now, skipped), limit, ids)
  {
    EligibleIsFree(rows, now, skipped);
  }

  lemma AcquireTakes(before: Db, after: Db, ran: seq<Stmt>, ran': seq<Stmt>, claim: Stmt, later: Time,
                     r: Result<AcquiredBatch, Fault>, order: seq<MessageId>)
    requires claim.Claim? && AcquireRan(before, after, ran, ran', claim, later, r, order) && r.Ok?
    ensures FirstOf(before.rows, FreeRows(before.rows, claim.now, claim.skipped), claim.limit, claim.ids)
  {
    FirstEligibleIsFirstOf(before.rows, claim.now, claim.skipped, claim.limit, claim.ids);
  }

  lemma ClaimThenSweep(before: Db, claim: Stmt, poisoned: set<MessageId>, later: Time)
    requires claim.Claim? && claim.ids <= before.rows.Keys
    requires poisoned == set m | m in claim.ids && !before.rows[m].decodable
    ensures AcquiredRows(before, Apply(Apply(before, claim), PoisonSweep(poisoned, claim.worker, later)),
              claim.ids, claim.worker, claim.now, claim.lease, later)
  {
    ClaimLeases(before, claim);
    SweepAcquires(before, Apply(before, claim), claim.ids, poisoned, claim.worker, claim.now, claim.lease, later);
  }

  lemma AcquireWrites(before: Db, after: Db, ran: seq<Stmt>, ran': seq<Stmt>, claim: Stmt, later: Time,
                      r: Result<AcquiredBatch, Fault>, order: seq<MessageId>)
    requires claim.Claim? && AcquireRan(before, after, ran, ran', claim, later, r, order) && r.Ok?
    ensures AcquiredRows(before, after, claim.ids, claim.worker, claim.now, claim.lease, later)
  {
    ClaimThenSweep(before, claim, r.value.poisoned, later);
  }

  /** What `fail` makes of a row. One its worker does not hold it leaves alone. A row named by retries has
      one of them counted and its delay, in whole milliseconds, ahead of it; a row named by deaths only
      has one of them counted and is dead for its reason, once the second statement is through. */
  ghost predicate FailedAs(r: Row, r': Row, items: seq<FailedMessage>, m: MessageId, worker: WorkerId, now: Time,
                           later: Time, both: bool) {
    var free := r.(lockedBy := None, lockedUntil := None, attempts := r.attempts + 1);
    if r.lockedBy == Some(worker) && Names(items, m, true) then
      exists f :: f in items && f.claim.id == m && f.outcome.Retry?
        && r' == free.(availableAt := now + Interval(f.outcome.delay))
    else if r.lockedBy == Some(worker) && Names(items, m, false) && both then
      exists f :: f in items && f.claim.id == m && f.outcome.Dead?
        && r' == free.(deadAt := Some(later), deadReason := Some(f.outcome.reason))
    else r' == r
  }

  ghost predicate Names(items: seq<FailedMessage>, m: MessageId, retries: bool) {
    exists f :: f in items && f.claim.id == m && f.outcome.Retry? == retries
  }

  /** A row the statement lists and its worker holds. */
  predicate Owned(r: Row, m: MessageId, items: seq<Claimed>, worker: WorkerId) {
    m in IdsOf(items) && r.lockedBy == Some(worker)
  }

  ghost predicate FailedRows(before: Db, after: Db, items: seq<FailedMessage>, worker: WorkerId, now: Time, later: Time,
                             both: bool) {
    && before.rows.Keys == after.rows.Keys
    && forall m | m in before.rows :: FailedAs(before.rows[m], after.rows[m], items, m, worker, now, later, both)
  }

  lemma RetriesWrite(db: Db, items: seq<FailedMessage>, retried: map<MessageId, FailedMessage>, worker: WorkerId,
                     now: Time, later: Time)
    requires Picks(items, true, retried)
    ensures FailedRows(db, Apply(db, RetryStmt(retried, worker, now)), items, worker, now, later, false)
  {
    var half := Apply(db, RetryStmt(retried, worker, now));
    forall m | m in db.rows ensures FailedAs(db.rows[m], half.rows[m], items, m, worker, now, later, false) {
      if m in retried {
        assert retried[m] in items;
      }
    }
  }

  lemma DeathsWrite(db: Db, half: Db, items: seq<FailedMessage>, killed: map<MessageId, FailedMessage>,
                    worker: WorkerId, now: Time, later: Time)
    requires Picks(items, false, killed) && FailedRows(db, half, items, worker, now, later, false)
    ensures FailedRows(db, Apply(half, DeadStmt(killed, worker, later)), items, worker, now, later, true)
  {
    var after := Apply(half, DeadStmt(killed, worker, later));
    forall m | m in db.rows ensures FailedAs(db.rows[m], after.rows[m], items, m, worker, now, later, true) {
      assert FailedAs(db.rows[m], half.rows[m], items, m, worker, now, later, false);
      if m in killed {
        assert killed[m] in items;
      }
    }
  }

  /** The statements of a `fail` and their effect. */
  ghost predicate FailRan(before: Db, after: Db, ran: seq<Stmt>, ran': seq<Stmt>,
                          retried: map<MessageId, FailedMessage>, killed: map<MessageId, FailedMessage>,
                          worker: WorkerId, now: Time, later: Time, r: Result<nat, Fault>) {
    if r == Err(FirstFails) then after == before && ran' == ran
    else
      var half := Apply(before, RetryStmt(retried, worker, now));
      var first, second := Unless(retried == map[], RetryStmt(retried, worker, now)),
          Unless(killed == map[], DeadStmt(killed, worker, later));
      && (r == Err(SecondFails) ==> after == half && ran' == ran + first)
      && (r.Ok? ==>
            && after == Apply(half, DeadStmt(killed, worker, later)) && ran' == ran + first + second
            && r.value == |Affected(before, RetryStmt(retried, worker, now))|
                + |Affected(half, DeadStmt(killed, worker, later))|)
  }

  lemma FailWrites(before: Db, after: Db, ran: seq<Stmt>, ran': seq<Stmt>, items: seq<FailedMessage>,
                   retried: map<MessageId, FailedMessage>, killed: map<MessageId, FailedMessage>, worker: WorkerId,
                   now: Time, later: Time, r: Result<nat, Fault>)
    requires Picks(items, true, retried) && Picks(items, false, killed)
    requires FailRan(before, after, ran, ran', retried, killed, worker, now, later, r)
    requires r.Ok? || r == Err(SecondFails)
    ensures FailedRows(before, after, items, worker, now, later, r.Ok?)
  {
    RetriesWrite(before, items, retried, worker, now, later);
    if r.Ok? {
      DeathsWrite(before, Apply(before, RetryStmt(retried, worker, now)), items, killed, worker, now, later);
    }
  }

  // ---------------------------------------------------------------- the store

  class OutboxStore {
    var db: Db
    ghost var dbs: seq<Db>     // every table so far
    ghost var sts: seq<Stmt>   // every statement issued so far

    /** What the store has done is a run of table statements, so the theorems about such runs are about
        this object. */
    ghost predicate Sound()
      reads this
    {
      TableRuns.Run(dbs, sts) && dbs[|sts|] == db && Valid(db)
    }

    constructor ()
      ensures Sound() && db == EMPTY && sts == []
    {
      db, dbs, sts := EMPTY, [EMPTY], [];
    }

    /** One statement in its own implicit transaction. */
    method Execute(st: Stmt) returns (affected: nat)
      requires Sound() && Enabled(db, st)
      modifies this
      ensures Sound() && db == Apply(old(db), st) && affected == |Affected(old(db), st)|
      ensures sts == old(sts) + [st] && dbs == old(dbs) + [db]
    {
      ApplyKeepsValid(db, st);
      ghost var dbs', sts' := TableRuns.ExtendRun(dbs, sts, st);
      affected := |Affected(db, st)|;
      db := Apply(db, st);
      dbs, sts := dbs', sts';
    }

    /** `claim_rows`: leases the first eligible rows not locked by another session, and returns them
        in no particular order. */
    method ClaimRows(call: nat, worker: WorkerId, now: Time, lease: nat, limit: nat, skipped: set<MessageId>)
      returns (order: seq<MessageId>, ids: set<MessageId>)
      requires Sound()
      modifies this
      ensures FirstOf(old(db).rows, FreeRows(old(db).rows, now, skipped), limit, ids)
      ensures LeasedTo(old(db), db, ids, worker, now, lease)
      ensures FirstEligible(old(db).rows, Eligible(old(db).rows, now, skipped), limit, ids)
      ensures NoDuplicates(order) && (forall m :: m in order <==> m in ids)
      ensures Sound() && db == Apply(old(db), Stmt.Claim(call, worker, now, lease, limit, skipped, ids))
      ensures sts == old(sts) + [Stmt.Claim(call, worker, now, lease, limit, skipped, ids)]
    {
      ids := SelectFirst(db.rows, Eligible(db.rows, now, skipped), limit);
      EligibleIsFree(db.rows, now, skipped);
      ClaimLeases(db, Stmt.Claim(call, worker, now, lease, limit, skipped, ids));
      var _ := Execute(Stmt.Claim(call, worker, now, lease, limit, skipped, ids));
      order := Returning(ids);
    }

    /** `acquire`: the claim, then one pass over the claimed rows that decodes them, then the sweep of
        those that do not decode. `Ok` hands out every decodable row once, under the attempts the
        claim saw; an error leaves the claim, if it happened, to its lease. */
    method Acquire(call: nat, worker: WorkerId, limit: nat, lease: nat, now: Time, skipped: set<MessageId>,
                   later: Time, fault: Fault)
      returns (r: Result<AcquiredBatch, Fault>, ghost ids: set<MessageId>, ghost order: seq<MessageId>)
      requires Sound()
      modifies this
      ensures Sound()
      ensures var claim := Stmt.Claim(call, worker, now, Interval(lease), limit, skipped, ids);
              AcquireRan(old(db), db, old(sts), sts, claim, later, r, order)
      ensures r.Err? ==> fault != NoFault && r.error == fault
      ensures r.Ok? ==> AcquiredRows(old(db), db, ids, worker, now, Interval(lease), later)
      ensures r.Ok? ==> FirstOf(old(db).rows, FreeRows(old(db).rows, now, skipped), limit, ids)
    {
      r, ids, order := ClaimDecodeSweep(call, worker, limit, Interval(lease), now, skipped, later, fault);
      if r.Ok? {
        AcquireWrites(old(db), db, old(sts), sts, Stmt.Claim(call, worker, now, Interval(lease), limit, skipped, ids),
            later, r, order);
        AcquireTakes(old(db), db, old(sts), sts, Stmt.Claim(call, worker, now, Interval(lease), limit, skipped, ids),
            later, r, order);
      }
    }

    method ClaimDecodeSweep(call: nat, worker: WorkerId, limit: nat, lease: nat, now: Time, skipped: set<MessageId>,
                            later: Time, fault: Fault)
      returns (r: Result<AcquiredBatch, Fault>, ghost ids: set<MessageId>, ghost order: seq<MessageId>)
      requires Sound()
      modifies this
      ensures Sound()
      ensures var claim := Stmt.Claim(call, worker, now, lease, limit, skipped, ids);
              AcquireRan(old(db), db, old(sts), sts, claim, later, r, order)
      ensures r.Err? ==> fault != NoFault && r.error == fault
    {
      if fault == FirstFails {
        return Err(FirstFails), {}, [];
      }
      var rows := db.rows;
      var claimed, chosen := ClaimRows(call, worker, now, lease, limit, skipped);
      ids := chosen;
      var records, poisoned, kept := DecodeRows(call, rows, claimed);
      order := kept;
      var sweep := PoisonSweep(poisoned, worker, later);
      if poisoned == {} {
        NoRowsNoChange(db, sweep);
      } else if fault == SecondFails {
        return Err(SecondFails), ids, order;
      } else {
        var _ := Execute(sweep);
      }
      r := Ok(AcquiredBatch(records, poisoned));
    }

    /** `fail`: splits the items by outcome in one pass, then writes the retries and the deaths as two
        statements. An item naming a row twice is applied once, and not a chosen one of the two. If
        the second statement fails, the first stays applied. */
    method Fail(worker: WorkerId, items: seq<FailedMessage>, now: Time, later: Time, fault: Fault)
      returns (r: Result<nat, Fault>,
               ghost retried: map<MessageId, FailedMessage>, ghost killed: map<MessageId, FailedMessage>)
      requires Sound()
      modifies this
      ensures Sound() && Picks(items, true, retried) && Picks(items, false, killed)
      ensures FailRan(old(db), db, old(sts), sts, retried, killed, worker, now, later, r)
      ensures r.Err? ==> fault != NoFault && r.error == fault
      ensures r != Err(FirstFails) ==> FailedRows(old(db), db, items, worker, now, later, r.Ok?)
    {
      r, retried, killed := SplitAndWrite(worker, items, now, later, fault);
      if r != Err(FirstFails) {
        FailWrites(old(db), db, old(sts), sts, items, retried, killed, worker, now, later, r);
      }
    }

    method SplitAndWrite(worker: WorkerId, items: seq<FailedMessage>, now: Time, later: Time, fault: Fault)
      returns (r: Result<nat, Fault>,
               ghost retried: map<MessageId, FailedMessage>, ghost killed: map<MessageId, FailedMessage>)
      requires Sound()
      modifies this
      ensures Sound() && Picks(items, true, retried) && Picks(items, false, killed)
      ensures FailRan(old(db), db, old(sts), sts, retried, killed, worker, now, later, r)
      ensures r.Err? ==> fault != NoFault && r.error == fault
    {
      var retries, deaths := SplitByOutcome(items);
      retried, killed := retries, deaths;
      var affected := 0;
      if retries == map[] {
        NoRowsNoChange(db, RetryStmt(retries, worker, now));
      } else if fault == FirstFails {
        return Err(FirstFails), retried, killed;
      } else {
        affected := Execute(RetryStmt(retries, worker, now));
      }
      if deaths == map[] {
        NoRowsNoChange(db, DeadStmt(deaths, worker, later));
      } else if fault == SecondFails {
        return Err(SecondFails), retried, killed;
      } else {
        var more := Execute(DeadStmt(deaths, worker, later));
        affected := affected + more;
      }
      r := Ok(affected);
    }

    /** A worker-guarded or operator statement on listed rows; none is issued for an empty list. */
    method OnRows(items: seq<Claimed>, st: Stmt) returns (affected: nat)
      requires Sound() && (st.Complete? || st.Release? || st.Extend? || st.RetryDead? || st.PurgeDead?)
      requires st.ids == IdsOf(items)
      modifies this
      ensures Sound() && db == Apply(old(db), st) && affected == |Affected(old(db), st)|
      ensures sts == old(sts) + Unless(items == [], st)
    {
      if items == [] {
        NoRowsNoChange(db, st);
        return 0;
      }
      affected := Execute(st);
    }

    /** `complete`: every listed row its worker holds is published, counted and free; no other row changes. */
    method Complete(worker: WorkerId, items: seq<Claimed>, now: Time) returns (affected: nat)
      requires Sound()
      modifies this
      ensures Sound() && sts == old(sts) + Unless(items == [], Stmt.Complete(IdsOf(items), worker, now))
      ensures affected == |set m | m in old(db).rows && Owned(old(db).rows[m], m, items, worker)|
      ensures forall m | m in old(db).rows :: m in db.rows && db.rows[m] ==
                var r := old(db).rows[m];
                if Owned(r, m, items, worker) then
                  r.(lockedBy := None, lockedUntil := None, publishedAt := Some(now), attempts := r.attempts + 1)
                else r
    {
      affected := OnRows(items, Stmt.Complete(IdsOf(items), worker, now));
      assert Affected(old(db), Stmt.Complete(IdsOf(items), worker, now)) ==
             set m | m in old(db).rows && Owned(old(db).rows[m], m, items, worker);
    }

    /** `release`: every listed row its worker holds is free again, and nothing else about it changes. */
    method Release(worker: WorkerId, items: seq<Claimed>) returns (affected: nat)
      requires Sound()
      modifies this
      ensures Sound() && sts == old(sts) + Unless(items == [], Stmt.Release(IdsOf(items), worker))
      ensures affected == |set m | m in old(db).rows && Owned(old(db).rows[m], m, items, worker)|
      ensures forall m | m in old(db).rows :: m in db.rows && db.rows[m] ==
                var r := old(db).rows[m];
                if Owned(r, m, items, worker) then r.(lockedBy := None, lockedUntil := None) else r
    {
      affected := OnRows(items, Stmt.Release(IdsOf(items), worker));
      assert Affected(old(db), Stmt.Release(IdsOf(items), worker)) ==
             set m | m in old(db).rows && Owned(old(db).rows[m], m, items, worker);
    }

    /** `extend_lease`: every listed row its worker holds is leased for `lease`, in whole milliseconds, from
        the reading on. */
    method ExtendLease(worker: WorkerId, items: seq<Claimed>, lease: nat, now: Time) returns (affected: nat)
      requires Sound()
      modifies this
      ensures Sound() && sts == old(sts) + Unless(items == [], Stmt.Extend(IdsOf(items), worker, now, Interval(lease)))
      ensures affected == |set m | m in old(db).rows && Owned(old(db).rows[m], m, items, worker)|
      ensures forall m | m in old(db).rows :: m in db.rows && db.rows[m] ==
                var r := old(db).rows[m];
                if Owned(r, m, items, worker) then r.(lockedUntil := Some(now + Interval(lease))) else r
    {
      var st := Stmt.Extend(IdsOf(items), worker, now, Interval(lease));
      affected := OnRows(items, st);
      assert Affected(old(db), st) == set m | m in old(db).rows && Owned(old(db).rows[m], m, items, worker);
    }

    /** `retry_dead`: every listed dead row is pending again from the reading on, with no attempts counted. */
    method RetryDead(items: seq<Claimed>, now: Time) returns (affected: nat)
      requires Sound()
      modifies this
      ensures Sound() && sts == old(sts) + Unless(items == [], Stmt.RetryDead(IdsOf(items), now))
      ensures affected == |set m | m in old(db).rows && m in IdsOf(items) && old(db).rows[m].deadAt.Some?|
      ensures forall m | m in old(db).rows :: m in db.rows && db.rows[m] ==
                var r := old(db).rows[m];
                if m in IdsOf(items) && r.deadAt.Some? then
                  r.(lockedBy := None, lockedUntil := None, deadAt := None, deadReason := None, availableAt := now,
                     attempts := 0)
                else r
    {
      affected := OnRows(items, Stmt.RetryDead(IdsOf(items), now));
      assert Affected(old(db), Stmt.RetryDead(IdsOf(items), now)) ==
             set m | m in old(db).rows && m in IdsOf(items) && old(db).rows[m].deadAt.Some?;
    }

    /** `purge_dead`: exactly the listed dead rows are gone. */
    method PurgeDead(items: seq<Claimed>) returns (affected: nat)
      requires Sound()
      modifies this
      ensures Sound() && sts == old(sts) + Unless(items == [], Stmt.PurgeDead(IdsOf(items)))
      ensures affected == |set m | m in old(db).rows && m in IdsOf(items) && old(db).rows[m].deadAt.Some?|
      ensures forall m | m in old(db).rows ::
                if m in IdsOf(items) && old(db).rows[m].deadAt.Some? then m !in db.rows
                else m in db.rows && db.rows[m] == old(db).rows[m]
    {
      affected := OnRows(items, Stmt.PurgeDead(IdsOf(items)));
      assert Affected(old(db), Stmt.PurgeDead(IdsOf(items))) ==
             set m | m in old(db).rows && m in IdsOf(items) && old(db).rows[m].deadAt.Some?;
    }

    /** One bounded maintenance statement, with no other writer between its subselect and its action. */
    method PurgeRows(kind: Kind, batchSize: nat, now: Time) returns (affected: nat)
      requires Sound()
      modifies this
      ensures Sound() && PurgedBy(old(db), db, kind, batchSize, now, affected)
    {
      var chosen := SelectAny(Matching(db.rows, kind, now), batchSize);
      PurgeProgress(db, kind, chosen, now);
      affected := Execute(PurgeStmt(kind, chosen, now));
      assert Chose(old(db), db, kind, batchSize, now, affected, chosen);
    }

    /** `purge`: one bounded pass of up to three statements, read at three moments of the clock. */
    method Purge(request: PurgeRequest, first: Time, second: Time, third: Time) returns (report: PurgeReport)
      requires Sound()
      modifies this
      ensures Sound() && Pass(old(db), db, request, report, first, second, third)
      ensures forall m :: PassedOver(old(db).rows, db.rows, request, report, first, second, third, m)
    {
      var published, dead := 0, 0;
      if request.publishedRetention.Some? {
        published := PurgeRows(OldPublished(request.publishedRetention.value), request.batchSize, first);
      }
      ghost var one := db;
      if request.deadRetention.Some? {
        dead := PurgeRows(OldDead(request.deadRetention.value), request.batchSize, second);
      }
      ghost var two := db;
      var expired := PurgeRows(ExpiredPending, request.batchSize, third);
      report := PurgeReport(published, dead, expired);
      assert PassVia(old(db), one, two, db, request, report, first, second, third);
      forall m ensures PassedOver(old(db).rows, db.rows, request, report, first, second, third, m) {
        PassRow(old(db), db, request, report, first, second, third, m);
      }
    }
  }

  /** A statement that is issued unless there is nothing for it. */
  function Unless(skip: bool, st: Stmt): seq<Stmt> {
    if skip then [] else [st]
  }

  /** One pass at its three readings. */
  method PurgeAt(store: OutboxStore, request: PurgeRequest, clock: nat -> Time, i: nat) returns (report: PurgeReport)
    requires store.Sound() && Monotone(clock)
    modifies store
    ensures store.Sound() && PassAtTick(old(store.db), store.db, request, report, clock, 3 * i)
    ensures Measure(store.db.rows) <= Measure(old(store.db).rows)
    ensures !IsComplete(report, request.batchSize) && request.batchSize >= 1 ==>
              Measure(store.db.rows) < Measure(old(store.db).rows)
  {
    var t := 3 * i;
    report := store.Purge(request, clock(t), clock(t + 1), clock(t + 2));
    TickProgress(old(store.db), store.db, request, report, clock, t);
    if !IsComplete(report, request.batchSize) && request.batchSize >= 1 {
      SomethingReported(report, request.batchSize);
    }
  }

  /** The caller's loop around `purge`, with a positive batch and no other writer: pass after pass until a
      report is complete. It ends, since every pass but the last makes progress. */
  method PurgeUntilComplete(store: OutboxStore, request: PurgeRequest, clock: nat -> Time)
    returns (passes: nat, ghost tables: seq<Db>, ghost reports: seq<PurgeReport>)
    requires store.Sound() && request.batchSize >= 1 && Monotone(clock)
    modifies store
    ensures store.Sound() && |reports| == passes && Passes(tables, reports, request, clock)
    ensures tables[0] == old(store.db) && tables[passes] == store.db
    ensures FirstComplete(reports, request.batchSize)
    ensures passes - 1 + Measure(store.db.rows) <= Measure(old(store.db).rows)
    ensures CleanAt(store.db.rows, request, clock, 3 * (passes - 1))
    ensures var t := 3 * (passes - 1); NothingOld(store.db.rows, request, clock(t), clock(t + 1), clock(t + 2))
  {
    tables, reports, passes := [store.db], [], 0;
    var done := false;
    while !done
      invariant store.Sound() && Passes(tables, reports, request, clock) && |reports| == passes
      invariant tables[0] == old(store.db) && tables[passes] == store.db
      invariant if done then FirstComplete(reports, request.batchSize)
                  else NoneComplete(reports, request.batchSize, passes)
      decreases !done, Measure(store.db.rows)
    {
      var report := PurgeAt(store, request, clock, passes);
      done := IsComplete(report, request.batchSize);
      PassesGrow(tables, reports, request, clock, store.db, report);
      ReportsGrow(reports, report, request.batchSize);
      tables, reports, passes := tables + [store.db], reports + [report], passes + 1;
    }
    PassesEnd(tables, reports, request, clock);
    var t := 3 * (passes - 1);
    CleanIsNothingOld(store.db.rows, request, clock(t), clock(t + 1), clock(t + 2));
  }
}
