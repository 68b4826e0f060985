/** The `outbox` table and the SQL statements issued on it.

    Every statement is a WHERE clause (`Touches`) and either a SET list (`Rewrite`) or a DELETE,
    so one definition of `Apply` serves all of them. A statement carries its own reading of
    `now()`; nothing below relates the readings of two statements, so every theorem here holds
    for clocks that stall, jump, or are read long before the statement takes effect. */
module OutboxTable {
  import opened Basics

  datatype Row = Row(
    sequence: int,
    messageType: string,
    tenantId: Option<string>,
    decodable: bool,              // whether decode_row accepts the immutable columns
    expiresAt: Option<Time>,
    availableAt: Time,
    attempts: nat,
    lockedBy: Option<WorkerId>,
    lockedUntil: Option<Time>,
    publishedAt: Option<Time>,
    deadAt: Option<Time>,
    deadReason: Option<DeadReason>)

  /** One grant of a lease: which claim statement made it, for whom, at which `attempts`. */
  datatype Lease = Lease(claim: nat, worker: WorkerId, attempts: nat)

  /** `rows` is the table. The other fields are history: the ids ever inserted, the sequences ever
      inserted - the identity column hands each out once, but they may commit in any order - and
      the most recent claim of each row. */
  datatype Db = Db(
    rows: map<MessageId, Row>, used: set<MessageId>, sequences: set<int>, latest: map<MessageId, Lease>)

  const EMPTY := Db(map[], {}, {}, map[])

  datatype Stmt =
    | Insert(id: MessageId, row: Row)
    | Claim(claim: nat, worker: WorkerId, now: Time, lease: nat, limit: nat, skipped: set<MessageId>,
        ids: set<MessageId>)
    | Complete(ids: set<MessageId>, worker: WorkerId, now: Time)
    | FailRetry(delays: map<MessageId, nat>, worker: WorkerId, now: Time)
    | FailDead(reasons: map<MessageId, DeadReason>, worker: WorkerId, now: Time)
    | Release(ids: set<MessageId>, worker: WorkerId)
    | Extend(ids: set<MessageId>, worker: WorkerId, now: Time, lease: nat)
    | PoisonSweep(ids: set<MessageId>, worker: WorkerId, now: Time)
    | PurgePublished(ids: set<MessageId>, now: Time, retention: nat)
    | PurgeDeadRetention(ids: set<MessageId>, now: Time, retention: nat)
    | ExpirySweep(ids: set<MessageId>, now: Time)
    | RetryDead(ids: set<MessageId>, now: Time)
    | PurgeDead(ids: set<MessageId>)

  /** The claim's eligibility predicate. */
  predicate Claimable(r: Row, now: Time) {
    && r.publishedAt.None? && r.deadAt.None?
    && r.availableAt <= now
    && (r.lockedUntil.None? || r.lockedUntil.value < now)
    && (r.expiresAt.None? || r.expiresAt.value > now)
  }

  function Eligible(rows: map<MessageId, Row>, now: Time, skipped: set<MessageId>): set<MessageId> {
    set id | id in rows && id !in skipped && Claimable(rows[id], now)
  }

  /** `ORDER BY available_at, sequence`. */
  predicate Before(a: Row, b: Row) {
    a.availableAt < b.availableAt || (a.availableAt == b.availableAt && a.sequence < b.sequence)
  }

  /** `ids` are the first `limit` of `eligible` in claim order. */
  ghost predicate FirstEligible(rows: map<MessageId, Row>, eligible: set<MessageId>, limit: nat, ids: set<MessageId>) {
    && ids <= eligible <= rows.Keys
    && |ids| <= limit
    && (|ids| < limit ==> ids == eligible)
    && forall a, b | a in ids && b in eligible && b !in ids :: Before(rows[a], rows[b])
  }

  predicate PurgeablePublished(r: Row, now: Time, retention: nat) {
    r.publishedAt.Some? && r.publishedAt.value < now - retention
  }

  predicate PurgeableDead(r: Row, now: Time, retention: nat) {
    r.deadAt.Some? && r.deadAt.value < now - retention
  }

  /** The expiry sweep's outer re-check, which does not repeat the `expires_at` comparison. */
  predicate SweepRecheck(r: Row, now: Time) {
    && r.publishedAt.None? && r.deadAt.None?
    && (r.lockedUntil.None? || r.lockedUntil.value < now)
  }

  /** The expiry sweep's subselect. */
  predicate Sweepable(r: Row, now: Time) {
    r.expiresAt.Some? && r.expiresAt.value < now && SweepRecheck(r, now)
  }

  function Unlocked(r: Row): Row {
    r.(lockedBy := None, lockedUntil := None)
  }

  predicate FreshRow(r: Row) {
    && r.attempts == 0 && r.lockedBy.None? && r.lockedUntil.None?
    && r.publishedAt.None? && r.deadAt.None? && r.deadReason.None?
  }

  ghost predicate Enabled(db: Db, st: Stmt) {
    match st
    case Insert(id, row) => id !in db.used && FreshRow(row) && row.sequence !in db.sequences
    case Claim(_, _, now, _, limit, skipped, ids) => FirstEligible(db.rows, Eligible(db.rows, now, skipped), limit, ids)
    case _ => true
  }

  /** The WHERE clause. */
  predicate Touches(st: Stmt, id: MessageId, r: Row) {
    match st
    case Insert(_, _) => false
    case Claim(_, _, _, _, _, _, ids) => id in ids
    case Complete(ids, w, _) => id in ids && r.lockedBy == Some(w)
    case FailRetry(delays, w, _) => id in delays && r.lockedBy == Some(w)
    case FailDead(reasons, w, _) => id in reasons && r.lockedBy == Some(w)
    case Release(ids, w) => id in ids && r.lockedBy == Some(w)
    case Extend(ids, w, _, _) => id in ids && r.lockedBy == Some(w)
    case PoisonSweep(ids, w, _) => id in ids && r.lockedBy == Some(w)
    case PurgePublished(ids, now, retention) => id in ids && PurgeablePublished(r, now, retention)
    case PurgeDeadRetention(ids, now, retention) => id in ids && PurgeableDead(r, now, retention)
    case ExpirySweep(ids, now) => id in ids && SweepRecheck(r, now)
    case RetryDead(ids, _) => id in ids && r.deadAt.Some?
    case PurgeDead(ids) => id in ids && r.deadAt.Some?
  }

  predicate Deletes(st: Stmt) {
    st.PurgePublished? || st.PurgeDeadRetention? || st.PurgeDead?
  }

  /** The SET list. */
  function Rewrite(st: Stmt, id: MessageId, r: Row): Row
    requires Touches(st, id, r)
  {
    match st
    case Claim(_, w, now, lease, _, _, _) => r.(lockedBy := Some(w), lockedUntil := Some(now + lease))
    case Complete(_, _, now) => Unlocked(r).(publishedAt := Some(now), attempts := r.attempts + 1)
    case FailRetry(delays, _, now) => Unlocked(r).(attempts := r.attempts + 1, availableAt := now + delays[id])
    case FailDead(reasons, _, now) =>
      Unlocked(r).(attempts := r.attempts + 1, deadAt := Some(now), deadReason := Some(reasons[id]))
    case Release(_, _) => Unlocked(r)
    case Extend(_, _, now, lease) => r.(lockedUntil := Some(now + lease))
    case PoisonSweep(_, _, now) => Unlocked(r).(deadAt := Some(now), deadReason := Some(Undecodable))
    case ExpirySweep(_, now) => Unlocked(r).(deadAt := Some(now), deadReason := Some(Expired))
    case RetryDead(_, now) => Unlocked(r).(deadAt := None, deadReason := None, availableAt := now, attempts := 0)
    case _ => r
  }

  function ApplyRows(rows: map<MessageId, Row>, st: Stmt): map<MessageId, Row> {
    if st.Insert? then
      rows[st.id := st.row]
    else if Deletes(st) then
      map id | id in rows && !Touches(st, id, rows[id]) :: rows[id]
    else
      map id | id in rows :: if Touches(st, id, rows[id]) then Rewrite(st, id, rows[id]) else rows[id]
  }

  function Apply(db: Db, st: Stmt): Db {
    var after := db.(rows := ApplyRows(db.rows, st));
    match st
    case Insert(id, row) => after.(used := db.used + {id}, sequences := db.sequences + {row.sequence})
    case Claim(claim, w, _, _, _, _, ids) =>
      after.(latest := map id | id in db.latest.Keys + ids * db.rows.Keys ::
        if id in ids && id in db.rows then Lease(claim, w, db.rows[id].attempts) else db.latest[id])
    case _ => after
  }

  /** The rows a statement reports as affected. */
  function Affected(db: Db, st: Stmt): set<MessageId> {
    set id | id in db.rows && Touches(st, id, db.rows[id])
  }

  // ---------------------------------------------------------------- the table's invariant

  /** A published or dead row, never to be claimed again as it stands. */
  predicate Terminal(r: Row) {
    r.publishedAt.Some? || r.deadAt.Some?
  }

  predicate Leased(r: Row) {
    r.lockedBy.Some?
  }

  /** The three CHECK constraints of the migration, and "a leased row is neither published nor dead". */
  predicate WellFormedRow(r: Row) {
    && (Leased(r) ==> !Terminal(r))
    && !(r.publishedAt.Some? && r.deadAt.Some?)
    && r.deadAt.Some? == r.deadReason.Some?
    && r.lockedBy.Some? == r.lockedUntil.Some?
  }

  ghost predicate DistinctSequences(rows: map<MessageId, Row>) {
    forall a, b | a in rows && b in rows && rows[a].sequence == rows[b].sequence :: a == b
  }

  ghost predicate Valid(db: Db) {
    && db.rows.Keys <= db.used
    && (forall id | id in db.rows :: WellFormedRow(db.rows[id]) && db.rows[id].sequence in db.sequences)
    && DistinctSequences(db.rows)
    && (forall id | id in db.rows && Leased(db.rows[id]) ::
          && id in db.latest
          && db.rows[id].lockedBy == Some(db.latest[id].worker)
          && db.rows[id].attempts == db.latest[id].attempts)
  }

  /** What one SET list does to one row: it keeps the row well formed, never touches the immutable
      columns, and every statement that changes `attempts` also closes the lease. */
  lemma RewriteKeepsRow(st: Stmt, id: MessageId, r: Row)
    requires WellFormedRow(r) && Touches(st, id, r) && (st.Claim? ==> !Terminal(r))
    ensures WellFormedRow(Rewrite(st, id, r))
    ensures var r' := Rewrite(st, id, r);
            && r'.sequence == r.sequence && r'.expiresAt == r.expiresAt
            && r'.messageType == r.messageType && r'.tenantId == r.tenantId && r'.decodable == r.decodable
    ensures Leased(Rewrite(st, id, r)) ==>
              Rewrite(st, id, r).attempts == r.attempts && (st.Claim? || (st.Extend? && Leased(r)))
    ensures Leased(Rewrite(st, id, r)) ==> Rewrite(st, id, r).lockedBy == Some(st.worker)
  {
  }

  /** A row seen after a statement is the inserted one, or an earlier row kept or rewritten. */
  lemma RowAfter(db: Db, st: Stmt, id: MessageId)
    requires Enabled(db, st) && id in Apply(db, st).rows && !(st.Insert? && id == st.id)
    ensures id in db.rows && !(Deletes(st) && Touches(st, id, db.rows[id]))
    ensures Apply(db, st).rows[id] == if Touches(st, id, db.rows[id]) then Rewrite(st, id, db.rows[id]) else db.rows[id]
    ensures st.Claim? && id in st.ids ==> Claimable(db.rows[id], st.now)
  {
  }

  lemma ApplyKeepsRow(db: Db, st: Stmt, id: MessageId)
    requires Valid(db) && Enabled(db, st) && id in Apply(db, st).rows
    ensures WellFormedRow(Apply(db, st).rows[id])
    ensures id in db.rows ==> Apply(db, st).rows[id].sequence == db.rows[id].sequence
    ensures id !in db.rows ==> st.Insert? && st.id == id
    ensures Leased(Apply(db, st).rows[id]) ==>
              && id in Apply(db, st).latest
              && Apply(db, st).rows[id].lockedBy == Some(Apply(db, st).latest[id].worker)
              && Apply(db, st).rows[id].attempts == Apply(db, st).latest[id].attempts
  {
    if st.Insert? && id == st.id {
    } else {
      RowAfter(db, st, id);
      if Touches(st, id, db.rows[id]) {
        RewriteKeepsRow(st, id, db.rows[id]);
      }
    }
  }

  /** No statement can violate a table constraint, whoever issues it and whenever. */
  lemma ApplyKeepsValid(db: Db, st: Stmt)
    requires Valid(db) && Enabled(db, st)
    ensures Valid(Apply(db, st))
  {
    var after := Apply(db, st);
    forall id | id in after.rows
      ensures WellFormedRow(after.rows[id]) && after.rows[id].sequence in after.sequences
      ensures id in db.rows ==> after.rows[id].sequence == db.rows[id].sequence
      ensures id !in db.rows ==> st.Insert? && st.id == id
      ensures id in after.used
      ensures Leased(after.rows[id]) ==>
                && id in after.latest
                && after.rows[id].lockedBy == Some(after.latest[id].worker)
                && after.rows[id].attempts == after.latest[id].attempts
    {
      ApplyKeepsRow(db, st, id);
    }
  }
}
