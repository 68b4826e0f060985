/** The three bounded maintenance statements of `purge`, and what one bounded pass achieves. */
module Purge {
  import opened Basics
  import opened OutboxTable

  datatype PurgeRequest = PurgeRequest(publishedRetention: Option<nat>, deadRetention: Option<nat>, batchSize: nat)

  datatype PurgeReport = PurgeReport(publishedDeleted: nat, deadDeleted: nat, expiredToDead: nat)

  predicate IsComplete(r: PurgeReport, batchSize: nat) {
    r.publishedDeleted < batchSize && r.deadDeleted < batchSize && r.expiredToDead < batchSize
  }

  function Reported(r: PurgeReport): nat {
    r.publishedDeleted + r.deadDeleted + r.expiredToDead
  }

  predicate Within(r: PurgeReport, batchSize: nat) {
    r.publishedDeleted <= batchSize && r.deadDeleted <= batchSize && r.expiredToDead <= batchSize
  }

  datatype Kind = OldPublished(keptFor: nat) | OldDead(keptFor: nat) | ExpiredPending

  predicate Matches(r: Row, kind: Kind, now: Time) {
    match kind
    case OldPublished(keptFor) => PurgeablePublished(r, now, Interval(keptFor))
    case OldDead(keptFor) => PurgeableDead(r, now, Interval(keptFor))
    case ExpiredPending => Sweepable(r, now)
  }

  function Matching(rows: map<MessageId, Row>, kind: Kind, now: Time): set<MessageId> {
    set id | id in rows && Matches(rows[id], kind, now)
  }

  function PurgeStmt(kind: Kind, ids: set<MessageId>, now: Time): Stmt {
    match kind
    case OldPublished(keptFor) => PurgePublished(ids, now, Interval(keptFor))
    case OldDead(keptFor) => PurgeDeadRetention(ids, now, Interval(keptFor))
    case ExpiredPending => ExpirySweep(ids, now)
  }

  // ---------------------------------------------------------------- progress

  function Live(rows: map<MessageId, Row>): set<MessageId> {
    set id | id in rows && !Terminal(rows[id])
  }

  /** Twice the live rows plus the terminal ones. */
  function Measure(rows: map<MessageId, Row>): nat {
    |rows| + |Live(rows)|
  }

  lemma KeysCount(rows: map<MessageId, Row>)
    ensures |rows| == |rows.Keys|
  {
  }

  lemma SweepProgress(db: Db, ids: set<MessageId>, now: Time)
    requires Valid(db) && ids <= Matching(db.rows, ExpiredPending, now)
    ensures Measure(Apply(db, ExpirySweep(ids, now)).rows) + |ids| == Measure(db.rows)
  {
    var after := Apply(db, ExpirySweep(ids, now)).rows;
    assert after.Keys == db.rows.Keys;
    assert Live(db.rows) == Live(after) + ids;
    assert Live(after) !! ids;
    KeysCount(after);
    KeysCount(db.rows);
  }

  lemma RemovalProgress(before: map<MessageId, Row>, after: map<MessageId, Row>, ids: set<MessageId>)
    requires ids <= before.Keys && after == before - ids && forall id | id in ids :: Terminal(before[id])
    ensures Measure(after) + |ids| == Measure(before)
  {
    assert before.Keys == after.Keys + ids;
    assert Live(after) == Live(before);
    KeysCount(after);
    KeysCount(before);
  }

  lemma DeleteProgress(db: Db, st: Stmt, ids: set<MessageId>)
    requires Deletes(st) && ids == Affected(db, st) && forall id | id in ids :: Terminal(db.rows[id])
    ensures Measure(Apply(db, st).rows) + |ids| == Measure(db.rows)
  {
    assert ApplyRows(db.rows, st) == db.rows - ids;
    RemovalProgress(db.rows, ApplyRows(db.rows, st), ids);
  }

  /** A purge statement acts on every row it chose and makes one unit of progress on each. */
  lemma PurgeProgress(db: Db, kind: Kind, ids: set<MessageId>, now: Time)
    requires Valid(db) && ids <= Matching(db.rows, kind, now)
    ensures Affected(db, PurgeStmt(kind, ids, now)) == ids
    ensures Measure(Apply(db, PurgeStmt(kind, ids, now)).rows) + |ids| == Measure(db.rows)
  {
    assert Affected(db, PurgeStmt(kind, ids, now)) == ids;
    if kind.ExpiredPending? {
      SweepProgress(db, ids, now);
    } else {
      DeleteProgress(db, PurgeStmt(kind, ids, now), ids);
    }
  }

  // ---------------------------------------------------------------- cleanliness

  predicate Clean(rows: map<MessageId, Row>, kind: Kind, now: Time) {
    forall id | id in rows :: !Matches(rows[id], kind, now)
  }

  /** A statement that found fewer rows than its limit leaves none that match. */
  lemma ShortPassCleans(db: Db, kind: Kind, now: Time)
    requires Valid(db)
    ensures Clean(Apply(db, PurgeStmt(kind, Matching(db.rows, kind, now), now)).rows, kind, now)
  {
  }

  /** A later statement of the pass does not undo an earlier one: nothing becomes published, and a
      row swept to dead just now is too young to be purged, whatever the retention. */
  lemma LaterPassKeepsClean(db: Db, kind: Kind, now: Time, next: Kind, ids: set<MessageId>, later: Time)
    requires Clean(db.rows, kind, now) && now <= later && (kind.OldPublished? || kind.OldDead?)
    ensures Clean(Apply(db, PurgeStmt(next, ids, later)).rows, kind, now)
  {
  }

  /** Nothing is left for any statement the request enables, each at its own clock reading. */
  predicate AllClean(rows: map<MessageId, Row>, request: PurgeRequest, first: Time, second: Time, third: Time) {
    && (request.publishedRetention.Some? ==> Clean(rows, OldPublished(request.publishedRetention.value), first))
    && (request.deadRetention.Some? ==> Clean(rows, OldDead(request.deadRetention.value), second))
    && Clean(rows, ExpiredPending, third)
  }

  // ---------------------------------------------------------------- one statement, one pass

  ghost predicate Chose(before: Db, after: Db, kind: Kind, batchSize: nat, now: Time, n: nat, ids: set<MessageId>) {
    && ids <= Matching(before.rows, kind, now)
    && n == |ids| == Min(batchSize, |Matching(before.rows, kind, now)|)
    && after == Apply(before, PurgeStmt(kind, ids, now))
  }

  /** A bounded statement acted on `n` matching rows: as many as there are, up to the batch. */
  ghost predicate PurgedBy(before: Db, after: Db, kind: Kind, batchSize: nat, now: Time, n: nat) {
    exists ids :: Chose(before, after, kind, batchSize, now, n, ids)
  }

  lemma AllChosen(ids: set<MessageId>, matching: set<MessageId>)
    requires ids <= matching && |ids| == |matching|
    ensures ids == matching
  {
    if ids != matching {
      SmallerSet(ids, matching);
    }
  }

  /** What one statement achieves: it keeps the table valid, makes `n` units of progress, leaves nothing
      that matches if it fell short of its limit, and undoes nothing an earlier one achieved. */
  lemma PurgedProgress(before: Db, after: Db, kind: Kind, batchSize: nat, now: Time, n: nat)
    requires Valid(before) && PurgedBy(before, after, kind, batchSize, now, n)
    ensures Valid(after) && Measure(after.rows) + n == Measure(before.rows) && n <= batchSize
    ensures n < batchSize ==> Clean(after.rows, kind, now)
  {
    var ids :| Chose(before, after, kind, batchSize, now, n, ids);
    PurgeProgress(before, kind, ids, now);
    ApplyKeepsValid(before, PurgeStmt(kind, ids, now));
    if n < batchSize {
      AllChosen(ids, Matching(before.rows, kind, now));
      ShortPassCleans(before, kind, now);
    }
  }

  lemma PurgedKeepsClean(before: Db, after: Db, next: Kind, batchSize: nat, later: Time, n: nat, kind: Kind, now: Time)
    requires PurgedBy(before, after, next, batchSize, later, n)
    requires Clean(before.rows, kind, now) && now <= later && (kind.OldPublished? || kind.OldDead?)
    ensures Clean(after.rows, kind, now)
  {
    var ids :| Chose(before, after, next, batchSize, later, n, ids);
    LaterPassKeepsClean(before, kind, now, next, ids, later);
  }

  function PublishedKind(request: PurgeRequest): Option<Kind> {
    if request.publishedRetention.None? then None else Some(OldPublished(request.publishedRetention.value))
  }

  function DeadKind(request: PurgeRequest): Option<Kind> {
    if request.deadRetention.None? then None else Some(OldDead(request.deadRetention.value))
  }

  /** A statement that may be switched off. */
  ghost predicate Stage(before: Db, after: Db, kind: Option<Kind>, batchSize: nat, now: Time, n: nat) {
    if kind.None? then after == before && n == 0 else PurgedBy(before, after, kind.value, batchSize, now, n)
  }

  ghost predicate PassVia(before: Db, one: Db, two: Db, after: Db, request: PurgeRequest, report: PurgeReport,
                          first: Time, second: Time, third: Time)
  {
    && Stage(before, one, PublishedKind(request), request.batchSize, first, report.publishedDeleted)
    && Stage(one, two, DeadKind(request), request.batchSize, second, report.deadDeleted)
    && Stage(two, after, Some(ExpiredPending), request.batchSize, third, report.expiredToDead)
  }

  /** One call of `purge`: published rows, dead rows, then the sweep, each at its own clock reading. */
  ghost predicate Pass(before: Db, after: Db, request: PurgeRequest, report: PurgeReport, first: Time, second: Time,
                       third: Time) {
    exists one, two :: PassVia(before, one, two, after, request, report, first, second, third)
  }

  lemma StageProgress(before: Db, after: Db, kind: Option<Kind>, batchSize: nat, now: Time, n: nat)
    requires Valid(before) && Stage(before, after, kind, batchSize, now, n)
    ensures Valid(after) && Measure(after.rows) + n == Measure(before.rows) && n <= batchSize
    ensures kind.Some? && n < batchSize ==> Clean(after.rows, kind.value, now)
  {
    if kind.Some? {
      PurgedProgress(before, after, kind.value, batchSize, now, n);
    }
  }

  lemma StageKeepsClean(before: Db, after: Db, next: Option<Kind>, batchSize: nat, later: Time, n: nat, kind: Kind,
                        now: Time)
    requires Stage(before, after, next, batchSize, later, n)
    requires Clean(before.rows, kind, now) && now <= later && (kind.OldPublished? || kind.OldDead?)
    ensures Clean(after.rows, kind, now)
  {
    if next.Some? {
      PurgedKeepsClean(before, after, next.value, batchSize, later, n, kind, now);
    }
  }

  lemma PassCleans(before: Db, one: Db, two: Db, after: Db, request: PurgeRequest, report: PurgeReport,
                   first: Time, second: Time, third: Time)
    requires PassVia(before, one, two, after, request, report, first, second, third) && first <= second <= third
    requires request.publishedRetention.Some? ==> Clean(one.rows, PublishedKind(request).value, first)
    requires request.deadRetention.Some? ==> Clean(two.rows, DeadKind(request).value, second)
    requires Clean(after.rows, ExpiredPending, third)
    ensures AllClean(after.rows, request, first, second, third)
  {
    var batch := request.batchSize;
    if request.publishedRetention.Some? {
      var kind := PublishedKind(request).value;
      StageKeepsClean(one, two, DeadKind(request), batch, second, report.deadDeleted, kind, first);
      StageKeepsClean(two, after, Some(ExpiredPending), batch, third, report.expiredToDead, kind, first);
    }
    if request.deadRetention.Some? {
      StageKeepsClean(two, after, Some(ExpiredPending), batch, third, report.expiredToDead, DeadKind(request).value,
          second);
    }
  }

  lemma PassViaProgress(before: Db, one: Db, two: Db, after: Db, request: PurgeRequest, report: PurgeReport,
                        first: Time, second: Time, third: Time)
    requires Valid(before) && PassVia(before, one, two, after, request, report, first, second, third)
    ensures Valid(one) && Valid(two) && Valid(after) && Within(report, request.batchSize)
    ensures Measure(after.rows) + Reported(report) == Measure(before.rows)
  {
    StageProgress(before, one, PublishedKind(request), request.batchSize, first, report.publishedDeleted);
    StageProgress(one, two, DeadKind(request), request.batchSize, second, report.deadDeleted);
    StageProgress(two, after, Some(ExpiredPending), request.batchSize, third, report.expiredToDead);
  }

  lemma CompletePassCleans(before: Db, one: Db, two: Db, after: Db, request: PurgeRequest, report: PurgeReport,
                           first: Time, second: Time, third: Time)
    requires Valid(before) && Valid(one) && Valid(two) && IsComplete(report, request.batchSize)
    requires PassVia(before, one, two, after, request, report, first, second, third) && first <= second <= third
    ensures AllClean(after.rows, request, first, second, third)
  {
    StageProgress(before, one, PublishedKind(request), request.batchSize, first, report.publishedDeleted);
    StageProgress(one, two, DeadKind(request), request.batchSize, second, report.deadDeleted);
    StageProgress(two, after, Some(ExpiredPending), request.batchSize, third, report.expiredToDead);
    PassCleans(before, one, two, after, request, report, first, second, third);
  }

  /** What a pass achieves: a unit of progress per row reported; and if the report is complete, nothing
      the request names is left, although the sweep has made new dead rows. */
  lemma PassProgress(before: Db, after: Db, request: PurgeRequest, report: PurgeReport,
                     first: Time, second: Time, third: Time)
    requires Valid(before) && Pass(before, after, request, report, first, second, third) && first <= second <= third
    ensures Valid(after) && Measure(after.rows) + Reported(report) == Measure(before.rows)
    ensures Within(report, request.batchSize)
    ensures IsComplete(report, request.batchSize) ==> AllClean(after.rows, request, first, second, third)
  {
    var one, two := PassTables(before, after, request, report, first, second, third);
    PassViaAll(before, one, two, after, request, report, first, second, third);
  }

  /** The tables between the statements of a pass. */
  lemma PassTables(before: Db, after: Db, request: PurgeRequest, report: PurgeReport,
                   first: Time, second: Time, third: Time)
    returns (one: Db, two: Db)
    requires Pass(before, after, request, report, first, second, third)
    ensures PassVia(before, one, two, after, request, report, first, second, third)
  {
    one, two :| PassVia(before, one, two, after, request, report, first, second, third);
  }

  lemma PassViaAll(before: Db, one: Db, two: Db, after: Db, request: PurgeRequest, report: PurgeReport,
                   first: Time, second: Time, third: Time)
    requires Valid(before) && first <= second <= third
    requires PassVia(before, one, two, after, request, report, first, second, third)
    ensures Valid(after) && Measure(after.rows) + Reported(report) == Measure(before.rows)
    ensures Within(report, request.batchSize)
    ensures IsComplete(report, request.batchSize) ==> AllClean(after.rows, request, first, second, third)
  {
    PassViaProgress(before, one, two, after, request, report, first, second, third);
    if IsComplete(report, request.batchSize) {
      CompletePassCleans(before, one, two, after, request, report, first, second, third);
    }
  }

  // ---------------------------------------------------------------- row by row

  /** Published, or dead, since before the retention, at a reading of the clock. */
  predicate LongSince(since: Option<Time>, keptFor: Option<nat>, now: Time) {
    since.Some? && keptFor.Some? && since.value + Interval(keptFor.value) < now
  }

  /** Past its expiry, neither published nor dead, and not under a running lease. */
  predicate ExpiredAt(r: Row, now: Time) {
    && r.expiresAt.Some? && r.expiresAt.value < now && r.publishedAt.None? && r.deadAt.None?
    && (r.lockedUntil.None? || r.lockedUntil.value < now)
  }

  function Expire(r: Row, now: Time): Row {
    r.(lockedBy := None, lockedUntil := None, deadAt := Some(now), deadReason := Some(Expired))
  }

  /** What the purge of old rows does to row `m`, which is old or not: it removes it only if it is old, and
      if it fell short of its limit, whenever it is. */
  ghost predicate Removed(before: map<MessageId, Row>, after: map<MessageId, Row>, m: MessageId, aged: bool,
                          short: bool) {
    && (m in after ==> m in before && after[m] == before[m] && (short ==> !aged))
    && (m in before && m !in after ==> aged)
  }

  lemma PublishedStage(before: Db, after: Db, request: PurgeRequest, now: Time, n: nat, m: MessageId)
    requires Valid(before) && Stage(before, after, PublishedKind(request), request.batchSize, now, n)
    ensures var aged := m in before.rows && LongSince(before.rows[m].publishedAt, request.publishedRetention, now);
            Removed(before.rows, after.rows, m, aged, n < request.batchSize)
  {
    StageProgress(before, after, PublishedKind(request), request.batchSize, now, n);
    if request.publishedRetention.Some? {
      var ids :| Chose(before, after, PublishedKind(request).value, request.batchSize, now, n, ids);
    }
  }

  lemma DeadStage(before: Db, after: Db, request: PurgeRequest, now: Time, n: nat, m: MessageId)
    requires Valid(before) && Stage(before, after, DeadKind(request), request.batchSize, now, n)
    ensures var aged := m in before.rows && LongSince(before.rows[m].deadAt, request.deadRetention, now);
            Removed(before.rows, after.rows, m, aged, n < request.batchSize)
  {
    StageProgress(before, after, DeadKind(request), request.batchSize, now, n);
    if request.deadRetention.Some? {
      var ids :| Chose(before, after, DeadKind(request).value, request.batchSize, now, n, ids);
    }
  }

  /** What the sweep does to a row. */
  ghost predicate Swept(before: map<MessageId, Row>, after: map<MessageId, Row>, m: MessageId, now: Time, short: bool) {
    && (m in before <==> m in after)
    && (m in before ==>
          || (ExpiredAt(before[m], now) && after[m] == Expire(before[m], now))
          || (after[m] == before[m] && (short ==> !ExpiredAt(before[m], now))))
  }

  lemma SweepStage(before: Db, after: Db, batchSize: nat, now: Time, n: nat, m: MessageId)
    requires Valid(before) && Stage(before, after, Some(ExpiredPending), batchSize, now, n)
    ensures Swept(before.rows, after.rows, m, now, n < batchSize)
  {
    var ids :| Chose(before, after, ExpiredPending, batchSize, now, n, ids);
    if n < batchSize {
      AllChosen(ids, Matching(before.rows, ExpiredPending, now));
    }
  }

  /** What one pass does to row `m`. A row goes only if it has been published, or dead, for longer than the
      retention asked for; a row that stays is as it was, or has expired and is now dead; and a statement
      that fell short of its limit left no such row behind. */
  ghost predicate PassedOver(before: map<MessageId, Row>, after: map<MessageId, Row>, request: PurgeRequest,
                             report: PurgeReport, first: Time, second: Time, third: Time, m: MessageId) {
    if m !in before then m !in after
    else
      var r := before[m];
      var published := LongSince(r.publishedAt, request.publishedRetention, first);
      var dead := LongSince(r.deadAt, request.deadRetention, second);
      if m !in after then published || dead
      else
        && (report.publishedDeleted < request.batchSize ==> !published)
        && (report.deadDeleted < request.batchSize ==> !dead)
        && ((ExpiredAt(r, third) && after[m] == Expire(r, third))
            || (after[m] == r && (report.expiredToDead < request.batchSize ==> !ExpiredAt(r, third))))
  }

  lemma PassRow(before: Db, after: Db, request: PurgeRequest, report: PurgeReport, first: Time, second: Time,
                third: Time, m: MessageId)
    requires Valid(before) && Pass(before, after, request, report, first, second, third)
    ensures PassedOver(before.rows, after.rows, request, report, first, second, third, m)
  {
    var one, two := PassTables(before, after, request, report, first, second, third);
    PassViaProgress(before, one, two, after, request, report, first, second, third);
    PublishedStage(before, one, request, first, report.publishedDeleted, m);
    DeadStage(one, two, request, second, report.deadDeleted, m);
    SweepStage(two, after, request.batchSize, third, report.expiredToDead, m);
  }

  /** What a complete pass leaves: nothing published or dead beyond its retention, nothing expired. */
  predicate NothingOld(rows: map<MessageId, Row>, request: PurgeRequest, first: Time, second: Time, third: Time) {
    forall m | m in rows ::
      && !LongSince(rows[m].publishedAt, request.publishedRetention, first)
      && !LongSince(rows[m].deadAt, request.deadRetention, second)
      && !ExpiredAt(rows[m], third)
  }

  lemma CleanIsNothingOld(rows: map<MessageId, Row>, request: PurgeRequest, first: Time, second: Time, third: Time)
    ensures AllClean(rows, request, first, second, third) <==> NothingOld(rows, request, first, second, third)
  {
    forall m | m in rows
      ensures request.publishedRetention.Some? ==>
                (Matches(rows[m], OldPublished(request.publishedRetention.value), first) <==>
                  LongSince(rows[m].publishedAt, request.publishedRetention, first))
      ensures request.deadRetention.Some? ==>
                (Matches(rows[m], OldDead(request.deadRetention.value), second) <==>
                  LongSince(rows[m].deadAt, request.deadRetention, second))
      ensures Matches(rows[m], ExpiredPending, third) <==> ExpiredAt(rows[m], third)
    {
    }
    if NothingOld(rows, request, first, second, third) {
      assert Clean(rows, ExpiredPending, third);
    }
  }

  // ---------------------------------------------------------------- many passes

  ghost predicate Monotone(clock: nat -> Time) {
    forall i, j | i <= j :: clock(i) <= clock(j)
  }

  /** The readings of the three statements from tick `t` on. */
  ghost predicate CleanAt(rows: map<MessageId, Row>, request: PurgeRequest, clock: nat -> Time, t: nat) {
    AllClean(rows, request, clock(t), clock(t + 1), clock(t + 2))
  }

  ghost predicate PassAtTick(before: Db, after: Db, request: PurgeRequest, report: PurgeReport, clock: nat -> Time,
                             t: nat) {
    Pass(before, after, request, report, clock(t), clock(t + 1), clock(t + 2))
  }

  ghost predicate PassAt(tables: seq<Db>, reports: seq<PurgeReport>, request: PurgeRequest, clock: nat -> Time, i: nat)
    requires i < |reports| && |tables| == |reports| + 1
  {
    PassAtTick(tables[i], tables[i + 1], request, reports[i], clock, 3 * i)
  }

  /** Pass after pass, three readings each, with no other writer in between. */
  ghost predicate Passes(tables: seq<Db>, reports: seq<PurgeReport>, request: PurgeRequest, clock: nat -> Time) {
    |tables| == |reports| + 1 && forall i: nat | i < |reports| :: PassAt(tables, reports, request, clock, i)
  }

  lemma PassesGrow(tables: seq<Db>, reports: seq<PurgeReport>, request: PurgeRequest, clock: nat -> Time, after: Db,
                   report: PurgeReport)
    requires Passes(tables, reports, request, clock)
    requires PassAtTick(tables[|reports|], after, request, report, clock, 3 * |reports|)
    ensures Passes(tables + [after], reports + [report], request, clock)
  {
    forall i: nat | i < |reports| + 1 ensures PassAt(tables + [after], reports + [report], request, clock, i) {
      assert i < |reports| ==> PassAt(tables, reports, request, clock, i);
    }
  }

  /** The first `k` reports ask for another pass. */
  predicate NoneComplete(reports: seq<PurgeReport>, batchSize: nat, k: nat) {
    k <= |reports| && forall i | 0 <= i < k :: !IsComplete(reports[i], batchSize)
  }

  /** The last report is complete and none before it is. */
  predicate FirstComplete(reports: seq<PurgeReport>, batchSize: nat) {
    reports != [] && IsComplete(reports[|reports| - 1], batchSize) && NoneComplete(reports, batchSize, |reports| - 1)
  }

  lemma ReportsGrow(reports: seq<PurgeReport>, next: PurgeReport, batchSize: nat)
    requires NoneComplete(reports, batchSize, |reports|)
    ensures if IsComplete(next, batchSize) then FirstComplete(reports + [next], batchSize)
            else NoneComplete(reports + [next], batchSize, |reports| + 1)
  {
  }

  lemma SomethingReported(report: PurgeReport, batchSize: nat)
    requires Within(report, batchSize) && !IsComplete(report, batchSize) && batchSize >= 1
    ensures Reported(report) >= 1
  {
  }

  /** A pass, in terms of the clock. */
  lemma TickProgress(before: Db, after: Db, request: PurgeRequest, report: PurgeReport, clock: nat -> Time, t: nat)
    requires Valid(before) && PassAtTick(before, after, request, report, clock, t) && Monotone(clock)
    ensures Valid(after) && Measure(after.rows) + Reported(report) == Measure(before.rows)
    ensures Within(report, request.batchSize)
    ensures IsComplete(report, request.batchSize) ==> CleanAt(after.rows, request, clock, t)
  {
    PassProgress(before, after, request, report, clock(t), clock(t + 1), clock(t + 2));
  }

  /** As long as no report is complete, every pass makes progress. */
  lemma {:induction false} PassesProgress(tables: seq<Db>, reports: seq<PurgeReport>, request: PurgeRequest,
                                          clock: nat -> Time, k: nat)
    requires Passes(tables, reports, request, clock) && Valid(tables[0]) && Monotone(clock) && request.batchSize >= 1
    requires NoneComplete(reports, request.batchSize, k)
    ensures Valid(tables[k]) && k + Measure(tables[k].rows) <= Measure(tables[0].rows)
  {
    if k > 0 {
      PassesProgress(tables, reports, request, clock, k - 1);
      OnePassProgress(tables, reports, request, clock, k);
    }
  }

  lemma OnePassProgress(tables: seq<Db>, reports: seq<PurgeReport>, request: PurgeRequest, clock: nat -> Time, k: nat)
    requires Passes(tables, reports, request, clock) && Monotone(clock) && request.batchSize >= 1
    requires 0 < k <= |reports| && Valid(tables[k - 1]) && !IsComplete(reports[k - 1], request.batchSize)
    ensures Valid(tables[k]) && 1 + Measure(tables[k].rows) <= Measure(tables[k - 1].rows)
  {
    var before, after, report := tables[k - 1], tables[k], reports[k - 1];
    assert PassAtTick(before, after, request, report, clock, 3 * (k - 1)) by {
      assert PassAt(tables, reports, request, clock, k - 1);
    }
    TickProgress(before, after, request, report, clock, 3 * (k - 1));
    SomethingReported(report, request.batchSize);
  }

  /** When the first complete report comes in, there have been no more passes than twice the live rows
      plus the terminal ones, and one; and nothing the request names is left at the last readings. */
  lemma PassesEnd(tables: seq<Db>, reports: seq<PurgeReport>, request: PurgeRequest, clock: nat -> Time)
    requires Passes(tables, reports, request, clock) && Valid(tables[0]) && Monotone(clock) && request.batchSize >= 1
    requires FirstComplete(reports, request.batchSize)
    ensures |reports| - 1 + Measure(tables[|reports|].rows) <= Measure(tables[0].rows)
    ensures CleanAt(tables[|reports|].rows, request, clock, 3 * (|reports| - 1))
  {
    var k := |reports| - 1;
    PassesProgress(tables, reports, request, clock, k);
    assert PassAt(tables, reports, request, clock, k);
    TickProgress(tables[k], tables[k + 1], request, reports[k], clock, 3 * k);
  }
}
