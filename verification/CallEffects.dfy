/** What a call of a dispatcher does to the table when it commits, row by row and column by column. */
module CallEffects {
  import opened Basics
  import opened DispatcherState
  import opened OutboxTable
  import opened Protocol
  import opened ProtocolRuns

  ghost predicate NamesRow(items: seq<Claimed>, m: MessageId) {
    exists x :: x in items && x.id == m
  }

  /** The row after the call's next statement at reading `now`: nothing happens to a row its worker does not
      hold; a row it holds is published, delayed by a retry among the items, killed by a death among them,
      freed, or leased anew - whichever the call asked for. */
  ghost predicate Written(r: Row, r': Row, call: Call, m: MessageId, now: Time) {
    var free := r.(lockedBy := None, lockedUntil := None);
    if r.lockedBy != Some(call.worker) then r' == r
    else
      match call.request
      case CompleteReq(items) =>
        r' == if NamesRow(items, m) then free.(publishedAt := Some(now), attempts := r.attempts + 1) else r
      case FailReq(items) =>
        || (exists f :: f in items && f.claim.id == m && f.outcome.Retry? && call.stage == 0 &&
              r' == free.(attempts := r.attempts + 1, availableAt := now + Interval(f.outcome.delay)))
        || (exists f :: f in items && f.claim.id == m && f.outcome.Dead? && call.stage == 1 &&
              r' == free.(attempts := r.attempts + 1, deadAt := Some(now), deadReason := Some(f.outcome.reason)))
        || (r' == r && forall f | f in items && f.claim.id == m :: f.outcome.Retry? != (call.stage == 0))
      case ReleaseReq(items) => r' == if NamesRow(items, m) then free else r
      case ExtendReq(items, lease) =>
        r' == if NamesRow(items, m) then r.(lockedUntil := Some(now + Interval(lease))) else r
      case AcquireReq(_, _) => true
  }

  lemma StatementWrites(db: Db, c: nat, call: Call, e: Step, m: MessageId)
    requires e.Commit? && m in db.rows && !call.request.AcquireReq? && call.stage < Stages(call.request)
    requires call.request.FailReq? ==> Picks(call.request.fails, call.stage == 0, e.picked)
    ensures var after := Apply(db, NextStmt(c, call, e));
            m in after.rows && Written(db.rows[m], after.rows[m], call, m, e.now)
  {
    if call.request.FailReq? && m in e.picked {
      assert e.picked[m] in call.request.fails;
    }
  }

  /** A committed call has its effect, whenever it commits and whether or not its caller still waits. */
  lemma CommitWrites(s: System, e: Step, m: MessageId)
    requires CanStep(s, e) && e.Commit? && m in s.db.rows && !s.calls[e.call].request.AcquireReq?
    ensures m in After(s, e).db.rows
    ensures Written(s.db.rows[m], After(s, e).db.rows[m], s.calls[e.call], m, e.now)
  {
    StatementWrites(s.db, e.call, s.calls[e.call], e, m);
    TableStep(s, e);
  }

  /** What the dispatcher asks for: its successes, its failures, the rows it tracks, at shutdown the rows it
      hands back - each by name - or as many rows as it has room for and its batch size allows. */
  lemma AsksFor(d: Dispatcher, c: nat)
    ensures Ask(d, AskAcquire(c)).AcquireReq? && Ask(d, AskAcquire(c)).lease == d.settings.lease
    ensures Load(d) <= d.settings.maxInFlight ==>
              Ask(d, AskAcquire(c)).limit == Min(d.settings.batchSize, d.settings.maxInFlight - Load(d))
    ensures Ask(d, AskComplete(c)).CompleteReq? && |Ask(d, AskComplete(c)).completes| == |d.unwrittenComplete|
    ensures forall i | 0 <= i < |d.unwrittenComplete| ::
              Ask(d, AskComplete(c)).completes[i] == d.unwrittenComplete[i].item
    ensures Ask(d, AskFail(c)).FailReq? && |Ask(d, AskFail(c)).fails| == |d.unwrittenFail|
    ensures forall i | 0 <= i < |d.unwrittenFail| :: Ask(d, AskFail(c)).fails[i] == d.unwrittenFail[i].item
    ensures Ask(d, AskExtend(c)).ExtendReq? && Ask(d, AskExtend(c)).lease == d.settings.lease
    ensures Ask(d, Cancel(c)).ReleaseReq? && Ask(d, Finish(c)).ReleaseReq?
  {
  }
}
