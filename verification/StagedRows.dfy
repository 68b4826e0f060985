/** The row codec and the table together: what the table's statements leave of a staged envelope. */
module StagedRows {
  import opened Basics
  import opened Headers
  import opened Envelopes
  import opened RowCodec
  import opened OutboxTable
  import opened TableRuns

  /** The state columns of a table row, as the reader finds them. */
  function StateOf(r: Row, lastError: Option<string>): State {
    State(r.availableAt, r.attempts, r.lockedBy, r.lockedUntil, r.publishedAt, r.deadAt,
          match r.deadReason { case None => None case Some(reason) => Some(EncodeDeadReason(reason)) },
          lastError)
  }

  /** The table row of a freshly inserted raw row. */
  ghost function Inserted(raw: RawRow): Row {
    Row(raw.sequence, raw.messageType, raw.tenantId, Decodable(raw), raw.expiresAt, raw.state.availableAt,
        0, None, None, None, None, None)
  }

  /** Workers are named by valid ids. */
  ghost predicate ValidWorkers(sts: seq<Stmt>) {
    forall i | 0 <= i < |sts| :: sts[i].Claim? ==> IsWorkerId(sts[i].worker)
  }

  /** Whatever state a run of statements leaves a row in, the reader accepts it. */
  lemma ReachableStateReads(dbs: seq<Db>, sts: seq<Stmt>, k: nat, id: MessageId, lastError: Option<string>)
    requires Run(dbs, sts) && k <= |sts| && ValidWorkers(sts) && id in dbs[k].rows &&
               dbs[k].rows[id].attempts <= I32_MAX
    ensures StateOk(StateOf(dbs[k].rows[id], lastError))
  {
    var r := dbs[k].rows[id];
    if r.lockedBy.Some? {
      LockedMeansHeld(dbs, sts, k, id, r.lockedBy.value);
    }
    if r.deadReason.Some? {
      assert StateOf(r, lastError).deadReason.value == EncodeDeadReason(r.deadReason.value);
    }
  }

  /** The record read back carries the row's own state. */
  predicate SameState(record: OutboxRecord, r: Row) {
    && record.attempts == r.attempts && record.availableAt == r.availableAt
    && record.lockedBy == r.lockedBy && record.lockedUntil == r.lockedUntil
    && record.publishedAt == r.publishedAt && record.deadAt == r.deadAt && record.deadReason == r.deadReason
  }

  lemma StateComesBack(raw: RawRow, r: Row, lastError: Option<string>)
    requires CheckColumns(raw) == None && CheckState(StateOf(r, lastError)) == None
    ensures var stored := raw.(state := StateOf(r, lastError));
            CheckColumns(stored) == None && SameState(RecordOf(stored, HeadersIn(stored.headers)), r)
  {
    if r.deadReason.Some? {
      DeadReasonCodec(r.deadReason.value, EncodeDeadReason(r.deadReason.value));
    }
  }

  /** An envelope staged into the table is never poisoned: in every later table that still has its row,
      whatever anybody's statements have done to it, the claim finds it decodable and reading it gives
      the envelope back - but for the millisecond of `sent_at`, the microsecond of `expires_at`, the empty
      header map and the content type it was staged with - together with the row's state. */
  lemma StagedIsNeverPoisoned(dbs: seq<Db>, sts: seq<Stmt>, i: nat, k: nat, id: MessageId, e: Envelope,
                              payload: seq<bv8>, contentType: string, orderingKey: Option<string>, sequence: int,
                              now: Time, lastError: Option<string>)
    requires Run(dbs, sts) && i < k <= |sts| && ValidWorkers(sts)
    requires WellTyped(e) && IsContentType(contentType) && (e.sentAt.Some? ==> Representable(e.sentAt.value))
    requires sts[i] == Insert(id, Inserted(InsertRow(e, payload, contentType, orderingKey, sequence, now)))
    requires id in dbs[k].rows && dbs[k].rows[id].attempts <= I32_MAX
    ensures dbs[k].rows[id].decodable
    ensures var raw := InsertRow(e, payload, contentType, orderingKey, sequence, now);
            var row := raw.(state := StateOf(dbs[k].rows[id], lastError));
            && Decodable(row)
            && RecordOf(row, HeadersIn(row.headers)).envelope == Stored(e, payload, contentType)
            && SameState(RecordOf(row, HeadersIn(row.headers)), dbs[k].rows[id])
            && RecordOf(row, HeadersIn(row.headers)).sequence == dbs[k].rows[id].sequence == sequence
            && RecordOf(row, HeadersIn(row.headers)).createdAt == now
            && RecordOf(row, HeadersIn(row.headers)).lastError == lastError
  {
    var raw := InsertRow(e, payload, contentType, orderingKey, sequence, now);
    RowRoundTrip(e, payload, contentType, orderingKey, sequence, now, raw.state);
    assert raw.(state := raw.state) == raw;
    assert StepAt(dbs, sts, i);
    ImmutableColumns(dbs, sts, i + 1, k, id);
    ReachableStateReads(dbs, sts, k, id, lastError);
    RowRoundTrip(e, payload, contentType, orderingKey, sequence, now, StateOf(dbs[k].rows[id], lastError));
    StateComesBack(raw, dbs[k].rows[id], lastError);
  }
}
