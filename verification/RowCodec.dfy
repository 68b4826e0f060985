/** How an envelope is stored in a row of the outbox table, and read back. */
module RowCodec {
  import opened Basics
  import opened Headers
  import opened Envelopes

  // ---------------------------------------------------------------- epoch milliseconds

  const SECOND: nat := 1_000_000_000
  const I64_MIN: int := -0x8000_0000_0000_0000

  /** The instants a date-time can hold: years -9999 to 9999, in nanoseconds since 1970. */
  const FIRST_INSTANT: int := -377_705_116_800 * SECOND
  const LAST_INSTANT: int := 253_402_300_799 * SECOND + 999_999_999

  predicate Representable(t: Time) {
    FIRST_INSTANT <= t <= LAST_INSTANT
  }

  /** `unix_timestamp`: whole seconds, rounded down. */
  function UnixSeconds(t: Time): int {
    t / SECOND
  }

  function MillisecondOfSecond(t: Time): nat {
    (t % SECOND) / MILLISECOND
  }

  /** Seconds times a thousand plus the milliseconds, saturating if either step leaves `i64`. */
  function EncodeEpochMillis(t: Time): int {
    var scaled := UnixSeconds(t) * 1000;
    var saturated := if UnixSeconds(t) < 0 then I64_MIN else I64_MAX;
    if !(I64_MIN <= scaled <= I64_MAX) then saturated
    else if !(I64_MIN <= scaled + MillisecondOfSecond(t) <= I64_MAX) then saturated
    else scaled + MillisecondOfSecond(t)
  }

  function DecodeEpochMillis(ms: int): Option<Time> {
    if Representable(ms * MILLISECOND) then Some(ms * MILLISECOND) else None
  }

  function FloorToMillis(t: Time): Time {
    t - t % MILLISECOND
  }

  /** Every instant a date-time can hold comes back rounded down to the millisecond - down, not towards
      zero, before 1970. */
  lemma EpochMillisRoundTrip(t: Time)
    requires Representable(t)
    ensures EncodeEpochMillis(t) == t / 1_000_000
    ensures DecodeEpochMillis(EncodeEpochMillis(t)) == Some(FloorToMillis(t))
    ensures FloorToMillis(t) <= t < FloorToMillis(t) + MILLISECOND && FloorToMillis(t) % MILLISECOND == 0
  {
    var s, n := UnixSeconds(t), t % SECOND;
    assert t == s * SECOND + n;
    var ms := MillisecondOfSecond(t);
    assert n == ms * MILLISECOND + n % MILLISECOND;
    assert EncodeEpochMillis(t) == s * 1000 + ms;
    assert t == (s * 1000 + ms) * MILLISECOND + n % MILLISECOND;
    ModUnique(t, s * 1000 + ms, n % MILLISECOND);
    ModUnique(FloorToMillis(t), s * 1000 + ms, 0);
  }

  lemma ModUnique(t: int, q: int, r: int)
    requires t == q * MILLISECOND + r && 0 <= r < MILLISECOND
    ensures t % MILLISECOND == r
  {
  }

  // ---------------------------------------------------------------- timestamptz

  const MICROSECOND: int := 1000

  /** 2000-01-01, where PostgreSQL counts from. */
  const PG_EPOCH: int := 946_684_800 * SECOND

  /** An instant as a `timestamptz` column holds it: whole microseconds, cut towards 2000-01-01. */
  function Timestamptz(t: Time): Time {
    var d := t - PG_EPOCH;
    if d >= 0 then t - d % MICROSECOND else t + (-d) % MICROSECOND
  }

  lemma TimestamptzIsWhole(t: Time)
    ensures Timestamptz(t) % MICROSECOND == 0 && -MICROSECOND < Timestamptz(t) - t < MICROSECOND
    ensures Timestamptz(t) == t <==> t % MICROSECOND == 0
    ensures if t >= 946_684_800_000_000_000 then Timestamptz(t) <= t else Timestamptz(t) >= t
  {
  }

  function OptionalTimestamptz(t: Option<Time>): Option<Time> {
    match t
    case None => None
    case Some(at) => Some(Timestamptz(at))
  }

  // ---------------------------------------------------------------- dead reasons

  function EncodeDeadReason(r: DeadReason): string {
    match r
    case PermanentError => "permanent_error"
    case AttemptsExhausted => "attempts_exhausted"
    case Expired => "expired"
    case Undecodable => "undecodable"
  }

  function DecodeDeadReason(s: string): Option<DeadReason> {
    if s == "permanent_error" then Some(PermanentError)
    else if s == "attempts_exhausted" then Some(AttemptsExhausted)
    else if s == "expired" then Some(Expired)
    else if s == "undecodable" then Some(Undecodable)
    else None
  }

  /** The two directions are inverse: nothing else decodes. */
  lemma DeadReasonCodec(r: DeadReason, s: string)
    ensures DecodeDeadReason(s) == Some(r) <==> s == EncodeDeadReason(r)
    ensures EncodeDeadReason(PermanentError) == "permanent_error"
    ensures EncodeDeadReason(AttemptsExhausted) == "attempts_exhausted"
    ensures EncodeDeadReason(Expired) == "expired" && EncodeDeadReason(Undecodable) == "undecodable"
  {
  }

  // ---------------------------------------------------------------- rows

  const METADATA_VERSION: int := 1
  const I32_MAX: int := 0x7FFF_FFFF

  /** The metadata that has no column of its own. */
  datatype MetadataRest = MetadataRest(
    traceparent: Option<string>, tracestate: Option<string>,
    source: Option<string>, destination: Option<string>, replyTo: Option<string>,
    sentAtMs: Option<int>, deduplicationId: Option<string>)

  const NO_REST := MetadataRest(None, None, None, None, None, None, None)

  /** The two JSON columns, as far as the reader looks into them. */
  datatype MetadataColumn = NoMetadata | MetadataJson(rest: MetadataRest) | OtherMetadata
  datatype JsonValue = JsonString(text: string) | OtherJson
  datatype HeadersColumn = NoHeaders | HeadersJson(entries: map<string, JsonValue>) | OtherHeaders

  /** The columns statements change after the insert. */
  datatype State = State(
    availableAt: Time, attempts: int, lockedBy: Option<string>, lockedUntil: Option<Time>,
    publishedAt: Option<Time>, deadAt: Option<Time>, deadReason: Option<string>, lastError: Option<string>)

  datatype RawRow = RawRow(
    id: Uuid, sequence: int, messageType: string, messageVersion: int,
    correlationId: Option<string>, conversationId: Uuid, causationId: Option<Uuid>, requestId: Option<Uuid>,
    contentType: string, payload: seq<bv8>,
    tenantId: Option<string>, expiresAt: Option<Time>, orderingKey: Option<string>,
    metadata: MetadataColumn, headers: HeadersColumn, metadataVersion: int, createdAt: Time, state: State)

  datatype OutboxRecord = OutboxRecord(
    envelope: Envelope, sequence: int, createdAt: Time, orderingKey: Option<string>, attempts: nat, availableAt: Time,
    lockedBy: Option<string>, lockedUntil: Option<Time>, publishedAt: Option<Time>, deadAt: Option<Time>,
    deadReason: Option<DeadReason>, lastError: Option<string>)

  datatype RowError =
    | UnknownMetadataVersion | VersionOutOfRange | MalformedMetadata | InvalidCorrelationId | InvalidContentType
    | InvalidSource | InvalidDestination | InvalidReplyTo | SentAtOutOfRange | HeaderNotAString | InvalidHeader
    | HeadersNotAnObject | UnknownDeadReason | InvalidLockedBy | AttemptsOutOfRange

  // ---------------------------------------------------------------- writing

  function RestOf(e: Envelope): MetadataRest {
    MetadataRest(
      e.traceparent, e.tracestate, e.source, e.destination, e.replyTo,
      match e.sentAt { case None => None case Some(t) => Some(EncodeEpochMillis(t)) },
      e.deduplicationId)
  }

  /** `insert_row`: an empty remainder and an empty header map are both written as NULL. */
  function InsertRow(e: Envelope, payload: seq<bv8>, contentType: string, orderingKey: Option<string>, sequence: int,
                     now: Time): RawRow {
    RawRow(
      e.id, sequence, e.typeName, e.version,
      e.correlationId, e.conversationId, e.causationId, e.requestId,
      contentType, payload, e.tenantId, OptionalTimestamptz(e.expiresAt), orderingKey,
      if RestOf(e) == NO_REST then NoMetadata else MetadataJson(RestOf(e)),
      if e.headers.None? || e.headers.value == map[] then NoHeaders
      else HeadersJson(map k | k in e.headers.value :: JsonString(e.headers.value[k])),
      METADATA_VERSION, now, State(now, 0, None, None, None, None, None, None))
  }

  // ---------------------------------------------------------------- reading

  predicate OptionalText(s: Option<string>) {
    s.Some? ==> IsText(s.value)
  }

  predicate IsWorkerId(s: string) {
    s != "" && ByteLen(s) <= 128
  }

  function TextEntries(entries: map<string, JsonValue>): map<string, string> {
    map k | k in entries && entries[k].JsonString? :: entries[k].text
  }

  ghost predicate EntriesOk(entries: map<string, JsonValue>) {
    (forall k | k in entries :: entries[k].JsonString?) && ValidHeaders(TextEntries(entries))
  }

  function RestIn(row: RawRow): MetadataRest
    requires !row.metadata.OtherMetadata?
  {
    if row.metadata.NoMetadata? then NO_REST else row.metadata.rest
  }

  /** What the reader checks before the headers, in its order. */
  function CheckColumns(row: RawRow): Option<RowError> {
    if row.metadataVersion != METADATA_VERSION then Some(UnknownMetadataVersion)
    else if !(0 <= row.messageVersion < 0x1_0000) then Some(VersionOutOfRange)
    else if row.metadata.OtherMetadata? then Some(MalformedMetadata)
    else if !OptionalText(row.correlationId) then Some(InvalidCorrelationId)
    else if !IsContentType(row.contentType) then Some(InvalidContentType)
    else if !OptionalText(RestIn(row).source) then Some(InvalidSource)
    else if !OptionalText(RestIn(row).destination) then Some(InvalidDestination)
    else if !OptionalText(RestIn(row).replyTo) then Some(InvalidReplyTo)
    else if RestIn(row).sentAtMs.Some? && DecodeEpochMillis(RestIn(row).sentAtMs.value).None? then
        Some(SentAtOutOfRange)
    else None
  }

  /** And after the headers. */
  function CheckState(st: State): Option<RowError> {
    if st.deadReason.Some? && DecodeDeadReason(st.deadReason.value).None? then Some(UnknownDeadReason)
    else if st.lockedBy.Some? && !IsWorkerId(st.lockedBy.value) then Some(InvalidLockedBy)
    else if st.attempts < 0 then Some(AttemptsOutOfRange)
    else None
  }

  ghost predicate HeadersOk(column: HeadersColumn) {
    !column.OtherHeaders? && (column.HeadersJson? ==> EntriesOk(column.entries))
  }

  ghost predicate Decodable(row: RawRow) {
    CheckColumns(row) == None && HeadersOk(row.headers) && CheckState(row.state) == None
  }

  function EnvelopeOf(row: RawRow, headers: Option<map<string, string>>): Envelope
    requires CheckColumns(row) == None
  {
    var rest := RestIn(row);
    Envelope(
      row.id, row.messageType, row.messageVersion, row.payload, row.contentType,
      row.correlationId, row.conversationId, row.causationId, row.requestId, row.tenantId,
      match rest.sentAtMs { case None => None case Some(ms) => DecodeEpochMillis(ms) },
      row.expiresAt, rest.source, rest.destination, rest.replyTo,
      rest.traceparent, rest.tracestate, rest.deduplicationId,
      headers)
  }

  function RecordOf(row: RawRow, headers: Option<map<string, string>>): OutboxRecord
    requires CheckColumns(row) == None && CheckState(row.state) == None
  {
    var st := row.state;
    OutboxRecord(
      EnvelopeOf(row, headers), row.sequence, row.createdAt, row.orderingKey, st.attempts, st.availableAt,
      st.lockedBy, st.lockedUntil, st.publishedAt, st.deadAt,
      match st.deadReason { case None => None case Some(s) => DecodeDeadReason(s) },
      st.lastError)
  }

  function HeadersIn(column: HeadersColumn): Option<map<string, string>> {
    if column.HeadersJson? then Some(TextEntries(column.entries)) else None
  }

  /** A value that is not a string, or a header map that is not valid. */
  ghost predicate HeaderFault(entries: map<string, JsonValue>, error: RowError) {
    match error
    case HeaderNotAString => exists k :: k in entries && !entries[k].JsonString?
    case InvalidHeader => !EntriesOk(entries)
    case _ => false
  }

  method ReadEntry(entries: map<string, JsonValue>, ghost done: set<string>, read: HeaderSet, key: string)
    returns (error: Option<RowError>)
    requires EntriesSoFar(entries, done, read.entries) && key in entries && key !in done
    modifies read
    ensures error.None? ==> EntriesSoFar(entries, done + {key}, read.entries)
    ensures error.Some? ==> HeaderFault(entries, error.value)
  {
    if !entries[key].JsonString? {
      return Some(HeaderNotAString);
    }
    var inserted := read.Insert(key, entries[key].text);
    if inserted.Err? {
      TooMany(entries, read.entries, key);
      return Some(InvalidHeader);
    }
    error := None;
  }

  /** Fills a header map from a JSON object, entry by entry in whatever order it yields them. */
  method ReadHeaders(entries: map<string, JsonValue>) returns (error: Option<RowError>, headers: map<string, string>)
    ensures error.None? <==> EntriesOk(entries)
    ensures error.None? ==> headers == TextEntries(entries)
    ensures error.Some? ==> HeaderFault(entries, error.value)
  {
    var read := new HeaderSet();
    headers := map[];
    var rest := entries.Keys;
    ghost var done: set<string> := {};
    while rest != {}
      invariant rest == entries.Keys - done && EntriesSoFar(entries, done, read.entries)
      decreases rest
    {
      var key :| key in rest;
      error := ReadEntry(entries, done, read, key);
      if error.Some? {
        return;
      }
      rest, done := rest - {key}, done + {key};
    }
    error, headers := None, read.entries;
    AllEntries(entries, done, headers);
  }

  ghost predicate EntriesSoFar(entries: map<string, JsonValue>, done: set<string>, read: map<string, string>) {
    && done <= entries.Keys && read.Keys == done && ValidHeaders(read)
    && (forall k | k in done :: entries[k].JsonString? && read[k] == entries[k].text)
  }

  lemma AllEntries(entries: map<string, JsonValue>, done: set<string>, read: map<string, string>)
    requires EntriesSoFar(entries, done, read) && entries.Keys - done == {}
    ensures EntriesOk(entries) && read == TextEntries(entries)
  {
    forall k | k in entries ensures k in done {
      assert k !in entries.Keys - done;
    }
    assert read == TextEntries(entries);
  }

  /** An entry the header map refuses cannot be part of a valid one. */
  lemma TooMany(entries: map<string, JsonValue>, some: map<string, string>, key: string)
    requires key in entries && entries[key].JsonString? && key !in some && some.Keys <= entries.Keys
    requires !ValidEntry(key, entries[key].text) || |some| >= MAX_COUNT
    ensures !EntriesOk(entries)
  {
    var all := TextEntries(entries);
    if forall k | k in entries :: entries[k].JsonString? {
      assert all.Keys == entries.Keys;
      SubsetCount(some.Keys + {key}, all.Keys);
      assert |some.Keys + {key}| == |some| + 1 && |all| == |all.Keys|;
      assert key in all;
    }
  }

  /** The metadata a row carries outside its columns; none is no metadata. */
  function Carried(row: RawRow): MetadataRest {
    if row.metadata.MetadataJson? then row.metadata.rest else MetadataRest(None, None, None, None, None, None, None)
  }

  /** Exactly which rows decode: column by column. */
  lemma DecodableExactly(row: RawRow)
    ensures Decodable(row) <==>
              && row.metadataVersion == 1 && 0 <= row.messageVersion <= 65535 && !row.metadata.OtherMetadata?
              && (row.correlationId.Some? ==> IsText(row.correlationId.value)) && IsContentType(row.contentType)
              && (Carried(row).source.Some? ==> IsText(Carried(row).source.value))
              && (Carried(row).destination.Some? ==> IsText(Carried(row).destination.value))
              && (Carried(row).replyTo.Some? ==> IsText(Carried(row).replyTo.value))
              && (Carried(row).sentAtMs.Some? ==> Representable(Carried(row).sentAtMs.value * 1_000_000))
              && !row.headers.OtherHeaders?
              && (row.headers.HeadersJson? ==>
                    && (forall k | k in row.headers.entries :: row.headers.entries[k].JsonString?)
                    && ValidHeaders(TextEntries(row.headers.entries)))
              && (row.state.deadReason.Some? ==>
                    row.state.deadReason.value in
                      {"permanent_error", "attempts_exhausted", "expired", "undecodable"})
              && (row.state.lockedBy.Some? ==>
                    row.state.lockedBy.value != "" && ByteLen(row.state.lockedBy.value) <= 128)
              && row.state.attempts >= 0
  {
  }

  /** An error names a column that is at fault. */
  ghost predicate AtFault(row: RawRow, error: RowError) {
    match error
    case UnknownMetadataVersion => row.metadataVersion != 1
    case VersionOutOfRange => row.messageVersion < 0 || row.messageVersion > 65535
    case MalformedMetadata => row.metadata.OtherMetadata?
    case InvalidCorrelationId => row.correlationId.Some? && !IsText(row.correlationId.value)
    case InvalidContentType => !IsContentType(row.contentType)
    case InvalidSource => Carried(row).source.Some? && !IsText(Carried(row).source.value)
    case InvalidDestination => Carried(row).destination.Some? && !IsText(Carried(row).destination.value)
    case InvalidReplyTo => Carried(row).replyTo.Some? && !IsText(Carried(row).replyTo.value)
    case SentAtOutOfRange =>
      Carried(row).sentAtMs.Some? && !Representable(Carried(row).sentAtMs.value * 1_000_000)
    case HeaderNotAString | InvalidHeader => row.headers.HeadersJson? && HeaderFault(row.headers.entries, error)
    case HeadersNotAnObject => row.headers.OtherHeaders?
    case UnknownDeadReason =>
      row.state.deadReason.Some? &&
        row.state.deadReason.value !in {"permanent_error", "attempts_exhausted", "expired", "undecodable"}
    case InvalidLockedBy =>
      row.state.lockedBy.Some? && (row.state.lockedBy.value == "" || ByteLen(row.state.lockedBy.value) > 128)
    case AttemptsOutOfRange => row.state.attempts < 0
  }

  /** `decode_row`. */
  method DecodeRow(row: RawRow) returns (r: Result<OutboxRecord, RowError>)
    ensures r.Ok? <==> Decodable(row)
    ensures r.Err? ==> AtFault(row, r.error)
    ensures r.Ok? ==> r.value == RecordOf(row, HeadersIn(row.headers))
  {
    var columns := CheckColumns(row);
    if columns.Some? {
      return Err(columns.value);
    }
    var headers: Option<map<string, string>> := None;
    match row.headers {
      case OtherHeaders => return Err(HeadersNotAnObject);
      case NoHeaders =>
      case HeadersJson(entries) =>
        var error, read := ReadHeaders(entries);
        if error.Some? {
          return Err(error.value);
        }
        headers := Some(read);
    }
    var state := CheckState(row.state);
    if state.Some? {
      return Err(state.value);
    }
    r := Ok(RecordOf(row, headers));
  }

  // ---------------------------------------------------------------- the round trip

  /** What an envelope comes back as. */
  function Stored(e: Envelope, payload: seq<bv8>, contentType: string): Envelope {
    e.(payload := payload, contentType := contentType,
       sentAt := match e.sentAt { case None => None case Some(t) => Some(FloorToMillis(t)) },
       expiresAt := OptionalTimestamptz(e.expiresAt),
       headers := if e.headers == Some(map[]) then None else e.headers)
  }

  /** A state the table's statements can leave a row in: whoever holds it has a valid id, a dead row
      carries an encoded reason, and `attempts` fits its column. */
  predicate StateOk(st: State) {
    && (st.lockedBy.Some? ==> IsWorkerId(st.lockedBy.value))
    && (st.deadReason.Some? ==> exists r :: st.deadReason.value == EncodeDeadReason(r))
    && 0 <= st.attempts <= I32_MAX
  }

  lemma StateReads(st: State)
    requires StateOk(st)
    ensures CheckState(st) == None
  {
  }

  lemma RestReads(e: Envelope, payload: seq<bv8>, contentType: string, orderingKey: Option<string>, sequence: int,
                  now: Time)
    ensures var row := InsertRow(e, payload, contentType, orderingKey, sequence, now);
            !row.metadata.OtherMetadata? && RestIn(row) == RestOf(e)
  {
  }

  lemma ColumnsRead(e: Envelope, payload: seq<bv8>, contentType: string, orderingKey: Option<string>, sequence: int,
                    now: Time)
    requires WellTyped(e) && IsContentType(contentType) && (e.sentAt.Some? ==> Representable(e.sentAt.value))
    ensures CheckColumns(InsertRow(e, payload, contentType, orderingKey, sequence, now)) == None
  {
    RestReads(e, payload, contentType, orderingKey, sequence, now);
    if e.sentAt.Some? {
      EpochMillisRoundTrip(e.sentAt.value);
    }
  }

  lemma HeadersRead(e: Envelope, payload: seq<bv8>, contentType: string, orderingKey: Option<string>, sequence: int,
                    now: Time)
    requires WellTyped(e)
    ensures var row := InsertRow(e, payload, contentType, orderingKey, sequence, now);
            HeadersOk(row.headers) && HeadersIn(row.headers) == Stored(e, payload, contentType).headers
  {
    var row := InsertRow(e, payload, contentType, orderingKey, sequence, now);
    if row.headers.HeadersJson? {
      assert TextEntries(row.headers.entries) == e.headers.value;
    }
  }

  lemma EnvelopeReads(e: Envelope, payload: seq<bv8>, contentType: string, orderingKey: Option<string>,
                      sequence: int, now: Time)
    requires WellTyped(e) && IsContentType(contentType) && (e.sentAt.Some? ==> Representable(e.sentAt.value))
    ensures var row := InsertRow(e, payload, contentType, orderingKey, sequence, now);
            CheckColumns(row) == None &&
                EnvelopeOf(row, Stored(e, payload, contentType).headers) == Stored(e, payload, contentType)
  {
    ColumnsRead(e, payload, contentType, orderingKey, sequence, now);
    RestReads(e, payload, contentType, orderingKey, sequence, now);
    if e.sentAt.Some? {
      EpochMillisRoundTrip(e.sentAt.value);
    }
  }

  /** The state columns do not bear on the envelope. */
  lemma StateApart(row: RawRow, st: State, headers: Option<map<string, string>>)
    requires CheckColumns(row) == None
    ensures CheckColumns(row.(state := st)) == None &&
              EnvelopeOf(row.(state := st), headers) == EnvelopeOf(row, headers)
  {
  }

  /** A staged envelope never reads as poisoned, whatever the table's statements have done to its row,
      and comes back as it was but for the millisecond of `sent_at`, the microsecond of `expires_at`, the
      empty header map and the content type it was staged with. */
  lemma RowRoundTrip(e: Envelope, payload: seq<bv8>, contentType: string, orderingKey: Option<string>, sequence: int,
                     now: Time, st: State)
    requires WellTyped(e) && IsContentType(contentType) && (e.sentAt.Some? ==> Representable(e.sentAt.value)) &&
               StateOk(st)
    ensures var row := InsertRow(e, payload, contentType, orderingKey, sequence, now).(state := st);
            && Decodable(row)
            && RecordOf(row, HeadersIn(row.headers)).envelope == Stored(e, payload, contentType)
            && var record := RecordOf(row, HeadersIn(row.headers));
            && record.orderingKey == orderingKey && record.sequence == sequence && record.createdAt == now
            && record.attempts == st.attempts && record.availableAt == st.availableAt
            && record.lockedBy == st.lockedBy && record.lockedUntil == st.lockedUntil
            && record.publishedAt == st.publishedAt && record.deadAt == st.deadAt
            && (record.deadReason.None? <==> st.deadReason.None?)
            && (record.deadReason.Some? ==> st.deadReason == Some(EncodeDeadReason(record.deadReason.value)))
            && record.lastError == st.lastError
  {
    var inserted := InsertRow(e, payload, contentType, orderingKey, sequence, now);
    EnvelopeReads(e, payload, contentType, orderingKey, sequence, now);
    HeadersRead(e, payload, contentType, orderingKey, sequence, now);
    StateApart(inserted, st, Stored(e, payload, contentType).headers);
    StateReads(st);
    if st.deadReason.Some? {
      var reason :| st.deadReason.value == EncodeDeadReason(reason);
      DeadReasonCodec(reason, st.deadReason.value);
    }
  }

  /** Which field goes to which column. */
  lemma StagedColumns(e: Envelope, payload: seq<bv8>, contentType: string, orderingKey: Option<string>, sequence: int,
                      now: Time)
    ensures var row := InsertRow(e, payload, contentType, orderingKey, sequence, now);
            && row.id == e.id && row.sequence == sequence && row.createdAt == now && row.metadataVersion == 1
            && row.messageType == e.typeName && row.messageVersion == e.version
            && row.correlationId == e.correlationId && row.conversationId == e.conversationId
            && row.causationId == e.causationId && row.requestId == e.requestId && row.tenantId == e.tenantId
            && row.contentType == contentType && row.payload == payload && row.orderingKey == orderingKey
            && (row.expiresAt.None? <==> e.expiresAt.None?)
    ensures var carried := Carried(InsertRow(e, payload, contentType, orderingKey, sequence, now));
            && carried.traceparent == e.traceparent && carried.tracestate == e.tracestate
            && carried.source == e.source && carried.destination == e.destination && carried.replyTo == e.replyTo
            && carried.deduplicationId == e.deduplicationId && (carried.sentAtMs.None? <==> e.sentAt.None?)
    ensures var headers := InsertRow(e, payload, contentType, orderingKey, sequence, now).headers;
            if CustomHeaders(e) == map[] then headers == NoHeaders
            else
              && headers.HeadersJson? && headers.entries.Keys == CustomHeaders(e).Keys
              && forall k | k in headers.entries :: headers.entries[k] == JsonString(CustomHeaders(e)[k])
  {
  }

  function CustomHeaders(e: Envelope): map<string, string> {
    if e.headers.None? then map[] else e.headers.value
  }

  /** A staged row starts out pending from the moment it was inserted, with nothing counted and nobody
      holding it. */
  lemma StagedState(e: Envelope, payload: seq<bv8>, contentType: string, orderingKey: Option<string>, sequence: int,
                    now: Time)
    ensures var st := InsertRow(e, payload, contentType, orderingKey, sequence, now).state;
            && st.availableAt == now && st.attempts == 0 && st.lockedBy.None? && st.lockedUntil.None?
            && st.publishedAt.None? && st.deadAt.None? && st.deadReason.None? && st.lastError.None?
  {
  }

  /** Exactly when it comes back unchanged. */
  lemma StoredExactly(e: Envelope)
    ensures Stored(e, e.payload, e.contentType) == e <==>
              && e.headers != Some(map[])
              && (e.sentAt.Some? ==> e.sentAt.value % MILLISECOND == 0)
              && (e.expiresAt.Some? ==> e.expiresAt.value % MICROSECOND == 0)
  {
    if e.expiresAt.Some? {
      TimestamptzIsWhole(e.expiresAt.value);
    }
  }

  // ---------------------------------------------------------------- last_error

  const MAX_LAST_ERROR_LEN: nat := 2048
  const MARKER := "\U{2026}[truncated]"

  predicate IsBoundary(s: string, b: nat) {
    exists k :: 0 <= k <= |s| && ByteLen(s[..k]) == b
  }

  lemma {:induction false} ByteLenConcat(a: string, b: string)
    ensures ByteLen(a + b) == ByteLen(a) + ByteLen(b)
  {
    if a == [] {
      assert a + b == b;
    } else {
      assert (a + b)[1..] == a[1..] + b;
      ByteLenConcat(a[1..], b);
    }
  }

  lemma PrefixGrows(s: string, j: nat, k: nat)
    requires j <= k <= |s|
    ensures ByteLen(s[..j]) <= ByteLen(s[..k])
    ensures j < k ==> ByteLen(s[..j]) < ByteLen(s[..k])
  {
    assert s[..k] == s[..j] + s[j..k];
    ByteLenConcat(s[..j], s[j..k]);
  }

  lemma {:induction false} AtMostFour(s: string)
    ensures ByteLen(s) <= 4 * |s|
  {
    if s != [] {
      AtMostFour(s[1..]);
    }
  }

  /** The bytes left for the text once the marker has its place. */
  function Budget(): (b: nat)
    ensures b + ByteLen(MARKER) == MAX_LAST_ERROR_LEN
  {
    AtMostFour(MARKER);
    assert |MARKER| == 12;
    MAX_LAST_ERROR_LEN - ByteLen(MARKER)
  }

  /** Every character boundary within the budget is at or before `end`. */
  ghost predicate NoneBetween(s: string, end: nat, budget: nat) {
    forall m | 0 <= m <= |s| :: ByteLen(s[..m]) <= budget ==> ByteLen(s[..m]) <= end
  }

  /** `end` steps down to the nearest character boundary. */
  method LastBoundary(s: string, budget: nat) returns (end: nat)
    ensures end <= budget && IsBoundary(s, end) && NoneBetween(s, end, budget)
  {
    end := budget;
    while end > 0 && !IsBoundary(s, end)
      invariant 0 <= end <= budget && NoneBetween(s, end, budget)
    {
      end := end - 1;
    }
    if end == 0 {
      assert ByteLen(s[..0]) == 0;
    }
  }

  /** `k` characters are the most of `s` that fit in `budget` bytes. */
  ghost predicate LongestFit(s: string, k: nat, budget: nat) {
    && k <= |s| && ByteLen(s[..k]) <= budget
    && forall m | 0 <= m <= |s| :: ByteLen(s[..m]) <= budget ==> m <= k
  }

  lemma BoundaryFits(s: string, k: nat, budget: nat)
    requires k <= |s| && ByteLen(s[..k]) <= budget && NoneBetween(s, ByteLen(s[..k]), budget)
    ensures LongestFit(s, k, budget)
  {
    forall m | 0 <= m <= |s| && ByteLen(s[..m]) <= budget ensures m <= k {
      if m > k {
        PrefixGrows(s, k, m);
      }
    }
  }

  /** `truncate_last_error`: at most 2 KiB; a longer text keeps the longest prefix of whole characters
      that leaves room for the marker. */
  method TruncateLastError(error: string) returns (r: string)
    ensures ByteLen(r) <= 2048
    ensures ByteLen(error) <= 2048 ==> r == error
    ensures ByteLen(error) > 2048 ==>
              exists k: nat :: LongestFit(error, k, Budget()) && r == error[..k] + "\U{2026}[truncated]"
  {
    if ByteLen(error) <= MAX_LAST_ERROR_LEN {
      return error;
    }
    var end := LastBoundary(error, Budget());
    var k := CutAt(error, end);
    BoundaryFits(error, k, Budget());
    ByteLenConcat(error[..k], MARKER);
    r := error[..k] + MARKER;
  }

  method CutAt(s: string, b: nat) returns (k: nat)
    requires IsBoundary(s, b)
    ensures k <= |s| && ByteLen(s[..k]) == b
  {
    k := 0;
    while ByteLen(s[..k]) != b
      invariant k <= |s| && forall j | 0 <= j < k :: ByteLen(s[..j]) != b
      decreases |s| - k
    {
      k := k + 1;
    }
  }
}
