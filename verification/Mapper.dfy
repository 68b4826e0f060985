/** The envelope's projection onto NATS headers, order-free: what `encode` writes and
    `decode` reads, as functions of the envelope and the header map alone. */
module Mapper {
  import opened Basics
  import opened Headers
  import opened WireNames
  import opened Envelopes

  type HeaderMap = map<string, seq<string>>

  datatype Wire = Wire(headers: HeaderMap, payload: seq<bv8>)

  /** The text formats of libraries: UUIDs, `u16` in decimal, RFC 3339 in UTC (which cannot express
      every instant), and which header names the NATS client accepts. */
  datatype Formats = Formats(
    printUuid: Uuid -> string,
    parseUuid: string -> Option<Uuid>,
    printVersion: U16 -> string,
    parseVersion: string -> Option<U16>,
    printTime: Time -> Option<string>,
    parseTime: string -> Option<Time>,
    legalName: string -> bool)

  /** Parsing undoes printing. */
  ghost predicate Lawful(f: Formats) {
    && (forall u: Uuid :: f.parseUuid(f.printUuid(u)) == Some(u))
    && (forall v: U16 :: f.parseVersion(f.printVersion(v)) == Some(v))
    && (forall t :: f.printTime(t).Some? ==> f.parseTime(f.printTime(t).value) == Some(t))
  }

  datatype MapError =
    | MissingHeader(kind: Kind) | MalformedHeader(kind: Kind) | DuplicateHeader(kind: Kind)
    | ReservedHeaderName(key: string) | UnsupportedHeaderName(key: string) | InvalidHeaderValue(header: string)
    | RejectedHeader(key: string, cause: HeaderError)

  // ---------------------------------------------------------------- what encode writes

  /** One framework field: not written, not expressible, or its text. */
  datatype Field = Absent | Inexpressible | Text(text: string)

  function Optional(s: Option<string>): Field {
    match s
    case None => Absent
    case Some(text) => Text(text)
  }

  function OptionalTime(f: Formats, t: Option<Time>): Field {
    match t
    case None => Absent
    case Some(at) => match f.printTime(at) case None => Inexpressible case Some(text) => Text(text)
  }

  function OptionalUuid(f: Formats, u: Option<Uuid>): Field {
    match u
    case None => Absent
    case Some(id) => Text(f.printUuid(id))
  }

  /** The projection table. */
  function FieldOf(f: Formats, e: Envelope, k: Kind): Field {
    match k
    case MessageIdHeader => Text(f.printUuid(e.id))
    case MessageType => Text(e.typeName)
    case MessageVersion => Text(f.printVersion(e.version))
    case ContentTypeHeader => Text(e.contentType)
    case CorrelationId => Optional(e.correlationId)
    case ConversationId => if e.conversationId == UNSET then Absent else Text(f.printUuid(e.conversationId))
    case CausationId => OptionalUuid(f, e.causationId)
    case RequestId => OptionalUuid(f, e.requestId)
    case TenantId => Optional(e.tenantId)
    case SentAt => OptionalTime(f, e.sentAt)
    case ExpiresAt => OptionalTime(f, e.expiresAt)
    case Source => Optional(e.source)
    case Destination => Optional(e.destination)
    case ReplyTo => Optional(e.replyTo)
    case Traceparent => Optional(e.traceparent)
    case Tracestate => Optional(e.tracestate)
    case NatsMsgId => Text(match e.deduplicationId case Some(d) => d case None => f.printUuid(e.id))
  }

  /** `HeaderValue::from_str` refuses line breaks. */
  predicate LegalValue(s: string) {
    '\r' !in s && '\n' !in s
  }

  predicate FieldOk(field: Field) {
    match field
    case Absent => true
    case Inexpressible => false
    case Text(text) => LegalValue(text)
  }

  function CustomOf(e: Envelope): map<string, string> {
    match e.headers
    case None => map[]
    case Some(custom) => custom
  }

  /** The metadata value of a trace header, which overrides any custom spelling of it. */
  function TraceField(e: Envelope, k: Kind): Option<string> {
    if k.Traceparent? then e.traceparent else e.tracestate
  }

  /** `key` is the only one of `keys` that spells the trace header it spells. */
  ghost predicate OnlySpelling(keys: set<string>, key: string) {
    forall other | other in keys && TraceKind(other) == TraceKind(key) :: other == key
  }

  /** Whether `encode` accepts a custom header, given the others. */
  ghost predicate KeyOk(f: Formats, e: Envelope, keys: set<string>, key: string, value: string) {
    && !StartsWithIgnoreCase(key, NATS_PREFIX)
    && match TraceKind(key)
       case None => f.legalName(key) && LegalValue(value)
       case Some(k) => TraceField(e, k).Some? || (OnlySpelling(keys, key) && LegalValue(value))
  }

  ghost predicate CustomOk(f: Formats, e: Envelope, keys: set<string>)
    requires keys <= CustomOf(e).Keys
  {
    forall key | key in keys :: KeyOk(f, e, keys, key, CustomOf(e)[key])
  }

  ghost predicate Encodable(f: Formats, e: Envelope) {
    CustomOk(f, e, CustomOf(e).Keys) && forall k :: FieldOk(FieldOf(f, e, k))
  }

  /** The custom keys written under their own name. */
  function PlainKeys(keys: set<string>): set<string> {
    set key | key in keys && TraceKind(key).None?
  }

  /** Some custom key spells trace header `k`. */
  ghost predicate Spelled(keys: set<string>, k: Kind) {
    exists key :: key in keys && TraceKind(key) == Some(k)
  }

  ghost function Spelling(keys: set<string>, k: Kind): (key: string)
    requires Spelled(keys, k)
    ensures key in keys && TraceKind(key) == Some(k)
  {
    var key :| key in keys && TraceKind(key) == Some(k);
    key
  }

  /** The text `encode` writes under framework name `k`: the field, or for a trace header without one
      the value of a custom spelling. */
  ghost function TextOf(f: Formats, e: Envelope, k: Kind): Option<string> {
    match FieldOf(f, e, k)
    case Text(text) => Some(text)
    case _ =>
      if IsTrace(k) && Spelled(CustomOf(e).Keys, k) then Some(CustomOf(e)[Spelling(CustomOf(e).Keys, k)]) else None
  }

  ghost function Texts(f: Formats, e: Envelope): map<Kind, string> {
    map k | k in KINDS && TextOf(f, e, k).Some? :: TextOf(f, e, k).value
  }

  function NamesOf(texts: map<Kind, string>): set<string> {
    set k | k in texts :: Name(k)
  }

  lemma NamesOfIs(texts: map<Kind, string>, n: string)
    requires n in NamesOf(texts)
    ensures Classify(n).Framework? && Classify(n).kind in texts && n == Name(Classify(n).kind)
  {
    var k :| k in texts && n == Name(k);
    OwnNameClassifies(k);
  }

  /** The header map with these framework texts and these custom entries. */
  ghost function WireHeaders(texts: map<Kind, string>, custom: map<string, string>): HeaderMap {
    map n | n in custom.Keys + NamesOf(texts) ::
      if n in NamesOf(texts) then NamesOfIs(texts, n); [texts[Classify(n).kind]] else [custom[n]]
  }

  function Plain(e: Envelope): map<string, string> {
    map key | key in PlainKeys(CustomOf(e).Keys) :: CustomOf(e)[key]
  }

  /** The wire form of an envelope `encode` accepts. */
  ghost function Encoded(f: Formats, e: Envelope): Wire {
    Wire(WireHeaders(Texts(f, e), Plain(e)), e.payload)
  }

  // ---------------------------------------------------------------- what decode reads

  ghost predicate Occurs(headers: HeaderMap, names: set<string>, k: Kind) {
    exists n :: n in names && n in headers && Classify(n) == Framework(k)
  }

  ghost predicate OnlyOccurrence(names: set<string>, n: string) {
    forall m | m in names && Classify(m) == Classify(n) :: m == n
  }

  /** The custom entries of a header map; of several values the first counts. */
  function CustomNames(names: set<string>): set<string> {
    set n | n in names && Classify(n).Custom?
  }

  function FirstValue(values: seq<string>): string {
    if values == [] then "" else values[0]
  }

  function CustomsIn(headers: HeaderMap, names: set<string>): map<string, string>
    requires names <= headers.Keys
  {
    map n | n in CustomNames(names) :: FirstValue(headers[n])
  }

  /** Whether a name can be read, given the others: a framework header occurs once with one value, a
      custom one passes the rules of the header map. */
  ghost predicate NameOk(names: set<string>, n: string, values: seq<string>) {
    match Classify(n)
    case Framework(_) => OnlyOccurrence(names, n) && |values| == 1
    case Custom => ValidEntry(n, FirstValue(values))
    case _ => true
  }

  ghost predicate AllNamesOk(headers: HeaderMap, names: set<string>)
    requires names <= headers.Keys
  {
    forall n | n in names :: NameOk(names, n, headers[n])
  }

  ghost predicate NamesOk(headers: HeaderMap, names: set<string>)
    requires names <= headers.Keys
  {
    && AllNamesOk(headers, names)
    && |CustomsIn(headers, names)| <= MAX_COUNT
  }

  ghost function Occurrence(headers: HeaderMap, names: set<string>, k: Kind): (n: string)
    requires Occurs(headers, names, k)
    ensures n in names && n in headers && Classify(n) == Framework(k)
  {
    var n :| n in names && n in headers && Classify(n) == Framework(k);
    n
  }

  /** The raw text of every framework header present. */
  ghost function SlotsIn(headers: HeaderMap, names: set<string>): map<Kind, string> {
    map k | k in KINDS && Occurs(headers, names, k) :: FirstValue(headers[Occurrence(headers, names, k)])
  }

  function AsHeaders(custom: map<string, string>): Option<map<string, string>> {
    if custom == map[] then None else Some(custom)
  }

  function Get(slots: map<Kind, string>, k: Kind): Option<string> {
    if k in slots then Some(slots[k]) else None
  }

  /** Slots are the same when every lookup is. */
  lemma SameSlots(a: map<Kind, string>, b: map<Kind, string>)
    requires forall k :: Get(a, k) == Get(b, k)
    ensures a == b
  {
    forall k ensures k in a <==> k in b {
      assert Get(a, k) == Get(b, k);
    }
    forall k | k in a ensures a[k] == b[k] {
      assert Get(a, k) == Get(b, k);
    }
  }

  predicate TextOk(slots: map<Kind, string>, k: Kind) {
    k in slots ==> IsText(slots[k])
  }

  predicate UuidOk(f: Formats, slots: map<Kind, string>, k: Kind) {
    k in slots ==> f.parseUuid(slots[k]).Some?
  }

  predicate TimeOk(f: Formats, slots: map<Kind, string>, k: Kind) {
    k in slots ==> f.parseTime(slots[k]).Some?
  }

  function GetUuid(f: Formats, slots: map<Kind, string>, k: Kind): Option<Uuid> {
    if k in slots then f.parseUuid(slots[k]) else None
  }

  function GetTime(f: Formats, slots: map<Kind, string>, k: Kind): Option<Time> {
    if k in slots then f.parseTime(slots[k]) else None
  }

  function CheckIdentity(f: Formats, slots: map<Kind, string>): Option<MapError> {
    if MessageIdHeader !in slots then Some(MissingHeader(MessageIdHeader))
    else if MessageType !in slots then Some(MissingHeader(MessageType))
    else if MessageVersion !in slots then Some(MissingHeader(MessageVersion))
    else if ContentTypeHeader !in slots then Some(MissingHeader(ContentTypeHeader))
    else if !UuidOk(f, slots, MessageIdHeader) then Some(MalformedHeader(MessageIdHeader))
    else if f.parseVersion(slots[MessageVersion]).None? then Some(MalformedHeader(MessageVersion))
    else if slots[MessageType] == "" then Some(MalformedHeader(MessageType))
    else if !IsContentType(slots[ContentTypeHeader]) then Some(MalformedHeader(ContentTypeHeader))
    else None
  }

  function CheckMetadata(f: Formats, slots: map<Kind, string>): Option<MapError> {
    if !TextOk(slots, CorrelationId) then Some(MalformedHeader(CorrelationId))
    else if !UuidOk(f, slots, ConversationId) then Some(MalformedHeader(ConversationId))
    else if !UuidOk(f, slots, CausationId) then Some(MalformedHeader(CausationId))
    else if !UuidOk(f, slots, RequestId) then Some(MalformedHeader(RequestId))
    else if !TimeOk(f, slots, SentAt) then Some(MalformedHeader(SentAt))
    else if !TimeOk(f, slots, ExpiresAt) then Some(MalformedHeader(ExpiresAt))
    else if !TextOk(slots, Source) then Some(MalformedHeader(Source))
    else if !TextOk(slots, Destination) then Some(MalformedHeader(Destination))
    else if !TextOk(slots, ReplyTo) then Some(MalformedHeader(ReplyTo))
    else None
  }

  /** `into_envelope`. */
  function Parse(f: Formats, slots: map<Kind, string>, custom: map<string, string>,
                 payload: seq<bv8>): Result<Envelope, MapError> {
    var identity := CheckIdentity(f, slots);
    if identity.Some? then Err(identity.value)
    else
      var metadata := CheckMetadata(f, slots);
      if metadata.Some? then Err(metadata.value)
      else Ok(Envelope(
        f.parseUuid(slots[MessageIdHeader]).value,
        slots[MessageType],
        f.parseVersion(slots[MessageVersion]).value,
        payload,
        slots[ContentTypeHeader],
        Get(slots, CorrelationId),
        match GetUuid(f, slots, ConversationId) { case Some(u) => u case None => UNSET },
        GetUuid(f, slots, CausationId),
        GetUuid(f, slots, RequestId),
        Get(slots, TenantId),
        GetTime(f, slots, SentAt),
        GetTime(f, slots, ExpiresAt),
        Get(slots, Source),
        Get(slots, Destination),
        Get(slots, ReplyTo),
        Get(slots, Traceparent),
        Get(slots, Tracestate),
        if Get(slots, NatsMsgId) == Some(slots[MessageIdHeader]) then None else Get(slots, NatsMsgId),
        AsHeaders(custom)))
  }

  /** `decode`, order-free: the scan fails, or its result is parsed. */
  ghost predicate Scannable(w: Wire) {
    NamesOk(w.headers, w.headers.Keys)
  }

  ghost function Decode(f: Formats, w: Wire): Result<Envelope, MapError>
    requires Scannable(w)
  {
    Parse(f, SlotsIn(w.headers, w.headers.Keys), CustomsIn(w.headers, w.headers.Keys), w.payload)
  }
}
