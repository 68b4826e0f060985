/** The NATS projection by its literal header names: what `encode` writes under each of them, what `decode`
    reads from each of them, and exactly which envelopes and header maps the two accept. */
module Projection {
  import opened Basics
  import opened Headers
  import opened WireNames
  import opened Envelopes
  import opened Mapper
  import opened MapperTheorems

  // ---------------------------------------------------------------- what encode writes

  function Under(headers: HeaderMap, name: string): Option<seq<string>> {
    if name in headers then Some(headers[name]) else None
  }

  /** One value, or no header. */
  function One(text: Option<string>): Option<seq<string>> {
    match text
    case None => None
    case Some(s) => Some([s])
  }

  function Printed(f: Formats, id: Option<Uuid>): Option<string> {
    match id
    case None => None
    case Some(u) => Some(f.printUuid(u))
  }

  lemma HeaderAt(f: Formats, e: Envelope, k: Kind)
    requires Encodable(f, e) && WellTyped(e)
    ensures Under(Encoded(f, e).headers, Name(k)) == One(TextOf(f, e, k))
  {
    OwnNameClassifies(k);
    EveryKind(k);
    if Name(k) in Encoded(f, e).headers {
      EncodedName(f, e, Name(k));
    }
    if k in Texts(f, e) {
      TextHasSlot(f, e, k);
      assert Name(k) in NamesOf(Texts(f, e));
    }
  }

  /** Under each framework name is the text of its field. */
  ghost predicate Shows(f: Formats, e: Envelope, h: HeaderMap) {
    forall k :: Under(h, Name(k)) == One(TextOf(f, e, k))
  }

  /** Who the message is: headers that are always there. */
  ghost predicate IdentityShown(f: Formats, e: Envelope, h: HeaderMap) {
    && Under(h, "reliar-message-id") == Some([f.printUuid(e.id)])
    && Under(h, "reliar-message-type") == Some([e.typeName])
    && Under(h, "reliar-message-version") == Some([f.printVersion(e.version)])
    && Under(h, "reliar-content-type") == Some([e.contentType])
    && Under(h, "Nats-Msg-Id") == Some([if e.deduplicationId.Some? then e.deduplicationId.value
                                       else f.printUuid(e.id)])
  }

  /** Where it belongs: a header each if there is something to say. */
  ghost predicate CorrelationShown(f: Formats, e: Envelope, h: HeaderMap) {
    && Under(h, "reliar-correlation-id") == One(e.correlationId)
    && Under(h, "reliar-conversation-id") ==
         (if e.conversationId == 0 then None else Some([f.printUuid(e.conversationId)]))
    && Under(h, "reliar-causation-id") == One(Printed(f, e.causationId))
    && Under(h, "reliar-request-id") == One(Printed(f, e.requestId))
    && Under(h, "reliar-tenant-id") == One(e.tenantId)
  }

  /** From where, to where, and when. */
  ghost predicate RoutingShown(e: Envelope, h: HeaderMap) {
    && Under(h, "reliar-source") == One(e.source)
    && Under(h, "reliar-destination") == One(e.destination)
    && Under(h, "reliar-reply-to") == One(e.replyTo)
  }

  ghost predicate TimesShown(f: Formats, e: Envelope, h: HeaderMap) {
    && Under(h, "reliar-sent-at") == (if e.sentAt.None? then None else One(f.printTime(e.sentAt.value)))
    && Under(h, "reliar-expires-at") == (if e.expiresAt.None? then None else One(f.printTime(e.expiresAt.value)))
  }

  ghost predicate TraceShown(e: Envelope, h: HeaderMap) {
    && TraceWritten(Under(h, "traceparent"), e.traceparent, CustomOf(e), "traceparent")
    && TraceWritten(Under(h, "tracestate"), e.tracestate, CustomOf(e), "tracestate")
  }

  lemma ShowsIdentity(f: Formats, e: Envelope, h: HeaderMap)
    requires Shows(f, e, h)
    ensures IdentityShown(f, e, h)
  {
    assert Under(h, Name(MessageIdHeader)) == One(TextOf(f, e, MessageIdHeader));
    assert Under(h, Name(MessageType)) == One(TextOf(f, e, MessageType));
    assert Under(h, Name(MessageVersion)) == One(TextOf(f, e, MessageVersion));
    assert Under(h, Name(ContentTypeHeader)) == One(TextOf(f, e, ContentTypeHeader));
    assert Under(h, Name(NatsMsgId)) == One(TextOf(f, e, NatsMsgId));
  }

  lemma ShowsCorrelation(f: Formats, e: Envelope, h: HeaderMap)
    requires Shows(f, e, h)
    ensures CorrelationShown(f, e, h)
  {
    assert Under(h, Name(CorrelationId)) == One(TextOf(f, e, CorrelationId));
    assert Under(h, Name(ConversationId)) == One(TextOf(f, e, ConversationId));
    assert Under(h, Name(CausationId)) == One(TextOf(f, e, CausationId));
    assert Under(h, Name(RequestId)) == One(TextOf(f, e, RequestId));
    assert Under(h, Name(TenantId)) == One(TextOf(f, e, TenantId));
  }

  lemma ShowsRouting(f: Formats, e: Envelope, h: HeaderMap)
    requires Shows(f, e, h)
    ensures RoutingShown(e, h)
  {
    assert Under(h, Name(Source)) == One(TextOf(f, e, Source));
    assert Under(h, Name(Destination)) == One(TextOf(f, e, Destination));
    assert Under(h, Name(ReplyTo)) == One(TextOf(f, e, ReplyTo));
  }

  lemma ShowsTimes(f: Formats, e: Envelope, h: HeaderMap)
    requires Shows(f, e, h)
    ensures TimesShown(f, e, h)
  {
    assert Under(h, Name(SentAt)) == One(TextOf(f, e, SentAt));
    assert Under(h, Name(ExpiresAt)) == One(TextOf(f, e, ExpiresAt));
  }

  lemma EncodedShows(f: Formats, e: Envelope)
    requires Encodable(f, e) && WellTyped(e)
    ensures Shows(f, e, Encoded(f, e).headers)
  {
    forall k ensures Under(Encoded(f, e).headers, Name(k)) == One(TextOf(f, e, k)) {
      HeaderAt(f, e, k);
    }
  }

  /** What `encode` writes, header by header. */
  lemma WireProjection(f: Formats, e: Envelope)
    requires Encodable(f, e) && WellTyped(e)
    ensures IdentityShown(f, e, Encoded(f, e).headers) && CorrelationShown(f, e, Encoded(f, e).headers)
    ensures RoutingShown(e, Encoded(f, e).headers) && TimesShown(f, e, Encoded(f, e).headers)
    ensures TraceShown(e, Encoded(f, e).headers)
    ensures Encoded(f, e).payload == e.payload
  {
    EncodedShows(f, e);
    ShowsIdentity(f, e, Encoded(f, e).headers);
    ShowsCorrelation(f, e, Encoded(f, e).headers);
    ShowsRouting(f, e, Encoded(f, e).headers);
    ShowsTimes(f, e, Encoded(f, e).headers);
    ShowsTrace(f, e, Encoded(f, e).headers);
  }

  /** What is written under a trace header: the metadata if set, else the value of a custom header that
      spells it, whatever its case. */
  ghost predicate TraceWritten(written: Option<seq<string>>, field: Option<string>, custom: map<string, string>,
                               name: string) {
    if field.Some? then written == Some([field.value])
    else if exists key :: key in custom && EqIgnoreCase(key, name) then
      exists key :: key in custom && EqIgnoreCase(key, name) && written == Some([custom[key]])
    else written == None
  }

  lemma TraceAt(f: Formats, e: Envelope, h: HeaderMap, k: Kind)
    requires Shows(f, e, h) && IsTrace(k)
    ensures TraceWritten(Under(h, Name(k)), TraceField(e, k), CustomOf(e), Name(k))
  {
    assert Under(h, Name(k)) == One(TextOf(f, e, k));
    forall key ensures TraceKind(key) == Some(k) <==> EqIgnoreCase(key, Name(k)) {
      TraceKindIs(key, k);
    }
    if TraceField(e, k).None? && Spelled(CustomOf(e).Keys, k) {
      var key := Spelling(CustomOf(e).Keys, k);
      assert key in CustomOf(e) && EqIgnoreCase(key, Name(k));
    }
  }

  lemma ShowsTrace(f: Formats, e: Envelope, h: HeaderMap)
    requires Shows(f, e, h)
    ensures TraceShown(e, h)
  {
    TraceAt(f, e, h, Traceparent);
    TraceAt(f, e, h, Tracestate);
  }

  /** The seventeen names. */
  const NAMES: set<string> := {
    "reliar-message-id", "reliar-message-type", "reliar-message-version", "reliar-content-type",
    "reliar-correlation-id", "reliar-conversation-id", "reliar-causation-id", "reliar-request-id",
    "reliar-tenant-id", "reliar-sent-at", "reliar-expires-at", "reliar-source", "reliar-destination",
    "reliar-reply-to", "traceparent", "tracestate", "Nats-Msg-Id"}

  lemma NameListed(k: Kind)
    ensures Name(k) in NAMES
  {
  }

  lemma NotATextName(texts: map<Kind, string>, n: string)
    requires n !in NAMES
    ensures n !in NamesOf(texts)
  {
    if n in NamesOf(texts) {
      NamesOfIs(texts, n);
      NameListed(Classify(n).kind);
    }
  }

  lemma PlainExactly(e: Envelope, n: string)
    ensures n in Plain(e) <==>
              n in CustomOf(e) && !EqIgnoreCase(n, "traceparent") && !EqIgnoreCase(n, "tracestate")
    ensures n in Plain(e) ==> Plain(e)[n] == CustomOf(e)[n]
  {
  }

  /** Every other custom header is written as it is, and nothing else is written. */
  lemma CustomOnWire(f: Formats, e: Envelope, n: string)
    requires n !in NAMES
    ensures Under(Encoded(f, e).headers, n) ==
              if n in CustomOf(e) && !EqIgnoreCase(n, "traceparent") && !EqIgnoreCase(n, "tracestate") then
                Some([CustomOf(e)[n]])
              else None
  {
    PlainExactly(e, n);
    NotATextName(Texts(f, e), n);
  }

  // ---------------------------------------------------------------- what encode accepts

  /** A text that may be a header value, if there is one. */
  predicate Writable(text: Option<string>) {
    text.Some? ==> '\r' !in text.value && '\n' !in text.value
  }

  predicate TimeWritable(f: Formats, t: Option<Time>) {
    t.Some? ==> f.printTime(t.value).Some? && Writable(f.printTime(t.value))
  }

  predicate IdentityWritable(f: Formats, e: Envelope) {
    && Writable(Some(f.printUuid(e.id))) && Writable(Some(e.typeName)) && Writable(Some(f.printVersion(e.version)))
    && Writable(Some(e.contentType)) && Writable(e.deduplicationId)
  }

  predicate CorrelationWritable(f: Formats, e: Envelope) {
    && Writable(e.correlationId) && (e.conversationId != 0 ==> Writable(Some(f.printUuid(e.conversationId))))
    && Writable(Printed(f, e.causationId)) && Writable(Printed(f, e.requestId)) && Writable(e.tenantId)
  }

  predicate RoutingWritable(f: Formats, e: Envelope) {
    && TimeWritable(f, e.sentAt) && TimeWritable(f, e.expiresAt)
    && Writable(e.source) && Writable(e.destination) && Writable(e.replyTo)
    && Writable(e.traceparent) && Writable(e.tracestate)
  }

  /** The metadata has no line break and its times can be printed. */
  predicate FieldsWritable(f: Formats, e: Envelope) {
    IdentityWritable(f, e) && CorrelationWritable(f, e) && RoutingWritable(f, e)
  }

  predicate Accepts(f: Formats, e: Envelope, k: Kind) {
    FieldOk(FieldOf(f, e, k))
  }

  lemma IdentityFields(f: Formats, e: Envelope)
    ensures IdentityWritable(f, e) <==>
              && Accepts(f, e, MessageIdHeader) && Accepts(f, e, MessageType) && Accepts(f, e, MessageVersion)
              && Accepts(f, e, ContentTypeHeader) && Accepts(f, e, NatsMsgId)
  {
  }

  lemma CorrelationFields(f: Formats, e: Envelope)
    ensures CorrelationWritable(f, e) <==>
              && Accepts(f, e, CorrelationId) && Accepts(f, e, ConversationId) && Accepts(f, e, CausationId)
              && Accepts(f, e, RequestId) && Accepts(f, e, TenantId)
  {
  }

  lemma RoutingFields(f: Formats, e: Envelope)
    ensures RoutingWritable(f, e) <==>
              && Accepts(f, e, SentAt) && Accepts(f, e, ExpiresAt) && Accepts(f, e, Source)
              && Accepts(f, e, Destination) && Accepts(f, e, ReplyTo)
              && Accepts(f, e, Traceparent) && Accepts(f, e, Tracestate)
  {
  }

  /** A custom header `encode` lets through: not under `Nats-`; one that spells a trace header gives way to
      the metadata or is the only one that spells it; any other has a legal name. */
  ghost predicate CustomWritable(f: Formats, e: Envelope, key: string)
    requires key in CustomOf(e)
  {
    && !StartsWithIgnoreCase(key, "Nats-")
    && if EqIgnoreCase(key, "traceparent") || EqIgnoreCase(key, "tracestate") then
         || (if EqIgnoreCase(key, "traceparent") then e.traceparent.Some? else e.tracestate.Some?)
         || ((forall other | other in CustomOf(e) && EqIgnoreCase(other, key) :: other == key)
             && Writable(Some(CustomOf(e)[key])))
       else f.legalName(key) && Writable(Some(CustomOf(e)[key]))
  }

  lemma FieldsOkExactly(f: Formats, e: Envelope)
    ensures (forall k :: Accepts(f, e, k)) <==> FieldsWritable(f, e)
  {
    IdentityFields(f, e);
    CorrelationFields(f, e);
    RoutingFields(f, e);
    if FieldsWritable(f, e) {
      forall k ensures Accepts(f, e, k) {
        EveryKind(k);
      }
    }
  }

  /** Two spellings of a trace header spell the same one exactly when they are equal up to case. */
  lemma SameTrace(a: string, b: string)
    requires TraceKind(a).Some?
    ensures TraceKind(b) == TraceKind(a) <==> EqIgnoreCase(b, a)
  {
    var k := TraceKind(a).value;
    TraceKindIs(a, k);
    TraceKindIs(b, k);
    if EqIgnoreCase(b, a) {
      assert EqIgnoreCase(b, Name(k));
    }
    if TraceKind(b) == Some(k) {
      assert EqIgnoreCase(b, a);
    }
  }

  lemma CustomOkExactly(f: Formats, e: Envelope, key: string)
    requires key in CustomOf(e)
    ensures KeyOk(f, e, CustomOf(e).Keys, key, CustomOf(e)[key]) <==> CustomWritable(f, e, key)
  {
    TraceKindIs(key, Traceparent);
    TraceKindIs(key, Tracestate);
    if TraceKind(key).Some? {
      forall other | other in CustomOf(e) ensures TraceKind(other) == TraceKind(key) <==> EqIgnoreCase(other, key) {
        SameTrace(key, other);
      }
    }
  }

  ghost predicate CustomsWritable(f: Formats, e: Envelope) {
    forall key | key in CustomOf(e) :: CustomWritable(f, e, key)
  }

  lemma CustomsOkExactly(f: Formats, e: Envelope)
    ensures CustomOk(f, e, CustomOf(e).Keys) <==> CustomsWritable(f, e)
  {
    forall key | key in CustomOf(e)
      ensures KeyOk(f, e, CustomOf(e).Keys, key, CustomOf(e)[key]) <==> CustomWritable(f, e, key)
    {
      CustomOkExactly(f, e, key);
    }
  }

  lemma EncodableParts(f: Formats, e: Envelope)
    ensures Encodable(f, e) <==> CustomOk(f, e, CustomOf(e).Keys) && forall k :: Accepts(f, e, k)
  {
    if forall k :: Accepts(f, e, k) {
      forall k ensures FieldOk(FieldOf(f, e, k)) {
        assert Accepts(f, e, k);
      }
    }
    if forall k :: FieldOk(FieldOf(f, e, k)) {
      forall k ensures Accepts(f, e, k) {
        assert FieldOk(FieldOf(f, e, k));
      }
    }
  }

  /** Exactly which envelopes `encode` accepts. */
  lemma EncodableExactly(f: Formats, e: Envelope)
    ensures Encodable(f, e) <==> FieldsWritable(f, e) && CustomsWritable(f, e)
  {
    FieldsOkExactly(f, e);
    CustomsOkExactly(f, e);
    EncodableParts(f, e);
  }

  // ---------------------------------------------------------------- what decode reads

  /** A header that is `name` up to case, with the one value `text`. */
  ghost predicate Has(headers: HeaderMap, name: string, text: string) {
    exists n :: n in headers && EqIgnoreCase(n, name) && headers[n] == [text]
  }

  ghost predicate Lacks(headers: HeaderMap, name: string) {
    forall n | n in headers :: !EqIgnoreCase(n, name)
  }

  ghost predicate Reads(headers: HeaderMap, name: string, text: Option<string>) {
    if text.None? then Lacks(headers, name) else Has(headers, name, text.value)
  }

  lemma SlotReads(w: Wire, k: Kind)
    requires Scannable(w)
    ensures Reads(w.headers, Name(k), Get(SlotsIn(w.headers, w.headers.Keys), k))
  {
    EveryKind(k);
    forall n ensures Classify(n) == Framework(k) <==> EqIgnoreCase(n, Name(k)) {
      ClassifyIs(n, k);
    }
    if Occurs(w.headers, w.headers.Keys, k) {
      var n := Occurrence(w.headers, w.headers.Keys, k);
      assert NameOk(w.headers.Keys, n, w.headers[n]);
      assert w.headers[n] == [FirstValue(w.headers[n])];
    }
  }

  ghost predicate ReadsUuid(f: Formats, headers: HeaderMap, name: string, id: Option<Uuid>) {
    if id.None? then Lacks(headers, name) else exists text :: Has(headers, name, text) && f.parseUuid(text) == id
  }

  ghost predicate ReadsTime(f: Formats, headers: HeaderMap, name: string, t: Option<Time>) {
    if t.None? then Lacks(headers, name) else exists text :: Has(headers, name, text) && f.parseTime(text) == t
  }

  /** Each slot holds what its header says. */
  ghost predicate Filled(h: HeaderMap, slots: map<Kind, string>) {
    forall k :: Reads(h, Name(k), Get(slots, k))
  }

  lemma ScannedFills(w: Wire)
    requires Scannable(w)
    ensures Filled(w.headers, SlotsIn(w.headers, w.headers.Keys))
  {
    forall k ensures Reads(w.headers, Name(k), Get(SlotsIn(w.headers, w.headers.Keys), k)) {
      SlotReads(w, k);
    }
  }

  lemma SlotReadsUuid(f: Formats, h: HeaderMap, slots: map<Kind, string>, k: Kind)
    requires Filled(h, slots) && UuidOk(f, slots, k)
    ensures ReadsUuid(f, h, Name(k), GetUuid(f, slots, k))
  {
    assert Reads(h, Name(k), Get(slots, k));
  }

  lemma SlotReadsTime(f: Formats, h: HeaderMap, slots: map<Kind, string>, k: Kind)
    requires Filled(h, slots) && TimeOk(f, slots, k)
    ensures ReadsTime(f, h, Name(k), GetTime(f, slots, k))
  {
    assert Reads(h, Name(k), Get(slots, k));
  }

  /** Who a decoded message is. */
  ghost predicate IdentityRead(f: Formats, h: HeaderMap, d: Envelope) {
    && (exists text :: Has(h, "reliar-message-id", text) && f.parseUuid(text) == Some(d.id))
    && Has(h, "reliar-message-type", d.typeName)
    && (exists text :: Has(h, "reliar-message-version", text) && f.parseVersion(text) == Some(d.version))
    && Has(h, "reliar-content-type", d.contentType)
  }

  ghost predicate IdsRead(f: Formats, h: HeaderMap, d: Envelope) {
    && (ReadsUuid(f, h, "reliar-conversation-id", Some(d.conversationId))
        || (d.conversationId == 0 && Lacks(h, "reliar-conversation-id")))
    && ReadsUuid(f, h, "reliar-causation-id", d.causationId)
    && ReadsUuid(f, h, "reliar-request-id", d.requestId)
  }

  ghost predicate TextsRead(h: HeaderMap, d: Envelope) {
    && Reads(h, "reliar-correlation-id", d.correlationId) && Reads(h, "reliar-tenant-id", d.tenantId)
    && Reads(h, "reliar-source", d.source) && Reads(h, "reliar-destination", d.destination)
    && Reads(h, "reliar-reply-to", d.replyTo)
  }

  ghost predicate TimesRead(f: Formats, h: HeaderMap, d: Envelope) {
    ReadsTime(f, h, "reliar-sent-at", d.sentAt) && ReadsTime(f, h, "reliar-expires-at", d.expiresAt)
  }

  /** A dedup key that is the text of the message's own id is none. */
  ghost predicate TraceRead(h: HeaderMap, d: Envelope) {
    && Reads(h, "traceparent", d.traceparent) && Reads(h, "tracestate", d.tracestate)
    && (Reads(h, "Nats-Msg-Id", d.deduplicationId)
        || (d.deduplicationId.None? &&
              exists text :: Has(h, "Nats-Msg-Id", text) && Has(h, "reliar-message-id", text)))
  }

  ghost predicate Parses(f: Formats, slots: map<Kind, string>, custom: map<string, string>, payload: seq<bv8>,
                         d: Envelope) {
    Parse(f, slots, custom, payload) == Ok(d)
  }

  predicate SlotsChecked(f: Formats, slots: map<Kind, string>) {
    && UuidOk(f, slots, ConversationId) && UuidOk(f, slots, CausationId) && UuidOk(f, slots, RequestId)
    && TimeOk(f, slots, SentAt) && TimeOk(f, slots, ExpiresAt)
  }

  /** The fields of a parsed envelope are its slots. */
  predicate IdentityFrom(f: Formats, slots: map<Kind, string>, d: Envelope) {
    && MessageIdHeader in slots && f.parseUuid(slots[MessageIdHeader]) == Some(d.id)
    && Get(slots, MessageType) == Some(d.typeName)
    && MessageVersion in slots && f.parseVersion(slots[MessageVersion]) == Some(d.version)
    && Get(slots, ContentTypeHeader) == Some(d.contentType)
  }

  predicate IdsFrom(f: Formats, slots: map<Kind, string>, d: Envelope) {
    && GetUuid(f, slots, ConversationId) == (if ConversationId in slots then Some(d.conversationId) else None)
    && (ConversationId !in slots ==> d.conversationId == 0)
    && d.causationId == GetUuid(f, slots, CausationId) && d.requestId == GetUuid(f, slots, RequestId)
  }

  predicate TextsFrom(f: Formats, slots: map<Kind, string>, d: Envelope) {
    && d.correlationId == Get(slots, CorrelationId) && d.tenantId == Get(slots, TenantId)
    && d.source == Get(slots, Source) && d.destination == Get(slots, Destination) && d.replyTo == Get(slots, ReplyTo)
    && d.sentAt == GetTime(f, slots, SentAt) && d.expiresAt == GetTime(f, slots, ExpiresAt)
  }

  predicate TraceFrom(slots: map<Kind, string>, d: Envelope) {
    && d.traceparent == Get(slots, Traceparent) && d.tracestate == Get(slots, Tracestate)
    && (d.deduplicationId == Get(slots, NatsMsgId)
        || (d.deduplicationId.None? && NatsMsgId in slots && Get(slots, NatsMsgId) == Get(slots, MessageIdHeader)))
  }

  lemma ParsedFrom(f: Formats, slots: map<Kind, string>, custom: map<string, string>, payload: seq<bv8>, d: Envelope)
    requires Parses(f, slots, custom, payload, d)
    ensures SlotsChecked(f, slots) && IdentityFrom(f, slots, d) && IdsFrom(f, slots, d) && TextsFrom(f, slots, d)
    ensures TraceFrom(slots, d) && d.payload == payload
  {
  }

  lemma ReadsIdentity(f: Formats, h: HeaderMap, slots: map<Kind, string>, d: Envelope)
    requires Filled(h, slots) && IdentityFrom(f, slots, d)
    ensures IdentityRead(f, h, d)
  {
    assert Reads(h, Name(MessageIdHeader), Get(slots, MessageIdHeader));
    assert Reads(h, Name(MessageType), Get(slots, MessageType));
    assert Reads(h, Name(MessageVersion), Get(slots, MessageVersion));
    assert Reads(h, Name(ContentTypeHeader), Get(slots, ContentTypeHeader));
  }

  lemma ReadsIds(f: Formats, h: HeaderMap, slots: map<Kind, string>, d: Envelope)
    requires Filled(h, slots) && SlotsChecked(f, slots) && IdsFrom(f, slots, d)
    ensures IdsRead(f, h, d)
  {
    SlotReadsUuid(f, h, slots, ConversationId);
    SlotReadsUuid(f, h, slots, CausationId);
    SlotReadsUuid(f, h, slots, RequestId);
  }

  lemma ReadsTexts(f: Formats, h: HeaderMap, slots: map<Kind, string>, d: Envelope)
    requires Filled(h, slots) && TextsFrom(f, slots, d)
    ensures TextsRead(h, d)
  {
    assert Reads(h, Name(CorrelationId), Get(slots, CorrelationId));
    assert Reads(h, Name(TenantId), Get(slots, TenantId));
    assert Reads(h, Name(Source), Get(slots, Source));
    assert Reads(h, Name(Destination), Get(slots, Destination));
    assert Reads(h, Name(ReplyTo), Get(slots, ReplyTo));
  }

  lemma ReadsTimes(f: Formats, h: HeaderMap, slots: map<Kind, string>, d: Envelope)
    requires Filled(h, slots) && SlotsChecked(f, slots) && TextsFrom(f, slots, d)
    ensures TimesRead(f, h, d)
  {
    SlotReadsTime(f, h, slots, SentAt);
    SlotReadsTime(f, h, slots, ExpiresAt);
  }

  lemma ReadsTrace(h: HeaderMap, slots: map<Kind, string>, d: Envelope)
    requires Filled(h, slots) && TraceFrom(slots, d)
    ensures TraceRead(h, d)
  {
    assert Reads(h, Name(Traceparent), Get(slots, Traceparent));
    assert Reads(h, Name(Tracestate), Get(slots, Tracestate));
    assert Reads(h, Name(NatsMsgId), Get(slots, NatsMsgId));
    assert Reads(h, Name(MessageIdHeader), Get(slots, MessageIdHeader));
  }

  /** What `decode` reads, header by header. */
  lemma DecodeProjection(f: Formats, w: Wire, d: Envelope)
    requires Scannable(w) && Decode(f, w) == Ok(d)
    ensures IdentityRead(f, w.headers, d) && IdsRead(f, w.headers, d) && TextsRead(w.headers, d)
    ensures TimesRead(f, w.headers, d) && TraceRead(w.headers, d) && d.payload == w.payload
  {
    var slots, custom := SlotsIn(w.headers, w.headers.Keys), CustomsIn(w.headers, w.headers.Keys);
    ScannedFills(w);
    assert Parses(f, slots, custom, w.payload, d);
    ParsedFrom(f, slots, custom, w.payload, d);
    ReadsIdentity(f, w.headers, slots, d);
    ReadsIds(f, w.headers, slots, d);
    ReadsTexts(f, w.headers, slots, d);
    ReadsTimes(f, w.headers, slots, d);
    ReadsTrace(w.headers, slots, d);
  }

  // ---------------------------------------------------------------- what decode accepts

  /** One of the seventeen, whatever its case. */
  ghost predicate IsFramework(n: string) {
    exists name :: name in NAMES && EqIgnoreCase(n, name)
  }

  /** Any name the framework and the server do not claim. */
  ghost predicate IsCustom(n: string) {
    !IsFramework(n) && !StartsWithIgnoreCase(n, "reliar-") && !StartsWithIgnoreCase(n, "Nats-")
  }

  lemma ListedIsName(name: string)
    requires name in NAMES
    ensures exists k :: Name(k) == name
  {
    assert Name(MessageIdHeader) == "reliar-message-id" && Name(MessageType) == "reliar-message-type";
    assert Name(MessageVersion) == "reliar-message-version" && Name(ContentTypeHeader) == "reliar-content-type";
    assert Name(CorrelationId) == "reliar-correlation-id" && Name(ConversationId) == "reliar-conversation-id";
    assert Name(CausationId) == "reliar-causation-id" && Name(RequestId) == "reliar-request-id";
    assert Name(TenantId) == "reliar-tenant-id" && Name(SentAt) == "reliar-sent-at";
    assert Name(ExpiresAt) == "reliar-expires-at" && Name(Source) == "reliar-source";
    assert Name(Destination) == "reliar-destination" && Name(ReplyTo) == "reliar-reply-to";
    assert Name(Traceparent) == "traceparent" && Name(Tracestate) == "tracestate" && Name(NatsMsgId) == "Nats-Msg-Id";
  }

  lemma ClassifiesAs(n: string)
    ensures Classify(n).Framework? <==> IsFramework(n)
    ensures Classify(n).Custom? <==> IsCustom(n)
  {
    if IsFramework(n) {
      var name :| name in NAMES && EqIgnoreCase(n, name);
      ListedIsName(name);
      var k :| Name(k) == name;
      ClassifyIs(n, k);
    }
    if Classify(n).Framework? {
      ClassifyIs(n, Classify(n).kind);
      NameListed(Classify(n).kind);
    }
  }

  lemma SameClass(m: string, n: string)
    requires Classify(n).Framework?
    ensures Classify(m) == Classify(n) <==> EqIgnoreCase(m, n)
  {
    var k := Classify(n).kind;
    ClassifyIs(n, k);
    ClassifyIs(m, k);
    if EqIgnoreCase(m, n) {
      assert EqIgnoreCase(m, Name(k));
    }
    if Classify(m) == Framework(k) {
      assert EqIgnoreCase(m, n);
    }
  }

  /** A name that can be read: a framework header occurs once, in any case, with one value; a custom one is
      a valid header. */
  ghost predicate Readable(headers: HeaderMap, n: string)
    requires n in headers
  {
    && (IsFramework(n) ==> |headers[n]| == 1 && forall m | m in headers && EqIgnoreCase(m, n) :: m == n)
    && (IsCustom(n) ==> ValidEntry(n, if headers[n] == [] then "" else headers[n][0]))
  }

  lemma ReadableExactly(headers: HeaderMap, n: string)
    requires n in headers
    ensures NameOk(headers.Keys, n, headers[n]) <==> Readable(headers, n)
  {
    ClassifiesAs(n);
    if Classify(n).Framework? {
      forall m | m in headers ensures Classify(m) == Classify(n) <==> EqIgnoreCase(m, n) {
        SameClass(m, n);
      }
    }
  }

  /** The custom headers read, exactly: every custom name with its first value. */
  lemma CustomFromWire(f: Formats, w: Wire)
    requires Scannable(w) && Decode(f, w).Ok?
    ensures var custom := CustomOf(Decode(f, w).value);
            && Decode(f, w).value.headers != Some(map[])
            && (forall n :: n in custom <==> n in w.headers && IsCustom(n))
            && (forall n | n in custom :: custom[n] == if w.headers[n] == [] then "" else w.headers[n][0])
  {
    forall n ensures Classify(n).Custom? <==> IsCustom(n) {
      ClassifiesAs(n);
    }
  }

  /** Exactly which header maps can be scanned. */
  lemma ScannableExactly(w: Wire, customs: set<string>)
    requires forall n :: n in customs <==> n in w.headers && IsCustom(n)
    ensures Scannable(w) <==> |customs| <= 32 && forall n | n in w.headers :: Readable(w.headers, n)
  {
    forall n | n in w.headers
      ensures NameOk(w.headers.Keys, n, w.headers[n]) <==> Readable(w.headers, n)
      ensures Classify(n).Custom? <==> IsCustom(n)
    {
      ReadableExactly(w.headers, n);
      ClassifiesAs(n);
    }
    var read := CustomsIn(w.headers, w.headers.Keys);
    assert read.Keys == customs;
    assert |read| == |read.Keys|;
  }

  /** The required header `name` is there and its text is accepted. */
  ghost predicate Given(headers: HeaderMap, name: string, ok: string -> bool) {
    exists text :: Has(headers, name, text) && ok(text)
  }

  /** The optional header `name` is missing, or its text is accepted. */
  ghost predicate Fine(headers: HeaderMap, name: string, ok: string -> bool) {
    forall text | Has(headers, name, text) :: ok(text)
  }

  lemma SlotIsOnly(w: Wire, k: Kind, text: string)
    requires Scannable(w) && Has(w.headers, Name(k), text)
    ensures Get(SlotsIn(w.headers, w.headers.Keys), k) == Some(text)
  {
    EveryKind(k);
    var n :| n in w.headers && EqIgnoreCase(n, Name(k)) && w.headers[n] == [text];
    ClassifyIs(n, k);
    assert Occurs(w.headers, w.headers.Keys, k);
    var m := Occurrence(w.headers, w.headers.Keys, k);
    assert NameOk(w.headers.Keys, n, w.headers[n]);
    assert m == n;
  }

  /** A slot is the only text of its header. */
  ghost predicate Only(h: HeaderMap, slots: map<Kind, string>) {
    forall k, text | Has(h, Name(k), text) :: Get(slots, k) == Some(text)
  }

  lemma ScannedOnly(w: Wire)
    requires Scannable(w)
    ensures Only(w.headers, SlotsIn(w.headers, w.headers.Keys))
  {
    forall k, text | Has(w.headers, Name(k), text)
      ensures Get(SlotsIn(w.headers, w.headers.Keys), k) == Some(text)
    {
      SlotIsOnly(w, k, text);
    }
  }

  lemma SlotGiven(h: HeaderMap, slots: map<Kind, string>, k: Kind, ok: string -> bool)
    requires Filled(h, slots) && Only(h, slots)
    ensures Given(h, Name(k), ok) <==> k in slots && ok(slots[k])
    ensures Fine(h, Name(k), ok) <==> (k in slots ==> ok(slots[k]))
  {
    assert Reads(h, Name(k), Get(slots, k));
    if k in slots {
      assert Has(h, Name(k), slots[k]);
      forall text | Has(h, Name(k), text) ensures text == slots[k] {
        assert Get(slots, k) == Some(text);
      }
    } else {
      forall text ensures !Has(h, Name(k), text) {
      }
    }
  }

  ghost predicate IdentityGiven(f: Formats, h: HeaderMap) {
    && Given(h, "reliar-message-id", s => f.parseUuid(s).Some?)
    && Given(h, "reliar-message-version", s => f.parseVersion(s).Some?)
    && Given(h, "reliar-message-type", s => s != "") && Given(h, "reliar-content-type", s => IsContentType(s))
  }

  ghost predicate TextsFine(h: HeaderMap) {
    && Fine(h, "reliar-correlation-id", s => IsText(s)) && Fine(h, "reliar-source", s => IsText(s))
    && Fine(h, "reliar-destination", s => IsText(s)) && Fine(h, "reliar-reply-to", s => IsText(s))
  }

  ghost predicate IdsAndTimesFine(f: Formats, h: HeaderMap) {
    && Fine(h, "reliar-conversation-id", s => f.parseUuid(s).Some?)
    && Fine(h, "reliar-causation-id", s => f.parseUuid(s).Some?)
    && Fine(h, "reliar-request-id", s => f.parseUuid(s).Some?)
    && Fine(h, "reliar-sent-at", s => f.parseTime(s).Some?)
    && Fine(h, "reliar-expires-at", s => f.parseTime(s).Some?)
  }

  lemma IdentityChecked(f: Formats, h: HeaderMap, slots: map<Kind, string>)
    requires Filled(h, slots) && Only(h, slots)
    ensures CheckIdentity(f, slots) == None <==> IdentityGiven(f, h)
  {
    SlotGiven(h, slots, MessageIdHeader, s => f.parseUuid(s).Some?);
    SlotGiven(h, slots, MessageVersion, s => f.parseVersion(s).Some?);
    SlotGiven(h, slots, MessageType, s => s != "");
    SlotGiven(h, slots, ContentTypeHeader, s => IsContentType(s));
  }

  predicate TextSlotsOk(slots: map<Kind, string>) {
    TextOk(slots, CorrelationId) && TextOk(slots, Source) && TextOk(slots, Destination) && TextOk(slots, ReplyTo)
  }

  predicate OtherSlotsOk(f: Formats, slots: map<Kind, string>) {
    && UuidOk(f, slots, ConversationId) && UuidOk(f, slots, CausationId) && UuidOk(f, slots, RequestId)
    && TimeOk(f, slots, SentAt) && TimeOk(f, slots, ExpiresAt)
  }

  lemma TextsChecked(h: HeaderMap, slots: map<Kind, string>)
    requires Filled(h, slots) && Only(h, slots)
    ensures TextSlotsOk(slots) <==> TextsFine(h)
  {
    SlotGiven(h, slots, CorrelationId, s => IsText(s));
    SlotGiven(h, slots, Source, s => IsText(s));
    SlotGiven(h, slots, Destination, s => IsText(s));
    SlotGiven(h, slots, ReplyTo, s => IsText(s));
  }

  lemma OthersChecked(f: Formats, h: HeaderMap, slots: map<Kind, string>)
    requires Filled(h, slots) && Only(h, slots)
    ensures OtherSlotsOk(f, slots) <==> IdsAndTimesFine(f, h)
  {
    SlotGiven(h, slots, ConversationId, s => f.parseUuid(s).Some?);
    SlotGiven(h, slots, CausationId, s => f.parseUuid(s).Some?);
    SlotGiven(h, slots, RequestId, s => f.parseUuid(s).Some?);
    SlotGiven(h, slots, SentAt, s => f.parseTime(s).Some?);
    SlotGiven(h, slots, ExpiresAt, s => f.parseTime(s).Some?);
  }

  lemma MetadataChecked(f: Formats, slots: map<Kind, string>)
    ensures CheckMetadata(f, slots) == None <==> TextSlotsOk(slots) && OtherSlotsOk(f, slots)
  {
  }

  /** Exactly which scanned header maps decode: the four identity headers are there and well formed, the type
      name is not empty, and what else is there is well formed. */
  lemma DecodesExactly(f: Formats, w: Wire)
    requires Scannable(w)
    ensures Decode(f, w).Ok? <==> IdentityGiven(f, w.headers) && TextsFine(w.headers) && IdsAndTimesFine(f, w.headers)
  {
    var slots := SlotsIn(w.headers, w.headers.Keys);
    ScannedFills(w);
    ScannedOnly(w);
    IdentityChecked(f, w.headers, slots);
    TextsChecked(w.headers, slots);
    OthersChecked(f, w.headers, slots);
    MetadataChecked(f, slots);
  }

  /** A text its header cannot hold. */
  predicate Malformed(f: Formats, k: Kind, text: string) {
    match k
    case MessageIdHeader | ConversationId | CausationId | RequestId => f.parseUuid(text).None?
    case MessageVersion => f.parseVersion(text).None?
    case MessageType => text == ""
    case ContentTypeHeader => !IsContentType(text)
    case SentAt | ExpiresAt => f.parseTime(text).None?
    case _ => !IsText(text)
  }

  predicate Tells(f: Formats, slots: map<Kind, string>, error: MapError) {
    match error
    case MissingHeader(k) =>
      k !in slots && (k.MessageIdHeader? || k.MessageType? || k.MessageVersion? || k.ContentTypeHeader?)
    case MalformedHeader(k) => k in slots && Malformed(f, k, slots[k])
    case _ => false
  }

  lemma ParseTells(f: Formats, slots: map<Kind, string>, custom: map<string, string>, payload: seq<bv8>)
    requires Parse(f, slots, custom, payload).Err?
    ensures Tells(f, slots, Parse(f, slots, custom, payload).error)
  {
  }

  /** A refusal names a header that is at fault: an identity header that is missing, or one whose text is
      malformed. */
  lemma RejectionTells(f: Formats, w: Wire)
    requires Scannable(w) && Decode(f, w).Err?
    ensures match Decode(f, w).error
            case MissingHeader(k) =>
              Lacks(w.headers, Name(k)) &&
                (k.MessageIdHeader? || k.MessageType? || k.MessageVersion? || k.ContentTypeHeader?)
            case MalformedHeader(k) => exists text :: Has(w.headers, Name(k), text) && Malformed(f, k, text)
            case _ => false
  {
    var slots := SlotsIn(w.headers, w.headers.Keys);
    ScannedFills(w);
    ParseTells(f, slots, CustomsIn(w.headers, w.headers.Keys), w.payload);
    match Decode(f, w).error
    case MissingHeader(k) => assert Reads(w.headers, Name(k), Get(slots, k));
    case MalformedHeader(k) => assert Reads(w.headers, Name(k), Get(slots, k));
    case _ =>
  }
}
