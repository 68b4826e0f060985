/** Decoding what was encoded, and encoding it again. */
module MapperTheorems {
  import opened Basics
  import opened Headers
  import opened WireNames
  import opened Envelopes
  import opened Mapper

  /** What an envelope comes back as: custom spellings of trace headers have become metadata, an empty
      header map is no header map, and a dedup key equal to the message id is no dedup key. */
  ghost function Normal(f: Formats, e: Envelope): Envelope {
    e.(traceparent := TextOf(f, e, Traceparent),
       tracestate := TextOf(f, e, Tracestate),
       deduplicationId := if e.deduplicationId == Some(f.printUuid(e.id)) then None else e.deduplicationId,
       headers := AsHeaders(Plain(e)))
  }

  // ---------------------------------------------------------------- scanning what was encoded

  lemma PlainIsCustom(f: Formats, e: Envelope, key: string)
    requires Encodable(f, e) && WellTyped(e) && key in Plain(e)
    ensures Classify(key).Custom? && ValidEntry(key, Plain(e)[key])
  {
    assert KeyOk(f, e, CustomOf(e).Keys, key, CustomOf(e)[key]);
    assert ValidEntry(key, CustomOf(e)[key]);
    CustomKeyClass(key);
  }

  lemma PlainIsValid(e: Envelope)
    requires WellTyped(e)
    ensures ValidHeaders(Plain(e))
  {
    if e.headers.Some? {
      FewerEntries(e.headers.value, Plain(e));
    }
  }

  /** In an encoded header map a name is framework exactly when it is the canonical one. */
  lemma EncodedName(f: Formats, e: Envelope, n: string)
    requires Encodable(f, e) && WellTyped(e) && n in Encoded(f, e).headers
    ensures var texts := Texts(f, e);
            match Classify(n)
            case Framework(k) => k in texts && n == Name(k) && Encoded(f, e).headers[n] == [texts[k]]
            case Custom => n in Plain(e) && n !in NamesOf(texts) && Encoded(f, e).headers[n] == [Plain(e)[n]]
            case _ => false
  {
    if n in NamesOf(Texts(f, e)) {
      NamesOfIs(Texts(f, e), n);
    } else {
      PlainIsCustom(f, e, n);
    }
  }

  lemma EncodedNameOk(f: Formats, e: Envelope, n: string)
    requires Encodable(f, e) && WellTyped(e) && n in Encoded(f, e).headers
    ensures NameOk(Encoded(f, e).headers.Keys, n, Encoded(f, e).headers[n])
  {
    EncodedName(f, e, n);
    if Classify(n).Custom? {
      PlainIsCustom(f, e, n);
    } else {
      forall m | m in Encoded(f, e).headers.Keys && Classify(m) == Classify(n) ensures m == n {
        EncodedName(f, e, m);
      }
    }
  }

  lemma EncodedCustoms(f: Formats, e: Envelope)
    requires Encodable(f, e) && WellTyped(e)
    ensures CustomsIn(Encoded(f, e).headers, Encoded(f, e).headers.Keys) == Plain(e)
  {
    var headers := Encoded(f, e).headers;
    var customs := CustomsIn(headers, headers.Keys);
    forall n | n in customs ensures n in Plain(e) && customs[n] == Plain(e)[n] {
      EncodedName(f, e, n);
    }
    forall key | key in Plain(e) ensures key in customs {
      PlainIsCustom(f, e, key);
      assert key in headers;
    }
  }

  lemma EncodedScans(f: Formats, e: Envelope)
    requires Encodable(f, e) && WellTyped(e)
    ensures Scannable(Encoded(f, e))
  {
    var headers := Encoded(f, e).headers;
    forall n | n in headers.Keys ensures NameOk(headers.Keys, n, headers[n]) {
      EncodedNameOk(f, e, n);
    }
    EncodedCustoms(f, e);
    PlainIsValid(e);
  }

  lemma TextHasSlot(f: Formats, e: Envelope, k: Kind)
    requires k in Texts(f, e)
    ensures Occurs(Encoded(f, e).headers, Encoded(f, e).headers.Keys, k)
  {
    OwnNameClassifies(k);
    assert Name(k) in NamesOf(Texts(f, e));
    assert Name(k) in Encoded(f, e).headers;
  }

  lemma SlotHasText(f: Formats, e: Envelope, k: Kind)
    requires Encodable(f, e) && WellTyped(e) && Occurs(Encoded(f, e).headers, Encoded(f, e).headers.Keys, k)
    ensures k in Texts(f, e)
    ensures FirstValue(Encoded(f, e).headers[Occurrence(Encoded(f, e).headers, Encoded(f, e).headers.Keys, k)])
              == Texts(f, e)[k]
  {
    EncodedName(f, e, Occurrence(Encoded(f, e).headers, Encoded(f, e).headers.Keys, k));
  }

  lemma SlotAt(f: Formats, e: Envelope, k: Kind)
    requires Encodable(f, e) && WellTyped(e)
    ensures Get(SlotsIn(Encoded(f, e).headers, Encoded(f, e).headers.Keys), k) == Get(Texts(f, e), k)
  {
    EveryKind(k);
    if k in Texts(f, e) {
      TextHasSlot(f, e, k);
    }
    if Occurs(Encoded(f, e).headers, Encoded(f, e).headers.Keys, k) {
      SlotHasText(f, e, k);
    }
  }

  lemma EncodedSlots(f: Formats, e: Envelope)
    requires Encodable(f, e) && WellTyped(e)
    ensures SlotsIn(Encoded(f, e).headers, Encoded(f, e).headers.Keys) == Texts(f, e)
  {
    var slots, texts := SlotsIn(Encoded(f, e).headers, Encoded(f, e).headers.Keys), Texts(f, e);
    forall k ensures Get(slots, k) == Get(texts, k) {
      SlotAt(f, e, k);
    }
    SameSlots(slots, texts);
  }

  // ---------------------------------------------------------------- parsing what was scanned

  lemma TextsAt(f: Formats, e: Envelope, k: Kind)
    ensures Get(Texts(f, e), k) == TextOf(f, e, k)
  {
  }

  /** The raw texts carry an envelope's fields. */
  predicate CarriesIdentity(f: Formats, slots: map<Kind, string>, e: Envelope) {
    && Get(slots, MessageIdHeader) == Some(f.printUuid(e.id)) && Get(slots, MessageType) == Some(e.typeName)
    && Get(slots, MessageVersion) == Some(f.printVersion(e.version))
    && Get(slots, ContentTypeHeader) == Some(e.contentType)
  }

  predicate CarriesIds(f: Formats, slots: map<Kind, string>, e: Envelope) {
    && Get(slots, ConversationId) == (if e.conversationId == UNSET then None else Some(f.printUuid(e.conversationId)))
    && CarriesUuid(f, slots, CausationId, e.causationId) && CarriesUuid(f, slots, RequestId, e.requestId)
  }

  predicate CarriesUuid(f: Formats, slots: map<Kind, string>, k: Kind, u: Option<Uuid>) {
    if u.None? then k !in slots else Get(slots, k) == Some(f.printUuid(u.value))
  }

  predicate CarriesTime(f: Formats, slots: map<Kind, string>, k: Kind, t: Option<Time>) {
    if t.None? then k !in slots else f.printTime(t.value).Some? && Get(slots, k) == f.printTime(t.value)
  }

  predicate CarriesTexts(slots: map<Kind, string>, e: Envelope) {
    && Get(slots, CorrelationId) == e.correlationId && Get(slots, TenantId) == e.tenantId
    && Get(slots, Source) == e.source && Get(slots, Destination) == e.destination && Get(slots, ReplyTo) == e.replyTo
  }

  predicate CarriesRest(f: Formats, slots: map<Kind, string>, e: Envelope) {
    && Get(slots, Traceparent) == e.traceparent && Get(slots, Tracestate) == e.tracestate
    && Get(slots, NatsMsgId) == Some(if e.deduplicationId.Some? then e.deduplicationId.value else f.printUuid(e.id))
  }

  predicate Carries(f: Formats, slots: map<Kind, string>, e: Envelope) {
    && CarriesIdentity(f, slots, e) && CarriesIds(f, slots, e) && CarriesTexts(slots, e) && CarriesRest(f, slots, e)
    && CarriesTime(f, slots, SentAt, e.sentAt) && CarriesTime(f, slots, ExpiresAt, e.expiresAt)
  }

  lemma CarriedIdentity(f: Formats, slots: map<Kind, string>, e: Envelope)
    requires Lawful(f) && IsContentType(e.contentType) && CarriesIdentity(f, slots, e)
    ensures CheckIdentity(f, slots) == if e.typeName == "" then Some(MalformedHeader(MessageType)) else None
    ensures f.parseUuid(slots[MessageIdHeader]) == Some(e.id) &&
              f.parseVersion(slots[MessageVersion]) == Some(e.version)
  {
  }

  lemma CarriedUuid(f: Formats, slots: map<Kind, string>, k: Kind, u: Option<Uuid>)
    requires Lawful(f) && CarriesUuid(f, slots, k, u)
    ensures UuidOk(f, slots, k) && GetUuid(f, slots, k) == u
  {
  }

  lemma CarriedTime(f: Formats, slots: map<Kind, string>, k: Kind, t: Option<Time>)
    requires Lawful(f) && CarriesTime(f, slots, k, t)
    ensures TimeOk(f, slots, k) && GetTime(f, slots, k) == t
  {
    if t.Some? {
      var at := t.value;
      assert f.printTime(at).Some? && slots[k] == f.printTime(at).value;
      assert f.parseTime(f.printTime(at).value) == Some(at);
    }
  }

  lemma CarriedMetadata(f: Formats, slots: map<Kind, string>, e: Envelope)
    requires Lawful(f) && WellTyped(e) && Carries(f, slots, e)
    ensures CheckMetadata(f, slots) == None
    ensures GetUuid(f, slots, ConversationId) == (if e.conversationId == UNSET then None else Some(e.conversationId))
    ensures GetUuid(f, slots, CausationId) == e.causationId && GetUuid(f, slots, RequestId) == e.requestId
    ensures GetTime(f, slots, SentAt) == e.sentAt && GetTime(f, slots, ExpiresAt) == e.expiresAt
  {
    CarriedUuid(f, slots, ConversationId, if e.conversationId == UNSET then None else Some(e.conversationId));
    CarriedUuid(f, slots, CausationId, e.causationId);
    CarriedUuid(f, slots, RequestId, e.requestId);
    CarriedTime(f, slots, SentAt, e.sentAt);
    CarriedTime(f, slots, ExpiresAt, e.expiresAt);
  }

  /** Texts that carry an envelope parse to it. */
  lemma CarriedParses(f: Formats, slots: map<Kind, string>, e: Envelope, custom: map<string, string>)
    requires Lawful(f) && WellTyped(e) && Carries(f, slots, e) && e.headers == AsHeaders(custom)
    requires e.deduplicationId != Some(f.printUuid(e.id))
    ensures Parse(f, slots, custom, e.payload) == if e.typeName == "" then Err(MalformedHeader(MessageType)) else Ok(e)
  {
    CarriedIdentity(f, slots, e);
    CarriedMetadata(f, slots, e);
  }

  lemma FieldText(f: Formats, e: Envelope, k: Kind)
    requires !IsTrace(k)
    ensures match FieldOf(f, e, k) case Text(text) => Get(Texts(f, e), k) == Some(text) case _ => k !in Texts(f, e)
  {
  }

  lemma OptionalText(f: Formats, e: Envelope, k: Kind, s: Option<string>)
    requires !IsTrace(k) && FieldOf(f, e, k) == Optional(s)
    ensures Get(Texts(f, e), k) == s
  {
    FieldText(f, e, k);
  }

  lemma TextsCarryIdentity(f: Formats, e: Envelope)
    ensures CarriesIdentity(f, Texts(f, e), Normal(f, e))
  {
    FieldText(f, e, MessageIdHeader);
    FieldText(f, e, MessageType);
    FieldText(f, e, MessageVersion);
    FieldText(f, e, ContentTypeHeader);
  }

  lemma TextsCarryIds(f: Formats, e: Envelope)
    ensures CarriesIds(f, Texts(f, e), Normal(f, e))
  {
    FieldText(f, e, ConversationId);
    FieldText(f, e, CausationId);
    FieldText(f, e, RequestId);
  }

  lemma TextsCarryTexts(f: Formats, e: Envelope)
    ensures CarriesTexts(Texts(f, e), Normal(f, e))
  {
    OptionalText(f, e, CorrelationId, e.correlationId);
    OptionalText(f, e, TenantId, e.tenantId);
    OptionalText(f, e, Source, e.source);
    OptionalText(f, e, Destination, e.destination);
    OptionalText(f, e, ReplyTo, e.replyTo);
  }

  lemma TextsCarryTimes(f: Formats, e: Envelope)
    requires FieldOk(FieldOf(f, e, SentAt)) && FieldOk(FieldOf(f, e, ExpiresAt))
    ensures CarriesTime(f, Texts(f, e), SentAt, e.sentAt) && CarriesTime(f, Texts(f, e), ExpiresAt, e.expiresAt)
  {
    FieldText(f, e, SentAt);
    FieldText(f, e, ExpiresAt);
  }

  lemma TextsCarryRest(f: Formats, e: Envelope)
    ensures CarriesRest(f, Texts(f, e), Normal(f, e))
  {
    TextsAt(f, e, Traceparent);
    TextsAt(f, e, Tracestate);
    FieldText(f, e, NatsMsgId);
  }

  lemma NormalIsWellTyped(f: Formats, e: Envelope)
    requires WellTyped(e)
    ensures WellTyped(Normal(f, e))
  {
    PlainIsValid(e);
  }

  /** `decode` of what `encode` wrote: it succeeds exactly when the type name is not empty, and gives
      the normal form of the envelope. In particular it never meets a duplicate header. */
  lemma DecodeEncoded(f: Formats, e: Envelope)
    requires Lawful(f) && WellTyped(e) && Encodable(f, e)
    ensures Scannable(Encoded(f, e))
    ensures Decode(f, Encoded(f, e)) == if e.typeName == "" then Err(MalformedHeader(MessageType)) else Ok(Normal(f, e))
  {
    EncodedScans(f, e);
    EncodedSlots(f, e);
    EncodedCustoms(f, e);
    NormalParses(f, e);
  }

  lemma NormalParses(f: Formats, e: Envelope)
    requires Lawful(f) && WellTyped(e) && FieldOk(FieldOf(f, e, SentAt)) && FieldOk(FieldOf(f, e, ExpiresAt))
    ensures Parse(f, Texts(f, e), Plain(e), e.payload)
            == if e.typeName == "" then Err(MalformedHeader(MessageType)) else Ok(Normal(f, e))
  {
    NormalIsWellTyped(f, e);
    TextsCarryIdentity(f, e);
    TextsCarryIds(f, e);
    TextsCarryTexts(f, e);
    TextsCarryTimes(f, e);
    TextsCarryRest(f, e);
    CarriedParses(f, Texts(f, e), Normal(f, e), Plain(e));
  }

  // ---------------------------------------------------------------- the fixpoint

  lemma PlainHasNoTrace(e: Envelope, k: Kind)
    ensures !Spelled(Plain(e).Keys, k)
  {
  }

  lemma NormalCustom(f: Formats, e: Envelope)
    ensures CustomOf(Normal(f, e)) == Plain(e) && Plain(Normal(f, e)) == Plain(e)
  {
  }

  lemma NormalTexts(f: Formats, e: Envelope)
    ensures Texts(f, Normal(f, e)) == Texts(f, e)
  {
    forall k ensures TextOf(f, Normal(f, e), k) == TextOf(f, e, k) {
      NormalText(f, e, k);
    }
  }

  lemma NormalText(f: Formats, e: Envelope, k: Kind)
    ensures TextOf(f, Normal(f, e), k) == TextOf(f, e, k)
  {
    NormalCustom(f, e);
    PlainHasNoTrace(e, k);
  }

  lemma NormalFieldOk(f: Formats, e: Envelope, k: Kind)
    requires Encodable(f, e)
    ensures FieldOk(FieldOf(f, Normal(f, e), k))
  {
    assert FieldOk(FieldOf(f, e, k));
    if IsTrace(k) && FieldOf(f, e, k).Absent? && Spelled(CustomOf(e).Keys, k) {
      var key := Spelling(CustomOf(e).Keys, k);
      assert KeyOk(f, e, CustomOf(e).Keys, key, CustomOf(e)[key]);
    } else if k == NatsMsgId {
      assert FieldOk(FieldOf(f, e, MessageIdHeader));
    }
  }

  lemma NormalIsEncodable(f: Formats, e: Envelope)
    requires Encodable(f, e)
    ensures Encodable(f, Normal(f, e))
  {
    NormalCustom(f, e);
    var n := Normal(f, e);
    forall key | key in CustomOf(n).Keys ensures KeyOk(f, n, CustomOf(n).Keys, key, CustomOf(n)[key]) {
      assert KeyOk(f, e, CustomOf(e).Keys, key, CustomOf(e)[key]);
    }
    forall k ensures FieldOk(FieldOf(f, n, k)) {
      NormalFieldOk(f, e, k);
    }
  }

  lemma NormalEncodesTheSame(f: Formats, e: Envelope)
    ensures Encoded(f, Normal(f, e)) == Encoded(f, e)
  {
    NormalTexts(f, e);
    NormalCustom(f, e);
  }

  /** Wire fixpoint: encoding what was decoded gives the same wire message again. */
  lemma ReencodesTheSame(f: Formats, e: Envelope)
    requires Lawful(f) && WellTyped(e) && Encodable(f, e) && e.typeName != ""
    ensures Scannable(Encoded(f, e)) && Decode(f, Encoded(f, e)).Ok?
    ensures var d := Decode(f, Encoded(f, e)).value;
            WellTyped(d) && Encodable(f, d) && Encoded(f, d) == Encoded(f, e)
  {
    DecodeEncoded(f, e);
    NormalIsWellTyped(f, e);
    NormalIsEncodable(f, e);
    NormalEncodesTheSame(f, e);
  }

  /** Nothing in the envelope is lost to normalisation. */
  predicate IsNormal(f: Formats, e: Envelope) {
    && e.headers != Some(map[])
    && (forall key | key in CustomOf(e) :: TraceKind(key).None?)
    && e.deduplicationId != Some(f.printUuid(e.id))
  }

  lemma NormalOfNormal(f: Formats, e: Envelope)
    ensures Normal(f, e) == e <==> IsNormal(f, e)
  {
    if forall key | key in CustomOf(e) :: TraceKind(key).None? {
      assert Plain(e) == CustomOf(e);
      NoSpelling(e, Traceparent);
      NoSpelling(e, Tracestate);
    } else {
      var key :| key in CustomOf(e) && TraceKind(key).Some?;
      assert key !in Plain(e);
      NormalCustom(f, e);
    }
  }

  /** Exactly when the envelope itself comes back: no present-but-empty header map, no custom spelling
      of a trace header, and no dedup key that is the message's own id. */
  lemma ComesBackExactly(f: Formats, e: Envelope)
    requires Lawful(f) && WellTyped(e) && Encodable(f, e) && e.typeName != ""
    ensures Scannable(Encoded(f, e))
    ensures Decode(f, Encoded(f, e)) == Ok(e) <==> IsNormal(f, e)
  {
    DecodeEncoded(f, e);
    NormalOfNormal(f, e);
  }

  lemma NoSpelling(e: Envelope, k: Kind)
    requires forall key | key in CustomOf(e) :: TraceKind(key).None?
    ensures !Spelled(CustomOf(e).Keys, k)
  {
  }

  // ---------------------------------------------------------------- the normalisation nobody documented

  /** A number as that many strokes: a format whose parser undoes its printer. */
  function Strokes(n: nat): (s: string)
    ensures |s| == n && LegalValue(s)
  {
    seq(n, _ => '|')
  }

  function CountUuid(s: string): Option<Uuid> {
    if |s| < 0x1_0000_0000_0000_0000_0000_0000_0000_0000 then Some(|s|) else None
  }

  function CountVersion(s: string): Option<U16> {
    if |s| < 0x1_0000 then Some(|s|) else None
  }

  const STROKES := Formats(
    (u: Uuid) => Strokes(u), CountUuid, (v: U16) => Strokes(v), CountVersion,
    (t: Time) => None, (s: string) => None, (s: string) => true)

  const PLAIN := Envelope(
    1, "order.placed", 1, [], "a/b", None, UNSET, None, None, None, None, None, None, None, None, None, None, None,
        Some(map[]))

  lemma StrokesAreLawful()
    ensures Lawful(STROKES)
  {
  }

  lemma PlainIsWellTyped()
    ensures WellTyped(PLAIN)
  {
    var c := "a/b";
    assert c[1] == '/' && c[..1] == "a";
    assert c[1..] == "/b" && "/b"[1..] == "b" && "b"[1..] == "";
    assert ByteLen("b") == 1 && ByteLen("/b") == 2 && ByteLen(c) == 3;
    assert IsContentType(c);
  }

  lemma PlainEncodes()
    ensures Encodable(STROKES, PLAIN)
  {
    assert LegalValue("order.placed") && LegalValue("a/b");
    forall k ensures FieldOk(FieldOf(STROKES, PLAIN, k)) {
    }
  }

  /** Whoever prints and parses: an envelope whose header map is present but empty, and which meets every
      other condition, comes back without one. */
  lemma EmptyHeaderMapVanishes(f: Formats, e: Envelope)
    requires Lawful(f) && WellTyped(e) && Encodable(f, e) && e.typeName != ""
    requires e.headers == Some(map[]) && e.deduplicationId != Some(f.printUuid(e.id))
    ensures Scannable(Encoded(f, e)) && Decode(f, Encoded(f, e)) == Ok(e.(headers := None))
  {
    DecodeEncoded(f, e);
    EmptyNormal(f, e);
  }

  lemma EmptyNormal(f: Formats, e: Envelope)
    requires e.headers == Some(map[]) && e.deduplicationId != Some(f.printUuid(e.id))
    ensures Normal(f, e) == e.(headers := None)
  {
    NoSpelling(e, Traceparent);
    NoSpelling(e, Tracestate);
    assert Plain(e) == map[];
  }

  /** There is such an envelope. */
  lemma EmptyHeaderMapIsLost() returns (f: Formats, e: Envelope)
    ensures Lawful(f) && WellTyped(e) && Encodable(f, e) && e.typeName != "" && e.headers == Some(map[])
    ensures Scannable(Encoded(f, e)) && Decode(f, Encoded(f, e)) == Ok(e.(headers := None))
  {
    f, e := STROKES, PLAIN;
    StrokesAreLawful();
    PlainIsWellTyped();
    PlainEncodes();
    EmptyHeaderMapVanishes(f, e);
  }
}
