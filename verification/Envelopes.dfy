/** The canonical message envelope of reliar-core. */
module Envelopes {
  import opened Basics
  import opened Headers

  type U16 = n: nat | n < 0x1_0000

  type Uuid = n: nat | n < 0x1_0000_0000_0000_0000_0000_0000_0000_0000

  datatype Envelope = Envelope(
    id: Uuid,
    typeName: string,
    version: U16,
    payload: seq<bv8>,
    contentType: string,
    correlationId: Option<string>,
    conversationId: Uuid,
    causationId: Option<Uuid>,
    requestId: Option<Uuid>,
    tenantId: Option<string>,
    sentAt: Option<Time>,
    expiresAt: Option<Time>,
    source: Option<string>,
    destination: Option<string>,
    replyTo: Option<string>,
    traceparent: Option<string>,
    tracestate: Option<string>,
    deduplicationId: Option<string>,
    headers: Option<map<string, string>>)

  /** The nil UUID: "no conversation yet". */
  const UNSET: Uuid := 0

  /** What the field types of an envelope guarantee by construction. */
  ghost predicate WellTyped(e: Envelope) {
    && IsContentType(e.contentType)
    && (e.correlationId.Some? ==> IsText(e.correlationId.value))
    && (e.source.Some? ==> IsText(e.source.value))
    && (e.destination.Some? ==> IsText(e.destination.value))
    && (e.replyTo.Some? ==> IsText(e.replyTo.value))
    && (e.headers.Some? ==> ValidHeaders(e.headers.value))
  }
}
