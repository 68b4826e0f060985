/** The header names of the NATS projection and how a decoder classifies a name. */
module WireNames {
  import opened Headers
  import opened Basics

  /** The framework headers, in the order `encode` writes them. */
  datatype Kind =
    | MessageIdHeader | MessageType | MessageVersion | ContentTypeHeader
    | CorrelationId | ConversationId | CausationId | RequestId
    | TenantId | SentAt | ExpiresAt | Source | Destination | ReplyTo | Traceparent | Tracestate | NatsMsgId

  const ORDER: seq<Kind> := [
    MessageIdHeader, MessageType, MessageVersion, ContentTypeHeader,
    CorrelationId, ConversationId, CausationId, RequestId,
    TenantId, SentAt, ExpiresAt, Source, Destination, ReplyTo, Traceparent, Tracestate, NatsMsgId]

  const KINDS: set<Kind> := {
    MessageIdHeader, MessageType, MessageVersion, ContentTypeHeader,
    CorrelationId, ConversationId, CausationId, RequestId,
    TenantId, SentAt, ExpiresAt, Source, Destination, ReplyTo, Traceparent, Tracestate, NatsMsgId}

  const RELIAR_PREFIX := "reliar-"
  const NATS_PREFIX := "Nats-"

  function Name(k: Kind): string {
    match k
    case MessageIdHeader => "reliar-message-id"
    case MessageType => "reliar-message-type"
    case MessageVersion => "reliar-message-version"
    case ContentTypeHeader => "reliar-content-type"
    case CorrelationId => "reliar-correlation-id"
    case ConversationId => "reliar-conversation-id"
    case CausationId => "reliar-causation-id"
    case RequestId => "reliar-request-id"
    case TenantId => "reliar-tenant-id"
    case SentAt => "reliar-sent-at"
    case ExpiresAt => "reliar-expires-at"
    case Source => "reliar-source"
    case Destination => "reliar-destination"
    case ReplyTo => "reliar-reply-to"
    case Traceparent => "traceparent"
    case Tracestate => "tracestate"
    case NatsMsgId => "Nats-Msg-Id"
  }

  datatype Class = Framework(kind: Kind) | NatsBookkeeping | UnknownReliar | Custom

  /** The comparisons of `classify_header`, in its order. */
  function FirstMatch(name: string, kinds: seq<Kind>): Option<Kind> {
    if kinds == [] then None
    else if EqIgnoreCase(name, Name(kinds[0])) then Some(kinds[0])
    else FirstMatch(name, kinds[1..])
  }

  function Classify(name: string): Class {
    var framework := FirstMatch(name, ORDER);
    if framework.Some? then Framework(framework.value)
    else if StartsWithIgnoreCase(name, NATS_PREFIX) then NatsBookkeeping
    else if StartsWithIgnoreCase(name, RELIAR_PREFIX) then UnknownReliar
    else Custom
  }

  /** `trace_override_name`. */
  function TraceKind(key: string): Option<Kind> {
    if EqIgnoreCase(key, Name(Traceparent)) then Some(Traceparent)
    else if EqIgnoreCase(key, Name(Tracestate)) then Some(Tracestate)
    else None
  }

  predicate IsTrace(k: Kind) {
    k.Traceparent? || k.Tracestate?
  }

  // ---------------------------------------------------------------- names are told apart

  lemma EveryKind(k: Kind)
    ensures k in KINDS && k in ORDER
  {
  }

  function Length(k: Kind): nat {
    match k
    case MessageIdHeader => 17 case MessageType => 19 case MessageVersion => 22 case ContentTypeHeader => 19
    case CorrelationId => 21 case ConversationId => 22 case CausationId => 19 case RequestId => 17
    case TenantId => 16 case SentAt => 14 case ExpiresAt => 17 case Source => 13 case Destination => 18
    case ReplyTo => 15 case Traceparent => 11 case Tracestate => 10 case NatsMsgId => 11
  }

  lemma NameLength(k: Kind)
    ensures |Name(k)| == Length(k)
  {
  }

  /** Its length and one or two characters tell a name apart, whatever the case. */
  lemma NamesDiffer(a: Kind, b: Kind)
    requires EqIgnoreCase(Name(a), Name(b))
    ensures a == b
  {
    NameLength(a);
    NameLength(b);
    if |Name(a)| >= 13 {
      assert LowerAscii(Name(a)[7]) == LowerAscii(Name(b)[7]) && LowerAscii(Name(a)[8]) == LowerAscii(Name(b)[8]);
    } else {
      assert LowerAscii(Name(a)[0]) == LowerAscii(Name(b)[0]);
    }
  }

  lemma SameName(name: string, a: Kind, b: Kind)
    requires EqIgnoreCase(name, Name(a)) && EqIgnoreCase(name, Name(b))
    ensures a == b
  {
    assert EqIgnoreCase(Name(a), Name(b));
    NamesDiffer(a, b);
  }

  lemma {:induction false} FirstMatchIs(name: string, kinds: seq<Kind>, k: Kind)
    ensures FirstMatch(name, kinds) == Some(k) ==> EqIgnoreCase(name, Name(k))
    ensures k in kinds && EqIgnoreCase(name, Name(k)) ==> FirstMatch(name, kinds) == Some(k)
  {
    if kinds != [] {
      FirstMatchIs(name, kinds[1..], k);
      if EqIgnoreCase(name, Name(kinds[0])) && EqIgnoreCase(name, Name(k)) {
        SameName(name, kinds[0], k);
      }
    }
  }

  /** Classification is by name up to case, whatever the order of the comparisons. */
  lemma ClassifyIs(name: string, k: Kind)
    ensures Classify(name) == Framework(k) <==> EqIgnoreCase(name, Name(k))
  {
    FirstMatchIs(name, ORDER, k);
    EveryKind(k);
  }

  lemma OwnNameClassifies(k: Kind)
    ensures Classify(Name(k)) == Framework(k)
  {
    ClassifyIs(Name(k), k);
  }

  lemma TraceKindIs(key: string, k: Kind)
    ensures TraceKind(key) == Some(k) <==> IsTrace(k) && EqIgnoreCase(key, Name(k))
  {
    if EqIgnoreCase(key, Name(Traceparent)) && EqIgnoreCase(key, Name(Tracestate)) {
      SameName(key, Traceparent, Tracestate);
    }
  }

  lemma NamePrefix(k: Kind)
    ensures !IsTrace(k) && k != NatsMsgId ==> Name(k)[..7] == RELIAR_PREFIX
    ensures k == NatsMsgId ==> Name(k)[..5] == NATS_PREFIX
  {
  }

  lemma PrefixIgnoresCase(key: string, name: string, prefix: string)
    requires EqIgnoreCase(key, name) && |prefix| <= |name| && name[..|prefix|] == prefix
    ensures StartsWithIgnoreCase(key, prefix)
  {
  }

  /** A custom key that `encode` lets through is a spelling of a trace header or plainly custom. */
  lemma CustomKeyClass(key: string)
    requires !StartsWithIgnoreCase(key, RELIAR_PREFIX) && !StartsWithIgnoreCase(key, NATS_PREFIX)
    ensures Classify(key) == match TraceKind(key) case Some(k) => Framework(k) case None => Custom
  {
    match Classify(key)
    case Framework(k) =>
      ClassifyIs(key, k);
      TraceKindIs(key, k);
      NamePrefix(k);
      if k == NatsMsgId {
        PrefixIgnoresCase(key, Name(k), NATS_PREFIX);
      } else if !IsTrace(k) {
        PrefixIgnoresCase(key, Name(k), RELIAR_PREFIX);
      }
    case _ =>
      ClassifyIs(key, Traceparent);
      ClassifyIs(key, Tracestate);
  }
}
