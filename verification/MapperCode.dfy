/** `encode` and `decode` as programs. Both walk a hash map in whatever order it yields its entries;
    their contracts speak of the envelope and the header map only, so neither whether they succeed
    nor what they then return depends on that order. */
module MapperCode {
  import opened Basics
  import opened Headers
  import opened WireNames
  import opened Envelopes
  import opened Mapper

  /** A loop over a set is done when nothing is left. */
  lemma NoneLeft(all: set<string>, done: set<string>)
    requires done <= all && all - done == {}
    ensures done == all
  {
    forall n | n in all ensures n in done {
      assert n !in all - done;
    }
  }

  // ---------------------------------------------------------------- growing a header map

  lemma TextAt(texts: map<Kind, string>, custom: map<string, string>, k: Kind)
    requires k in texts
    ensures Name(k) in NamesOf(texts) && Name(k) in WireHeaders(texts, custom) &&
              WireHeaders(texts, custom)[Name(k)] == [texts[k]]
  {
    OwnNameClassifies(k);
    assert Name(k) in NamesOf(texts);
  }

  lemma NamesWith(texts: map<Kind, string>, k: Kind, text: string)
    ensures NamesOf(texts[k := text]) == NamesOf(texts) + {Name(k)}
  {
  }

  lemma AddTextAt(texts: map<Kind, string>, custom: map<string, string>, k: Kind, text: string, n: string)
    requires n in WireHeaders(texts[k := text], custom)
    ensures n in WireHeaders(texts, custom)[Name(k) := [text]]
    ensures WireHeaders(texts[k := text], custom)[n] == WireHeaders(texts, custom)[Name(k) := [text]][n]
  {
    NamesWith(texts, k, text);
    if n == Name(k) {
      TextAt(texts[k := text], custom, k);
    } else if n in NamesOf(texts) {
      NamesOfIs(texts, n);
      TextAt(texts, custom, Classify(n).kind);
      TextAt(texts[k := text], custom, Classify(n).kind);
    }
  }

  lemma AddText(texts: map<Kind, string>, custom: map<string, string>, k: Kind, text: string)
    ensures WireHeaders(texts[k := text], custom) == WireHeaders(texts, custom)[Name(k) := [text]]
  {
    var after := WireHeaders(texts[k := text], custom);
    NamesWith(texts, k, text);
    assert after.Keys == WireHeaders(texts, custom).Keys + {Name(k)};
    forall n | n in after ensures after[n] == WireHeaders(texts, custom)[Name(k) := [text]][n] {
      AddTextAt(texts, custom, k, text, n);
    }
  }

  lemma AddCustom(texts: map<Kind, string>, custom: map<string, string>, n: string, value: string)
    requires n !in NamesOf(texts)
    ensures WireHeaders(texts, custom[n := value]) == WireHeaders(texts, custom)[n := [value]]
  {
  }

  // ---------------------------------------------------------------- the custom headers

  /** The trace texts that custom headers in `keys` contribute. */
  ghost function TraceTexts(e: Envelope, keys: set<string>): map<Kind, string>
    requires keys <= CustomOf(e).Keys
  {
    map k | k in KINDS && IsTrace(k) && TraceField(e, k).None? && Spelled(keys, k) :: CustomOf(e)[Spelling(keys, k)]
  }

  ghost function PlainIn(e: Envelope, keys: set<string>): map<string, string>
    requires keys <= CustomOf(e).Keys
  {
    map key | key in PlainKeys(keys) :: CustomOf(e)[key]
  }

  ghost function Partial(e: Envelope, keys: set<string>): HeaderMap
    requires keys <= CustomOf(e).Keys
  {
    WireHeaders(TraceTexts(e, keys), PlainIn(e, keys))
  }

  lemma TraceTextsNames(e: Envelope, keys: set<string>, n: string)
    requires keys <= CustomOf(e).Keys && n in NamesOf(TraceTexts(e, keys))
    ensures TraceKind(n).Some?
  {
  }

  lemma SpelledMore(keys: set<string>, key: string, k: Kind)
    ensures TraceKind(key) != Some(k) ==> Spelled(keys + {key}, k) == Spelled(keys, k)
    ensures TraceKind(key) == Some(k) ==> Spelled(keys + {key}, k)
  {
  }

  /** With one spelling per trace header the choice of a spelling is no choice. */
  lemma SameSpelling(f: Formats, e: Envelope, keys: set<string>, key: string, k: Kind)
    requires keys + {key} <= CustomOf(e).Keys && CustomOk(f, e, keys) && TraceField(e, k).None? && IsTrace(k)
    requires Spelled(keys, k) && TraceKind(key) != Some(k)
    ensures Spelled(keys + {key}, k) && Spelling(keys + {key}, k) == Spelling(keys, k)
  {
  }

  lemma OtherTraceTexts(f: Formats, e: Envelope, keys: set<string>, key: string)
    requires keys + {key} <= CustomOf(e).Keys && CustomOk(f, e, keys)
    requires TraceKind(key).Some? ==> TraceField(e, TraceKind(key).value).Some?
    ensures TraceTexts(e, keys + {key}) == TraceTexts(e, keys)
  {
    var before, after := TraceTexts(e, keys), TraceTexts(e, keys + {key});
    forall k | IsTrace(k) && TraceField(e, k).None?
      ensures Spelled(keys + {key}, k) == Spelled(keys, k)
      ensures Spelled(keys, k) ==> Spelling(keys + {key}, k) == Spelling(keys, k)
    {
      SpelledMore(keys, key, k);
      if Spelled(keys, k) {
        SameSpelling(f, e, keys, key, k);
      }
    }
    assert after.Keys == before.Keys;
  }

  lemma OwnTraceTexts(f: Formats, e: Envelope, keys: set<string>, key: string)
    requires keys + {key} <= CustomOf(e).Keys && CustomOk(f, e, keys)
    requires TraceKind(key).Some? && TraceField(e, TraceKind(key).value).None? && !Spelled(keys, TraceKind(key).value)
    ensures TraceTexts(e, keys + {key}) == TraceTexts(e, keys)[TraceKind(key).value := CustomOf(e)[key]]
  {
    var own := TraceKind(key).value;
    var before, after := TraceTexts(e, keys), TraceTexts(e, keys + {key});
    TraceKindIs(key, own);
    EveryKind(own);
    SpelledMore(keys, key, own);
    assert Spelling(keys + {key}, own) == key;
    forall k | IsTrace(k) && TraceField(e, k).None? && k != own
      ensures Spelled(keys + {key}, k) == Spelled(keys, k)
      ensures Spelled(keys, k) ==> Spelling(keys + {key}, k) == Spelling(keys, k)
    {
      SpelledMore(keys, key, k);
      if Spelled(keys, k) {
        SameSpelling(f, e, keys, key, k);
      }
    }
    assert after.Keys == before.Keys + {own};
  }

  /** One more custom header, plain: it is written under its own name. */
  lemma PlainStep(f: Formats, e: Envelope, keys: set<string>, key: string)
    requires keys + {key} <= CustomOf(e).Keys && CustomOk(f, e, keys) && TraceKind(key).None?
    ensures Partial(e, keys + {key}) == Partial(e, keys)[key := [CustomOf(e)[key]]]
  {
    OtherTraceTexts(f, e, keys, key);
    assert PlainIn(e, keys + {key}) == PlainIn(e, keys)[key := CustomOf(e)[key]];
    if key in NamesOf(TraceTexts(e, keys)) {
      TraceTextsNames(e, keys, key);
    }
    AddCustom(TraceTexts(e, keys), PlainIn(e, keys), key, CustomOf(e)[key]);
  }

  /** A spelling of a trace header whose metadata is set: dropped. */
  lemma DroppedStep(f: Formats, e: Envelope, keys: set<string>, key: string)
    requires keys + {key} <= CustomOf(e).Keys && CustomOk(f, e, keys)
    requires TraceKind(key).Some? && TraceField(e, TraceKind(key).value).Some?
    ensures Partial(e, keys + {key}) == Partial(e, keys)
  {
    OtherTraceTexts(f, e, keys, key);
    assert PlainIn(e, keys + {key}) == PlainIn(e, keys);
  }

  /** The first spelling of a trace header without metadata: written under the canonical name. */
  lemma TraceStep(f: Formats, e: Envelope, keys: set<string>, key: string)
    requires keys + {key} <= CustomOf(e).Keys && CustomOk(f, e, keys)
    requires TraceKind(key).Some? && TraceField(e, TraceKind(key).value).None? && !Spelled(keys, TraceKind(key).value)
    ensures Partial(e, keys + {key}) == Partial(e, keys)[Name(TraceKind(key).value) := [CustomOf(e)[key]]]
  {
    OwnTraceTexts(f, e, keys, key);
    assert PlainIn(e, keys + {key}) == PlainIn(e, keys);
    AddText(TraceTexts(e, keys), PlainIn(e, keys), TraceKind(key).value, CustomOf(e)[key]);
  }

  /** A header accepted beside those already done is accepted with them. */
  lemma AcceptStep(f: Formats, e: Envelope, keys: set<string>, key: string)
    requires keys + {key} <= CustomOf(e).Keys && CustomOk(f, e, keys) && !StartsWithIgnoreCase(key, NATS_PREFIX)
    requires match TraceKind(key)
             case None => f.legalName(key) && LegalValue(CustomOf(e)[key])
             case Some(k) => TraceField(e, k).Some? || (!Spelled(keys, k) && LegalValue(CustomOf(e)[key]))
    ensures CustomOk(f, e, keys + {key})
  {
    forall x | x in keys + {key} ensures KeyOk(f, e, keys + {key}, x, CustomOf(e)[x]) {
      if x in keys {
        assert KeyOk(f, e, keys, x, CustomOf(e)[x]);
      }
    }
  }

  /** A header refused beside some of the others is refused beside all of them. */
  lemma RefuseStep(f: Formats, e: Envelope, keys: set<string>, key: string)
    requires keys + {key} <= CustomOf(e).Keys && key !in keys
    requires
      || StartsWithIgnoreCase(key, NATS_PREFIX)
      || match TraceKind(key)
         case None => !f.legalName(key) || !LegalValue(CustomOf(e)[key])
         case Some(k) => TraceField(e, k).None? && (Spelled(keys, k) || !LegalValue(CustomOf(e)[key]))
    ensures !Encodable(f, e)
  {
  }

  /** The headers in `done` have been written; `written` are the trace headers among them. */
  ghost predicate WrittenSoFar(f: Formats, e: Envelope, done: set<string>, headers: HeaderMap, written: set<Kind>) {
    && done <= CustomOf(e).Keys && CustomOk(f, e, done) && headers == Partial(e, done)
    && (forall k | IsTrace(k) && TraceField(e, k).None? :: k in written <==> Spelled(done, k))
  }

  lemma WrittenMore(f: Formats, e: Envelope, done: set<string>, key: string, written: set<Kind>, written': set<Kind>)
    requires forall k | IsTrace(k) && TraceField(e, k).None? :: k in written <==> Spelled(done, k)
    requires forall k | IsTrace(k) && TraceField(e, k).None? ::
               k in written' <==> k in written || TraceKind(key) == Some(k)
    ensures forall k | IsTrace(k) && TraceField(e, k).None? :: k in written' <==> Spelled(done + {key}, k)
  {
    forall k ensures Spelled(done + {key}, k) == (Spelled(done, k) || TraceKind(key) == Some(k)) {
      SpelledMore(done, key, k);
    }
  }

  /** A custom header under its own name. */
  method WritePlain(f: Formats, e: Envelope, ghost done: set<string>, key: string, headers: HeaderMap,
                    ghost written: set<Kind>)
    returns (r: Result<HeaderMap, MapError>)
    requires WrittenSoFar(f, e, done, headers, written) && key in CustomOf(e) && key !in done
    requires TraceKind(key).None? && !StartsWithIgnoreCase(key, NATS_PREFIX)
    ensures r.Ok? ==> WrittenSoFar(f, e, done + {key}, r.value, written)
    ensures r.Err? ==> !Encodable(f, e)
  {
    var value := CustomOf(e)[key];
    if !f.legalName(key) {
      RefuseStep(f, e, done, key);
      return Err(UnsupportedHeaderName(key));
    } else if !LegalValue(value) {
      RefuseStep(f, e, done, key);
      return Err(InvalidHeaderValue(key));
    }
    PlainStep(f, e, done, key);
    AcceptStep(f, e, done, key);
    WrittenMore(f, e, done, key, written, written);
    r := Ok(headers[key := [value]]);
  }

  /** A spelling of trace header `k`: dropped if the metadata has it, refused if it is the second. */
  method WriteTrace(f: Formats, e: Envelope, ghost done: set<string>, key: string, k: Kind, headers: HeaderMap,
                    written: set<Kind>)
    returns (error: Option<MapError>, headers': HeaderMap, written': set<Kind>)
    requires WrittenSoFar(f, e, done, headers, written) && key in CustomOf(e) && key !in done
    requires TraceKind(key) == Some(k) && !StartsWithIgnoreCase(key, NATS_PREFIX)
    ensures error.None? ==> WrittenSoFar(f, e, done + {key}, headers', written')
    ensures error.Some? ==> !Encodable(f, e)
  {
    TraceKindIs(key, k);
    error, headers', written' := None, headers, written;
    var value := CustomOf(e)[key];
    if TraceField(e, k).Some? {
      DroppedStep(f, e, done, key);
    } else if k in written {
      RefuseStep(f, e, done, key);
      return Some(DuplicateHeader(k)), headers, written;
    } else if !LegalValue(value) {
      RefuseStep(f, e, done, key);
      return Some(InvalidHeaderValue(Name(k))), headers, written;
    } else {
      TraceStep(f, e, done, key);
      headers', written' := headers[Name(k) := [value]], written + {k};
    }
    AcceptStep(f, e, done, key);
    WrittenMore(f, e, done, key, written, written');
  }

  lemma NothingWritten(f: Formats, e: Envelope)
    ensures WrittenSoFar(f, e, {}, map[], {})
  {
    assert Partial(e, {}) == map[];
  }

  /** The first half of `encode`: the custom headers, in any order. */
  method EncodeCustom(f: Formats, e: Envelope) returns (r: Result<HeaderMap, MapError>)
    ensures r.Ok? ==> CustomOk(f, e, CustomOf(e).Keys) && r.value == Partial(e, CustomOf(e).Keys)
    ensures r.Err? ==> !Encodable(f, e)
  {
    var headers: HeaderMap, written: set<Kind> := map[], {};
    var rest := CustomOf(e).Keys;
    ghost var done: set<string> := {};
    NothingWritten(f, e);
    while rest != {}
      invariant rest == CustomOf(e).Keys - done && WrittenSoFar(f, e, done, headers, written)
      decreases rest
    {
      var key :| key in rest;
      if StartsWithIgnoreCase(key, NATS_PREFIX) {
        RefuseStep(f, e, done, key);
        return Err(ReservedHeaderName(key));
      }
      match TraceKind(key) {
        case Some(k) =>
          var error;
          error, headers, written := WriteTrace(f, e, done, key, k, headers, written);
          if error.Some? {
            return Err(error.value);
          }
        case None =>
          var plain := WritePlain(f, e, done, key, headers, written);
          if plain.Err? {
            return plain;
          }
          headers := plain.value;
      }
      rest, done := rest - {key}, done + {key};
    }
    NoneLeft(CustomOf(e).Keys, done);
    r := Ok(headers);
  }

  // ---------------------------------------------------------------- the framework headers

  /** `base` with the fields of `kinds` written over it. */
  function Overlay(base: map<Kind, string>, f: Formats, e: Envelope, kinds: seq<Kind>): map<Kind, string> {
    if kinds == [] then base
    else
      var before, k := Overlay(base, f, e, kinds[..|kinds| - 1]), kinds[|kinds| - 1];
      match FieldOf(f, e, k)
      case Text(text) => before[k := text]
      case _ => before
  }

  lemma {:induction false} OverlayGet(base: map<Kind, string>, f: Formats, e: Envelope, kinds: seq<Kind>, k: Kind)
    ensures Get(Overlay(base, f, e, kinds), k) ==
              if k in kinds && FieldOf(f, e, k).Text? then Some(FieldOf(f, e, k).text) else Get(base, k)
  {
    if kinds != [] {
      OverlayGet(base, f, e, kinds[..|kinds| - 1], k);
      assert kinds == kinds[..|kinds| - 1] + [kinds[|kinds| - 1]];
    }
  }

  lemma OverlayText(f: Formats, e: Envelope, k: Kind)
    ensures Get(Overlay(TraceTexts(e, CustomOf(e).Keys), f, e, ORDER), k) == Get(Texts(f, e), k)
  {
    OverlayGet(TraceTexts(e, CustomOf(e).Keys), f, e, ORDER, k);
    EveryKind(k);
    TraceTextsAt(f, e, k);
  }

  /** Where the field has no text, what is written is what custom spellings contribute. */
  lemma TraceTextsAt(f: Formats, e: Envelope, k: Kind)
    ensures Get(Texts(f, e), k) ==
              match FieldOf(f, e, k) case Text(t) => Some(t) case _ => Get(TraceTexts(e, CustomOf(e).Keys), k)
  {
    EveryKind(k);
    if !IsTrace(k) {
      assert k !in TraceTexts(e, CustomOf(e).Keys);
    } else {
      assert FieldOf(f, e, k) == Optional(TraceField(e, k));
    }
  }

  lemma OverlayIsTexts(f: Formats, e: Envelope)
    ensures Overlay(TraceTexts(e, CustomOf(e).Keys), f, e, ORDER) == Texts(f, e)
  {
    var a, b := Overlay(TraceTexts(e, CustomOf(e).Keys), f, e, ORDER), Texts(f, e);
    forall k ensures Get(a, k) == Get(b, k) {
      OverlayText(f, e, k);
    }
    SameSlots(a, b);
  }

  lemma OverlayStep(base: map<Kind, string>, f: Formats, e: Envelope, kinds: seq<Kind>, i: nat)
    requires i < |kinds|
    ensures Overlay(base, f, e, kinds[..i + 1]) ==
              match FieldOf(f, e, kinds[i])
              case Text(text) => Overlay(base, f, e, kinds[..i])[kinds[i] := text]
              case _ => Overlay(base, f, e, kinds[..i])
  {
    assert kinds[..i + 1][..i] == kinds[..i];
  }

  /** Writes the fields of `kinds` in their order, over whatever is there. */
  method InsertFields(f: Formats, e: Envelope, headers: HeaderMap, kinds: seq<Kind>, ghost base: map<Kind, string>,
                      ghost custom: map<string, string>)
    returns (r: Result<HeaderMap, MapError>)
    requires headers == WireHeaders(base, custom)
    ensures r.Ok? <==> forall i | 0 <= i < |kinds| :: FieldOk(FieldOf(f, e, kinds[i]))
    ensures r.Ok? ==> r.value == WireHeaders(Overlay(base, f, e, kinds), custom)
  {
    var out := headers;
    for i := 0 to |kinds|
      invariant out == WireHeaders(Overlay(base, f, e, kinds[..i]), custom)
      invariant forall j | 0 <= j < i :: FieldOk(FieldOf(f, e, kinds[j]))
    {
      OverlayStep(base, f, e, kinds, i);
      match FieldOf(f, e, kinds[i])
      case Absent =>
      case Inexpressible => return Err(InvalidHeaderValue(Name(kinds[i])));
      case Text(text) =>
        if !LegalValue(text) {
          return Err(InvalidHeaderValue(Name(kinds[i])));
        }
        AddText(Overlay(base, f, e, kinds[..i]), custom, kinds[i], text);
        out := out[Name(kinds[i]) := [text]];
    }
    assert kinds[..|kinds|] == kinds;
    r := Ok(out);
  }

  /** The second half of `encode`: the framework headers in table order, over whatever is there. */
  method InsertFrameworkHeaders(f: Formats, e: Envelope, headers: HeaderMap, ghost base: map<Kind, string>,
                                ghost custom: map<string, string>)
    returns (r: Result<HeaderMap, MapError>)
    requires headers == WireHeaders(base, custom)
    ensures r.Ok? <==> forall k :: FieldOk(FieldOf(f, e, k))
    ensures r.Ok? ==> r.value == WireHeaders(Overlay(base, f, e, ORDER), custom)
  {
    r := InsertFields(f, e, headers, ORDER, base, custom);
    if r.Ok? {
      forall k ensures FieldOk(FieldOf(f, e, k)) {
        EveryKind(k);
      }
    }
  }

  /** `encode`: succeeds exactly on the encodable envelopes, with their one wire form, whatever order
      the custom headers come in. */
  method Encode(f: Formats, e: Envelope) returns (r: Result<Wire, MapError>)
    ensures r.Ok? <==> Encodable(f, e)
    ensures r.Ok? ==> r.value == Encoded(f, e)
  {
    var custom := EncodeCustom(f, e);
    if custom.Err? {
      return Err(custom.error);
    }
    ghost var keys := CustomOf(e).Keys;
    assert PlainIn(e, keys) == Plain(e);
    OverlayIsTexts(f, e);
    var all := InsertFrameworkHeaders(f, e, custom.value, TraceTexts(e, keys), PlainIn(e, keys));
    if all.Err? {
      return Err(all.error);
    }
    r := Ok(Wire(all.value, e.payload));
  }

  // ---------------------------------------------------------------- scanning

  lemma OccursMore(headers: HeaderMap, names: set<string>, n: string, k: Kind)
    requires n in headers
    ensures Occurs(headers, names + {n}, k) == (Occurs(headers, names, k) || Classify(n) == Framework(k))
  {
  }

  lemma SameOccurrence(headers: HeaderMap, names: set<string>, n: string, k: Kind)
    requires n in headers && names <= headers.Keys && AllNamesOk(headers, names)
    requires Occurs(headers, names, k) && Classify(n) != Framework(k)
    ensures Occurs(headers, names + {n}, k) && Occurrence(headers, names + {n}, k) == Occurrence(headers, names, k)
  {
  }

  lemma SlotStepAt(headers: HeaderMap, names: set<string>, n: string, j: Kind)
    requires n in headers && names <= headers.Keys && AllNamesOk(headers, names)
    requires Classify(n).Framework? ==> !Occurs(headers, names, Classify(n).kind) && |headers[n]| == 1
    ensures Get(SlotsIn(headers, names + {n}), j) ==
              if Classify(n) == Framework(j) then Some(headers[n][0]) else Get(SlotsIn(headers, names), j)
  {
    EveryKind(j);
    OccursMore(headers, names, n, j);
    if Classify(n) == Framework(j) {
      assert Occurrence(headers, names + {n}, j) == n;
    } else if Occurs(headers, names, j) {
      SameOccurrence(headers, names, n, j);
    }
  }

  /** A framework header not seen before fills its slot and no other. */
  lemma SlotStep(headers: HeaderMap, names: set<string>, n: string, k: Kind)
    requires n in headers && names <= headers.Keys && AllNamesOk(headers, names)
    requires !Occurs(headers, names, k) && |headers[n]| == 1 && Classify(n) == Framework(k)
    ensures SlotsIn(headers, names + {n}) == SlotsIn(headers, names)[k := headers[n][0]]
  {
    var before, after := SlotsIn(headers, names), SlotsIn(headers, names + {n});
    forall j ensures Get(after, j) == Get(before[k := headers[n][0]], j) {
      SlotStepAt(headers, names, n, j);
    }
    SameSlots(after, before[k := headers[n][0]]);
  }

  /** Any other header leaves the slots alone. */
  lemma NoSlotStep(headers: HeaderMap, names: set<string>, n: string)
    requires n in headers && names <= headers.Keys && AllNamesOk(headers, names) && !Classify(n).Framework?
    ensures SlotsIn(headers, names + {n}) == SlotsIn(headers, names)
  {
    var before, after := SlotsIn(headers, names), SlotsIn(headers, names + {n});
    forall j ensures Get(after, j) == Get(before, j) {
      SlotStepAt(headers, names, n, j);
    }
    SameSlots(after, before);
  }

  lemma CustomStep(headers: HeaderMap, names: set<string>, n: string)
    requires n in headers && names <= headers.Keys && n !in names
    ensures Classify(n).Custom? ==>
              CustomsIn(headers, names + {n}) == CustomsIn(headers, names)[n := FirstValue(headers[n])]
    ensures Classify(n).Custom? ==> |CustomsIn(headers, names + {n})| == |CustomsIn(headers, names)| + 1
    ensures !Classify(n).Custom? ==> CustomsIn(headers, names + {n}) == CustomsIn(headers, names)
  {
    if Classify(n).Custom? {
      assert CustomsIn(headers, names + {n}) == CustomsIn(headers, names)[n := FirstValue(headers[n])];
      assert n !in CustomsIn(headers, names);
    } else {
      assert CustomsIn(headers, names + {n}) == CustomsIn(headers, names);
    }
  }

  lemma NotOccurring(headers: HeaderMap, names: set<string>, k: Kind, m: string)
    requires names <= headers.Keys && !Occurs(headers, names, k) && m in names
    ensures Classify(m) != Framework(k)
  {
  }

  /** Names that can be read together with one more. */
  lemma NameStep(headers: HeaderMap, names: set<string>, n: string)
    requires n in headers && names <= headers.Keys && n !in names && AllNamesOk(headers, names)
    requires match Classify(n)
             case Framework(k) => !Occurs(headers, names, k) && |headers[n]| == 1
             case Custom => ValidEntry(n, FirstValue(headers[n]))
             case _ => true
    ensures AllNamesOk(headers, names + {n})
  {
    forall m | m in names + {n} ensures NameOk(names + {n}, m, headers[m]) {
      if m in names {
        assert NameOk(names, m, headers[m]);
        if Classify(n).Framework? {
          NotOccurring(headers, names, Classify(n).kind, m);
        }
      }
    }
  }

  lemma DuplicateFails(w: Wire, names: set<string>, n: string, k: Kind)
    requires n in w.headers && names <= w.headers.Keys && n !in names && Classify(n) == Framework(k)
    requires Occurs(w.headers, names, k) || |w.headers[n]| != 1
    ensures !Scannable(w)
  {
  }

  lemma CustomFails(w: Wire, names: set<string>, n: string)
    requires n in w.headers && names <= w.headers.Keys && n !in names && Classify(n).Custom?
    requires !ValidEntry(n, FirstValue(w.headers[n])) || |CustomsIn(w.headers, names)| >= MAX_COUNT
    ensures !Scannable(w)
  {
    if !ValidEntry(n, FirstValue(w.headers[n])) {
      assert !NameOk(w.headers.Keys, n, w.headers[n]);
    } else {
      CustomStep(w.headers, names, n);
      var some, all := CustomsIn(w.headers, names + {n}), CustomsIn(w.headers, w.headers.Keys);
      SubsetCount(some.Keys, all.Keys);
      assert |some| == |some.Keys| && |all| == |all.Keys|;
    }
  }

  /** The names in `done` have been read into `slots` and `custom`. */
  ghost predicate ReadSoFar(headers: HeaderMap, done: set<string>, slots: map<Kind, string>,
                            custom: map<string, string>)
  {
    && done <= headers.Keys && AllNamesOk(headers, done) && ValidHeaders(custom)
    && slots == SlotsIn(headers, done) && custom == CustomsIn(headers, done)
  }

  /** `assign_once` on the slot of a framework header. */
  method ReadFramework(w: Wire, ghost done: set<string>, n: string, k: Kind, slots: map<Kind, string>,
                       ghost custom: map<string, string>)
    returns (error: Option<MapError>, slots': map<Kind, string>)
    requires ReadSoFar(w.headers, done, slots, custom) && n in w.headers && n !in done && Classify(n) == Framework(k)
    ensures error.None? ==> ReadSoFar(w.headers, done + {n}, slots', custom)
    ensures error.Some? ==> !Scannable(w)
  {
    SlotMeansOccurs(w.headers, done, k);
    if k in slots || |w.headers[n]| != 1 {
      DuplicateFails(w, done, n, k);
      return Some(DuplicateHeader(k)), slots;
    }
    FrameworkRead(w, done, n, k, slots, custom);
    error, slots' := None, slots[k := w.headers[n][0]];
  }

  lemma SlotMeansOccurs(headers: HeaderMap, names: set<string>, k: Kind)
    ensures k in SlotsIn(headers, names) <==> Occurs(headers, names, k)
  {
    EveryKind(k);
  }

  lemma FrameworkRead(w: Wire, done: set<string>, n: string, k: Kind, slots: map<Kind, string>,
                      custom: map<string, string>)
    requires ReadSoFar(w.headers, done, slots, custom) && n in w.headers && n !in done && Classify(n) == Framework(k)
    requires !Occurs(w.headers, done, k) && |w.headers[n]| == 1
    ensures ReadSoFar(w.headers, done + {n}, slots[k := w.headers[n][0]], custom)
  {
    CustomStep(w.headers, done, n);
    SlotStep(w.headers, done, n, k);
    NameStep(w.headers, done, n);
  }

  /** A custom header goes through the validating map. */
  method ReadCustom(w: Wire, ghost done: set<string>, n: string, ghost slots: map<Kind, string>, entries: HeaderSet)
    returns (error: Option<MapError>)
    requires ReadSoFar(w.headers, done, slots, entries.entries) && n in w.headers && n !in done && Classify(n).Custom?
    modifies entries
    ensures error.None? ==> ReadSoFar(w.headers, done + {n}, slots, entries.entries)
    ensures error.Some? ==> !Scannable(w)
  {
    CustomStep(w.headers, done, n);
    var inserted := entries.Insert(n, FirstValue(w.headers[n]));
    if inserted.Err? {
      CustomFails(w, done, n);
      return Some(RejectedHeader(n, inserted.error));
    }
    NoSlotStep(w.headers, done, n);
    NameStep(w.headers, done, n);
    error := None;
  }

  lemma ReadIgnored(w: Wire, done: set<string>, n: string, slots: map<Kind, string>, custom: map<string, string>)
    requires ReadSoFar(w.headers, done, slots, custom) && n in w.headers && n !in done
    requires !Classify(n).Framework? && !Classify(n).Custom?
    ensures ReadSoFar(w.headers, done + {n}, slots, custom)
  {
    CustomStep(w.headers, done, n);
    NoSlotStep(w.headers, done, n);
    NameStep(w.headers, done, n);
  }

  lemma NothingRead(headers: HeaderMap)
    ensures ReadSoFar(headers, {}, map[], map[])
  {
  }

  method ReadOne(w: Wire, ghost done: set<string>, n: string, slots: map<Kind, string>, entries: HeaderSet)
    returns (error: Option<MapError>, slots': map<Kind, string>)
    requires ReadSoFar(w.headers, done, slots, entries.entries) && n in w.headers && n !in done
    modifies entries
    ensures error.None? ==> ReadSoFar(w.headers, done + {n}, slots', entries.entries)
    ensures error.Some? ==> !Scannable(w)
  {
    slots' := slots;
    match Classify(n)
    case Framework(k) =>
      error, slots' := ReadFramework(w, done, n, k, slots, entries.entries);
    case Custom =>
      error := ReadCustom(w, done, n, slots, entries);
    case _ =>
      ReadIgnored(w, done, n, slots, entries.entries);
      error := None;
  }

  lemma AllRead(w: Wire, done: set<string>, slots: map<Kind, string>, custom: map<string, string>)
    requires ReadSoFar(w.headers, done, slots, custom) && done == w.headers.Keys
    ensures Scannable(w)
  {
  }

  /** `ScannedHeaders::scan`: fails exactly on the header maps that cannot be read, and otherwise yields
      every slot and every custom header, whatever order the entries come in. */
  method Scan(w: Wire) returns (error: Option<MapError>, slots: map<Kind, string>, custom: map<string, string>)
    ensures error.None? <==> Scannable(w)
    ensures error.None? ==> ReadSoFar(w.headers, w.headers.Keys, slots, custom)
  {
    var entries := new HeaderSet();
    slots, custom := map[], map[];
    var rest := w.headers.Keys;
    ghost var done: set<string> := {};
    NothingRead(w.headers);
    while rest != {}
      invariant rest == w.headers.Keys - done && done <= w.headers.Keys
      invariant ReadSoFar(w.headers, done, slots, entries.entries)
      decreases rest
    {
      var n :| n in rest;
      error, slots := ReadOne(w, done, n, slots, entries);
      if error.Some? {
        return;
      }
      rest, done := rest - {n}, done + {n};
    }
    custom, error := entries.entries, None;
    NoneLeft(w.headers.Keys, done);
    AllRead(w, done, slots, custom);
  }

  /** `decode`. */
  method DecodeMessage(f: Formats, w: Wire) returns (r: Result<Envelope, MapError>)
    ensures Scannable(w) ==> r == Decode(f, w)
    ensures !Scannable(w) ==> r.Err?
  {
    var error, slots, custom := Scan(w);
    if error.Some? {
      return Err(error.value);
    }
    r := Parse(f, slots, custom, w.payload);
  }
}
