/** Text rules and the validating custom-header map of reliar-core. */
module Headers {
  import opened Basics

  // ---------------------------------------------------------------- text

  /** `char::is_control`: the Unicode category Cc. */
  predicate IsControl(c: char) {
    c as int < 0x20 || 0x7F <= c as int < 0xA0
  }

  predicate HasControl(s: string) {
    exists i :: 0 <= i < |s| && IsControl(s[i])
  }

  /** `str::len`: bytes of the UTF-8 encoding. */
  function ByteLen(s: string): nat {
    if s == [] then 0
    else
      var c := s[0] as int;
      (if c < 0x80 then 1 else if c < 0x800 then 2 else if c < 0x1_0000 then 3 else 4) + ByteLen(s[1..])
  }

  function LowerAscii(c: char): char {
    if 'A' <= c <= 'Z' then c - 'A' + 'a' else c
  }

  predicate EqIgnoreCase(a: string, b: string) {
    |a| == |b| && forall i :: 0 <= i < |a| ==> LowerAscii(a[i]) == LowerAscii(b[i])
  }

  predicate StartsWithIgnoreCase(s: string, prefix: string) {
    |s| >= |prefix| && EqIgnoreCase(s[..|prefix|], prefix)
  }

  /** Equal up to case: each pair of characters is the same, or the two cases of one ASCII letter. */
  lemma CaseExactly(a: string, b: string)
    ensures EqIgnoreCase(a, b) <==>
              |a| == |b| && forall i | 0 <= i < |a| ::
                || a[i] == b[i]
                || ('A' <= a[i] <= 'Z' && b[i] as int == a[i] as int + 32)
                || ('A' <= b[i] <= 'Z' && a[i] as int == b[i] as int + 32)
  {
  }

  /** The rule shared by correlation ids and endpoint addresses. */
  predicate IsText(s: string) {
    s != "" && !HasControl(s) && ByteLen(s) <= 256
  }

  /** A content type: text of the form `type/subtype`, split at the first slash. */
  predicate IsContentType(s: string) {
    IsText(s) && exists i :: 0 < i < |s| - 1 && s[i] == '/' && '/' !in s[..i]
  }

  /** The bytes of a text are those of its characters: one, two, three or four each. */
  lemma ByteLenExactly(c: char, s: string)
    ensures ByteLen("") == 0 && ByteLen([c] + s) == ByteLen([c]) + ByteLen(s)
    ensures c as int < 128 ==> ByteLen([c]) == 1
    ensures 128 <= c as int < 2048 ==> ByteLen([c]) == 2
    ensures 2048 <= c as int < 65536 ==> ByteLen([c]) == 3
    ensures 65536 <= c as int ==> ByteLen([c]) == 4
  {
    assert ([c] + s)[1..] == s && [c][1..] == "";
  }

  /** A text has between 1 and 256 bytes, none of them of a control character. */
  lemma TextExactly(s: string)
    ensures IsText(s) <==>
              && s != "" && ByteLen(s) <= 256
              && forall i | 0 <= i < |s| :: 32 <= s[i] as int < 127 || 160 <= s[i] as int
  {
  }

  /** A content type is a text whose first slash has something before and after it. */
  lemma ContentTypeExactly(s: string)
    ensures IsContentType(s) <==>
              IsText(s) && exists kind, rest :: s == kind + "/" + rest && '/' !in kind && kind != "" && rest != ""
  {
    if IsContentType(s) {
      var i :| 0 < i < |s| - 1 && s[i] == '/' && '/' !in s[..i];
      assert s == s[..i] + "/" + s[i + 1..];
    }
    if kind, rest :| s == kind + "/" + rest && '/' !in kind && kind != "" && rest != "" {
      var i := |kind|;
      assert s[..i] == kind && s[i] == '/';
    }
  }

  // ---------------------------------------------------------------- custom headers

  const RESERVED_PREFIX := "reliar-"
  const MAX_KEY_LEN: nat := 128
  const MAX_VALUE_LEN: nat := 1024
  const MAX_COUNT: nat := 32

  datatype HeaderError =
    | Reserved(key: string) | EmptyKey | ControlCharacterInKey(key: string) | ControlCharacterInValue(key: string)
    | KeyTooLong(len: nat) | ValueTooLong(len: nat) | TooManyHeaders(limit: nat)

  predicate ValidEntry(key: string, value: string) {
    && !StartsWithIgnoreCase(key, RESERVED_PREFIX)
    && key != "" && !HasControl(key) && ByteLen(key) <= MAX_KEY_LEN
    && !HasControl(value) && ByteLen(value) <= MAX_VALUE_LEN
  }

  /** What every header map built through `insert` satisfies. */
  ghost predicate ValidHeaders(m: map<string, string>) {
    |m| <= MAX_COUNT && forall k | k in m :: ValidEntry(k, m[k])
  }

  /** An error names what is wrong with the entry. */
  predicate HeaderAtFault(entries: map<string, string>, key: string, value: string, error: HeaderError) {
    match error
    case Reserved(k) => k == key && StartsWithIgnoreCase(key, "reliar-")
    case EmptyKey => key == ""
    case ControlCharacterInKey(k) => k == key && HasControl(key)
    case ControlCharacterInValue(k) => k == key && HasControl(value)
    case KeyTooLong(len) => len == ByteLen(key) > 128
    case ValueTooLong(len) => len == ByteLen(value) > 1024
    case TooManyHeaders(limit) => limit == 32 && |entries| >= 32 && key !in entries
  }

  class HeaderSet {
    var entries: map<string, string>

    constructor ()
      ensures entries == map[]
    {
      entries := map[];
    }

    /** Inserts or replaces; a refused entry leaves the map as it was. Replacing a present key never
        counts against the cap. */
    method Insert(key: string, value: string) returns (r: Result<Option<string>, HeaderError>)
      requires ValidHeaders(entries)
      modifies this
      ensures ValidHeaders(entries)
      ensures r.Ok? <==> ValidEntry(key, value) && (key in old(entries) || |old(entries)| < MAX_COUNT)
      ensures r.Ok? ==>
                && !StartsWithIgnoreCase(key, "reliar-") && 1 <= ByteLen(key) <= 128 && ByteLen(value) <= 1024
                && !HasControl(key) && !HasControl(value) && |entries| <= 32
      ensures r.Err? ==> HeaderAtFault(old(entries), key, value, r.error)
      ensures entries == if r.Ok? then old(entries)[key := value] else old(entries)
      ensures r.Ok? ==> r.value == if key in old(entries) then Some(old(entries)[key]) else None
      ensures r == Err(TooManyHeaders(MAX_COUNT)) <==>
                ValidEntry(key, value) && key !in old(entries) && |old(entries)| >= MAX_COUNT
    {
      if StartsWithIgnoreCase(key, RESERVED_PREFIX) {
        return Err(Reserved(key));
      }
      if key == "" {
        return Err(EmptyKey);
      }
      if HasControl(key) {
        return Err(ControlCharacterInKey(key));
      }
      if ByteLen(key) > MAX_KEY_LEN {
        return Err(KeyTooLong(ByteLen(key)));
      }
      if HasControl(value) {
        return Err(ControlCharacterInValue(key));
      }
      if ByteLen(value) > MAX_VALUE_LEN {
        return Err(ValueTooLong(ByteLen(value)));
      }
      if key !in entries && |entries| >= MAX_COUNT {
        return Err(TooManyHeaders(MAX_COUNT));
      }
      r := Ok(if key in entries then Some(entries[key]) else None);
      assert key !in entries ==> |entries[key := value]| == |entries| + 1;
      assert key in entries ==> entries[key := value].Keys == entries.Keys;
      entries := entries[key := value];
    }

    method Remove(key: string) returns (previous: Option<string>)
      requires ValidHeaders(entries)
      modifies this
      ensures ValidHeaders(entries) && entries == old(entries) - {key}
      ensures previous == if key in old(entries) then Some(old(entries)[key]) else None
    {
      previous := if key in entries then Some(entries[key]) else None;
      FewerEntries(entries, entries - {key});
      entries := entries - {key};
    }
  }

  /** Dropping entries keeps a header map valid. */
  lemma FewerEntries(m: map<string, string>, n: map<string, string>)
    requires ValidHeaders(m) && n.Keys <= m.Keys && forall k | k in n :: n[k] == m[k]
    ensures ValidHeaders(n)
  {
    SubsetCount(n.Keys, m.Keys);
    assert |n| == |n.Keys| && |m| == |m.Keys|;
  }

  lemma SubsetCount<T>(a: set<T>, b: set<T>)
    requires a <= b
    ensures |a| <= |b|
  {
    assert b == a + (b - a);
  }
}
