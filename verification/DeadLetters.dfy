/** The operator's view of dead rows: `list_dead` and the keyset walk over its pages. */
module DeadLetters {
  import opened Basics
  import opened OutboxTable

  const MAX_LIST_DEAD_LIMIT: nat := 1000

  datatype DeadQuery = DeadQuery(
    messageType: Option<string>, tenantId: Option<string>, deadBefore: Option<Time>, afterSequence: Option<int>,
        limit: nat)

  datatype DeadLetterPage = DeadLetterPage(records: seq<MessageId>, poisoned: seq<MessageId>,
      nextAfterSequence: Option<int>)

  predicate Wanted(r: Row, q: DeadQuery) {
    && r.deadAt.Some?
    && (q.messageType.None? || r.messageType == q.messageType.value)
    && (q.tenantId.None? || r.tenantId == q.tenantId)
    && (q.deadBefore.None? || r.deadAt.value < q.deadBefore.value)
    && (q.afterSequence.None? || r.sequence > q.afterSequence.value)
  }

  function Cap(q: DeadQuery): nat {
    Min(q.limit, MAX_LIST_DEAD_LIMIT)
  }

  function Later(a: Option<int>, b: int): int {
    match a
    case None => b
    case Some(v) => if v > b then v else b
  }

  ghost predicate Ascending(s: seq<MessageId>, rows: map<MessageId, Row>) {
    && (forall m | m in s :: m in rows)
    && (forall i, j | 0 <= i < j < |s| :: rows[s[i]].sequence < rows[s[j]].sequence)
  }

  /** `scanned` is the first page of the wanted rows: in ascending sequence, nothing skipped. */
  ghost predicate IsPage(rows: map<MessageId, Row>, q: DeadQuery, scanned: seq<MessageId>) {
    && Ascending(scanned, rows) && |scanned| <= Cap(q)
    && (forall m | m in scanned :: Wanted(rows[m], q))
    && (forall m | m in rows && Wanted(rows[m], q) && m !in scanned ::
          |scanned| == Cap(q) && forall x | x in scanned :: rows[x].sequence < rows[m].sequence)
  }

  /** Dead, of the type and tenant asked for, dead before the time asked for, and after the cursor. */
  predicate Matching(r: Row, q: DeadQuery) {
    && r.deadAt.Some?
    && (q.messageType.Some? ==> r.messageType == q.messageType.value)
    && (q.tenantId.Some? ==> r.tenantId == Some(q.tenantId.value))
    && (q.deadBefore.Some? ==> r.deadAt.value < q.deadBefore.value)
    && (q.afterSequence.Some? ==> r.sequence > q.afterSequence.value)
  }

  /** What a page shows: rows that match, each in the list it belongs to; and of the rows that match and are
      not shown, none before a shown one, and none at all unless the page is full. */
  ghost predicate ShowsPage(rows: map<MessageId, Row>, q: DeadQuery, page: DeadLetterPage) {
    && (forall m | m in page.records :: m in rows && Matching(rows[m], q) && rows[m].decodable)
    && (forall m | m in page.poisoned :: m in rows && Matching(rows[m], q) && !rows[m].decodable)
    && |page.records| + |page.poisoned| <= Min(q.limit, 1000)
    && (forall m | m in rows && Matching(rows[m], q) && m !in page.records && m !in page.poisoned ::
          |page.records| + |page.poisoned| == Min(q.limit, 1000) &&
          forall x | x in page.records + page.poisoned :: rows[x].sequence < rows[m].sequence)
  }

  lemma {:induction false} SplitIs(scanned: seq<MessageId>, rows: map<MessageId, Row>)
    requires forall m | m in scanned :: m in rows
    ensures forall m :: m in Split(scanned, rows, true) <==> m in scanned && rows[m].decodable
    ensures forall m :: m in Split(scanned, rows, false) <==> m in scanned && !rows[m].decodable
    ensures |Split(scanned, rows, true)| + |Split(scanned, rows, false)| == |scanned|
  {
    if scanned != [] {
      var init, last := scanned[..|scanned| - 1], scanned[|scanned| - 1];
      assert scanned == init + [last];
      SplitIs(init, rows);
    }
  }

  lemma PageShows(rows: map<MessageId, Row>, q: DeadQuery, scanned: seq<MessageId>, page: DeadLetterPage)
    requires IsPage(rows, q, scanned)
    requires page.records == Split(scanned, rows, true) && page.poisoned == Split(scanned, rows, false)
    ensures ShowsPage(rows, q, page)
  {
    SplitIs(scanned, rows);
    forall m | m in rows ensures Wanted(rows[m], q) <==> Matching(rows[m], q) {
    }
  }

  function Split(scanned: seq<MessageId>, rows: map<MessageId, Row>, decodable: bool): seq<MessageId>
    requires forall m | m in scanned :: m in rows
  {
    if scanned == [] then []
    else
      var init, last := scanned[..|scanned| - 1], scanned[|scanned| - 1];
      if rows[last].decodable == decodable then Split(init, rows, decodable) + [last] else Split(init, rows, decodable)
  }

  /** `ORDER BY sequence ASC LIMIT`. */
  method ListDeadRows(rows: map<MessageId, Row>, q: DeadQuery) returns (scanned: seq<MessageId>)
    requires DistinctSequences(rows)
    ensures IsPage(rows, q, scanned)
  {
    scanned := [];
    var rest := set m | m in rows && Wanted(rows[m], q);
    while |scanned| < Cap(q) && rest != {}
      invariant Ascending(scanned, rows) && |scanned| <= Cap(q)
      invariant forall m :: m in rest <==> m in rows && Wanted(rows[m], q) && m !in scanned
      invariant forall m | m in scanned :: Wanted(rows[m], q)
      invariant forall m, x | m in rest && x in scanned :: rows[x].sequence < rows[m].sequence
      decreases rest
    {
      var m := Lowest(rows, rest);
      rest, scanned := rest - {m}, scanned + [m];
    }
  }

  method Lowest(rows: map<MessageId, Row>, candidates: set<MessageId>) returns (m: MessageId)
    requires candidates != {} && candidates <= rows.Keys
    requires DistinctSequences(rows)
    ensures m in candidates && forall b | b in candidates && b != m :: rows[m].sequence < rows[b].sequence
  {
    m :| m in candidates;
    var rest := candidates - {m};
    while rest != {}
      invariant rest <= candidates && m in candidates && m !in rest
      invariant forall b | b in candidates && b !in rest && b != m :: rows[m].sequence < rows[b].sequence
    {
      var x :| x in rest;
      rest := rest - {x};
      if rows[x].sequence < rows[m].sequence {
        m := x;
      }
    }
  }

  /** `list_dead`: one page, split into the rows that decode and those that do not, and a cursor that
      is the last sequence scanned - poisoned rows included - exactly when the page is full. */
  method ListDead(rows: map<MessageId, Row>, q: DeadQuery) returns (page: DeadLetterPage, scanned: seq<MessageId>)
    requires DistinctSequences(rows)
    ensures IsPage(rows, q, scanned)
    ensures page.records == Split(scanned, rows, true) && page.poisoned == Split(scanned, rows, false)
    ensures ShowsPage(rows, q, page)
    ensures page.nextAfterSequence ==
              if |scanned| == Cap(q) && scanned != [] then Some(rows[scanned[|scanned| - 1]].sequence) else None
  {
    var found := ListDeadRows(rows, q);
    scanned := found;
    var records, poisoned, maxSequence := [], [], None;
    for i := 0 to |found|
      invariant records == Split(found[..i], rows, true) && poisoned == Split(found[..i], rows, false)
      invariant maxSequence == if i == 0 then None else Some(rows[found[i - 1]].sequence)
    {
      var m := found[i];
      assert m in found && found[..i + 1][..i] == found[..i];
      maxSequence := Some(Later(maxSequence, rows[m].sequence));
      if rows[m].decodable {
        records := records + [m];
      } else {
        poisoned := poisoned + [m];
      }
    }
    assert found[..|found|] == found;
    page := DeadLetterPage(records, poisoned, if |found| == Cap(q) then maxSequence else None);
    PageShows(rows, q, found, page);
  }

  // ---------------------------------------------------------------- the walk

  /** The columns no statement changes. */
  datatype Fixed = Fixed(sequence: int, decodable: bool)

  /** The tables seen page by page: rows may be retried, purged or killed in between, but a message
      keeps its fixed columns, no two in a table share a sequence, and none is above `top`. */
  ghost predicate Tables(tables: nat -> map<MessageId, Row>, fixed: MessageId -> Fixed, top: int) {
    && (forall i, m | m in tables(i) ::
          tables(i)[m].sequence == fixed(m).sequence <= top && tables(i)[m].decodable == fixed(m).decodable)
    && (forall i :: DistinctSequences(tables(i)))
  }

  ghost predicate InOrder(s: seq<MessageId>, fixed: MessageId -> Fixed) {
    forall i, j | 0 <= i < j < |s| :: fixed(s[i]).sequence < fixed(s[j]).sequence
  }

  /** The row was dead and matched the query at every page read. */
  ghost predicate AlwaysWanted(m: MessageId, tables: nat -> map<MessageId, Row>, q: DeadQuery, pages: nat) {
    forall i: nat | i < pages :: m in tables(i) && Wanted(tables(i)[m], q)
  }

  ghost predicate OnceWanted(m: MessageId, tables: nat -> map<MessageId, Row>, q: DeadQuery, pages: nat) {
    exists i: nat :: i < pages && m in tables(i) && Wanted(tables(i)[m], q)
  }

  function Keep(listed: seq<MessageId>, fixed: MessageId -> Fixed, decodable: bool): seq<MessageId> {
    if listed == [] then []
    else
      var init, last := listed[..|listed| - 1], listed[|listed| - 1];
      if fixed(last).decodable == decodable then Keep(init, fixed, decodable) + [last] else Keep(init, fixed, decodable)
  }

  lemma {:induction false} KeepConcat(a: seq<MessageId>, b: seq<MessageId>, fixed: MessageId -> Fixed, decodable: bool)
    ensures Keep(a + b, fixed, decodable) == Keep(a, fixed, decodable) + Keep(b, fixed, decodable)
  {
    if b == [] {
      assert a + b == a;
    } else {
      assert (a + b)[..|a + b| - 1] == a + b[..|b| - 1];
      KeepConcat(a, b[..|b| - 1], fixed, decodable);
    }
  }

  lemma {:induction false} SplitIsKeep(scanned: seq<MessageId>, tables: nat -> map<MessageId, Row>, i: nat,
                                       fixed: MessageId -> Fixed, top: int, decodable: bool)
    requires Tables(tables, fixed, top) && forall m | m in scanned :: m in tables(i)
    ensures Split(scanned, tables(i), decodable) == Keep(scanned, fixed, decodable)
  {
    if scanned != [] {
      SplitIsKeep(scanned[..|scanned| - 1], tables, i, fixed, top, decodable);
      assert scanned[|scanned| - 1] in tables(i);
    }
  }

  predicate Beyond(sequence: int, cursor: Option<int>) {
    cursor.None? || sequence > cursor.value
  }

  /** What the walk has listed lies at or before the cursor, in order. */
  ghost predicate Behind(listed: seq<MessageId>, cursor: Option<int>, fixed: MessageId -> Fixed) {
    InOrder(listed, fixed) && forall m | m in listed :: !Beyond(fixed(m).sequence, cursor)
  }

  /** Nothing permanently wanted was passed over. */
  ghost predicate Covers(listed: seq<MessageId>, cursor: Option<int>, fixed: MessageId -> Fixed,
                         tables: nat -> map<MessageId, Row>, q: DeadQuery, pages: nat) {
    forall m | AlwaysWanted(m, tables, q, pages) :: m in listed || pages == 0 || Beyond(fixed(m).sequence, cursor)
  }

  /** The page after a cursor continues the list. */
  lemma PageContinues(listed: seq<MessageId>, scanned: seq<MessageId>, tables: nat -> map<MessageId, Row>, i: nat,
                      q: DeadQuery, cursor: Option<int>, fixed: MessageId -> Fixed, top: int)
    requires Tables(tables, fixed, top) && Behind(listed, cursor, fixed)
    requires IsPage(tables(i), q.(afterSequence := cursor), scanned)
    ensures InOrder(listed + scanned, fixed)
    ensures scanned != [] ==> Behind(listed + scanned, Some(fixed(scanned[|scanned| - 1]).sequence), fixed)
    ensures scanned != [] ==>
              Beyond(fixed(scanned[|scanned| - 1]).sequence, cursor) && fixed(scanned[|scanned| - 1]).sequence <= top
  {
    forall m | m in scanned ensures m in tables(i) && Beyond(fixed(m).sequence, cursor) {
      assert Wanted(tables(i)[m], q.(afterSequence := cursor));
    }
    var all := listed + scanned;
    forall a, b | 0 <= a < b < |all| ensures fixed(all[a]).sequence < fixed(all[b]).sequence {
      if b < |listed| {
      } else if a < |listed| {
        assert all[a] in listed && all[b] in scanned;
      } else {
        assert all[a] == scanned[a - |listed|] && all[b] == scanned[b - |listed|];
        assert scanned[a - |listed|] in scanned && scanned[b - |listed|] in scanned;
      }
    }
  }

  /** A permanently wanted message beyond the cursor is on the page, or beyond a full one. */
  lemma PageCovers(listed: seq<MessageId>, scanned: seq<MessageId>, tables: nat -> map<MessageId, Row>, i: nat,
                      q: DeadQuery, cursor: Option<int>, fixed: MessageId -> Fixed, top: int, m: MessageId)
    requires Tables(tables, fixed, top) && IsPage(tables(i), q.(afterSequence := cursor), scanned) && Cap(q) >= 1
    requires m in tables(i) && Wanted(tables(i)[m], q) && Beyond(fixed(m).sequence, cursor)
    ensures m in scanned || (|scanned| == Cap(q) && fixed(m).sequence > fixed(scanned[|scanned| - 1]).sequence)
  {
  }

  /** Each message of a page was wanted, also by the query the walk started from. */
  lemma PageWanted(scanned: seq<MessageId>, tables: nat -> map<MessageId, Row>, i: nat, q: DeadQuery,
                   cursor: Option<int>, m: MessageId)
    requires IsPage(tables(i), q.(afterSequence := cursor), scanned) && m in scanned
    requires q.afterSequence.Some? ==> cursor.Some? && cursor.value >= q.afterSequence.value
    ensures OnceWanted(m, tables, q, i + 1)
  {
  }

  /** The rows of `n` full pages. */
  function FullPages(cap: nat, n: nat): nat {
    if n == 0 then 0 else FullPages(cap, n - 1) + cap
  }

  lemma {:induction false} FullPagesIs(cap: nat, n: nat)
    ensures FullPages(cap, n) == cap * n
  {
    if n > 0 {
      FullPagesIs(cap, n - 1);
    }
  }

  /** One more page: what it adds, and where it leaves the walk. */
  lemma PageStep(listed: seq<MessageId>, scanned: seq<MessageId>, tables: nat -> map<MessageId, Row>, i: nat,
                 q: DeadQuery, cursor: Option<int>, next: Option<int>, fixed: MessageId -> Fixed, top: int)
    requires Tables(tables, fixed, top) && Behind(listed, cursor, fixed) && Cap(q) >= 1
    requires Covers(listed, cursor, fixed, tables, q, i) && (i == 0 ==> cursor == q.afterSequence)
    requires IsPage(tables(i), q.(afterSequence := cursor), scanned)
    requires next == if |scanned| == Cap(q) then Some(tables(i)[scanned[|scanned| - 1]].sequence) else None
    ensures InOrder(listed + scanned, fixed)
    ensures next.Some? ==>
              && Behind(listed + scanned, next, fixed) && Covers(listed + scanned, next, fixed, tables, q, i + 1)
              && Beyond(next.value, cursor) && next.value <= top
    ensures next.None? ==> forall m | AlwaysWanted(m, tables, q, i + 1) :: m in listed + scanned
  {
    PageContinues(listed, scanned, tables, i, q, cursor, fixed, top);
    forall m | AlwaysWanted(m, tables, q, i + 1)
      ensures m in listed + scanned || (next.Some? && Beyond(fixed(m).sequence, next))
    {
      assert m in tables(i) && Wanted(tables(i)[m], q);
      assert AlwaysWanted(m, tables, q, i);
      if m !in listed {
        PageCovers(listed, scanned, tables, i, q, cursor, fixed, top, m);
      }
    }
  }

  ghost predicate AllOnceWanted(listed: seq<MessageId>, tables: nat -> map<MessageId, Row>, q: DeadQuery, pages: nat) {
    forall m | m in listed :: OnceWanted(m, tables, q, pages)
  }

  /** The walk after `pages` full pages. */
  ghost predicate Going(listed: seq<MessageId>, cursor: Option<int>, tables: nat -> map<MessageId, Row>, q: DeadQuery,
                        fixed: MessageId -> Fixed, pages: nat) {
    && Behind(listed, cursor, fixed) && Covers(listed, cursor, fixed, tables, q, pages)
    && AllOnceWanted(listed, tables, q, pages) && FullPages(Cap(q), pages) <= |listed|
    && (q.afterSequence.Some? ==> cursor.Some? && cursor.value >= q.afterSequence.value)
    && (pages == 0 ==> cursor == q.afterSequence)
  }

  /** The walk after its last page. */
  ghost predicate Ended(listed: seq<MessageId>, tables: nat -> map<MessageId, Row>, q: DeadQuery,
                        fixed: MessageId -> Fixed, pages: nat) {
    && InOrder(listed, fixed) && AllOnceWanted(listed, tables, q, pages)
    && (forall m | AlwaysWanted(m, tables, q, pages) :: m in listed)
    && pages >= 1 && FullPages(Cap(q), pages - 1) <= |listed|
  }

  lemma OnceWantedMore(listed: seq<MessageId>, scanned: seq<MessageId>, tables: nat -> map<MessageId, Row>, i: nat,
                       q: DeadQuery, cursor: Option<int>)
    requires AllOnceWanted(listed, tables, q, i) && IsPage(tables(i), q.(afterSequence := cursor), scanned)
    requires q.afterSequence.Some? ==> cursor.Some? && cursor.value >= q.afterSequence.value
    ensures AllOnceWanted(listed + scanned, tables, q, i + 1)
  {
    forall m | m in listed + scanned ensures OnceWanted(m, tables, q, i + 1) {
      if m in scanned {
        PageWanted(scanned, tables, i, q, cursor, m);
      } else {
        assert OnceWanted(m, tables, q, i);
      }
    }
  }

  /** One page of the walk. */
  method WalkPage(tables: nat -> map<MessageId, Row>, q: DeadQuery, ghost fixed: MessageId -> Fixed, ghost top: int,
                  ghost listed: seq<MessageId>, cursor: Option<int>, i: nat)
    returns (page: DeadLetterPage, scanned: seq<MessageId>)
    requires Tables(tables, fixed, top) && q.limit >= 1 && Going(listed, cursor, tables, q, fixed, i)
    ensures page.records == Keep(scanned, fixed, true) && page.poisoned == Keep(scanned, fixed, false)
    ensures var next := page.nextAfterSequence;
            if next.None? then Ended(listed + scanned, tables, q, fixed, i + 1)
            else
              Going(listed + scanned, next, tables, q, fixed, i + 1) && Beyond(next.value, cursor) && next.value <= top
  {
    page, scanned := ListDead(tables(i), q.(afterSequence := cursor));
    SplitIsKeep(scanned, tables, i, fixed, top, true);
    SplitIsKeep(scanned, tables, i, fixed, top, false);
    PageStep(listed, scanned, tables, i, q, cursor, page.nextAfterSequence, fixed, top);
    OnceWantedMore(listed, scanned, tables, i, q, cursor);
  }

  /** Following `next_after_sequence` from page to page, while other writers work on the table: the walk
      ends, with every page but the last full; it lists messages in strictly ascending sequence - so none
      twice - and lists every message that was dead and matched at every page read; each listed one did
      match when it was read. */
  method Walk(tables: nat -> map<MessageId, Row>, q: DeadQuery, ghost fixed: MessageId -> Fixed, ghost top: int)
    returns (records: seq<MessageId>, poisoned: seq<MessageId>, pages: nat, listed: seq<MessageId>)
    requires Tables(tables, fixed, top) && q.limit >= 1
    ensures InOrder(listed, fixed)
    ensures records == Keep(listed, fixed, true) && poisoned == Keep(listed, fixed, false)
    ensures forall m | AlwaysWanted(m, tables, q, pages) :: m in listed
    ensures forall m | m in listed :: OnceWanted(m, tables, q, pages)
    ensures pages >= 1 && Cap(q) * (pages - 1) <= |listed|
  {
    records, poisoned, listed, pages := [], [], [], 0;
    var cursor := q.afterSequence;
    var more := true;
    while more
      invariant if more then Going(listed, cursor, tables, q, fixed, pages) else Ended(listed, tables, q, fixed, pages)
      invariant records == Keep(listed, fixed, true) && poisoned == Keep(listed, fixed, false)
      decreases more, cursor.None?, if cursor.Some? then top - cursor.value else 0
    {
      var page, scanned := WalkPage(tables, q, fixed, top, listed, cursor, pages);
      KeepConcat(listed, scanned, fixed, true);
      KeepConcat(listed, scanned, fixed, false);
      records, poisoned, listed := records + page.records, poisoned + page.poisoned, listed + scanned;
      more, cursor := page.nextAfterSequence.Some?, page.nextAfterSequence;
      pages := pages + 1;
    }
    FullPagesIs(Cap(q), pages - 1);
  }
}
