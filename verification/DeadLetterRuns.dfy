/** The keyset walk over a real history: pages read at any moments of any run of the table. */
module DeadLetterRuns {
  import opened Basics
  import opened OutboxTable
  import opened TableRuns
  import opened DeadLetters

  predicate InsertsAt(sts: seq<Stmt>, i: nat, m: MessageId) {
    i < |sts| && sts[i].Insert? && sts[i].id == m
  }

  /** A message is inserted once. */
  lemma InsertedOnce(dbs: seq<Db>, sts: seq<Stmt>, i: nat, j: nat, m: MessageId)
    requires Run(dbs, sts) && InsertsAt(sts, i, m) && InsertsAt(sts, j, m)
    ensures i == j
  {
    assert StepAt(dbs, sts, i) && StepAt(dbs, sts, j);
    if i < j {
      UsedGrows(dbs, sts, i + 1, j);
    } else if j < i {
      UsedGrows(dbs, sts, j + 1, i);
    }
  }

  lemma {:induction false} WasInserted(dbs: seq<Db>, sts: seq<Stmt>, k: nat, m: MessageId) returns (i: nat)
    requires Run(dbs, sts) && k <= |sts| && m in dbs[k].rows
    ensures i < k && InsertsAt(sts, i, m) && SameFixedColumns(dbs[k].rows[m], sts[i].row)
  {
    Across(dbs, sts, k - 1, m);
    if m in dbs[k - 1].rows {
      i := WasInserted(dbs, sts, k - 1, m);
      ImmutableColumns(dbs, sts, k - 1, k, m);
    } else {
      i := k - 1;
    }
  }

  /** What a message was inserted with, if it ever was. */
  ghost function FixedIn(sts: seq<Stmt>, m: MessageId): Fixed {
    if i: nat :| InsertsAt(sts, i, m) then Fixed(sts[i].row.sequence, sts[i].row.decodable) else Fixed(0, false)
  }

  lemma FixedInRows(dbs: seq<Db>, sts: seq<Stmt>, k: nat, m: MessageId)
    requires Run(dbs, sts) && k <= |sts| && m in dbs[k].rows
    ensures FixedIn(sts, m) == Fixed(dbs[k].rows[m].sequence, dbs[k].rows[m].decodable)
  {
    var i := WasInserted(dbs, sts, k, m);
    forall j: nat | InsertsAt(sts, j, m) ensures j == i {
      InsertedOnce(dbs, sts, i, j, m);
    }
  }

  lemma {:induction false} SequencesGrow(dbs: seq<Db>, sts: seq<Stmt>, i: nat, k: nat)
    requires Run(dbs, sts) && i <= k <= |sts|
    ensures dbs[i].sequences <= dbs[k].sequences
  {
    if i < k {
      SequencesGrow(dbs, sts, i, k - 1);
      assert StepAt(dbs, sts, k - 1);
    }
  }

  lemma {:induction false} UpperBound(s: set<int>) returns (top: int)
    ensures forall x | x in s :: x <= top
  {
    top := 0;
    if x :| x in s {
      var below := UpperBound(s - {x});
      top := if below >= x then below else x;
      assert forall y | y in s :: y == x || y in s - {x};
    }
  }

  /** Page `i` is read from the table as it is after `at(i)` statements. */
  ghost predicate ReadFrom(tables: nat -> map<MessageId, Row>, at: nat -> nat, dbs: seq<Db>, sts: seq<Stmt>) {
    |dbs| == |sts| + 1 && forall i :: at(i) <= |sts| && tables(i) == dbs[at(i)].rows
  }

  lemma TablesOfRun(tables: nat -> map<MessageId, Row>, at: nat -> nat, dbs: seq<Db>, sts: seq<Stmt>)
    returns (fixed: MessageId -> Fixed, top: int)
    requires Run(dbs, sts) && ReadFrom(tables, at, dbs, sts)
    ensures Tables(tables, fixed, top)
  {
    fixed := (m: MessageId) => FixedIn(sts, m);
    top := UpperBound(dbs[|sts|].sequences);
    forall i: nat, m | m in tables(i)
      ensures tables(i)[m].sequence == fixed(m).sequence <= top && tables(i)[m].decodable == fixed(m).decodable
    {
      FixedInRows(dbs, sts, at(i), m);
      ReachableIsValid(dbs, sts, at(i));
      SequencesGrow(dbs, sts, at(i), |sts|);
    }
    forall i: nat ensures DistinctSequences(tables(i)) {
      ReachableIsValid(dbs, sts, at(i));
    }
  }

  lemma {:induction false} ListedFit(listed: seq<MessageId>, fixed: MessageId -> Fixed, used: set<MessageId>)
    requires InOrder(listed, fixed) && forall m | m in listed :: m in used
    ensures |listed| <= |used|
  {
    if listed != [] {
      var init, last := listed[..|listed| - 1], listed[|listed| - 1];
      forall m | m in init ensures m in used - {last} {
        var j :| 0 <= j < |init| && init[j] == m;
        assert fixed(listed[j]).sequence < fixed(listed[|listed| - 1]).sequence;
      }
      ListedFit(init, fixed, used - {last});
      assert last in used;
    }
  }

  lemma ListedWereInserted(listed: seq<MessageId>, tables: nat -> map<MessageId, Row>, at: nat -> nat, dbs: seq<Db>,
                           sts: seq<Stmt>, q: DeadQuery, pages: nat)
    requires Run(dbs, sts) && ReadFrom(tables, at, dbs, sts)
    requires forall m | m in listed :: OnceWanted(m, tables, q, pages)
    ensures forall m | m in listed :: m in dbs[|sts|].used
  {
    forall m | m in listed ensures m in dbs[|sts|].used {
      assert OnceWanted(m, tables, q, pages);
      var i: nat :| i < pages && m in tables(i) && Wanted(tables(i)[m], q);
      ReachableIsValid(dbs, sts, at(i));
      UsedGrows(dbs, sts, at(i), |sts|);
    }
  }

  /** The walk over any run of the table, its pages read at any moments of it - inserts, claims, retries,
      purges and sweeps in between: it ends after at most one page more than messages were ever inserted,
      lists none twice, and lists every message that was dead and matched at every page. */
  method WalkRun(tables: nat -> map<MessageId, Row>, q: DeadQuery, ghost at: nat -> nat, ghost dbs: seq<Db>,
                 ghost sts: seq<Stmt>)
    returns (records: seq<MessageId>, poisoned: seq<MessageId>, pages: nat, listed: seq<MessageId>)
    requires Run(dbs, sts) && ReadFrom(tables, at, dbs, sts) && q.limit >= 1
    ensures forall i, j | 0 <= i < j < |listed| :: listed[i] != listed[j]
    ensures forall m | m in listed :: m in records || m in poisoned
    ensures forall m | AlwaysWanted(m, tables, q, pages) :: m in listed
    ensures forall m | m in listed :: OnceWanted(m, tables, q, pages)
    ensures 1 <= pages <= |dbs[|sts|].used| + 1
  {
    ghost var fixed, top := TablesOfRun(tables, at, dbs, sts);
    records, poisoned, pages, listed := Walk(tables, q, fixed, top);
    ListedWereInserted(listed, tables, at, dbs, sts, q, pages);
    ListedFit(listed, fixed, dbs[|sts|].used);
    KeepMembers(listed, fixed);
    AtLeast(Cap(q), pages - 1);
  }

  lemma AtLeast(cap: nat, n: nat)
    requires cap >= 1
    ensures n <= cap * n
  {
  }

  lemma {:induction false} KeepMembers(listed: seq<MessageId>, fixed: MessageId -> Fixed)
    ensures forall m | m in listed :: m in Keep(listed, fixed, true) || m in Keep(listed, fixed, false)
  {
    if listed != [] {
      KeepMembers(listed[..|listed| - 1], fixed);
    }
  }
}
