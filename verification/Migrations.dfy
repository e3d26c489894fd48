/** The three migrations that introduce, refine and widen the dedup index on events. */
module Migrations {
  import opened Numbers
  import opened Store

  /** The key expressions of the three index versions. */
  datatype Key =
    | Key003(ts: int, ip: string, port: int, kind: string)
    | Key004(ts: int, ip: string, port: int, kind: string)
    | Key008(key: DedupKey)

  datatype Index = NoIndex | Index003 | Index004 | Index008

  function KeyUnder(ix: Index, r: EventRow): Key
    requires !ix.NoIndex?
  {
    match ix
    case Index003 => Key003(r.ts, r.ip, Coalesce(r.port, 0), r.kind)
    case Index004 => Key004(r.ts, r.ip, Coalesce(r.port, -1), r.kind)
    case Index008 => Key008(KeyOfRow(r))
  }

  /** A unique index can stand on the rows. */
  predicate Unique(ix: Index, rows: seq<EventRow>) {
    !ix.NoIndex? ==> forall i, j :: 0 <= i < j < |rows| ==> KeyUnder(ix, rows[i]) != KeyUnder(ix, rows[j])
  }

  predicate SameClass(a: EventRow, b: EventRow) { KeyUnder(Index003, a) == KeyUnder(Index003, b) }

  predicate IdsDistinct(rows: seq<EventRow>) {
    forall i, j :: 0 <= i < j < |rows| ==> rows[i].id != rows[j].id
  }

  /** MIN(id) of a row's class, as a test on one row. */
  predicate IsLeast(rows: seq<EventRow>, r: EventRow) {
    forall i :: 0 <= i < |rows| && SameClass(rows[i], r) ==> r.id <= rows[i].id
  }

  /** The DELETE of migration 003. */
  function WithoutDuplicates(rows: seq<EventRow>): seq<EventRow> {
    Keep(rows, (r: EventRow) => IsLeast(rows, r))
  }

  /** The events table with its index. A CREATE UNIQUE INDEX that finds two rows with one key
      fails, and the migration's transaction is rolled back. */
  class EventsTable {
    var rows: seq<EventRow>
    var index: Index

    constructor (rows: seq<EventRow>)
      ensures this.rows == rows && index == NoIndex
    {
      this.rows, index := rows, NoIndex;
    }

    method CreateIndex(ix: Index) returns (ok: bool)
      modifies this
      ensures rows == old(rows)
      ensures ok <==> Unique(ix, rows)
      ensures index == if ok then ix else old(index)
    {
      ok := Unique(ix, rows);
      if ok {
        index := ix;
      }
    }

    method Migrate003() returns (ok: bool)
      requires IdsDistinct(rows) && index == NoIndex
      modifies this
      ensures ok && index == Index003
      ensures rows == WithoutDuplicates(old(rows))
    {
      DedupIsUnique(rows);
      rows := WithoutDuplicates(rows);
      ok := CreateIndex(Index003);
    }

    method Migrate004() returns (ok: bool)
      requires index == Index003 && Unique(Index003, rows)
      modifies this
      ensures rows == old(rows)
      ensures ok <==> !PortsCollide(rows)
      ensures index == if ok then Index004 else Index003
    {
      RefinedKeyUnique(rows);
      ok := CreateIndex(Index004);
    }

    method Migrate008() returns (ok: bool)
      requires index == Index004 && Unique(Index004, rows)
      modifies this
      ensures ok && rows == old(rows) && index == Index008 && Unique(Index008, rows)
    {
      WiderKeyUnique(rows);
      ok := CreateIndex(Index008);
    }

    /** All three in order: they succeed exactly when no known port of -1 shadows an unknown one
        among the rows that migration 003 keeps, and leave the index that InsertEvent relies
        on. */
    method MigrateAll() returns (ok: bool)
      requires IdsDistinct(rows) && index == NoIndex
      modifies this
      ensures rows == WithoutDuplicates(old(rows))
      ensures ok <==> !PortsCollide(WithoutDuplicates(old(rows)))
      ensures ok ==> index == Index008 && Unique(Index008, rows)
    {
      DedupIsUnique(rows);
      ok := Migrate003();
      ok := Migrate004();
      if !ok {
        return;
      }
      RefinedKeyUnique(rows);
      ok := Migrate008();
    }
  }

  /** An unknown port and a port of -1 on otherwise equal rows. */
  predicate PortsCollide(rows: seq<EventRow>) {
    exists i, j :: 0 <= i < |rows| && 0 <= j < |rows| && Shadows(rows[i], rows[j])
  }

  predicate Shadows(a: EventRow, b: EventRow) {
    a.port == None && b.port == Some(-1) && a.ts == b.ts && a.ip == b.ip && a.kind == b.kind
  }

  /** Every class has a row with the least id. */
  lemma {:induction false} LeastExists(rows: seq<EventRow>, r: EventRow) returns (m: EventRow)
    requires r in rows
    ensures m in rows && SameClass(m, r) && forall x :: x in rows && SameClass(x, r) ==> m.id <= x.id
  {
    hide KeyUnder;
    if |rows| == 1 {
      m := r;
    } else {
      var init, last := rows[..|rows| - 1], rows[|rows| - 1];
      assert forall x :: x in rows <==> x in init || x == last;
      if r in init {
        m := LeastExists(init, r);
        if SameClass(last, r) && last.id < m.id {
          m := last;
        }
      } else if exists x :: x in init && SameClass(x, r) {
        var x :| x in init && SameClass(x, r);
        m := LeastExists(init, x);
        if last.id < m.id {
          m := last;
        }
      } else {
        m := last;
      }
    }
  }

  /** Migration 003 keeps, of each class, exactly the row with the least id. */
  lemma KeepsOnePerClass(rows: seq<EventRow>, r: EventRow)
    requires IdsDistinct(rows) && r in rows
    ensures exists m :: m in WithoutDuplicates(rows) && SameClass(m, r) &&
                        (forall x :: x in rows && SameClass(x, r) ==> m.id <= x.id) &&
                        (forall y :: y in WithoutDuplicates(rows) && SameClass(y, r) ==> y == m)
  {
    hide KeyUnder;
    var m := LeastExists(rows, r);
    assert IsLeast(rows, m) by {
      ClassTransitive(m, r);
    }
    forall y | y in WithoutDuplicates(rows) && SameClass(y, r) ensures y == m {
      ClassTransitive(m, r);
      ClassTransitive(y, r);
      var i :| 0 <= i < |rows| && rows[i] == y;
      var j :| 0 <= j < |rows| && rows[j] == m;
      assert y.id <= rows[j].id && m.id <= rows[i].id;
    }
  }

  lemma ClassTransitive(a: EventRow, r: EventRow)
    requires SameClass(a, r)
    ensures forall x :: SameClass(x, a) <==> SameClass(x, r)
  {
  }

  /** Nothing but duplicates is deleted, and the order is kept. */
  lemma DedupOnlyDeletes(rows: seq<EventRow>)
    ensures forall r :: r in WithoutDuplicates(rows) ==> r in rows
    ensures forall r :: r in rows && r !in WithoutDuplicates(rows) ==>
              exists x :: x in rows && SameClass(x, r) && x.id < r.id
  {
  }

  ghost predicate PairwiseApart(rows: seq<EventRow>, p: EventRow -> bool) {
    forall i, j :: 0 <= i < j < |rows| && p(rows[i]) && p(rows[j]) ==> !SameClass(rows[i], rows[j])
  }

  lemma {:induction false} KeepApart(rows: seq<EventRow>, p: EventRow -> bool)
    requires PairwiseApart(rows, p)
    ensures Unique(Index003, Keep(rows, p))
  {
    hide KeyUnder;
    if rows != [] {
      var rest := rows[1..];
      assert forall i :: 0 <= i < |rest| ==> rest[i] == rows[i + 1];
      KeepApart(rest, p);
      var out := Keep(rest, p);
      forall i | 0 <= i < |out| && p(rows[0]) ensures !SameClass(rows[0], out[i]) {
        assert out[i] in out;
        var k :| 0 <= k < |rest| && rest[k] == out[i];
        assert rows[k + 1] == out[i];
      }
    }
  }

  lemma DedupIsUnique(rows: seq<EventRow>)
    requires IdsDistinct(rows)
    ensures Unique(Index003, WithoutDuplicates(rows))
  {
    hide KeyUnder;
    var p := (r: EventRow) => IsLeast(rows, r);
    forall i, j | 0 <= i < j < |rows| && p(rows[i]) && p(rows[j]) ensures !SameClass(rows[i], rows[j]) {
      if SameClass(rows[i], rows[j]) {
        ClassTransitive(rows[i], rows[j]);
      }
    }
    KeepApart(rows, p);
  }

  /** The refined key of migration 004 is unique exactly when no ports collide. */
  lemma RefinedKeyUnique(rows: seq<EventRow>)
    requires Unique(Index003, rows)
    ensures Unique(Index004, rows) <==> !PortsCollide(rows)
  {
  }

  /** A key with more columns stays unique. */
  lemma WiderKeyUnique(rows: seq<EventRow>)
    requires Unique(Index004, rows)
    ensures Unique(Index008, rows)
  {
  }

  /** Without a port of -1 anywhere, as every row InsertEvent wrote from a parsed log is, no
      collision is possible. */
  lemma OrdinaryPortsMigrate(rows: seq<EventRow>)
    requires forall r :: r in rows ==> r.port != Some(-1)
    ensures !PortsCollide(WithoutDuplicates(rows))
  {
  }

  lemma {:induction false} KeepAll(rows: seq<EventRow>, p: EventRow -> bool)
    requires forall r :: r in rows ==> p(r)
    ensures Keep(rows, p) == rows
  {
    if rows != [] {
      KeepAll(rows[1..], p);
    }
  }

  /** Two rows that migration 003 keeps and migration 004 cannot index. */
  lemma ShadowedPortFails(a: EventRow)
    requires a.port == None
    ensures var rows := [a, a.(id := a.id + 1, port := Some(-1))];
            IdsDistinct(rows) && WithoutDuplicates(rows) == rows && PortsCollide(rows)
  {
    var b := a.(id := a.id + 1, port := Some(-1));
    var rows := [a, b];
    assert !SameClass(a, b);
    assert IsLeast(rows, a) && IsLeast(rows, b);
    KeepAll(rows, r => IsLeast(rows, r));
    assert Shadows(rows[0], rows[1]);
  }

  /** The index of migration 008 is what every later insert keeps. */
  lemma IndexIsDedupKey(rows: seq<EventRow>, e: Event)
    requires Unique(Index008, rows) && !HasKey(rows, KeyOf(e))
    ensures Unique(Index008, rows + [RowOf(MaxEventId(rows) + 1, e)])
  {
  }
}
