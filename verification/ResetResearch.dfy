/** Emptying every table that holds part of a run: which tables, in what order, and what each single
    DELETE leaves behind. */
module ResetResearch {
  import opened Options

  type Table = string
  datatype Ref = Ref(table: Table, id: nat)
  type Rows = map<Table, map<nat, set<Ref>>>

  const ROOT: Table := "work_orders"

  /** The tables each table has a foreign key to. */
  type Parents = map<Table, set<Table>>

  /* ---------- Which tables ---------- */

  /** A chain of foreign keys from the first table of the path to the root. */
  ghost predicate IsPath(parents: Parents, path: seq<Table>) {
    && path != [] && path[|path| - 1] == ROOT
    && forall i | 0 <= i < |path| - 1 :: path[i] in parents && path[i + 1] in parents[path[i]]
  }

  ghost predicate HasPath(parents: Parents, table: Table) {
    exists path :: IsPath(parents, path) && path[0] == table
  }

  lemma PathExtends(parents: Parents, table: Table, parent: Table)
    requires table in parents && parent in parents[table] && HasPath(parents, parent)
    ensures HasPath(parents, table)
  {
    var path :| IsPath(parents, path) && path[0] == parent;
    assert IsPath(parents, [table] + path);
  }

  ghost predicate Closed(parents: Parents, reached: set<Table>) {
    ROOT in reached && forall t <- parents :: parents[t] * reached != {} ==> t in reached
  }

  lemma {:induction false} PathStaysInside(parents: Parents, reached: set<Table>, path: seq<Table>)
    requires Closed(parents, reached) && IsPath(parents, path)
    ensures path[0] in reached
  {
    if |path| > 1 {
      forall i | 0 <= i < |path[1..]| - 1 ensures path[1..][i] in parents && path[1..][i + 1] in parents[path[1..][i]] {
        assert path[i + 1] in parents && path[i + 2] in parents[path[i + 1]];
      }
      PathStaysInside(parents, reached, path[1..]);
      assert path[1] in parents[path[0]] * reached;
    }
  }

  function Keep(tables: seq<Table>, kept: set<Table>): (r: seq<Table>)
    ensures forall t :: t in r <==> t in tables && t in kept
  {
    if tables == [] then []
    else
      assert tables == [tables[0]] + tables[1..];
      (if tables[0] in kept then [tables[0]] else []) + Keep(tables[1..], kept)
  }

  function Reverse(s: seq<Table>): (r: seq<Table>)
    ensures forall t :: t in r <==> t in s
  {
    if s == [] then []
    else
      assert s == [s[0]] + s[1..];
      Reverse(s[1..]) + [s[0]]
  }

  /** Every table reached from the root through foreign keys, deepest first. `sorted` lists the
      tables parents first. */
  method ResearchTables(parents: Parents, sorted: seq<Table>) returns (tables: seq<Table>, ghost reached: set<Table>)
    ensures forall t :: t in reached <==> HasPath(parents, t)
    ensures tables == Keep(Reverse(sorted), reached)
    ensures forall t :: t in tables <==> t in sorted && HasPath(parents, t)
  {
    var found := {ROOT};
    assert HasPath(parents, ROOT) by { assert IsPath(parents, [ROOT]); }
    while true
      invariant ROOT in found && found <= parents.Keys + {ROOT}
      invariant forall t <- found :: HasPath(parents, t)
      decreases parents.Keys + {ROOT} - found
    {
      var grown := (set t | t in parents && parents[t] * found != {}) + found;
      if grown == found { break; }
      forall t | t in grown ensures HasPath(parents, t) {
        if t !in found {
          var p :| p in parents[t] * found;
          PathExtends(parents, t, p);
        }
      }
      assert exists t :: t in grown && t !in found;
      found := grown;
    }
    assert Closed(parents, found) by {
      forall t | t in parents && parents[t] * found != {} ensures t in found {
        assert t in (set u | u in parents && parents[u] * found != {}) + found;
      }
    }
    forall t | HasPath(parents, t) ensures t in found {
      var path :| IsPath(parents, path) && path[0] == t;
      PathStaysInside(parents, found, path);
    }
    reached := found;
    tables := Keep(Reverse(sorted), found);
  }

  /* ---------- The order ---------- */

  /** Parents first, apart from a table's reference to itself; every table listed once. */
  ghost predicate Topological(parents: Parents, sorted: seq<Table>) {
    && (forall t :: t in sorted <==> t in parents)
    && (forall i, j :: 0 <= i < j < |sorted| ==> sorted[i] != sorted[j])
    && (forall i, j :: 0 <= i < j < |sorted| ==> sorted[i] in parents ==> sorted[j] !in parents[sorted[i]])
  }

  /** Deepest first: whatever refers to a table, other than the table itself, stands before it. */
  ghost predicate ChildrenFirst(parents: Parents, tables: seq<Table>) {
    && (forall i, j :: 0 <= i < j < |tables| ==> tables[i] != tables[j])
    && (forall i, j :: 0 <= i < j < |tables| ==> tables[j] in parents ==> tables[i] !in parents[tables[j]])
  }

  ghost predicate Subsequence(r: seq<Table>, s: seq<Table>) {
    forall i, j :: 0 <= i < j < |r| ==> InTurn(s, r[i], r[j])
  }

  ghost predicate InTurn(s: seq<Table>, x: Table, y: Table) {
    exists a, b :: 0 <= a < b < |s| && s[a] == x && s[b] == y
  }

  lemma InTurnLater(s: seq<Table>, x: Table, y: Table)
    requires s != [] && (InTurn(s[1..], x, y) || (s[0] == x && y in s[1..]))
    ensures InTurn(s, x, y)
  {
    var rest := s[1..];
    if InTurn(rest, x, y) {
      var a, b :| 0 <= a < b < |rest| && rest[a] == x && rest[b] == y;
      assert s[a + 1] == x && s[b + 1] == y;
    } else {
      var b :| 0 <= b < |rest| && rest[b] == y;
      assert s[0] == x && s[b + 1] == y;
    }
  }

  lemma {:induction false} KeepKeepsOrder(s: seq<Table>, kept: set<Table>)
    ensures Subsequence(Keep(s, kept), s)
  {
    if s != [] {
      var rest := Keep(s[1..], kept);
      KeepKeepsOrder(s[1..], kept);
      var r := Keep(s, kept);
      var shift := if s[0] in kept then 1 else 0;
      forall i, j | 0 <= i < j < |r| ensures InTurn(s, r[i], r[j]) {
        assert r[j] == rest[j - shift] && r[j] in rest;
        if i >= shift { assert r[i] == rest[i - shift]; }
        InTurnLater(s, r[i], r[j]);
      }
    }
  }

  lemma {:induction false} ReverseAt(s: seq<Table>)
    ensures |Reverse(s)| == |s| && forall i :: 0 <= i < |s| ==> Reverse(s)[i] == s[|s| - 1 - i]
  {
    if s != [] { ReverseAt(s[1..]); }
  }

  lemma OrderIsChildrenFirst(parents: Parents, sorted: seq<Table>, kept: set<Table>)
    requires Topological(parents, sorted)
    ensures ChildrenFirst(parents, Keep(Reverse(sorted), kept))
  {
    var r, tables := Reverse(sorted), Keep(Reverse(sorted), kept);
    ReverseAt(sorted);
    KeepKeepsOrder(r, kept);
    forall i, j | 0 <= i < j < |tables|
      ensures tables[i] != tables[j] && (tables[j] in parents ==> tables[i] !in parents[tables[j]])
    {
      var a, b :| 0 <= a < b < |r| && r[a] == tables[i] && r[b] == tables[j];
      assert r[a] == sorted[|sorted| - 1 - a] && r[b] == sorted[|sorted| - 1 - b];
    }
  }

  /* ---------- The deletion ---------- */

  /** Rows refer only where their table has a foreign key. */
  ghost predicate Conforms(parents: Parents, rows: Rows) {
    && rows.Keys == parents.Keys
    && forall t <- rows, id <- rows[t], ref <- rows[t][id] :: ref.table in parents[t]
  }

  /** Every reference resolves. */
  ghost predicate Integrity(rows: Rows) {
    forall t <- rows, id <- rows[t], ref <- rows[t][id] :: ref.table in rows && ref.id in rows[ref.table]
  }

  /** No row outside the table refers into it, so emptying it needs no cascade and meets no
      RESTRICT. */
  predicate Unreferenced(rows: Rows, table: Table) {
    forall t <- rows, id <- rows[t], ref <- rows[t][id] :: t != table ==> ref.table != table
  }

  function Emptied(rows: Rows, tables: seq<Table>): Rows {
    if tables == [] then rows else Emptied(rows, tables[..|tables| - 1])[tables[|tables| - 1] := map[]]
  }

  class Database {
    const parents: Parents
    var rows: Rows

    constructor (parents: Parents, rows: Rows)
      ensures this.parents == parents && this.rows == rows
    {
      this.parents, this.rows := parents, rows;
    }

    /** `DELETE FROM table`. False when a row elsewhere still points into it. */
    method DeleteAll(table: Table) returns (ok: bool)
      modifies this
      ensures ok == Unreferenced(old(rows), table)
      ensures rows == if ok then old(rows)[table := map[]] else old(rows)
    {
      ok := Unreferenced(rows, table);
      if ok { rows := rows[table := map[]]; }
    }

    /** Empties the tables in turn. `history` is the database after each DELETE. */
    method Reset(tables: seq<Table>) returns (ok: bool, ghost history: seq<Rows>)
      requires Conforms(parents, rows) && Integrity(rows)
      requires ChildrenFirst(parents, tables)
      requires forall t :: t in tables <==> t in parents && HasPath(parents, t)
      modifies this
      ensures ok
      ensures |history| == |tables|
      // After every single DELETE every remaining reference resolves.
      ensures forall h <- history :: Integrity(h)
      // At the end exactly the run's tables are empty and every other table is as it was.
      ensures rows.Keys == old(rows).Keys
      ensures forall t <- rows :: rows[t] == if HasPath(parents, t) then map[] else old(rows)[t]
    {
      ghost var before := rows;
      history := [];
      assert tables[..0] == [];
      for i := 0 to |tables|
        invariant rows == Emptied(before, tables[..i])
        invariant Conforms(parents, rows) && Integrity(rows)
        invariant |history| == i && forall h <- history :: Integrity(h)
      {
        EmptiedAt(before, tables[..i]);
        NothingPointsAt(parents, before, tables, i);
        EmptyingKeepsIntegrity(parents, rows, tables[i]);
        ok := DeleteAll(tables[i]);
        assert tables[..i + 1][..i] == tables[..i];
        history := history + [rows];
      }
      assert tables[..|tables|] == tables;
      EmptiedAt(before, tables);
      return true, history;
    }
  }

  lemma {:induction false} EmptiedAt(rows: Rows, tables: seq<Table>)
    requires forall t <- tables :: t in rows
    ensures Emptied(rows, tables).Keys == rows.Keys
    ensures forall t <- rows :: Emptied(rows, tables)[t] == if t in tables then map[] else rows[t]
  {
    if tables != [] {
      var last := tables[|tables| - 1];
      assert tables == tables[..|tables| - 1] + [last];
      EmptiedAt(rows, tables[..|tables| - 1]);
    }
  }

  /** By the time a table's turn comes, whatever referred to it has been emptied: the tables that
      refer to it have a path to the root too, and stand before it. */
  lemma NothingPointsAt(parents: Parents, rows: Rows, tables: seq<Table>, i: nat)
    requires i < |tables|
    requires Conforms(parents, rows) && ChildrenFirst(parents, tables)
    requires forall t :: t in tables <==> t in parents && HasPath(parents, t)
    ensures Unreferenced(Emptied(rows, tables[..i]), tables[i])
  {
    var now := Emptied(rows, tables[..i]);
    EmptiedAt(rows, tables[..i]);
    forall t: Table, id: nat, ref: Ref | t in now && id in now[t] && ref in now[t][id] && t != tables[i]
      ensures ref.table != tables[i]
    {
      assert t !in tables[..i] && ref in rows[t][id];
      Split(tables, i, t);
      if tables[i] in parents[t] { PathExtends(parents, t, tables[i]); }
    }
  }

  lemma Split(tables: seq<Table>, i: nat, t: Table)
    requires i < |tables| && t != tables[i]
    ensures t in tables ==> t in tables[..i] || exists j :: i < j < |tables| && tables[j] == t
  {
    if t in tables {
      var j :| 0 <= j < |tables| && tables[j] == t;
      if j < i { assert tables[..i][j] == t; }
    }
  }

  lemma EmptyingKeepsIntegrity(parents: Parents, rows: Rows, table: Table)
    requires Conforms(parents, rows) && Integrity(rows) && table in rows && Unreferenced(rows, table)
    ensures Conforms(parents, rows[table := map[]]) && Integrity(rows[table := map[]])
  {
  }

  /* ---------- Both parts together ---------- */

  /** The command: find the tables, then empty them. Given a metadata order that lists parents first,
      no DELETE is ever refused. */
  method ResetResearch(db: Database, sorted: seq<Table>) returns (tables: seq<Table>, ok: bool, ghost history: seq<Rows>)
    requires Conforms(db.parents, db.rows) && Integrity(db.rows)
    requires Topological(db.parents, sorted)
    modifies db
    ensures ok && forall h <- history :: Integrity(h)
    ensures db.rows.Keys == old(db.rows).Keys
    ensures forall t <- db.rows :: db.rows[t] == if HasPath(db.parents, t) then map[] else old(db.rows)[t]
  {
    ghost var reached;
    tables, reached := ResearchTables(db.parents, sorted);
    OrderIsChildrenFirst(db.parents, sorted, reached);
    ok, history := db.Reset(tables);
  }

  /** What stays points at nothing that went: a table outside the reset has no reference into it. */
  lemma KeptTablesPointOnlyAtKept(parents: Parents, rows: Rows, table: Table, id: nat, ref: Ref)
    requires Conforms(parents, rows)
    requires table in rows && !HasPath(parents, table) && id in rows[table] && ref in rows[table][id]
    ensures !HasPath(parents, ref.table)
  {
    if HasPath(parents, ref.table) { PathExtends(parents, table, ref.table); }
  }
}
