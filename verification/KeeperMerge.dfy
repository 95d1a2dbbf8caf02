/** Merging duplicate source documents: one keeper per request and artefact, every reference moved to
    it, the rest deleted. */
module KeeperMerge {
  import opened Options

  type DocId = nat
  type Table = string

  /** `tier` counts in the order the tiers are declared, strongest first. */
  datatype Doc = Doc(request: nat, artefact: nat, quarantined: bool, tier: nat, retrievedAt: int)
  type Docs = map<DocId, Doc>

  /** A row that may cite a source. `key` is the rest of the row's own unique key when that key
      includes the source: extractor, version and locator for an extraction; `None` elsewhere. */
  datatype Row = Row(source: Option<DocId>, key: Option<nat>, payload: nat)
  type Rows = map<nat, Row>

  const REFERENCING: seq<Table> := [
    "citations", "extractions", "financial_facts", "price_bars", "corporate_actions", "macro_observations"]

  /* ---------- The keeper ---------- */

  predicate SamePart(docs: Docs, a: DocId, b: DocId)
    requires a in docs && b in docs
  {
    docs[a].request == docs[b].request && docs[a].artefact == docs[b].artefact
  }

  /** Unquarantined first, then the strongest tier, then the earliest retrieval, then the id. */
  predicate Before(docs: Docs, a: DocId, b: DocId)
    requires a in docs && b in docs
  {
    var x, y := docs[a], docs[b];
    if x.quarantined != y.quarantined then y.quarantined
    else if x.tier != y.tier then x.tier < y.tier
    else if x.retrievedAt != y.retrievedAt then x.retrievedAt < y.retrievedAt
    else a < b
  }

  predicate IsKeeper(docs: Docs, k: DocId, d: DocId)
    requires d in docs
  {
    && k in docs && SamePart(docs, k, d)
    && forall e <- docs :: SamePart(docs, e, d) && e != k ==> Before(docs, k, e)
  }

  lemma BeforeIsTotal(docs: Docs, a: DocId, b: DocId, c: DocId)
    requires a in docs && b in docs && c in docs
    ensures Before(docs, a, b) && Before(docs, b, c) ==> Before(docs, a, c)
    ensures a != b ==> (Before(docs, a, b) <==> !Before(docs, b, a))
  {
  }

  /** One document ranks before another exactly when it is the first to be unquarantined, of the stronger tier,
      retrieved earlier, or of the lower id, all before being equal. */
  lemma BeforeExactly(docs: Docs, a: DocId, b: DocId)
    requires a in docs && b in docs
    ensures Before(docs, a, b) <==>
      || (docs[b].quarantined && !docs[a].quarantined)
      || (docs[a].quarantined == docs[b].quarantined &&
           (|| docs[a].tier < docs[b].tier
            || (docs[a].tier == docs[b].tier &&
                 (|| docs[a].retrievedAt < docs[b].retrievedAt
                  || (docs[a].retrievedAt == docs[b].retrievedAt && a < b)))))
  {
  }

  lemma {:induction false} LeastExists(docs: Docs, ids: set<DocId>) returns (k: DocId)
    requires ids != {} && ids <= docs.Keys
    ensures k in ids && forall e <- ids :: e != k ==> Before(docs, k, e)
  {
    var a :| a in ids;
    if ids == {a} {
      k := a;
    } else {
      assert ids - {a} != {};
      var rest := LeastExists(docs, ids - {a});
      k := if Before(docs, a, rest) then a else rest;
      forall e | e in ids && e != k ensures Before(docs, k, e) {
        BeforeIsTotal(docs, a, rest, e);
      }
    }
  }

  lemma KeeperExists(docs: Docs, d: DocId)
    requires d in docs
    ensures exists k :: IsKeeper(docs, k, d)
  {
    var part := set e | e in docs && SamePart(docs, e, d);
    assert d in part;
    var k := LeastExists(docs, part);
    assert IsKeeper(docs, k, d);
  }

  /** First value of the ranking window over the document's request and artefact. */
  function Keeper(docs: Docs, d: DocId): (k: DocId)
    requires d in docs
    ensures IsKeeper(docs, k, d)
  {
    KeeperExists(docs, d);
    var k :| k in docs && IsKeeper(docs, k, d);
    k
  }

  lemma KeeperOfKeeper(docs: Docs, d: DocId, e: DocId)
    requires d in docs && e in docs && SamePart(docs, d, e)
    ensures Keeper(docs, d) == Keeper(docs, e)
  {
  }

  /** The rows the duplicates query returns: every document that is not its part's keeper. */
  predicate IsDuplicate(docs: Docs, d: DocId) { d in docs && Keeper(docs, d) != d }

  /* ---------- The statements ---------- */

  function Repoint(docs: Docs, row: Row): Row {
    if row.source.Some? && IsDuplicate(docs, row.source.value)
    then row.(source := Some(Keeper(docs, row.source.value))) else row
  }

  function Repointed(docs: Docs, rows: Rows): (r: Rows)
    ensures r.Keys == rows.Keys && forall id <- rows :: r[id] == Repoint(docs, rows[id])
  {
    map id | id in rows :: Repoint(docs, rows[id])
  }

  /** The rows' own unique key, over those rows that have one. */
  predicate UniqueKeys(rows: Rows) {
    forall a <- rows, b <- rows ::
      a != b && rows[a].key.Some? && rows[a].key == rows[b].key ==> rows[a].source != rows[b].source
  }

  /** Two keyed rows of one table that cite different copies of one document. */
  ghost predicate Collide(docs: Docs, rows: Rows, a: nat, b: nat) {
    && a in rows && b in rows && a != b
    && rows[a].key.Some? && rows[a].key == rows[b].key
    && rows[a].source.Some? && rows[b].source.Some?
    && rows[a].source.value in docs && rows[b].source.value in docs
    && SamePart(docs, rows[a].source.value, rows[b].source.value)
  }

  function Kept(docs: Docs): (r: Docs)
    ensures forall d :: d in r <==> d in docs && !IsDuplicate(docs, d)
    ensures forall d <- r :: r[d] == docs[d]
  {
    map d | d in docs && !IsDuplicate(docs, d) :: docs[d]
  }

  predicate OnePerArtefact(docs: Docs) {
    forall a <- docs, b <- docs :: SamePart(docs, a, b) ==> a == b
  }

  class Store {
    var docs: Docs
    var tables: map<Table, Rows>

    constructor (docs: Docs, tables: map<Table, Rows>)
      ensures this.docs == docs && this.tables == tables
    {
      this.docs, this.tables := docs, tables;
    }

    ghost predicate Valid()
      reads this
    {
      && (forall t :: t in tables <==> t in REFERENCING)
      && (forall t <- tables :: UniqueKeys(tables[t]))
      && (forall t <- tables, id <- tables[t] :: Resolves(docs, tables[t][id]))
    }

    /** One UPDATE. False is the unique violation that ends the migration. */
    method RepointTable(table: Table) returns (ok: bool)
      requires table in tables
      modifies this`tables
      ensures ok == UniqueKeys(Repointed(docs, old(tables)[table]))
      ensures tables == if ok then old(tables)[table := Repointed(docs, old(tables)[table])] else old(tables)
    {
      var rows := Repointed(docs, tables[table]);
      ok := UniqueKeys(rows);
      if ok { tables := tables[table := rows]; }
    }

    /** Repoints every referencing table, deletes the duplicates, adds the unique constraint. False is
        a failed migration, which leaves everything as it was. */
    method Upgrade() returns (ok: bool)
      requires Valid()
      modifies this
      ensures Valid()
      ensures ok == forall t <- REFERENCING :: UniqueKeys(Repointed(old(docs), old(tables)[t]))
      ensures !ok ==> docs == old(docs) && tables == old(tables)
      ensures ok ==>
        && docs == Kept(old(docs)) && OnePerArtefact(docs)
        && tables == AllRepointed(old(docs), old(tables))
    {
      ghost var before := tables;
      var committed := tables;
      for i := 0 to |REFERENCING|
        invariant docs == old(docs) && tables.Keys == before.Keys
        invariant forall t <- tables :: tables[t] == if t in REFERENCING[..i] then Repointed(docs, before[t]) else before[t]
        invariant forall t <- REFERENCING[..i] :: UniqueKeys(Repointed(docs, before[t]))
      {
        var t := REFERENCING[i];
        assert REFERENCING[..i + 1] == REFERENCING[..i] + [t];
        RepointTwice(docs, before[t]);
        ok := RepointTable(t);
        if !ok {
          tables := committed;
          return false;
        }
      }
      assert REFERENCING[..|REFERENCING|] == REFERENCING;
      assert tables == AllRepointed(docs, before);
      MergeIsSound(docs, before);
      docs := Kept(docs);
      return true;
    }
  }

  predicate Resolves(docs: Docs, row: Row) { row.source.Some? ==> row.source.value in docs }

  function AllRepointed(docs: Docs, tables: map<Table, Rows>): (r: map<Table, Rows>)
    ensures r.Keys == tables.Keys && forall t <- tables :: r[t] == Repointed(docs, tables[t])
  {
    map t | t in tables :: Repointed(docs, tables[t])
  }

  lemma RepointTwice(docs: Docs, rows: Rows)
    ensures Repointed(docs, Repointed(docs, rows)) == Repointed(docs, rows)
  {
    forall id | id in rows ensures Repoint(docs, Repoint(docs, rows[id])) == Repoint(docs, rows[id]) {
      var row := rows[id];
      if row.source.Some? && IsDuplicate(docs, row.source.value) {
        KeeperOfKeeper(docs, row.source.value, Keeper(docs, row.source.value));
      }
    }
  }

  /* ---------- What the merge keeps ---------- */

  lemma KeptHasOnePerArtefact(docs: Docs)
    ensures OnePerArtefact(Kept(docs))
  {
    var kept := Kept(docs);
    forall a, b | a in kept && b in kept && SamePart(kept, a, b) ensures a == b {
      KeeperOfKeeper(docs, a, b);
    }
  }

  /** Every reference that resolved still resolves among the kept documents, to the keeper of the
      document it cited: same request, same artefact, and no document of that part ranks before it.
      So the delete finds no row pointing at what it removes. */
  lemma MergeIsSound(docs: Docs, tables: map<Table, Rows>)
    requires forall t <- tables, id <- tables[t] :: Resolves(docs, tables[t][id])
    ensures OnePerArtefact(Kept(docs))
    ensures var after := AllRepointed(docs, tables);
      forall t <- tables, id <- tables[t] ::
        && Resolves(Kept(docs), after[t][id])
        && (tables[t][id].source.None? <==> after[t][id].source.None?)
        && (tables[t][id].source.Some? ==> IsKeeper(docs, after[t][id].source.value, tables[t][id].source.value))
        && after[t][id].(source := tables[t][id].source) == tables[t][id]
  {
    KeptHasOnePerArtefact(docs);
    var after := AllRepointed(docs, tables);
    forall t, id | t in tables && id in tables[t]
      ensures Resolves(Kept(docs), after[t][id])
      ensures tables[t][id].source.Some? ==> IsKeeper(docs, after[t][id].source.value, tables[t][id].source.value)
    {
      var row := tables[t][id];
      assert Resolves(docs, row);
      if row.source.Some? {
        KeeperOfKeeper(docs, row.source.value, Keeper(docs, row.source.value));
      }
    }
  }

  /** The kept documents are exactly the least of each request and artefact. */
  lemma KeptAreTheLeast(docs: Docs, d: DocId)
    requires d in docs
    ensures d in Kept(docs) <==> forall e <- docs :: SamePart(docs, e, d) && e != d ==> Before(docs, d, e)
    ensures Keeper(docs, d) in Kept(docs)
  {
    KeeperOfKeeper(docs, d, Keeper(docs, d));
    assert !Before(docs, d, d);
    if Keeper(docs, d) != d {
      assert Before(docs, Keeper(docs, d), d) && !Before(docs, d, Keeper(docs, d));
    }
  }

  lemma NothingLeftToMerge(docs: Docs, d: DocId)
    ensures !IsDuplicate(Kept(docs), d)
  {
    KeptHasOnePerArtefact(docs);
    if d in Kept(docs) { assert SamePart(Kept(docs), Keeper(Kept(docs), d), d); }
  }

  /** A second run finds nothing to do. */
  lemma SecondRunChangesNothing(docs: Docs, tables: map<Table, Rows>)
    ensures Kept(Kept(docs)) == Kept(docs)
    ensures AllRepointed(Kept(docs), AllRepointed(docs, tables)) == AllRepointed(docs, tables)
  {
    forall d ensures !IsDuplicate(Kept(docs), d) { NothingLeftToMerge(docs, d); }
    hide Kept;
    var kept := Kept(docs);
    forall rows: Rows ensures Repointed(kept, rows) == rows { NothingToRepoint(kept, rows); }
    forall t | t in tables ensures AllRepointed(kept, AllRepointed(docs, tables))[t] == AllRepointed(docs, tables)[t] { }
  }

  lemma NothingToRepoint(docs: Docs, rows: Rows)
    requires forall d :: !IsDuplicate(docs, d)
    ensures Repointed(docs, rows) == rows
  {
    forall id | id in rows ensures Repoint(docs, rows[id]) == rows[id] { }
  }

  /** The migration fails exactly when some table holds two rows with one key that cite different
      copies of the same document: repointing would give both the keeper. */
  lemma FailsExactlyOnCollision(docs: Docs, rows: Rows)
    requires UniqueKeys(rows) && forall id <- rows :: Resolves(docs, rows[id])
    ensures UniqueKeys(Repointed(docs, rows)) <==> !exists a, b :: Collide(docs, rows, a, b)
  {
    var after := Repointed(docs, rows);
    forall a, b | Collide(docs, rows, a, b) ensures !UniqueKeys(after) {
      KeeperOfKeeper(docs, rows[a].source.value, rows[b].source.value);
      assert after[a].source == after[b].source;
    }
    if !UniqueKeys(after) {
      var a, b :| a in after && b in after && a != b && after[a].key.Some? &&
                  after[a].key == after[b].key && after[a].source == after[b].source;
      assert Resolves(docs, rows[a]) && Resolves(docs, rows[b]);
      assert Collide(docs, rows, a, b);
    }
  }

  /** Such a database: one document acquired twice by one request, each copy read by the same
      extractor at the same place. */
  lemma CollisionExample()
    ensures var docs: Docs := map[1 := Doc(7, 9, false, 0, 100), 2 := Doc(7, 9, false, 0, 200)];
            var rows: Rows := map[10 := Row(Some(1), Some(5), 0), 11 := Row(Some(2), Some(5), 0)];
            UniqueKeys(rows) && !UniqueKeys(Repointed(docs, rows))
  {
    var docs: Docs := map[1 := Doc(7, 9, false, 0, 100), 2 := Doc(7, 9, false, 0, 200)];
    var rows: Rows := map[10 := Row(Some(1), Some(5), 0), 11 := Row(Some(2), Some(5), 0)];
    assert Collide(docs, rows, 10, 11);
    FailsExactlyOnCollision(docs, rows);
  }
}
