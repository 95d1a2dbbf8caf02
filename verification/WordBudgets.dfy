/** Three revisions of the report's section definitions, run up and then down in reverse: lengths
    stated (0034), statement tables read across (0039), lengths scaled (0045). */
module WordBudgets {
  import opened Options

  /* ---------- Rounding (0045) ---------- */

  /** Rounds n / d to the nearest integer, halves away from zero. */
  function Round(n: int, d: int): int
    requires d > 0
  {
    if n >= 0 then (2 * n + d) / (2 * d) else -((2 * -n + d) / (2 * d))
  }

  /** ROUND(budget * 1.45) and ROUND(budget / 1.45). */
  function Scale(budget: int): int { Round(145 * budget, 100) }
  function Unscale(budget: int): int { Round(100 * budget, 145) }

  /** The scaled budget is within half a word of 1.45 times the budget, and of two such numbers the one further
      from nought; scaled down it is the same of the quotient. */
  lemma ScaledIsNearest(budget: int)
    ensures 2 * (100 * Scale(budget) - 145 * budget) <= 100 && 2 * (145 * budget - 100 * Scale(budget)) <= 100
    ensures budget > 0 ==> 2 * (145 * budget - 100 * Scale(budget)) < 100
    ensures budget < 0 ==> 2 * (100 * Scale(budget) - 145 * budget) < 100
    ensures 2 * (145 * Unscale(budget) - 100 * budget) <= 145 && 2 * (100 * budget - 145 * Unscale(budget)) <= 145
  {
    var m := if budget >= 0 then budget else -budget;
    var k, l := (290 * m + 100) / 200, (200 * m + 145) / 290;
    assert 200 * k <= 290 * m + 100 < 200 * k + 200;
    assert 290 * l <= 200 * m + 145 < 290 * l + 290;
    assert Scale(budget) == if budget >= 0 then k else -k;
    assert Unscale(budget) == if budget >= 0 then l else -l;
  }

  /** Halves go up: the seeded 250 and 350 words become 363 and 508. */
  lemma SeededHalves()
    ensures Scale(250) == 363 && Scale(350) == 508
  {
  }

  /** The factor is above one, so rounding loses less than the scaling spread: undone exactly, for
      every integer and not only the seeded multiples of fifty. */
  lemma UnscaleUndoesScale(budget: int)
    ensures Unscale(Scale(budget)) == budget
  {
    var m := if budget >= 0 then budget else -budget;
    var k := (290 * m + 100) / 200;
    assert 200 * k <= 290 * m + 100 < 200 * k + 200;
    assert Scale(budget) == if budget >= 0 then k else -k;
    var r := (200 * k + 145) / 290;
    assert 290 * r <= 200 * k + 145 < 290 * r + 290;
    assert r == m;
  }

  /** The other order is not an inverse: most scaled-down numbers were never a scaled budget. */
  lemma ScaleUndoesUnscaleExactly(x: int)
    ensures Scale(Unscale(x)) == x <==> exists b :: Scale(b) == x
  {
    if Scale(Unscale(x)) == x { assert Scale(Unscale(x)) == x; }
    if exists b :: Scale(b) == x {
      var b :| Scale(b) == x;
      UnscaleUndoesScale(b);
    }
  }

  /* ---------- The table ---------- */

  datatype Origin = Builtin | Custom

  /** A JSON object, in the order its names were written. */
  type Object = seq<(string, nat)>

  /** The budget is the one entry of the evidence policy these revisions touch; `contract` stands for
      the properties of the output contract, and `rest` for every other column. */
  datatype Section = Section(
    key: string, version: nat, origin: Origin, budget: Option<int>, contract: Object, rest: nat)

  type Budgets = seq<(string, int)>

  /** What 0034 seeds and the keys 0039 revises. Every result below holds for any such lists. */
  const BUDGETS: Budgets := [
    ("executive_summary", 250), ("investment_thesis", 400), ("business_overview", 400),
    ("segment_analysis", 350), ("industry_landscape", 350), ("management_governance", 300),
    ("historical_financial_analysis", 500), ("earnings_quality", 350), ("balance_sheet_liquidity", 350),
    ("cash_flow_analysis", 350), ("capital_allocation", 300), ("growth_outlook", 350),
    ("valuation_dcf", 500), ("scenarios_sensitivities", 350), ("key_risks", 400), ("catalysts", 250),
    ("prior_research_comparison", 250), ("validation_disagreements", 250)]

  const REVISED: seq<string> := ["historical_financial_analysis", "balance_sheet_liquidity", "cash_flow_analysis"]
  const NEW_VERSION := 2
  const SERIES: nat := 0

  predicate Targets(row: Section, key: string) { row.key == key && row.origin == Builtin }

  /** The budget the statements leave on a key: each statement overwrites the one before. */
  function BudgetOf(entries: Budgets, key: string): (b: Option<int>)
    ensures b.None? <==> forall e <- entries :: e.0 != key
  {
    if entries == [] then None
    else
      var last := entries[|entries| - 1];
      assert entries == entries[..|entries| - 1] + [last];
      if last.0 == key then Some(last.1) else BudgetOf(entries[..|entries| - 1], key)
  }

  predicate Covered(row: Section, entries: Budgets) {
    row.origin == Builtin && BudgetOf(entries, row.key).Some?
  }

  /* ---------- 0039: rebuilding the contract ---------- */

  function Names(o: Object): (r: seq<string>)
    ensures |r| == |o| && forall i :: 0 <= i < |o| ==> r[i] == o[i].0
  {
    seq(|o|, i requires 0 <= i < |o| => o[i].0)
  }

  ghost predicate DistinctNames(o: Object) {
    forall i, j :: 0 <= i < j < |o| ==> o[i].0 != o[j].0
  }

  /** Assignment to a name: in place when the name is there, at the end otherwise. */
  function Put(o: Object, name: string, spec: nat): Object {
    if o == [] then [(name, spec)]
    else if o[0].0 == name then [(name, spec)] + o[1..]
    else [o[0]] + Put(o[1..], name, spec)
  }

  function Without(o: Object, name: string): Object {
    if o == [] then []
    else (if o[0].0 == name then [] else [o[0]]) + Without(o[1..], name)
  }

  /** Declared order, with the series put directly after the prose. */
  method Rebuild(contract: Object) returns (properties: Object)
    requires DistinctNames(contract)
    ensures properties == Rebuilt(contract)
  {
    properties := [];
    for i := 0 to |contract|
      invariant properties == Rebuilt(contract[..i])
    {
      assert contract[..i + 1][..i] == contract[..i];
      properties := Put(properties, contract[i].0, contract[i].1);
      if contract[i].0 == "commentary" { properties := Put(properties, "financials", SERIES); }
    }
    assert contract[..|contract|] == contract;
  }

  function Rebuilt(contract: Object): Object {
    if contract == [] then []
    else
      var last := contract[|contract| - 1];
      var before := Put(Rebuilt(contract[..|contract| - 1]), last.0, last.1);
      if last.0 == "commentary" then Put(before, "financials", SERIES) else before
  }

  predicate Has(o: Object, name: string) { exists f <- o :: f.0 == name }

  lemma {:induction false} PutNames(o: Object, name: string, spec: nat)
    ensures forall n :: Has(Put(o, name, spec), n) <==> n == name || Has(o, n)
  {
    var r := Put(o, name, spec);
    HasSplits(o);
    HasSplits(r);
    if o != [] { PutNames(o[1..], name, spec); }
  }

  lemma HasSplits(o: Object)
    ensures forall n :: Has(o, n) <==> o != [] && (o[0].0 == n || Has(o[1..], n))
  {
    if o != [] { assert o == [o[0]] + o[1..]; }
  }

  lemma {:induction false} PutWithout(o: Object, name: string, spec: nat, other: string)
    ensures name == other ==> Without(Put(o, name, spec), other) == Without(o, other)
    ensures name != other && !Has(o, name) ==>
      Without(Put(o, name, spec), other) == Without(o, other) + [(name, spec)]
  {
    if o != [] {
      PutWithout(o[1..], name, spec, other);
      if !Has(o, name) {
        assert o[0] in o;
        assert !Has(o[1..], name);
      }
    }
  }

  lemma {:induction false} WithoutSplits(a: Object, b: Object, name: string)
    ensures Without(a + b, name) == Without(a, name) + Without(b, name)
  {
    if a == [] {
      assert a + b == b;
    } else {
      assert (a + b)[1..] == a[1..] + b;
      WithoutSplits(a[1..], b, name);
    }
  }

  lemma LastIsNew(o: Object)
    requires o != [] && DistinctNames(o)
    ensures !Has(o[..|o| - 1], o[|o| - 1].0) && DistinctNames(o[..|o| - 1])
    ensures forall n :: Has(o, n) <==> Has(o[..|o| - 1], n) || n == o[|o| - 1].0
  {
    assert o == o[..|o| - 1] + [o[|o| - 1]];
  }

  /** Whatever the contract was, the rebuild adds one field and keeps every other one, in its order. */
  lemma {:induction false} RebuildKeepsTheRest(contract: Object)
    requires DistinctNames(contract)
    ensures Without(Rebuilt(contract), "financials") == Without(contract, "financials")
    ensures forall n :: Has(Rebuilt(contract), n) <==>
              Has(contract, n) || (n == "financials" && Has(contract, "commentary"))
  {
    if contract != [] {
      hide Put, Has, DistinctNames;
      var last := contract[|contract| - 1];
      var prefix := contract[..|contract| - 1];
      LastIsNew(contract);
      RebuildKeepsTheRest(prefix);
      PutWithout(Rebuilt(prefix), last.0, last.1, "financials");
      PutNames(Rebuilt(prefix), last.0, last.1);
      PutWithout(Put(Rebuilt(prefix), last.0, last.1), "financials", SERIES, "financials");
      PutNames(Put(Rebuilt(prefix), last.0, last.1), "financials", SERIES);
      WithoutSplits(prefix, [last], "financials");
      assert contract == prefix + [last];
    }
  }

  lemma {:induction false} PutAtEnd(o: Object, name: string, spec: nat)
    requires !Has(o, name)
    ensures Put(o, name, spec) == o + [(name, spec)]
  {
    if o != [] {
      assert o[0] in o;
      assert !Has(o[1..], name);
      PutAtEnd(o[1..], name, spec);
      assert o == [o[0]] + o[1..];
    }
  }

  /** A contract without prose is copied. */
  lemma {:induction false} RebuildCopies(contract: Object)
    requires DistinctNames(contract) && !Has(contract, "commentary")
    ensures Rebuilt(contract) == contract
  {
    if contract != [] {
      LastIsNew(contract);
      RebuildCopies(contract[..|contract| - 1]);
      PutAtEnd(contract[..|contract| - 1], contract[|contract| - 1].0, contract[|contract| - 1].1);
    }
  }

  /** For a contract that has prose and no series yet, the series stands directly after the prose and
      nothing else moves. */
  lemma {:induction false} SeriesFollowsProse(before: Object, prose: nat, after: Object)
    requires DistinctNames(before + [("commentary", prose)] + after)
    requires !Has(before + [("commentary", prose)] + after, "financials")
    ensures Rebuilt(before + [("commentary", prose)] + after)
         == before + [("commentary", prose), ("financials", SERIES)] + after
  {
    hide Put, DistinctNames;
    var prosed := before + [("commentary", prose)];
    var contract := prosed + after;
    LastIsNew(contract);
    if after == [] {
      assert contract == prosed && contract[..|contract| - 1] == before;
      RebuildCopies(before);
      PutAtEnd(before, "commentary", prose);
      PutAtEnd(prosed, "financials", SERIES);
    } else {
      var shorter, last := after[..|after| - 1], after[|after| - 1];
      assert contract[|contract| - 1] == last && contract[..|contract| - 1] == prosed + shorter;
      assert contract[|before|].0 == "commentary";
      SeriesFollowsProse(before, prose, shorter);
      RebuildKeepsTheRest(prosed + shorter);
      PutAtEnd(Rebuilt(prosed + shorter), last.0, last.1);
    }
  }

  /* ---------- The statements, row by row ---------- */

  /** The merge: a declared budget wins over one already there. */
  function Stated(row: Section, entries: Budgets): Section {
    if Covered(row, entries) then row.(budget := BudgetOf(entries, row.key)) else row
  }

  function Unstated(row: Section, entries: Budgets): Section {
    if Covered(row, entries) then row.(budget := None) else row
  }

  function Scaled(row: Section): Section {
    if row.origin == Builtin && row.budget.Some? then row.(budget := Some(Scale(row.budget.value))) else row
  }

  function Unscaled(row: Section): Section {
    if row.origin == Builtin && row.budget.Some? then row.(budget := Some(Unscale(row.budget.value))) else row
  }

  function WithBudget(row: Section, key: string, budget: Option<int>): Section {
    if Targets(row, key) then row.(budget := budget) else row
  }

  lemma OneMoreStatement(row: Section, entries: Budgets, entry: (string, int))
    ensures Stated(row, entries + [entry]) == WithBudget(Stated(row, entries), entry.0, Some(entry.1))
    ensures Unstated(row, entries + [entry]) == WithBudget(Unstated(row, entries), entry.0, None)
  {
    assert (entries + [entry])[..|entries|] == entries;
  }

  /** `to` is `from` with every row's budget alone rewritten. */
  ghost predicate Rewrites(from: seq<Section>, to: seq<Section>, f: Section -> Section) {
    |to| == |from| && forall i :: 0 <= i < |to| ==> to[i] == f(from[i])
  }

  /* ---------- 0039: the second versions ---------- */

  predicate IsFirst(row: Section, key: string) { Targets(row, key) && row.version == 1 }

  predicate IsRevision(row: Section, keys: seq<string>) {
    row.key in keys && row.origin == Builtin && row.version == NEW_VERSION
  }

  predicate Taken(rows: seq<Section>, key: string) {
    exists r <- rows :: r.key == key && r.version == NEW_VERSION
  }

  /** The built-in first version of a key. */
  function First(rows: seq<Section>, key: string): (r: Option<Section>)
    ensures r.Some? ==> r.value in rows && IsFirst(r.value, key)
    ensures r.None? <==> forall row <- rows :: !IsFirst(row, key)
  {
    if rows == [] then None
    else
      assert rows == [rows[0]] + rows[1..];
      if IsFirst(rows[0], key) then Some(rows[0]) else First(rows[1..], key)
  }

  function Revision(first: Section): Section {
    first.(version := NEW_VERSION, contract := Rebuilt(first.contract))
  }

  /** The table after 0039's inserts; nothing when a key has no first version to copy, or when its
      second version is there already. */
  function Revised(rows: seq<Section>, keys: seq<string>): Option<seq<Section>> {
    if keys == [] then Some(rows)
    else
      var before := Revised(rows, keys[..|keys| - 1]);
      var key := keys[|keys| - 1];
      if before.None? || First(before.value, key).None? || Taken(before.value, key) then None
      else Some(before.value + [Revision(First(before.value, key).value)])
  }

  function Kept(rows: seq<Section>, keys: seq<string>): (kept: seq<Section>)
    ensures forall r <- kept :: r in rows
  {
    if rows == [] then []
    else
      assert rows == [rows[0]] + rows[1..];
      (if IsRevision(rows[0], keys) then [] else [rows[0]]) + Kept(rows[1..], keys)
  }

  /** uq_section_definitions_key_version. */
  ghost predicate Unique(rows: seq<Section>) {
    forall i, j :: 0 <= i < j < |rows| ==> (rows[i].key, rows[i].version) != (rows[j].key, rows[j].version)
  }

  class Definitions {
    var rows: seq<Section>
    /** The key and version each stored report section was written against. */
    var cited: set<(string, nat)>

    ghost predicate Valid() reads this { Unique(rows) && forall r <- rows :: DistinctNames(r.contract) }

    constructor (rows: seq<Section>, cited: set<(string, nat)>)
      requires Unique(rows) && forall r <- rows :: DistinctNames(r.contract)
      ensures Valid() && this.rows == rows && this.cited == cited
    {
      this.rows, this.cited := rows, cited;
    }

    /** One UPDATE per key. */
    method Upgrade34(budgets: Budgets)
      requires Valid()
      modifies this`rows
      ensures Valid() && Rewrites(old(rows), rows, r => Stated(r, budgets))
    {
      for i := 0 to |budgets|
        invariant |rows| == |old(rows)|
        invariant forall j :: 0 <= j < |rows| ==> rows[j] == Stated(old(rows)[j], budgets[..i])
      {
        assert budgets[..i + 1] == budgets[..i] + [budgets[i]];
        rows := seq(|rows|, j requires 0 <= j < |rows| reads this =>
          WithBudget(rows[j], budgets[i].0, Some(budgets[i].1)));
        forall j | 0 <= j < |rows| ensures rows[j] == Stated(old(rows)[j], budgets[..i + 1]) {
          OneMoreStatement(old(rows)[j], budgets[..i], budgets[i]);
        }
      }
      assert budgets[..|budgets|] == budgets;
    }

    method Downgrade34(budgets: Budgets)
      requires Valid()
      modifies this`rows
      ensures Valid() && Rewrites(old(rows), rows, r => Unstated(r, budgets))
    {
      for i := 0 to |budgets|
        invariant |rows| == |old(rows)|
        invariant forall j :: 0 <= j < |rows| ==> rows[j] == Unstated(old(rows)[j], budgets[..i])
      {
        assert budgets[..i + 1] == budgets[..i] + [budgets[i]];
        rows := seq(|rows|, j requires 0 <= j < |rows| reads this =>
          WithBudget(rows[j], budgets[i].0, None));
        forall j | 0 <= j < |rows| ensures rows[j] == Unstated(old(rows)[j], budgets[..i + 1]) {
          OneMoreStatement(old(rows)[j], budgets[..i], budgets[i]);
        }
      }
      assert budgets[..|budgets|] == budgets;
    }

    /** False is an error part of the way through, which the migration's transaction takes back. */
    method Upgrade39(keys: seq<string>) returns (ok: bool)
      requires Valid()
      modifies this`rows
      ensures Valid()
      ensures ok <==> Revised(old(rows), keys).Some?
      ensures rows == if ok then Revised(old(rows), keys).value else old(rows)
    {
      var committed := rows;
      for i := 0 to |keys|
        invariant Revised(committed, keys[..i]) == Some(rows)
        invariant Valid()
      {
        assert keys[..i + 1][..i] == keys[..i];
        var first := First(rows, keys[i]);
        if first.None? || Taken(rows, keys[i]) {
          RevisedNeedsAll(committed, keys, i);
          rows := committed;
          return false;
        }
        var properties := Rebuild(first.value.contract);
        RebuiltIsDistinct(first.value.contract);
        rows := rows + [first.value.(version := NEW_VERSION, contract := properties)];
      }
      assert keys[..|keys|] == keys;
      return true;
    }

    /** False is the refusal to delete a definition a stored report rests on. */
    method Downgrade39(keys: seq<string>) returns (ok: bool)
      requires Valid()
      modifies this`rows
      ensures Valid()
      ensures ok <==> forall r <- rows :: IsRevision(r, keys) ==> (r.key, r.version) !in cited
      ensures rows == if ok then Kept(old(rows), keys) else old(rows)
    {
      ok := forall r <- rows :: IsRevision(r, keys) ==> (r.key, r.version) !in cited;
      if ok {
        KeptStaysUnique(rows, keys);
        rows := Kept(rows, keys);
      }
    }

    method Upgrade45()
      requires Valid()
      modifies this`rows
      ensures Valid() && Rewrites(old(rows), rows, r => Scaled(r))
    {
      rows := seq(|rows|, j requires 0 <= j < |rows| reads this => Scaled(rows[j]));
    }

    method Downgrade45()
      requires Valid()
      modifies this`rows
      ensures Valid() && Rewrites(old(rows), rows, r => Unscaled(r))
    {
      rows := seq(|rows|, j requires 0 <= j < |rows| reads this => Unscaled(rows[j]));
    }

    /** All three up, then all three down in reverse, before any report cites a second version. The
        chain runs through exactly when each revised key is distinct, has its first version and not
        its second; and then it gives back every row exactly when no seeded section had a budget of
        its own, which 0034 down forgets. */
    method UpAndDown(budgets: Budgets, keys: seq<string>) returns (ok: bool)
      requires Valid() && forall c <- cited :: !(c.0 in keys && c.1 == NEW_VERSION)
      modifies this`rows
      ensures Valid()
      ensures ok <==> Revisable(old(rows), keys)
      ensures ok ==> (rows == old(rows) <==> Unbudgeted(old(rows), budgets))
    {
      hide Stated, Unstated, Scaled, Unscaled, Revised, Kept, Revisable, Unbudgeted;
      ghost var before := rows;
      Upgrade34(budgets);
      ghost var stated := rows;
      RevisableThroughout(before, stated, budgets, keys);
      RevisedExactly(stated, keys);
      ok := Upgrade39(keys);
      if ok {
        ghost var revised := rows;
        Upgrade45();
        ghost var scaled := rows;
        Downgrade45();
        ScalingUndone(revised, scaled, rows);
        var down := Downgrade39(keys);
        RevisedThenDeleted(stated, keys);
        Downgrade34(budgets);
        StatingUndoneExactly(before, stated, rows, budgets);
      }
    }
  }

  lemma {:induction false} RevisedNeedsAll(rows: seq<Section>, keys: seq<string>, i: nat)
    requires i < |keys| && Revised(rows, keys[..i + 1]).None?
    ensures Revised(rows, keys).None?
  {
    if i + 1 < |keys| {
      assert keys[..|keys| - 1][..i + 1] == keys[..i + 1];
      RevisedNeedsAll(rows, keys[..|keys| - 1], i);
    } else {
      assert keys[..i + 1] == keys;
    }
  }

  lemma {:induction false} PutStaysDistinct(o: Object, name: string, spec: nat)
    requires DistinctNames(o)
    ensures DistinctNames(Put(o, name, spec))
  {
    if o != [] && o[0].0 != name {
      PutStaysDistinct(o[1..], name, spec);
      PutNames(o[1..], name, spec);
      forall j | 0 < j < |Put(o, name, spec)| ensures Put(o, name, spec)[j].0 != o[0].0 {
        assert Has(Put(o[1..], name, spec), Put(o[1..], name, spec)[j - 1].0);
      }
    }
  }

  lemma {:induction false} RebuiltIsDistinct(contract: Object)
    requires DistinctNames(contract)
    ensures DistinctNames(Rebuilt(contract))
  {
    if contract != [] {
      var last := contract[|contract| - 1];
      var shorter := contract[..|contract| - 1];
      RebuiltIsDistinct(shorter);
      PutStaysDistinct(Rebuilt(shorter), last.0, last.1);
      PutStaysDistinct(Put(Rebuilt(shorter), last.0, last.1), "financials", SERIES);
    }
  }

  lemma {:induction false} KeptStaysUnique(rows: seq<Section>, keys: seq<string>)
    requires Unique(rows)
    ensures Unique(Kept(rows, keys))
  {
    if rows != [] {
      KeptStaysUnique(rows[1..], keys);
      forall r | r in Kept(rows[1..], keys) ensures (r.key, r.version) != (rows[0].key, rows[0].version) {
        var j :| 0 <= j < |rows[1..]| && rows[1..][j] == r;
        assert rows[j + 1] == r;
      }
    }
  }

  /* ---------- What the chain keeps ---------- */

  lemma ScalingUndone(before: seq<Section>, scaled: seq<Section>, after: seq<Section>)
    requires Rewrites(before, scaled, r => Scaled(r)) && Rewrites(scaled, after, r => Unscaled(r))
    ensures after == before
  {
    forall i | 0 <= i < |before| ensures after[i] == before[i] {
      assert scaled[i] == Scaled(before[i]) && after[i] == Unscaled(scaled[i]);
      if before[i].budget.Some? { UnscaleUndoesScale(before[i].budget.value); }
    }
  }

  ghost predicate Revisable(rows: seq<Section>, keys: seq<string>) {
    && (forall i, j :: 0 <= i < j < |keys| ==> keys[i] != keys[j])
    && forall k <- keys :: First(rows, k).Some? && !Taken(rows, k)
  }

  predicate Unbudgeted(rows: seq<Section>, budgets: Budgets) {
    forall r <- rows :: Covered(r, budgets) ==> r.budget.None?
  }

  /** One more row, a second version: the first versions stay, and only its key becomes taken. */
  lemma OneMoreRevision(rows: seq<Section>, added: Section)
    requires added.version == NEW_VERSION
    ensures forall k :: First(rows + [added], k).Some? <==> First(rows, k).Some?
    ensures forall k :: Taken(rows + [added], k) <==> Taken(rows, k) || k == added.key
  {
    var more := rows + [added];
    assert forall r :: r in more <==> r in rows || r == added;
    forall k ensures Taken(more, k) <==> Taken(rows, k) || k == added.key {
      if k == added.key { assert added in more; }
    }
  }

  /** When the inserts go through, the old rows are untouched in front, and behind them stands one
      second version for each key. */
  lemma {:induction false} RevisedAppends(rows: seq<Section>, keys: seq<string>)
    requires Revised(rows, keys).Some?
    ensures var r := Revised(rows, keys).value;
            && |r| == |rows| + |keys| && r[..|rows|] == rows
            && (forall i :: |rows| <= i < |r| ==> IsRevision(r[i], keys) && r[i].key == keys[i - |rows|])
            && (forall k :: First(r, k).Some? <==> First(rows, k).Some?)
            && (forall k :: Taken(r, k) <==> Taken(rows, k) || k in keys)
  {
    if keys != [] {
      var shorter, key := keys[..|keys| - 1], keys[|keys| - 1];
      assert keys == shorter + [key];
      RevisedAppends(rows, shorter);
      var before := Revised(rows, shorter).value;
      OneMoreRevision(before, Revision(First(before, key).value));
    }
  }

  /** The inserts go through exactly when the keys are distinct and each has its first version and
      not yet its second. */
  lemma {:induction false} RevisedExactly(rows: seq<Section>, keys: seq<string>)
    ensures Revised(rows, keys).Some? <==> Revisable(rows, keys)
  {
    if keys != [] {
      var shorter, key := keys[..|keys| - 1], keys[|keys| - 1];
      assert keys == shorter + [key];
      RevisedExactly(rows, shorter);
      if Revised(rows, shorter).Some? { RevisedAppends(rows, shorter); }
      assert Revisable(rows, keys) ==> Revisable(rows, shorter) && key !in shorter;
      assert Revisable(rows, shorter) && key !in shorter && First(rows, key).Some? && !Taken(rows, key)
        ==> Revisable(rows, keys);
    }
  }

  lemma RevisableThroughout(before: seq<Section>, stated: seq<Section>, budgets: Budgets, keys: seq<string>)
    requires Rewrites(before, stated, r => Stated(r, budgets))
    ensures Revisable(stated, keys) <==> Revisable(before, keys)
  {
    forall k ensures First(stated, k).Some? <==> First(before, k).Some? {
      if i :| 0 <= i < |before| && IsFirst(before[i], k) { assert IsFirst(stated[i], k) && stated[i] in stated; }
      if i :| 0 <= i < |stated| && IsFirst(stated[i], k) { assert IsFirst(before[i], k) && before[i] in before; }
    }
    forall k ensures Taken(stated, k) <==> Taken(before, k) {
      if i :| 0 <= i < |before| && before[i].key == k && before[i].version == NEW_VERSION { assert stated[i] in stated; }
      if i :| 0 <= i < |stated| && stated[i].key == k && stated[i].version == NEW_VERSION { assert before[i] in before; }
    }
  }

  lemma {:induction false} KeptSplits(a: seq<Section>, b: seq<Section>, keys: seq<string>)
    ensures Kept(a + b, keys) == Kept(a, keys) + Kept(b, keys)
  {
    if a == [] {
      assert a + b == b;
    } else {
      assert (a + b)[1..] == a[1..] + b;
      KeptSplits(a[1..], b, keys);
    }
  }

  lemma {:induction false} KeptAll(rows: seq<Section>, keys: seq<string>)
    requires forall r <- rows :: !IsRevision(r, keys)
    ensures Kept(rows, keys) == rows
  {
    if rows != [] {
      assert rows == [rows[0]] + rows[1..];
      KeptAll(rows[1..], keys);
    }
  }

  lemma {:induction false} KeptNone(rows: seq<Section>, keys: seq<string>)
    requires forall r <- rows :: IsRevision(r, keys)
    ensures Kept(rows, keys) == []
  {
    if rows != [] {
      assert rows == [rows[0]] + rows[1..];
      KeptNone(rows[1..], keys);
    }
  }

  /** 0039 down deletes exactly what 0039 up inserted: a second version of anyone else's would have
      stopped the upgrade. */
  lemma RevisedThenDeleted(rows: seq<Section>, keys: seq<string>)
    requires Revised(rows, keys).Some?
    ensures Kept(Revised(rows, keys).value, keys) == rows
  {
    RevisedAppends(rows, keys);
    RevisedExactly(rows, keys);
    var r := Revised(rows, keys).value;
    assert r == rows + r[|rows|..];
    KeptSplits(rows, r[|rows|..], keys);
    forall row | row in rows ensures !IsRevision(row, keys) {
      if IsRevision(row, keys) { assert Taken(rows, row.key); }
    }
    KeptAll(rows, keys);
    KeptNone(r[|rows|..], keys);
    assert rows + [] == rows;
  }

  /** Stating and unstating gives back every row exactly when no seeded section had a budget. */
  lemma StatingUndoneExactly(before: seq<Section>, stated: seq<Section>, after: seq<Section>, budgets: Budgets)
    requires Rewrites(before, stated, r => Stated(r, budgets)) && Rewrites(stated, after, r => Unstated(r, budgets))
    ensures after == before <==> Unbudgeted(before, budgets)
  {
    forall i | 0 <= i < |before| ensures after[i] == Unstated(before[i], budgets) {
      assert stated[i] == Stated(before[i], budgets) && after[i] == Unstated(stated[i], budgets);
    }
    if after == before {
      forall r | r in before && Covered(r, budgets) ensures r.budget.None? {
        var i :| 0 <= i < |before| && before[i] == r;
        assert after[i] == Unstated(before[i], budgets);
      }
    }
    if Unbudgeted(before, budgets) {
      forall i | 0 <= i < |before| ensures after[i] == before[i] { assert before[i] in before; }
    }
  }

  /** Such a table: one seeded section with a budget of its own, which neither statement remembers. */
  lemma StatingExample()
    ensures var row := Section("key_risks", 1, Builtin, Some(700), [], 0);
            var budgets: Budgets := [("key_risks", 400)];
            Unstated(Stated(row, budgets), budgets) != row && !Unbudgeted([row], budgets)
  {
    var row := Section("key_risks", 1, Builtin, Some(700), [], 0);
    var budgets: Budgets := [("key_risks", 400)];
    assert BudgetOf(budgets, "key_risks") == Some(400);
    assert [row][0] in [row];
  }

  /** After the three upgrades each revised section stands there twice, with one and the same scaled
      budget, and the second version's contract is the first's with the series added. */
  lemma BothVersionsCarryTheBudget(before: seq<Section>, stated: seq<Section>, scaled: seq<Section>,
                                   budgets: Budgets, keys: seq<string>, key: string)
    requires Rewrites(before, stated, r => Stated(r, budgets)) && Revised(stated, keys).Some?
    requires Rewrites(Revised(stated, keys).value, scaled, r => Scaled(r))
    requires key in keys && BudgetOf(budgets, key).Some?
    ensures exists first, second ::
              && first in scaled && second in scaled && IsFirst(first, key)
              && second == first.(version := NEW_VERSION, contract := Rebuilt(first.contract))
              && first.budget == Some(Scale(BudgetOf(budgets, key).value))
  {
    var revised := Revised(stated, keys).value;
    var first := RevisionOfKey(stated, keys, key);
    assert first.budget == BudgetOf(budgets, key) by {
      var i :| 0 <= i < |stated| && stated[i] == first;
      assert stated[i] == Stated(before[i], budgets);
    }
    var i :| 0 <= i < |revised| && revised[i] == first;
    var j :| 0 <= j < |revised| && revised[j] == Revision(first);
    assert scaled[i] == Scaled(first) && scaled[j] == Scaled(Revision(first));
    assert scaled[i] in scaled && scaled[j] in scaled;
  }

  lemma {:induction false} RevisionOfKey(rows: seq<Section>, keys: seq<string>, key: string) returns (first: Section)
    requires Revised(rows, keys).Some? && key in keys
    ensures first in rows && IsFirst(first, key)
    ensures first in Revised(rows, keys).value && Revision(first) in Revised(rows, keys).value
  {
    var shorter, last := keys[..|keys| - 1], keys[|keys| - 1];
    assert keys == shorter + [last];
    RevisedAppends(rows, shorter);
    var before := Revised(rows, shorter).value;
    if last == key {
      first := First(before, key).value;
      var i :| 0 <= i < |before| && before[i] == first;
      assert before[..|rows|][i] == first;
    } else {
      first := RevisionOfKey(rows, shorter, key);
    }
  }

  /** The lists the migrations carry: every revised key is a seeded one. */
  lemma RevisedAreSeeded(key: string)
    requires key in REVISED
    ensures BudgetOf(BUDGETS, key).Some?
  {
    assert BUDGETS[6].0 == REVISED[0] && BUDGETS[8].0 == REVISED[1] && BUDGETS[9].0 == REVISED[2];
    var i :| 0 <= i < 3 && REVISED[i] == key;
  }
}
