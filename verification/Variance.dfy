/** Comparing the calculations of two runs on one subject (audit/scoring/variance.py). */
module Variance {
  import opened Options

  /** Name, period label and case: one key holds many rows. */
  datatype Key = Key(name: string, period: string, case_: string)

  datatype Row = Row(key: Key, value: string, unit: string, formula: Option<string>)

  /* ---------- Grouping ---------- */

  /** The rows of one key, in the order the run recorded them. */
  function Group(rows: seq<Row>, key: Key): seq<Row> {
    if rows == [] then []
    else
      var before := Group(rows[..|rows| - 1], key);
      if rows[|rows| - 1].key == key then before + [rows[|rows| - 1]] else before
  }

  method ByKey(rows: seq<Row>) returns (grouped: map<Key, seq<Row>>)
    ensures forall k :: k in grouped <==> Group(rows, k) != []
    ensures forall k <- grouped :: grouped[k] == Group(rows, k)
  {
    grouped := map[];
    for i := 0 to |rows|
      invariant forall k :: k in grouped <==> Group(rows[..i], k) != []
      invariant forall k <- grouped :: grouped[k] == Group(rows[..i], k)
    {
      assert rows[..i + 1][..i] == rows[..i];
      var key := rows[i].key;
      grouped := grouped[key := (if key in grouped then grouped[key] else []) + [rows[i]]];
    }
    assert rows[..|rows|] == rows;
  }

  /** Each row lies in the group of its own key as often as in the run, and in no other group. */
  lemma {:induction false} GroupsPartition(rows: seq<Row>, key: Key, row: Row)
    ensures multiset(Group(rows, key))[row] == if row.key == key then multiset(rows)[row] else 0
  {
    if rows != [] {
      GroupsPartition(rows[..|rows| - 1], key, row);
      assert rows == rows[..|rows| - 1] + [rows[|rows| - 1]];
    }
  }

  /** Grouping commutes with appending: inside a key the recorded order stays. */
  lemma {:induction false} GroupKeepsOrder(a: seq<Row>, b: seq<Row>, key: Key)
    ensures Group(a + b, key) == Group(a, key) + Group(b, key)
  {
    if b == [] {
      assert a + b == a;
    } else {
      assert (a + b)[..|a + b| - 1] == a + b[..|b| - 1];
      GroupKeepsOrder(a, b[..|b| - 1], key);
    }
  }

  /* ---------- Comparing one key ---------- */

  /** The values with their units, as a multiset. */
  function Values(rows: seq<Row>): (m: multiset<(string, string)>)
    ensures |m| == |rows|
  {
    if rows == [] then multiset{}
    else multiset{(rows[0].value, rows[0].unit)} + Values(rows[1..])
  }

  function Formulas(rows: seq<Row>): set<Option<string>> { set r <- rows :: r.formula }

  datatype Difference = Difference(
    key: Key, rows: (nat, nat), unmatched: nat, formulas: set<string>, examples: seq<(string, string)>)

  /** What is only on one side. */
  function SymmetricDifference<T>(a: set<T>, b: set<T>): set<T> { (a - b) + (b - a) }

  /** The formulas shown as changed: an absent or empty one is not among them. */
  function Shown(formulas: set<Option<string>>): set<string> {
    set f <- formulas | f.Some? && f.value != "" :: f.value
  }

  /** Sorts the values of a multiset and drops their units. */
  type Ordering = multiset<(string, string)> -> seq<string>

  ghost predicate Orders(order: Ordering) {
    forall m :: |order(m)| == |m| && forall v :: v in order(m) ==> exists unit :: (v, unit) in m
  }

  function Smaller(x: nat, y: nat): (m: nat)
    ensures m <= x && m <= y && m in {x, y}
  {
    if x <= y then x else y
  }

  function Zip(x: seq<string>, y: seq<string>): (z: seq<(string, string)>)
    ensures |z| == Smaller(|x|, |y|)
    ensures forall i :: 0 <= i < |z| ==> z[i] == (x[i], y[i])
  {
    seq(Smaller(|x|, |y|), i requires 0 <= i < Smaller(|x|, |y|) => (x[i], y[i]))
  }

  function Cut<T>(s: seq<T>, most: nat): seq<T> { if |s| <= most then s else s[..most] }

  const EXAMPLES := 3
  const LISTED := 40

  function DifferenceOf(key: Key, a: seq<Row>, b: seq<Row>, order: Ordering): Difference {
    var onlyA, onlyB := Values(a) - Values(b), Values(b) - Values(a);
    Difference(key, (|a|, |b|), |onlyA|, Shown(SymmetricDifference(Formulas(a), Formulas(b))),
      Cut(Zip(order(onlyA), order(onlyB)), EXAMPLES))
  }

  predicate Differs(a: seq<Row>, b: seq<Row>) {
    || |Values(a) - Values(b)| > 0 || |Values(b) - Values(a)| > 0
    || SymmetricDifference(Formulas(a), Formulas(b)) != {} || |a| != |b|
  }

  /** The four tests together say: not the same numbers, or not the same formulas. Where the values
      agree so do the counts, so the last test decides nothing. */
  lemma DiffersExactly(a: seq<Row>, b: seq<Row>)
    ensures Differs(a, b) <==> Values(a) != Values(b) || Formulas(a) != Formulas(b)
  {
    var x, y := Values(a), Values(b);
    if |x - y| == 0 && |y - x| == 0 {
      assert x - y == multiset{} && y - x == multiset{};
      forall v ensures x[v] == y[v] { assert (x - y)[v] == 0 && (y - x)[v] == 0; }
      assert x == y;
    }
    var f, g := Formulas(a), Formulas(b);
    if SymmetricDifference(f, g) == {} {
      forall v ensures v in f <==> v in g { assert v !in SymmetricDifference(f, g); }
    }
  }

  /** What one run has over the other and the other over it differ by what the counts differ by. */
  lemma RemaindersBalance(a: seq<Row>, b: seq<Row>)
    ensures |Values(a) - Values(b)| - |Values(b) - Values(a)| == |a| - |b|
    ensures |Values(a) - Values(b)| <= |a|
  {
    var x, y := Values(a), Values(b);
    assert x * y == y * x;
  }

  /** Each example sets a value the first run alone has beside one the second alone has: three of them,
      or as many as the shorter side has. A key listed without an example differs on one side only, or in
      its formulas only. */
  lemma ExamplesExactly(key: Key, a: seq<Row>, b: seq<Row>, order: Ordering)
    requires Orders(order)
    ensures
      var examples := DifferenceOf(key, a, b, order).examples;
      var onlyA, onlyB := Values(a) - Values(b), Values(b) - Values(a);
      && |examples| == Smaller(EXAMPLES, Smaller(|onlyA|, |onlyB|))
      && (examples == [] <==> Values(a) <= Values(b) || Values(b) <= Values(a))
      && forall e <- examples :: (exists unit :: (e.0, unit) in onlyA) && (exists unit :: (e.1, unit) in onlyB)
  {
    var x, y := Values(a), Values(b);
    EmptyRemainder(x, y);
    EmptyRemainder(y, x);
    forall e | e in DifferenceOf(key, a, b, order).examples
      ensures (exists unit :: (e.0, unit) in x - y) && (exists unit :: (e.1, unit) in y - x)
    {
      assert e.0 in order(x - y) && e.1 in order(y - x);
    }
  }

  /** A formula is shown as changed exactly when it is one, not an empty one, that one run's rows have and the
      other's do not. */
  lemma ShownExactly(key: Key, a: seq<Row>, b: seq<Row>, order: Ordering, formula: string)
    ensures formula in DifferenceOf(key, a, b, order).formulas <==>
      |formula| > 0 && ((exists r <- a :: r.formula == Some(formula)) <==> !exists r <- b :: r.formula == Some(formula))
  {
    var changed := SymmetricDifference(Formulas(a), Formulas(b));
    assert Some(formula) in Formulas(a) <==> exists r <- a :: r.formula == Some(formula);
    assert Some(formula) in Formulas(b) <==> exists r <- b :: r.formula == Some(formula);
    if formula in Shown(changed) {
      var f :| f in changed && f.Some? && f.value != "" && f.value == formula;
      assert f == Some(formula);
    }
    if Some(formula) in changed && formula != "" { assert Some(formula).value in Shown(changed); }
  }

  /** A pair is among the values exactly when some row has that value in that unit; there are as many values as
      rows. */
  lemma {:induction false} ValuesAre(rows: seq<Row>, value: string, unit: string)
    ensures (value, unit) in Values(rows) <==> exists r <- rows :: r.value == value && r.unit == unit
    ensures |Values(rows)| == |rows|
  {
    if rows != [] {
      ValuesAre(rows[1..], value, unit);
      assert rows == [rows[0]] + rows[1..];
    }
  }

  lemma EmptyRemainder<T>(x: multiset<T>, y: multiset<T>)
    ensures |x - y| == 0 <==> x <= y
  {
    if |x - y| == 0 {
      forall v ensures x[v] <= y[v] { assert (x - y)[v] == 0; }
    } else {
      var v :| v in x - y;
      assert x[v] > y[v];
    }
  }

  /* ---------- Comparing two runs ---------- */

  datatype Report = Report(
    groups: (nat, nat), rows: (nat, nat), compared: nat, differingRows: nat, shared: nat,
    onlyFirst: seq<Key>, onlySecond: seq<Key>, differing: seq<Difference>, identical: int)

  function Keys(rows: seq<Row>): set<Key> { set r <- rows :: r.key }

  function Compared(a: seq<Row>, b: seq<Row>, keys: seq<Key>): nat {
    if keys == [] then 0
    else
      var k := keys[|keys| - 1];
      Compared(a, b, keys[..|keys| - 1]) + Smaller(|Group(a, k)|, |Group(b, k)|)
  }

  /** The rows of the first run, over these keys, that the second run has no equal for. */
  function Unmatched(a: seq<Row>, b: seq<Row>, keys: seq<Key>): nat {
    if keys == [] then 0
    else
      var k := keys[|keys| - 1];
      Unmatched(a, b, keys[..|keys| - 1]) + |Values(Group(a, k)) - Values(Group(b, k))|
  }

  function Differing(a: seq<Row>, b: seq<Row>, keys: seq<Key>, order: Ordering): seq<Difference> {
    if keys == [] then []
    else
      var k := keys[|keys| - 1];
      var before := Differing(a, b, keys[..|keys| - 1], order);
      if Differs(Group(a, k), Group(b, k)) then before + [DifferenceOf(k, Group(a, k), Group(b, k), order)]
      else before
  }

  /** The calculation part of the report, its keys sorted by one function and its values by another. */
  function ReportOf(a: seq<Row>, b: seq<Row>, sorted: set<Key> -> seq<Key>, order: Ordering): Report {
    var shared := sorted(Keys(a) * Keys(b));
    var differing := Differing(a, b, shared, order);
    Report((|Keys(a)|, |Keys(b)|), (|a|, |b|), Compared(a, b, shared), Unmatched(a, b, shared), |shared|,
      Cut(sorted(Keys(a) - Keys(b)), LISTED), Cut(sorted(Keys(b) - Keys(a)), LISTED),
      differing, |shared| - |differing|)
  }

  /** A sorting: the keys of a set, once each. */
  ghost predicate Lists(keys: seq<Key>, these: set<Key>) {
    && (forall i, j :: 0 <= i < j < |keys| ==> keys[i] != keys[j])
    && forall k :: k in keys <==> k in these
  }

  lemma KeysAre(rows: seq<Row>, grouped: map<Key, seq<Row>>)
    requires forall k :: k in grouped <==> Group(rows, k) != []
    ensures grouped.Keys == Keys(rows) && |grouped| == |Keys(rows)|
  {
    forall k ensures k in grouped <==> k in Keys(rows) { KeyHasRows(rows, k); }
    assert grouped.Keys == Keys(rows);
  }

  lemma {:induction false} KeyHasRows(rows: seq<Row>, key: Key)
    ensures key in Keys(rows) <==> Group(rows, key) != []
  {
    if rows != [] {
      assert rows == rows[..|rows| - 1] + [rows[|rows| - 1]];
      KeyHasRows(rows[..|rows| - 1], key);
    }
  }

  method CompareKey(key: Key, groupA: seq<Row>, groupB: seq<Row>, order: Ordering)
      returns (differs: bool, d: Difference)
    ensures differs == Differs(groupA, groupB) && d == DifferenceOf(key, groupA, groupB, order)
  {
    var valuesA, valuesB := Values(groupA), Values(groupB);
    var onlyA, onlyB := valuesA - valuesB, valuesB - valuesA;
    var unmatched := |onlyA|;
    var formulas := SymmetricDifference(Formulas(groupA), Formulas(groupB));
    differs := unmatched > 0 || |onlyB| > 0 || formulas != {} || |groupA| != |groupB|;
    var examples := Zip(order(onlyA), order(onlyB));
    d := Difference(key, (|groupA|, |groupB|), unmatched, Shown(formulas), Cut(examples, EXAMPLES));
  }

  method CompareShared(rowsA: seq<Row>, rowsB: seq<Row>, calcsA: map<Key, seq<Row>>, calcsB: map<Key, seq<Row>>,
                       shared: seq<Key>, order: Ordering)
      returns (compared: nat, differingRows: nat, differing: seq<Difference>)
    requires forall k <- shared :: k in calcsA && k in calcsB
    requires forall k <- shared :: calcsA[k] == Group(rowsA, k) && calcsB[k] == Group(rowsB, k)
    ensures compared == Compared(rowsA, rowsB, shared)
    ensures differingRows == Unmatched(rowsA, rowsB, shared)
    ensures differing == Differing(rowsA, rowsB, shared, order)
  {
    hide Group, Values, Differs, Formulas, Shown, Zip, Cut, Smaller;
    compared, differingRows, differing := 0, 0, [];
    for i := 0 to |shared|
      invariant compared == Compared(rowsA, rowsB, shared[..i])
      invariant differingRows == Unmatched(rowsA, rowsB, shared[..i])
      invariant differing == Differing(rowsA, rowsB, shared[..i], order)
    {
      assert shared[..i + 1][..i] == shared[..i];
      var key := shared[i];
      assert key in shared;
      compared := compared + Smaller(|calcsA[key]|, |calcsB[key]|);
      var differs, d := CompareKey(key, calcsA[key], calcsB[key], order);
      differingRows := differingRows + d.unmatched;
      if differs { differing := differing + [d]; }
    }
    assert shared[..|shared|] == shared;
  }

  method CompareRuns(rowsA: seq<Row>, rowsB: seq<Row>, sorted: set<Key> -> seq<Key>, order: Ordering)
      returns (r: Report)
    requires forall keys :: Lists(sorted(keys), keys)
    ensures r == ReportOf(rowsA, rowsB, sorted, order)
  {
    var calcsA := ByKey(rowsA);
    var calcsB := ByKey(rowsB);
    KeysAre(rowsA, calcsA);
    KeysAre(rowsB, calcsB);
    var shared := sorted(calcsA.Keys * calcsB.Keys);
    assert Lists(shared, calcsA.Keys * calcsB.Keys);
    var compared, differingRows, differing := CompareShared(rowsA, rowsB, calcsA, calcsB, shared, order);
    r := Report((|calcsA|, |calcsB|), (|rowsA|, |rowsB|), compared, differingRows, |shared|,
      Cut(sorted(calcsA.Keys - calcsB.Keys), LISTED), Cut(sorted(calcsB.Keys - calcsA.Keys), LISTED),
      differing, |shared| - |differing|);
  }

  /* ---------- What the report says ---------- */

  predicate Agrees(a: seq<Row>, b: seq<Row>, key: Key) {
    Values(Group(a, key)) == Values(Group(b, key)) && Formulas(Group(a, key)) == Formulas(Group(b, key))
  }

  function Agreeing(a: seq<Row>, b: seq<Row>, keys: seq<Key>): nat {
    if keys == [] then 0
    else Agreeing(a, b, keys[..|keys| - 1]) + if Agrees(a, b, keys[|keys| - 1]) then 1 else 0
  }

  predicate Named(differing: seq<Difference>, key: Key) { exists d <- differing :: d.key == key }

  /** A shared key is listed exactly when the runs disagree on it, and listed with its own difference;
      the identical ones are the keys they agree on. */
  lemma {:induction false} ListedExactly(a: seq<Row>, b: seq<Row>, keys: seq<Key>, order: Ordering)
    ensures forall k :: Named(Differing(a, b, keys, order), k) <==> k in keys && !Agrees(a, b, k)
    ensures forall d <- Differing(a, b, keys, order) ::
      d == DifferenceOf(d.key, Group(a, d.key), Group(b, d.key), order)
    ensures |keys| - |Differing(a, b, keys, order)| == Agreeing(a, b, keys)
  {
    if keys != [] {
      var shorter, last := keys[..|keys| - 1], keys[|keys| - 1];
      assert keys == shorter + [last];
      ListedExactly(a, b, shorter, order);
      DiffersExactly(Group(a, last), Group(b, last));
      OneMoreListed(Differing(a, b, shorter, order), DifferenceOf(last, Group(a, last), Group(b, last), order));
    }
  }

  lemma {:induction false} ListsAll(keys: seq<Key>, these: set<Key>)
    requires Lists(keys, these)
    ensures |keys| == |these|
  {
    if keys == [] {
      assert these == {};
    } else {
      var last := keys[|keys| - 1];
      assert last in keys;
      forall k ensures k in keys[..|keys| - 1] <==> k in these - {last} {
        if k in these && k != last { assert k in keys; }
      }
      ListsAll(keys[..|keys| - 1], these - {last});
    }
  }

  /** The keys of the first run that are not shared are as many as the two counts leave over; the report
      lists all of them, or forty where there are more. */
  lemma EveryKeyIsAccountedFor(a: seq<Row>, b: seq<Row>, sorted: set<Key> -> seq<Key>, order: Ordering)
    requires forall keys :: Lists(sorted(keys), keys)
    ensures
      var r := ReportOf(a, b, sorted, order);
      && r.groups.0 - r.shared == |Keys(a) - Keys(b)|
      && |r.onlyFirst| == Smaller(LISTED, |Keys(a) - Keys(b)|)
      && (forall k <- r.onlyFirst :: k in Keys(a) && k !in Keys(b))
      && (|Keys(a) - Keys(b)| <= LISTED ==> forall k :: k in Keys(a) && k !in Keys(b) ==> k in r.onlyFirst)
  {
    var f, g := Keys(a), Keys(b);
    assert Lists(sorted(f * g), f * g) && Lists(sorted(f - g), f - g);
    ListsAll(sorted(f * g), f * g);
    ListsAll(sorted(f - g), f - g);
    assert f == f * g + (f - g) && (f * g) !! (f - g);
  }

  lemma OneMoreListed(differing: seq<Difference>, d: Difference)
    ensures forall k :: Named(differing + [d], k) <==> Named(differing, k) || k == d.key
    ensures forall e :: e in differing + [d] <==> e in differing || e == d
  {
    assert d in differing + [d];
    forall k ensures Named(differing + [d], k) <==> Named(differing, k) || k == d.key {
      if Named(differing, k) {
        var e :| e in differing && e.key == k;
        assert e in differing + [d];
      }
    }
  }

  function Excess(a: seq<Row>, b: seq<Row>, keys: seq<Key>): int {
    if keys == [] then 0
    else
      var k := keys[|keys| - 1];
      Excess(a, b, keys[..|keys| - 1]) + |Group(a, k)| - |Group(b, k)|
  }

  /** The same keys in the same order, with the sides exchanged. */
  ghost predicate Mirrors(x: seq<Difference>, y: seq<Difference>) {
    |x| == |y| && forall i :: 0 <= i < |x| ==> Mirror(x[i], y[i])
  }

  predicate Mirror(d: Difference, e: Difference) {
    && d.key == e.key && d.rows == (e.rows.1, e.rows.0) && d.formulas == e.formulas
    && |d.examples| == |e.examples|
    && forall i :: 0 <= i < |d.examples| ==> d.examples[i] == (e.examples[i].1, e.examples[i].0)
  }

  lemma MirroredKey(key: Key, a: seq<Row>, b: seq<Row>, order: Ordering)
    ensures Differs(a, b) <==> Differs(b, a)
    ensures Mirror(DifferenceOf(key, a, b, order), DifferenceOf(key, b, a, order))
  {
    var f, g := Formulas(a), Formulas(b);
    assert SymmetricDifference(f, g) == SymmetricDifference(g, f);
  }

  lemma {:induction false} MirroredListing(a: seq<Row>, b: seq<Row>, keys: seq<Key>, order: Ordering)
    ensures Mirrors(Differing(a, b, keys, order), Differing(b, a, keys, order))
  {
    if keys != [] {
      var last := keys[|keys| - 1];
      MirroredListing(a, b, keys[..|keys| - 1], order);
      MirroredKey(last, Group(a, last), Group(b, last), order);
    }
  }

  /** Exchanging the runs changes neither what is compared nor which keys are listed, and the two
      counts of unmatched rows differ by exactly the rows the one run has more. */
  lemma {:induction false} ExchangingTheRuns(a: seq<Row>, b: seq<Row>, keys: seq<Key>, order: Ordering)
    ensures Compared(a, b, keys) == Compared(b, a, keys)
    ensures Mirrors(Differing(a, b, keys, order), Differing(b, a, keys, order))
    ensures Unmatched(a, b, keys) - Unmatched(b, a, keys) == Excess(a, b, keys)
  {
    MirroredListing(a, b, keys, order);
    if keys != [] {
      var last := keys[|keys| - 1];
      ExchangingTheRuns(a, b, keys[..|keys| - 1], order);
      RemaindersBalance(Group(a, last), Group(b, last));
    }
  }

  /* ---------- The order of the rows ---------- */

  lemma {:induction false} ValuesSplit(a: seq<Row>, b: seq<Row>)
    ensures Values(a + b) == Values(a) + Values(b)
  {
    if a == [] {
      assert a + b == b;
    } else {
      assert (a + b)[1..] == a[1..] + b;
      ValuesSplit(a[1..], b);
    }
  }

  lemma ValuesAround(before: seq<Row>, row: Row, after: seq<Row>)
    ensures Values(before + [row] + after) == Values(before + after) + multiset{(row.value, row.unit)}
  {
    ValuesSplit(before + [row], after);
    ValuesSplit(before, [row]);
    ValuesSplit(before, after);
    OneValue(row);
  }

  lemma OneValue(row: Row)
    ensures Values([row]) == multiset{(row.value, row.unit)}
  {
    assert [row][1..] == [];
  }

  lemma RowsAround(before: seq<Row>, row: Row, after: seq<Row>, rest: multiset<Row>)
    requires multiset(before + [row] + after) == multiset{row} + rest
    ensures multiset(before + after) == rest
  {
    var x, y, one := multiset(before), multiset(after), multiset{row};
    assert multiset(before + [row] + after) == x + one + y;
    forall r ensures (x + y)[r] == rest[r] {
      assert (one + rest)[r] == one[r] + rest[r];
      assert (x + one + y)[r] == x[r] + one[r] + y[r];
    }
    assert x + y == rest;
  }

  lemma Position(rows: seq<Row>, row: Row) returns (before: seq<Row>, after: seq<Row>)
    requires multiset(rows)[row] > 0
    ensures rows == before + [row] + after
  {
    assert row in multiset(rows);
    var i :| 0 <= i < |rows| && rows[i] == row;
    before, after := rows[..i], rows[i + 1..];
  }

  lemma {:induction false} SameRowsSameValues(a: seq<Row>, b: seq<Row>)
    requires multiset(a) == multiset(b)
    ensures Values(a) == Values(b)
  {
    if a == [] {
      assert |multiset(b)| == 0;
    } else {
      SplitFirst(a);
      var before, after := Position(b, a[0]);
      RowsAround(before, a[0], after, multiset(a[1..]));
      SameRowsSameValues(a[1..], before + after);
      ValuesAround(before, a[0], after);
    }
  }

  lemma SplitFirst(a: seq<Row>)
    requires a != []
    ensures multiset(a) == multiset{a[0]} + multiset(a[1..])
    ensures Values(a) == multiset{(a[0].value, a[0].unit)} + Values(a[1..])
  {
    assert a == [a[0]] + a[1..];
  }

  lemma SameRowsSameGroup(a: seq<Row>, b: seq<Row>, key: Key)
    requires multiset(a) == multiset(b)
    ensures multiset(Group(a, key)) == multiset(Group(b, key))
  {
    forall r ensures multiset(Group(a, key))[r] == multiset(Group(b, key))[r] {
      GroupsPartition(a, key, r);
      GroupsPartition(b, key, r);
    }
  }

  lemma SameRowsSameFormulas(a: seq<Row>, b: seq<Row>)
    requires multiset(a) == multiset(b)
    ensures Formulas(a) == Formulas(b) && Keys(a) == Keys(b) && |a| == |b|
  {
    forall r ensures r in a <==> r in b { assert r in multiset(a) <==> r in multiset(b); }
    assert |multiset(a)| == |multiset(b)|;
  }

  lemma {:induction false} SameGroupsSameSums(a: seq<Row>, a': seq<Row>, b: seq<Row>, b': seq<Row>,
                                              keys: seq<Key>, order: Ordering)
    requires forall k :: Values(Group(a, k)) == Values(Group(a', k)) && Values(Group(b, k)) == Values(Group(b', k))
    requires forall k :: Formulas(Group(a, k)) == Formulas(Group(a', k))
    requires forall k :: Formulas(Group(b, k)) == Formulas(Group(b', k))
    requires forall k :: |Group(a, k)| == |Group(a', k)| && |Group(b, k)| == |Group(b', k)|
    ensures Compared(a, b, keys) == Compared(a', b', keys)
    ensures Unmatched(a, b, keys) == Unmatched(a', b', keys)
    ensures Differing(a, b, keys, order) == Differing(a', b', keys, order)
  {
    if keys != [] { SameGroupsSameSums(a, a', b, b', keys[..|keys| - 1], order); }
  }

  /** The whole report is the same however either run recorded its rows. */
  lemma OrderDecidesNothing(a: seq<Row>, a': seq<Row>, b: seq<Row>, b': seq<Row>,
                            sorted: set<Key> -> seq<Key>, order: Ordering)
    requires multiset(a) == multiset(a') && multiset(b) == multiset(b')
    ensures ReportOf(a, b, sorted, order) == ReportOf(a', b', sorted, order)
  {
    SameRowsSameFormulas(a, a');
    SameRowsSameFormulas(b, b');
    forall k
      ensures Values(Group(a, k)) == Values(Group(a', k)) && Formulas(Group(a, k)) == Formulas(Group(a', k))
      ensures |Group(a, k)| == |Group(a', k)|
    {
      SameRowsSameGroup(a, a', k);
      SameRowsSameValues(Group(a, k), Group(a', k));
      SameRowsSameFormulas(Group(a, k), Group(a', k));
    }
    forall k
      ensures Values(Group(b, k)) == Values(Group(b', k)) && Formulas(Group(b, k)) == Formulas(Group(b', k))
      ensures |Group(b, k)| == |Group(b', k)|
    {
      SameRowsSameGroup(b, b', k);
      SameRowsSameValues(Group(b, k), Group(b', k));
      SameRowsSameFormulas(Group(b, k), Group(b', k));
    }
    SameGroupsSameSums(a, a', b, b', sorted(Keys(a) * Keys(b)), order);
  }
}
