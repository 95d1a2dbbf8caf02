/** The independent reading of a subject's filed annual figures (audit/scoring/facts.py): which filing
    answers for a fiscal year as at a date, and the basket of figures built from the answers. */
module Facts {
  import opened Options

  datatype Date = Date(ordinal: int, year: int)

  /** One observation of the archived companyfacts. `filed` and the ordinals are day numbers; a missing
      accession number sorts first and is 0; `labelled` says that `fy` is an integer. */
  datatype Filing = Filing(
    annualForm: bool, fullYear: bool, labelled: bool, filed: int, accession: nat,
    start: Option<int>, end: Date, val: Option<real>)

  /** The units a tag is reported in, in the order they stand in the document. */
  type Units = seq<(string, seq<Filing>)>

  datatype Choice = Choice(latest: Filing, original: Option<Filing>, unit: string)

  /** What is asked of a tag: whether it is a balance at a date, and the date the reader stands at. */
  datatype Ask = Ask(instant: bool, asOf: int)

  predicate Accepted(unit: string) {
    unit in {"USD", "GBP", "EUR", "shares", "USD/shares", "GBP/shares", "pure"}
  }

  predicate Admissible(f: Filing, ask: Ask) {
    && f.annualForm && f.fullYear && f.labelled && f.filed <= ask.asOf
    && (ask.instant || (f.start.Some? && 340 <= f.end.ordinal - f.start.value <= 380))
  }

  /* ---------- Order within a unit ---------- */

  predicate NotAfter(a: Filing, b: Filing) {
    a.filed < b.filed || (a.filed == b.filed && a.accession <= b.accession)
  }

  /** Filed later, or on one day under a higher accession number. */
  ghost predicate Later(a: Filing, b: Filing) {
    a.filed > b.filed || (a.filed == b.filed && a.accession > b.accession)
  }

  lemma NotAfterExactly(a: Filing, b: Filing)
    ensures NotAfter(a, b) <==> !Later(a, b)
  {
  }

  ghost predicate Sorted(rows: seq<Filing>) {
    forall i, j :: 0 <= i < j < |rows| ==> NotAfter(rows[i], rows[j])
  }

  /** Behind everything it is not before, so rows with one key keep their order. */
  function Insert(rows: seq<Filing>, f: Filing): (r: seq<Filing>)
    ensures |r| == |rows| + 1
  {
    if rows == [] || NotAfter(rows[|rows| - 1], f) then rows + [f]
    else Insert(rows[..|rows| - 1], f) + [rows[|rows| - 1]]
  }

  /** The stable sort by filing date and accession number. */
  function Sort(rows: seq<Filing>): (r: seq<Filing>)
    ensures |r| == |rows|
  {
    if rows == [] then [] else Insert(Sort(rows[..|rows| - 1]), rows[|rows| - 1])
  }

  /** The last of the greatest, and the first of the least. */
  ghost predicate IsLatest(rows: seq<Filing>, f: Filing) {
    exists i :: 0 <= i < |rows| && rows[i] == f && LatestAt(rows, i)
  }

  ghost predicate LatestAt(rows: seq<Filing>, i: nat)
    requires i < |rows|
  {
    (forall j :: 0 <= j <= i ==> !Later(rows[j], rows[i])) && forall j :: i < j < |rows| ==> Later(rows[i], rows[j])
  }

  ghost predicate IsOriginal(rows: seq<Filing>, f: Filing) {
    exists i :: 0 <= i < |rows| && rows[i] == f && OriginalAt(rows, i)
  }

  ghost predicate OriginalAt(rows: seq<Filing>, i: nat)
    requires i < |rows|
  {
    (forall j :: 0 <= j < i ==> Later(rows[j], rows[i])) && forall j :: i <= j < |rows| ==> !Later(rows[i], rows[j])
  }

  lemma {:induction false} InsertEnds(rows: seq<Filing>, f: Filing)
    requires Sorted(rows)
    ensures Sorted(Insert(rows, f)) && multiset(Insert(rows, f)) == multiset(rows) + multiset{f}
    ensures Insert(rows, f)[|rows|] == if rows == [] || NotAfter(rows[|rows| - 1], f) then f else rows[|rows| - 1]
    ensures Insert(rows, f)[0] == if rows == [] || !NotAfter(rows[0], f) then f else rows[0]
  {
    if rows == [] {
    } else if NotAfter(rows[|rows| - 1], f) {
      SortedOnTop(rows, f);
    } else {
      var shorter, last := rows[..|rows| - 1], rows[|rows| - 1];
      assert NotAfter(f, last);
      hide NotAfter;
      InsertEnds(shorter, f);
      SortedBelow(rows);
      Inserted(shorter, f, Insert(shorter, f), last);
    }
  }

  lemma SortedBelow(rows: seq<Filing>)
    requires rows != [] && Sorted(rows)
    ensures var below, last := rows[..|rows| - 1], rows[|rows| - 1];
            Sorted(below) && forall g <- below :: NotAfter(g, last)
    ensures multiset(rows) == multiset(rows[..|rows| - 1]) + multiset{rows[|rows| - 1]}
  {
    hide NotAfter;
    assert rows == rows[..|rows| - 1] + [rows[|rows| - 1]];
  }

  lemma SortedOnTop(rows: seq<Filing>, f: Filing)
    requires Sorted(rows) && (rows == [] || NotAfter(rows[|rows| - 1], f))
    ensures Sorted(rows + [f])
  {
    forall i | 0 <= i < |rows| ensures NotAfter(rows[i], f) {
      assert i < |rows| - 1 ==> NotAfter(rows[i], rows[|rows| - 1]);
    }
  }

  lemma Inserted(rows: seq<Filing>, f: Filing, r: seq<Filing>, last: Filing)
    requires Sorted(r) && multiset(r) == multiset(rows) + multiset{f}
    requires (forall g <- rows :: NotAfter(g, last)) && NotAfter(f, last)
    ensures Sorted(r + [last])
  {
    hide NotAfter;
    forall i | 0 <= i < |r| ensures NotAfter(r[i], last) {
      assert r[i] in multiset(r);
      assert r[i] in multiset(rows) + multiset{f};
    }
  }

  lemma LatestOfMore(rows: seq<Filing>, f: Filing, latest: Filing)
    requires IsLatest(rows, latest)
    ensures IsLatest(rows + [f], if NotAfter(latest, f) then f else latest)
  {
    var i :| 0 <= i < |rows| && rows[i] == latest && LatestAt(rows, i);
    var more := rows + [f];
    if NotAfter(latest, f) {
      forall j | 0 <= j <= |rows| ensures !Later(more[j], f) {
        if j < |rows| { assert more[j] == rows[j]; }
      }
      assert LatestAt(more, |rows|);
    } else {
      assert LatestAt(more, i);
    }
  }

  lemma OriginalOfMore(rows: seq<Filing>, f: Filing, original: Filing)
    requires IsOriginal(rows, original)
    ensures IsOriginal(rows + [f], if NotAfter(original, f) then original else f)
  {
    var i :| 0 <= i < |rows| && rows[i] == original && OriginalAt(rows, i);
    var more := rows + [f];
    if NotAfter(original, f) {
      assert OriginalAt(more, i);
    } else {
      forall j | 0 <= j < |rows| ensures Later(more[j], f) {
        assert more[j] == rows[j] && (!Later(original, rows[j]) || j < i);
      }
      assert OriginalAt(more, |rows|);
    }
  }

  /** The two rows `_pick` takes from the sorted list are the ones the definitions name. */
  lemma {:induction false} SortEnds(rows: seq<Filing>)
    requires rows != []
    ensures Sorted(Sort(rows)) && multiset(Sort(rows)) == multiset(rows)
    ensures IsLatest(rows, Sort(rows)[|rows| - 1])
    ensures IsOriginal(rows, Sort(rows)[0])
  {
    var shorter, last := rows[..|rows| - 1], rows[|rows| - 1];
    assert rows == shorter + [last];
    if shorter == [] {
      assert Sort(rows) == Insert([], last) == [last];
      assert LatestAt(rows, 0) && OriginalAt(rows, 0);
    } else {
      SortEnds(shorter);
      InsertEnds(Sort(shorter), last);
      LatestOfMore(shorter, last, Sort(shorter)[|shorter| - 1]);
      OriginalOfMore(shorter, last, Sort(shorter)[0]);
    }
  }

  lemma OneLatest(rows: seq<Filing>, f: Filing, g: Filing)
    requires IsLatest(rows, f) && IsLatest(rows, g)
    ensures f == g
  {
    var i :| 0 <= i < |rows| && rows[i] == f && LatestAt(rows, i);
    var j :| 0 <= j < |rows| && rows[j] == g && LatestAt(rows, j);
  }

  lemma OneOriginal(rows: seq<Filing>, f: Filing, g: Filing)
    requires IsOriginal(rows, f) && IsOriginal(rows, g)
    ensures f == g
  {
    var i :| 0 <= i < |rows| && rows[i] == f && OriginalAt(rows, i);
    var j :| 0 <= j < |rows| && rows[j] == g && OriginalAt(rows, j);
  }

  /* ---------- One unit ---------- */

  /** The admissible observations of one fiscal year: the year the period ends in. */
  function Rows(filings: seq<Filing>, ask: Ask, year: int): seq<Filing> {
    if filings == [] then []
    else
      var last := filings[|filings| - 1];
      var before := Rows(filings[..|filings| - 1], ask, year);
      if Admissible(last, ask) && last.end.year == year then before + [last] else before
  }

  lemma {:induction false} InRows(filings: seq<Filing>, ask: Ask, year: int, f: Filing)
    ensures f in Rows(filings, ask, year) <==> f in filings && Admissible(f, ask) && f.end.year == year
  {
    if filings != [] {
      assert filings == filings[..|filings| - 1] + [filings[|filings| - 1]];
      InRows(filings[..|filings| - 1], ask, year, f);
    }
  }

  method Group(filings: seq<Filing>, ask: Ask) returns (byYear: map<int, seq<Filing>>)
    ensures forall y :: y in byYear <==> Rows(filings, ask, y) != []
    ensures forall y <- byYear :: byYear[y] == Rows(filings, ask, y)
  {
    byYear := map[];
    for i := 0 to |filings|
      invariant forall y :: y in byYear <==> Rows(filings[..i], ask, y) != []
      invariant forall y <- byYear :: byYear[y] == Rows(filings[..i], ask, y)
    {
      var f := filings[i];
      assert filings[..i + 1][..i] == filings[..i];
      if !f.annualForm || !f.fullYear || f.filed > ask.asOf { continue; }
      if !ask.instant {
        if f.start.None? { continue; }
        var days := f.end.ordinal - f.start.value;
        if days < 340 || days > 380 { continue; }
      }
      if !f.labelled { continue; }
      var year := f.end.year;
      byYear := byYear[year := (if year in byYear then byYear[year] else []) + [f]];
    }
    assert filings[..|filings|] == filings;
  }

  function ChoiceOf(rows: seq<Filing>, unit: string): Choice
    requires rows != []
  {
    var sorted := Sort(rows);
    Choice(sorted[|sorted| - 1], if |rows| == 1 then None else Some(sorted[0]), unit)
  }

  /* ---------- All units ---------- */

  /** A later unit replaces an earlier one only when its latest filing is strictly later. */
  function Merged(known: Option<Choice>, rows: seq<Filing>, unit: string): Option<Choice> {
    if rows == [] then known
    else if known.None? || ChoiceOf(rows, unit).latest.filed > known.value.latest.filed
    then Some(ChoiceOf(rows, unit))
    else known
  }

  function Lookup<K, V>(m: map<K, V>, k: K): Option<V> { if k in m then Some(m[k]) else None }

  /** The choice for one fiscal year after the units so far. */
  function Best(units: Units, ask: Ask, year: int): Option<Choice> {
    if units == [] then None
    else
      var before := Best(units[..|units| - 1], ask, year);
      var last := units[|units| - 1];
      if Accepted(last.0) then Merged(before, Rows(last.1, ask, year), last.0) else before
  }

  lemma Inhabited(years: set<int>)
    ensures years == {} || exists y :: y in years
  {
    if forall y :: y !in years { assert years <= {}; }
  }

  method Merge(known: map<int, Choice>, byYear: map<int, seq<Filing>>, unit: string)
      returns (chosen: map<int, Choice>)
    requires forall y <- byYear :: byYear[y] != []
    ensures forall y :: Lookup(chosen, y) == Merged(Lookup(known, y), if y in byYear then byYear[y] else [], unit)
  {
    hide ChoiceOf;
    chosen := known;
    var todo: set<int> := byYear.Keys;
    while todo != {}
      invariant todo <= byYear.Keys
      invariant forall y :: y in byYear && y !in todo ==> Lookup(chosen, y) == Merged(Lookup(known, y), byYear[y], unit)
      invariant forall y :: y !in byYear || y in todo ==> Lookup(chosen, y) == Lookup(known, y)
      decreases |todo|
    {
      Inhabited(todo);
      var year :| year in todo;
      todo := todo - {year};
      var choice := ChoiceOf(byYear[year], unit);
      if year !in chosen || choice.latest.filed > chosen[year].latest.filed {
        chosen := chosen[year := choice];
      }
    }
  }

  method Pick(units: Units, ask: Ask) returns (chosen: map<int, Choice>)
    ensures forall y :: Lookup(chosen, y) == Best(units, ask, y)
  {
    chosen := map[];
    for i := 0 to |units|
      invariant forall y :: Lookup(chosen, y) == Best(units[..i], ask, y)
    {
      var (unit, filings) := units[i];
      assert units[..i + 1][..i] == units[..i];
      if unit !in {"USD", "GBP", "EUR", "shares", "USD/shares", "GBP/shares", "pure"} { continue; }
      var byYear := Group(filings, ask);
      ghost var before := chosen;
      chosen := Merge(chosen, byYear, unit);
      forall y ensures Lookup(chosen, y) == Best(units[..i + 1], ask, y) {
        assert Lookup(before, y) == Best(units[..i], ask, y);
      }
    }
    assert units[..|units|] == units;
  }

  /* ---------- What the choice is ---------- */

  /** The rows unit k offers for a year. */
  function Offered(units: Units, ask: Ask, year: int, k: nat): seq<Filing>
    requires k < |units|
  {
    if Accepted(units[k].0) then Rows(units[k].1, ask, year) else []
  }

  /** The last and the first of a unit's rows. */
  ghost predicate Reads(rows: seq<Filing>, unit: string, c: Choice) {
    && c.unit == unit && IsLatest(rows, c.latest)
    && (if |rows| == 1 then c.original.None? else c.original.Some? && IsOriginal(rows, c.original.value))
  }

  /** No row at all was filed later, and none of an earlier unit as late. */
  ghost predicate Tops(units: Units, ask: Ask, year: int, k: nat, filed: int) {
    forall j, f :: 0 <= j < |units| && f in Offered(units, ask, year, j) ==>
      f.filed <= filed && (j < k ==> f.filed < filed)
  }

  ghost predicate ChosenFrom(units: Units, ask: Ask, year: int, k: nat, c: Choice)
    requires k < |units|
  {
    Reads(Offered(units, ask, year, k), units[k].0, c) && Tops(units, ask, year, k, c.latest.filed)
  }

  ghost predicate IsChoice(units: Units, ask: Ask, year: int, c: Choice) {
    exists k :: 0 <= k < |units| && ChosenFrom(units, ask, year, k, c)
  }

  lemma LatestIsMost(rows: seq<Filing>, f: Filing)
    requires IsLatest(rows, f)
    ensures f in rows && forall g <- rows :: g.filed <= f.filed
  {
    var i :| 0 <= i < |rows| && rows[i] == f && LatestAt(rows, i);
    forall g | g in rows ensures g.filed <= f.filed {
      var j :| 0 <= j < |rows| && rows[j] == g;
    }
  }

  lemma ChoiceOfRows(rows: seq<Filing>, unit: string)
    requires rows != []
    ensures Reads(rows, unit, ChoiceOf(rows, unit))
    ensures forall g <- rows :: g.filed <= ChoiceOf(rows, unit).latest.filed
  {
    SortEnds(rows);
    LatestIsMost(rows, ChoiceOf(rows, unit).latest);
  }

  lemma OfferedBefore(units: Units, ask: Ask, year: int)
    requires units != []
    ensures forall j :: 0 <= j < |units| - 1 ==>
              Offered(units[..|units| - 1], ask, year, j) == Offered(units, ask, year, j)
  {
  }

  /** With one more unit, the choice so far stays unless that unit's latest is strictly later. */
  lemma OneMoreUnit(units: Units, ask: Ask, year: int, k: nat, c: Choice)
    requires 0 <= k < |units| - 1
    requires ChosenFrom(units[..|units| - 1], ask, year, k, c)
    ensures var rows := Offered(units, ask, year, |units| - 1);
            if rows == [] || ChoiceOf(rows, units[|units| - 1].0).latest.filed <= c.latest.filed
            then ChosenFrom(units, ask, year, k, c)
            else ChosenFrom(units, ask, year, |units| - 1, ChoiceOf(rows, units[|units| - 1].0))
  {
    var rows := Offered(units, ask, year, |units| - 1);
    OfferedBefore(units, ask, year);
    if rows != [] { ChoiceOfRows(rows, units[|units| - 1].0); }
    forall j, f | 0 <= j < |units| - 1 && f in Offered(units, ask, year, j)
      ensures f.filed <= c.latest.filed && (j < k ==> f.filed < c.latest.filed)
    {
      assert f in Offered(units[..|units| - 1], ask, year, j);
    }
  }

  lemma {:induction false} BestIsAChoice(units: Units, ask: Ask, year: int)
    ensures Best(units, ask, year).Some? ==> IsChoice(units, ask, year, Best(units, ask, year).value)
    ensures Best(units, ask, year).None? ==> forall j :: 0 <= j < |units| ==> Offered(units, ask, year, j) == []
  {
    hide ChoiceOf;
    if units != [] {
      var shorter, n := units[..|units| - 1], |units| - 1;
      BestIsAChoice(shorter, ask, year);
      OfferedBefore(units, ask, year);
      var before, rows := Best(shorter, ask, year), Offered(units, ask, year, n);
      if before.Some? {
        var k :| 0 <= k < n && ChosenFrom(shorter, ask, year, k, before.value);
        OneMoreUnit(units, ask, year, k, before.value);
      } else if rows != [] {
        ChoiceOfRows(rows, units[n].0);
        assert ChosenFrom(units, ask, year, n, ChoiceOf(rows, units[n].0));
      }
    }
  }

  lemma OneReading(rows: seq<Filing>, unit: string, c: Choice, d: Choice)
    requires Reads(rows, unit, c) && Reads(rows, unit, d)
    ensures c == d
  {
    OneLatest(rows, c.latest, d.latest);
    if |rows| != 1 { OneOriginal(rows, c.original.value, d.original.value); }
  }

  lemma OneChoice(units: Units, ask: Ask, year: int, c: Choice, d: Choice)
    requires IsChoice(units, ask, year, c) && IsChoice(units, ask, year, d)
    ensures c == d
  {
    var k :| 0 <= k < |units| && ChosenFrom(units, ask, year, k, c);
    var l :| 0 <= l < |units| && ChosenFrom(units, ask, year, l, d);
    LatestIsMost(Offered(units, ask, year, k), c.latest);
    LatestIsMost(Offered(units, ask, year, l), d.latest);
    assert k == l;
    OneReading(Offered(units, ask, year, k), units[k].0, c, d);
  }

  /** The loop answers with the choice and with nothing else. */
  lemma BestIsExactlyTheChoice(units: Units, ask: Ask, year: int, c: Choice)
    ensures Best(units, ask, year) == Some(c) <==> IsChoice(units, ask, year, c)
  {
    BestIsAChoice(units, ask, year);
    if IsChoice(units, ask, year, c) {
      var k :| 0 <= k < |units| && ChosenFrom(units, ask, year, k, c);
      LatestIsMost(Offered(units, ask, year, k), c.latest);
      OneChoice(units, ask, year, c, Best(units, ask, year).value);
    }
  }

  ghost predicate Offers(units: Units, ask: Ask, year: int, k: nat, f: Filing)
    requires k < |units|
  {
    Accepted(units[k].0) && f in units[k].1 && Admissible(f, ask) && f.end.year == year
  }

  /** A year appears exactly when some accepted unit has an admissible observation of it. */
  lemma YearAppearsExactly(units: Units, ask: Ask, year: int)
    ensures Best(units, ask, year).Some? <==> exists k, f :: 0 <= k < |units| && Offers(units, ask, year, k, f)
  {
    BestIsAChoice(units, ask, year);
    if Best(units, ask, year).Some? {
      var c := Best(units, ask, year).value;
      var k :| 0 <= k < |units| && ChosenFrom(units, ask, year, k, c);
      LatestIsMost(Offered(units, ask, year, k), c.latest);
      InRows(units[k].1, ask, year, c.latest);
      assert Offers(units, ask, year, k, c.latest);
    }
    forall k, f | 0 <= k < |units| && Offers(units, ask, year, k, f) ensures Offered(units, ask, year, k) != [] {
      InRows(units[k].1, ask, year, f);
    }
  }

  /* ---------- Standing at a date ---------- */

  /** The document as it stood at a date. */
  function Known(filings: seq<Filing>, asOf: int): seq<Filing> {
    if filings == [] then []
    else
      var last := filings[|filings| - 1];
      var before := Known(filings[..|filings| - 1], asOf);
      if last.filed <= asOf then before + [last] else before
  }

  function KnownUnits(units: Units, asOf: int): Units {
    if units == [] then []
    else
      var last := units[|units| - 1];
      KnownUnits(units[..|units| - 1], asOf) + [(last.0, Known(last.1, asOf))]
  }

  lemma {:induction false} RowsOfKnown(filings: seq<Filing>, ask: Ask, year: int)
    ensures Rows(Known(filings, ask.asOf), ask, year) == Rows(filings, ask, year)
  {
    if filings != [] {
      var last, before := filings[|filings| - 1], Known(filings[..|filings| - 1], ask.asOf);
      RowsOfKnown(filings[..|filings| - 1], ask, year);
      if last.filed <= ask.asOf { RowsOfOneMore(before, last, ask, year); }
    }
  }

  lemma RowsOfOneMore(filings: seq<Filing>, f: Filing, ask: Ask, year: int)
    ensures Rows(filings + [f], ask, year) ==
            if Admissible(f, ask) && f.end.year == year then Rows(filings, ask, year) + [f] else Rows(filings, ask, year)
  {
    assert (filings + [f])[..|filings|] == filings;
  }

  /** Nothing filed after the date can change the answer: it is the answer the document of that date
      would have given. */
  lemma {:induction false} NoHindsight(units: Units, ask: Ask, year: int)
    ensures Best(KnownUnits(units, ask.asOf), ask, year) == Best(units, ask, year)
  {
    if units != [] {
      var last, before := units[|units| - 1], KnownUnits(units[..|units| - 1], ask.asOf);
      NoHindsight(units[..|units| - 1], ask, year);
      RowsOfKnown(last.1, ask, year);
      assert (before + [(last.0, Known(last.1, ask.asOf))])[..|before|] == before;
    }
  }

  /** Standing later never drops a year, and never answers with an earlier filing. */
  lemma LaterNeverLoses(units: Units, instant: bool, early: int, late: int, year: int)
    requires early <= late && Best(units, Ask(instant, early), year).Some?
    ensures Best(units, Ask(instant, late), year).Some?
    ensures Best(units, Ask(instant, early), year).value.latest.filed
         <= Best(units, Ask(instant, late), year).value.latest.filed
  {
    var ask, later := Ask(instant, early), Ask(instant, late);
    BestIsAChoice(units, ask, year);
    BestIsAChoice(units, later, year);
    var c := Best(units, ask, year).value;
    var k :| 0 <= k < |units| && ChosenFrom(units, ask, year, k, c);
    LatestIsMost(Offered(units, ask, year, k), c.latest);
    InRows(units[k].1, ask, year, c.latest);
    InRows(units[k].1, later, year, c.latest);
    assert c.latest in Offered(units, later, year, k);
  }

  /* ---------- The basket ---------- */

  datatype Observation = Observation(
    concept: string, tag: string, fiscalYear: int, end: Date, value: real, unit: string,
    filed: int, accession: nat, originalValue: Option<real>, originalFiled: Option<int>)

  /** A tag's choice as an observation of a concept; nothing when its value does not read as a number. */
  function Observed(concept: string, tag: string, year: int, c: Option<Choice>): Option<Observation> {
    if c.None? || c.value.latest.val.None? then None
    else
      var latest, original := c.value.latest, c.value.original;
      Some(Observation(concept, tag, year, latest.end, latest.val.value, c.value.unit, latest.filed, latest.accession,
        if original.Some? then original.value.val else None,
        if original.Some? then Some(original.value.filed) else None))
  }

  /** A choice is reported exactly when its latest filing has a value: that filing's end, value, date and accession
      number, the unit, and beside them what the original filing said, if there is another. */
  lemma ObservedExactly(concept: string, tag: string, year: int, c: Option<Choice>)
    ensures Observed(concept, tag, year, c).Some? <==> exists choice, v :: c == Some(choice) && choice.latest.val == Some(v)
    ensures Observed(concept, tag, year, c).Some? ==>
      var o, latest := Observed(concept, tag, year, c).value, c.value.latest;
      && o.concept == concept && o.tag == tag && o.fiscalYear == year && o.unit == c.value.unit
      && o.end == latest.end && Some(o.value) == latest.val && o.filed == latest.filed && o.accession == latest.accession
      && match c.value.original
         case None => o.originalValue.None? && o.originalFiled.None?
         case Some(first) => o.originalValue == first.val && o.originalFiled == Some(first.filed)
  {
    if c.Some? && c.value.latest.val.Some? {
      assert c == Some(c.value) && c.value.latest.val == Some(c.value.latest.val.value);
    }
  }

  /** The archived document: each tag's units. */
  type Document = map<string, Units>

  function FromTag(doc: Document, concept: string, tag: string, ask: Ask, year: int): (o: Option<Observation>)
    ensures o.Some? ==> o.value.concept == concept && o.value.tag == tag && o.value.fiscalYear == year
  {
    if tag !in doc then None else Observed(concept, tag, year, Best(doc[tag], ask, year))
  }

  /** The earliest tag in the list that yields a usable value for the year. */
  function FromTags(doc: Document, concept: string, tags: seq<string>, ask: Ask, year: int): (o: Option<Observation>)
    ensures o.Some? ==> o.value.concept == concept && o.value.fiscalYear == year && o.value.tag in tags
    ensures o.None? <==> forall t <- tags :: FromTag(doc, concept, t, ask, year).None?
  {
    if tags == [] then None
    else
      var last := tags[|tags| - 1];
      assert tags == tags[..|tags| - 1] + [last];
      var before := FromTags(doc, concept, tags[..|tags| - 1], ask, year);
      if before.Some? then before else FromTag(doc, concept, last, ask, year)
  }

  lemma {:induction false} EarliestUsableTag(doc: Document, concept: string, tags: seq<string>, ask: Ask, year: int, i: nat)
    requires i < |tags| && FromTag(doc, concept, tags[i], ask, year).Some?
    requires forall t <- tags[..i] :: FromTag(doc, concept, t, ask, year).None?
    ensures FromTags(doc, concept, tags, ask, year) == FromTag(doc, concept, tags[i], ask, year)
  {
    if i < |tags| - 1 {
      assert tags[..|tags| - 1][..i] == tags[..i];
      EarliestUsableTag(doc, concept, tags[..|tags| - 1], ask, year, i);
      assert tags[i] in tags[..|tags| - 1];
    }
  }

  predicate Has(observations: seq<Observation>, concept: string, year: int) {
    exists o <- observations :: o.concept == concept && o.fiscalYear == year
  }

  /** At most one observation for a concept and year. */
  ghost predicate Basket(observations: seq<Observation>) {
    forall i, j :: 0 <= i < j < |observations| ==>
      observations[i].concept != observations[j].concept || observations[i].fiscalYear != observations[j].fiscalYear
  }

  /** The concept's observations are exactly its answers, year by year. */
  ghost predicate Answers(observations: seq<Observation>, concept: string, answer: int -> Option<Observation>) {
    && (forall o <- observations :: o.concept == concept ==> answer(o.fiscalYear) == Some(o))
    && forall y :: answer(y).Some? ==> Has(observations, concept, y)
  }

  ghost predicate SameElsewhere(before: seq<Observation>, after: seq<Observation>, concept: string) {
    forall o: Observation :: o.concept != concept ==> (o in before <==> o in after)
  }

  lemma OneMoreObservation(observations: seq<Observation>, o: Observation)
    requires Basket(observations) && !Has(observations, o.concept, o.fiscalYear)
    ensures Basket(observations + [o]) && SameElsewhere(observations, observations + [o], o.concept)
    ensures forall c, y :: Has(observations + [o], c, y) <==> Has(observations, c, y) || (c == o.concept && y == o.fiscalYear)
  {
    var more := observations + [o];
    assert forall p :: p in more <==> p in observations || p == o;
    forall c, y ensures Has(more, c, y) <==> Has(observations, c, y) || (c == o.concept && y == o.fiscalYear) {
      if c == o.concept && y == o.fiscalYear { assert o in more; }
    }
    forall i | 0 <= i < |observations|
      ensures observations[i].concept != o.concept || observations[i].fiscalYear != o.fiscalYear
    {
      assert observations[i] in observations;
    }
  }

  /** The inner loop: what one tag adds for the years it has and no earlier tag answered. */
  method ReadTag(observations: seq<Observation>, concept: string, tag: string, units: Units, ask: Ask)
      returns (more: seq<Observation>)
    requires Basket(observations)
    ensures Basket(more) && SameElsewhere(observations, more, concept)
    ensures forall o <- more :: o in observations ||
              (!Has(observations, concept, o.fiscalYear)
               && Observed(concept, tag, o.fiscalYear, Best(units, ask, o.fiscalYear)) == Some(o))
    ensures forall o <- observations :: o in more
    ensures forall y :: Has(more, concept, y) <==>
              Has(observations, concept, y) || Observed(concept, tag, y, Best(units, ask, y)).Some?
  {
    more := observations;
    var picked := Pick(units, ask);
    forall y ensures y !in picked ==> Best(units, ask, y).None? {
      assert Lookup(picked, y) == Best(units, ask, y);
    }
    var todo: set<int> := picked.Keys;
    while todo != {}
      invariant todo <= picked.Keys
      invariant Basket(more) && SameElsewhere(observations, more, concept)
      invariant forall o <- observations :: o in more
      invariant forall o <- more :: o in observations ||
                  (!Has(observations, concept, o.fiscalYear)
                   && Observed(concept, tag, o.fiscalYear, Best(units, ask, o.fiscalYear)) == Some(o))
      invariant forall y :: Has(more, concept, y) <==>
                  Has(observations, concept, y) ||
                  (y in picked && y !in todo && Observed(concept, tag, y, Best(units, ask, y)).Some?)
      decreases |todo|
    {
      Inhabited(todo);
      var year :| year in todo;
      todo := todo - {year};
      assert Lookup(picked, year) == Best(units, ask, year);
      if Has(more, concept, year) { continue; }
      var observed := Observed(concept, tag, year, Some(picked[year]));
      if observed.None? { continue; }
      OneMoreObservation(more, observed.value);
      more := more + [observed.value];
    }
  }

  lemma TagAnswers(observations: seq<Observation>, more: seq<Observation>, doc: Document,
                   concept: string, tags: seq<string>, tag: string, ask: Ask)
    requires Answers(observations, concept, y => FromTags(doc, concept, tags, ask, y))
    requires SameElsewhere(observations, more, concept) && forall o <- observations :: o in more
    requires forall o <- more :: o in observations ||
               (!Has(observations, concept, o.fiscalYear) && FromTag(doc, concept, tag, ask, o.fiscalYear) == Some(o))
    requires forall y :: Has(more, concept, y) <==>
               Has(observations, concept, y) || FromTag(doc, concept, tag, ask, y).Some?
    ensures Answers(more, concept, y => FromTags(doc, concept, tags + [tag], ask, y))
  {
    assert (tags + [tag])[..|tags|] == tags;
    forall o | o in more && o.concept == concept
      ensures FromTags(doc, concept, tags + [tag], ask, o.fiscalYear) == Some(o)
    {
      if o !in observations {
        assert (y => FromTags(doc, concept, tags, ask, y))(o.fiscalYear).None?;
      }
    }
  }

  /** The middle loop. */
  method ReadConcept(observations: seq<Observation>, doc: Document, concept: string, tags: seq<string>, ask: Ask)
      returns (more: seq<Observation>)
    requires Basket(observations) && forall o <- observations :: o.concept != concept
    ensures Basket(more) && SameElsewhere(observations, more, concept)
    ensures Answers(more, concept, y => FromTags(doc, concept, tags, ask, y))
  {
    more := observations;
    for i := 0 to |tags|
      invariant Basket(more) && SameElsewhere(observations, more, concept)
      invariant Answers(more, concept, y => FromTags(doc, concept, tags[..i], ask, y))
    {
      assert tags[..i + 1] == tags[..i] + [tags[i]];
      ghost var before := more;
      if tags[i] in doc { more := ReadTag(more, concept, tags[i], doc[tags[i]], ask); }
      TagAnswers(before, more, doc, concept, tags[..i], tags[i], ask);
    }
    assert tags[..|tags|] == tags;
  }

  datatype Entry = Entry(concept: string, tags: seq<string>, instant: bool)

  /** Every concept of the table is answered by its own tags, and nothing else is in the basket. */
  ghost predicate Built(observations: seq<Observation>, doc: Document, table: seq<Entry>, asOf: int) {
    && Basket(observations)
    && (forall e <- table :: Answers(observations, e.concept, y => FromTags(doc, e.concept, e.tags, Ask(e.instant, asOf), y)))
    && forall o <- observations :: exists e <- table :: e.concept == o.concept
  }

  lemma AnswersElsewhere(before: seq<Observation>, after: seq<Observation>, concept: string, other: string,
                         answer: int -> Option<Observation>)
    requires SameElsewhere(before, after, concept) && other != concept && Answers(before, other, answer)
    ensures Answers(after, other, answer)
  {
    forall y | answer(y).Some? ensures Has(after, other, y) {
      assert Has(before, other, y);
      var o :| o in before && o.concept == other && o.fiscalYear == y;
      assert o in after;
    }
  }

  lemma OneMoreEntry(before: seq<Observation>, after: seq<Observation>, doc: Document, table: seq<Entry>, e: Entry, asOf: int)
    requires Built(before, doc, table, asOf) && forall d <- table :: d.concept != e.concept
    requires Basket(after) && SameElsewhere(before, after, e.concept)
    requires Answers(after, e.concept, y => FromTags(doc, e.concept, e.tags, Ask(e.instant, asOf), y))
    ensures Built(after, doc, table + [e], asOf)
  {
    var more := table + [e];
    forall d | d in more
      ensures Answers(after, d.concept, y => FromTags(doc, d.concept, d.tags, Ask(d.instant, asOf), y))
    {
      if d in table {
        AnswersElsewhere(before, after, e.concept, d.concept, y => FromTags(doc, d.concept, d.tags, Ask(d.instant, asOf), y));
      }
    }
    forall o | o in after ensures exists d <- more :: d.concept == o.concept {
      if o.concept == e.concept {
        assert e in more;
      } else {
        assert o in before;
        var d :| d in table && d.concept == o.concept;
        assert d in more;
      }
    }
  }

  method BuildTruth(doc: Document, table: seq<Entry>, asOf: int) returns (observations: seq<Observation>)
    requires forall i, j :: 0 <= i < j < |table| ==> table[i].concept != table[j].concept
    ensures Built(observations, doc, table, asOf)
  {
    observations := [];
    for i := 0 to |table|
      invariant Built(observations, doc, table[..i], asOf)
    {
      var e := table[i];
      assert table[..i + 1] == table[..i] + [e];
      ghost var before := observations;
      forall o | o in observations ensures o.concept != e.concept {
        var d :| d in table[..i] && d.concept == o.concept;
        var k :| 0 <= k < i && table[k] == d;
      }
      observations := ReadConcept(observations, doc, e.concept, e.tags, Ask(e.instant, asOf));
      OneMoreEntry(before, observations, doc, table[..i], e, asOf);
    }
    assert table[..|table|] == table;
  }

  /** The fiscal year of an observation is the year its period ends in, whatever the filing called it. */
  lemma FiscalYearIsTheEnds(doc: Document, table: seq<Entry>, asOf: int, observations: seq<Observation>, o: Observation)
    requires Built(observations, doc, table, asOf) && o in observations
    ensures o.end.year == o.fiscalYear && o.filed <= asOf
  {
    var e :| e in table && e.concept == o.concept;
    assert Answers(observations, e.concept, y => FromTags(doc, e.concept, e.tags, Ask(e.instant, asOf), y));
    var ask := Ask(e.instant, asOf);
    AnswerEnds(doc, e.concept, e.tags, ask, o.fiscalYear);
  }

  lemma {:induction false} AnswerEnds(doc: Document, concept: string, tags: seq<string>, ask: Ask, year: int)
    ensures var o := FromTags(doc, concept, tags, ask, year); o.Some? ==> o.value.end.year == year && o.value.filed <= ask.asOf
  {
    if tags != [] {
      AnswerEnds(doc, concept, tags[..|tags| - 1], ask, year);
      var tag := tags[|tags| - 1];
      if FromTag(doc, concept, tag, ask, year).Some? {
        BestIsAChoice(doc[tag], ask, year);
        var c := Best(doc[tag], ask, year).value;
        var k :| 0 <= k < |doc[tag]| && ChosenFrom(doc[tag], ask, year, k, c);
        LatestIsMost(Offered(doc[tag], ask, year, k), c.latest);
        InRows(doc[tag][k].1, ask, year, c.latest);
      }
    }
  }

  /** Two readings of one document hold the same observations, in whatever order. */
  lemma OneBasket(a: seq<Observation>, b: seq<Observation>, doc: Document, table: seq<Entry>, asOf: int, o: Observation)
    requires Built(a, doc, table, asOf) && Built(b, doc, table, asOf)
    ensures o in a <==> o in b
  {
    if o in a { InBoth(a, b, doc, table, asOf, o); }
    if o in b { InBoth(b, a, doc, table, asOf, o); }
  }

  lemma InBoth(a: seq<Observation>, b: seq<Observation>, doc: Document, table: seq<Entry>, asOf: int, o: Observation)
    requires Built(a, doc, table, asOf) && Built(b, doc, table, asOf) && o in a
    ensures o in b
  {
    var e :| e in table && e.concept == o.concept;
    var answer := y => FromTags(doc, e.concept, e.tags, Ask(e.instant, asOf), y);
    assert Answers(a, e.concept, answer) && Answers(b, e.concept, answer);
    assert answer(o.fiscalYear) == Some(o);
    assert Has(b, e.concept, o.fiscalYear);
  }

  /* ---------- Figures derived from the basket ---------- */

  /** The first observation of a concept and year. */
  function Filed(observations: seq<Observation>, concept: string, year: int): (v: Option<real>)
    ensures v.Some? <==> Has(observations, concept, year)
    ensures v.Some? ==> exists o <- observations :: o.concept == concept && o.fiscalYear == year && o.value == v.value
  {
    if observations == [] then None
    else
      var o := observations[0];
      assert observations == [o] + observations[1..];
      if o.concept == concept && o.fiscalYear == year then Some(o.value) else Filed(observations[1..], concept, year)
  }

  lemma FiledIs(observations: seq<Observation>, o: Observation)
    requires Basket(observations) && o in observations
    ensures Filed(observations, o.concept, o.fiscalYear) == Some(o.value)
  {
    var p :| p in observations && p.concept == o.concept && p.fiscalYear == o.fiscalYear
             && p.value == Filed(observations, o.concept, o.fiscalYear).value;
    var i :| 0 <= i < |observations| && observations[i] == o;
    var j :| 0 <= j < |observations| && observations[j] == p;
  }

  /** The observation at index `i` is the first of its concept and year. */
  ghost predicate FiledAt(observations: seq<Observation>, i: int, concept: string, year: int) {
    && 0 <= i < |observations| && observations[i].concept == concept && observations[i].fiscalYear == year
    && forall j :: 0 <= j < i ==> observations[j].concept != concept || observations[j].fiscalYear != year
  }

  ghost predicate Reports(observations: seq<Observation>, concept: string, year: int, v: Option<real>) {
    match v
    case None => forall o <- observations :: o.concept != concept || o.fiscalYear != year
    case Some(value) => exists i :: FiledAt(observations, i, concept, year) && observations[i].value == value
  }

  /** The figure filed for a concept and year is that of its first observation. */
  lemma {:induction false} FiledIsFirst(observations: seq<Observation>, concept: string, year: int)
    ensures Reports(observations, concept, year, Filed(observations, concept, year))
  {
    if observations != [] {
      var o, rest := observations[0], observations[1..];
      assert observations == [o] + rest;
      if o.concept == concept && o.fiscalYear == year {
        assert FiledAt(observations, 0, concept, year);
      } else {
        FiledIsFirst(rest, concept, year);
        if Filed(rest, concept, year).Some? {
          var i :| FiledAt(rest, i, concept, year) && rest[i].value == Filed(rest, concept, year).value;
          assert FiledAt(observations, i + 1, concept, year);
        }
      }
    }
  }

  datatype Derivation = GrossMargin | OperatingMargin | NetMargin | RevenueGrowth | FreeCashFlow | ReturnOnEquity | NetIncomeGrowth

  function NameOf(d: Derivation): string {
    match d
    case GrossMargin => "gross_margin"
    case OperatingMargin => "operating_margin"
    case NetMargin => "net_margin"
    case RevenueGrowth => "revenue_growth"
    case FreeCashFlow => "free_cash_flow"
    case ReturnOnEquity => "roe"
    case NetIncomeGrowth => "net_income_growth"
  }

  predicate NonZero(v: Option<real>) { v.Some? && v.value != 0.0 }

  function Abs(x: real): real { if x < 0.0 then -x else x }

  function Share(part: Option<real>, whole: Option<real>): Option<real> {
    if part.Some? && NonZero(whole) then Some(part.value / whole.value) else None
  }

  function Growth(now: Option<real>, before: Option<real>): Option<real> {
    if now.Some? && NonZero(before) then Some(now.value / before.value - 1.0) else None
  }

  function FreeCash(cfo: Option<real>, capex: Option<real>): Option<real> {
    if cfo.Some? && capex.Some? then Some(cfo.value - Abs(capex.value)) else None
  }

  /** What the basket holds for a year and, of revenue and net income, for the year before. */
  datatype Figures = Figures(
    revenue: Option<real>, grossProfit: Option<real>, operatingIncome: Option<real>, netIncome: Option<real>,
    operatingCash: Option<real>, capex: Option<real>, equity: Option<real>,
    lastRevenue: Option<real>, lastIncome: Option<real>)

  function FiguresOf(observations: seq<Observation>, year: int): Figures {
    var filed := (concept, y) => Filed(observations, concept, y);
    Figures(filed("revenue", year), filed("gross_profit", year), filed("operating_income", year), filed("net_income", year),
      filed("operating_cash_flow", year), filed("capex", year), filed("equity", year),
      filed("revenue", year - 1), filed("net_income", year - 1))
  }

  /** Each figure is the one filed under its own name: for the year, and for the year before where growth needs
      it. */
  lemma FiguresAre(observations: seq<Observation>, year: int)
    ensures var f := FiguresOf(observations, year);
            && Reports(observations, "revenue", year, f.revenue)
            && Reports(observations, "gross_profit", year, f.grossProfit)
            && Reports(observations, "operating_income", year, f.operatingIncome)
            && Reports(observations, "net_income", year, f.netIncome)
            && Reports(observations, "operating_cash_flow", year, f.operatingCash)
            && Reports(observations, "capex", year, f.capex)
            && Reports(observations, "equity", year, f.equity)
            && Reports(observations, "revenue", year - 1, f.lastRevenue)
            && Reports(observations, "net_income", year - 1, f.lastIncome)
  {
    hide Reports, Filed;
    FiledIsFirst(observations, "revenue", year);
    FiledIsFirst(observations, "gross_profit", year);
    FiledIsFirst(observations, "operating_income", year);
    FiledIsFirst(observations, "net_income", year);
    FiledIsFirst(observations, "operating_cash_flow", year);
    FiledIsFirst(observations, "capex", year);
    FiledIsFirst(observations, "equity", year);
    FiledIsFirst(observations, "revenue", year - 1);
    FiledIsFirst(observations, "net_income", year - 1);
  }

  function Derived(f: Figures, d: Derivation): Option<real> {
    match d
    case GrossMargin => Share(f.grossProfit, f.revenue)
    case OperatingMargin => Share(f.operatingIncome, f.revenue)
    case NetMargin => Share(f.netIncome, f.revenue)
    case RevenueGrowth => if NonZero(f.revenue) then Growth(f.revenue, f.lastRevenue) else None
    case FreeCashFlow => FreeCash(f.operatingCash, f.capex)
    case ReturnOnEquity => Share(f.netIncome, f.equity)
    case NetIncomeGrowth => Growth(f.netIncome, f.lastIncome)
  }

  function Put(known: map<(Derivation, int), real>, d: Derivation, year: int, v: Option<real>): (out: map<(Derivation, int), real>)
    ensures forall e, y :: Lookup(out, (e, y)) == if e == d && y == year && v.Some? then v else Lookup(known, (e, y))
  {
    if v.Some? then known[(d, year) := v.value] else known
  }

  method DeriveYear(f: Figures, year: int, known: map<(Derivation, int), real>) returns (out: map<(Derivation, int), real>)
    ensures forall d, y :: Lookup(out, (d, y)) ==
              if y == year && Derived(f, d).Some? then Derived(f, d) else Lookup(known, (d, y))
  {
    out := known;
    if NonZero(f.revenue) {
      out := Put(out, GrossMargin, year, Share(f.grossProfit, f.revenue));
      out := Put(out, OperatingMargin, year, Share(f.operatingIncome, f.revenue));
      out := Put(out, NetMargin, year, Share(f.netIncome, f.revenue));
      out := Put(out, RevenueGrowth, year, Growth(f.revenue, f.lastRevenue));
    }
    out := Put(out, FreeCashFlow, year, FreeCash(f.operatingCash, f.capex));
    out := Put(out, ReturnOnEquity, year, Share(f.netIncome, f.equity));
    out := Put(out, NetIncomeGrowth, year, Growth(f.netIncome, f.lastIncome));
  }

  /** A part of a whole: the share times the whole is the part. */
  ghost predicate IsShare(part: Option<real>, whole: Option<real>, v: real) {
    part.Some? && NonZero(whole) && v * whole.value == part.value
  }

  ghost predicate IsGrowth(now: Option<real>, before: Option<real>, v: real) {
    now.Some? && NonZero(before) && (1.0 + v) * before.value == now.value
  }

  /** What a derived figure means, without dividing. */
  ghost predicate Derives(f: Figures, d: Derivation, v: real) {
    match d
    case GrossMargin => IsShare(f.grossProfit, f.revenue, v)
    case OperatingMargin => IsShare(f.operatingIncome, f.revenue, v)
    case NetMargin => IsShare(f.netIncome, f.revenue, v)
    case RevenueGrowth => NonZero(f.revenue) && IsGrowth(f.revenue, f.lastRevenue, v)
    case FreeCashFlow => f.operatingCash.Some? && f.capex.Some? && v + Abs(f.capex.value) == f.operatingCash.value
    case ReturnOnEquity => IsShare(f.netIncome, f.equity, v)
    case NetIncomeGrowth => IsGrowth(f.netIncome, f.lastIncome, v)
  }

  lemma DerivedMeans(f: Figures, d: Derivation, v: real)
    ensures Derived(f, d) == Some(v) <==> Derives(f, d, v)
  {
    match d
    case GrossMargin => ShareMeans(f.grossProfit, f.revenue, v);
    case OperatingMargin => ShareMeans(f.operatingIncome, f.revenue, v);
    case NetMargin => ShareMeans(f.netIncome, f.revenue, v);
    case RevenueGrowth => GrowthMeans(f.revenue, f.lastRevenue, v);
    case FreeCashFlow =>
    case ReturnOnEquity => ShareMeans(f.netIncome, f.equity, v);
    case NetIncomeGrowth => GrowthMeans(f.netIncome, f.lastIncome, v);
  }

  lemma NothingWithoutTheYear(observations: seq<Observation>, d: Derivation, year: int)
    requires Derived(FiguresOf(observations, year), d).Some?
    ensures exists o <- observations :: o.fiscalYear == year
  {
  }

  lemma QuotientIs(part: real, whole: real, v: real)
    requires whole != 0.0
    ensures part / whole == v <==> v * whole == part
  {
    assert (part / whole) * whole == part;
    if v * whole == part { assert (v - part / whole) * whole == 0.0; }
  }

  lemma ShareMeans(part: Option<real>, whole: Option<real>, v: real)
    ensures Share(part, whole) == Some(v) <==> IsShare(part, whole, v)
  {
    if part.Some? && NonZero(whole) { QuotientIs(part.value, whole.value, v); }
  }

  lemma GrowthMeans(now: Option<real>, before: Option<real>, v: real)
    ensures Growth(now, before) == Some(v) <==> IsGrowth(now, before, v)
  {
    if now.Some? && NonZero(before) { QuotientIs(now.value, before.value, 1.0 + v); }
  }

  ghost predicate IsDerived(observations: seq<Observation>, out: map<(Derivation, int), real>) {
    forall d, year, v :: Lookup(out, (d, year)) == Some(v) <==> Derives(FiguresOf(observations, year), d, v)
  }

  method Derive(observations: seq<Observation>) returns (out: map<(Derivation, int), real>)
    ensures IsDerived(observations, out)
  {
    out := map[];
    var years := set o <- observations :: o.fiscalYear;
    var todo: set<int> := years;
    while todo != {}
      invariant todo <= years
      invariant forall d, y :: Lookup(out, (d, y)) ==
                  if y in years && y !in todo then Derived(FiguresOf(observations, y), d) else None
      decreases |todo|
    {
      hide Derived, FiguresOf;
      Inhabited(todo);
      var year :| year in todo;
      todo := todo - {year};
      out := DeriveYear(FiguresOf(observations, year), year, out);
    }
    forall d, y ensures Lookup(out, (d, y)) == Derived(FiguresOf(observations, y), d) {
      if Derived(FiguresOf(observations, y), d).Some? { NothingWithoutTheYear(observations, d, y); }
    }
    forall d, y, v ensures Lookup(out, (d, y)) == Some(v) <==> Derives(FiguresOf(observations, y), d, v) {
      DerivedMeans(FiguresOf(observations, y), d, v);
    }
  }
}
