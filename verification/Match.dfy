/** Checking each numeral a note states against the basket of filed figures
    (audit/scoring/match.py). The platform's own reading of a figure is a parameter. */
module Match {
  import opened Options
  import F = Facts

  /** What a numeral's period hint says: a fiscal year, a day, a quarter, or something unread. */
  datatype Period = FiscalYear(year: int) | Day(date: F.Date) | Quarter | Unread

  datatype Numeral = Numeral(value: real, concept: Option<string>, period: Option<Period>, excluded: bool)

  datatype Truth = Truth(observations: seq<F.Observation>, derived: map<(F.Derivation, int), real>)

  datatype Candidate = Candidate(concept: string, year: int, stored: real)

  datatype Kind = Excluded | OutsideTruth | Matched | Approx | Contradicted | CheckableAbsent | MatchedUnhinted | Unknown

  datatype Classification = Classification(
    kind: Kind, concept: Option<string>, year: Option<int>, stored: Option<real>, error: Option<real>)

  /** `basket` is which basket concepts a numeral's concept may be checked against, `every` all of
      them in name order, and `reads(quoted, stored)` the platform's reading, signs aside. */
  datatype Rules = Rules(
    basket: map<string, seq<string>>, every: seq<string>, outside: set<string>,
    readings: seq<real>, readsAs: (real, real) -> bool)

  predicate Sane(rules: Rules) { forall r <- rules.readings :: r > 0.0 }

  const APPROX_TOLERANCE := 0.02

  /* ---------- Values and periods ---------- */

  function DerivationNamed(concept: string): Option<F.Derivation> {
    if concept == F.NameOf(F.GrossMargin) then Some(F.GrossMargin)
    else if concept == F.NameOf(F.OperatingMargin) then Some(F.OperatingMargin)
    else if concept == F.NameOf(F.NetMargin) then Some(F.NetMargin)
    else if concept == F.NameOf(F.RevenueGrowth) then Some(F.RevenueGrowth)
    else if concept == F.NameOf(F.FreeCashFlow) then Some(F.FreeCashFlow)
    else if concept == F.NameOf(F.ReturnOnEquity) then Some(F.ReturnOnEquity)
    else if concept == F.NameOf(F.NetIncomeGrowth) then Some(F.NetIncomeGrowth)
    else None
  }

  /** A filed figure first, a derived one otherwise. */
  function Value(truth: Truth, concept: string, year: int): Option<real> {
    var filed := F.Filed(truth.observations, concept, year);
    if filed.Some? then filed
    else
      var d := DerivationNamed(concept);
      if d.Some? then F.Lookup(truth.derived, (d.value, year)) else None
  }

  ghost predicate Ascending(years: seq<int>) { forall i, j :: 0 <= i < j < |years| ==> years[i] < years[j] }

  function WithYear(years: seq<int>, year: int): (r: seq<int>)
    requires Ascending(years)
    ensures Ascending(r) && forall y :: y in r <==> y in years || y == year
  {
    if years == [] then [year]
    else
      if year < years[0] then InFront(year, years); [year] + years
      else if year == years[0] then years
      else
        FirstAndRest(years);
        var rest := WithYear(years[1..], year);
        InFront(years[0], rest);
        [years[0]] + rest
  }

  lemma InFront(year: int, years: seq<int>)
    requires Ascending(years) && forall y <- years :: year < y
    ensures Ascending([year] + years) && forall y :: y in [year] + years <==> y == year || y in years
  {
    forall j | 0 <= j < |years| ensures year < years[j] { assert years[j] in years; }
  }

  lemma FirstAndRest(years: seq<int>)
    requires years != [] && Ascending(years)
    ensures forall y :: y in years <==> y == years[0] || y in years[1..]
    ensures forall y <- years[1..] :: years[0] < y
  {
    assert years == [years[0]] + years[1..];
  }

  /** The basket's fiscal years, once each and in order. */
  function Periods(observations: seq<F.Observation>): (r: seq<int>)
    ensures Ascending(r) && forall y :: y in r <==> exists o <- observations :: o.fiscalYear == y
  {
    if observations == [] then []
    else
      assert observations == [observations[0]] + observations[1..];
      WithYear(Periods(observations[1..]), observations[0].fiscalYear)
  }

  datatype Hint = NoYear | InYear(year: int) | Outside

  /** A day that ends no observed fiscal year is outside the basket. */
  function YearOf(observations: seq<F.Observation>, period: Option<Period>): Hint {
    match period
    case Some(FiscalYear(y)) => InYear(y)
    case Some(Day(date)) => EndingOn(observations, date)
    case _ => NoYear
  }

  function EndingOn(observations: seq<F.Observation>, date: F.Date): (h: Hint)
    ensures h == NoYear ==> false
    ensures h.Outside? <==> forall o <- observations :: o.end != date
    ensures h.InYear? ==> exists o <- observations :: o.end == date && o.fiscalYear == h.year
  {
    if observations == [] then Outside
    else
      assert observations == [observations[0]] + observations[1..];
      if observations[0].end == date then InYear(observations[0].fiscalYear) else EndingOn(observations[1..], date)
  }

  /* ---------- Candidates ---------- */

  function CandidatesOf(truth: Truth, concept: string, years: seq<int>, hint: Hint): seq<Candidate> {
    if years == [] then []
    else
      var before := CandidatesOf(truth, concept, years[..|years| - 1], hint);
      var year := years[|years| - 1];
      var value := Value(truth, concept, year);
      if (hint.InYear? && year != hint.year) || value.None? then before
      else before + [Candidate(concept, year, value.value)]
  }

  function CandidatesOfAll(truth: Truth, concepts: seq<string>, years: seq<int>, hint: Hint): seq<Candidate> {
    if concepts == [] then []
    else
      CandidatesOfAll(truth, concepts[..|concepts| - 1], years, hint)
      + CandidatesOf(truth, concepts[|concepts| - 1], years, hint)
  }

  function CandidatesFor(truth: Truth, concepts: seq<string>, period: Option<Period>): seq<Candidate> {
    var hint := YearOf(truth.observations, period);
    if hint.Outside? then [] else CandidatesOfAll(truth, concepts, Periods(truth.observations), hint)
  }

  method Candidates(truth: Truth, concepts: seq<string>, period: Option<Period>) returns (out: seq<Candidate>)
    ensures out == CandidatesFor(truth, concepts, period)
  {
    hide Value, YearOf, Periods;
    var years := Periods(truth.observations);
    var hint := YearOf(truth.observations, period);
    if hint.Outside? { return []; }
    out := [];
    for i := 0 to |concepts|
      invariant out == CandidatesOfAll(truth, concepts[..i], years, hint)
    {
      assert concepts[..i + 1][..i] == concepts[..i];
      ghost var before := out;
      for j := 0 to |years|
        invariant out == before + CandidatesOf(truth, concepts[i], years[..j], hint)
      {
        assert years[..j + 1][..j] == years[..j];
        if hint.InYear? && years[j] != hint.year { continue; }
        var value := Value(truth, concepts[i], years[j]);
        if value.Some? { out := out + [Candidate(concepts[i], years[j], value.value)]; }
      }
      assert years[..|years|] == years;
    }
    assert concepts[..|concepts|] == concepts;
  }

  /** The value a basket has for a concept in a year: what was filed, and only where nothing was, what is
      derived under that name. */
  ghost predicate Holds(truth: Truth, concept: string, year: int, value: real) {
    if exists o <- truth.observations :: o.concept == concept && o.fiscalYear == year then
      F.Reports(truth.observations, concept, year, Some(value))
    else exists d :: F.NameOf(d) == concept && (d, year) in truth.derived && truth.derived[(d, year)] == value
  }

  /** The years a period hint leaves: the one it names, the one that ends on the day it names, or any. */
  ghost predicate InPeriod(observations: seq<F.Observation>, period: Option<Period>, year: int) {
    match period
    case Some(FiscalYear(y)) => year == y
    case Some(Day(date)) => exists i :: EndsAt(observations, i, date) && observations[i].fiscalYear == year
    case Some(Quarter) => true
    case Some(Unread) => true
    case None => true
  }

  /** The observation at index `i` is the first to end on the day. */
  ghost predicate EndsAt(observations: seq<F.Observation>, i: int, date: F.Date) {
    && 0 <= i < |observations| && observations[i].end == date
    && forall j :: 0 <= j < i ==> observations[j].end != date
  }

  /** What a candidate is: a value the basket has for one of the concepts, in an observed year, and in
      the hinted one when there is a hint. */
  ghost predicate IsCandidate(truth: Truth, concepts: seq<string>, period: Option<Period>, c: Candidate) {
    && InPeriod(truth.observations, period, c.year)
    && c.concept in concepts && (exists o <- truth.observations :: o.fiscalYear == c.year)
    && Holds(truth, c.concept, c.year, c.stored)
  }

  lemma ValueIs(truth: Truth, concept: string, year: int, value: real)
    ensures Value(truth, concept, year) == Some(value) <==> Holds(truth, concept, year, value)
  {
    F.FiledIsFirst(truth.observations, concept, year);
  }

  lemma {:induction false} EndingIsFirst(observations: seq<F.Observation>, date: F.Date)
    ensures EndingOn(observations, date).InYear? ==>
              exists i :: EndsAt(observations, i, date) && observations[i].fiscalYear == EndingOn(observations, date).year
  {
    if observations != [] {
      var rest := observations[1..];
      if observations[0].end == date {
        assert EndsAt(observations, 0, date);
      } else {
        EndingIsFirst(rest, date);
        if EndingOn(rest, date).InYear? {
          var i :| EndsAt(rest, i, date) && rest[i].fiscalYear == EndingOn(rest, date).year;
          assert EndsAt(observations, i + 1, date);
        }
      }
    }
  }

  /** The hint the code goes by leaves exactly the years of the period. */
  lemma HintIsThePeriod(observations: seq<F.Observation>, period: Option<Period>, year: int)
    ensures var hint := YearOf(observations, period);
            InPeriod(observations, period, year) <==> !hint.Outside? && (hint.InYear? ==> year == hint.year)
    ensures YearOf(observations, period).Outside? <==>
              period.Some? && period.value.Day? && forall o <- observations :: o.end != period.value.date
  {
    if period.Some? && period.value.Day? { EndingIsFirst(observations, period.value.date); }
  }

  lemma {:induction false} InCandidatesOf(truth: Truth, concept: string, years: seq<int>, hint: Hint, c: Candidate)
    ensures c in CandidatesOf(truth, concept, years, hint) <==>
            c.concept == concept && c.year in years && (hint.InYear? ==> c.year == hint.year)
            && Value(truth, concept, c.year) == Some(c.stored)
  {
    if years != [] {
      assert years == years[..|years| - 1] + [years[|years| - 1]];
      InCandidatesOf(truth, concept, years[..|years| - 1], hint, c);
    }
  }

  lemma {:induction false} InCandidatesOfAll(truth: Truth, concepts: seq<string>, years: seq<int>, hint: Hint, c: Candidate)
    ensures c in CandidatesOfAll(truth, concepts, years, hint) <==>
            c.concept in concepts && c.year in years && (hint.InYear? ==> c.year == hint.year)
            && Value(truth, c.concept, c.year) == Some(c.stored)
  {
    if concepts != [] {
      assert concepts == concepts[..|concepts| - 1] + [concepts[|concepts| - 1]];
      InCandidatesOfAll(truth, concepts[..|concepts| - 1], years, hint, c);
      InCandidatesOf(truth, concepts[|concepts| - 1], years, hint, c);
    }
  }

  lemma CandidatesAre(truth: Truth, concepts: seq<string>, period: Option<Period>, c: Candidate)
    ensures c in CandidatesFor(truth, concepts, period) <==> IsCandidate(truth, concepts, period, c)
  {
    HintIsThePeriod(truth.observations, period, c.year);
    ValueIs(truth, c.concept, c.year, c.stored);
    InCandidatesOfAll(truth, concepts, Periods(truth.observations), YearOf(truth.observations, period), c);
  }

  /* ---------- The nearest reading ---------- */

  function Abs(x: real): (r: real)
    ensures r >= 0.0
  {
    if x < 0.0 then -x else x
  }

  /** How far a quoted figure is from a stored one read at a scale, as a share of the reading; nothing
      for a reading of zero. */
  function ErrorAt(quoted: real, stored: real, scale: real): Option<real> {
    var reference := stored * scale;
    if reference == 0.0 then None else Some(Abs(quoted - reference) / Abs(reference))
  }

  function Lesser(best: Option<real>, error: Option<real>): Option<real> {
    if error.Some? && (best.None? || error.value < best.value) then error else best
  }

  function LeastError(quoted: real, stored: real, readings: seq<real>): Option<real> {
    if readings == [] then None
    else Lesser(LeastError(quoted, stored, readings[..|readings| - 1]), ErrorAt(quoted, stored, readings[|readings| - 1]))
  }

  method RelativeError(quoted: real, stored: real, readings: seq<real>) returns (best: Option<real>)
    ensures best == LeastError(quoted, stored, readings)
  {
    best := None;
    for i := 0 to |readings|
      invariant best == LeastError(quoted, stored, readings[..i])
    {
      assert readings[..i + 1][..i] == readings[..i];
      var error := ErrorAt(quoted, stored, readings[i]);
      if error.None? { continue; }
      if best.None? || error.value < best.value { best := error; }
    }
    assert readings[..|readings|] == readings;
  }

  /** The least of the errors there are. */
  ghost predicate IsLeast(errors: seq<Option<real>>, best: Option<real>) {
    && (best.Some? ==> best in errors)
    && forall e <- errors :: e.Some? ==> best.Some? && best.value <= e.value
  }

  function Errors(quoted: real, stored: real, readings: seq<real>): (r: seq<Option<real>>)
    ensures |r| == |readings| && forall i :: 0 <= i < |r| ==> r[i] == ErrorAt(quoted, stored, readings[i])
  {
    seq(|readings|, i requires 0 <= i < |readings| => ErrorAt(quoted, stored, readings[i]))
  }

  lemma LesserIsLeast(errors: seq<Option<real>>, best: Option<real>, error: Option<real>)
    requires IsLeast(errors, best)
    ensures IsLeast(errors + [error], Lesser(best, error))
  {
    assert error in errors + [error];
  }

  lemma {:induction false} LeastErrorIs(quoted: real, stored: real, readings: seq<real>)
    ensures IsLeast(Errors(quoted, stored, readings), LeastError(quoted, stored, readings))
  {
    if readings != [] {
      var shorter, last := readings[..|readings| - 1], readings[|readings| - 1];
      LeastErrorIs(quoted, stored, shorter);
      LesserIsLeast(Errors(quoted, stored, shorter), LeastError(quoted, stored, shorter), ErrorAt(quoted, stored, last));
      assert Errors(quoted, stored, readings) == Errors(quoted, stored, shorter) + [ErrorAt(quoted, stored, last)];
    }
  }

  /** The first candidate with the least error, and that error. */
  function Nearest(quoted: real, candidates: seq<Candidate>, readings: seq<real>): Option<(real, Candidate)> {
    if candidates == [] then None
    else
      var last := candidates[|candidates| - 1];
      var before := Nearest(quoted, candidates[..|candidates| - 1], readings);
      var error := LeastError(quoted, last.stored, readings);
      if error.Some? && (before.None? || error.value < before.value.0) then Some((error.value, last)) else before
  }

  method FindNearest(quoted: real, candidates: seq<Candidate>, readings: seq<real>)
      returns (best: Option<(real, Candidate)>)
    ensures best == Nearest(quoted, candidates, readings)
  {
    best := None;
    for i := 0 to |candidates|
      invariant best == Nearest(quoted, candidates[..i], readings)
    {
      assert candidates[..i + 1][..i] == candidates[..i];
      var error := RelativeError(quoted, candidates[i].stored, readings);
      if error.Some? && (best.None? || error.value < best.value.0) { best := Some((error.value, candidates[i])); }
    }
    assert candidates[..|candidates|] == candidates;
  }

  lemma {:induction false} NearestIs(quoted: real, candidates: seq<Candidate>, readings: seq<real>)
    ensures var best := Nearest(quoted, candidates, readings);
            && (best.None? <==> forall c <- candidates :: LeastError(quoted, c.stored, readings).None?)
            && (best.Some? ==> best.value.1 in candidates)
            && (best.Some? ==> LeastError(quoted, best.value.1.stored, readings) == Some(best.value.0))
            && forall c <- candidates :: LeastError(quoted, c.stored, readings).Some? ==>
                 best.Some? && best.value.0 <= LeastError(quoted, c.stored, readings).value
  {
    if candidates != [] {
      assert candidates == candidates[..|candidates| - 1] + [candidates[|candidates| - 1]];
      NearestIs(quoted, candidates[..|candidates| - 1], readings);
    }
  }

  /** The first candidate the numeral reads as. */
  function FirstRead(quoted: real, candidates: seq<Candidate>, readsAs: (real, real) -> bool): (c: Option<Candidate>)
    ensures c.Some? ==> c.value in candidates && readsAs(quoted, c.value.stored)
    ensures c.None? <==> forall d <- candidates :: !readsAs(quoted, d.stored)
  {
    if candidates == [] then None
    else
      assert candidates == [candidates[0]] + candidates[1..];
      if readsAs(quoted, candidates[0].stored) then Some(candidates[0]) else FirstRead(quoted, candidates[1..], readsAs)
  }

  method FindRead(quoted: real, candidates: seq<Candidate>, readsAs: (real, real) -> bool) returns (c: Option<Candidate>)
    ensures c == FirstRead(quoted, candidates, readsAs)
  {
    for i := 0 to |candidates|
      invariant FirstRead(quoted, candidates, readsAs) == FirstRead(quoted, candidates[i..], readsAs)
    {
      assert candidates[i..][1..] == candidates[i + 1..];
      if readsAs(quoted, candidates[i].stored) { return Some(candidates[i]); }
    }
    return None;
  }

  /* ---------- The ladder ---------- */

  /** Nothing in an annual basket can be set beside it: the concept is one a filing does not carry,
      or the period is a quarter or a day that ends no fiscal year. */
  predicate SetAside(n: Numeral, truth: Truth, rules: Rules) {
    || (n.concept.Some? && n.concept.value in rules.outside)
    || n.period == Some(Quarter)
    || (n.period.Some? && n.period.value.Day? && forall o <- truth.observations :: o.end != n.period.value.date)
  }

  /** The basket concepts a numeral may be checked against: those its own concept maps to. */
  function Concepts(n: Numeral, rules: Rules): (concepts: seq<string>)
    ensures forall known, its :: n.concept == Some(known) && (known, its) in rules.basket.Items ==> concepts == its
    ensures n.concept == None || n.concept.value !in rules.basket.Keys ==> concepts == []
  {
    if n.concept.Some? && n.concept.value in rules.basket then rules.basket[n.concept.value] else []
  }

  function Found(kind: Kind, c: Candidate, error: real): Classification {
    Classification(kind, Some(c.concept), Some(c.year), Some(c.stored), Some(error))
  }

  function Bare(kind: Kind): Classification { Classification(kind, None, None, None, None) }

  /** The verdict on a numeral whose concept the basket knows. */
  function Hinted(n: Numeral, concepts: seq<string>, candidates: seq<Candidate>, rules: Rules): Classification
    requires concepts != []
  {
    var read := FirstRead(n.value, candidates, rules.readsAs);
    if read.Some? then Found(Matched, read.value, 0.0)
    else
      var best := Nearest(n.value, candidates, rules.readings);
      if best.None? then Bare(CheckableAbsent).(concept := Some(concepts[0]))
      else if best.value.0 <= APPROX_TOLERANCE then Found(Approx, best.value.1, best.value.0)
      else if n.period.Some? then Found(Contradicted, best.value.1, best.value.0)
      else Found(CheckableAbsent, best.value.1, best.value.0).(year := None)
  }

  function Classified(n: Numeral, truth: Truth, rules: Rules): Classification {
    var concepts := Concepts(n, rules);
    if n.excluded then Bare(Excluded)
    else if SetAside(n, truth, rules) then Bare(OutsideTruth)
    else if concepts != [] then Hinted(n, concepts, CandidatesFor(truth, concepts, n.period), rules)
    else
      var read := FirstRead(n.value, CandidatesFor(truth, rules.every, n.period), rules.readsAs);
      if Abs(n.value) >= 1.0 && read.Some? then Found(MatchedUnhinted, read.value, 0.0) else Bare(Unknown)
  }

  method Classify(n: Numeral, truth: Truth, rules: Rules) returns (c: Classification)
    ensures c == Classified(n, truth, rules)
  {
    if n.excluded { return Bare(Excluded); }
    if n.concept.Some? && n.concept.value in rules.outside { return Bare(OutsideTruth); }
    if n.period == Some(Quarter) { return Bare(OutsideTruth); }
    HintIsThePeriod(truth.observations, n.period, 0);
    if YearOf(truth.observations, n.period).Outside? { return Bare(OutsideTruth); }
    var concepts := Concepts(n, rules);
    if concepts != [] {
      var hinted := Candidates(truth, concepts, n.period);
      var read := FindRead(n.value, hinted, rules.readsAs);
      if read.Some? { return Found(Matched, read.value, 0.0); }
      var best := FindNearest(n.value, hinted, rules.readings);
      if best.Some? {
        var (error, nearest) := best.value;
        if error <= APPROX_TOLERANCE { return Found(Approx, nearest, error); }
        if n.period.Some? { return Found(Contradicted, nearest, error); }
        return Found(CheckableAbsent, nearest, error).(year := None);
      }
      return Bare(CheckableAbsent).(concept := Some(concepts[0]));
    }
    if Abs(n.value) >= 1.0 {
      var all := Candidates(truth, rules.every, n.period);
      var read := FindRead(n.value, all, rules.readsAs);
      if read.Some? { return Found(MatchedUnhinted, read.value, 0.0); }
    }
    return Bare(Unknown);
  }

  /* ---------- What a contradiction is ---------- */

  /** More than two per cent from every reading of every candidate; no division. */
  ghost predicate FarFrom(quoted: real, stored: real, readings: seq<real>) {
    forall r <- readings :: Abs(quoted - stored * r) > APPROX_TOLERANCE * Abs(stored * r)
  }

  lemma ShareOf(part: real, whole: real, bound: real)
    requires whole > 0.0
    ensures part / whole > bound <==> part > bound * whole
  {
    assert (part / whole) * whole == part;
    if part / whole > bound { assert (part / whole - bound) * whole > 0.0; }
    if part / whole <= bound { assert (bound - part / whole) * whole >= 0.0; }
  }

  lemma FarAt(quoted: real, stored: real, r: real)
    requires stored != 0.0 && r > 0.0
    ensures ErrorAt(quoted, stored, r).Some?
    ensures ErrorAt(quoted, stored, r).value > APPROX_TOLERANCE <==>
            Abs(quoted - stored * r) > APPROX_TOLERANCE * Abs(stored * r)
  {
    ShareOf(Abs(quoted - stored * r), Abs(stored * r), APPROX_TOLERANCE);
  }

  lemma FarExactly(quoted: real, stored: real, readings: seq<real>)
    requires stored != 0.0 && readings != [] && forall r <- readings :: r > 0.0
    ensures LeastError(quoted, stored, readings).Some?
    ensures LeastError(quoted, stored, readings).value > APPROX_TOLERANCE <==> FarFrom(quoted, stored, readings)
  {
    LeastErrorIs(quoted, stored, readings);
    var errors, best := Errors(quoted, stored, readings), LeastError(quoted, stored, readings);
    forall r | r in readings
      ensures ErrorAt(quoted, stored, r).Some? && ErrorAt(quoted, stored, r) in errors
      ensures ErrorAt(quoted, stored, r).value > APPROX_TOLERANCE <==>
              Abs(quoted - stored * r) > APPROX_TOLERANCE * Abs(stored * r)
    {
      FarAt(quoted, stored, r);
      var i :| 0 <= i < |readings| && readings[i] == r;
      assert errors[i] == ErrorAt(quoted, stored, r);
    }
    assert ErrorAt(quoted, stored, readings[0]) in errors;
    var k :| 0 <= k < |errors| && errors[k] == best;
    assert errors[k] == ErrorAt(quoted, stored, readings[k]);
  }

  lemma {:induction false} ZeroHasNoError(quoted: real, readings: seq<real>)
    ensures LeastError(quoted, 0.0, readings).None?
  {
    if readings != [] { ZeroHasNoError(quoted, readings[..|readings| - 1]); }
  }

  /** Every checkable figure the numeral could be set beside says otherwise. */
  ghost predicate Refuted(n: Numeral, truth: Truth, concepts: seq<string>, rules: Rules) {
    && (forall c :: IsCandidate(truth, concepts, n.period, c) ==> !rules.readsAs(n.value, c.stored))
    && (exists c :: IsCandidate(truth, concepts, n.period, c) && c.stored != 0.0)
    && forall c :: IsCandidate(truth, concepts, n.period, c) && c.stored != 0.0 ==>
         FarFrom(n.value, c.stored, rules.readings)
  }

  /** A numeral is called contradicted exactly when it was not set aside, names a checkable concept and
      a period, reads as no candidate, and is further than two per cent from every reading of every
      non-zero candidate, of which there is at least one. */
  lemma ContradictedExactly(n: Numeral, truth: Truth, rules: Rules)
    requires Sane(rules) && rules.readings != []
    ensures Classified(n, truth, rules).kind == Contradicted <==>
            && !n.excluded && !SetAside(n, truth, rules) && n.period.Some?
            && Concepts(n, rules) != [] && Refuted(n, truth, Concepts(n, rules), rules)
  {
    var concepts := Concepts(n, rules);
    var candidates := CandidatesFor(truth, concepts, n.period);
    forall c ensures c in candidates <==> IsCandidate(truth, concepts, n.period, c) {
      CandidatesAre(truth, concepts, n.period, c);
    }
    NearestIs(n.value, candidates, rules.readings);
    forall c | c in candidates
      ensures LeastError(n.value, c.stored, rules.readings).Some? <==> c.stored != 0.0
      ensures c.stored != 0.0 ==>
        (LeastError(n.value, c.stored, rules.readings).value > APPROX_TOLERANCE <==> FarFrom(n.value, c.stored, rules.readings))
    {
      if c.stored == 0.0 { ZeroHasNoError(n.value, rules.readings); } else { FarExactly(n.value, c.stored, rules.readings); }
    }
    RefutedBy(n, truth, concepts, candidates, rules);
  }

  lemma RefutedBy(n: Numeral, truth: Truth, concepts: seq<string>, candidates: seq<Candidate>, rules: Rules)
    requires forall c :: c in candidates <==> IsCandidate(truth, concepts, n.period, c)
    requires forall c <- candidates :: LeastError(n.value, c.stored, rules.readings).Some? <==> c.stored != 0.0
    requires forall c <- candidates :: c.stored != 0.0 ==>
               (LeastError(n.value, c.stored, rules.readings).value > APPROX_TOLERANCE <==> FarFrom(n.value, c.stored, rules.readings))
    ensures Refuted(n, truth, concepts, rules) <==>
            && FirstRead(n.value, candidates, rules.readsAs).None?
            && Nearest(n.value, candidates, rules.readings).Some?
            && Nearest(n.value, candidates, rules.readings).value.0 > APPROX_TOLERANCE
  {
    NearestIs(n.value, candidates, rules.readings);
    var best := Nearest(n.value, candidates, rules.readings);
    if best.Some? { assert IsCandidate(truth, concepts, n.period, best.value.1); }
  }

  ghost predicate ReadsAsOne(n: Numeral, truth: Truth, concepts: seq<string>, rules: Rules) {
    exists c :: IsCandidate(truth, concepts, n.period, c) && rules.readsAs(n.value, c.stored)
  }

  /** "Matched" exactly when the numeral reads as some candidate of its own concept; without a usable
      concept, when it is no small number and reads as anything in the basket. */
  lemma MatchedExactly(n: Numeral, truth: Truth, rules: Rules)
    ensures Classified(n, truth, rules).kind == Matched <==>
            && !n.excluded && !SetAside(n, truth, rules)
            && Concepts(n, rules) != [] && ReadsAsOne(n, truth, Concepts(n, rules), rules)
    ensures Classified(n, truth, rules).kind == MatchedUnhinted <==>
            && !n.excluded && !SetAside(n, truth, rules)
            && Concepts(n, rules) == [] && (n.value >= 1.0 || n.value <= -1.0) && ReadsAsOne(n, truth, rules.every, rules)
  {
    FirstReadIs(n, truth, Concepts(n, rules), rules);
    FirstReadIs(n, truth, rules.every, rules);
  }

  lemma FirstReadIs(n: Numeral, truth: Truth, concepts: seq<string>, rules: Rules)
    ensures FirstRead(n.value, CandidatesFor(truth, concepts, n.period), rules.readsAs).Some?
       <==> ReadsAsOne(n, truth, concepts, rules)
  {
    hide IsCandidate, CandidatesFor;
    forall c ensures c in CandidatesFor(truth, concepts, n.period) <==> IsCandidate(truth, concepts, n.period, c) {
      CandidatesAre(truth, concepts, n.period, c);
    }
  }

  /** "Approx" exactly when it reads as none of them, but lies within two per cent of some reading of a
      non-zero one. */
  lemma ApproxExactly(n: Numeral, truth: Truth, rules: Rules)
    requires Sane(rules) && rules.readings != []
    ensures Classified(n, truth, rules).kind == Approx <==>
            && !n.excluded && !SetAside(n, truth, rules)
            && Concepts(n, rules) != [] && !ReadsAsOne(n, truth, Concepts(n, rules), rules)
            && exists c :: IsCandidate(truth, Concepts(n, rules), n.period, c) && c.stored != 0.0
                           && !FarFrom(n.value, c.stored, rules.readings)
  {
    var concepts := Concepts(n, rules);
    FirstReadIs(n, truth, concepts, rules);
    NearestWithin(n, truth, concepts, rules);
  }

  lemma NearestWithin(n: Numeral, truth: Truth, concepts: seq<string>, rules: Rules)
    requires Sane(rules) && rules.readings != []
    ensures var best := Nearest(n.value, CandidatesFor(truth, concepts, n.period), rules.readings);
            best.Some? && best.value.0 <= APPROX_TOLERANCE <==>
              exists c :: IsCandidate(truth, concepts, n.period, c) && c.stored != 0.0
                          && !FarFrom(n.value, c.stored, rules.readings)
  {
    hide IsCandidate, CandidatesFor, FarFrom, Nearest, LeastError;
    var candidates := CandidatesFor(truth, concepts, n.period);
    NearestIs(n.value, candidates, rules.readings);
    forall c
      ensures c in candidates <==> IsCandidate(truth, concepts, n.period, c)
      ensures LeastError(n.value, c.stored, rules.readings).Some? <==> c.stored != 0.0
      ensures c.stored != 0.0 ==>
        (LeastError(n.value, c.stored, rules.readings).value > APPROX_TOLERANCE <==> FarFrom(n.value, c.stored, rules.readings))
    {
      CandidatesAre(truth, concepts, n.period, c);
      if c.stored == 0.0 { ZeroHasNoError(n.value, rules.readings); } else { FarExactly(n.value, c.stored, rules.readings); }
    }
    var best := Nearest(n.value, candidates, rules.readings);
    if best.Some? { assert IsCandidate(truth, concepts, n.period, best.value.1); }
  }

  /** The figure a verdict names is a candidate, and of all the non-zero ones the nearest. */
  lemma VerdictNamesTheNearest(n: Numeral, truth: Truth, rules: Rules)
    requires Classified(n, truth, rules).kind in {Approx, Contradicted}
    ensures var v := Classified(n, truth, rules);
            && v.concept.Some? && v.year.Some? && v.stored.Some? && v.error.Some?
            && IsCandidate(truth, Concepts(n, rules), n.period, Candidate(v.concept.value, v.year.value, v.stored.value))
            && LeastError(n.value, v.stored.value, rules.readings) == v.error
            && forall c :: IsCandidate(truth, Concepts(n, rules), n.period, c) ==>
                 var e := LeastError(n.value, c.stored, rules.readings); e.Some? ==> v.error.value <= e.value
  {
    hide LeastError, Nearest, CandidatesFor, IsCandidate;
    var concepts := Concepts(n, rules);
    var candidates := CandidatesFor(truth, concepts, n.period);
    NearestIs(n.value, candidates, rules.readings);
    forall c ensures c in candidates <==> IsCandidate(truth, concepts, n.period, c) {
      CandidatesAre(truth, concepts, n.period, c);
    }
  }

  /** A fiscal year given with the numeral decides the year: every candidate has it, and so has every verdict
      that names a year. */
  lemma FiscalYearDecides(n: Numeral, truth: Truth, rules: Rules, y: int)
    requires n.period == Some(FiscalYear(y))
    ensures forall c <- CandidatesFor(truth, Concepts(n, rules), n.period) + CandidatesFor(truth, rules.every, n.period) ::
              c.year == y
    ensures Classified(n, truth, rules).year.Some? ==> Classified(n, truth, rules).year == Some(y)
  {
    hide CandidatesFor, FirstRead, Nearest;
    var own, all := CandidatesFor(truth, Concepts(n, rules), n.period), CandidatesFor(truth, rules.every, n.period);
    forall c | c in own || c in all ensures c.year == y {
      CandidatesAre(truth, Concepts(n, rules), n.period, c);
      CandidatesAre(truth, rules.every, n.period, c);
    }
    NearestIs(n.value, own, rules.readings);
  }

  /** With no period, or one that is not read as a year or a day, every value the basket has for one of the
      concepts is a candidate. */
  lemma NoPeriodLeavesAll(truth: Truth, concepts: seq<string>, period: Option<Period>, o: F.Observation, c: Candidate)
    requires period.None? || period == Some(Unread)
    requires o in truth.observations && c.year == o.fiscalYear && c.concept in concepts
    requires Holds(truth, c.concept, c.year, c.stored)
    ensures c in CandidatesFor(truth, concepts, period)
  {
    CandidatesAre(truth, concepts, period, c);
  }

  /* ---------- Which of several ---------- */

  /** The candidates before one at concept `i`: those of an earlier concept, and of an earlier year. */
  ghost predicate Earlier(concepts: seq<string>, i: int, v: Candidate, c: Candidate) {
    exists j :: 0 <= j <= i < |concepts| && concepts[j] == c.concept && (j == i ==> c.year < v.year)
  }

  ghost predicate Before(candidates: seq<Candidate>, k: int, c: Candidate) {
    exists m :: 0 <= m < k <= |candidates| && candidates[m] == c
  }

  /** The concept that put a candidate on the list. */
  function ConceptAt(truth: Truth, concepts: seq<string>, years: seq<int>, hint: Hint, k: nat): (i: nat)
    requires k < |CandidatesOfAll(truth, concepts, years, hint)|
    ensures i < |concepts|
  {
    var shorter := concepts[..|concepts| - 1];
    if k < |CandidatesOfAll(truth, shorter, years, hint)| then ConceptAt(truth, shorter, years, hint, k)
    else |concepts| - 1
  }

  /** The list is in the order of the concepts, and of the years for each. */
  lemma {:induction false} EarlierComesBefore(
    truth: Truth, concepts: seq<string>, years: seq<int>, hint: Hint, k: nat, c: Candidate)
    requires Ascending(years) && k < |CandidatesOfAll(truth, concepts, years, hint)|
    ensures var all := CandidatesOfAll(truth, concepts, years, hint);
            var i := ConceptAt(truth, concepts, years, hint, k);
            && concepts[i] == all[k].concept
            && (c in all && Earlier(concepts, i, all[k], c) ==> Before(all, k, c))
  {
    hide CandidatesOf, Value;
    var all := CandidatesOfAll(truth, concepts, years, hint);
    var shorter := concepts[..|concepts| - 1];
    var own := CandidatesOf(truth, concepts[|concepts| - 1], years, hint);
    var most := CandidatesOfAll(truth, shorter, years, hint);
    assert all == most + own;
    var i := ConceptAt(truth, concepts, years, hint, k);
    if k < |most| {
      EarlierComesBefore(truth, shorter, years, hint, k, c);
      if c in all && Earlier(concepts, i, all[k], c) {
        StillOnTheList(truth, concepts, years, hint, i, c);
        assert Earlier(shorter, i, all[k], c);
        Further(most, own, k, c);
      }
    } else {
      assert all[k] == own[k - |most|];
      InCandidatesOf(truth, concepts[i], years, hint, all[k]);
      if c in all && Earlier(concepts, i, all[k], c) {
        InCandidatesOfAll(truth, concepts, years, hint, c);
        var j :| 0 <= j <= i < |concepts| && concepts[j] == c.concept && (j == i ==> c.year < all[k].year);
        if j < i {
          StillOnTheList(truth, concepts, years, hint, j, c);
          AllBefore(most, own, k, c);
        } else {
          InCandidatesOf(truth, concepts[i], years, hint, c);
          var m :| 0 <= m < |own| && own[m] == c;
          YearsAscend(truth, concepts[i], years, hint, k - |most|, m);
          assert all[|most| + m] == c;
        }
      }
    }
  }

  lemma StillOnTheList(truth: Truth, concepts: seq<string>, years: seq<int>, hint: Hint, i: int, c: Candidate)
    requires 0 <= i < |concepts| - 1 && c in CandidatesOfAll(truth, concepts, years, hint)
    requires exists j :: 0 <= j <= i && concepts[j] == c.concept
    ensures c in CandidatesOfAll(truth, concepts[..|concepts| - 1], years, hint)
  {
    hide CandidatesOfAll;
    var shorter := concepts[..|concepts| - 1];
    var j :| 0 <= j <= i && concepts[j] == c.concept;
    assert shorter[j] == c.concept;
    InCandidatesOfAll(truth, shorter, years, hint, c);
    InCandidatesOfAll(truth, concepts, years, hint, c);
  }

  lemma Further(most: seq<Candidate>, own: seq<Candidate>, k: int, c: Candidate)
    requires k <= |most| && Before(most, k, c)
    ensures Before(most + own, k, c)
  {
    var m :| 0 <= m < k <= |most| && most[m] == c;
    assert (most + own)[m] == c;
  }

  lemma AllBefore(most: seq<Candidate>, own: seq<Candidate>, k: int, c: Candidate)
    requires |most| <= k <= |most + own| && c in most
    ensures Before(most + own, k, c)
  {
    var m :| 0 <= m < |most| && most[m] == c;
    assert (most + own)[m] == c;
  }

  lemma {:induction false} YearsAscend(truth: Truth, concept: string, years: seq<int>, hint: Hint, p: int, q: int)
    requires Ascending(years) && 0 <= p < |CandidatesOf(truth, concept, years, hint)|
    requires 0 <= q < |CandidatesOf(truth, concept, years, hint)|
    ensures var own := CandidatesOf(truth, concept, years, hint); p < q ==> own[p].year < own[q].year
  {
    var own := CandidatesOf(truth, concept, years, hint);
    var shorter := years[..|years| - 1];
    var most := CandidatesOf(truth, concept, shorter, hint);
    if p < q {
      if q < |most| {
        YearsAscend(truth, concept, shorter, hint, p, q);
      } else {
        assert own[p] == most[p] && own[p] in most;
        InCandidatesOf(truth, concept, shorter, hint, own[p]);
        var y :| 0 <= y < |shorter| && shorter[y] == own[p].year;
        assert years[y] == own[p].year;
      }
    }
  }

  lemma {:induction false} FirstReadAt(quoted: real, candidates: seq<Candidate>, readsAs: (real, real) -> bool)
      returns (k: nat)
    requires FirstRead(quoted, candidates, readsAs).Some?
    ensures k < |candidates| && candidates[k] == FirstRead(quoted, candidates, readsAs).value
    ensures forall m :: 0 <= m < k ==> !readsAs(quoted, candidates[m].stored)
  {
    if readsAs(quoted, candidates[0].stored) { return 0; }
    k := FirstReadAt(quoted, candidates[1..], readsAs);
    k := k + 1;
  }

  /** No error, or a greater one. */
  predicate Worse(error: Option<real>, than: real) { error.None? || error.value > than }

  lemma {:induction false} NearestAt(quoted: real, candidates: seq<Candidate>, readings: seq<real>) returns (k: nat)
    requires Nearest(quoted, candidates, readings).Some?
    ensures k < |candidates| && candidates[k] == Nearest(quoted, candidates, readings).value.1
    ensures forall m :: 0 <= m < k ==>
      Worse(LeastError(quoted, candidates[m].stored, readings), Nearest(quoted, candidates, readings).value.0)
  {
    hide LeastError;
    var n := |candidates| - 1;
    var last, before := candidates[n], Nearest(quoted, candidates[..n], readings);
    var error := LeastError(quoted, last.stored, readings);
    if error.Some? && (before.None? || error.value < before.value.0) {
      k := n;
      NearestIs(quoted, candidates[..n], readings);
      forall m | 0 <= m < k ensures Worse(LeastError(quoted, candidates[m].stored, readings), error.value) {
        assert candidates[..n][m] in candidates[..n];
      }
    } else {
      k := NearestAt(quoted, candidates[..n], readings);
    }
  }

  /** Of several candidates that would do, the verdict names the first: no candidate of an earlier concept, nor
      of an earlier year for the same one, reads as the numeral, or is as near. */
  lemma VerdictNamesTheFirst(n: Numeral, truth: Truth, rules: Rules) returns (i: nat)
    requires Classified(n, truth, rules).kind in {Matched, MatchedUnhinted, Approx, Contradicted}
    ensures var v := Classified(n, truth, rules);
            var concepts := if v.kind == MatchedUnhinted then rules.every else Concepts(n, rules);
            && v.concept.Some? && v.year.Some? && v.stored.Some? && v.error.Some?
            && i < |concepts| && concepts[i] == v.concept.value
            && var named := Candidate(v.concept.value, v.year.value, v.stored.value);
            && IsCandidate(truth, concepts, n.period, named)
            && if v.kind == Matched || v.kind == MatchedUnhinted then
                 && v.error == Some(0.0) && rules.readsAs(n.value, named.stored)
                 && forall c :: IsCandidate(truth, concepts, n.period, c) && Earlier(concepts, i, named, c) ==>
                      !rules.readsAs(n.value, c.stored)
               else
                 forall c :: IsCandidate(truth, concepts, n.period, c) && Earlier(concepts, i, named, c) ==>
                   Worse(LeastError(n.value, c.stored, rules.readings), v.error.value)
  {
    hide LeastError, Nearest, FirstRead, IsCandidate, CandidatesOfAll, Earlier, Before, Value, YearOf, Periods, ConceptAt;
    var v := Classified(n, truth, rules);
    var concepts := if v.kind == MatchedUnhinted then rules.every else Concepts(n, rules);
    var all := CandidatesFor(truth, concepts, n.period);
    var reading := v.kind == Matched || v.kind == MatchedUnhinted;
    var k: nat;
    if reading {
      k := FirstReadAt(n.value, all, rules.readsAs);
    } else {
      k := NearestAt(n.value, all, rules.readings);
      NearestIs(n.value, all, rules.readings);
    }
    CandidatesAre(truth, concepts, n.period, all[k]);
    i := ListedAt(truth, concepts, n.period, k);
    forall c | IsCandidate(truth, concepts, n.period, c) && Earlier(concepts, i, all[k], c)
      ensures if reading then !rules.readsAs(n.value, c.stored)
              else Worse(LeastError(n.value, c.stored, rules.readings), v.error.value)
    {
      CandidatesAre(truth, concepts, n.period, c);
      var m := BeforeAt(all, k, c);
    }
  }

  lemma BeforeAt(candidates: seq<Candidate>, k: int, c: Candidate) returns (m: int)
    requires Before(candidates, k, c)
    ensures 0 <= m < k <= |candidates| && candidates[m] == c
  {
    m :| 0 <= m < k <= |candidates| && candidates[m] == c;
  }

  lemma ListedAt(truth: Truth, concepts: seq<string>, period: Option<Period>, k: nat) returns (i: nat)
    requires k < |CandidatesFor(truth, concepts, period)|
    ensures var all := CandidatesFor(truth, concepts, period);
            && i < |concepts| && concepts[i] == all[k].concept
            && forall c <- all :: Earlier(concepts, i, all[k], c) ==> Before(all, k, c)
  {
    hide CandidatesOfAll, Earlier, Before, Value, Periods;
    var years, hint := Periods(truth.observations), YearOf(truth.observations, period);
    var all := CandidatesOfAll(truth, concepts, years, hint);
    i := ConceptAt(truth, concepts, years, hint, k);
    EarlierComesBefore(truth, concepts, years, hint, k, all[k]);
    forall c | c in all && Earlier(concepts, i, all[k], c) ensures Before(all, k, c) {
      EarlierComesBefore(truth, concepts, years, hint, k, c);
    }
  }

  /* ---------- The order of the basket ---------- */

  ghost predicate SameFigures(a: seq<F.Observation>, b: seq<F.Observation>) {
    F.Basket(a) && F.Basket(b) && forall o :: o in a <==> o in b
  }

  ghost predicate EndsInItsYear(observations: seq<F.Observation>) {
    forall o <- observations :: o.end.year == o.fiscalYear
  }

  lemma {:induction false} OneAscending(a: seq<int>, b: seq<int>)
    requires Ascending(a) && Ascending(b) && forall y :: y in a <==> y in b
    ensures a == b
  {
    assert (a == [] || a[0] in a) && (b == [] || b[0] in b);
    if a != [] {
      assert a[0] in b && b != [] && b[0] in a;
      assert a[0] == b[0];
      assert a == [a[0]] + a[1..] && b == [b[0]] + b[1..];
      assert forall y <- a[1..] :: y > a[0];
      assert forall y <- b[1..] :: y > b[0];
      forall y ensures y in a[1..] <==> y in b[1..] {
        assert y in a <==> y == a[0] || y in a[1..];
        assert y in b <==> y == b[0] || y in b[1..];
      }
      OneAscending(a[1..], b[1..]);
    }
  }

  lemma SameFiled(a: seq<F.Observation>, b: seq<F.Observation>, concept: string, year: int)
    requires SameFigures(a, b)
    ensures F.Filed(a, concept, year) == F.Filed(b, concept, year)
  {
    if F.Has(a, concept, year) {
      var o :| o in a && o.concept == concept && o.fiscalYear == year;
      F.FiledIs(a, o);
      F.FiledIs(b, o);
    } else {
      assert !F.Has(b, concept, year);
    }
  }

  lemma SamePeriods(a: seq<F.Observation>, b: seq<F.Observation>)
    requires SameFigures(a, b)
    ensures Periods(a) == Periods(b)
  {
    OneAscending(Periods(a), Periods(b));
  }

  /** A day is looked up by the first observation ending on it, but any of them names the same year. */
  lemma SameYear(a: seq<F.Observation>, b: seq<F.Observation>, period: Option<Period>)
    requires SameFigures(a, b) && EndsInItsYear(a)
    ensures YearOf(a, period) == YearOf(b, period)
  {
    assert EndsInItsYear(b);
    if period.Some? && period.value.Day? {
      var x, y := EndingOn(a, period.value.date), EndingOn(b, period.value.date);
      assert x.Outside? <==> y.Outside?;
    }
  }

  lemma {:induction false} SameCandidates(a: Truth, b: Truth, concepts: seq<string>, years: seq<int>, hint: Hint)
    requires forall c, y :: Value(a, c, y) == Value(b, c, y)
    ensures CandidatesOfAll(a, concepts, years, hint) == CandidatesOfAll(b, concepts, years, hint)
  {
    if concepts != [] {
      SameCandidates(a, b, concepts[..|concepts| - 1], years, hint);
      SameCandidatesOf(a, b, concepts[|concepts| - 1], years, hint);
    }
  }

  lemma {:induction false} SameCandidatesOf(a: Truth, b: Truth, concept: string, years: seq<int>, hint: Hint)
    requires forall c, y :: Value(a, c, y) == Value(b, c, y)
    ensures CandidatesOf(a, concept, years, hint) == CandidatesOf(b, concept, years, hint)
  {
    if years != [] { SameCandidatesOf(a, b, concept, years[..|years| - 1], hint); }
  }

  /** The order in which the basket lists its observations decides nothing. */
  lemma OrderDecidesNothing(n: Numeral, a: Truth, b: Truth, rules: Rules)
    requires SameFigures(a.observations, b.observations) && EndsInItsYear(a.observations)
    requires a.derived == b.derived
    ensures Classified(n, a, rules) == Classified(n, b, rules)
  {
    SamePeriods(a.observations, b.observations);
    SameYear(a.observations, b.observations, n.period);
    forall c, y ensures Value(a, c, y) == Value(b, c, y) { SameFiled(a.observations, b.observations, c, y); }
    var years, hint := Periods(a.observations), YearOf(a.observations, n.period);
    SameCandidates(a, b, Concepts(n, rules), years, hint);
    SameCandidates(a, b, rules.every, years, hint);
  }

  lemma LooksUpAlike(a: Truth, b: Truth, d: F.Derivation, y: int)
    requires F.FiguresOf(a.observations, y) == F.FiguresOf(b.observations, y)
    requires F.IsDerived(a.observations, a.derived) && F.IsDerived(b.observations, b.derived)
    ensures F.Lookup(a.derived, (d, y)) == F.Lookup(b.derived, (d, y))
  {
    hide F.FiguresOf, F.Derives;
    var x, z := F.Lookup(a.derived, (d, y)), F.Lookup(b.derived, (d, y));
    if x.Some? { assert F.Derives(F.FiguresOf(a.observations, y), d, x.value); }
    if z.Some? { assert F.Derives(F.FiguresOf(b.observations, y), d, z.value); }
  }

  lemma FiguresAlike(a: seq<F.Observation>, b: seq<F.Observation>, y: int)
    requires forall c, y :: F.Filed(a, c, y) == F.Filed(b, c, y)
    ensures F.FiguresOf(a, y) == F.FiguresOf(b, y)
  {
    hide F.Filed;
  }

  lemma SameDerived(a: Truth, b: Truth)
    requires forall c, y :: F.Filed(a.observations, c, y) == F.Filed(b.observations, c, y)
    requires F.IsDerived(a.observations, a.derived) && F.IsDerived(b.observations, b.derived)
    ensures a.derived == b.derived
  {
    forall k: (F.Derivation, int) ensures F.Lookup(a.derived, k) == F.Lookup(b.derived, k) {
      var (d, y) := k;
      FiguresAlike(a.observations, b.observations, y);
      LooksUpAlike(a, b, d, y);
    }
    SameMaps(a.derived, b.derived);
  }

  lemma SameMaps(m: map<(F.Derivation, int), real>, n: map<(F.Derivation, int), real>)
    requires forall k :: F.Lookup(m, k) == F.Lookup(n, k)
    ensures m == n
  {
    forall k: (F.Derivation, int) ensures (k in m <==> k in n) && (k in m ==> m[k] == n[k]) {
      assert F.Lookup(m, k) == F.Lookup(n, k);
    }
  }

  /** So two readings of one archived document judge every numeral alike. */
  lemma OneDocumentOneVerdict(n: Numeral, a: Truth, b: Truth, rules: Rules, doc: F.Document, table: seq<F.Entry>, asOf: int)
    requires F.Built(a.observations, doc, table, asOf) && F.Built(b.observations, doc, table, asOf)
    requires F.IsDerived(a.observations, a.derived) && F.IsDerived(b.observations, b.derived)
    ensures Classified(n, a, rules) == Classified(n, b, rules)
  {
    forall o ensures o in a.observations <==> o in b.observations {
      F.OneBasket(a.observations, b.observations, doc, table, asOf, o);
    }
    forall o | o in a.observations ensures o.end.year == o.fiscalYear {
      F.FiscalYearIsTheEnds(doc, table, asOf, a.observations, o);
    }
    forall c, y ensures F.Filed(a.observations, c, y) == F.Filed(b.observations, c, y) {
      SameFiled(a.observations, b.observations, c, y);
    }
    SameDerived(a, b);
    OrderDecidesNothing(n, a, b, rules);
  }

  /* ---------- The summary ---------- */

  function Of(list: seq<Classification>, kind: Kind): (r: seq<Classification>)
    ensures |r| <= |list| && forall c <- r :: c.kind == kind
  {
    if list == [] then []
    else
      (if list[0].kind == kind then [list[0]] else []) + Of(list[1..], kind)
  }

  function CountOf(list: seq<Classification>, kind: Kind): nat {
    if list == [] then 0 else (if list[0].kind == kind then 1 else 0) + CountOf(list[1..], kind)
  }

  datatype Summary = Summary(
    numerals: nat, byKind: Kind -> nat, checkable: nat, matched: nat, approx: nat, contradicted: nat,
    share: Option<real>, contradictions: seq<Classification>, approximations: seq<Classification>)

  function Summarise(list: seq<Classification>): Summary {
    var count := (k: Kind) => CountOf(list, k);
    var checkable := count(Matched) + count(MatchedUnhinted) + count(Approx) + count(Contradicted);
    var approximations := Of(list, Approx);
    Summary(|list|, count, checkable, count(Matched) + count(MatchedUnhinted), count(Approx), count(Contradicted),
      if checkable > 0 then Some(count(Contradicted) as real / checkable as real) else None,
      Of(list, Contradicted), if |approximations| <= 40 then approximations else approximations[..40])
  }

  lemma {:induction false} CountsPartition(list: seq<Classification>)
    ensures CountOf(list, Excluded) + CountOf(list, OutsideTruth) + CountOf(list, Matched) + CountOf(list, Approx)
          + CountOf(list, Contradicted) + CountOf(list, CheckableAbsent) + CountOf(list, MatchedUnhinted)
          + CountOf(list, Unknown) == |list|
  {
    if list != [] { CountsPartition(list[1..]); }
  }

  lemma {:induction false} CountIsLength(list: seq<Classification>, kind: Kind)
    ensures |Of(list, kind)| == CountOf(list, kind)
  {
    if list != [] { CountIsLength(list[1..], kind); }
  }

  /** Every numeral is counted under one kind; the share is a share; and the contradictions listed are
      as many as were counted. */
  lemma SummaryIsAPartition(list: seq<Classification>)
    ensures var s := Summarise(list);
            && s.numerals == s.checkable + s.byKind(Excluded) + s.byKind(OutsideTruth) + s.byKind(CheckableAbsent) + s.byKind(Unknown)
            && s.checkable == s.matched + s.approx + s.contradicted
            && (s.share.None? <==> s.checkable == 0)
            && (s.share.Some? ==> 0.0 <= s.share.value <= 1.0)
            && (s.share.Some? ==> s.share.value * s.checkable as real == s.contradicted as real)
            && |s.contradictions| == s.contradicted == s.byKind(Contradicted) && s.approx == s.byKind(Approx)
            && s.matched == s.byKind(Matched) + s.byKind(MatchedUnhinted)
  {
    CountsPartition(list);
    CountIsLength(list, Contradicted);
    hide CountOf, Of;
    var s := Summarise(list);
    if s.checkable > 0 { ShareIsAShare(s.contradicted, s.checkable); }
  }

  /** Listed are exactly the contradictions, and the first forty of the approximations. */
  lemma SummaryLists(list: seq<Classification>, c: Classification)
    ensures var s := Summarise(list);
            && (c in s.contradictions <==> c in list && c.kind == Contradicted)
            && (c in s.approximations ==> c in list && c.kind == Approx)
            && s.approximations <= Of(list, Approx) && |s.approximations| == if s.approx <= 40 then s.approx else 40
  {
    CountIsLength(list, Approx);
    OfOneKind(list, Contradicted, c);
    OfOneKind(list, Approx, c);
    var all := Of(list, Approx);
    assert multiset(all)[c] > 0 <==> c in all;
    assert c in all[..if |all| <= 40 then |all| else 40] ==> c in all;
  }

  /** A list of one kind: the classifications of that kind, each as often and none besides. */
  lemma {:induction false} OfOneKind(list: seq<Classification>, kind: Kind, c: Classification)
    ensures multiset(Of(list, kind))[c] == if c.kind == kind then multiset(list)[c] else 0
    ensures c in Of(list, kind) <==> c in list && c.kind == kind
  {
    if list != [] {
      assert list == [list[0]] + list[1..];
      OfOneKind(list[1..], kind, c);
    }
  }

  /** And they keep their order. */
  lemma {:induction false} OfKeepsOrder(a: seq<Classification>, b: seq<Classification>, kind: Kind)
    ensures Of(a + b, kind) == Of(a, kind) + Of(b, kind)
  {
    if a == [] {
      assert a + b == b;
    } else {
      assert (a + b)[1..] == a[1..] + b;
      OfKeepsOrder(a[1..], b, kind);
    }
  }

  lemma ShareIsAShare(part: nat, whole: nat)
    requires part <= whole && whole > 0
    ensures 0.0 <= part as real / whole as real <= 1.0
    ensures (part as real / whole as real) * whole as real == part as real
  {
    var x, y := part as real, whole as real;
    ShareOf(x, y, 0.0);
    ShareOf(x, y, 1.0);
    assert (x / y) * y == x;
  }
}
