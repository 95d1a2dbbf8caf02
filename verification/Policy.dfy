/** What a careful operator would decide at each gate, over what the gate displays. */
module Policy {
  import opened Options
  import opened Text
  import opened Framing

  datatype Gate =
    | PLAN | UNMAPPED_CONCEPTS | PEER_SET | SECTOR_SPECIALIST
    | THEME_SET | ASSUMPTIONS | BUDGET | FINAL | THESIS

  /** A number the operator states; `GateRow` is a number as the gate shows it, `None` when the
      text on the row is not a number. */
  datatype OperatorRow = OperatorRow(name: string, value: real, unit: string)
  datatype GateRow = GateRow(name: string, value: Option<real>, unit: string)
  datatype SectionStatus = Generated | Pending | Lost

  /** The part of a gate's display the policy reads; `rest` is everything else that is hashed. */
  datatype Payload = Payload(
    plannedSources: seq<string>,
    sectorKey: string,
    loadErrors: seq<string>,
    outstanding: seq<string>,
    assumptions: seq<GateRow>,
    sections: seq<SectionStatus>,
    triggers: seq<string>,
    rest: nat)

  datatype Subject = Subject(expectedSector: Option<string>, assumptions: seq<OperatorRow>)

  datatype Reason =
    | NoFiling | UnexpectedSector | SectorMismatch | LoadErrors | NoFacts
    | Outstanding(name: string)
    | PendingSections | TooManyLost | LookAhead | FailedMetrics | UnknownGate

  datatype Verdict = Verdict(
    approve: bool, supply: seq<OperatorRow>, amend: seq<OperatorRow>, stopReason: Option<Reason>)

  const MIN_SECTIONS_GENERATED := 17
  const RATIO_UNIT := "pure"
  const APPROVED := Verdict(true, [], [], None)

  function Refuse(reason: Reason): Verdict { Verdict(false, [], [], Some(reason)) }

  /* ---------- Plan, sector, unmapped concepts, final ---------- */

  const FILING_WORDS := ["10-k", "20-f", "annual report", "10-q", "edgar", "sec"]

  predicate NamesFiling(sources: seq<string>) {
    exists word <- FILING_WORDS :: Find(LowerAll(Join(sources, " ")), word).Some?
  }

  function DecidePlan(payload: Payload): Verdict {
    if NamesFiling(payload.plannedSources) then APPROVED else Refuse(NoFiling)
  }

  function DecideSector(payload: Payload, subject: Subject): Verdict {
    if subject.expectedSector.None? then Refuse(UnexpectedSector)
    else if payload.sectorKey != subject.expectedSector.value then Refuse(SectorMismatch)
    else APPROVED
  }

  function DecideUnmapped(payload: Payload, factsChosen: int): Verdict {
    if payload.loadErrors != [] then Refuse(LoadErrors)
    else if factsChosen <= 0 then Refuse(NoFacts)
    else APPROVED
  }

  function CountGenerated(sections: seq<SectionStatus>): (n: nat)
    ensures n == multiset(sections)[Generated]
  {
    if sections == [] then 0 else
      assert sections == [sections[0]] + sections[1..];
      (if sections[0].Generated? then 1 else 0) + CountGenerated(sections[1..])
  }

  function DecideFinal(payload: Payload, failedMetrics: seq<string>): Verdict {
    if Pending in payload.sections then Refuse(PendingSections)
    else if CountGenerated(payload.sections) < MIN_SECTIONS_GENERATED then Refuse(TooManyLost)
    else if exists t <- payload.triggers :: Find(LowerAll(t), "look").Some? then Refuse(LookAhead)
    else if failedMetrics != [] then Refuse(FailedMetrics)
    else APPROVED
  }

  /* ---------- Assumptions ---------- */

  /** The plausibility band of a base name, as fractions. */
  function Bounds(base: string): (band: Option<(real, real)>)
    ensures band.Some? ==> band.value.0 < band.value.1
  {
    if base == "risk_free_rate" then Some((0.03, 0.055))
    else if base == "equity_risk_premium" then Some((0.04, 0.065))
    else if base == "terminal_growth" then Some((0.0, 0.035))
    else if base == "beta" then Some((0.3, 2.0))
    else if base == "exit_multiple" then Some((4.0, 30.0))
    else if base == "cost_of_debt" then Some((0.02, 0.10))
    else if base == "tax_rate" then Some((0.0, 0.35))
    else if base == "revenue_growth" then Some((-0.20, 0.50))
    else if base == "ebit_margin" then Some((-0.20, 0.70))
    else if base == "capex_intensity" then Some((0.0, 0.50))
    else if base == "depreciation_intensity" then Some((0.0, 0.30))
    else if base == "working_capital_intensity" then Some((-0.50, 0.50))
    else if base == "return_on_equity" then Some((-0.20, 0.40))
    else if base == "payout_ratio" then Some((0.0, 1.0))
    else None
  }

  /** The name up to the last `_y`, the mark of a forecast year; all of it when there is none. */
  function BaseOf(name: string): string
  {
    match Find(name, "_y")
    case None => name
    case Some(i) =>
      var tail := name[i + 2..];
      if Find(tail, "_y").Some? then name[..i + 2] + BaseOf(tail) else name[..i]
  }

  function AsFraction(value: Option<real>, unit: string): Option<real> {
    match value
    case None => None
    case Some(v) =>
      var u := LowerAll(unit);
      if u == "percent" || u == "%" || u == "pct" then Some(v / 100.0) else Some(v)
  }

  function Clamp(x: real, low: real, high: real): real {
    var raised := if x < low then low else x;
    if raised > high then high else raised
  }

  /** Whether a row's value, read as a fraction, is a number outside the band of its name. */
  predicate OutOfBand(row: GateRow) {
    var band := Bounds(BaseOf(row.name));
    var fraction := AsFraction(row.value, row.unit);
    band.Some? && fraction.Some? && (fraction.value < band.value.0 || fraction.value > band.value.1)
  }

  function Amended(row: GateRow): OperatorRow
    requires OutOfBand(row)
  {
    var (low, high) := Bounds(BaseOf(row.name)).value;
    OperatorRow(row.name, Clamp(AsFraction(row.value, row.unit).value, low, high), RATIO_UNIT)
  }

  function Amendments(rows: seq<GateRow>): seq<OperatorRow> {
    if rows == [] then []
    else Amendments(rows[..|rows| - 1]) +
         (if OutOfBand(rows[|rows| - 1]) then [Amended(rows[|rows| - 1])] else [])
  }

  /** The operator's statement for a name: the last one, as a dictionary keeps it. */
  function Stated(assumptions: seq<OperatorRow>, name: string): (r: Option<OperatorRow>)
    ensures r.Some? ==> r.value in assumptions && r.value.name == name
    ensures r.None? <==> forall a <- assumptions :: a.name != name
  {
    if assumptions == [] then None
    else
      var last := assumptions[|assumptions| - 1];
      assert assumptions == assumptions[..|assumptions| - 1] + [last];
      if last.name == name then Some(last) else Stated(assumptions[..|assumptions| - 1], name)
  }

  predicate AllStated(names: seq<string>, subject: Subject) {
    forall n <- names :: Stated(subject.assumptions, n).Some?
  }

  function Supplies(names: seq<string>, subject: Subject): (r: seq<OperatorRow>)
    requires AllStated(names, subject)
    ensures |r| == |names|
    ensures forall i :: 0 <= i < |r| ==> Some(r[i]) == Stated(subject.assumptions, names[i])
  {
    seq(|names|, i requires 0 <= i < |names| => Stated(subject.assumptions, names[i]).value)
  }

  function FirstUnstated(names: seq<string>, subject: Subject): (n: string)
    requires !AllStated(names, subject)
    ensures n in names && Stated(subject.assumptions, n).None?
  {
    if Stated(subject.assumptions, names[0]).None? then names[0]
    else
      assert names == [names[0]] + names[1..];
      FirstUnstated(names[1..], subject)
  }

  function AssumptionsVerdict(payload: Payload, subject: Subject): Verdict {
    if AllStated(payload.outstanding, subject) then
      Verdict(true, Supplies(payload.outstanding, subject), Amendments(payload.assumptions), None)
    else Refuse(Outstanding(FirstUnstated(payload.outstanding, subject)))
  }

  /** The two loops of the policy, against the function above. */
  method DecideAssumptions(payload: Payload, subject: Subject) returns (verdict: Verdict)
    ensures verdict == AssumptionsVerdict(payload, subject)
  {
    hide OutOfBand, Amended, Bounds;
    var supply: seq<OperatorRow> := [];
    for i := 0 to |payload.outstanding|
      invariant AllStated(payload.outstanding[..i], subject)
      invariant supply == Supplies(payload.outstanding[..i], subject)
    {
      var name := payload.outstanding[i];
      var prefix := payload.outstanding[..i];
      assert payload.outstanding[..i + 1] == prefix + [name];
      var stated := Stated(subject.assumptions, name);
      if stated.None? {
        FirstUnstatedIs(prefix, name, payload.outstanding[i + 1..], subject);
        assert payload.outstanding == prefix + [name] + payload.outstanding[i + 1..];
        return Refuse(Outstanding(name));
      }
      supply := supply + [stated.value];
    }
    assert payload.outstanding[..|payload.outstanding|] == payload.outstanding;
    var amend: seq<OperatorRow> := [];
    for i := 0 to |payload.assumptions|
      invariant amend == Amendments(payload.assumptions[..i])
    {
      var row := payload.assumptions[i];
      assert payload.assumptions[..i + 1][..i] == payload.assumptions[..i];
      if OutOfBand(row) { amend := amend + [Amended(row)]; }
    }
    assert payload.assumptions[..|payload.assumptions|] == payload.assumptions;
    return Verdict(true, supply, amend, None);
  }

  lemma {:induction false} FirstUnstatedIs(
    before: seq<string>, name: string, after: seq<string>, subject: Subject)
    requires AllStated(before, subject) && Stated(subject.assumptions, name).None?
    ensures !AllStated(before + [name] + after, subject)
    ensures FirstUnstated(before + [name] + after, subject) == name
  {
    var all := before + [name] + after;
    assert all[|before|] == name;
    if before != [] {
      assert before[0] in before;
      forall n | n in before[1..] ensures Stated(subject.assumptions, n).Some? { assert n in before; }
      assert all[1..] == before[1..] + [name] + after;
      FirstUnstatedIs(before[1..], name, after, subject);
    }
  }

  /* ---------- Dispatch ---------- */

  function Decide(
    gate: Gate, payload: Payload, subject: Subject, factsChosen: int, failedMetrics: seq<string>): Verdict
  {
    match gate
    case PLAN => DecidePlan(payload)
    case SECTOR_SPECIALIST => DecideSector(payload, subject)
    case PEER_SET => APPROVED
    case THEME_SET => APPROVED
    case UNMAPPED_CONCEPTS => DecideUnmapped(payload, factsChosen)
    case ASSUMPTIONS => AssumptionsVerdict(payload, subject)
    case FINAL => DecideFinal(payload, failedMetrics)
    case BUDGET => Refuse(UnknownGate)
    case THESIS => Refuse(UnknownGate)
  }

  /** Every refusal says why, no approval carries a reason, and only the assumptions gate writes
      rows. The driver's exit reasons rest on this. */
  lemma RefusalsCarryReasons(
    gate: Gate, payload: Payload, subject: Subject, factsChosen: int, failedMetrics: seq<string>)
    ensures var v := Decide(gate, payload, subject, factsChosen, failedMetrics);
            && (v.approve <==> v.stopReason.None?)
            && (v.supply != [] || v.amend != [] ==> gate == ASSUMPTIONS && v.approve)
            && (gate == BUDGET || gate == THESIS ==> !v.approve)
  {
  }

  /** The reason of a refusal is the first thing, in this order, that stands against the gate. */
  lemma ReasonsAre(gate: Gate, payload: Payload, subject: Subject, factsChosen: int, failedMetrics: seq<string>)
    ensures var why := Decide(gate, payload, subject, factsChosen, failedMetrics).stopReason;
            match gate
            case PLAN => why in {None, Some(NoFiling)}
            case SECTOR_SPECIALIST =>
              && (why == Some(UnexpectedSector) <==> subject.expectedSector.None?)
              && (why == Some(SectorMismatch) <==> exists s :: subject.expectedSector == Some(s) && s != payload.sectorKey)
            case PEER_SET => why.None?
            case THEME_SET => why.None?
            case UNMAPPED_CONCEPTS =>
              && (why == Some(LoadErrors) <==> |payload.loadErrors| > 0)
              && (why == Some(NoFacts) <==> |payload.loadErrors| == 0 && factsChosen < 1)
            case ASSUMPTIONS => why.None? || (why.value.Outstanding? && why.value.name in payload.outstanding)
            case BUDGET => why == Some(UnknownGate)
            case THESIS => why == Some(UnknownGate)
            case FINAL =>
              var open, lost := multiset(payload.sections)[Pending], multiset(payload.sections)[Lost];
              var looks := exists t <- payload.triggers :: Mentions(t, "look");
              && (why == Some(PendingSections) <==> open > 0)
              && (why == Some(TooManyLost) <==> open == 0 && |payload.sections| < MIN_SECTIONS_GENERATED + lost)
              && (why == Some(LookAhead) <==> open == 0 && |payload.sections| >= MIN_SECTIONS_GENERATED + lost && looks)
              && (why == Some(FailedMetrics) <==>
                    open == 0 && |payload.sections| >= MIN_SECTIONS_GENERATED + lost && !looks && |failedMetrics| > 0)
  {
    hide Mentions, NamesFiling;
    if gate == FINAL {
      forall t ensures Mentions(t, "look") <==> Find(LowerAll(t), "look").Some? { MentionsIsFound(t, "look"); }
      if Pending !in payload.sections { NoneOpen(payload.sections); }
      assert Pending in payload.sections <==> Pending in multiset(payload.sections);
    }
  }

  ghost predicate Mentions(text: string, word: string) { exists i: nat :: At(LowerAll(text), word, i) }

  lemma MentionsIsFound(text: string, word: string)
    ensures Mentions(text, word) <==> Find(LowerAll(text), word).Some?
  {
    FindIsFirst(LowerAll(text), word);
  }

  /** What a draft must be to pass the final gate: no section open, no more lost than the policy bears,
      and nothing fired against it. */
  ghost predicate Whole(payload: Payload, failedMetrics: seq<string>) {
    && Pending !in payload.sections
    && |payload.sections| - multiset(payload.sections)[Lost] >= MIN_SECTIONS_GENERATED
    && (forall t <- payload.triggers :: !Mentions(t, "look"))
    && failedMetrics == []
  }

  lemma {:induction false} NoneOpen(sections: seq<SectionStatus>)
    requires Pending !in sections
    ensures CountGenerated(sections) + multiset(sections)[Lost] == |sections|
  {
    if sections != [] {
      assert sections == [sections[0]] + sections[1..];
      NoneOpen(sections[1..]);
    }
  }

  /** A gate is approved exactly when what it shows is what the audit asks of it. */
  lemma ApprovedExactly(
    gate: Gate, payload: Payload, subject: Subject, factsChosen: int, failedMetrics: seq<string>)
    ensures Decide(gate, payload, subject, factsChosen, failedMetrics).approve <==>
              match gate
              case PLAN => exists w <- FILING_WORDS :: Mentions(Join(payload.plannedSources, " "), w)
              case SECTOR_SPECIALIST => subject.expectedSector == Some(payload.sectorKey)
              case PEER_SET => true
              case THEME_SET => true
              case UNMAPPED_CONCEPTS => payload.loadErrors == [] && factsChosen > 0
              case ASSUMPTIONS => forall n <- payload.outstanding :: exists a <- subject.assumptions :: a.name == n
              case FINAL => Whole(payload, failedMetrics)
              case BUDGET => false
              case THESIS => false
  {
    hide Mentions;
    match gate {
      case PLAN =>
        forall w | w in FILING_WORDS
          ensures Mentions(Join(payload.plannedSources, " "), w) <==> Find(LowerAll(Join(payload.plannedSources, " ")), w).Some?
        {
          MentionsIsFound(Join(payload.plannedSources, " "), w);
        }
      case FINAL =>
        forall t | t in payload.triggers ensures Mentions(t, "look") <==> Find(LowerAll(t), "look").Some? { MentionsIsFound(t, "look"); }
        if Pending !in payload.sections { NoneOpen(payload.sections); }
      case SECTOR_SPECIALIST => case PEER_SET => case THEME_SET => case UNMAPPED_CONCEPTS =>
      case ASSUMPTIONS => case BUDGET => case THESIS =>
    }
  }

  /* ---------- What an amendment is, and what is left after it ---------- */

  function Distance(x: real, y: real): (d: real)
    ensures d >= 0.0 && d in {x - y, y - x}
  {
    if x < y then y - x else x - y
  }

  /** The base of a forecast name is what stands before its last `_y`; any other name is its own base. */
  lemma {:induction false} BaseOfForecast(base: string, year: string)
    requires forall i: nat :: !At(year, "_y", i)
    ensures BaseOf(base + "_y" + year) == base
    decreases |base|
  {
    hide At;
    var name := base + "_y" + year;
    var i := FirstMark(base, year);
    var tail := name[i + 2..];
    if i == |base| {
      assert tail == year && name[..i] == base;
      FindIsFirst(year, "_y");
    } else {
      assert tail == base[i + 2..] + "_y" + year;
      BaseOfForecast(base[i + 2..], year);
      var k := FirstMark(base[i + 2..], year);
      assert name[..i + 2] + base[i + 2..] == base;
    }
  }

  /** A name's first mark is the last one, or lies wholly before it. */
  lemma FirstMark(base: string, year: string) returns (i: nat)
    ensures Find(base + "_y" + year, "_y") == Some(i) && (i == |base| || i + 2 <= |base|)
  {
    var name := base + "_y" + year;
    FindIsFirst(name, "_y");
    assert name[|base|..] == "_y" + year;
    assert At(name, "_y", |base|);
    i := Find(name, "_y").value;
    assert "_y" <= name[i..] && name[i..][1] == name[i + 1];
  }

  lemma BaseOfPlain(name: string)
    requires forall i: nat :: !At(name, "_y", i)
    ensures BaseOf(name) == name
  {
    FindIsFirst(name, "_y");
  }

  /** A percentage is a hundredth of its number, any other unit leaves it; a row is out of its band exactly when
      it is a number beyond one of the bounds. */
  lemma OutOfBandExactly(row: GateRow)
    ensures OutOfBand(row) <==>
      && Bounds(BaseOf(row.name)).Some? && row.value.Some?
      && var (low, high) := Bounds(BaseOf(row.name)).value;
         var number := row.value.value;
         if LowerAll(row.unit) in {"percent", "%", "pct"} then number < 100.0 * low || 100.0 * high < number
         else number < low || high < number
  {
  }

  /** The amended value is the one point of the band nearest to what was proposed. */
  lemma AmendedIsNearest(row: GateRow, v: real)
    requires OutOfBand(row)
    ensures var (low, high) := Bounds(BaseOf(row.name)).value;
            var x := AsFraction(row.value, row.unit).value;
            && low <= Amended(row).value <= high
            && (low <= v <= high && v != Amended(row).value ==> Distance(x, Amended(row).value) < Distance(x, v))
  {
  }

  /** A row as the gate displays it once it has been written. */
  function Shown(row: OperatorRow): GateRow { GateRow(row.name, Some(row.value), row.unit) }

  /** Writing a row replaces the row of that name, or adds one. */
  function Write(rows: seq<GateRow>, row: OperatorRow): seq<GateRow> {
    if rows == [] then [Shown(row)]
    else if rows[0].name == row.name then [Shown(row)] + rows[1..]
    else [rows[0]] + Write(rows[1..], row)
  }

  function WriteAll(rows: seq<GateRow>, writes: seq<OperatorRow>): seq<GateRow> {
    if writes == [] then rows
    else Write(WriteAll(rows, writes[..|writes| - 1]), writes[|writes| - 1])
  }

  predicate HasRow(rows: seq<GateRow>, name: string) {
    exists r <- rows :: r.name == name
  }

  function StillOutstanding(names: seq<string>, rows: seq<GateRow>): (left: seq<string>)
    ensures forall n :: n in left <==> n in names && !HasRow(rows, n)
  {
    if names == [] then []
    else (if HasRow(rows, names[0]) then [] else [names[0]]) + StillOutstanding(names[1..], rows)
  }

  /** The display rebuilt from the rows after a verdict's rows were written. */
  function Refreshed(payload: Payload, verdict: Verdict): Payload {
    var rows := WriteAll(payload.assumptions, verdict.supply + verdict.amend);
    payload.(assumptions := rows, outstanding := StillOutstanding(payload.outstanding, rows))
  }

  ghost predicate DistinctNames(rows: seq<GateRow>) {
    forall i, j :: 0 <= i < j < |rows| ==> rows[i].name != rows[j].name
  }

  lemma {:induction false} WriteEffect(rows: seq<GateRow>, row: OperatorRow)
    requires DistinctNames(rows)
    ensures DistinctNames(Write(rows, row))
    ensures forall r :: r in Write(rows, row) <==> r == Shown(row) || (r in rows && r.name != row.name)
  {
    if rows != [] {
      var out := Write(rows, row);
      assert rows == [rows[0]] + rows[1..];
      if rows[0].name == row.name {
        forall r ensures r in out <==> r == Shown(row) || (r in rows && r.name != row.name) {
          if r in rows && r.name != row.name { assert r in rows[1..]; }
        }
      } else {
        WriteEffect(rows[1..], row);
        var rest := Write(rows[1..], row);
        assert out == [rows[0]] + rest;
        forall j | 0 <= j < |rest| ensures rest[j].name != rows[0].name {
          assert rest[j] in rest;
        }
      }
    }
  }

  /** The row is a statement of its name, and none after it in the list is. */
  ghost predicate StatedLast(writes: seq<OperatorRow>, row: GateRow) {
    exists i :: LastOfItsName(writes, i) && row == GateRow(writes[i].name, Some(writes[i].value), writes[i].unit)
  }

  ghost predicate LastOfItsName(writes: seq<OperatorRow>, i: int) {
    0 <= i < |writes| && forall j :: i < j < |writes| ==> writes[j].name != writes[i].name
  }

  /** Of several statements for a name the last one counts. */
  lemma {:induction false} StatedIsLast(writes: seq<OperatorRow>, name: string)
    ensures match Stated(writes, name)
            case None => forall w <- writes :: w.name != name
            case Some(w) =>
              && (exists i :: LastOfItsName(writes, i) && writes[i] == w && w.name == name)
              && forall row: GateRow :: row.name == name ==> (StatedLast(writes, row) <==> row == Shown(w))
  {
    if writes != [] {
      var n := |writes| - 1;
      var shorter, last := writes[..n], writes[n];
      assert writes == shorter + [last];
      StatedIsLast(shorter, name);
      if last.name == name {
        assert LastOfItsName(writes, n);
      } else if Stated(shorter, name).Some? {
        var i :| LastOfItsName(shorter, i) && shorter[i] == Stated(shorter, name).value && shorter[i].name == name;
        assert LastOfItsName(writes, i);
      }
    }
  }

  /** A name's row after a list of writes: the last write of the name, else the row it had. */
  lemma {:induction false} WriteAllEffect(rows: seq<GateRow>, writes: seq<OperatorRow>)
    requires DistinctNames(rows)
    ensures DistinctNames(WriteAll(rows, writes))
    ensures forall r :: r in WriteAll(rows, writes) <==>
              (match Stated(writes, r.name) case Some(w) => r == Shown(w) case None => r in rows)
  {
    if writes != [] {
      var last := writes[|writes| - 1];
      WriteAllEffect(rows, writes[..|writes| - 1]);
      WriteEffect(WriteAll(rows, writes[..|writes| - 1]), last);
    }
  }

  lemma {:induction false} NoAmendmentsExactly(rows: seq<GateRow>)
    ensures Amendments(rows) == [] <==> forall r <- rows :: !OutOfBand(r)
  {
    if rows != [] {
      assert rows == rows[..|rows| - 1] + [rows[|rows| - 1]];
      NoAmendmentsExactly(rows[..|rows| - 1]);
    }
  }

  lemma {:induction false} AmendmentsAre(rows: seq<GateRow>)
    ensures forall a :: a in Amendments(rows) <==> exists r <- rows :: OutOfBand(r) && a == Amended(r)
  {
    if rows != [] {
      assert rows == rows[..|rows| - 1] + [rows[|rows| - 1]];
      AmendmentsAre(rows[..|rows| - 1]);
    }
  }

  lemma AmendedIsInBand(row: GateRow)
    requires OutOfBand(row)
    ensures !OutOfBand(Shown(Amended(row)))
  {
    assert LowerAll(RATIO_UNIT) == "pure";
  }

  /** Deciding again over the rows the first decision wrote approves with nothing outstanding; it
      has nothing left to amend exactly when every value the operator supplied was itself in band.
      (An operator's own out-of-band number is written as stated and only then found outside.) */
  lemma RedecidingIsSettledExactly(payload: Payload, subject: Subject)
    requires AllStated(payload.outstanding, subject)
    requires DistinctNames(payload.assumptions)
    requires forall r <- payload.assumptions :: r.name !in payload.outstanding
    ensures var first := AssumptionsVerdict(payload, subject);
            var second := AssumptionsVerdict(Refreshed(payload, first), subject);
            && second.approve && second.supply == []
            && Refreshed(payload, first).outstanding == []
            && (second.amend == [] <==>
                forall n <- payload.outstanding :: !OutOfBand(Shown(Stated(subject.assumptions, n).value)))
  {
    var first := AssumptionsVerdict(payload, subject);
    var writes := first.supply + first.amend;
    var rows := WriteAll(payload.assumptions, writes);
    WriteAllEffect(payload.assumptions, writes);
    AmendmentsAre(payload.assumptions);
    NoAmendmentsExactly(rows);
    forall n | n in payload.outstanding
      ensures HasRow(rows, n) && Shown(Stated(subject.assumptions, n).value) in rows
    {
      SupplyIsWritten(payload, subject, n);
    }
    NothingOutstanding(payload.outstanding, rows);
    forall r | r in rows && r.name !in payload.outstanding ensures !OutOfBand(r) {
      AmendedRowsSettle(payload, subject, r);
    }
    forall r | r in rows && r.name in payload.outstanding
      ensures r == Shown(Stated(subject.assumptions, r.name).value)
    {
      SupplyIsWritten(payload, subject, r.name);
    }
  }

  lemma BetaOutOfBand()
    ensures OutOfBand(GateRow("beta", Some(3.0), "pure"))
  {
    FindIsFirst("beta", "_y");
    forall i: nat ensures !At("beta", "_y", i) {
      if i + 2 <= 4 { assert "beta"[i..][0] == "beta"[i] != '_'; }
    }
    assert BaseOf("beta") == "beta" && Bounds("beta") == Some((0.3, 2.0));
    var u := LowerAll("pure");
    assert u[1] == 'u' && u[0] == 'p' && |u| == 4;
  }

  /** Such an operator: a beta of 3 is supplied, and the second decision would amend it. */
  lemma RedecidingExample()
    ensures var payload := Payload([], "", [], ["beta"], [], [], [], 0);
            var subject := Subject(None, [OperatorRow("beta", 3.0, "pure")]);
            var first := AssumptionsVerdict(payload, subject);
            first.approve && AssumptionsVerdict(Refreshed(payload, first), subject).amend != []
  {
    var payload := Payload([], "", [], ["beta"], [], [], [], 0);
    var subject := Subject(None, [OperatorRow("beta", 3.0, "pure")]);
    var row := subject.assumptions[0];
    assert Stated(subject.assumptions, "beta") == Some(row);
    BetaOutOfBand();
    hide OutOfBand, Bounds;
    RedecidingIsSettledExactly(payload, subject);
    assert payload.outstanding[0] in payload.outstanding;
  }

  lemma {:induction false} NothingOutstanding(names: seq<string>, rows: seq<GateRow>)
    requires forall n <- names :: HasRow(rows, n)
    ensures StillOutstanding(names, rows) == []
  {
    if names != [] {
      assert names[0] in names;
      forall n | n in names[1..] ensures HasRow(rows, n) { assert n in names; }
      NothingOutstanding(names[1..], rows);
    }
  }

  lemma SupplyIsWritten(payload: Payload, subject: Subject, n: string)
    requires AllStated(payload.outstanding, subject) && DistinctNames(payload.assumptions)
    requires forall r <- payload.assumptions :: r.name !in payload.outstanding
    requires n in payload.outstanding
    ensures var first := AssumptionsVerdict(payload, subject);
            Stated(first.supply + first.amend, n) == Stated(subject.assumptions, n)
    ensures var first := AssumptionsVerdict(payload, subject);
            var rows := WriteAll(payload.assumptions, first.supply + first.amend);
            && Shown(Stated(subject.assumptions, n).value) in rows
            && HasRow(rows, n)
            && forall r <- rows :: r.name == n ==> r == Shown(Stated(subject.assumptions, n).value)
  {
    var first := AssumptionsVerdict(payload, subject);
    var writes := first.supply + first.amend;
    AmendmentsAre(payload.assumptions);
    var i :| 0 <= i < |payload.outstanding| && payload.outstanding[i] == n;
    assert first.supply[i] in writes by { assert writes[i] == first.supply[i]; }
    var w := Stated(writes, n).value;
    forall a | a in first.amend ensures a.name !in payload.outstanding {
      var r :| r in payload.assumptions && OutOfBand(r) && a == Amended(r);
    }
    assert w in first.supply;
    WriteAllEffect(payload.assumptions, writes);
    assert Shown(w).name == n;
  }

  lemma AmendedRowsSettle(payload: Payload, subject: Subject, r: GateRow)
    requires AllStated(payload.outstanding, subject) && DistinctNames(payload.assumptions)
    requires var first := AssumptionsVerdict(payload, subject);
             r in WriteAll(payload.assumptions, first.supply + first.amend)
    requires r.name !in payload.outstanding
    ensures !OutOfBand(r)
  {
    var first := AssumptionsVerdict(payload, subject);
    var writes := first.supply + first.amend;
    WriteAllEffect(payload.assumptions, writes);
    AmendmentsAre(payload.assumptions);
    forall x | x in payload.assumptions && OutOfBand(x) ensures Amended(x) in writes {
      assert Amended(x) in first.amend;
    }
    match Stated(writes, r.name)
    case Some(w) =>
      assert w in first.amend;
      var was :| was in payload.assumptions && OutOfBand(was) && w == Amended(was);
      AmendedIsInBand(was);
    case None =>
  }
}
