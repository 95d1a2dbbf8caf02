/** Clearing the gate a run waits at, one query at a time, with the worker free to move in between.

    `ClearPendingGate` is the driver's own sequence of reads and writes. `Clear` is the same decision
    taken on one unmoving state: the two agree whenever nobody else has a task to execute. */
module Gates {
  import opened Options
  import opened Policy
  import opened Platform

  datatype Stop =
    | NoPendingGate
    | PostApproval(gate: Gate)
    | SealDrift(gate: Gate)
    | PolicyRefused(gate: Gate, reason: Reason)

  /** `Failed` is an exception leaving the call with its transaction rolled back. */
  datatype Outcome =
    | NotWaiting | Cleared(gate: Gate) | Resealed | Stopped(stop: Stop) | Failed

  const GATE_ORDER: seq<Gate> := [
    PLAN, UNMAPPED_CONCEPTS, PEER_SET, SECTOR_SPECIALIST, THEME_SET, ASSUMPTIONS, BUDGET, FINAL]

  /** The gates a run may never open; the other two are asked of every run. */
  predicate Conditional(gate: Gate) { gate != PLAN && gate != FINAL }

  /** The gates whose own step seals a hash that the display must still reproduce. */
  predicate SealChecked(gate: Gate): (checked: bool)
    ensures gate in {ASSUMPTIONS, BUDGET, FINAL, THESIS} ==> !checked
    ensures match gate case ASSUMPTIONS => true case BUDGET => true case FINAL => true case THESIS => true case _ => checked
  {
    gate in {PLAN, SECTOR_SPECIALIST, PEER_SET, THEME_SET, UNMAPPED_CONCEPTS}
  }

  /** The gate order's answer for a run whose pause names no gate. */
  function NextUndecided(d: Db): Option<Gate> {
    if !Decided(d, PLAN) then Some(PLAN) else if !Decided(d, FINAL) then Some(FINAL) else None
  }

  function NamedGate(d: Db): Option<Gate> {
    var paused := PausedStep(d);
    if paused.Some? then paused.value.pause.gate else None
  }

  function PendingGate(d: Db): Option<Gate> {
    if NamedGate(d).Some? then NamedGate(d) else NextUndecided(d)
  }

  /** The audit's policy for a subject as the rules of a runtime: a verdict is taken over the display
      of one state and over the counts read from another. */
  function PolicyRules(build: (Db, Gate) -> Payload, hash: Payload -> Hash, subject: Subject): Rules {
    Rules(build, hash, (gate: Gate, shown: Db, d: Db) => Decide(gate, build(shown, gate), subject, d.factsChosen, d.failedMetrics))
  }

  lemma PolicyRulesCoherent(build: (Db, Gate) -> Payload, hash: Payload -> Hash, subject: Subject)
    ensures PolicyRules(build, hash, subject).Coherent()
    // A verdict depends on what the gate shows and on the two counts, and on nothing else.
    ensures forall gate: Gate, shown: Db, shown': Db, d: Db, d': Db ::
      build(shown, gate) == build(shown', gate) && d.factsChosen == d'.factsChosen && d.failedMetrics == d'.failedMetrics ==>
      PolicyRules(build, hash, subject).decide(gate, shown, d) == PolicyRules(build, hash, subject).decide(gate, shown', d')
  {
    forall gate: Gate, shown: Db, d: Db {
      RefusalsCarryReasons(gate, build(shown, gate), subject, d.factsChosen, d.failedMetrics);
    }
  }

  /* ---------- Writing the assumptions, then confirming every row ---------- */

  function WriteRow(rows: seq<Assumption>, row: OperatorRow): seq<Assumption> {
    if rows == [] then [Assumption(Shown(row), false)]
    else if rows[0].row.name == row.name then [Assumption(Shown(row), false)] + rows[1..]
    else [rows[0]] + WriteRow(rows[1..], row)
  }

  function WriteRows(rows: seq<Assumption>, writes: seq<OperatorRow>): seq<Assumption> {
    if writes == [] then rows
    else WriteRow(WriteRows(rows, writes[..|writes| - 1]), writes[|writes| - 1])
  }

  function ConfirmAll(rows: seq<Assumption>): (r: seq<Assumption>)
    ensures |r| == |rows| && forall i :: 0 <= i < |r| ==> r[i].approved && r[i].row == rows[i].row
  {
    seq(|rows|, i requires 0 <= i < |rows| => rows[i].(approved := true))
  }

  /** The rows as a gate shows them, whether confirmed or not. */
  function RowsOf(rows: seq<Assumption>): (r: seq<GateRow>)
    ensures |r| == |rows| && forall i :: 0 <= i < |r| ==> r[i] == rows[i].row
  {
    seq(|rows|, i requires 0 <= i < |rows| => rows[i].row)
  }

  ghost predicate AllConfirmed(d: Db) {
    forall a <- d.assumptions :: a.approved
  }

  function Confirmed(d: Db, verdict: Verdict): (r: Db)
    ensures AllConfirmed(r)
  {
    d.(assumptions := ConfirmAll(WriteRows(d.assumptions, verdict.supply + verdict.amend)))
  }

  /** What is stored is what the policy's own rows, written one after the other, come to. */
  lemma {:induction false} RowsWritten(rows: seq<Assumption>, writes: seq<OperatorRow>)
    ensures RowsOf(WriteRows(rows, writes)) == WriteAll(RowsOf(rows), writes)
    ensures RowsOf(ConfirmAll(WriteRows(rows, writes))) == WriteAll(RowsOf(rows), writes)
  {
    if writes != [] {
      RowsWritten(rows, writes[..|writes| - 1]);
      RowWritten(WriteRows(rows, writes[..|writes| - 1]), writes[|writes| - 1]);
    }
  }

  lemma {:induction false} RowWritten(rows: seq<Assumption>, row: OperatorRow)
    ensures RowsOf(WriteRow(rows, row)) == Write(RowsOf(rows), row)
  {
    if rows != [] {
      RowWritten(rows[1..], row);
      assert RowsOf(rows)[1..] == RowsOf(rows[1..]);
    }
  }

  /* ---------- Recording a decision ---------- */

  function IndexOfGate(gate: Gate): (i: nat)
    ensures i < |GATE_ORDER| <==> gate in GATE_ORDER
    ensures i < |GATE_ORDER| ==> GATE_ORDER[i] == gate
  {
    match gate
    case PLAN => 0 case UNMAPPED_CONCEPTS => 1 case PEER_SET => 2 case SECTOR_SPECIALIST => 3
    case THEME_SET => 4 case ASSUMPTIONS => 5 case BUDGET => 6 case FINAL => 7 case THESIS => 8
  }

  /** Every gate before this one is approved, or is conditional and was never opened. */
  predicate InOrder(d: Db, gate: Gate) {
    && IndexOfGate(gate) < |GATE_ORDER|
    && forall i | 0 <= i < IndexOfGate(gate) ::
         (Conditional(GATE_ORDER[i]) && !Decided(d, GATE_ORDER[i])) || Passed(d.approvals, GATE_ORDER[i])
  }

  predicate Passed(approvals: seq<Approval>, gate: Gate) {
    exists a <- approvals :: a.gate == gate && a.decision == Approved
  }

  predicate MayRecord(d: Db, gate: Gate) { !Decided(d, gate) && InOrder(d, gate) }

  ghost predicate ApprovedAt(approvals: seq<Approval>, gate: Gate) {
    exists a :: a in approvals && a.gate == gate && a.decision == Approved
  }

  ghost predicate DecidedAt(approvals: seq<Approval>, gate: Gate) { exists a :: a in approvals && a.gate == gate }

  /** A decision may be recorded exactly for an undecided gate of the order such that, of the gates before it,
      the plan is approved, and each other one if it was decided at all. */
  lemma RecordableExactly(d: Db, gate: Gate)
    ensures MayRecord(d, gate) <==>
      && gate in GATE_ORDER && !DecidedAt(d.approvals, gate)
      && forall i, j :: 0 <= i < j < |GATE_ORDER| && GATE_ORDER[j] == gate ==>
           if GATE_ORDER[i] == PLAN || DecidedAt(d.approvals, GATE_ORDER[i]) then ApprovedAt(d.approvals, GATE_ORDER[i]) else true
  {
    hide DecidedAt, ApprovedAt;
    forall g ensures Decided(d, g) <==> DecidedAt(d.approvals, g) { SameDecided(d, g); }
    forall g ensures Passed(d.approvals, g) <==> ApprovedAt(d.approvals, g) { SamePassed(d.approvals, g); }
    var n := IndexOfGate(gate);
    if gate in GATE_ORDER {
      forall i | 0 <= i < n ensures GATE_ORDER[i] != FINAL { }
      forall j | 0 <= j < |GATE_ORDER| && GATE_ORDER[j] == gate ensures j == n { }
    }
  }

  lemma SameDecided(d: Db, gate: Gate)
    ensures Decided(d, gate) <==> DecidedAt(d.approvals, gate)
  {
  }

  lemma SamePassed(approvals: seq<Approval>, gate: Gate)
    ensures Passed(approvals, gate) <==> ApprovedAt(approvals, gate)
  {
  }

  /** The gate a run is asked about: the one its latest paused step names; where it names none, the plan until
      it is decided, then the final gate until it is. */
  lemma PendingExactly(d: Db, i: int)
    requires LatestWith(d.steps, AWAITING_APPROVAL, i)
    ensures PendingGate(d) ==
      match d.steps[i].pause.gate
      case Some(named) => Some(named)
      case None =>
        if !DecidedAt(d.approvals, PLAN) then Some(PLAN)
        else if !DecidedAt(d.approvals, FINAL) then Some(FINAL) else None
  {
    LatestSteps(d, i);
    SameDecided(d, PLAN);
    SameDecided(d, FINAL);
  }

  /** Nothing is decided before the plan was approved. */
  ghost predicate PlanFirst(approvals: seq<Approval>) {
    forall a <- approvals :: a.gate == PLAN || Passed(approvals, PLAN)
  }

  function Record(d: Db, gate: Gate, digest: Hash): Db {
    d.(approvals := d.approvals + [Approval(gate, Approved, digest)])
  }

  lemma RecordKeepsPlanFirst(d: Db, gate: Gate, digest: Hash)
    requires PlanFirst(d.approvals) && MayRecord(d, gate)
    ensures PlanFirst(Record(d, gate, digest).approvals)
  {
    var d' := Record(d, gate, digest);
    assert GATE_ORDER[0] == PLAN;
    assert gate != PLAN ==> Passed(d.approvals, PLAN);
    forall a | a in d'.approvals ensures a.gate == PLAN || Passed(d'.approvals, PLAN) {
      if a in d.approvals && a.gate != PLAN {
        assert Passed(d.approvals, PLAN);
      }
      if Passed(d.approvals, PLAN) {
        var p :| p in d.approvals && p.gate == PLAN && p.decision == Approved;
        assert p in d'.approvals;
      }
    }
  }

  /* ---------- Moving the final gate's seal ---------- */

  predicate Matches(pause: Pause) { pause.live.Some? && pause.live == pause.approved }

  predicate MayReseal(d: Db) {
    d.status !in {RUNNING, SUCCEEDED, FAILED, CANCELLED} && FINAL in d.seals
  }

  function Reseal(rules: Rules, d: Db): Db {
    d.(seals := d.seals[FINAL := rules.Digest(d, FINAL)])
  }

  /* ---------- The decision on one unmoving state ---------- */

  /** What an approving verdict leads to. */
  function Conclude(rules: Rules, gate: Gate, verdict: Verdict, d: Db): (Outcome, Db) {
    var written := if gate == ASSUMPTIONS then Confirmed(d, verdict) else d;
    if MayRecord(d, gate) then (Cleared(gate), Record(written, gate, rules.Digest(written, gate)))
    else (Failed, d)
  }

  function ClearUndecided(rules: Rules, gate: Gate, d: Db): (Outcome, Db)
    requires rules.Coherent()
  {
    if SealChecked(gate) && gate in d.seals && d.seals[gate] != rules.Digest(d, gate) then
      (Stopped(SealDrift(gate)), d)
    else
      var verdict := rules.decide(gate, d, d);
      if !verdict.approve then (Stopped(PolicyRefused(gate, verdict.stopReason.value)), d)
      else Conclude(rules, gate, verdict, d)
  }

  function Clear(rules: Rules, d: Db): (Outcome, Db)
    requires rules.Coherent()
  {
    var paused := PausedStep(d);
    var pending := PendingGate(d);
    if paused.None? then (NotWaiting, d)
    else if pending.None? then (Stopped(NoPendingGate), d)
    else if !Decided(d, pending.value) then ClearUndecided(rules, pending.value, d)
    else if pending.value != FINAL || !Matches(paused.value.pause) then (Stopped(PostApproval(pending.value)), d)
    else if MayReseal(d) then (Resealed, Reseal(rules, d))
    else (Failed, d)
  }

  /* ---------- The driver's own sequence of queries ---------- */

  /** The gate the run is asked about, as its reads from index `start` on say: the one its pause names,
      or the next of the order over the approvals read after it. */
  ghost predicate Pends(states: seq<Db>, start: nat, gate: Option<Gate>) {
    && start + 1 < |states|
    && if NamedGate(states[start + 1]).Some? then gate == NamedGate(states[start + 1])
       else start + 2 < |states| && gate == NextUndecided(states[start + 2])
  }

  /** The read in which a prior decision is looked for. */
  function Prior(states: seq<Db>, start: nat): nat
    requires start + 1 < |states|
  {
    if NamedGate(states[start + 1]).Some? then start + 2 else start + 3
  }

  /** The gate is the pending one, and whether it was decided before is as said. */
  ghost predicate Standing(states: seq<Db>, start: nat, gate: Gate, decided: bool) {
    && Pends(states, start, Some(gate)) && Prior(states, start) < |states|
    && (decided <==> Decided(states[Prior(states, start)], gate))
  }

  /** The display built from the read at index `shown` is not the one the read after it has a seal of. */
  ghost predicate Drifts(rules: Rules, gate: Gate, states: seq<Db>, shown: nat) {
    && SealChecked(gate) && shown + 1 < |states|
    && !SealRespected(gate, rules.Digest(states[shown], gate), states[shown + 1])
  }

  /** Where the policy reads the counts it decides on. */
  function CountsAt(gate: Gate, shown: nat): nat { if SealChecked(gate) then shown + 2 else shown + 1 }

  /** The policy was asked about the display of the read at index `shown`, whose seal held, and said so. */
  ghost predicate Judged(rules: Rules, gate: Gate, states: seq<Db>, shown: nat, verdict: Verdict) {
    && CountsAt(gate, shown) < |states| && !Drifts(rules, gate, states, shown)
    && verdict == rules.decide(gate, states[shown], states[CountsAt(gate, shown)])
  }

  /** What an approval writes. At the assumptions gate the rows read next are the ones the verdict's rows
      are written over, each of them then confirmed, and the hash is of the display that has them; at any
      other gate the hash is of the display that was judged. The decision lands on the state read last. */
  ghost predicate Recorded(rules: Rules, gate: Gate, verdict: Verdict, states: seq<Db>, shown: nat, d: Db) {
    && |states| >= 3 && shown < |states|
    && var last := Last(states);
       if gate == ASSUMPTIONS then
         && AllConfirmed(d)
         && RowsOf(d.assumptions) == WriteAll(RowsOf(states[|states| - 3].assumptions), verdict.supply + verdict.amend)
         && var confirmed := states[|states| - 2].(assumptions := d.assumptions);
            d == last.(assumptions := d.assumptions,
                       approvals := last.approvals + [Approval(gate, Approved, rules.Digest(confirmed, gate))])
       else d == last.(approvals := last.approvals + [Approval(gate, Approved, rules.Digest(states[shown], gate))])
  }

  /** What the answer about an undecided gate rests on. */
  ghost predicate Decides(rules: Rules, gate: Gate, outcome: Outcome, states: seq<Db>, shown: nat, d: Db)
    requires states != []
  {
    match outcome
    case Stopped(SealDrift(g)) => g == gate && Drifts(rules, gate, states, shown) && d == Last(states)
    case Stopped(PolicyRefused(g, reason)) =>
      && g == gate && d == Last(states)
      && exists v :: Judged(rules, gate, states, shown, v) && !v.approve && v.stopReason == Some(reason)
    case Cleared(g) =>
      && g == gate && MayRecord(Last(states), gate)
      && exists v :: Judged(rules, gate, states, shown, v) && v.approve && Recorded(rules, gate, v, states, shown, d)
    case Failed =>
      && d == Last(states) && !MayRecord(Last(states), gate)
      && exists v :: Judged(rules, gate, states, shown, v) && v.approve
    case _ => false
  }

  /** What the answer of a whole call rests on, whatever the worker did meanwhile: `states` are the states
      read so far, of which those from index `start` on were read by this call, and `d` the state it left. */
  ghost predicate Answered(rules: Rules, outcome: Outcome, states: seq<Db>, start: nat, d: Db) {
    && start < |states|
    && (outcome == NotWaiting <==> PausedStep(states[start]).None?)
    && match outcome
       case NotWaiting => |states| == start + 1 && d == Last(states)
       case Stopped(NoPendingGate) => Pends(states, start, None) && d == Last(states)
       case Stopped(PostApproval(g)) =>
         && Standing(states, start, g, true) && d == Last(states)
         && !(g == FINAL && AgreedOn(PausedStep(states[start]).value.pause))
       case Resealed =>
         && Standing(states, start, FINAL, true) && AgreedOn(PausedStep(states[start]).value.pause)
         && Sealable(Last(states)) && d == Last(states).(seals := d.seals)
         && d.seals == Last(states).seals[FINAL := rules.Digest(Last(states), FINAL)]
       case Failed => RefusedReseal(states, start, d) || exists g :: DecidesNow(rules, g, outcome, states, start, d)
       case Stopped(stop) => DecidesNow(rules, stop.gate, outcome, states, start, d)
       case Cleared(g) => DecidesNow(rules, g, outcome, states, start, d)
  }

  /** The pause recorded a live and an approved hash, and they are one. */
  ghost predicate AgreedOn(pause: Pause) { exists h: Hash :: pause.live == Some(h) && pause.approved == Some(h) }

  /** A run with a final seal that is neither being executed nor over. */
  ghost predicate Sealable(d: Db) {
    FINAL in d.seals && d.status in {QUEUED, PAUSED, AWAITING_APPROVAL, BUDGET_EXCEEDED}
  }

  ghost predicate RefusedReseal(states: seq<Db>, start: nat, d: Db)
    requires start < |states| && PausedStep(states[start]).Some?
  {
    && Standing(states, start, FINAL, true) && AgreedOn(PausedStep(states[start]).value.pause)
    && !Sealable(Last(states)) && d == Last(states)
  }

  ghost predicate DecidesNow(rules: Rules, gate: Gate, outcome: Outcome, states: seq<Db>, start: nat, d: Db) {
    Standing(states, start, gate, false) && Decides(rules, gate, outcome, states, Prior(states, start) + 1, d)
  }

  /** A decision rests on states the run was really in: its hash is that of a display built from one,
      with every row confirmed at the assumptions gate, and another recorded no other seal for it. */
  ghost predicate Founded(rules: Rules, a: Approval, states: seq<Db>) {
    && a.decision == Approved && a.gate != BUDGET && a.gate != THESIS
    && (exists built, i :: 0 <= i < |states| && DigestOfRead(rules, a.gate, a.digest, built, states[i]))
    && exists j :: 0 <= j < |states| && SealRespected(a.gate, a.digest, states[j])
  }

  ghost predicate DigestOfRead(rules: Rules, gate: Gate, digest: Hash, built: Db, observed: Db) {
    && digest == rules.Digest(built, gate)
    && (if gate == ASSUMPTIONS then AllConfirmed(built) && built.(assumptions := observed.assumptions) == observed
        else built == observed)
  }

  /** The approval a call adds. */
  lemma ClearedIsFounded(rules: Rules, gate: Gate, states: seq<Db>, start: nat, d: Db)
    requires rules.Coherent() && Answered(rules, Cleared(gate), states, start, d)
    ensures var before := Last(states).approvals;
            && |d.approvals| == |before| + 1 && before < d.approvals && d.approvals[|before|].gate == gate
            && Founded(rules, d.approvals[|before|], states)
  {
    hide SealRespected, MayRecord, Standing, Drifts;
    var shown := Prior(states, start) + 1;
    var v :| Judged(rules, gate, states, shown, v) && v.approve && Recorded(rules, gate, v, states, shown, d);
    var a := d.approvals[|Last(states).approvals|];
    if gate == ASSUMPTIONS {
      var k := |states| - 2;
      assert DigestOfRead(rules, gate, a.digest, states[k].(assumptions := d.assumptions), states[k]);
      UncheckedSeal(gate, a.digest, states[0]);
    } else {
      assert DigestOfRead(rules, gate, a.digest, states[shown], states[shown]);
      HeldSeal(rules, gate, states, shown);
    }
  }

  lemma UncheckedSeal(gate: Gate, digest: Hash, d: Db)
    requires !SealChecked(gate)
    ensures SealRespected(gate, digest, d)
  {
  }

  lemma HeldSeal(rules: Rules, gate: Gate, states: seq<Db>, shown: nat)
    requires shown + 1 < |states| && !Drifts(rules, gate, states, shown)
    ensures SealRespected(gate, rules.Digest(states[shown], gate), states[shown + 1])
  {
  }

  lemma FoundedLater(rules: Rules, a: Approval, states: seq<Db>, states': seq<Db>)
    requires Founded(rules, a, states) && states <= states'
    ensures Founded(rules, a, states')
  {
    hide DigestOfRead, SealRespected;
    var built, i :| 0 <= i < |states| && DigestOfRead(rules, a.gate, a.digest, built, states[i]);
    var j :| 0 <= j < |states| && SealRespected(a.gate, a.digest, states[j]);
    assert states'[i] == states[i] && states'[j] == states[j];
  }

  predicate SealRespected(gate: Gate, digest: Hash, d: Db) {
    SealChecked(gate) && gate in d.seals ==> d.seals[gate] == digest
  }

  /** Everything a call writes it writes at its end, in one piece: a decision with the rows it rests on,
      or the final seal, or nothing. `last` is the state it read last. */
  ghost predicate OneWrite(outcome: Outcome, last: Db, d: Db) {
    match outcome
    case Cleared(_) => d == last.(approvals := d.approvals, assumptions := d.assumptions)
    case Resealed => d == last.(seals := d.seals)
    case _ => d == last
  }

  method PendingGateOf(r: Runtime) returns (gate: Option<Gate>)
    requires r.Valid()
    modifies r
    ensures r.told == old(r.told)
    ensures r.Valid() && old(r.seen) <= r.seen && r.db.approvals == old(r.db.approvals) && r.db.cap == old(r.db.cap)
    ensures var n := |old(r.seen)|;
            && |r.seen| > n && r.db == Last(r.seen)
            && |r.seen| == n + (if NamedGate(r.seen[n]).Some? then 1 else 2)
            && gate == if NamedGate(r.seen[n]).Some? then NamedGate(r.seen[n]) else NextUndecided(r.seen[n + 1])
    ensures r.Untouched(old(r.db), |old(r.seen)|)
    ensures Idle(old(r.db)) ==> r.db == old(r.db) && gate == PendingGate(r.db)
  {
    var d := r.Observe();
    gate := NamedGate(d);
    if gate.None? {
      ghost var states := r.seen;
      d := r.Observe();
      LeftAloneOn(r.schedule, old(r.db), states, r.seen, |old(r.seen)|);
      gate := NextUndecided(d);
    }
  }

  method ResealFinalGate(r: Runtime) returns (ok: bool)
    requires r.Valid()
    modifies r
    ensures r.told == old(r.told)
    ensures r.Valid() && old(r.seen) < r.seen
    ensures r.db.approvals == old(r.db.approvals) && r.db.cap == old(r.db.cap)
    ensures var d := r.seen[|old(r.seen)|];
            ok == MayReseal(d) && r.db == (if ok then Reseal(r.rules, d) else d)
    ensures |r.seen| == |old(r.seen)| + 1 && LeftAlone(r.schedule, old(r.db), r.seen, |old(r.seen)|, |r.seen|)
    ensures Idle(old(r.db)) ==> r.seen[|old(r.seen)|] == old(r.db)
  {
    var d := r.Observe();
    ok := MayReseal(d);
    if ok { r.db := Reseal(r.rules, d); }
  }

  method RecordDecision(r: Runtime, gate: Gate, digest: Hash, rows: Option<seq<Assumption>>) returns (ok: bool)
    requires r.Valid() && OnePerGate(r.db.approvals) && PlanFirst(r.db.approvals)
    modifies r
    ensures r.told == old(r.told)
    ensures r.Valid() && OnePerGate(r.db.approvals) && PlanFirst(r.db.approvals) && old(r.seen) < r.seen && r.db.cap == old(r.db.cap)
    ensures var d := r.seen[|old(r.seen)|];
            && d.approvals == old(r.db.approvals)
            && ok == MayRecord(d, gate)
            && r.db == if ok then Record(if rows.Some? then d.(assumptions := rows.value) else d, gate, digest) else d
    ensures |r.seen| == |old(r.seen)| + 1 && LeftAlone(r.schedule, old(r.db), r.seen, |old(r.seen)|, |r.seen|)
    ensures Idle(old(r.db)) ==> r.seen[|old(r.seen)|] == old(r.db)
  {
    var d := r.Observe();
    ok := MayRecord(d, gate);
    if ok { RecordKeepsPlanFirst(d, gate, digest); }
    if ok { r.db := Record(if rows.Some? then d.(assumptions := rows.value) else d, gate, digest); }
  }

  /** The display as it is built now, and whether the recorded seal disagrees with it. */
  method Display(r: Runtime, gate: Gate) returns (shown: Db, drifted: bool)
    requires r.Valid()
    modifies r
    ensures r.told == old(r.told)
    ensures r.Valid() && r.db.approvals == old(r.db.approvals) && r.db.cap == old(r.db.cap)
    ensures old(r.seen) < r.seen && shown == r.seen[|old(r.seen)|]
    ensures |r.seen| == |old(r.seen)| + (if SealChecked(gate) then 2 else 1) && r.db == Last(r.seen)
    ensures drifted <==> Drifts(r.rules, gate, r.seen, |old(r.seen)|)
    ensures r.Untouched(old(r.db), |old(r.seen)|)
    ensures Idle(old(r.db)) ==> r.db == old(r.db) == shown == Last(r.seen)
  {
    shown := r.Observe();
    drifted := false;
    if SealChecked(gate) {
      ghost var states := r.seen;
      var d := r.Observe();
      LeftAloneOn(r.schedule, old(r.db), states, r.seen, |old(r.seen)|);
      drifted := gate in d.seals && d.seals[gate] != r.rules.Digest(shown, gate);
    }
  }

  /** Writes and confirms the rows in this session's transaction, builds the display again from
      what the session now reads, and records the decision over that. */
  method ConfirmAndRecord(r: Runtime, verdict: Verdict) returns (outcome: Outcome)
    requires r.Valid() && OnePerGate(r.db.approvals) && PlanFirst(r.db.approvals)
    modifies r
    ensures r.told == old(r.told)
    ensures r.Valid() && OnePerGate(r.db.approvals) && PlanFirst(r.db.approvals) && old(r.seen) < r.seen && r.db.cap == old(r.db.cap)
    ensures outcome == Cleared(ASSUMPTIONS) || outcome == Failed
    ensures Idle(old(r.db)) ==> (outcome, r.db) == Conclude(r.rules, ASSUMPTIONS, verdict, old(r.db))
    ensures |r.seen| == |old(r.seen)| + 3 && Last(r.seen).approvals == old(r.db.approvals)
    ensures (outcome == Cleared(ASSUMPTIONS) <==> MayRecord(Last(r.seen), ASSUMPTIONS))
    ensures outcome == Cleared(ASSUMPTIONS) ==> forall shown: nat ::
      shown < |r.seen| ==> Recorded(r.rules, ASSUMPTIONS, verdict, r.seen, shown, r.db)
    ensures outcome == Failed ==> r.db == Last(r.seen)
    ensures LeftAlone(r.schedule, old(r.db), r.seen, |old(r.seen)|, |r.seen|) && OneWrite(outcome, Last(r.seen), r.db)
  {
    ghost var n, base := |r.seen|, r.db;
    var d := r.Observe();
    var rows := Confirmed(d, verdict).assumptions;
    assert AllConfirmed(Confirmed(d, verdict));
    RowsWritten(d.assumptions, verdict.supply + verdict.amend);
    ghost var states := r.seen;
    d := r.Observe();
    LeftAloneOn(r.schedule, base, states, r.seen, n);
    states := r.seen;
    var digest := r.rules.Digest(d.(assumptions := rows), ASSUMPTIONS);
    var ok := RecordDecision(r, ASSUMPTIONS, digest, Some(rows));
    LeftAloneOn(r.schedule, base, states, r.seen, n);
    return if ok then Cleared(ASSUMPTIONS) else Failed;
  }

  /** The display of an undecided gate, checked against its seal and put to the policy. */
  method Judge(r: Runtime, gate: Gate) returns (stop: Option<Stop>, shown: Db, verdict: Verdict)
    requires r.Valid()
    modifies r
    ensures r.told == old(r.told)
    ensures r.Valid() && r.db.approvals == old(r.db.approvals) && r.db.cap == old(r.db.cap)
    ensures old(r.seen) < r.seen && r.Untouched(old(r.db), |old(r.seen)|) && r.db == Last(r.seen)
    ensures shown == r.seen[|old(r.seen)|]
    ensures stop.None? ==> Judged(r.rules, gate, r.seen, |old(r.seen)|, verdict) && verdict.approve
    ensures stop.Some? ==> Decides(r.rules, gate, Stopped(stop.value), r.seen, |old(r.seen)|, r.db)
    ensures Idle(old(r.db)) ==>
      && r.db == old(r.db)
      && ClearUndecided(r.rules, gate, old(r.db))
           == (if stop.Some? then (Stopped(stop.value), old(r.db)) else Conclude(r.rules, gate, verdict, old(r.db)))
      && (stop.None? ==> shown == old(r.db))
  {
    hide LeftAlone;
    var drifted;
    ghost var n := |r.seen|;
    shown, drifted := Display(r, gate);
    if drifted { return Some(SealDrift(gate)), shown, APPROVED; }
    ghost var states := r.seen;
    var d := r.Observe();
    LeftAloneOn(r.schedule, old(r.db), states, r.seen, n);
    verdict := r.rules.decide(gate, shown, d);
    assert Judged(r.rules, gate, r.seen, n, verdict);
    stop := if verdict.approve then None else Some(PolicyRefused(gate, verdict.stopReason.value));
  }

  /** The rest of the call for a gate nobody has decided. */
  method DecideGate(r: Runtime, gate: Gate) returns (outcome: Outcome)
    requires r.Valid() && OnePerGate(r.db.approvals) && PlanFirst(r.db.approvals)
    modifies r
    ensures r.told == old(r.told)
    ensures r.Valid() && OnePerGate(r.db.approvals) && PlanFirst(r.db.approvals) && old(r.seen) < r.seen && r.db.cap == old(r.db.cap)
    ensures Idle(old(r.db)) ==> (outcome, r.db) == ClearUndecided(r.rules, gate, old(r.db))
    ensures Decides(r.rules, gate, outcome, r.seen, |old(r.seen)|, r.db) && Last(r.seen).approvals == old(r.db.approvals)
    ensures LeftAlone(r.schedule, old(r.db), r.seen, |old(r.seen)|, |r.seen|) && OneWrite(outcome, Last(r.seen), r.db)
  {
    hide LeftAlone, MayRecord, PlanFirst, OnePerGate, SealRespected, Confirmed, ClearUndecided, Drifts, WriteAll, AllConfirmed;
    ghost var n := |r.seen|;
    var stop, shown, verdict := Judge(r, gate);
    if stop.Some? { return Stopped(stop.value); }
    ghost var states := r.seen;
    if gate == ASSUMPTIONS {
      outcome := ConfirmAndRecord(r, verdict);
    } else {
      var digest := r.rules.Digest(shown, gate);
      var ok := RecordDecision(r, gate, digest, None);
      outcome := if ok then Cleared(gate) else Failed;
    }
    JudgedStill(r.rules, gate, states, r.seen, n, verdict);
    LeftAloneOn(r.schedule, old(r.db), states, r.seen, n);
  }

  lemma JudgedStill(rules: Rules, gate: Gate, states: seq<Db>, more: seq<Db>, shown: nat, verdict: Verdict)
    requires Judged(rules, gate, states, shown, verdict) && states <= more
    ensures Judged(rules, gate, more, shown, verdict)
  {
  }

  lemma DecidedStill(d: Db, d': Db, gate: Gate)
    requires d.approvals == d'.approvals
    ensures Decided(d, gate) <==> Decided(d', gate)
  {
  }

  /** What the call reads before it does anything: the paused step, the pending gate, and the state in
      which it looks for a prior decision. */
  method ReadPause(r: Runtime) returns (paused: Option<Step>, pending: Option<Gate>, d: Db)
    requires r.Valid()
    modifies r
    ensures r.told == old(r.told)
    ensures r.Valid() && r.db.approvals == old(r.db.approvals) && r.db.cap == old(r.db.cap)
    ensures old(r.seen) < r.seen && r.Untouched(old(r.db), |old(r.seen)|)
    ensures paused == PausedStep(r.seen[|old(r.seen)|]) && d == r.db == Last(r.seen)
    ensures paused.None? ==> |r.seen| == |old(r.seen)| + 1
    ensures paused.Some? ==> Pends(r.seen, |old(r.seen)|, pending)
    ensures paused.Some? && pending.Some? ==> |r.seen| == Prior(r.seen, |old(r.seen)|) + 1
    ensures Idle(old(r.db)) ==>
      r.db == old(r.db) && paused == PausedStep(r.db) && (paused.Some? ==> pending == PendingGate(r.db))
  {
    hide LeftAlone, NamedGate, NextUndecided, PendingGate;
    d := r.Observe();
    paused, pending := PausedStep(d), None;
    if paused.None? { return; }
    ghost var states := r.seen;
    pending := PendingGateOf(r);
    LeftAloneOn(r.schedule, old(r.db), states, r.seen, |old(r.seen)|);
    if pending.None? { d := r.db; return; }
    states := r.seen;
    d := r.Observe();
    LeftAloneOn(r.schedule, old(r.db), states, r.seen, |old(r.seen)|);
  }

  method ClearPendingGate(r: Runtime) returns (outcome: Outcome)
    requires r.Valid() && OnePerGate(r.db.approvals) && PlanFirst(r.db.approvals)
    modifies r
    ensures r.told == old(r.told)
    ensures r.Valid() && OnePerGate(r.db.approvals) && PlanFirst(r.db.approvals)
    ensures old(r.seen) < r.seen && r.db.cap == old(r.db.cap)
    // On a state nobody else moves, the queries add up to one decision on that state.
    ensures Idle(old(r.db)) ==> (outcome, r.db) == Clear(r.rules, old(r.db))
    // Against any worker: every answer rests on what was read, and the approval it may leave is founded.
    ensures Answered(r.rules, outcome, r.seen, |old(r.seen)|, r.db)
    ensures Last(r.seen).approvals == old(r.db.approvals)
    ensures !outcome.Cleared? ==> r.db.approvals == old(r.db.approvals)
    // Until that one write, whatever was read is the worker's doing.
    ensures LeftAlone(r.schedule, old(r.db), r.seen, |old(r.seen)|, |r.seen|) && OneWrite(outcome, Last(r.seen), r.db)
  {
    hide LeftAlone, MayReseal, Matches, PlanFirst, OnePerGate, ClearUndecided, PendingGate, Decided, Decides, Pends;
    hide Standing, Prior, AgreedOn, Sealable;
    ghost var n := |r.seen|;
    var paused, pending, d := ReadPause(r);
    if paused.None? { return NotWaiting; }
    if pending.None? { return Stopped(NoPendingGate); }
    var gate := pending.value;
    ghost var states := r.seen;
    if Decided(d, gate) {
      AgreedExactly(paused.value.pause);
      if gate != FINAL || !Matches(paused.value.pause) {
        StandingStill(states, r.seen, n, gate);
        return Stopped(PostApproval(gate));
      }
      var ok := ResealFinalGate(r);
      SealableExactly(Last(r.seen));
      outcome := if ok then Resealed else Failed;
    } else {
      outcome := DecideGate(r, gate);
      DecidesThatGate(r.rules, gate, outcome, r.seen, |states|, r.db);
      StandingStill(states, r.seen, n, gate);
      assert DecidesNow(r.rules, gate, outcome, r.seen, n, r.db);
    }
    StandingStill(states, r.seen, n, gate);
    LeftAloneOn(r.schedule, old(r.db), states, r.seen, n);
  }

  lemma SealableExactly(d: Db)
    ensures Sealable(d) <==> MayReseal(d)
  {
    match d.status {
      case QUEUED => case RUNNING => case PAUSED => case AWAITING_APPROVAL =>
      case SUCCEEDED => case FAILED => case CANCELLED => case BUDGET_EXCEEDED =>
    }
  }

  lemma AgreedExactly(pause: Pause)
    ensures AgreedOn(pause) <==> Matches(pause)
  {
  }

  lemma DecidesThatGate(rules: Rules, gate: Gate, outcome: Outcome, states: seq<Db>, shown: nat, d: Db)
    requires states != [] && Decides(rules, gate, outcome, states, shown, d)
    ensures outcome == Failed || outcome == Cleared(gate) || outcome == Stopped(SealDrift(gate)) ||
            (outcome.Stopped? && outcome.stop.PolicyRefused? && outcome.stop.gate == gate)
  {
  }

  lemma StandingStill(states: seq<Db>, more: seq<Db>, start: nat, gate: Gate)
    requires Pends(states, start, Some(gate)) && |states| == Prior(states, start) + 1 && states <= more
    ensures Standing(more, start, gate, Decided(Last(states), gate)) && Prior(more, start) == |states| - 1
  {
  }

  /* ---------- What a decision on one state means ---------- */

  /** A gate is cleared only for a paused run, at the gate it is paused at, never decided before, in
      order; the recorded hash is that of the display in that same state, with every assumption
      confirmed at the assumptions gate, and it is the sealed hash wherever one was recorded. */
  lemma ClearedMeans(rules: Rules, d: Db)
    requires rules.Coherent()
    requires Clear(rules, d).0.Cleared?
    ensures var (outcome, d') := Clear(rules, d);
            var gate := outcome.gate;
            && PausedStep(d).Some? && PendingGate(d) == Some(gate) && !Decided(d, gate) && InOrder(d, gate)
            && (exists shown ::
                  && d' == Record(shown, gate, rules.Digest(shown, gate))
                  && shown.(assumptions := d.assumptions) == d
                  && if gate == ASSUMPTIONS then WrittenOver(shown, d, rules.decide(gate, d, d)) else shown == d)
            && rules.decide(gate, d, d).approve
            && (SealChecked(gate) && gate in d.seals ==>
                  d'.approvals[|d'.approvals| - 1].digest == d.seals[gate])
  {
    hide PendingGate, InOrder, Clear, SealChecked, Decided, Conditional, WriteAll, WriteRows, ConfirmAll, RowsOf, PausedStep;
    var gate := ClearedBy(rules, d);
    var verdict := rules.decide(gate, d, d);
    var shown := if gate == ASSUMPTIONS then Confirmed(d, verdict) else d;
    RowsWritten(d.assumptions, verdict.supply + verdict.amend);
    assert Clear(rules, d) == (Cleared(gate), Record(shown, gate, rules.Digest(shown, gate)));
  }

  /** The rows of `d` with the verdict's written over them, and all of them confirmed. */
  ghost predicate WrittenOver(shown: Db, d: Db, verdict: Verdict) {
    AllConfirmed(shown) && RowsOf(shown.assumptions) == WriteAll(RowsOf(d.assumptions), verdict.supply + verdict.amend)
  }

  /** Of every name the verdict states, the row stated last stands there, approved; every other row is the
      one it was, approved; and there is no row besides. */
  lemma WrittenRowsAre(shown: Db, d: Db, verdict: Verdict, a: Assumption)
    requires WrittenOver(shown, d, verdict) && DistinctNames(RowsOf(d.assumptions))
    ensures a in shown.assumptions <==>
      && a.approved
      && if exists w <- verdict.supply + verdict.amend :: w.name == a.row.name
         then StatedLast(verdict.supply + verdict.amend, a.row)
         else exists b <- d.assumptions :: b.row == a.row
  {
    var writes := verdict.supply + verdict.amend;
    WriteAllEffect(RowsOf(d.assumptions), writes);
    StatedIsLast(writes, a.row.name);
    InRows(d.assumptions, a.row);
    InRows(shown.assumptions, a.row);
    if a.approved && a.row in RowsOf(shown.assumptions) {
      var b :| b in shown.assumptions && b.row == a.row;
      assert b == a;
    }
  }

  lemma InRows(rows: seq<Assumption>, row: GateRow)
    ensures row in RowsOf(rows) <==> exists b <- rows :: b.row == row
  {
    forall b | b in rows && b.row == row ensures row in RowsOf(rows) {
      var i :| 0 <= i < |rows| && rows[i] == b;
      assert RowsOf(rows)[i] == row;
    }
  }

  /** What was passed on the way to a cleared gate. */
  lemma ClearedBy(rules: Rules, d: Db) returns (gate: Gate)
    requires rules.Coherent()
    requires Clear(rules, d).0.Cleared?
    ensures PausedStep(d).Some? && PendingGate(d) == Some(gate) && !Decided(d, gate) && MayRecord(d, gate)
    ensures SealChecked(gate) && gate in d.seals ==> d.seals[gate] == rules.Digest(d, gate)
    ensures SealChecked(gate) ==> gate != ASSUMPTIONS
    ensures Clear(rules, d) == Conclude(rules, gate, rules.decide(gate, d, d), d) && rules.decide(gate, d, d).approve
    ensures Clear(rules, d).0 == Cleared(gate)
  {
    hide PendingGate, InOrder, Confirmed, Record;
    gate := Clear(rules, d).0.gate;
  }

  lemma DecidedGateRecordsNothing(rules: Rules, d: Db)
    requires rules.Coherent() && PendingGate(d).Some? && Decided(d, PendingGate(d).value)
    ensures !Clear(rules, d).0.Cleared? && Clear(rules, d).1.approvals == d.approvals
  {
  }

  /** Deciding twice records once: after a gate is cleared, nothing the call can do on the state it
      left adds a second decision for that gate. */
  lemma SecondCallRecordsNothing(rules: Rules, d: Db)
    requires rules.Coherent() && Clear(rules, d).0.Cleared? && NamedGate(d).Some?
    ensures var d' := Clear(rules, d).1;
            !Clear(rules, d').0.Cleared? && Clear(rules, d').1.approvals == d'.approvals
  {
    var d' := Clear(rules, d).1;
    assert d'.steps == d.steps;
    assert d'.approvals[|d.approvals|].gate == NamedGate(d).value;
    DecidedGateRecordsNothing(rules, d');
  }

  /** The recorded approval of a gate. */
  ghost predicate ApprovedUnder(d: Db, gate: Gate, digest: Hash) {
    exists a <- d.approvals :: a.gate == gate && a.digest == digest
  }

  /** A reseal answers a pause whose live hash is the approved one, and then builds the display again. Over
      the approval that pause recorded, the seal it leaves is the approved hash exactly when the display
      still hashes to the pause's live hash. */
  lemma ResealKeepsTheApprovalExactly(rules: Rules, d: Db, approved: Hash)
    requires rules.Coherent() && Clear(rules, d).0.Resealed?
    requires ApprovedUnder(d, FINAL, approved) && PausedStep(d).value.pause.approved == Some(approved)
    ensures var d' := Clear(rules, d).1;
            d'.seals[FINAL] == approved <==> Some(rules.Digest(d, FINAL)) == PausedStep(d).value.pause.live
  {
  }

  /** A display that hashes to one of its facts, under a policy that approves. */
  function PlainRules(): Rules {
    Rules((d: Db, gate: Gate) => Payload([], "", [], [], [], [], [], d.facts), (p: Payload) => p.rest,
          (gate: Gate, shown: Db, d: Db) => if gate == BUDGET || gate == THESIS then Refuse(UnknownGate) else APPROVED)
  }

  /** A run paused at the final gate after its approval. */
  function PausedAgain(queue: nat, live: Hash, facts: nat): Db {
    Db(AWAITING_APPROVAL, [Step("seal", 1, AWAITING_APPROVAL, Pause(Some(FINAL), Some(live), Some(1)))],
       [Approval(PLAN, Approved, 1), Approval(FINAL, Approved, 1)], [], map[FINAL := 1], 0, [], 10.0, None, 0, queue, false, facts)
  }

  /** The display changed after the pause: the seal moves to a hash nobody approved. */
  lemma ResealExample()
    ensures var rules, d := PlainRules(), PausedAgain(0, 1, 2);
            && rules.Coherent() && Clear(rules, d).0 == Resealed
            && ApprovedUnder(d, FINAL, 1) && PausedStep(d).value.pause.approved == Some(1)
            && Clear(rules, d).1.seals[FINAL] != 1
  {
    var d := PausedAgain(0, 1, 2);
    assert PausedStep(d) == Some(d.steps[0]);
    assert d.approvals[1].gate == FINAL;
    assert d.approvals[1] in d.approvals;
  }

  /* ---------- The worker takes a decided run in two commits ---------- */

  /** First commit of an execution: the job reads RUNNING; the step still reads as it paused. */
  function PublishRunning(d: Db): Db
    requires d.queue > 0
  {
    d.(status := RUNNING, queue := d.queue - 1, busy := true)
  }

  function Restart(step: Step): Step {
    step.(status := RUNNING, attempt := step.attempt + 1, pause := Pause(None, None, None))
  }

  /** Second commit: the paused step starts its next attempt. */
  function PublishStep(d: Db): Db {
    d.(steps := RestartLast(d.steps))
  }

  function RestartLast(steps: seq<Step>): (r: seq<Step>)
    ensures |r| == |steps|
  {
    if steps == [] then []
    else
      var n := |steps| - 1;
      if steps[n].status == AWAITING_APPROVAL then steps[..n] + [Restart(steps[n])]
      else RestartLast(steps[..n]) + [steps[n]]
  }

  ghost predicate OnePaused(d: Db) {
    forall i, j :: 0 <= i < j < |d.steps| ==>
      !(d.steps[i].status == AWAITING_APPROVAL && d.steps[j].status == AWAITING_APPROVAL)
  }

  lemma {:induction false} RestartLeavesNone(steps: seq<Step>)
    requires forall i, j :: 0 <= i < j < |steps| ==>
      !(steps[i].status == AWAITING_APPROVAL && steps[j].status == AWAITING_APPROVAL)
    ensures LastWith(RestartLast(steps), AWAITING_APPROVAL).None?
  {
    if steps != [] {
      var n := |steps| - 1;
      var r := RestartLast(steps);
      if steps[n].status == AWAITING_APPROVAL {
        forall s | s in r ensures s.status != AWAITING_APPROVAL {
          var i :| 0 <= i < |r| && r[i] == s;
        }
      } else {
        RestartLeavesNone(steps[..n]);
        assert r[..n] == RestartLast(steps[..n]);
      }
    }
  }

  /** A stale AWAITING_APPROVAL is absorbed only after the worker's second commit. Between the two
      the fingerprint has already changed, so the driver takes the run as moved, but the pause is
      still there to be read and its gate is already decided: the driver stops with a post-approval
      pause (or fails, at a final gate it would reseal) although the worker has the run. Once the
      step is restarted the same call finds nothing waiting. In no case is anything written. */
  lemma StaleReadAbsorbedExactly(rules: Rules, d: Db, gate: Gate)
    requires rules.Coherent()
    requires d.queue > 0 && d.status == AWAITING_APPROVAL && OnePaused(d)
    requires NamedGate(d) == Some(gate) && Decided(d, gate)
    ensures var between := PublishRunning(d);
            && Moves(d, between) && FingerprintOf(between) != FingerprintOf(d)
            && Clear(rules, between).1 == between
            && Clear(rules, between).0 ==
                 if gate == FINAL && Matches(PausedStep(d).value.pause) then Failed else Stopped(PostApproval(gate))
    ensures var after := PublishStep(PublishRunning(d));
            && Moves(PublishRunning(d), after)
            && Clear(rules, after) == (NotWaiting, after)
  {
    RestartLeavesNone(d.steps);
  }

  /** Such a run: its final gate decided, its pause still there to be read when the driver looks. */
  lemma StaleReadExample()
    ensures var rules, d := PlainRules(), PausedAgain(1, 2, 0);
            && rules.Coherent() && Moves(d, PublishRunning(d))
            && FingerprintOf(PublishRunning(d)) != FingerprintOf(d)
            && Clear(rules, PublishRunning(d)) == (Stopped(PostApproval(FINAL)), PublishRunning(d))
  {
    var d := PausedAgain(1, 2, 0);
    assert PausedStep(d) == Some(d.steps[0]);
    assert d.approvals[1].gate == FINAL;
    assert d.approvals[1] in d.approvals;
    StaleReadAbsorbedExactly(PlainRules(), d, FINAL);
  }
}
