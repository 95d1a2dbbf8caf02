/** Driving one commission from request to its end: the main loop and what each stop leads to. */
module Driver {
  import opened Options
  import opened Policy
  import opened Platform
  import opened Gates
  import opened Executor

  const MAX_ITERATIONS := 40
  const MOVEMENT_SECONDS := 180.0
  const STRANDED_AFTER_SECONDS := 31

  datatype StopReason =
    | AtGate(stop: Stop) | OnBudget(scope: Option<string>) | OutOfResumes
    | WorkerGone | StepMode | IterationBound

  /** What one pass of the loop did about where the advance left the run. */
  datatype Action =
    | Drilled(moved: bool, requeued: bool)
    | GateCleared | GateResealed | GateNotWaiting
    | CapRaised | Resumed | Restarted
    | Nothing
    | Ended(reason: Option<StopReason>)
    | Threw

  datatype Pass = Pass(enqueue: bool, result: Result, action: Action)

  datatype Summary =
    | Completed(stopReason: Option<StopReason>, raised: bool, resumes: nat, killed: bool)
    | Aborted

  /* ---------- The transition table of the loop ---------- */

  predicate Killed(result: Result) { result.Advanced? && result.killedAt.Some? }

  /** Which actions an advance's result may lead to. */
  predicate Fits(result: Result, action: Action) {
    if result.TimedOut? then action == Threw
    else if Killed(result) then action.Drilled? || action == Threw
    else match result.status
      case AWAITING_APPROVAL =>
        action in {GateCleared, GateResealed, GateNotWaiting, Threw} ||
        (action.Ended? && action.reason.Some? && action.reason.value.AtGate?)
      case BUDGET_EXCEEDED =>
        action in {CapRaised, Threw} || (action.Ended? && action.reason.Some? && action.reason.value.OnBudget?)
      case FAILED => action in {Resumed, Threw, Ended(Some(OutOfResumes))}
      case RUNNING =>
        if result.workerDead then action in {Restarted, Threw, Ended(Some(WorkerGone))} else action == Nothing
      case SUCCEEDED => action == Ended(None)
      case CANCELLED => action == Ended(None)
      case PAUSED => action == Ended(Some(StepMode))
      case QUEUED => action == Nothing
  }

  /** Whether the next pass tells the worker. */
  function NextEnqueue(action: Action): (enqueue: bool)
    ensures action !in {GateNotWaiting, Restarted} && !action.Drilled? ==> enqueue
    ensures action in {GateNotWaiting, Restarted} || (action.Drilled? && action.moved) ==> !enqueue
    ensures action.Drilled? && !action.moved ==> enqueue == action.requeued
  {
    match action
    case Drilled(moved, requeued) => !moved && requeued
    case GateNotWaiting => false
    case Restarted => false
    case _ => true
  }

  predicate Chained(passes: seq<Pass>, first: bool) {
    && (passes != [] ==> passes[0].enqueue == first)
    && (forall i | 0 <= i < |passes| - 1 :: passes[i + 1].enqueue == NextEnqueue(passes[i].action))
    && (forall p <- passes :: Fits(p.result, p.action))
    && (forall i | 0 <= i < |passes| - 1 :: !passes[i].action.Ended? && !passes[i].action.Threw?)
  }

  datatype Kind = CAP_RAISED | WAS_KILLED | WAS_RESUMED | UNMOVED_DRILL | WAS_CLEARED | WAS_TOLD

  predicate Is(p: Pass, kind: Kind) {
    match kind
    case CAP_RAISED => p.action == CapRaised
    case WAS_KILLED => Killed(p.result)
    case WAS_RESUMED => p.action == Resumed
    case UNMOVED_DRILL => p.action.Drilled? && !p.action.moved
    case WAS_CLEARED => p.action == GateCleared
    case WAS_TOLD => p.enqueue
  }

  /** How many passes are of a kind. */
  function Tally(passes: seq<Pass>, kind: Kind): (n: nat)
    ensures n <= |passes|
  {
    if passes == [] then 0
    else Tally(passes[..|passes| - 1], kind) + if Is(passes[|passes| - 1], kind) then 1 else 0
  }

  lemma TallySnoc(passes: seq<Pass>, p: Pass, kind: Kind)
    ensures Tally(passes + [p], kind) == Tally(passes, kind) + if Is(p, kind) then 1 else 0
  {
    assert (passes + [p])[..|passes|] == passes;
  }

  /** What the loop's counters say about the passes so far. */
  ghost predicate Counted(passes: seq<Pass>, raised: bool, resumes: nat, killed: bool, maxResumes: nat) {
    && Tally(passes, CAP_RAISED) == (if raised then 1 else 0)
    && Tally(passes, WAS_KILLED) == (if killed then 1 else 0)
    && Tally(passes, UNMOVED_DRILL) <= Tally(passes, WAS_KILLED)
    && Tally(passes, WAS_RESUMED) <= maxResumes
    && resumes == Tally(passes, WAS_RESUMED) + Tally(passes, UNMOVED_DRILL) <= maxResumes + (if killed then 1 else 0)
  }

  lemma CountPass(
    passes: seq<Pass>, p: Pass, raised: bool, resumes: nat, killed: bool, maxResumes: nat)
    requires Counted(passes, raised, resumes, killed, maxResumes)
    requires p.action == CapRaised ==> !raised
    requires Killed(p.result) ==> !killed
    requires p.action == Resumed ==> resumes < maxResumes
    requires p.action.Drilled? ==> Killed(p.result)
    ensures Counted(passes + [p], raised || p.action == CapRaised,
                    resumes + (if p.action == Resumed || Is(p, UNMOVED_DRILL) then 1 else 0),
                    killed || Killed(p.result), maxResumes)
  {
    TallySnoc(passes, p, CAP_RAISED);
    TallySnoc(passes, p, WAS_KILLED);
    TallySnoc(passes, p, WAS_RESUMED);
    TallySnoc(passes, p, UNMOVED_DRILL);
  }

  lemma ChainPass(passes: seq<Pass>, p: Pass, first: bool)
    requires Chained(passes, first) && Fits(p.result, p.action)
    requires p.enqueue == (if passes == [] then first else NextEnqueue(passes[|passes| - 1].action))
    requires passes != [] ==> !passes[|passes| - 1].action.Ended? && !passes[|passes| - 1].action.Threw?
    ensures Chained(passes + [p], first)
  {
  }

  /* ---------- Resuming ---------- */

  predicate Stranded(status: JobStatus, ongoing: Option<nat>, runningFor: nat) {
    status == RUNNING && (ongoing.None? || (ongoing.value == 0 && runningFor >= STRANDED_AFTER_SECONDS))
  }

  predicate Resumable(status: JobStatus, stranded: bool) {
    status !in {SUCCEEDED, CANCELLED, RUNNING} || (stranded && status == RUNNING)
  }

  /** The runs an operator may continue: any that is not over, and a RUNNING one only if nothing executes
      it, that is, with no worker on record, or with one that has nothing in flight while the step has been
      running longer than a pickup takes. */
  ghost predicate MayGoOn(status: JobStatus, ongoing: Option<nat>, runningFor: nat) {
    match status
    case RUNNING => ongoing == None || (ongoing == Some(0) && runningFor > 30)
    case _ => status != SUCCEEDED && status != CANCELLED
  }

  /** Records the decision to continue; `status` is the job as the session loaded it. False is the
      refusal. */
  method ResumeRun(r: Runtime, status: JobStatus, stranded: bool) returns (ok: bool)
    requires r.Valid()
    modifies r
    ensures r.told == old(r.told) && r.beats == old(r.beats)
    ensures r.Valid() && r.now >= old(r.now)
    ensures r.db.approvals == old(r.db.approvals) && r.db.cap == old(r.db.cap)
    ensures ok <==> status in {QUEUED, PAUSED, AWAITING_APPROVAL, FAILED, BUDGET_EXCEEDED} || (status == RUNNING && stranded)
    ensures if ok then old(r.seen) < r.seen && |r.seen| == |old(r.seen)| + 1 && r.db == Last(r.seen).(status := QUEUED)
            else r.seen == old(r.seen) && r.db == old(r.db)
  {
    ok := Resumable(status, stranded);
    if ok {
      var d := r.Observe();
      r.db := d.(status := QUEUED);
    }
  }

  /** Continues a RUNNING run only on evidence that nothing executes it; returns whether the worker
      needs telling. */
  method ResumeStranded(r: Runtime, status: JobStatus) returns (queued: bool)
    requires r.Valid()
    modifies r
    ensures r.told == old(r.told) && r.beats == old(r.beats) + 1
    ensures r.Valid() && old(r.seen) <= r.seen && r.now >= old(r.now)
    ensures r.db.approvals == old(r.db.approvals) && r.db.cap == old(r.db.cap)
    ensures |r.seen| == |old(r.seen)| + if queued then 2 else 1
    ensures queued <==> MayGoOn(status, r.pulse(r.beats - 1), r.seen[|old(r.seen)|].runningFor)
    ensures r.db == if queued then Last(r.seen).(status := QUEUED) else Last(r.seen)
  {
    var ongoing := r.Health();
    var d := r.Observe();
    var stranded := Stranded(status, ongoing, d.runningFor);
    if status == RUNNING && !stranded { return false; }
    queued := ResumeRun(r, status, stranded);
  }

  /** The last state read has another fingerprint than the one read at index `start`. */
  ghost predicate MovedSince(states: seq<Db>, start: nat) {
    start < |states| && FingerprintOf(states[|states| - 1]) != FingerprintOf(states[start])
  }

  /** Every state read from index `start` on has the same fingerprint. */
  ghost predicate StillSince(states: seq<Db>, start: nat) {
    start < |states| && forall i :: start <= i < |states| ==> FingerprintOf(states[i]) == FingerprintOf(states[start])
  }

  /** How long the queries of these indices took. */
  function Lags(lag: nat -> real, from: nat, end: nat): real
    decreases end
  {
    if end <= from then 0.0 else Lags(lag, from, end - 1) + lag(end - 1)
  }

  method WaitForMovement(r: Runtime, seconds: real) returns (moved: bool)
    requires r.Valid()
    modifies r
    ensures r.told == old(r.told) && r.beats == old(r.beats)
    ensures r.Valid() && old(r.seen) < r.seen && r.now >= old(r.now)
    ensures r.db.approvals == old(r.db.approvals) && r.db.cap == old(r.db.cap)
    ensures r.db == Last(r.seen)
    ensures moved ==> MovedSince(r.seen, |old(r.seen)|) && StillSince(r.seen[..|r.seen| - 1], |old(r.seen)|)
    ensures !moved ==> StillSince(r.seen, |old(r.seen)|)
    ensures !moved ==> r.now - old(r.now) >= seconds
    // It looks every five seconds, beside what the looks take.
    ensures var looks := |r.seen| - |old(r.seen)| - 1;
            r.now == old(r.now) + Lags(r.lag, |old(r.seen)|, |r.seen|) + 5.0 * looks as real
  {
    ghost var n := |r.seen|;
    var first := r.Observe();
    var before := FingerprintOf(first);
    var deadline := r.now + seconds;
    ghost var looks := 0;
    assert Lags(r.lag, n, n + 1) == Lags(r.lag, n, n) + r.lag(n);
    while r.now < deadline
      invariant r.Valid() && old(r.seen) + [first] <= r.seen && r.now >= old(r.now)
      invariant r.db.approvals == old(r.db.approvals) && r.db.cap == old(r.db.cap) && r.told == old(r.told)
      invariant r.beats == old(r.beats) && r.db == Last(r.seen)
      invariant looks == |r.seen| - n - 1 && r.now == old(r.now) + Lags(r.lag, n, |r.seen|) + 5.0 * looks as real
      invariant forall i :: n <= i < |r.seen| ==> FingerprintOf(r.seen[i]) == before
      decreases deadline - r.now
    {
      r.Sleep(5.0);
      var d := r.Observe();
      looks := looks + 1;
      if FingerprintOf(d) != before { return true; }
    }
    return false;
  }

  /* ---------- What a pass may answer, and on what ---------- */

  datatype Counters = Counters(raised: bool, resumes: nat, killed: bool)

  /** What the drive is asked to do. */
  datatype Orders = Orders(killAt: Option<string>, killAfter: real, raiseTo: real, ceiling: real, maxResumes: nat)

  /** What the driver runs against. */
  datatype Setting = Setting(
    schedule: (nat, Db) -> Db, lag: nat -> real, pulse: nat -> Option<nat>, living: nat -> bool, rules: Rules)

  /** Where the record and the driver stand at one moment: how many states were read, the state, the clock,
      the tasks queued, the readings of the worker's health and of its process so far. */
  datatype Mark = Mark(at: nat, db: Db, now: real, told: nat, beats: nat, looks: nat, launched: bool)

  ghost function SettingOf(x: WorkerExecutor): Setting {
    Setting(x.runtime.schedule, x.runtime.lag, x.runtime.pulse, x.living, x.runtime.rules)
  }

  ghost function MarkOf(x: WorkerExecutor): Mark
    reads x, x.runtime
  {
    var r := x.runtime;
    Mark(|r.seen|, r.db, r.now, r.told, r.beats, x.looks, x.launched)
  }

  /** After the drill's kill: the product had its chance. Either the run moved after the restart, or three
      minutes of looking found it where it was; only then is it resumed, exactly on the evidence that
      nothing executes it. `states` are the states read until `b`. */
  ghost predicate AfterDrill(w: Setting, action: Action, a: Mark, b: Mark, states: seq<Db>) {
    match action
    case Drilled(true, requeued) =>
      !requeued && b.launched && MovedSince(states, a.at) && StillSince(states[..|states| - 1], a.at)
    case Drilled(false, requeued) =>
      && b.launched && b.now - a.now >= MOVEMENT_SECONDS && b.beats > 0
      && var k := |states| - if requeued then 3 else 2;
      && a.at < k && StillSince(states[..k], a.at)
      && (requeued <==> MayGoOn(states[k].status, w.pulse(b.beats - 1), states[k + 1].runningFor))
      && b.db == if requeued then Last(states).(status := QUEUED) else Last(states)
    case Threw => StartFailed(w.living, b.looks, b.now - a.now)
    case _ => false
  }

  /** At a pause: one call about the gate, made after the job was loaded; its stop is the drive's. */
  ghost predicate AfterPause(w: Setting, action: Action, a: Mark, b: Mark, states: seq<Db>) {
    match action
    case GateNotWaiting => Answered(w.rules, NotWaiting, states, a.at + 1, b.db)
    case GateResealed => Answered(w.rules, Resealed, states, a.at + 1, b.db)
    case GateCleared => exists gate :: Answered(w.rules, Cleared(gate), states, a.at + 1, b.db)
    case Threw => Answered(w.rules, Failed, states, a.at + 1, b.db)
    case Ended(Some(AtGate(stop))) => Answered(w.rules, Stopped(stop), states, a.at + 1, b.db)
    case _ => false
  }

  /** On a budget stop: one that is not the run's own cap, or a second one, ends the drive; a cap that cannot
      be raised upwards within the ceiling, or a run that may not go on, is an error; otherwise the raise and
      the resume are one write. */
  ghost predicate AfterBudgetStop(action: Action, c: Counters, o: Orders, a: Mark, b: Mark, states: seq<Db>) {
    && a.at < |states|
    && var state := states[a.at];
       if state.budgetScope != Some("per_run") || c.raised then
         action == Ended(Some(OnBudget(state.budgetScope))) && b.db == Last(states)
       else if a.db.cap < o.raiseTo <= o.ceiling && MayGoOn(state.status, Some(1), 0) then
         action == CapRaised && b.db == Last(states).(status := QUEUED, cap := o.raiseTo)
       else action == Threw && b.db == Last(states)
  }

  /** On a failure: the end when the resumes are used up, else a resume whenever the status read next admits
      one, and an error only otherwise. */
  ghost predicate AfterFailure(action: Action, c: Counters, o: Orders, a: Mark, b: Mark, states: seq<Db>) {
    && a.at < |states|
    && if c.resumes >= o.maxResumes then action == Ended(Some(OutOfResumes)) && b.db == Last(states)
       else if MayGoOn(states[a.at].status, Some(1), 0) then action == Resumed && b.db == Last(states).(status := QUEUED)
       else action == Threw && b.db == Last(states)
  }

  /** After a worker went silent under a run: another was started and heard, and the drive goes on exactly if
      the run moved within the wait. */
  ghost predicate AfterSilence(w: Setting, action: Action, a: Mark, b: Mark, states: seq<Db>) {
    match action
    case Restarted =>
      && b.launched && b.beats > a.beats
      && MovedSince(states, a.at) && StillSince(states[..|states| - 1], a.at) && b.db == Last(states)
    case Ended(Some(WorkerGone)) =>
      && b.launched && b.beats > a.beats
      && StillSince(states, a.at) && b.db == Last(states) && b.now - a.now >= MOVEMENT_SECONDS
    case Threw => StartFailed(w.living, b.looks, b.now - a.now)
    case _ => false
  }

  /** What a result leads to, and on what evidence, between the marks `a` and `b`. */
  ghost predicate Answers(
    w: Setting, result: Result, action: Action, c: Counters, o: Orders, a: Mark, b: Mark, states: seq<Db>)
  {
    if result.TimedOut? then action == Threw && b == a
    else if Killed(result) then AfterDrill(w, action, a, b, states)
    else match result.status
      case AWAITING_APPROVAL => AfterPause(w, action, a, b, states)
      case BUDGET_EXCEEDED => AfterBudgetStop(action, c, o, a, b, states)
      case FAILED => AfterFailure(action, c, o, a, b, states)
      case RUNNING => if result.workerDead then AfterSilence(w, action, a, b, states) else action == Nothing && b == a
      case SUCCEEDED => action == Ended(None) && b == a
      case CANCELLED => action == Ended(None) && b == a
      case PAUSED => action == Ended(Some(StepMode)) && b == a
      case QUEUED => action == Nothing && b == a
  }

  /* ---------- One pass's reactions ---------- */

  method OnKilled(x: WorkerExecutor) returns (action: Action)
    requires x.runtime.Valid()
    modifies x, x.runtime
    ensures x.runtime.told == old(x.runtime.told)
    ensures x.runtime.Valid() && old(x.runtime.seen) <= x.runtime.seen
    ensures x.runtime.db.approvals == old(x.runtime.db.approvals) && x.runtime.db.cap == old(x.runtime.db.cap)
    ensures AfterDrill(SettingOf(x), action, old(MarkOf(x)), MarkOf(x), x.runtime.seen)
  {
    hide MayGoOn, StillSince, MovedSince, FingerprintOf, StartFailed, Lags;
    var ok := x.Start();
    if !ok { return Threw; }
    var moved := WaitForMovement(x.runtime, MOVEMENT_SECONDS);
    var queued := false;
    if !moved {
      ghost var looked := x.runtime.seen;
      var d := x.runtime.Observe();
      queued := ResumeStranded(x.runtime, d.status);
      DrilledInVain(SettingOf(x), queued, old(MarkOf(x)), MarkOf(x), looked, x.runtime.seen);
    }
    return Drilled(moved, queued);
  }

  lemma DrilledInVain(w: Setting, queued: bool, a: Mark, b: Mark, looked: seq<Db>, states: seq<Db>)
    requires b.launched && b.now - a.now >= MOVEMENT_SECONDS && b.beats > 0
    requires looked < states && |states| == |looked| + (if queued then 3 else 2) && StillSince(looked, a.at)
    requires queued <==> MayGoOn(states[|looked|].status, w.pulse(b.beats - 1), states[|looked| + 1].runningFor)
    requires b.db == if queued then Last(states).(status := QUEUED) else Last(states)
    ensures AfterDrill(w, Drilled(false, queued), a, b, states)
  {
    hide MayGoOn, FingerprintOf;
    assert states[..|looked|] == looked;
  }

  method OnAwaiting(r: Runtime) returns (action: Action)
    requires r.Valid() && OnePerGate(r.db.approvals) && PlanFirst(r.db.approvals)
    modifies r
    ensures r.told == old(r.told)
    ensures r.Valid() && OnePerGate(r.db.approvals) && PlanFirst(r.db.approvals)
    ensures old(r.seen) < r.seen && r.db.cap == old(r.db.cap)
    ensures Last(r.seen).approvals == old(r.db.approvals)
    ensures action != GateCleared ==> r.db.approvals == old(r.db.approvals)
    // Whatever it answers, it is the answer of one call about the gate.
    ensures match action
            case GateNotWaiting => Answered(r.rules, NotWaiting, r.seen, |old(r.seen)| + 1, r.db)
            case GateResealed => Answered(r.rules, Resealed, r.seen, |old(r.seen)| + 1, r.db)
            case GateCleared => exists gate :: Answered(r.rules, Cleared(gate), r.seen, |old(r.seen)| + 1, r.db)
            case Threw => Answered(r.rules, Failed, r.seen, |old(r.seen)| + 1, r.db)
            case Ended(Some(AtGate(stop))) => Answered(r.rules, Stopped(stop), r.seen, |old(r.seen)| + 1, r.db)
            case _ => false
    // A stale pause, and a stop at the gate, leave the record to the worker.
    ensures action == GateNotWaiting || action.Ended? ==> r.Untouched(old(r.db), |old(r.seen)|)
  {
    hide Answered, PlanFirst, OnePerGate;
    ghost var n := |r.seen|;
    var loaded := r.Observe();
    ghost var states := r.seen;
    var outcome := ClearPendingGate(r);
    LeftAloneOn(r.schedule, old(r.db), states, r.seen, n);
    match outcome {
      case NotWaiting => action := GateNotWaiting;
      case Resealed => action := GateResealed;
      case Failed => action := Threw;
      case Stopped(stop) => action := Ended(Some(AtGate(stop)));
      case Cleared(gate) => action := GateCleared;
    }
  }

  method OnBudgetStop(x: WorkerExecutor, c: Counters, o: Orders) returns (action: Action)
    requires x.runtime.Valid()
    modifies x.runtime
    ensures x.runtime.told == old(x.runtime.told)
    ensures x.runtime.Valid() && old(x.runtime.seen) <= x.runtime.seen
    ensures x.runtime.db.approvals == old(x.runtime.db.approvals)
    ensures AfterBudgetStop(action, c, o, old(MarkOf(x)), MarkOf(x), x.runtime.seen)
    ensures x.runtime.db.cap == if action == CapRaised then o.raiseTo else old(x.runtime.db.cap)
  {
    var r := x.runtime;
    var state := r.Observe();
    if state.budgetScope != Some("per_run") || c.raised { return Ended(Some(OnBudget(state.budgetScope))); }
    var d := r.Observe();
    if o.raiseTo <= d.cap || o.raiseTo > o.ceiling { return Threw; }
    var ok := ResumeRun(r, state.status, false);
    if !ok { return Threw; }
    // The raise and the resume commit together.
    r.db := r.db.(cap := o.raiseTo);
    return CapRaised;
  }

  method OnFailed(x: WorkerExecutor, c: Counters, o: Orders) returns (action: Action)
    requires x.runtime.Valid()
    modifies x.runtime
    ensures x.runtime.told == old(x.runtime.told)
    ensures x.runtime.Valid() && old(x.runtime.seen) <= x.runtime.seen
    ensures x.runtime.db.approvals == old(x.runtime.db.approvals) && x.runtime.db.cap == old(x.runtime.db.cap)
    ensures AfterFailure(action, c, o, old(MarkOf(x)), MarkOf(x), x.runtime.seen)
  {
    var d := x.runtime.Observe();
    if c.resumes >= o.maxResumes { return Ended(Some(OutOfResumes)); }
    var ok := ResumeRun(x.runtime, d.status, false);
    return if ok then Resumed else Threw;
  }

  method OnDeadWorker(x: WorkerExecutor) returns (action: Action)
    requires x.runtime.Valid()
    modifies x, x.runtime
    ensures x.runtime.told == old(x.runtime.told)
    ensures x.runtime.Valid() && old(x.runtime.seen) <= x.runtime.seen
    ensures x.runtime.db.approvals == old(x.runtime.db.approvals) && x.runtime.db.cap == old(x.runtime.db.cap)
    ensures AfterSilence(SettingOf(x), action, old(MarkOf(x)), MarkOf(x), x.runtime.seen)
  {
    x.Stop();
    var ok := x.Start();
    if !ok { return Threw; }
    var moved := WaitForMovement(x.runtime, MOVEMENT_SECONDS);
    return if moved then Restarted else Ended(Some(WorkerGone));
  }

  /** Everything the loop does between two advances. */
  method React(x: WorkerExecutor, result: Result, c: Counters, o: Orders) returns (action: Action)
    requires x.runtime.Valid() && OnePerGate(x.runtime.db.approvals) && PlanFirst(x.runtime.db.approvals)
    modifies x, x.runtime
    ensures x.runtime.told == old(x.runtime.told)
    ensures x.runtime.Valid() && OnePerGate(x.runtime.db.approvals) && PlanFirst(x.runtime.db.approvals)
    ensures old(x.runtime.seen) <= x.runtime.seen
    ensures Answers(SettingOf(x), result, action, c, o, old(MarkOf(x)), MarkOf(x), x.runtime.seen)
    ensures x.runtime.db.cap == if action == CapRaised then o.raiseTo else old(x.runtime.db.cap)
    ensures action != GateCleared ==> x.runtime.db.approvals == old(x.runtime.db.approvals)
    ensures action == GateCleared ==> x.runtime.seen != [] && Last(x.runtime.seen).approvals == old(x.runtime.db.approvals)
    ensures action == GateNotWaiting ==> x.runtime.Untouched(old(x.runtime.db), |old(x.runtime.seen)|)
  {
    hide AfterDrill, Answered, AfterBudgetStop, AfterFailure, AfterSilence, PlanFirst, OnePerGate, LeftAlone;
    if result.TimedOut? { return Threw; }
    if Killed(result) {
      action := OnKilled(x);
      NotAGate(SettingOf(x), action, old(MarkOf(x)), MarkOf(x), x.runtime.seen);
      return;
    }
    match result.status {
      case AWAITING_APPROVAL => action := OnAwaiting(x.runtime);
      case BUDGET_EXCEEDED =>
        action := OnBudgetStop(x, c, o);
        BudgetActions(action, c, o, old(MarkOf(x)), MarkOf(x), x.runtime.seen);
      case FAILED =>
        action := OnFailed(x, c, o);
        FailureActions(action, c, o, old(MarkOf(x)), MarkOf(x), x.runtime.seen);
      case RUNNING =>
        if result.workerDead {
          action := OnDeadWorker(x);
          NotAGate(SettingOf(x), action, old(MarkOf(x)), MarkOf(x), x.runtime.seen);
        } else {
          action := Nothing;
        }
      case SUCCEEDED => action := Ended(None);
      case CANCELLED => action := Ended(None);
      case PAUSED => action := Ended(Some(StepMode));
      case QUEUED => action := Nothing;
    }
  }

  lemma NotAGate(w: Setting, action: Action, a: Mark, b: Mark, states: seq<Db>)
    requires AfterDrill(w, action, a, b, states) || AfterSilence(w, action, a, b, states)
    ensures action !in {GateCleared, GateResealed, GateNotWaiting, CapRaised, Resumed}
  {
  }

  lemma BudgetActions(action: Action, c: Counters, o: Orders, a: Mark, b: Mark, states: seq<Db>)
    requires AfterBudgetStop(action, c, o, a, b, states)
    ensures action in {CapRaised, Threw} || (action.Ended? && action.reason.Some? && action.reason.value.OnBudget?)
    ensures action == CapRaised ==> !c.raised && o.raiseTo > a.db.cap
  {
  }

  lemma FailureActions(action: Action, c: Counters, o: Orders, a: Mark, b: Mark, states: seq<Db>)
    requires AfterFailure(action, c, o, a, b, states)
    ensures action in {Resumed, Threw, Ended(Some(OutOfResumes))}
    ensures action == Resumed ==> c.resumes < o.maxResumes
  {
  }

  /** What answers a result fits the transition table, and what it raises or resumes it may. */
  lemma AnswersFit(w: Setting, result: Result, action: Action, c: Counters, o: Orders, a: Mark, b: Mark, states: seq<Db>)
    requires Answers(w, result, action, c, o, a, b, states)
    ensures Fits(result, action)
    ensures action == CapRaised ==> !c.raised && o.raiseTo > a.db.cap
    ensures action == Resumed ==> c.resumes < o.maxResumes
    ensures action == GateCleared ==> exists gate :: Answered(w.rules, Cleared(gate), states, a.at + 1, b.db)
  {
    hide Answered, MayGoOn, MovedSince, StillSince, StartFailed;
  }

  /* ---------- The loop ---------- */

  /** What the driver begins with: a queued run is told to the worker unless it was already; a run left
      RUNNING only when it is resumed as stranded; every other is first read where it stands. */
  ghost predicate Opens(
    pulse: nat -> Option<nat>, enqueue: bool, alreadyQueued: bool, states: seq<Db>, start: nat, beats: nat)
  {
    && start < |states|
    && if alreadyQueued then !enqueue
       else if states[start].status == RUNNING then
         beats > 0 && start + 1 < |states| && (enqueue <==> MayGoOn(RUNNING, pulse(beats - 1), states[start + 1].runningFor))
       else enqueue <==> states[start].status == QUEUED
  }

  /** Whether the first pass tells the worker about a run an earlier driver left behind. */
  method FirstEnqueue(r: Runtime, alreadyQueued: bool) returns (enqueue: bool)
    requires r.Valid()
    modifies r
    ensures r.told == old(r.told)
    ensures r.Valid() && old(r.seen) < r.seen
    ensures r.db.approvals == old(r.db.approvals) && r.db.cap == old(r.db.cap)
    ensures Opens(r.pulse, enqueue, alreadyQueued, r.seen, |old(r.seen)|, r.beats)
    ensures r.db == Last(r.seen) || (enqueue && r.db == Last(r.seen).(status := QUEUED))
  {
    var d := r.Observe();
    if alreadyQueued { return false; }
    if d.status == RUNNING {
      enqueue := ResumeStranded(r, d.status);
    } else {
      enqueue := d.status == QUEUED;
    }
  }

  /** The state of the shared record after some passes: the cap raised at most once and upwards, and
      one decision added for each cleared gate, each resting on what the run showed. */
  ghost predicate Kept(r: Runtime, passes: seq<Pass>, raised: bool, raiseTo: real, cap: real, approvals: seq<Approval>)
    reads r
  {
    && r.Valid() && OnePerGate(r.db.approvals) && PlanFirst(r.db.approvals)
    && cap <= r.db.cap == (if raised then raiseTo else cap)
    && approvals <= r.db.approvals
    && |r.db.approvals| == |approvals| + Tally(passes, WAS_CLEARED)
    && AllFounded(r.rules, r.db.approvals, |approvals|, r.seen)
  }

  ghost predicate AllFounded(rules: Rules, approvals: seq<Approval>, from: nat, states: seq<Db>) {
    forall k :: from <= k < |approvals| ==> Founded(rules, approvals[k], states)
  }

  /** Whether the loop goes round again. */
  predicate Continues(passes: seq<Pass>) {
    passes != [] ==> !passes[|passes| - 1].action.Ended? && !passes[|passes| - 1].action.Threw?
  }

  lemma KeptAfter(
    r: Runtime, before: Db, seen: seq<Db>, passes: seq<Pass>, p: Pass, raised: bool, raiseTo: real, cap: real,
    approvals: seq<Approval>)
    requires r.Valid() && OnePerGate(r.db.approvals) && PlanFirst(r.db.approvals)
    requires cap <= before.cap == (if raised then raiseTo else cap) && approvals <= before.approvals
    requires |before.approvals| == |approvals| + Tally(passes, WAS_CLEARED)
    requires AllFounded(r.rules, before.approvals, |approvals|, seen) && seen <= r.seen
    requires r.db.cap == (if p.action == CapRaised then raiseTo else before.cap)
    requires p.action == CapRaised ==> raiseTo > before.cap
    requires Grown(r.rules, before.approvals, r.db.approvals, r.seen, p.action)
    ensures Kept(r, passes + [p], raised || p.action == CapRaised, raiseTo, cap, approvals)
  {
    hide Founded;
    TallySnoc(passes, p, WAS_CLEARED);
    forall k | |approvals| <= k < |r.db.approvals| ensures Founded(r.rules, r.db.approvals[k], r.seen) {
      if k < |before.approvals| {
        assert r.db.approvals[k] == before.approvals[k];
        FoundedLater(r.rules, before.approvals[k], seen, r.seen);
      }
    }
  }

  /** A pass adds one well-founded approval when it cleared a gate; otherwise none. */
  ghost predicate Grown(rules: Rules, before: seq<Approval>, after: seq<Approval>, states: seq<Db>, action: Action) {
    if action == GateCleared then
      |after| == |before| + 1 && before < after && Founded(rules, after[|before|], states)
    else after == before
  }

  function Count(c: Counters, p: Pass): Counters {
    Counters(
      c.raised || p.action == CapRaised,
      c.resumes + (if p.action == Resumed || Is(p, UNMOVED_DRILL) then 1 else 0),
      c.killed || Killed(p.result))
  }

  /** What one pass of the loop rests on: the counters and the marks before it, what its advance saw, the mark
      between the advance and the reaction, and the mark after. */
  datatype Leg = Leg(c: Counters, before: Mark, account: Account, between: Mark, after: Mark)

  function TermsOf(p: Pass, c: Counters, o: Orders, first: Db): Terms {
    Terms(p.enqueue, FingerprintOf(first), if c.killed then None else o.killAt, o.killAfter)
  }

  /** `states` are the states read until the pass was over. Its advance read one state, told the worker or
      not, and then read what its account says, which bears its result out; its reaction answers that
      result. */
  ghost predicate Bears(w: Setting, o: Orders, p: Pass, g: Leg, states: seq<Db>) {
    && g.before.at < g.between.at <= g.after.at == |states|
    && states[g.before.at + 1..g.between.at] == ReadsOf(g.account.rounds)
    && g.account.started == g.before.now + w.lag(g.before.at)
    && Sound(p.result, g.account, TermsOf(p, g.c, o, states[g.before.at]))
    && g.between.told == g.before.told + (if p.enqueue then 1 else 0) == g.after.told
    && g.between.launched == (g.before.launched && !Killed(p.result))
    && Answers(w, p.result, p.action, g.c, o, g.between, g.after, states)
    && (p.action == GateNotWaiting ==>
          Stale(w.schedule, g.before.db, states, g.before.at, g.after.at, p.enqueue, g.after.db))
  }

  method OnePass(x: WorkerExecutor, enqueue: bool, c: Counters, o: Orders) returns (p: Pass, ghost g: Leg)
    requires x.runtime.Valid() && OnePerGate(x.runtime.db.approvals) && PlanFirst(x.runtime.db.approvals)
    modifies x, x.runtime
    ensures x.runtime.told == old(x.runtime.told) + if enqueue then 1 else 0
    ensures x.runtime.Valid() && OnePerGate(x.runtime.db.approvals) && PlanFirst(x.runtime.db.approvals)
    ensures old(x.runtime.seen) <= x.runtime.seen && p.enqueue == enqueue
    ensures g.c == c && g.before == old(MarkOf(x)) && g.after == MarkOf(x)
    ensures Bears(SettingOf(x), o, p, g, x.runtime.seen)
    ensures Fits(p.result, p.action)
    ensures p.action == CapRaised ==> !c.raised && o.raiseTo > old(x.runtime.db.cap)
    ensures Killed(p.result) ==> !c.killed && o.killAt.Some?
    ensures p.action == Resumed ==> c.resumes < o.maxResumes
    ensures x.runtime.db.cap == (if p.action == CapRaised then o.raiseTo else old(x.runtime.db.cap))
    ensures Grown(x.runtime.rules, old(x.runtime.db.approvals), x.runtime.db.approvals, x.runtime.seen, p.action)
  {
    hide Fits, Answers, Answered, Sound, LeftAlone, Founded, PlanFirst, OnePerGate, FingerprintOf, Bears, Stale, ReadsOf;
    ghost var n := |x.runtime.seen|;
    var result;
    ghost var account;
    result, account := x.Advance(enqueue, if c.killed then None else o.killAt, o.killAfter);
    ghost var before, between, advanced := x.runtime.db.approvals, MarkOf(x), x.runtime.seen;
    var action := React(x, result, c, o);
    p := Pass(enqueue, result, action);
    g := Leg(c, old(MarkOf(x)), account, between, MarkOf(x));
    AnswersFit(SettingOf(x), result, action, c, o, between, g.after, x.runtime.seen);
    KilledAsAsked(result, account, TermsOf(p, c, o, advanced[n]));
    if action == GateCleared {
      ghost var gate :| Answered(x.runtime.rules, Cleared(gate), x.runtime.seen, between.at + 1, x.runtime.db);
      ClearedIsFounded(x.runtime.rules, gate, x.runtime.seen, between.at + 1, x.runtime.db);
    }
    if action == GateNotWaiting {
      LeftAloneOn(x.runtime.schedule, if enqueue then Told(advanced[n]) else advanced[n], advanced, x.runtime.seen, n + 1);
      StaleThen(x.runtime.schedule, old(x.runtime.db), advanced, x.runtime.seen, n, enqueue, x.runtime.db);
    }
    PassBears(SettingOf(x), o, p, g, advanced, x.runtime.seen);
  }

  lemma StaleThen(
    schedule: (nat, Db) -> Db, before: Db, advanced: seq<Db>, states: seq<Db>, n: nat, enqueue: bool, after: Db)
    requires n < |advanced| && advanced <= states && states[n] == schedule(n, before)
    requires var base := if enqueue then Told(advanced[n]) else advanced[n];
             LeftAlone(schedule, base, states, n + 1, |states|) && after == StateAt(base, states, n + 1, |states|)
    ensures Stale(schedule, before, states, n, |states|, enqueue, after)
  {
    hide LeftAlone;
  }

  lemma PassBears(w: Setting, o: Orders, p: Pass, g: Leg, advanced: seq<Db>, states: seq<Db>)
    requires g.before.at < |advanced| == g.between.at <= g.after.at == |states| && advanced <= states
    requires advanced[g.before.at + 1..] == ReadsOf(g.account.rounds)
    requires g.account.started == g.before.now + w.lag(g.before.at)
    requires Sound(p.result, g.account, TermsOf(p, g.c, o, advanced[g.before.at]))
    requires g.between.told == g.before.told + (if p.enqueue then 1 else 0) == g.after.told
    requires g.between.launched == (g.before.launched && !Killed(p.result))
    requires Answers(w, p.result, p.action, g.c, o, g.between, g.after, states)
    requires p.action == GateNotWaiting ==>
      Stale(w.schedule, g.before.db, states, g.before.at, g.after.at, p.enqueue, g.after.db)
    ensures Bears(w, o, p, g, states)
  {
    hide Sound, Answers, Stale, ReadsOf, FingerprintOf;
    assert states[g.before.at + 1..g.between.at] == advanced[g.before.at + 1..];
  }

  lemma KilledAsAsked(result: Result, a: Account, t: Terms)
    requires Sound(result, a, t)
    ensures Killed(result) ==> t.killAt.Some? && result.status == RUNNING
  {
  }

  /** What a pass that met a stale pause did to the record: it put one task on the queue after its first
      read if it was to, and all else is what the worker made of it. */
  ghost predicate Stale(
    schedule: (nat, Db) -> Db, before: Db, states: seq<Db>, start: nat, end: nat, enqueue: bool, after: Db)
  {
    && start < end <= |states|
    && states[start] == schedule(start, before)
    && var base := if enqueue then Told(states[start]) else states[start];
       LeftAlone(schedule, base, states, start + 1, end) && after == StateAt(base, states, start + 1, end)
  }

  /* ---------- All the passes of a drive ---------- */

  /** What a drive did beside its passes: whether the first one was to tell the worker, the mark the loop
      began at, and a leg for each pass. */
  datatype Trace = Trace(first: bool, start: Mark, legs: seq<Leg>)

  /** Each pass is borne out by what was read until it was over, and each begins where the one before ended,
      with the counters counted on. */
  ghost predicate Traced(w: Setting, o: Orders, passes: seq<Pass>, t: Trace, states: seq<Db>) {
    && |t.legs| == |passes| && Linked(passes, t)
    && forall i :: 0 <= i < |passes| ==> LegOf(w, o, passes[i], t.legs[i], states)
  }

  ghost predicate Linked(passes: seq<Pass>, t: Trace)
    requires |t.legs| == |passes|
  {
    forall i :: 0 <= i < |passes| ==> t.legs[i].before == Reached(t, i) && t.legs[i].c == Reckoned(passes, i)
  }

  ghost predicate LegOf(w: Setting, o: Orders, p: Pass, g: Leg, states: seq<Db>) {
    g.after.at <= |states| && Bears(w, o, p, g, states[..g.after.at])
  }

  /** The mark after so many passes. */
  function Reached(t: Trace, i: nat): Mark
    requires i <= |t.legs|
  {
    if i == 0 then t.start else t.legs[i - 1].after
  }

  /** The counters after so many passes. */
  function Reckoned(passes: seq<Pass>, i: nat): Counters
    requires i <= |passes|
  {
    if i == 0 then Counters(false, 0, false) else Count(Reckoned(passes, i - 1), passes[i - 1])
  }

  lemma {:induction false} ReckonedSame(passes: seq<Pass>, more: seq<Pass>, i: nat)
    requires i <= |passes| && passes <= more
    ensures Reckoned(passes, i) == Reckoned(more, i)
  {
    if i > 0 { ReckonedSame(passes, more, i - 1); }
  }

  lemma ReckonedSnoc(passes: seq<Pass>, p: Pass)
    ensures Reckoned(passes + [p], |passes| + 1) == Count(Reckoned(passes, |passes|), p)
  {
    ReckonedSame(passes, passes + [p], |passes|);
  }

  lemma TracedAfter(
    w: Setting, o: Orders, passes: seq<Pass>, p: Pass, t: Trace, g: Leg, states: seq<Db>, more: seq<Db>)
    requires Traced(w, o, passes, t, states) && states <= more
    requires Bears(w, o, p, g, more)
    requires g.before == Reached(t, |passes|) && g.c == Reckoned(passes, |passes|)
    ensures Traced(w, o, passes + [p], t.(legs := t.legs + [g]), more)
    ensures |t.legs| == |passes| && Reached(t.(legs := t.legs + [g]), |passes| + 1) == g.after
  {
    hide Bears, LegOf, Linked, Reckoned;
    LinkedAfter(passes, p, t, g);
    var passes', t' := passes + [p], t.(legs := t.legs + [g]);
    forall i | 0 <= i < |passes'| ensures LegOf(w, o, passes'[i], t'.legs[i], more) {
      if i < |passes| { LegStays(w, o, passes[i], t.legs[i], states, more); } else { BornOut(w, o, p, g, more); }
    }
  }

  lemma LinkedAfter(passes: seq<Pass>, p: Pass, t: Trace, g: Leg)
    requires |t.legs| == |passes| && Linked(passes, t)
    requires g.before == Reached(t, |passes|) && g.c == Reckoned(passes, |passes|)
    ensures Linked(passes + [p], t.(legs := t.legs + [g]))
  {
    hide Reckoned;
    var passes', t' := passes + [p], t.(legs := t.legs + [g]);
    forall i | 0 <= i < |passes'|
      ensures t'.legs[i].before == Reached(t', i) && t'.legs[i].c == Reckoned(passes', i)
    {
      ReckonedSame(passes, passes', i);
    }
  }

  lemma LegStays(w: Setting, o: Orders, p: Pass, g: Leg, states: seq<Db>, more: seq<Db>)
    requires LegOf(w, o, p, g, states) && states <= more
    ensures LegOf(w, o, p, g, more)
  {
    hide Bears;
    assert more[..g.after.at] == states[..g.after.at];
  }

  lemma BornOut(w: Setting, o: Orders, p: Pass, g: Leg, states: seq<Db>)
    requires Bears(w, o, p, g, states)
    ensures LegOf(w, o, p, g, states)
  {
    assert g.after.at == |states|;
    assert states[..|states|] == states;
  }

  /** What the passes and the counters say together. */
  ghost predicate Tallied(passes: seq<Pass>, first: bool, c: Counters, maxResumes: nat, killAt: Option<string>) {
    && Chained(passes, first)
    && Counted(passes, c.raised, c.resumes, c.killed, maxResumes)
    && (killAt.None? ==> !c.killed)
  }

  lemma TalliedAfter(passes: seq<Pass>, p: Pass, first: bool, c: Counters, maxResumes: nat, killAt: Option<string>)
    requires Tallied(passes, first, c, maxResumes, killAt) && Continues(passes)
    requires Fits(p.result, p.action)
    requires p.enqueue == (if passes == [] then first else NextEnqueue(passes[|passes| - 1].action))
    requires p.action == CapRaised ==> !c.raised
    requires Killed(p.result) ==> !c.killed && killAt.Some?
    requires p.action == Resumed ==> c.resumes < maxResumes
    ensures Tallied(passes + [p], first, Count(c, p), maxResumes, killAt)
  {
    CountPass(passes, p, c.raised, c.resumes, c.killed, maxResumes);
    ChainPass(passes, p, first);
  }

  predicate EndedWell(result: Result) {
    result.Advanced? && result.killedAt.None? && (result.status == SUCCEEDED || result.status == CANCELLED)
  }

  /** No reason is given exactly when the run was last seen finished or cancelled; the iteration bound
      is the reason exactly when no pass ended the loop, and then all forty were used. */
  ghost predicate Concluded(passes: seq<Pass>, reason: Option<StopReason>) {
    && passes != []
    && var last := passes[|passes| - 1];
       && (reason.None? <==> EndedWell(last.result))
       && (reason == Some(IterationBound) <==> !last.action.Ended?)
       && (reason == Some(IterationBound) ==> |passes| == MAX_ITERATIONS)
       && (last.action.Ended? ==> reason == last.action.reason)
  }

  lemma ConcludedBy(passes: seq<Pass>, reason: Option<StopReason>)
    requires passes != []
    requires var last := passes[|passes| - 1];
             && Fits(last.result, last.action) && !last.action.Threw?
             && reason == (if last.action.Ended? then last.action.reason else Some(IterationBound))
             && (last.action.Ended? || |passes| == MAX_ITERATIONS)
    ensures Concluded(passes, reason)
  {
  }

  /** Where a drive began: the cap, the decisions and the tasks put on the queue before it. */
  datatype Origin = Origin(cap: real, approvals: seq<Approval>, told: nat)

  /** Everything the loop keeps. A task goes on the queue exactly in the passes that say so. */
  ghost predicate Driven(x: WorkerExecutor, passes: seq<Pass>, t: Trace, orders: Orders, o: Origin)
    reads x, x.runtime
  {
    && Traced(SettingOf(x), orders, passes, t, x.runtime.seen) && Reached(t, |passes|) == MarkOf(x)
    && var c := Reckoned(passes, |passes|);
    && Kept(x.runtime, passes, c.raised, orders.raiseTo, o.cap, o.approvals)
    && Tallied(passes, t.first, c, orders.maxResumes, orders.killAt)
    && x.runtime.told == o.told + Tally(passes, WAS_TOLD)
  }

  /** Whether the next pass tells the worker. */
  function Next(passes: seq<Pass>, first: bool): bool {
    if passes == [] then first else NextEnqueue(passes[|passes| - 1].action)
  }

  /** One turn of the loop. */
  method Turn(
      x: WorkerExecutor, passes: seq<Pass>, ghost t: Trace, enqueue: bool, c: Counters, orders: Orders,
      ghost o: Origin)
    returns (p: Pass, ghost g: Leg)
    requires Driven(x, passes, t, orders, o) && Continues(passes)
    requires enqueue == Next(passes, t.first) && c == Reckoned(passes, |passes|)
    modifies x, x.runtime
    ensures Driven(x, passes + [p], t.(legs := t.legs + [g]), orders, o) && old(x.runtime.seen) <= x.runtime.seen
    ensures Fits(p.result, p.action) && Count(c, p) == Reckoned(passes + [p], |passes| + 1)
    ensures p.action == Ended(Some(OutOfResumes)) ==> c.resumes >= orders.maxResumes
  {
    hide Fits, Traced, Bears, Counted, Chained, Count, PlanFirst, OnePerGate, AllFounded, Grown, Reckoned, Reached, Tally;
    ghost var before, seen := x.runtime.db, x.runtime.seen;
    p, g := OnePass(x, enqueue, c, orders);
    ReckonedSnoc(passes, p);
    KeptAfter(x.runtime, before, seen, passes, p, c.raised, orders.raiseTo, o.cap, o.approvals);
    TalliedAfter(passes, p, t.first, c, orders.maxResumes, orders.killAt);
    CountedRaise(c, p);
    TallySnoc(passes, p, WAS_TOLD);
    TracedAfter(SettingOf(x), orders, passes, p, t, g, seen, x.runtime.seen);
    OutOnlyWhenUsed(SettingOf(x), orders, p, g, x.runtime.seen);
  }

  lemma CountedRaise(c: Counters, p: Pass)
    ensures Count(c, p).raised == (c.raised || p.action == CapRaised)
  {
  }

  lemma OutOnlyWhenUsed(w: Setting, o: Orders, p: Pass, g: Leg, states: seq<Db>)
    requires Bears(w, o, p, g, states)
    ensures p.action == Ended(Some(OutOfResumes)) ==> g.c.resumes >= o.maxResumes
  {
    hide Sound, Stale, AfterDrill, Answered;
    if p.action == Ended(Some(OutOfResumes)) && Killed(p.result) { DrillActions(w, p.action, g.between, g.after, states); }
  }

  lemma DrillActions(w: Setting, action: Action, a: Mark, b: Mark, states: seq<Db>)
    requires AfterDrill(w, action, a, b, states)
    ensures action.Drilled? || action == Threw
  {
  }

  /** Everything before the loop: the worker started, and whether to tell it about a run that exists. */
  method Open(x: WorkerExecutor, commissioned: bool, alreadyQueued: bool) returns (ok: bool, enqueue: bool)
    requires x.runtime.Valid()
    modifies x, x.runtime
    ensures x.runtime.Valid() && x.runtime.told == old(x.runtime.told) && old(x.runtime.seen) <= x.runtime.seen
    ensures x.runtime.db.approvals == old(x.runtime.db.approvals) && x.runtime.db.cap == old(x.runtime.db.cap)
    ensures !ok ==> StartFailed(x.living, x.looks, x.runtime.now - old(x.runtime.now))
    ensures ok ==> x.launched
    ensures ok && commissioned ==> enqueue
    ensures ok && !commissioned ==>
      Opens(x.runtime.pulse, enqueue, alreadyQueued, x.runtime.seen, |old(x.runtime.seen)|, x.runtime.beats)
  {
    hide Opens, StartFailed;
    enqueue := true;
    ok := x.Start();
    if ok && !commissioned { enqueue := FirstEnqueue(x.runtime, alreadyQueued); }
  }

  /** The audit's drive over a job that exists. `passes` is everything it did, and `t` what that rests on. */
  method Drive(x: WorkerExecutor, commissioned: bool, alreadyQueued: bool, orders: Orders)
    returns (summary: Summary, passes: seq<Pass>, ghost t: Trace)
    requires x.runtime.Valid() && OnePerGate(x.runtime.db.approvals) && PlanFirst(x.runtime.db.approvals)
    modifies x, x.runtime
    ensures |passes| <= MAX_ITERATIONS
    // Every pass follows the transition table and is borne out by what was read; the cap is raised at most
    // once, the worker killed at most once, and resumes are bounded.
    ensures Driven(x, passes, t, orders,
                   Origin(old(x.runtime.db.cap), old(x.runtime.db.approvals), old(x.runtime.told)))
    // Whether the first pass tells the worker; a drive whose worker never started has no pass.
    ensures passes != [] ==> t.start.launched && (commissioned ==> t.first)
    ensures passes != [] && !commissioned ==>
      && t.start.at <= |x.runtime.seen|
      && Opens(x.runtime.pulse, t.first, alreadyQueued, x.runtime.seen[..t.start.at], |old(x.runtime.seen)|, t.start.beats)
    ensures passes == [] ==>
      summary.Aborted? && StartFailed(x.living, x.looks, x.runtime.now - old(x.runtime.now))
    // Only the last pass ends the loop, and its reason is the drive's.
    ensures Reported(summary, passes, orders)
  {
    hide Opens, Reported, Driven, StartFailed;
    ghost var o := Origin(x.runtime.db.cap, x.runtime.db.approvals, x.runtime.told);
    var ok, enqueue := Open(x, commissioned, alreadyQueued);
    passes, t := [], Trace(enqueue, MarkOf(x), []);
    NothingDriven(x, t, orders, o);
    if !ok { NothingReported(orders); return Aborted, passes, t; }
    ghost var opening := x.runtime.seen;
    assert opening[..|opening|] == opening;
    summary, passes, t := GoRound(x, enqueue, orders, t, o);
    assert x.runtime.seen[..t.start.at] == opening;
  }

  lemma NothingDriven(x: WorkerExecutor, t: Trace, orders: Orders, o: Origin)
    requires x.runtime.Valid() && OnePerGate(x.runtime.db.approvals) && PlanFirst(x.runtime.db.approvals)
    requires t.legs == [] && t.start == MarkOf(x)
    requires o == Origin(x.runtime.db.cap, x.runtime.db.approvals, x.runtime.told)
    ensures Driven(x, [], t, orders, o)
  {
  }

  /** The cap a drive ends under: the one it began with, or the one it was raised to, which is no less. */
  lemma CapKept(x: WorkerExecutor, passes: seq<Pass>, t: Trace, orders: Orders, o: Origin)
    requires Driven(x, passes, t, orders, o)
    ensures o.cap <= x.runtime.db.cap == if Reckoned(passes, |passes|).raised then orders.raiseTo else o.cap
  {
    hide Traced, Tallied, Reckoned, AllFounded;
  }

  lemma NothingReported(orders: Orders)
    ensures Reported(Aborted, [], orders)
  {
  }

  /** What the summary says of the passes. */
  ghost predicate Reported(summary: Summary, passes: seq<Pass>, orders: Orders) {
    match summary
    case Aborted => passes != [] ==> passes[|passes| - 1].action == Threw
    case Completed(reason, raised, resumes, killed) =>
      && Concluded(passes, reason)
      && Reckoned(passes, |passes|) == Counters(raised, resumes, killed)
      && (reason == Some(OutOfResumes) ==> resumes >= orders.maxResumes)
  }

  /** The loop. */
  method GoRound(x: WorkerExecutor, first: bool, orders: Orders, ghost start: Trace, ghost o: Origin)
    returns (summary: Summary, passes: seq<Pass>, ghost t: Trace)
    requires Driven(x, [], start, orders, o) && start.first == first
    modifies x, x.runtime
    ensures old(x.runtime.seen) <= x.runtime.seen
    ensures 0 < |passes| <= MAX_ITERATIONS && Driven(x, passes, t, orders, o)
    ensures t.first == first && t.start == start.start && Reported(summary, passes, orders)
  {
    hide Driven, Concluded, Fits, Count, Reckoned;
    var counters, enqueue := Counters(false, 0, false), first;
    passes, t := [], start;
    StartsAtNothing();
    for i := 0 to MAX_ITERATIONS
      invariant |passes| == i && Continues(passes) && counters == Reckoned(passes, i) && enqueue == Next(passes, first)
      invariant Driven(x, passes, t, orders, o) && old(x.runtime.seen) <= x.runtime.seen
      invariant t.first == first && t.start == start.start
      invariant passes != [] ==> Fits(passes[|passes| - 1].result, passes[|passes| - 1].action)
    {
      var p;
      ghost var g, was := *, counters;
      p, g := Turn(x, passes, t, enqueue, counters, orders, o);
      passes := passes + [p];
      t := t.(legs := t.legs + [g]);
      counters := Count(counters, p);
      enqueue := NextEnqueue(p.action);
      if p.action.Threw? { return Aborted, passes, t; }
      if p.action.Ended? {
        ConcludedBy(passes, p.action.reason);
        CountOnly(was, p);
        return Completed(p.action.reason, counters.raised, counters.resumes, counters.killed), passes, t;
      }
    }
    ConcludedBy(passes, Some(IterationBound));
    return Completed(Some(IterationBound), counters.raised, counters.resumes, counters.killed), passes, t;
  }

  lemma StartsAtNothing()
    ensures Reckoned([], 0) == Counters(false, 0, false)
  {
  }

  lemma CountOnly(c: Counters, p: Pass)
    ensures p.action.Ended? ==> Count(c, p).resumes == c.resumes
  {
  }

  /* ---------- What follows for a whole run ---------- */

  lemma {:induction false} GatesFit(approvals: seq<Approval>, gates: set<Gate>)
    requires forall i, j :: 0 <= i < j < |approvals| ==> approvals[i].gate != approvals[j].gate
    requires forall a <- approvals :: a.gate in gates
    ensures |approvals| <= |gates|
  {
    if approvals != [] {
      var a := approvals[0];
      GatesFit(approvals[1..], gates - {a.gate});
    }
  }

  /** However often the loop goes round, it clears at most the seven gates that have a policy, each
      once: a run that keeps pausing at a decided gate is not cleared again. */
  lemma AtMostSevenCleared(
    r: Runtime, passes: seq<Pass>, raised: bool, raiseTo: real, cap: real, approvals: seq<Approval>)
    requires Kept(r, passes, raised, raiseTo, cap, approvals)
    ensures Tally(passes, WAS_CLEARED) <= 7
  {
    var added := r.db.approvals[|approvals|..];
    var gates := {PLAN, UNMAPPED_CONCEPTS, PEER_SET, SECTOR_SPECIALIST, THEME_SET, ASSUMPTIONS, FINAL};
    forall a | a in added ensures a.gate in gates {
      var k :| 0 <= k < |added| && added[k] == a;
      assert r.db.approvals[|approvals| + k] == a;
      assert a.gate != BUDGET && a.gate != THESIS;
    }
    forall i, j | 0 <= i < j < |added| ensures added[i].gate != added[j].gate {
      assert added[i] == r.db.approvals[|approvals| + i] && added[j] == r.db.approvals[|approvals| + j];
    }
    GatesFit(added, gates);
  }

  /** A stale pause costs nothing. Over the pass that met it the driver decided nothing, raised nothing and
      moved no seal: but for the task it may have queued before, every state read is what the worker made
      of the one before. And over the next pass no task is queued. */
  lemma StalePassIsHarmless(w: Setting, o: Orders, passes: seq<Pass>, t: Trace, states: seq<Db>, i: nat)
    requires Lawful(w.schedule) && Traced(w, o, passes, t, states) && Chained(passes, t.first)
    requires i < |passes| && passes[i].action == GateNotWaiting
    ensures var g := t.legs[i];
            && Stale(w.schedule, g.before.db, states[..g.after.at], g.before.at, g.after.at, passes[i].enqueue, g.after.db)
            && g.after.db.approvals == g.before.db.approvals && g.after.db.cap == g.before.db.cap
    ensures i + 1 < |passes| ==> t.legs[i + 1].after.told == t.legs[i].after.told
  {
    hide Stale, Fits, LegOf;
    var g := t.legs[i];
    LegSays(w, o, passes[i], g, states);
    StaleKeeps(w.schedule, g.before.db, states[..g.after.at], g.before.at, g.after.at, passes[i].enqueue, g.after.db);
    if i + 1 < |passes| { LegSays(w, o, passes[i + 1], t.legs[i + 1], states); }
  }

  lemma LegSays(w: Setting, o: Orders, p: Pass, g: Leg, states: seq<Db>)
    requires LegOf(w, o, p, g, states)
    ensures g.after.at <= |states| && g.after.told == g.before.told + if p.enqueue then 1 else 0
    ensures p.action == GateNotWaiting ==>
      Stale(w.schedule, g.before.db, states[..g.after.at], g.before.at, g.after.at, p.enqueue, g.after.db)
  {
    hide Stale, Sound, Answers;
  }

  lemma StaleKeeps(
    schedule: (nat, Db) -> Db, before: Db, states: seq<Db>, start: nat, end: nat, enqueue: bool, after: Db)
    requires Lawful(schedule) && Stale(schedule, before, states, start, end, enqueue, after)
    ensures after.approvals == before.approvals && after.cap == before.cap
  {
    assert Moves(before, states[start]);
    LeftAloneKeeps(schedule, if enqueue then Told(states[start]) else states[start], states, start + 1, end);
  }

  /** Resumes pass their bound, by one, exactly when the run was resumed as often as allowed after failures
      and the drill too had to resume it. */
  lemma ResumesPassTheBoundExactly(passes: seq<Pass>, c: Counters, maxResumes: nat)
    requires Counted(passes, c.raised, c.resumes, c.killed, maxResumes)
    ensures c.resumes > maxResumes <==> Tally(passes, WAS_RESUMED) == maxResumes && Tally(passes, UNMOVED_DRILL) == 1
    ensures c.resumes <= maxResumes + 1
  {
  }

  /** The passes so far with one more; `Tallied` over what the table and the counters admit next. */
  lemma OneMoreTallied(passes: seq<Pass>, p: Pass, more: seq<Pass>, c: Counters, d: Counters, killAt: string)
    requires Tallied(passes, true, c, 1, Some(killAt)) && Continues(passes)
    requires more == passes + [p] && d == Count(c, p)
    requires p.enqueue == Next(passes, true) && Fits(p.result, p.action)
    requires p.action != CapRaised && (Killed(p.result) ==> !c.killed) && (p.action == Resumed ==> c.resumes == 0)
    ensures Tallied(more, true, d, 1, Some(killAt))
  {
    hide Tallied, Fits, Killed;
    TalliedAfter(passes, p, true, c, 1, Some(killAt));
  }

  lemma ResumedThenDrilled(a: Pass, b: Pass, c: Pass, killAt: string)
    requires a.enqueue && a.action == Resumed && Fits(a.result, a.action) && !Killed(a.result)
    requires b.enqueue && b.action == Drilled(false, true) && Fits(b.result, b.action) && Killed(b.result)
    requires c.enqueue && c.action == Ended(None) && Fits(c.result, c.action) && !Killed(c.result)
    ensures Tallied([a, b, c], true, Counters(false, 2, true), 1, Some(killAt))
  {
    assert Tallied([], true, Counters(false, 0, false), 1, Some(killAt));
    hide Tallied, Fits, Killed;
    OneMoreTallied([], a, [a], Counters(false, 0, false), Counters(false, 1, false), killAt);
    OneMoreTallied([a], b, [a, b], Counters(false, 1, false), Counters(false, 2, true), killAt);
    OneMoreTallied([a, b], c, [a, b, c], Counters(false, 2, true), Counters(false, 2, true), killAt);
  }

  /** Such a run: it fails and is resumed once, the drill kills its worker and finds it where it was. */
  lemma ResumesPassTheBoundExample()
    ensures var passes := [Pass(true, Advanced(FAILED, None, false, []), Resumed),
                           Pass(true, Advanced(RUNNING, Some("draft"), false, []), Drilled(false, true)),
                           Pass(true, Advanced(SUCCEEDED, None, false, []), Ended(None))];
            && Tallied(passes, true, Counters(false, 2, true), 1, Some("draft"))
            && Concluded(passes, None)
  {
    var a, b, c := Pass(true, Advanced(FAILED, None, false, []), Resumed),
                   Pass(true, Advanced(RUNNING, Some("draft"), false, []), Drilled(false, true)),
                   Pass(true, Advanced(SUCCEEDED, None, false, []), Ended(None));
    hide Tallied;
    ResumedThenDrilled(a, b, c, "draft");
  }
}
