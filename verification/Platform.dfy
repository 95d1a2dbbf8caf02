/** The run the driver and the worker share: the job, its steps, its approvals, the queue, the
    worker's health record and the clock.

    The worker is whatever process `schedule` describes: it may move the run between any two reads
    of the driver, and is held only to what `Moves` says. */
module Platform {
  import opened Options
  import opened Policy

  datatype JobStatus =
    | QUEUED | RUNNING | PAUSED | AWAITING_APPROVAL | SUCCEEDED | FAILED | CANCELLED | BUDGET_EXCEEDED

  type Hash = nat

  /** What a paused step recorded about its pause. */
  datatype Pause = Pause(gate: Option<Gate>, live: Option<Hash>, approved: Option<Hash>)
  datatype Step = Step(key: string, attempt: nat, status: JobStatus, pause: Pause)
  datatype Decision = Approved | Rejected | Revised
  datatype Approval = Approval(gate: Gate, decision: Decision, digest: Hash)
  datatype Assumption = Assumption(row: GateRow, approved: bool)

  /** One committed state. `steps` is in workflow order. `seals` holds the hash each gate's own step
      recorded; `runningFor` is the age of the running step by its own record; `queue` counts the
      tasks the worker has not taken, `busy` says whether one is being executed. `facts` stands for
      everything else a gate's display is built from. */
  datatype Db = Db(
    status: JobStatus,
    steps: seq<Step>,
    approvals: seq<Approval>,
    assumptions: seq<Assumption>,
    seals: map<Gate, Hash>,
    factsChosen: int,
    failedMetrics: seq<string>,
    cap: real,
    budgetScope: Option<string>,
    runningFor: nat,
    queue: nat,
    busy: bool,
    facts: nat)

  /* ---------- What the worker may do ---------- */

  /** Nobody but the driver is going to move this run. */
  predicate Idle(d: Db) { d.queue == 0 && !d.busy }

  /** Other processes never write an approval or raise a cap, and leave an idle run alone. */
  predicate Moves(d: Db, d': Db) {
    && d'.approvals == d.approvals
    && d'.cap == d.cap
    && (Idle(d) ==> d' == d)
  }

  ghost predicate Lawful(schedule: (nat, Db) -> Db) {
    forall n, d :: Moves(d, schedule(n, d))
  }

  /* ---------- Histories of reads ---------- */

  function Last(states: seq<Db>): Db
    requires states != []
  {
    states[|states| - 1]
  }

  /** The state the record is in when nobody but the worker has written since `base`. */
  function StateAt(base: Db, states: seq<Db>, first: nat, end: nat): Db
    requires end <= |states|
  {
    if end <= first then base else states[end - 1]
  }

  /** Of the states read from index `first` up to `end`, each is what the worker made of the one before,
      and the first what it made of `base`: the driver wrote nothing in between. */
  ghost predicate LeftAlone(schedule: (nat, Db) -> Db, base: Db, states: seq<Db>, first: nat, end: nat) {
    first <= end <= |states| && forall i :: first <= i < end ==> states[i] == schedule(i, StateAt(base, states, first, i))
  }

  lemma LeftAloneOn(schedule: (nat, Db) -> Db, base: Db, states: seq<Db>, more: seq<Db>, first: nat)
    requires LeftAlone(schedule, base, states, first, |states|) && states <= more
    requires LeftAlone(schedule, StateAt(base, states, first, |states|), more, |states|, |more|)
    ensures LeftAlone(schedule, base, more, first, |more|)
    ensures StateAt(base, more, first, |more|) == StateAt(StateAt(base, states, first, |states|), more, |states|, |more|)
  {
    forall i | first <= i < |more| ensures more[i] == schedule(i, StateAt(base, more, first, i)) {
      if i < |states| { assert more[i] == states[i]; }
    }
  }

  /** A worker left alone decides nothing and raises nothing. */
  lemma {:induction false} LeftAloneKeeps(schedule: (nat, Db) -> Db, base: Db, states: seq<Db>, first: nat, end: nat)
    requires Lawful(schedule) && LeftAlone(schedule, base, states, first, end)
    ensures var d := StateAt(base, states, first, end); d.approvals == base.approvals && d.cap == base.cap
    decreases end
  {
    if first < end {
      LeftAloneKeeps(schedule, base, states, first, end - 1);
      assert Moves(StateAt(base, states, first, end - 1), states[end - 1]);
    }
  }

  /** One task more on the queue. */
  function Told(d: Db): Db { d.(queue := d.queue + 1) }

  /* ---------- Reads of one state ---------- */

  datatype Fingerprint = Fingerprint(status: JobStatus, steps: seq<(string, nat, JobStatus)>)

  function FingerprintOf(d: Db): Fingerprint {
    Fingerprint(d.status, seq(|d.steps|, i requires 0 <= i < |d.steps| =>
      (d.steps[i].key, d.steps[i].attempt, d.steps[i].status)))
  }

  /** The latest step, in workflow order, that has the status. */
  function LastWith(steps: seq<Step>, status: JobStatus): (r: Option<Step>)
    ensures r.Some? ==> r.value in steps && r.value.status == status
    ensures r.None? <==> forall s <- steps :: s.status != status
  {
    if steps == [] then None
    else
      var last := steps[|steps| - 1];
      assert steps == steps[..|steps| - 1] + [last];
      if last.status == status then Some(last) else LastWith(steps[..|steps| - 1], status)
  }

  function PausedStep(d: Db): (r: Option<Step>)
    ensures r.Some? ==> r.value in d.steps && r.value.status == AWAITING_APPROVAL
    ensures r.None? <==> forall s <- d.steps :: s.status != AWAITING_APPROVAL
  {
    LastWith(d.steps, AWAITING_APPROVAL)
  }

  function CurrentStep(d: Db): (r: Option<Step>)
    ensures r.Some? ==> r.value in d.steps && r.value.status == RUNNING
    ensures r.None? <==> forall s <- d.steps :: s.status != RUNNING
  {
    LastWith(d.steps, RUNNING)
  }

  ghost predicate LatestWith(steps: seq<Step>, status: JobStatus, i: int) {
    0 <= i < |steps| && steps[i].status == status && forall j :: i < j < |steps| ==> steps[j].status != status
  }

  /** The paused and the current step are the latest of their status in workflow order. */
  lemma LatestSteps(d: Db, i: int)
    ensures LatestWith(d.steps, AWAITING_APPROVAL, i) ==> PausedStep(d) == Some(d.steps[i])
    ensures LatestWith(d.steps, RUNNING, i) ==> CurrentStep(d) == Some(d.steps[i])
  {
    if LatestWith(d.steps, AWAITING_APPROVAL, i) { LatestIsLast(d.steps, AWAITING_APPROVAL, i); }
    if LatestWith(d.steps, RUNNING, i) { LatestIsLast(d.steps, RUNNING, i); }
  }

  lemma {:induction false} LatestIsLast(steps: seq<Step>, status: JobStatus, i: int)
    requires LatestWith(steps, status, i)
    ensures LastWith(steps, status) == Some(steps[i])
  {
    var n := |steps| - 1;
    if i < n {
      assert LatestWith(steps[..n], status, i);
      LatestIsLast(steps[..n], status, i);
    }
  }

  /** The fingerprint of a run changes exactly with its status, with its number of steps, and with the key,
      the attempt or the status of one of them. */
  lemma SameFingerprintExactly(a: Db, b: Db)
    ensures FingerprintOf(a) == FingerprintOf(b) <==>
      && a.status == b.status && |a.steps| == |b.steps|
      && forall i :: 0 <= i < |a.steps| ==>
           a.steps[i].key == b.steps[i].key && a.steps[i].attempt == b.steps[i].attempt && a.steps[i].status == b.steps[i].status
  {
    var x, y := FingerprintOf(a), FingerprintOf(b);
    if x == y {
      forall i | 0 <= i < |a.steps|
        ensures a.steps[i].key == b.steps[i].key && a.steps[i].attempt == b.steps[i].attempt && a.steps[i].status == b.steps[i].status
      {
        assert x.steps[i] == y.steps[i];
      }
    }
  }

  predicate Decided(d: Db, gate: Gate) {
    exists a <- d.approvals :: a.gate == gate
  }

  /** At most one decision per gate. */
  ghost predicate OnePerGate(approvals: seq<Approval>) {
    forall i, j :: 0 <= i < j < |approvals| ==> approvals[i].gate != approvals[j].gate
  }

  /* ---------- The shared state as the driver touches it ---------- */

  /** How a gate's display is built, hashed and decided on. A verdict reads the display of one state
      and the counts of another, since the two come from different queries. */
  datatype Rules = Rules(
    build: (Db, Gate) -> Payload, hash: Payload -> Hash, decide: (Gate, Db, Db) -> Verdict)
  {
    /** A refusal gives its reason, an approval gives none, and no policy covers these two gates. */
    ghost predicate Coherent() {
      forall gate, shown, d ::
        && (decide(gate, shown, d).approve <==> decide(gate, shown, d).stopReason.None?)
        && (decide(gate, shown, d).approve ==> gate != BUDGET && gate != THESIS)
    }

    function Digest(d: Db, gate: Gate): Hash { hash(build(d, gate)) }
  }

  class Runtime {
    const schedule: (nat, Db) -> Db
    const lag: nat -> real
    const pulse: nat -> Option<nat>
    const rules: Rules
    var db: Db
    var now: real
    var queries: nat
    var beats: nat
    /** Every state the driver has read, oldest first. */
    ghost var seen: seq<Db>
    /** How many tasks the driver has put on the queue. */
    ghost var told: nat

    constructor (schedule: (nat, Db) -> Db, lag: nat -> real, pulse: nat -> Option<nat>, rules: Rules, db: Db)
      requires Lawful(schedule) && rules.Coherent() && (forall n :: lag(n) >= 0.0)
      ensures Valid() && this.db == db && seen == [] && told == 0 && this.rules == rules
    {
      this.schedule, this.lag, this.pulse, this.rules, this.db := schedule, lag, pulse, rules, db;
      now, queries, beats, seen, told := 0.0, 0, 0, [], 0;
    }

    ghost predicate Valid()
      reads this
    {
      && Lawful(schedule)
      && rules.Coherent()
      && (forall n :: lag(n) >= 0.0)
      && queries == |seen|
    }

    /** Since the record was `base`, with `first` states read, only the worker has written. */
    ghost predicate Untouched(base: Db, first: nat)
      reads this
    {
      LeftAlone(schedule, base, seen, first, |seen|) && db == StateAt(base, seen, first, |seen|)
    }

    /** One query: whatever the worker committed in the meantime is what it sees. */
    method Observe() returns (d: Db)
      requires Valid()
      modifies this`db, this`now, this`queries, this`seen
      ensures Valid()
      ensures d == db == schedule(old(queries), old(db)) && Moves(old(db), db)
      ensures seen == old(seen) + [d] && Untouched(old(db), |old(seen)|)
      ensures now == old(now) + lag(old(queries)) >= old(now)
    {
      db := schedule(queries, db);
      now := now + lag(queries);
      queries, seen := queries + 1, seen + [db];
      d := db;
    }

    /** The worker's health record: `None` when no worker has reported, else its jobs in flight. */
    method Health() returns (ongoing: Option<nat>)
      requires Valid()
      modifies this`beats
      ensures Valid() && beats == old(beats) + 1 && ongoing == pulse(old(beats))
    {
      ongoing := pulse(beats);
      beats := beats + 1;
    }

    method Sleep(seconds: real)
      requires Valid() && seconds >= 0.0
      modifies this`now
      ensures Valid() && now == old(now) + seconds
    {
      now := now + seconds;
    }

    method Enqueue()
      requires Valid()
      modifies this`db, this`told
      ensures Valid() && told == old(told) + 1
      ensures db == Told(old(db)) == old(db).(queue := old(db.queue) + 1)
    {
      db := Told(db);
      told := told + 1;
    }
  }
}
