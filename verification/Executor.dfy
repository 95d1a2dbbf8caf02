/** Moving a run through the worker process: start, stop, and one advance. */
module Executor {
  import opened Options
  import opened Platform

  const POLL_SECONDS := 5.0
  const RUN_TIMEOUT_SECONDS := 10800.0
  const WORKER_START_SECONDS := 120.0
  const WORKER_SILENCE_SECONDS := 100.0
  const PICKUP_SECONDS := 180.0

  datatype Attempt = Attempt(key: string, attempt: nat)
  datatype Entry = Entry(of: Attempt, status: JobStatus)

  /** `TimedOut` is the exception raised when the run never stopped. */
  datatype Result =
    | Advanced(status: JobStatus, killedAt: Option<string>, workerDead: bool, timeline: seq<Entry>)
    | TimedOut

  /* ---------- The timeline ---------- */

  function EntryOf(step: Step): Entry { Entry(Attempt(step.key, step.attempt), step.status) }

  function Entries(steps: seq<Step>): (r: seq<Entry>)
    ensures |r| == |steps| && forall i :: 0 <= i < |r| ==> r[i] == EntryOf(steps[i])
  {
    seq(|steps|, i requires 0 <= i < |steps| => EntryOf(steps[i]))
  }

  /** The statuses of one attempt, in the order they were observed. */
  function StatusesOf(entries: seq<Entry>, of: Attempt): seq<JobStatus> {
    if entries == [] then []
    else
      var n := |entries| - 1;
      if entries[n].of == of then StatusesOf(entries[..n], of) + [entries[n].status]
      else StatusesOf(entries[..n], of)
  }

  /** A sequence with its immediate repetitions removed. */
  function Destutter<T(==)>(s: seq<T>): (r: seq<T>)
    ensures s == [] <==> r == []
    ensures s != [] ==> r[|r| - 1] == s[|s| - 1]
  {
    if |s| <= 1 then s
    else
      var r := Destutter(s[..|s| - 1]);
      if s[|s| - 1] == s[|s| - 2] then r else r + [s[|s| - 1]]
  }

  /** What `last_seen` and `timeline` hold after a list of observations. */
  ghost predicate Tracks(lastSeen: map<Attempt, JobStatus>, timeline: seq<Entry>, observed: seq<Entry>) {
    forall of :: TracksOne(lastSeen, timeline, observed, of)
  }

  ghost predicate TracksOne(
    lastSeen: map<Attempt, JobStatus>, timeline: seq<Entry>, observed: seq<Entry>, of: Attempt)
  {
    var statuses := StatusesOf(observed, of);
    && StatusesOf(timeline, of) == Destutter(statuses)
    && (of in lastSeen <==> statuses != [])
    && (of in lastSeen ==> lastSeen[of] == statuses[|statuses| - 1])
  }

  lemma TrackOne(
    lastSeen: map<Attempt, JobStatus>, timeline: seq<Entry>, observed: seq<Entry>, entry: Entry)
    requires Tracks(lastSeen, timeline, observed)
    ensures if entry.of in lastSeen && lastSeen[entry.of] == entry.status
            then Tracks(lastSeen, timeline, observed + [entry])
            else Tracks(lastSeen[entry.of := entry.status], timeline + [entry], observed + [entry])
  {
    hide TracksOne;
    var repeated := entry.of in lastSeen && lastSeen[entry.of] == entry.status;
    var last' := if repeated then lastSeen else lastSeen[entry.of := entry.status];
    var line' := if repeated then timeline else timeline + [entry];
    forall of ensures TracksOne(last', line', observed + [entry], of) {
      assert TracksOne(lastSeen, timeline, observed, of);
      TrackOneOf(lastSeen, timeline, observed, entry, of);
    }
  }

  lemma TrackOneOf(
    lastSeen: map<Attempt, JobStatus>, timeline: seq<Entry>, observed: seq<Entry>, entry: Entry, of: Attempt)
    requires TracksOne(lastSeen, timeline, observed, of)
    ensures var repeated := entry.of in lastSeen && lastSeen[entry.of] == entry.status;
            TracksOne(if repeated then lastSeen else lastSeen[entry.of := entry.status],
                      if repeated then timeline else timeline + [entry], observed + [entry], of)
  {
    hide StatusesOf, Destutter;
    StatusesSnoc(observed, entry, of);
    StatusesSnoc(timeline, entry, of);
    if entry.of == of { DestutterSnoc(StatusesOf(observed, of), entry.status); }
  }

  lemma DestutterSnoc<T>(s: seq<T>, x: T)
    ensures Destutter(s + [x]) == if s != [] && s[|s| - 1] == x then Destutter(s) else Destutter(s) + [x]
  {
    assert (s + [x])[..|s|] == s;
  }

  lemma StatusesSnoc(entries: seq<Entry>, e: Entry, of: Attempt)
    ensures StatusesOf(entries + [e], of)
         == if e.of == of then StatusesOf(entries, of) + [e.status] else StatusesOf(entries, of)
  {
    assert (entries + [e])[..|entries|] == entries;
  }

  /* ---------- What an advance saw ---------- */

  datatype Seen = Seen(d: Db, at: real)
  datatype Beat = Beat(at: real, missing: bool)

  /** One round of the polling loop, as far as it went: the state polled, the state whose fingerprint was
      compared, the reading of the worker's health. */
  datatype Round = Round(polled: Seen, compared: Option<Seen>, beat: Option<Beat>)

  /** One advance: when its polling began, and its rounds. */
  datatype Account = Account(started: real, rounds: seq<Round>)

  /** What an advance was asked: `before` is the fingerprint from before the enqueue. */
  datatype Terms = Terms(enqueue: bool, before: Fingerprint, killAt: Option<string>, killAfter: real)

  function LastOf(rounds: seq<Round>): Round
    requires rounds != []
  {
    rounds[|rounds| - 1]
  }

  function ReadsIn(r: Round): seq<Db> { [r.polled.d] + if r.compared.Some? then [r.compared.value.d] else [] }

  /** Every state read, in the order of the queries. */
  function ReadsOf(rounds: seq<Round>): seq<Db> {
    if rounds == [] then [] else ReadsOf(rounds[..|rounds| - 1]) + ReadsIn(LastOf(rounds))
  }

  function AllEntries(rounds: seq<Round>): seq<Entry> {
    if rounds == [] then [] else AllEntries(rounds[..|rounds| - 1]) + Entries(LastOf(rounds).polled.d.steps)
  }

  ghost predicate TimelineOf(timeline: seq<Entry>, rounds: seq<Round>) {
    forall of :: StatusesOf(timeline, of) == Destutter(StatusesOf(AllEntries(rounds), of))
  }

  ghost predicate RunningAt(rounds: seq<Round>, of: Attempt, i: int) {
    0 <= i < |rounds| && Entry(of, RUNNING) in Entries(rounds[i].polled.d.steps)
  }

  ghost predicate SeenRunning(rounds: seq<Round>, of: Attempt, at: real) {
    exists i :: RunningAt(rounds, of, i) && rounds[i].polled.at == at
  }

  /* ---------- What ends an advance ---------- */

  /** The drill is due: the step to kill at is the current one, and was first seen running that long ago. */
  ghost predicate KillDue(rounds: seq<Round>, t: Terms) {
    && rounds != [] && t.killAt.Some?
    && var current := CurrentStep(LastOf(rounds).polled.d);
       && current.Some? && current.value.key == t.killAt.value
       && exists at ::
            && SeenRunning(rounds, Attempt(current.value.key, current.value.attempt), at)
            && LastOf(rounds).polled.at - at >= t.killAfter
  }

  /** The worker was not told, or the run was seen to have moved since. */
  ghost predicate Taken(rounds: seq<Round>, t: Terms) {
    !t.enqueue || exists i :: 0 <= i < |rounds| && MovedAt(rounds[i], t)
  }

  ghost predicate MovedAt(r: Round, t: Terms) {
    r.compared.Some? && FingerprintOf(r.compared.value.d) != t.before
  }

  /** Nobody took the job for longer than a pickup may take. */
  ghost predicate Overdue(a: Account, t: Terms) {
    && a.rounds != [] && !Taken(a.rounds, t)
    && var compared := LastOf(a.rounds).compared;
       compared.Some? && compared.value.at - a.started > PICKUP_SECONDS
  }

  /** The job was taken and now stands still. */
  ghost predicate AtRest(rounds: seq<Round>, t: Terms) {
    && rounds != [] && Taken(rounds, t)
    && LastOf(rounds).polled.d.status != QUEUED && LastOf(rounds).polled.d.status != RUNNING
  }

  /** From the `m`-th round on, every reading of the health record found it missing. */
  ghost predicate MissingFrom(rounds: seq<Round>, m: int) {
    0 <= m < |rounds| && forall i :: m <= i < |rounds| ==> MissingAt(rounds[i])
  }

  ghost predicate MissingAt(r: Round) { r.beat.Some? && r.beat.value.missing }

  /** The health record went missing and stayed missing for longer than a dead worker's silence. */
  ghost predicate Silent(rounds: seq<Round>) {
    exists m :: MissingFrom(rounds, m)
      && LastOf(rounds).beat.value.at - rounds[m].beat.value.at > WORKER_SILENCE_SECONDS
  }

  /** The last round compared fingerprints exactly if the job had not been seen taken before. */
  ghost predicate Compares(rounds: seq<Round>, t: Terms)
    requires rounds != []
  {
    LastOf(rounds).compared.Some? <==> !Taken(rounds[..|rounds| - 1], t)
  }

  /** After its last round the loop had nothing to end for. */
  ghost predicate WentOn(a: Account, t: Terms) {
    && a.rounds != [] && LastOf(a.rounds).beat.Some? && Compares(a.rounds, t)
    && !KillDue(a.rounds, t) && !Overdue(a, t) && !AtRest(a.rounds, t) && !Silent(a.rounds)
  }

  function Past(a: Account, n: nat): Account
    requires n <= |a.rounds|
  {
    Account(a.started, a.rounds[..n])
  }

  /** Neither had it after any round before. */
  ghost predicate AllWentOn(a: Account, t: Terms) { forall n :: 0 < n <= |a.rounds| ==> WentOn(Past(a, n), t) }

  /** When the next round begins. */
  function Wake(a: Account): real {
    if a.rounds == [] || LastOf(a.rounds).beat.None? then a.started
    else LastOf(a.rounds).beat.value.at + POLL_SECONDS
  }

  /** A round begins when the loop wakes, and only while there is time left. */
  ghost predicate Follows(past: Account, r: Round) {
    && Wake(past) - past.started < RUN_TIMEOUT_SECONDS && Wake(past) <= r.polled.at
    && (r.compared.Some? ==> r.polled.at <= r.compared.value.at)
    && (r.beat.Some? ==> r.polled.at <= r.beat.value.at)
  }

  ghost predicate Paced(a: Account) {
    forall n :: 0 <= n < |a.rounds| ==> Follows(Past(a, n), a.rounds[n])
  }

  /** What the result of an advance means: it is the answer to the first thing that could end it. */
  ghost predicate Sound(result: Result, a: Account, t: Terms) {
    && a.rounds != [] && Paced(a) && AllWentOn(Past(a, |a.rounds| - 1), t)
    && match result
       case TimedOut => WentOn(a, t) && Wake(a) - a.started >= RUN_TIMEOUT_SECONDS
       case Advanced(status, killedAt, workerDead, timeline) =>
         // The timeline: per attempt, the observed statuses without their repetitions.
         TimelineOf(timeline, a.rounds) && EndedBy(status, killedAt, workerDead, a, t)
  }

  ghost predicate EndedBy(status: JobStatus, killedAt: Option<string>, workerDead: bool, a: Account, t: Terms)
    requires a.rounds != []
  {
    if KillDue(a.rounds, t) then killedAt == t.killAt && status == RUNNING && !workerDead
    else
      && killedAt.None? && status == LastOf(a.rounds).polled.d.status && Compares(a.rounds, t)
      && if Overdue(a, t) then workerDead
         else if AtRest(a.rounds, t) then !workerDead
         else workerDead && Silent(a.rounds)
  }

  /* ---------- What the polling loop carries ---------- */

  datatype Watch = Watch(
    lastSeen: map<Attempt, JobStatus>, timeline: seq<Entry>, runningSince: map<Attempt, real>)

  ghost predicate Watched(w: Watch, rounds: seq<Round>) {
    && Tracks(w.lastSeen, w.timeline, AllEntries(rounds))
    && Held(w) && FirstRunning(w, rounds)
  }

  /** Whatever was last seen running has its moment kept. */
  ghost predicate Held(w: Watch) {
    forall of <- w.lastSeen :: w.lastSeen[of] == RUNNING ==> of in w.runningSince
  }

  /** `running_since` is the first moment an attempt was seen running. */
  ghost predicate FirstRunning(w: Watch, rounds: seq<Round>) {
    && (forall of <- w.runningSince :: SeenRunning(rounds, of, w.runningSince[of]))
    && forall of, at :: SeenRunning(rounds, of, at) ==> of in w.runningSince && w.runningSince[of] <= at
  }

  ghost predicate Timely(rounds: seq<Round>, now: real) { forall r <- rounds :: r.polled.at <= now }

  /** `silent_since` is when the unbroken run of missing health records began, if there is one. */
  ghost predicate SilentSince(rounds: seq<Round>, since: Option<real>, now: real) {
    match since
    case None => rounds == [] || !MissingAt(LastOf(rounds))
    case Some(at) => at <= now && exists m :: SilenceBegins(rounds, m, at)
  }

  ghost predicate SilenceBegins(rounds: seq<Round>, m: int, at: real) {
    && MissingFrom(rounds, m) && (m == 0 || !MissingAt(rounds[m - 1])) && rounds[m].beat.value.at == at
    && forall i :: m <= i < |rounds| ==> at <= rounds[i].beat.value.at
  }

  /** A start that fails found the process dead, or waited as long as a start may take. */
  predicate StartFailed(living: nat -> bool, looks: nat, waited: real) {
    (looks > 0 && !living(looks - 1)) || waited >= WORKER_START_SECONDS
  }

  /** What holds whenever the loop goes round. */
  ghost predicate Ongoing(
    a: Account, t: Terms, w: Watch, taken: bool, silentSince: Option<real>, now: real)
  {
    && AllWentOn(a, t) && Paced(a) && now == Wake(a) >= a.started
    && Watched(w, a.rounds) && Timely(a.rounds, now)
    && taken == Taken(a.rounds, t) && SilentSince(a.rounds, silentSince, now)
  }

  /* ---------- The executor ---------- */

  class WorkerExecutor {
    const runtime: Runtime
    /** Whether the n-th look at the child process finds it running. */
    const living: nat -> bool
    var launched: bool
    var looks: nat

    constructor (runtime: Runtime, living: nat -> bool)
      ensures this.runtime == runtime && !launched
    {
      this.runtime, this.living := runtime, living;
      launched, looks := false, 0;
    }

    method Alive() returns (alive: bool)
      modifies this`looks
      ensures looks == old(looks) + 1 && alive == (launched && living(old(looks)))
    {
      alive := launched && living(looks);
      looks := looks + 1;
    }

    /** Launches the process and waits for a health record. False is the exception: the process
        exited, or said nothing for `WORKER_START_SECONDS`. */
    method Start() returns (ok: bool)
      requires runtime.Valid()
      modifies this, runtime`now, runtime`beats
      ensures runtime.Valid() && runtime.now >= old(runtime.now)
      ensures launched && looks > old(looks)
      // A worker that still lives is left alone.
      ensures old(launched) && living(old(looks)) ==>
        ok && looks == old(looks) + 1 && runtime.now == old(runtime.now) && runtime.beats == old(runtime.beats)
      // A new one was waited for, a second at a time, until it reported its health. A failure is a
      // process found dead, or a silence as long as the start may take.
      ensures !(old(launched) && living(old(looks))) ==>
        && old(runtime.beats) + (if ok then 1 else 0) <= runtime.beats
        && var silences := runtime.beats - old(runtime.beats) - if ok then 1 else 0;
        && (forall i :: old(runtime.beats) <= i < old(runtime.beats) + silences ==> runtime.pulse(i).None?)
        && runtime.now == old(runtime.now) + silences as real
        && (ok ==> runtime.pulse(runtime.beats - 1).Some?)
      ensures !ok ==> StartFailed(living, looks, runtime.now - old(runtime.now))
    {
      var alive := Alive();
      if alive { return true; }
      launched := true;
      var started := runtime.now;
      ghost var silences := 0;
      while runtime.now - started < WORKER_START_SECONDS
        invariant runtime.Valid() && launched && looks > old(looks)
        invariant runtime.beats == old(runtime.beats) + silences && runtime.now == started + silences as real
        invariant forall i :: old(runtime.beats) <= i < runtime.beats ==> runtime.pulse(i).None?
        decreases WORKER_START_SECONDS - (runtime.now - started)
      {
        alive := Alive();
        if !alive { return false; }
        var ongoing := runtime.Health();
        if ongoing.Some? { return true; }
        runtime.Sleep(1.0);
        silences := silences + 1;
      }
      return false;
    }

    method Stop()
      modifies this`launched
      ensures !launched
    {
      launched := false;
    }

    /** Folds one poll's steps into the watch. */
    method Follow(steps: seq<Step>, w: Watch, ghost observed: seq<Entry>) returns (w': Watch)
      requires Tracks(w.lastSeen, w.timeline, observed) && Held(w)
      ensures Tracks(w'.lastSeen, w'.timeline, observed + Entries(steps)) && Held(w')
      ensures forall of <- w.runningSince :: of in w'.runningSince && w'.runningSince[of] == w.runningSince[of]
      ensures forall of :: Entry(of, RUNNING) in Entries(steps) ==> of in w'.runningSince
      ensures forall of <- w'.runningSince ::
        || (of in w.runningSince && w'.runningSince[of] == w.runningSince[of])
        || (w'.runningSince[of] == runtime.now && Entry(of, RUNNING) in Entries(steps))
    {
      w' := w;
      ghost var all := Entries(steps);
      assert observed + all[..0] == observed;
      for i := 0 to |steps|
        invariant Tracks(w'.lastSeen, w'.timeline, observed + all[..i]) && Held(w')
        invariant forall of <- w.runningSince :: of in w'.runningSince && w'.runningSince[of] == w.runningSince[of]
        invariant forall of :: Entry(of, RUNNING) in all[..i] ==> of in w'.runningSince
        invariant forall of <- w'.runningSince ::
          || (of in w.runningSince && w'.runningSince[of] == w.runningSince[of])
          || (w'.runningSince[of] == runtime.now && Entry(of, RUNNING) in all)
      {
        var entry := EntryOf(steps[i]);
        TrackOne(w'.lastSeen, w'.timeline, observed + all[..i], entry);
        assert observed + all[..i + 1] == observed + all[..i] + [entry];
        if !(entry.of in w'.lastSeen && w'.lastSeen[entry.of] == entry.status) {
          w' := w'.(lastSeen := w'.lastSeen[entry.of := entry.status], timeline := w'.timeline + [entry]);
          if entry.status == RUNNING && entry.of !in w'.runningSince {
            assert all[i] == entry;
            w' := w'.(runningSince := w'.runningSince[entry.of := runtime.now]);
          }
        }
      }
      assert all[..|steps|] == all;
    }

    /** One poll of the run's state: a round begins. */
    method Look(w: Watch, ghost rounds: seq<Round>) returns (d: Db, w': Watch, ghost r: Round)
      requires runtime.Valid() && Watched(w, rounds) && Timely(rounds, runtime.now)
      modifies runtime
      ensures runtime.told == old(runtime.told)
      ensures runtime.Valid() && runtime.seen == old(runtime.seen) + [d] && runtime.now >= old(runtime.now)
      ensures Moves(old(runtime.db), runtime.db) && runtime.Untouched(old(runtime.db), |old(runtime.seen)|)
      ensures r == Round(Seen(d, runtime.now), None, None)
      ensures Watched(w', rounds + [r]) && Timely(rounds + [r], runtime.now)
    {
      d := runtime.Observe();
      r := Round(Seen(d, runtime.now), None, None);
      assert (rounds + [r])[..|rounds|] == rounds;
      w' := Follow(d.steps, w, AllEntries(rounds));
      StillFirstRunning(w, w', rounds, r);
    }

    /** The second fingerprint of a round: a query of its own. */
    method Compare(ghost r: Round) returns (d: Db, ghost r': Round)
      requires runtime.Valid()
      modifies runtime
      ensures runtime.told == old(runtime.told)
      ensures runtime.Valid() && runtime.seen == old(runtime.seen) + [d] && runtime.now >= old(runtime.now)
      ensures Moves(old(runtime.db), runtime.db) && runtime.Untouched(old(runtime.db), |old(runtime.seen)|)
      ensures r' == r.(compared := Some(Seen(d, runtime.now)))
    {
      d := runtime.Observe();
      r' := r.(compared := Some(Seen(d, runtime.now)));
    }

    /** One reading of the worker's health; says whether it has now been silent for too long. */
    method Listen(silentSince: Option<real>, ghost past: seq<Round>, ghost r: Round)
      returns (silentSince': Option<real>, dead: bool, ghost r': Round)
      requires runtime.Valid() && SilentSince(past, silentSince, runtime.now)
      modifies runtime`beats
      ensures runtime.Valid() && SilentSince(past + [r'], silentSince', runtime.now)
      ensures r' == r.(beat := Some(Beat(runtime.now, runtime.pulse(old(runtime.beats)).None?)))
      ensures dead <==> Silent(past + [r'])
    {
      var ongoing := runtime.Health();
      r' := r.(beat := Some(Beat(runtime.now, ongoing.None?)));
      silentSince', dead := None, false;
      if ongoing.None? {
        silentSince' := if silentSince.Some? then silentSince else Some(runtime.now);
        dead := runtime.now - silentSince'.value > WORKER_SILENCE_SECONDS;
      }
      SilenceGoesOn(past, r', silentSince, runtime.now);
    }

    /** Whether the step to kill at is the current one and has been running for long enough. */
    method RanLongEnough(d: Db, w: Watch, key: string, seconds: real, ghost rounds: seq<Round>, ghost t: Terms)
      returns (ran: bool)
      requires Watched(w, rounds) && Timely(rounds, runtime.now)
      requires rounds != [] && LastOf(rounds).polled == Seen(d, runtime.now)
      requires t.killAt == Some(key) && t.killAfter == seconds
      ensures ran <==> KillDue(rounds, t)
    {
      hide Tracks, Held;
      var current := CurrentStep(d);
      if current.None? || current.value.key != key { return false; }
      var of := Attempt(key, current.value.attempt);
      var since := if of in w.runningSince then w.runningSince[of] else runtime.now;
      CurrentIsRunning(rounds, d, of);
      return runtime.now - since >= seconds;
    }

    /** One round of the polling loop: a result, or what the next round needs. */
    method Poll(
        killAt: Option<string>, killAfter: real, before: Fingerprint, started: real,
        taken: bool, w: Watch, silentSince: Option<real>, ghost a: Account, ghost t: Terms)
      returns (done: Option<Result>, taken': bool, w': Watch, silentSince': Option<real>, ghost r: Round)
      requires runtime.Valid() && runtime.now - started < RUN_TIMEOUT_SECONDS
      requires a.started == started && t.before == before && t.killAt == killAt && t.killAfter == killAfter
      requires Ongoing(a, t, w, taken, silentSince, runtime.now)
      modifies this, runtime
      ensures runtime.told == old(runtime.told) && looks == old(looks)
      ensures runtime.Valid() && runtime.seen == old(runtime.seen) + ReadsIn(r) && runtime.now >= old(runtime.now)
      ensures runtime.db.approvals == old(runtime.db.approvals) && runtime.db.cap == old(runtime.db.cap)
      ensures runtime.Untouched(old(runtime.db), |old(runtime.seen)|)
      ensures done.Some? ==> !done.value.TimedOut? && Sound(done.value, Account(started, a.rounds + [r]), t)
      // Only the drill stops the worker.
      ensures launched == (old(launched) && !(done.Some? && done.value.killedAt.Some?))
      ensures done.None? ==>
        && Ongoing(Account(started, a.rounds + [r]), t, w', taken', silentSince', runtime.now)
        && WentOn(Account(started, a.rounds + [r]), t)
        && runtime.now >= old(runtime.now) + POLL_SECONDS
    {
      hide Watched, TimelineOf, KillDue, Taken, Silent, SilentSince, AllWentOn, Paced, LeftAlone, Timely;
      hide Sound, WentOn, FingerprintOf, AllEntries;
      var d;
      taken', silentSince' := taken, silentSince;
      ghost var states := runtime.seen;
      d, w', r := Look(w, a.rounds);
      TracksTimeline(w', a.rounds + [r]);
      if killAt.Some? {
        var ran := RanLongEnough(d, w', killAt.value, killAfter, a.rounds + [r], t);
        if ran {
          Stop();
          KilledSoundly(a, r, t, w'.timeline);
          done := Some(Advanced(RUNNING, killAt, false, w'.timeline));
          return;
        }
      } else {
        NoDrill(a.rounds + [r], t);
      }
      ghost var looked := r;
      if !taken {
        var again;
        states := runtime.seen;
        again, r := Compare(r);
        LeftAloneOn(runtime.schedule, old(runtime.db), states, runtime.seen, |old(runtime.seen)|);
        taken' := FingerprintOf(again) != before;
      }
      TakenNow(a.rounds, r, t);
      TimelyStill(a.rounds + [looked], looked.polled.at, runtime.now);
      SamePolls(w', a.rounds, looked, r, t);
      if !taken' && runtime.now - started > PICKUP_SECONDS {
        OverdueSoundly(a, r, t, w'.timeline);
        done := Some(Advanced(d.status, None, true, w'.timeline));
        return;
      }
      if taken' && d.status != QUEUED && d.status != RUNNING {
        AtRestSoundly(a, r, t, w'.timeline);
        done := Some(Advanced(d.status, None, false, w'.timeline));
        return;
      }
      done, silentSince', r := Attend(d.status, silentSince, taken', w', a, r, t);
    }

    /** The end of a round in which the run itself gave no reason to stop: the worker's health, and a
        rest. */
    method Attend(
        status: JobStatus, silentSince: Option<real>, taken: bool, w: Watch,
        ghost a: Account, ghost r: Round, ghost t: Terms)
      returns (done: Option<Result>, silentSince': Option<real>, ghost r': Round)
      requires runtime.Valid() && SilentSince(a.rounds, silentSince, Wake(a))
      requires r.beat.None? && Follows(a, r) && r.polled.at <= runtime.now && status == r.polled.d.status
      requires Paced(a) && AllWentOn(a, t) && Wake(a) >= a.started
      requires Watched(w, a.rounds + [r]) && TimelineOf(w.timeline, a.rounds + [r]) && Timely(a.rounds + [r], runtime.now)
      requires taken == Taken(a.rounds + [r], t) && (r.compared.Some? <==> !Taken(a.rounds, t))
      requires (r.compared.Some? ==> r.compared.value.at <= runtime.now)
      requires var b := Account(a.started, a.rounds + [r]);
               !KillDue(b.rounds, t) && !Overdue(b, t) && !AtRest(b.rounds, t)
      modifies runtime`beats, runtime`now
      ensures runtime.Valid() && runtime.now >= old(runtime.now)
      ensures r'.polled == r.polled && r'.compared == r.compared
      ensures done.Some? ==> done.value.Advanced? && done.value.killedAt.None? && Sound(done.value, Account(a.started, a.rounds + [r']), t)
      ensures done.None? ==>
        && Ongoing(Account(a.started, a.rounds + [r']), t, w, taken, silentSince', runtime.now)
        && WentOn(Account(a.started, a.rounds + [r']), t)
        && runtime.now >= old(runtime.now) + POLL_SECONDS
    {
      hide Watched, TimelineOf, KillDue, Taken, Silent, SilentSince, AllWentOn, Paced, Timely, Sound, WentOn;
      var dead;
      SilentStill(a.rounds, silentSince, Wake(a), runtime.now);
      silentSince', dead, r' := Listen(silentSince, a.rounds, r);
      SamePolls(w, a.rounds, r, r', t);
      TakenNow(a.rounds, r', t);
      TakenNow(a.rounds, r, t);
      TimelyStill(a.rounds + [r'], runtime.now, runtime.now + POLL_SECONDS);
      SilentStill(a.rounds + [r'], silentSince', runtime.now, runtime.now + POLL_SECONDS);
      if dead {
        SilentSoundly(a, r', t, w.timeline);
        return Some(Advanced(status, None, true, w.timeline)), silentSince', r';
      }
      GoesOnSoundly(a, r', t);
      runtime.Sleep(POLL_SECONDS);
      done := None;
    }

    /** Enqueues (unless told not to) and polls until the run stops moving. The worker may move the
        run between any two of the queries. */
    method Advance(enqueue: bool, killAt: Option<string>, killAfter: real)
      returns (result: Result, ghost account: Account)
      requires runtime.Valid()
      modifies this, runtime
      // The worker is told once, or not at all.
      ensures runtime.told == old(runtime.told) + if enqueue then 1 else 0
      ensures runtime.Valid() && runtime.now >= old(runtime.now) && looks == old(looks)
      ensures runtime.db.approvals == old(runtime.db.approvals) && runtime.db.cap == old(runtime.db.cap)
      // What was read is one state before the enqueue, and then what the account says.
      ensures old(runtime.seen) < runtime.seen
      ensures runtime.seen == old(runtime.seen) + [runtime.seen[|old(runtime.seen)|]] + ReadsOf(account.rounds)
      ensures account.started == old(runtime.now) + runtime.lag(|old(runtime.seen)|)
      ensures Sound(result, account, Terms(enqueue, FingerprintOf(runtime.seen[|old(runtime.seen)|]), killAt, killAfter))
      // Only the drill stops the worker.
      ensures launched == (old(launched) && !(result.Advanced? && result.killedAt.Some?))
      // After its first query it writes one task, or nothing; the rest is the worker's doing.
      ensures var first := runtime.seen[|old(runtime.seen)|];
              && first == runtime.schedule(|old(runtime.seen)|, old(runtime.db))
              && runtime.Untouched(if enqueue then Told(first) else first, |old(runtime.seen)| + 1)
    {
      hide Sound, FingerprintOf;
      var first := runtime.Observe();
      var before := FingerprintOf(first);
      if enqueue { runtime.Enqueue(); }
      result, account := PollOn(killAt, killAfter, before, !enqueue, Terms(enqueue, before, killAt, killAfter));
    }

    /** The polling loop. */
    method PollOn(killAt: Option<string>, killAfter: real, before: Fingerprint, told: bool, ghost t: Terms)
      returns (result: Result, ghost account: Account)
      requires runtime.Valid() && t == Terms(!told, before, killAt, killAfter)
      modifies this, runtime
      ensures runtime.told == old(runtime.told) && looks == old(looks)
      ensures runtime.Valid() && runtime.now >= old(runtime.now)
      ensures runtime.db.approvals == old(runtime.db.approvals) && runtime.db.cap == old(runtime.db.cap)
      ensures runtime.seen == old(runtime.seen) + ReadsOf(account.rounds) && account.started == old(runtime.now)
      ensures Sound(result, account, t)
      ensures launched == (old(launched) && !(result.Advanced? && result.killedAt.Some?))
      ensures runtime.Untouched(old(runtime.db), |old(runtime.seen)|)
    {
      hide Sound, WentOn, Ongoing, LeftAlone;
      var taken := told;
      var started := runtime.now;
      var w := Watch(map[], [], map[]);
      var silentSince: Option<real> := None;
      account := Account(started, []);
      NothingYet(account, t, w);
      NothingRead(runtime.schedule, runtime.db, runtime.seen);
      while runtime.now - started < RUN_TIMEOUT_SECONDS
        invariant runtime.Valid() && runtime.seen == old(runtime.seen) + ReadsOf(account.rounds)
        invariant runtime.db.approvals == old(runtime.db.approvals) && runtime.db.cap == old(runtime.db.cap)
        invariant runtime.now >= started == account.started
        invariant runtime.told == old(runtime.told) && launched == old(launched) && looks == old(looks)
        invariant Ongoing(account, t, w, taken, silentSince, runtime.now)
        invariant account.rounds == [] || WentOn(account, t)
        invariant runtime.Untouched(old(runtime.db), |old(runtime.seen)|)
        decreases RUN_TIMEOUT_SECONDS - (runtime.now - started)
      {
        var done;
        ghost var states := runtime.seen;
        ghost var r;
        done, taken, w, silentSince, r := Poll(killAt, killAfter, before, started, taken, w, silentSince, account, t);
        LeftAloneOn(runtime.schedule, old(runtime.db), states, runtime.seen, |old(runtime.seen)|);
        ReadsSnoc(account.rounds, r);
        account := Account(started, account.rounds + [r]);
        if done.Some? { return done.value, account; }
      }
      TimedOutSoundly(account, t, w, taken, silentSince, runtime.now);
      return TimedOut, account;
    }
  }

  /* ---------- The rounds, one more at a time ---------- */

  lemma NothingRead(schedule: (nat, Db) -> Db, base: Db, states: seq<Db>)
    ensures LeftAlone(schedule, base, states, |states|, |states|) && base == StateAt(base, states, |states|, |states|)
  {
  }

  lemma ReadsSnoc(rounds: seq<Round>, r: Round)
    ensures ReadsOf(rounds + [r]) == ReadsOf(rounds) + ReadsIn(r)
  {
    assert (rounds + [r])[..|rounds|] == rounds;
  }

  lemma NothingYet(a: Account, t: Terms, w: Watch)
    requires a.rounds == [] && w == Watch(map[], [], map[])
    ensures Ongoing(a, t, w, !t.enqueue, None, a.started)
  {
  }

  lemma TimedOutSoundly(a: Account, t: Terms, w: Watch, taken: bool, silentSince: Option<real>, now: real)
    requires Ongoing(a, t, w, taken, silentSince, now) && now - a.started >= RUN_TIMEOUT_SECONDS
    requires a.rounds == [] || WentOn(a, t)
    ensures Sound(TimedOut, a, t)
  {
    hide Watched, SilentSince, WentOn, Paced, Timely;
    var n := |a.rounds| - 1;
    forall k | 0 < k <= n ensures WentOn(Past(Past(a, n), k), t) {
      assert Past(Past(a, n), k) == Past(a, k);
    }
  }

  /** One round more: the rounds before it stay what they were. */
  lemma OneMoreRound(a: Account, r: Round, t: Terms)
    requires Paced(a) && AllWentOn(a, t) && Follows(a, r)
    ensures var b := Account(a.started, a.rounds + [r]);
            && Paced(b) && Past(b, |a.rounds|) == a && b.rounds[..|a.rounds|] == a.rounds
            && (WentOn(b, t) ==> AllWentOn(b, t))
  {
    hide WentOn, Follows;
    var b := Account(a.started, a.rounds + [r]);
    assert b.rounds[..|a.rounds|] == a.rounds && b.rounds[..|b.rounds|] == b.rounds;
    forall n | 0 <= n < |b.rounds| ensures Follows(Past(b, n), b.rounds[n]) {
      if n < |a.rounds| { assert Past(b, n) == Past(a, n); }
    }
    if WentOn(b, t) {
      forall n | 0 < n <= |b.rounds| ensures WentOn(Past(b, n), t) {
        if n <= |a.rounds| { assert Past(b, n) == Past(a, n); } else { assert Past(b, n) == b; }
      }
    }
  }

  lemma KilledSoundly(a: Account, r: Round, t: Terms, timeline: seq<Entry>)
    requires Paced(a) && AllWentOn(a, t) && Follows(a, r) && TimelineOf(timeline, a.rounds + [r])
    requires KillDue(a.rounds + [r], t)
    ensures Sound(Advanced(RUNNING, t.killAt, false, timeline), Account(a.started, a.rounds + [r]), t)
  {
    hide KillDue, TimelineOf, AllWentOn, Paced, Follows;
    OneMoreRound(a, r, t);
  }

  lemma OverdueSoundly(a: Account, r: Round, t: Terms, timeline: seq<Entry>)
    requires Paced(a) && AllWentOn(a, t) && Follows(a, r) && TimelineOf(timeline, a.rounds + [r])
    requires var b := Account(a.started, a.rounds + [r]); !KillDue(b.rounds, t) && Overdue(b, t)
    requires r.compared.Some? <==> !Taken(a.rounds, t)
    ensures Sound(Advanced(r.polled.d.status, None, true, timeline), Account(a.started, a.rounds + [r]), t)
  {
    hide KillDue, TimelineOf, AllWentOn, Paced, Follows, Taken;
    OneMoreRound(a, r, t);
  }

  lemma AtRestSoundly(a: Account, r: Round, t: Terms, timeline: seq<Entry>)
    requires Paced(a) && AllWentOn(a, t) && Follows(a, r) && TimelineOf(timeline, a.rounds + [r])
    requires !KillDue(a.rounds + [r], t) && AtRest(a.rounds + [r], t)
    requires r.compared.Some? <==> !Taken(a.rounds, t)
    ensures Sound(Advanced(r.polled.d.status, None, false, timeline), Account(a.started, a.rounds + [r]), t)
  {
    hide KillDue, TimelineOf, AllWentOn, Paced, Follows, Taken;
    OneMoreRound(a, r, t);
  }

  lemma SilentSoundly(a: Account, r: Round, t: Terms, timeline: seq<Entry>)
    requires Paced(a) && AllWentOn(a, t) && Follows(a, r) && TimelineOf(timeline, a.rounds + [r])
    requires var b := Account(a.started, a.rounds + [r]);
             !KillDue(b.rounds, t) && !Overdue(b, t) && !AtRest(b.rounds, t) && Silent(b.rounds)
    requires r.compared.Some? <==> !Taken(a.rounds, t)
    ensures Sound(Advanced(r.polled.d.status, None, true, timeline), Account(a.started, a.rounds + [r]), t)
  {
    hide KillDue, TimelineOf, AllWentOn, Paced, Follows, Taken, Silent;
    OneMoreRound(a, r, t);
  }

  lemma GoesOnSoundly(a: Account, r: Round, t: Terms)
    requires Paced(a) && AllWentOn(a, t) && Follows(a, r) && r.beat.Some?
    requires var b := Account(a.started, a.rounds + [r]);
             !KillDue(b.rounds, t) && !Overdue(b, t) && !AtRest(b.rounds, t) && !Silent(b.rounds)
    requires r.compared.Some? <==> !Taken(a.rounds, t)
    ensures var b := Account(a.started, a.rounds + [r]); Paced(b) && WentOn(b, t) && AllWentOn(b, t)
  {
    hide KillDue, AllWentOn, Paced, Follows, Taken, Silent, Overdue, AtRest;
    OneMoreRound(a, r, t);
  }

  lemma TakenNow(past: seq<Round>, r: Round, t: Terms)
    ensures Taken(past + [r], t) <==> Taken(past, t) || MovedAt(r, t)
  {
    var rounds := past + [r];
    assert rounds[|past|] == r;
    if t.enqueue && Taken(past, t) {
      var i :| 0 <= i < |past| && MovedAt(past[i], t);
      assert MovedAt(rounds[i], t);
    }
  }

  lemma NoDrill(rounds: seq<Round>, t: Terms)
    requires t.killAt.None?
    ensures !KillDue(rounds, t)
  {
  }

  lemma SilentStill(rounds: seq<Round>, since: Option<real>, before: real, now: real)
    requires SilentSince(rounds, since, before) && before <= now
    ensures SilentSince(rounds, since, now)
  {
  }

  lemma TimelyStill(rounds: seq<Round>, before: real, now: real)
    requires Timely(rounds, before) && before <= now
    ensures Timely(rounds, now)
  {
  }

  /** A missing record continues a silence or begins one; the silence is too long exactly when measured
      from its beginning. */
  lemma SilenceGoesOn(past: seq<Round>, r: Round, since: Option<real>, now: real)
    requires SilentSince(past, since, now) && r.beat.Some? && r.beat.value.at == now
    ensures var since' := if !MissingAt(r) then None else if since.Some? then since else Some(now);
            && SilentSince(past + [r], since', now)
            && (Silent(past + [r]) <==> since'.Some? && now - since'.value > WORKER_SILENCE_SECONDS)
  {
    var rounds := past + [r];
    if MissingAt(r) {
      if since.Some? {
        var m :| SilenceBegins(past, m, since.value);
        assert SilenceBegins(rounds, m, since.value) by {
          assert rounds[m] == past[m] && (m > 0 ==> rounds[m - 1] == past[m - 1]);
        }
        SilentFrom(rounds, m, since.value);
      } else {
        assert SilenceBegins(rounds, |past|, now);
        SilentFrom(rounds, |past|, now);
      }
    }
  }

  lemma SilentFrom(rounds: seq<Round>, m: int, at: real)
    requires SilenceBegins(rounds, m, at)
    ensures Silent(rounds) <==> LastOf(rounds).beat.value.at - at > WORKER_SILENCE_SECONDS
  {
    if Silent(rounds) {
      var k :| MissingFrom(rounds, k)
        && LastOf(rounds).beat.value.at - rounds[k].beat.value.at > WORKER_SILENCE_SECONDS;
      assert k >= m;
    }
  }

  /** The step that is current was seen running, in this very round if not before. */
  lemma CurrentIsRunning(rounds: seq<Round>, d: Db, of: Attempt)
    requires rounds != [] && LastOf(rounds).polled.d == d
    requires CurrentStep(d).Some? && of == Attempt(CurrentStep(d).value.key, CurrentStep(d).value.attempt)
    ensures SeenRunning(rounds, of, LastOf(rounds).polled.at)
  {
    var step := CurrentStep(d).value;
    var i :| 0 <= i < |d.steps| && d.steps[i] == step;
    assert Entries(d.steps)[i] == Entry(of, RUNNING);
    assert RunningAt(rounds, of, |rounds| - 1);
  }

  lemma StillSeenRunning(x: seq<Round>, y: seq<Round>, of: Attempt, at: real)
    requires |x| <= |y| && forall i :: 0 <= i < |x| ==> x[i].polled == y[i].polled
    requires SeenRunning(x, of, at)
    ensures SeenRunning(y, of, at)
  {
    var i :| RunningAt(x, of, i) && x[i].polled.at == at;
    assert RunningAt(y, of, i);
  }

  lemma StillFirstRunning(w: Watch, w': Watch, rounds: seq<Round>, r: Round)
    requires FirstRunning(w, rounds) && Timely(rounds, r.polled.at)
    requires forall of <- w.runningSince :: of in w'.runningSince && w'.runningSince[of] == w.runningSince[of]
    requires forall of <- w'.runningSince ::
      || (of in w.runningSince && w'.runningSince[of] == w.runningSince[of])
      || (w'.runningSince[of] == r.polled.at && Entry(of, RUNNING) in Entries(r.polled.d.steps))
    requires forall of :: Entry(of, RUNNING) in Entries(r.polled.d.steps) ==> of in w'.runningSince
    ensures FirstRunning(w', rounds + [r])
  {
    var n, rounds' := |rounds|, rounds + [r];
    forall of | of in w'.runningSince ensures SeenRunning(rounds', of, w'.runningSince[of]) {
      if of in w.runningSince {
        StillSeenRunning(rounds, rounds', of, w.runningSince[of]);
      } else {
        assert RunningAt(rounds', of, n);
      }
    }
    forall of, at | SeenRunning(rounds', of, at) ensures of in w'.runningSince && w'.runningSince[of] <= at {
      var i :| RunningAt(rounds', of, i) && rounds'[i].polled.at == at;
      if i < n {
        assert RunningAt(rounds, of, i);
        assert SeenRunning(rounds, of, at);
      } else if of in w.runningSince {
        var k :| RunningAt(rounds, of, k) && rounds[k].polled.at == w.runningSince[of];
        assert rounds[k] in rounds;
      }
    }
  }

  /** The watch, the timeline and the drill depend on what a round polled, and on nothing else of it. */
  lemma SamePolls(w: Watch, past: seq<Round>, x: Round, y: Round, t: Terms)
    requires x.polled == y.polled && Watched(w, past + [x]) && TimelineOf(w.timeline, past + [x])
    ensures Watched(w, past + [y]) && TimelineOf(w.timeline, past + [y])
    ensures forall now :: Timely(past + [x], now) ==> Timely(past + [y], now)
    ensures KillDue(past + [x], t) <==> KillDue(past + [y], t)
  {
    hide Tracks;
    var a, b := past + [x], past + [y];
    assert a[..|past|] == past == b[..|past|];
    assert AllEntries(a) == AllEntries(b);
    forall of, at ensures SeenRunning(b, of, at) <==> SeenRunning(a, of, at) {
      if SeenRunning(a, of, at) { StillSeenRunning(a, b, of, at); }
      if SeenRunning(b, of, at) { StillSeenRunning(b, a, of, at); }
    }
    forall now | Timely(a, now) ensures Timely(b, now) {
      forall r | r in b ensures r.polled.at <= now {
        if r in past { assert r in a; } else { assert r == y && x in a; }
      }
    }
  }

  lemma TracksTimeline(w: Watch, rounds: seq<Round>)
    requires Watched(w, rounds)
    ensures TimelineOf(w.timeline, rounds)
  {
    forall of ensures StatusesOf(w.timeline, of) == Destutter(StatusesOf(AllEntries(rounds), of)) {
      assert TracksOne(w.lastSeen, w.timeline, AllEntries(rounds), of);
    }
  }
}
