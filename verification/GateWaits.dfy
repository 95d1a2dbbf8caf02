/** How long a run sat at its gates, read from the driver's event log
    (audit/scoring/platform_report.py). Timestamps are numbers of seconds. */
module GateWaits {
  import opened Options

  datatype What =
    | Commissioned(job: string)
    | Advanced(awaiting: bool)
    | Decided(gate: string, approved: bool, findings: nat)
    | Finished
    | Other

  datatype Event = Event(what: What, at: real)

  /* ---------- One run's events ---------- */

  predicate Starts(e: Event, job: Option<string>) {
    e.what.Commissioned? && (job.None? || e.what.job == job.value)
  }

  /** Where the newest run begins. */
  function Newest(log: seq<Event>, job: Option<string>): (i: Option<nat>)
    ensures i.Some? ==> i.value < |log| && Starts(log[i.value], job) && forall j :: i.value < j < |log| ==> !Starts(log[j], job)
    ensures i.None? ==> forall j :: 0 <= j < |log| ==> !Starts(log[j], job)
  {
    if log == [] then None
    else if Starts(log[|log| - 1], job) then Some(|log| - 1)
    else Newest(log[..|log| - 1], job)
  }

  function Trim(log: seq<Event>, job: Option<string>): seq<Event> {
    var start := Newest(log, job);
    if start.Some? then log[start.value..] else log
  }

  /** The commissioning of the job asked about, or of any if none is. */
  ghost predicate Begins(e: Event, job: Option<string>) {
    match e.what
    case Commissioned(id) => job == None || job == Some(id)
    case _ => false
  }

  /** Whatever was logged before the newest run began, an abandoned run included, does not count. */
  lemma EarlierRunsDoNotCount(before: seq<Event>, run: seq<Event>, job: Option<string>)
    requires exists e <- run :: Starts(e, job)
    ensures Trim(before + run, job) == Trim(run, job)
    ensures var t := Trim(before + run, job);
            && t != [] && Begins(t[0], job)
            && forall i :: 0 < i < |t| ==> !Begins(t[i], job)
  {
    var log := before + run;
    var k :| 0 <= k < |run| && Starts(run[k], job);
    assert log[|before| + k] == run[k];
    var i, j := Newest(run, job).value, Newest(log, job).value;
    assert log[|before| + i] == run[i];
    assert j >= |before| && run[j - |before|] == log[j];
    assert j == |before| + i;
    assert log[j..] == run[i..];
  }

  /* ---------- The waits ---------- */

  predicate Pauses(e: Event) { e.what == Advanced(true) }

  datatype Wait = Wait(gate: string, seconds: real, approved: bool, findings: nat)

  function WaitOf(pause: Event, decision: Event): Wait
    requires decision.what.Decided?
  {
    Wait(decision.what.gate, decision.at - pause.at, decision.what.approved, decision.what.findings)
  }

  method CollectWaits(events: seq<Event>) returns (waits: seq<Wait>)
    ensures waits == Waits(events)
  {
    waits := [];
    var pausedAt: Option<real> := None;
    for i := 0 to |events|
      invariant waits == Waits(events[..i])
      invariant pausedAt == if Pending(events[..i]).Some? then Some(events[Pending(events[..i]).value].at) else None
    {
      assert events[..i + 1][..i] == events[..i];
      var event := events[i];
      if Pauses(event) {
        pausedAt := Some(event.at);
      } else if event.what.Decided? && pausedAt.Some? {
        waits := waits + [Wait(event.what.gate, event.at - pausedAt.value, event.what.approved, event.what.findings)];
        pausedAt := None;
      }
    }
    assert events[..|events|] == events;
  }

  /** The pause no decision has followed yet. */
  function Pending(events: seq<Event>): (p: Option<nat>)
    ensures p.Some? ==> p.value < |events|
  {
    if events == [] then None
    else
      var last := events[|events| - 1];
      if Pauses(last) then Some(|events| - 1)
      else if last.what.Decided? then None
      else Pending(events[..|events| - 1])
  }

  /** Each decision with the pause pending when it was made, as positions in the log. */
  function Pairs(events: seq<Event>): (pairs: seq<(nat, nat)>)
    ensures forall p <- pairs :: p.0 < p.1 < |events| && events[p.1].what.Decided?
  {
    if events == [] then []
    else
      var before := events[..|events| - 1];
      var last := events[|events| - 1];
      if last.what.Decided? && Pending(before).Some?
      then Pairs(before) + [(Pending(before).value, |events| - 1)]
      else Pairs(before)
  }

  function Waits(events: seq<Event>): seq<Wait> {
    if events == [] then []
    else
      var before := events[..|events| - 1];
      var last := events[|events| - 1];
      if last.what.Decided? && Pending(before).Some?
      then Waits(before) + [WaitOf(events[Pending(before).value], last)]
      else Waits(before)
  }

  lemma {:induction false} WaitsArePairs(events: seq<Event>)
    ensures |Waits(events)| == |Pairs(events)|
    ensures forall i :: 0 <= i < |Waits(events)| ==>
              Waits(events)[i] == WaitOf(events[Pairs(events)[i].0], events[Pairs(events)[i].1])
    // Each reports its decision, and the time that went by between its pause and it.
    ensures forall i :: 0 <= i < |Waits(events)| ==>
              var w, pause, decision := Waits(events)[i], events[Pairs(events)[i].0], events[Pairs(events)[i].1];
              && decision.what == Decided(w.gate, w.approved, w.findings)
              && pause.at + w.seconds == decision.at && pause.what == Advanced(true)
  {
    if events != [] {
      var before := events[..|events| - 1];
      WaitsArePairs(before);
      forall i | 0 <= i < |Waits(before)|
        ensures Waits(before)[i] == WaitOf(events[Pairs(before)[i].0], events[Pairs(before)[i].1])
      {
        assert Pairs(before)[i] in Pairs(before);
      }
      if Pending(before).Some? { PendingIs(before, Pending(before).value); }
    }
  }

  /** A pause and a decision with neither a pause nor a decision between them. */
  ghost predicate Adjacent(events: seq<Event>, p: nat, d: nat) {
    && p < d < |events| && Pauses(events[p]) && events[d].what.Decided?
    && forall i :: p < i < d ==> !Pauses(events[i]) && !events[i].what.Decided?
  }

  lemma {:induction false} PendingIs(events: seq<Event>, p: nat)
    ensures Pending(events) == Some(p) <==>
            p < |events| && Pauses(events[p]) && forall i :: p < i < |events| ==> !Pauses(events[i]) && !events[i].what.Decided?
  {
    if events != [] { PendingIs(events[..|events| - 1], p); }
  }

  lemma AdjacentBefore(events: seq<Event>, p: nat, d: nat)
    requires d < |events| - 1
    ensures Adjacent(events, p, d) <==> Adjacent(events[..|events| - 1], p, d)
  {
    var before := events[..|events| - 1];
    assert forall i :: 0 <= i <= d ==> before[i] == events[i];
  }

  lemma OneMoreEvent(events: seq<Event>, p: nat, d: nat)
    requires events != []
    ensures (p, d) in Pairs(events) <==>
              || (p, d) in Pairs(events[..|events| - 1])
              || (events[|events| - 1].what.Decided? && Pending(events[..|events| - 1]) == Some(p) && d == |events| - 1)
  {
    hide Pending;
  }

  /** The waits are exactly the adjacent pairs: a decision is paired with the last pause since the
      decision before it, and stands unpaired when there was none. */
  lemma {:induction false} PairedExactly(events: seq<Event>, p: nat, d: nat)
    ensures (p, d) in Pairs(events) <==> Adjacent(events, p, d)
  {
    if events != [] {
      var before, n := events[..|events| - 1], |events| - 1;
      PairedExactly(before, p, d);
      PendingIs(before, p);
      OneMoreEvent(events, p, d);
      assert forall i :: 0 <= i < n ==> before[i] == events[i];
      if d < n {
        AdjacentBefore(events, p, d);
      } else {
        assert (p, d) in Pairs(before) ==> (p, d).1 < n;
      }
    }
  }

  /** The waits follow one another: each pause comes after the decision before it, so none is used
      twice and no two waits overlap. */
  lemma {:induction false} WaitsAreDisjoint(events: seq<Event>)
    ensures forall i, j :: 0 <= i < j < |Pairs(events)| ==> Pairs(events)[i].1 < Pairs(events)[j].0
  {
    if events != [] {
      var before := events[..|events| - 1];
      WaitsAreDisjoint(before);
      if Pending(before).Some? {
        var p := Pending(before).value;
        PendingIs(before, p);
        forall q | q in Pairs(before) ensures q.1 < p { PairedExactly(before, q.0, q.1); }
      }
    }
  }

  /* ---------- Against the wall clock ---------- */

  /** From the first commissioning to the last finish. */
  function Started(events: seq<Event>): (i: Option<nat>)
    ensures i.Some? ==> i.value < |events| && events[i.value].what.Commissioned?
                        && forall j :: 0 <= j < i.value ==> !events[j].what.Commissioned?
    ensures i.None? ==> forall j :: 0 <= j < |events| ==> !events[j].what.Commissioned?
  {
    if events == [] then None
    else
      var before := Started(events[..|events| - 1]);
      if before.Some? then before
      else if events[|events| - 1].what.Commissioned? then Some(|events| - 1) else None
  }

  function LastFinish(events: seq<Event>): (i: Option<nat>)
    ensures i.Some? ==> i.value < |events| && events[i.value].what.Finished?
                        && forall j :: i.value < j < |events| ==> !events[j].what.Finished?
    ensures i.None? ==> forall j :: 0 <= j < |events| ==> !events[j].what.Finished?
  {
    if events == [] then None
    else if events[|events| - 1].what.Finished? then Some(|events| - 1)
    else LastFinish(events[..|events| - 1])
  }

  function WallClock(events: seq<Event>): Option<real> {
    var s, f := Started(events), LastFinish(events);
    if s.None? || f.None? then None else Some(events[f.value].at - events[s.value].at)
  }

  function Total(waits: seq<Wait>): real {
    if waits == [] then 0.0 else Total(waits[..|waits| - 1]) + waits[|waits| - 1].seconds
  }

  lemma {:induction false} TotalAddsUp(waits: seq<Wait>, more: seq<Wait>)
    ensures Total(waits + more) == Total(waits) + Total(more)
    ensures |waits| == 1 ==> Total(waits) == waits[0].seconds
  {
    if more == [] {
      assert waits + more == waits;
    } else {
      assert (waits + more)[..|waits + more| - 1] == waits + more[..|more| - 1];
      TotalAddsUp(waits, more[..|more| - 1]);
    }
  }

  ghost predicate InOrder(events: seq<Event>) {
    forall i, j :: 0 <= i < j < |events| ==> events[i].at <= events[j].at
  }

  lemma {:induction false} TotalUpTo(events: seq<Event>, first: nat)
    requires InOrder(events) && first < |events| && forall i :: 0 <= i < first ==> !Pauses(events[i])
    ensures 0.0 <= Total(Waits(events))
    ensures Total(Waits(events)) <= events[|events| - 1].at - events[first].at
    ensures Pending(events).Some? ==>
              Total(Waits(events)) <= events[Pending(events).value].at - events[first].at
    decreases |events|
  {
    var before, n := events[..|events| - 1], |events| - 1;
    if n == first {
      NothingWaited(before);
      assert Pending(events).Some? ==> Pending(events).value == first;
    } else {
      TotalUpTo(before, first);
      if Pending(before).Some? {
        var p := Pending(before).value;
        PendingIs(before, p);
        assert p >= first;
      }
    }
  }

  lemma {:induction false} NothingWaited(events: seq<Event>)
    requires forall i :: 0 <= i < |events| ==> !Pauses(events[i])
    ensures Pending(events).None? && Waits(events) == []
  {
    if events != [] { NothingWaited(events[..|events| - 1]); }
  }

  /** What comes after the last decision adds no wait. */
  lemma {:induction false} NoWaitAfter(events: seq<Event>, n: nat)
    requires n <= |events| && forall i :: n <= i < |events| ==> !events[i].what.Decided?
    ensures Waits(events) == Waits(events[..n])
  {
    if n < |events| {
      assert events[..|events| - 1][..n] == events[..n];
      NoWaitAfter(events[..|events| - 1], n);
    } else {
      assert events[..n] == events;
    }
  }

  /** In a log whose times do not go back, that pauses at no gate before it is commissioned and decides
      none after its last finish, the run sat at its gates no longer than it took. */
  lemma WaitsFitTheWallClock(events: seq<Event>)
    requires InOrder(events) && WallClock(events).Some?
    requires forall i :: 0 <= i < Started(events).value ==> !Pauses(events[i])
    requires forall i :: LastFinish(events).value < i < |events| ==> !events[i].what.Decided?
    requires Started(events).value <= LastFinish(events).value
    ensures 0.0 <= Total(Waits(events)) <= WallClock(events).value
  {
    var f := LastFinish(events).value;
    var run := events[..f + 1];
    NoWaitAfter(events, f + 1);
    TotalUpTo(run, Started(events).value);
  }

  /** A trimmed log starts with its commissioning, so the first condition is met. */
  lemma TrimmedStartsAtZero(log: seq<Event>, job: Option<string>)
    requires exists e <- log :: Starts(e, job)
    ensures Started(Trim(log, job)) == Some(0)
  {
    EarlierRunsDoNotCount([], log, job);
    assert [] + log == log;
    FirstStarts(Trim(log, job));
  }

  lemma {:induction false} FirstStarts(events: seq<Event>)
    requires events != [] && events[0].what.Commissioned?
    ensures Started(events) == Some(0)
  {
    if |events| > 1 { FirstStarts(events[..|events| - 1]); }
  }
}
