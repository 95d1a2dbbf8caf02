/** The audit's own spending ceiling, over what the platform metered and what it could not see. */
module Ledger {
  import opened Options
  import Executor
  import D = Driver

  const CEILING := 100.0

  datatype Kind = Baseline | Other
  datatype Reading = Reading(platform: real, baseline: real, other: real) {
    function Total(): real { platform + baseline + other }
  }

  function Sum(lines: seq<real>): real {
    if lines == [] then 0.0 else Sum(lines[..|lines| - 1]) + lines[|lines| - 1]
  }

  class Book {
    var baseline: seq<real>
    var other: seq<real>

    constructor ()
      ensures baseline == [] && other == []
    {
      baseline, other := [], [];
    }

    function Recorded(): real
      reads this
    {
      Sum(baseline) + Sum(other)
    }

    method Record(kind: Kind, amount: real)
      modifies this
      ensures kind.Baseline? ==> baseline == old(baseline) + [amount] && other == old(other)
      ensures kind.Other? ==> other == old(other) + [amount] && baseline == old(baseline)
      ensures Recorded() == old(Recorded()) + amount
    {
      match kind {
        case Baseline =>
          baseline := baseline + [amount];
          assert baseline[..|baseline| - 1] == old(baseline);
        case Other =>
          other := other + [amount];
          assert other[..|other| - 1] == old(other);
      }
    }

    method SumOf(lines: seq<real>) returns (total: real)
      ensures total == Sum(lines)
    {
      total := 0.0;
      for i := 0 to |lines|
        invariant total == Sum(lines[..i])
      {
        assert lines[..i + 1][..i] == lines[..i];
        total := total + lines[i];
      }
      assert lines[..|lines|] == lines;
    }

    method Read(platform: real) returns (reading: Reading)
      ensures reading.platform == platform && reading.baseline == Sum(baseline) && reading.other == Sum(other)
      ensures reading.Total() == platform + Recorded()
    {
      var b := SumOf(baseline);
      var o := SumOf(other);
      reading := Reading(platform, b, o);
    }

    /** `None` is the refusal to start the stage. */
    method AssertRoom(platform: real, needs: real) returns (reading: Option<Reading>)
      ensures reading.Some? <==> platform + Recorded() + needs <= CEILING
      ensures reading.Some? ==> reading == Some(Reading(platform, Sum(baseline), Sum(other)))
    {
      var r := Read(platform);
      reading := if r.Total() + needs > CEILING then None else Some(r);
    }
  }

  /* ---------- Over any sequence of guarded drives ---------- */

  /** One drive: the guard asks for `raiseTo`; the run starts under `cap`, may be raised once to
      `raiseTo`, and spends within the cap it ends under. */
  datatype Drive = Drive(cap: real, raiseTo: real, raised: bool, spend: real) {
    predicate WithinItsCap() {
      0.0 <= spend <= (if raised then raiseTo else cap)
    }
  }

  function After(total: real, drive: Drive): real {
    if total + drive.raiseTo <= CEILING then total + drive.spend else total
  }

  function AfterAll(total: real, drives: seq<Drive>): real {
    if drives == [] then total else After(AfterAll(total, drives[..|drives| - 1]), drives[|drives| - 1])
  }

  /** No sequence of guarded drives takes the total past the ceiling, provided each starts under a
      cap no larger than the amount the guard asked for. */
  lemma {:induction false} CeilingHolds(total: real, drives: seq<Drive>)
    requires total <= CEILING
    requires forall d <- drives :: d.WithinItsCap() && d.cap <= d.raiseTo
    ensures total <= AfterAll(total, drives) <= CEILING
  {
    if drives != [] {
      CeilingHolds(total, drives[..|drives| - 1]);
      assert drives[|drives| - 1] in drives;
    }
  }

  ghost predicate GuardCovers(cap: real, raiseTo: real) {
    forall total: real, raised: bool, spend: real ::
      (total <= CEILING && Drive(cap, raiseTo, raised, spend).WithinItsCap())
      ==> After(total, Drive(cap, raiseTo, raised, spend)) <= CEILING
  }

  /** The proviso is exact: the guard asks for the raised cap, so a run commissioned under a larger
      cap than it could be raised to is not covered by it. */
  lemma GuardCoversExactly(cap: real, raiseTo: real)
    requires cap >= 0.0 && raiseTo >= 0.0
    ensures GuardCovers(cap, raiseTo) <==> cap <= raiseTo
  {
    if cap > raiseTo {
      var worst := Drive(cap, raiseTo, false, cap);
      assert worst.WithinItsCap() && After(CEILING - raiseTo, worst) > CEILING;
    }
  }

  /* ---------- A driven run as one of these drives ---------- */

  /** What the driver keeps of the cap makes its run one of these drives, if the platform lets the run
      spend no more than the cap it ends under; and then the guard's answer covers it. */
  lemma DrivenRunIsCovered(
    x: Executor.WorkerExecutor, passes: seq<D.Pass>, t: D.Trace, orders: D.Orders, o: D.Origin, total: real, spend: real)
    requires D.Driven(x, passes, t, orders, o)
    requires 0.0 <= spend <= x.runtime.db.cap && o.cap <= orders.raiseTo && total <= CEILING
    ensures var drive := Drive(o.cap, orders.raiseTo, D.Reckoned(passes, |passes|).raised, spend);
            drive.WithinItsCap() && After(total, drive) <= CEILING
  {
    hide D.Driven, D.Reckoned;
    D.CapKept(x, passes, t, orders, o);
  }
}
