/** Making a work order the root of every run, in two migrations with stated inverses: the first adds
    the root beside the mandate (0054), the second drops what the mandate duplicated (0064). */
module RunRoot {
  import opened Options

  type Id = nat

  /** What a run is, as opposed to what a report is about. */
  datatype RunColumns = RunColumns(
    user: Id, asOf: int, pointInTime: bool, maxCost: real, status: nat, archivedAt: Option<int>)

  /** A research request. `run` is `None` once 0064 has dropped the six columns. */
  datatype Request = Request(run: Option<RunColumns>, company: Option<Id>, createdAt: int, mandate: nat)
  datatype WorkOrder = WorkOrder(run: RunColumns, tool: string, subjectKind: string, subject: Option<Id>, createdAt: int)

  /** A row of `jobs`, `approvals` or `source_documents`: its two pointers and everything else. */
  datatype Row<T> = Row(request: Option<Id>, order: Option<Id>, rest: T)
  datatype Source = Source(url: nat, retrievedAt: int, artefact: nat, rest: nat)
  datatype Plan = Plan(request: Id, createdAt: int)
  datatype Pin = Pin(plan: Option<Id>, order: Option<Id>, skill: Id)

  type Table<T> = map<Id, Row<T>>
  type Plans = map<Id, Plan>

  datatype State = State(
    requests: map<Id, Request>,
    orders: map<Id, WorkOrder>,
    jobs: Table<nat>,
    approvals: Table<nat>,
    sources: Table<Source>,
    plans: Plans,
    pins: map<Id, Pin>)

  /* ---------- The shapes between the migrations ---------- */

  ghost predicate PointsAtRequests<T(!new)>(rows: Table<T>, requests: map<Id, Request>) {
    forall id <- rows :: rows[id].order.None? && rows[id].request.Some? && rows[id].request.value in requests
  }

  /** Before 0054: requests are the roots, and nothing is a work order. */
  ghost predicate Original(s: State) {
    && s.orders == map[]
    && (forall id <- s.requests :: s.requests[id].run.Some?)
    && PointsAtRequests(s.jobs, s.requests) && PointsAtRequests(s.approvals, s.requests)
    && PointsAtRequests(s.sources, s.requests)
    && (forall id <- s.plans :: s.plans[id].request in s.requests)
    && (forall id <- s.pins :: s.pins[id].order.None? && s.pins[id].plan.Some? && s.pins[id].plan.value in s.plans)
  }

  ghost predicate PointsAtOrders<T(!new)>(rows: Table<T>, orders: map<Id, WorkOrder>) {
    forall id <- rows :: rows[id].order.Some? && rows[id].order.value in orders
  }

  /** Every pointer is a work order that exists. */
  ghost predicate RootedShape(s: State) {
    && PointsAtOrders(s.jobs, s.orders) && PointsAtOrders(s.approvals, s.orders) && PointsAtOrders(s.sources, s.orders)
    && (forall id <- s.pins :: s.pins[id].plan.None? && s.pins[id].order.Some? && s.pins[id].order.value in s.orders)
    && s.requests.Keys <= s.orders.Keys
  }

  /* ---------- Unique keys ---------- */

  ghost predicate SourceKeysBy(sources: Table<Source>, root: Row<Source> -> Option<Id>) {
    forall a <- sources, b <- sources :: a != b && root(sources[a]) == root(sources[b]) ==>
      && sources[a].rest.artefact != sources[b].rest.artefact
      && (sources[a].rest.url, sources[a].rest.retrievedAt) != (sources[b].rest.url, sources[b].rest.retrievedAt)
  }

  const BY_REQUEST := (r: Row<Source>) => r.request
  const BY_ORDER := (r: Row<Source>) => r.order

  /** The keys 0054 down puts back; an empty request collides with nothing. */
  predicate SourcesUniqueByRequest(sources: Table<Source>) {
    forall a <- sources, b <- sources :: a != b && sources[a].request.Some? && sources[a].request == sources[b].request ==>
      !SameDocument(sources[a].rest, sources[b].rest)
  }

  predicate SameDocument(a: Source, b: Source) {
    a.artefact == b.artefact || (a.url == b.url && a.retrievedAt == b.retrievedAt)
  }

  predicate PinsUniqueByPlan(pins: map<Id, Pin>) {
    forall a <- pins, b <- pins :: a != b && pins[a].skill == pins[b].skill ==> pins[a].plan != pins[b].plan
  }

  predicate PinsUniqueByOrder(pins: map<Id, Pin>) {
    forall a <- pins, b <- pins :: a != b && pins[a].skill == pins[b].skill ==> pins[a].order != pins[b].order
  }

  /* ---------- 0054 ---------- */

  function OrderOf(r: Request): WorkOrder
    requires r.run.Some?
  {
    WorkOrder(r.run.value, "research", "company", r.company, r.createdAt)
  }

  function OrdersFor(requests: map<Id, Request>): (orders: map<Id, WorkOrder>)
    requires forall id <- requests :: requests[id].run.Some?
    ensures orders.Keys == requests.Keys && forall id <- requests :: orders[id] == OrderOf(requests[id])
  {
    map id | id in requests :: OrderOf(requests[id])
  }

  /** `UPDATE ... SET work_order_id = request_id`. */
  function OrderFromRequest<T>(rows: Table<T>): (r: Table<T>)
    ensures r.Keys == rows.Keys && forall id <- rows :: r[id] == rows[id].(order := rows[id].request)
  {
    map id | id in rows :: rows[id].(order := rows[id].request)
  }

  /** A pin's plan, then that plan's request; the plan column is dropped. */
  function PinsToOrders(pins: map<Id, Pin>, plans: Plans): (r: map<Id, Pin>)
    ensures r.Keys == pins.Keys
    ensures forall id <- pins :: r[id].plan.None? && r[id].skill == pins[id].skill
    ensures forall id <- pins :: pins[id].plan.Some? && pins[id].plan.value in plans ==>
      r[id].order == Some(plans[pins[id].plan.value].request)
  {
    map id | id in pins ::
      Pin(None,
          if pins[id].plan.Some? && pins[id].plan.value in plans then Some(plans[pins[id].plan.value].request) else None,
          pins[id].skill)
  }

  function Rooted(s: State): State
    requires forall id <- s.requests :: s.requests[id].run.Some?
  {
    State(s.requests, OrdersFor(s.requests), OrderFromRequest(s.jobs), OrderFromRequest(s.approvals),
          OrderFromRequest(s.sources), s.plans, PinsToOrders(s.pins, s.plans))
  }

  /** A request's most recent plan: one with no later plan of that request. Which of several equally
      recent ones is left to the database. */
  ghost predicate Chooses(latest: (Plans, Id) -> Option<Id>) {
    forall plans: Plans, request: Id ::
      && (latest(plans, request).None? <==> forall p <- plans :: plans[p].request != request)
      && (latest(plans, request).Some? ==>
            && latest(plans, request).value in plans
            && plans[latest(plans, request).value].request == request
            && forall p <- plans :: plans[p].request == request ==>
                 plans[p].createdAt <= plans[latest(plans, request).value].createdAt)
  }

  function PlanFor(latest: (Plans, Id) -> Option<Id>, plans: Plans, pin: Pin): Option<Id> {
    if pin.order.Some? then latest(plans, pin.order.value) else None
  }

  function PinsToPlans(latest: (Plans, Id) -> Option<Id>, pins: map<Id, Pin>, plans: Plans): (r: map<Id, Pin>)
    ensures forall id :: id in r <==> id in pins && PlanFor(latest, plans, pins[id]).Some?
    ensures forall id <- r :: r[id] == Pin(PlanFor(latest, plans, pins[id]), None, pins[id].skill)
  {
    map id | id in pins && PlanFor(latest, plans, pins[id]).Some? ::
      Pin(PlanFor(latest, plans, pins[id]), None, pins[id].skill)
  }

  /** Rows without a request go; the work order column is dropped. */
  function OnlyRequested<T>(rows: Table<T>): (r: Table<T>)
    ensures forall id :: id in r <==> id in rows && rows[id].request.Some?
    ensures forall id <- r :: r[id] == rows[id].(order := None)
  {
    map id | id in rows && rows[id].request.Some? :: rows[id].(order := None)
  }

  function Unrooted(latest: (Plans, Id) -> Option<Id>, s: State): State {
    State(s.requests, map[], OnlyRequested(s.jobs), OnlyRequested(s.approvals), OnlyRequested(s.sources),
          s.plans, PinsToPlans(latest, s.pins, s.plans))
  }

  predicate MayUnroot(latest: (Plans, Id) -> Option<Id>, s: State) {
    PinsUniqueByPlan(PinsToPlans(latest, s.pins, s.plans)) && SourcesUniqueByRequest(s.sources)
  }

  /* ---------- 0064 ---------- */

  function DropRequest<T>(rows: Table<T>): (r: Table<T>)
    ensures r.Keys == rows.Keys && forall id <- rows :: r[id] == rows[id].(request := None)
  {
    map id | id in rows :: rows[id].(request := None)
  }

  function DropRun(requests: map<Id, Request>): (r: map<Id, Request>)
    ensures r.Keys == requests.Keys && forall id <- requests :: r[id] == requests[id].(run := None)
  {
    map id | id in requests :: requests[id].(run := None)
  }

  function Stripped(s: State): State {
    s.(requests := DropRun(s.requests), jobs := DropRequest(s.jobs), approvals := DropRequest(s.approvals),
       sources := DropRequest(s.sources))
  }

  function RefillRun(requests: map<Id, Request>, orders: map<Id, WorkOrder>): (r: map<Id, Request>)
    requires requests.Keys <= orders.Keys
    ensures r.Keys == requests.Keys && forall id <- requests :: r[id] == requests[id].(run := Some(orders[id].run))
  {
    map id | id in requests :: requests[id].(run := Some(orders[id].run))
  }

  predicate Mandated(requests: map<Id, Request>, order: Option<Id>) { order.Some? && order.value in requests }

  /** The cascade of deleting the work orders without a mandate. */
  function Surviving<T>(rows: Table<T>, requests: map<Id, Request>): (r: Table<T>)
    ensures forall id :: id in r <==> id in rows && Mandated(requests, rows[id].order)
    ensures forall id <- r :: r[id] == rows[id]
  {
    map id | id in rows && Mandated(requests, rows[id].order) :: rows[id]
  }

  /** `UPDATE ... SET request_id = work_order_id`. */
  function RequestFromOrder<T>(rows: Table<T>): (r: Table<T>)
    ensures r.Keys == rows.Keys && forall id <- rows :: r[id] == rows[id].(request := rows[id].order)
  {
    map id | id in rows :: rows[id].(request := rows[id].order)
  }

  /** The state without the runs that never had a mandate, nor anything hanging off them. */
  function MandatedOnly(s: State): State {
    s.(orders := map id | id in s.orders && id in s.requests :: s.orders[id],
       jobs := Surviving(s.jobs, s.requests), approvals := Surviving(s.approvals, s.requests),
       sources := Surviving(s.sources, s.requests),
       pins := map id | id in s.pins && Mandated(s.requests, s.pins[id].order) :: s.pins[id])
  }

  function Restored(s: State): State
    requires s.requests.Keys <= s.orders.Keys
  {
    var m := MandatedOnly(s);
    m.(requests := RefillRun(s.requests, s.orders), jobs := RequestFromOrder(m.jobs),
       approvals := RequestFromOrder(m.approvals), sources := RequestFromOrder(m.sources))
  }

  /* ---------- The migrations, statement by statement ---------- */

  class Database {
    const latest: (Plans, Id) -> Option<Id>
    var requests: map<Id, Request>
    var orders: map<Id, WorkOrder>
    var jobs: Table<nat>
    var approvals: Table<nat>
    var sources: Table<Source>
    var plans: Plans
    var pins: map<Id, Pin>

    constructor (latest: (Plans, Id) -> Option<Id>, s: State)
      ensures this.latest == latest && Snapshot() == s
    {
      this.latest := latest;
      requests, orders, jobs, approvals := s.requests, s.orders, s.jobs, s.approvals;
      sources, plans, pins := s.sources, s.plans, s.pins;
    }

    function Snapshot(): State
      reads this
    {
      State(requests, orders, jobs, approvals, sources, plans, pins)
    }

    /** False is the unique violation on the pins, which rolls the migration back. */
    method Upgrade54() returns (ok: bool)
      requires Original(Snapshot())
      modifies this
      ensures ok == PinsUniqueByOrder(PinsToOrders(old(pins), old(plans)))
      ensures Snapshot() == if ok then Rooted(old(Snapshot())) else old(Snapshot())
    {
      var moved := PinsToOrders(pins, plans);
      ok := PinsUniqueByOrder(moved);
      if ok {
        orders := OrdersFor(requests);
        jobs := OrderFromRequest(jobs);
        approvals := OrderFromRequest(approvals);
        sources := OrderFromRequest(sources);
        pins := moved;
      }
    }

    /** False is the unique violation of a key put back, on the pins or on the source documents. */
    method Downgrade54() returns (ok: bool)
      modifies this
      ensures ok == MayUnroot(latest, old(Snapshot()))
      ensures Snapshot() == if ok then Unrooted(latest, old(Snapshot())) else old(Snapshot())
    {
      var moved := PinsToPlans(latest, pins, plans);
      if !PinsUniqueByPlan(moved) { return false; }
      if !SourcesUniqueByRequest(sources) { return false; }
      ok := true;
      pins := moved;
      jobs := OnlyRequested(jobs);
      approvals := OnlyRequested(approvals);
      sources := OnlyRequested(sources);
      orders := map[];
    }

    /** False is a mandate without a work order, which the new foreign key refuses. */
    method Upgrade64() returns (ok: bool)
      modifies this
      ensures ok == (old(requests).Keys <= old(orders).Keys)
      ensures Snapshot() == if ok then Stripped(old(Snapshot())) else old(Snapshot())
    {
      ok := requests.Keys <= orders.Keys;
      if ok {
        jobs := DropRequest(jobs);
        approvals := DropRequest(approvals);
        sources := DropRequest(sources);
        requests := DropRun(requests);
      }
    }

    method Downgrade64()
      requires requests.Keys <= orders.Keys
      modifies this
      ensures Snapshot() == Restored(old(Snapshot()))
    {
      var mandates := requests;
      requests := RefillRun(requests, orders);
      orders := map id | id in orders && id in mandates :: orders[id];
      jobs := RequestFromOrder(Surviving(jobs, mandates));
      approvals := RequestFromOrder(Surviving(approvals, mandates));
      sources := RequestFromOrder(Surviving(sources, mandates));
      pins := map id | id in pins && Mandated(mandates, pins[id].order) :: pins[id];
    }
  }

  lemma SurvivingByKeys<T>(rows: Table<T>, a: map<Id, Request>, b: map<Id, Request>)
    requires a.Keys == b.Keys
    ensures Surviving(rows, a) == Surviving(rows, b)
  {
  }

  /* ---------- What 0054 keeps ---------- */

  /** Every pointer lands on an existing work order, and neither unique key of a source document is
      ever keyed on a column that may be empty. */
  lemma RootedIsSound(s: State)
    requires Original(s) && SourceKeysBy(s.sources, BY_REQUEST)
    ensures RootedShape(Rooted(s))
    ensures SourceKeysBy(Rooted(s).sources, BY_ORDER)
  {
  }

  /** The upgrade goes through exactly when no request pinned one skill on two of its plans. */
  lemma UpgradeFailsExactlyOnRepinned(s: State)
    requires Original(s) && PinsUniqueByPlan(s.pins)
    ensures PinsUniqueByOrder(Rooted(s).pins)
       <==> forall a <- s.pins, b <- s.pins ::
              a != b && s.pins[a].skill == s.pins[b].skill ==>
              s.plans[s.pins[a].plan.value].request != s.plans[s.pins[b].plan.value].request
  {
    var moved := Rooted(s).pins;
    forall a, b | a in s.pins && b in s.pins
      ensures moved[a].order == moved[b].order
         <==> s.plans[s.pins[a].plan.value].request == s.plans[s.pins[b].plan.value].request
    {
    }
  }

  /** Such a database: a run planned twice, the same skill pinned by both plans. */
  lemma RepinnedExample()
    ensures var plans: Plans := map[1 := Plan(7, 100), 2 := Plan(7, 200)];
            var pins: map<Id, Pin> := map[10 := Pin(Some(1), None, 5), 11 := Pin(Some(2), None, 5)];
            PinsUniqueByPlan(pins) && !PinsUniqueByOrder(PinsToOrders(pins, plans))
  {
    var plans: Plans := map[1 := Plan(7, 100), 2 := Plan(7, 200)];
    var pins: map<Id, Pin> := map[10 := Pin(Some(1), None, 5), 11 := Pin(Some(2), None, 5)];
    var moved := PinsToOrders(pins, plans);
    assert moved[10].order == moved[11].order && moved[10].skill == moved[11].skill;
  }

  lemma PinsBack(latest: (Plans, Id) -> Option<Id>, s: State)
    requires Original(s) && Chooses(latest)
    ensures var pins := Unrooted(latest, Rooted(s)).pins;
            && pins.Keys == s.pins.Keys
            && forall id <- s.pins ::
                 pins[id] == Pin(latest(s.plans, s.plans[s.pins[id].plan.value].request), None, s.pins[id].skill)
  {
    var moved := PinsToOrders(s.pins, s.plans);
    forall id | id in s.pins
      ensures PlanFor(latest, s.plans, moved[id]) == latest(s.plans, s.plans[s.pins[id].plan.value].request)
      ensures PlanFor(latest, s.plans, moved[id]).Some?
    {
      assert moved[id].order == Some(s.plans[s.pins[id].plan.value].request);
    }
  }

  /** 0054 down undoes 0054 up exactly when every pin hung off its request's most recent plan. */
  lemma UnrootedRestoresExactly(latest: (Plans, Id) -> Option<Id>, s: State)
    requires Original(s) && Chooses(latest)
    ensures Unrooted(latest, Rooted(s)) == s
       <==> forall id <- s.pins :: latest(s.plans, s.plans[s.pins[id].plan.value].request) == s.pins[id].plan
  {
    var t := Unrooted(latest, Rooted(s));
    RootAndBack(s.jobs, s.requests);
    RootAndBack(s.approvals, s.requests);
    RootAndBack(s.sources, s.requests);
    PinsBack(latest, s);
    hide PinsToPlans, PinsToOrders, OnlyRequested, OrderFromRequest;
    if t.pins == s.pins {
      forall id | id in s.pins ensures latest(s.plans, s.plans[s.pins[id].plan.value].request) == s.pins[id].plan {
        assert t.pins[id] == s.pins[id];
      }
    }
  }

  /** The pins never fail the downgrade: one pin per skill of an order is one per skill of its plan. */
  lemma PinsStayUnique(latest: (Plans, Id) -> Option<Id>, s: State)
    requires Chooses(latest) && PinsUniqueByOrder(s.pins)
    ensures PinsUniqueByPlan(PinsToPlans(latest, s.pins, s.plans))
  {
    var back := PinsToPlans(latest, s.pins, s.plans);
    forall a, b | a in back && b in back && a != b && back[a].skill == back[b].skill ensures back[a].plan != back[b].plan {
      assert s.plans[back[a].plan.value].request == s.pins[a].order.value;
      assert s.plans[back[b].plan.value].request == s.pins[b].order.value;
    }
  }

  /** One document acquired for two work orders that both name one request. */
  ghost predicate SharedDocument(sources: Table<Source>, a: Id, b: Id) {
    && a in sources && b in sources && sources[a].order != sources[b].order
    && sources[a].request.Some? && sources[a].request == sources[b].request
    && SameDocument(sources[a].rest, sources[b].rest)
  }

  /** 0054 down fails exactly on such a document. */
  lemma DowngradeFailsExactly(latest: (Plans, Id) -> Option<Id>, s: State)
    requires Chooses(latest) && PinsUniqueByOrder(s.pins) && SourceKeysBy(s.sources, BY_ORDER)
    ensures MayUnroot(latest, s) <==> !exists a, b :: SharedDocument(s.sources, a, b)
  {
    PinsStayUnique(latest, s);
    if !SourcesUniqueByRequest(s.sources) {
      var a, b :| a in s.sources && b in s.sources && a != b && s.sources[a].request.Some?
                  && s.sources[a].request == s.sources[b].request && SameDocument(s.sources[a].rest, s.sources[b].rest);
      assert BY_ORDER(s.sources[a]) == s.sources[a].order && BY_ORDER(s.sources[b]) == s.sources[b].order;
      assert SharedDocument(s.sources, a, b);
    }
    forall a, b | SharedDocument(s.sources, a, b) ensures !SourcesUniqueByRequest(s.sources) { }
  }

  /** Nothing of the kind where a request, if there is one, is the order: so neither right after 0054 nor
      after 0064 and its downgrade. */
  lemma DowngradeGoesThrough(latest: (Plans, Id) -> Option<Id>, s: State)
    requires Chooses(latest) && PinsUniqueByOrder(s.pins) && SourceKeysBy(s.sources, BY_ORDER)
    requires s.requests.Keys <= s.orders.Keys
    ensures (forall id <- s.sources :: s.sources[id].request.Some? ==> s.sources[id].request == s.sources[id].order) ==>
              MayUnroot(latest, s)
    ensures MayUnroot(latest, Restored(Stripped(s)))
  {
    DowngradeFailsExactly(latest, s);
    var t := Restored(Stripped(s));
    RestoredFields(s);
    forall a, b | a in t.sources && b in t.sources && a != b && t.sources[a].request == t.sources[b].request
      ensures !SameDocument(t.sources[a].rest, t.sources[b].rest)
    {
      assert BY_ORDER(s.sources[a]) == BY_ORDER(s.sources[b]);
    }
    PinsStayUnique(latest, t);
  }

  /** A state on which the downgrade fails. */
  lemma SharedDocumentExample()
    ensures var sources: Table<Source> :=
              map[1 := Row(Some(7), Some(7), Source(1, 0, 5, 0)), 2 := Row(Some(7), Some(8), Source(2, 0, 5, 0))];
            SourceKeysBy(sources, BY_ORDER) && !SourcesUniqueByRequest(sources)
  {
    var sources: Table<Source> :=
      map[1 := Row(Some(7), Some(7), Source(1, 0, 5, 0)), 2 := Row(Some(7), Some(8), Source(2, 0, 5, 0))];
    assert SharedDocument(sources, 1, 2);
  }

  /** Every request gets a work order of its own id and no other order is made: a research order on the request's
      company, dated and closed like the request, with its bounds and its status. */
  lemma BackfilledOrders(s: State, id: Id)
    requires Original(s)
    ensures id in Rooted(s).orders <==> id in s.requests
    ensures id in s.requests ==>
      var o, r := Rooted(s).orders[id], s.requests[id];
      && o.tool == "research" && o.subjectKind == "company"
      && o.subject == r.company && o.createdAt == r.createdAt && Some(o.run) == r.run
  {
  }

  lemma RootAndBack<T(!new)>(rows: Table<T>, requests: map<Id, Request>)
    requires PointsAtRequests(rows, requests)
    ensures OnlyRequested(OrderFromRequest(rows)) == rows
  {
  }

  /** A pin always comes back to a plan of its own request, and to the latest; none is lost. */
  lemma PinsReturnToTheLatestPlan(latest: (Plans, Id) -> Option<Id>, s: State, id: Id)
    requires Original(s) && Chooses(latest) && id in s.pins
    ensures var back := Unrooted(latest, Rooted(s)).pins;
            && id in back && back[id].plan.Some? && back[id].plan.value in s.plans
            && back[id].skill == s.pins[id].skill
            && var was, now := s.plans[s.pins[id].plan.value], s.plans[back[id].plan.value];
               now.request == was.request && now.createdAt >= was.createdAt
  {
    var moved := PinsToOrders(s.pins, s.plans);
    assert moved[id].order == Some(s.plans[s.pins[id].plan.value].request);
  }

  /* ---------- What 0064 keeps ---------- */

  ghost predicate PointersAgree<T(!new)>(rows: Table<T>, requests: map<Id, Request>) {
    forall id <- rows :: Mandated(requests, rows[id].order) ==> rows[id].request == rows[id].order
  }

  /** The duplicated columns say what the work order says. */
  ghost predicate Mirrored(s: State) {
    && (forall id <- s.requests :: id in s.orders && s.requests[id].run == Some(s.orders[id].run))
    && PointersAgree(s.jobs, s.requests) && PointersAgree(s.approvals, s.requests) && PointersAgree(s.sources, s.requests)
  }

  lemma PointersReturnExactly<T(!new)>(rows: Table<T>, requests: map<Id, Request>)
    ensures RequestFromOrder(Surviving(DropRequest(rows), requests)) == Surviving(rows, requests)
       <==> PointersAgree(rows, requests)
  {
    var after, kept := RequestFromOrder(Surviving(DropRequest(rows), requests)), Surviving(rows, requests);
    assert after.Keys == kept.Keys;
    forall id | id in kept ensures after[id] == kept[id] <==> rows[id].request == rows[id].order {
    }
    if after == kept {
      forall id | id in rows && Mandated(requests, rows[id].order) ensures rows[id].request == rows[id].order {
        assert id in kept && after[id] == kept[id];
      }
    }
  }

  /** Down after up gives back the rows of every run that has a mandate, and only those, exactly when
      the mirrored columns agreed when they were dropped. */
  lemma RestoredExactly(s: State)
    requires s.requests.Keys <= s.orders.Keys
    ensures Restored(Stripped(s)) == MandatedOnly(s) <==> Mirrored(s)
  {
    RestoredFields(s);
    PointersReturnExactly(s.jobs, s.requests);
    PointersReturnExactly(s.approvals, s.requests);
    PointersReturnExactly(s.sources, s.requests);
    RequestsReturnExactly(s);
    StateEquality(Restored(Stripped(s)), MandatedOnly(s));
  }

  lemma RestoredFields(s: State)
    requires s.requests.Keys <= s.orders.Keys
    ensures var r := Restored(Stripped(s));
            && r.requests == RefillRun(DropRun(s.requests), s.orders)
            && r.jobs == RequestFromOrder(Surviving(DropRequest(s.jobs), s.requests))
            && r.approvals == RequestFromOrder(Surviving(DropRequest(s.approvals), s.requests))
            && r.sources == RequestFromOrder(Surviving(DropRequest(s.sources), s.requests))
            && r.orders == MandatedOnly(s).orders && r.pins == MandatedOnly(s).pins && r.plans == s.plans
  {
    var t := Stripped(s);
    SurvivingByKeys(t.jobs, t.requests, s.requests);
    SurvivingByKeys(t.approvals, t.requests, s.requests);
    SurvivingByKeys(t.sources, t.requests, s.requests);
    assert MandatedOnly(t).orders == MandatedOnly(s).orders;
    assert MandatedOnly(t).pins == MandatedOnly(s).pins;
  }

  lemma StateEquality(a: State, b: State)
    ensures a == b <==>
      && a.requests == b.requests && a.orders == b.orders && a.jobs == b.jobs && a.approvals == b.approvals
      && a.sources == b.sources && a.plans == b.plans && a.pins == b.pins
  {
  }

  lemma RequestsReturnExactly(s: State)
    requires s.requests.Keys <= s.orders.Keys
    ensures RefillRun(DropRun(s.requests), s.orders) == s.requests
       <==> forall id <- s.requests :: s.requests[id].run == Some(s.orders[id].run)
  {
    var r := RefillRun(DropRun(s.requests), s.orders);
    if r == s.requests {
      forall id | id in s.requests ensures s.requests[id].run == Some(s.orders[id].run) {
        assert r[id].run == Some(s.orders[id].run);
      }
    }
  }

  /* ---------- All four in a row ---------- */

  lemma RootedIsMirrored(s: State)
    requires Original(s)
    ensures Mirrored(Rooted(s)) && MandatedOnly(Rooted(s)) == Rooted(s)
  {
    var t := Rooted(s);
    RootedAllMandated(s.jobs, s.requests);
    RootedAllMandated(s.approvals, s.requests);
    RootedAllMandated(s.sources, s.requests);
    forall id | id in t.pins ensures Mandated(t.requests, t.pins[id].order) {
      assert s.pins[id].plan.value in s.plans;
    }
    assert MandatedOnly(t).pins == t.pins;
    assert MandatedOnly(t).orders == t.orders;
  }

  lemma RootedAllMandated<T(!new)>(rows: Table<T>, requests: map<Id, Request>)
    requires PointsAtRequests(rows, requests)
    ensures Surviving(OrderFromRequest(rows), requests) == OrderFromRequest(rows)
    ensures PointersAgree(OrderFromRequest(rows), requests)
  {
  }

  /** Both up, both down: the original rows, exactly when every pin hung off the latest plan. */
  lemma FourMigrationsRoundTrip(latest: (Plans, Id) -> Option<Id>, s: State)
    requires Original(s) && Chooses(latest)
    ensures Unrooted(latest, Restored(Stripped(Rooted(s)))) == s
       <==> forall id <- s.pins :: latest(s.plans, s.plans[s.pins[id].plan.value].request) == s.pins[id].plan
  {
    RootedIsMirrored(s);
    RestoredExactly(Rooted(s));
    UnrootedRestoresExactly(latest, s);
  }

  /** After 0064 down, 0054 down deletes nothing: every row left has a request, and it exists. */
  lemma NothingLeftToDelete(s: State)
    requires RootedShape(s)
    ensures var t := Restored(Stripped(s));
            && (forall id <- t.jobs :: t.jobs[id].request.Some? && t.jobs[id].request.value in t.requests)
            && (forall id <- t.approvals :: t.approvals[id].request.Some? && t.approvals[id].request.value in t.requests)
            && (forall id <- t.sources :: t.sources[id].request.Some? && t.sources[id].request.value in t.requests)
            && t.orders.Keys == t.requests.Keys
  {
  }

  /** A run planned twice, a skill pinned by the first plan. */
  function PlannedTwice(): State {
    State(map[7 := Request(Some(RunColumns(1, 0, true, 1.0, 0, None)), None, 0, 0)], map[], map[], map[], map[],
          map[1 := Plan(7, 100), 2 := Plan(7, 200)], map[10 := Pin(Some(1), None, 5)])
  }

  /** Its pin comes back to the second plan, from either downgrade or from both. */
  lemma PlannedTwiceExample(latest: (Plans, Id) -> Option<Id>)
    requires Chooses(latest)
    ensures Original(PlannedTwice())
    ensures Unrooted(latest, Rooted(PlannedTwice())) != PlannedTwice()
    ensures Unrooted(latest, Restored(Stripped(Rooted(PlannedTwice())))) != PlannedTwice()
  {
    var s := PlannedTwice();
    assert 2 in s.plans && s.plans[2].request == 7;
    assert latest(s.plans, 7) != Some(1);
    assert 10 in s.pins;
    UnrootedRestoresExactly(latest, s);
    FourMigrationsRoundTrip(latest, s);
  }
}
