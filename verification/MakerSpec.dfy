/** The maker's state owner as a transition system: one memory image, the last committed image,
    the file, and writes that succeed, fail, or are published and still raise. */
module MakerSpec {
  import opened Rounding
  import opened Records
  import opened AllocationLedger
  import opened Durability
  import HedgeLane
  import HedgePlan

  // ---------------------------------------------------------------- state

  datatype Reason = Named(text: int) | FillReason(cid: int, trade: int) | ReconcileReason(cid: int) | HedgeReason(cid: int)

  type HedgeFill = (int, int)

  datatype ViewState = ViewState(
    orders: map<int, SourceOrder>, active: Option<int>, seen: set<FillKey>, seenHedge: set<HedgeFill>,
    intents: map<FillKey, HedgeIntent>, halt: Option<Reason>, freeze: Option<Reason>)

  const EMPTY_VIEW := ViewState(map[], None, {}, {}, map[], None, None)

  /** What one write publishes. */
  datatype Memory = Memory(views: seq<ViewState>, ledger: Ledger, cycle: bool)

  /** `shared` adds the Taker view; one route may carry a bounded residual between cycles. */
  datatype Config = Config(shared: bool, carryRoute: Option<Route>, residualLimit: int)

  datatype Owner = Owner(memory: Memory, failed: bool, committed: Memory, disk: Option<Memory>)

  /** What an operation leaves and whether it raised. */
  datatype Result = Result(owner: Owner, raised: bool)

  function ViewCount(cfg: Config): nat {
    if cfg.shared then 3 else 2
  }

  function Empty(cfg: Config): Memory {
    Memory(seq(ViewCount(cfg), i => EMPTY_VIEW), [], false)
  }

  function Start(cfg: Config): Owner {
    Owner(Empty(cfg), false, Empty(cfg), None)
  }

  // ---------------------------------------------------------------- all views together

  function Orders(views: seq<ViewState>): map<int, SourceOrder> {
    if views == [] then map[] else Orders(views[..|views| - 1]) + views[|views| - 1].orders
  }

  function Intents(views: seq<ViewState>): map<FillKey, HedgeIntent> {
    if views == [] then map[] else Intents(views[..|views| - 1]) + views[|views| - 1].intents
  }

  function Seen(views: seq<ViewState>): set<FillKey> {
    if views == [] then {} else Seen(views[..|views| - 1]) + views[|views| - 1].seen
  }

  function BooksOf(m: Memory): Books {
    Books(Orders(m.views), Seen(m.views), Intents(m.views), m.ledger)
  }

  /** The property callers read: revoked for good by a failed publication. */
  predicate CycleFreezeOnly(o: Owner) {
    o.memory.cycle && !o.failed
  }

  predicate CommonFreeze(views: seq<ViewState>) {
    forall i, j :: 0 <= i < |views| && 0 <= j < |views| ==> views[i].freeze.Some? && views[i].freeze == views[j].freeze
  }

  // ---------------------------------------------------------------- what a write must pass

  predicate ViewSide(i: int, side: HedgePlan.Side) {
    (i == 0 ==> side.Buy?) && (i == 1 ==> side.Sell?)
  }

  predicate OrdersValid(views: seq<ViewState>) {
    && (forall i, cid :: 0 <= i < |views| && cid in views[i].orders ==>
      cid != EMPTY && views[i].orders[cid].cid == cid && ViewSide(i, views[i].orders[cid].side))
    && (forall i, j, cid :: 0 <= i < j < |views| && cid in views[i].orders ==> cid !in views[j].orders)
    && (forall i :: 0 <= i < |views| && views[i].active.Some? ==> views[i].active.value in views[i].orders)
  }

  /** Fills name an order of their own view; a fill is seen by one view, a trade by one fill. */
  predicate FillsValid(views: seq<ViewState>) {
    && (forall i, key :: 0 <= i < |views| && key in views[i].seen ==>
      key.cid in views[i].orders && key.venue != EMPTY && key.trade != EMPTY)
    && (forall i, j, key :: 0 <= i < j < |views| && key in views[i].seen ==> key !in views[j].seen)
    && (forall i, j, key, other ::
      (0 <= i < |views| && 0 <= j < |views| && key in views[i].seen && other in views[j].seen && key != other
       && AccountOf(views[i], key.cid) == AccountOf(views[j], other.cid)) ==> key.trade != other.trade)
  }

  function AccountOf(view: ViewState, cid: int): Option<int> {
    if cid in view.orders then view.orders[cid].sourceAccount else None
  }

  function HedgeAccountOf(view: ViewState, cid: int): Option<int> {
    if cid in view.orders then view.orders[cid].hedgeAccount else None
  }

  function OrderIds(i: HedgeIntent): set<int> {
    (set k | 0 <= k < |i.orderIds| :: i.orderIds[k]) + (if i.orderId.Some? then {i.orderId.value} else {})
  }

  predicate IntentsValid(views: seq<ViewState>) {
    && (forall i, key :: 0 <= i < |views| && key in views[i].intents ==>
      && views[i].intents[key].key == key && key in views[i].seen && key.cid in views[i].orders
      && views[i].intents[key].sourceSide == views[i].orders[key.cid].side)
    && (forall i, j, key, other ::
      (0 <= i < |views| && 0 <= j < |views| && key in views[i].intents && other in views[j].intents && key != other)
      ==> OrderIds(views[i].intents[key]) !! OrderIds(views[j].intents[other]))
    && (forall i, j, key ::
      (0 <= i < |views| && 0 <= j < |views| && key in views[i].intents)
      ==> OrderIds(views[i].intents[key]) !! views[j].orders.Keys)
  }

  predicate HasOrder(view: ViewState, order: int) {
    exists key :: key in view.intents && order in OrderIds(view.intents[key])
  }

  predicate HedgeFillsValid(views: seq<ViewState>) {
    && (forall i, fill :: 0 <= i < |views| && fill in views[i].seenHedge ==>
      fill.1 != EMPTY && HasOrder(views[i], fill.0))
    && (forall i, j, fill :: 0 <= i < j < |views| && fill in views[i].seenHedge ==> fill !in views[j].seenHedge)
    && (forall i, j :: 0 <= i < |views| && 0 <= j < |views| ==> HedgeTradesDistinct(views[i], views[j]))
  }

  /** Within one hedge account a trade is one fill. */
  predicate HedgeTradesDistinct(a: ViewState, b: ViewState) {
    forall fill, other :: fill in a.seenHedge && other in b.seenHedge && fill != other && fill.1 == other.1 ==>
      forall key, peer :: (key in a.intents && fill.0 in OrderIds(a.intents[key])
                           && peer in b.intents && other.0 in OrderIds(b.intents[peer])) ==>
        HedgeAccountOf(a, key.cid) != HedgeAccountOf(b, peer.cid)
  }

  predicate IdentitiesValid(views: seq<ViewState>) {
    OrdersValid(views) && FillsValid(views) && IntentsValid(views) && HedgeFillsValid(views)
  }

  /** The checks before a write: provenance, identities, then the ledger against its facts. */
  ghost predicate MemoryValid(cfg: Config, m: Memory) {
    && |m.views| == ViewCount(cfg)
    && (m.cycle ==> CommonFreeze(m.views))
    && IdentitiesValid(m.views)
    && BooksValid(BooksOf(m))
  }

  // ---------------------------------------------------------------- writing

  /** An operation either ends by itself, or changes memory and tries to publish it. */
  datatype Attempt = Nothing(raised: bool) | Change(memory: Memory)

  /** After a failed publication no later write can publish the revoked permission. */
  function Candidate(o: Owner, m: Memory): Memory {
    if o.failed then m.(cycle := false) else m
  }

  /** `m` is what the operation has done to memory; a failed check or write takes it back. */
  function Persist(o: Owner, m: Memory, valid: bool, w: WriteOutcome): Result {
    if !valid then Result(o.(memory := o.committed), true)
    else
      match w
      case Written => Result(Owner(m, o.failed, m, Some(m)), false)
      case NotWritten => Result(o.(memory := o.committed), true)
      case PublishedButRaised => Result(Owner(m, true, m, Some(m)), true)
  }

  // ---------------------------------------------------------------- freezes

  function FreezeView(view: ViewState, reason: Reason): ViewState {
    if view.freeze == None then view.(freeze := Some(reason)) else view
  }

  /** One view, or every view. */
  function SetFreezes(views: seq<ViewState>, reason: Reason, which: Option<nat>): seq<ViewState> {
    seq(|views|, i requires 0 <= i < |views| =>
      if which == None || which == Some(i) then FreezeView(views[i], reason) else views[i])
  }

  /** An external hold: on one view or on all of them. */
  function Freeze(o: Owner, reason: Reason, which: Option<nat>): Attempt {
    if reason == Named(EMPTY) then Nothing(true)
    else
      var m := o.memory.(views := SetFreezes(o.memory.views, reason, which), cycle := false);
      if m == o.memory then Nothing(false) else Change(m)
  }

  predicate Terminal(status: SourceStatus) {
    status.Filled? || status.Denied? || status.Rejected? || status.Canceled? || status.Expired?
  }

  /** Only the carry route may keep a residual, and only a bounded one. */
  ghost predicate Admissible(cfg: Config, ledger: Ledger) {
    forall route :: Balance(ledger, route) != 0 ==>
      Some(route) == cfg.carryRoute && Abs(Balance(ledger, route)) <= cfg.residualLimit
  }

  predicate AllCompleted(view: ViewState) {
    forall key :: key in view.intents ==> view.intents[key].status.Completed?
  }

  predicate AllHedged(view: ViewState) {
    forall key :: key in view.intents ==> view.intents[key].quantity == view.intents[key].filled
  }

  predicate CycleComplete(view: ViewState) {
    && view.halt == None && view.active == None
    && (forall cid :: cid in view.orders ==> Terminal(view.orders[cid].status))
    && AllCompleted(view) && AllHedged(view)
  }

  predicate OneReason(views: seq<ViewState>) {
    && (exists i :: 0 <= i < |views| && views[i].freeze.Some?)
    && (forall i, j :: 0 <= i < |views| && 0 <= j < |views| && views[i].freeze.Some? && views[j].freeze.Some? ==>
      views[i].freeze == views[j].freeze)
  }

  ghost predicate MayClear(cfg: Config, o: Owner) {
    && !o.failed && Admissible(cfg, o.memory.ledger) && OneReason(o.memory.views)
    && forall i :: 0 <= i < |o.memory.views| ==> CycleComplete(o.memory.views[i])
  }

  function Unfrozen(views: seq<ViewState>): seq<ViewState> {
    seq(|views|, i requires 0 <= i < |views| => views[i].(freeze := None))
  }

  ghost function Clear(cfg: Config, o: Owner): Attempt {
    if !MayClear(cfg, o) then Nothing(false)
    else Change(o.memory.(views := Unfrozen(o.memory.views), cycle := false))
  }

  // ---------------------------------------------------------------- source orders and fills

  function WithView(m: Memory, v: nat, view: ViewState): Memory
    requires v < |m.views|
  {
    m.(views := m.views[v := view])
  }

  ghost predicate CanSubmit(cfg: Config, m: Memory, v: nat)
    requires v < |m.views|
  {
    var view := m.views[v];
    view.halt == None && view.freeze == None && view.active == None && Admissible(cfg, m.ledger)
    && AllHedged(view) && AllCompleted(view)
  }

  predicate OrderAcceptable(order: SourceOrder, freeze: Option<Reason>) {
    && order.quantity > 0 && freeze != Some(Named(EMPTY))
    && (order.hedgePosition.Some? <==> order.hedgePositionQuantity.Some?)
    && order.hedgePosition != Some("") && (order.hedgePositionQuantity.Some? ==> order.hedgePositionQuantity.value > 0)
    && order.filled == 0 && order.status.Submitting?
  }

  ghost function BeginSource(cfg: Config, o: Owner, v: nat, order: SourceOrder, freeze: Option<Reason>): Attempt
    requires v < |o.memory.views|
  {
    if !CanSubmit(cfg, o.memory, v) || !OrderAcceptable(order, freeze) then Nothing(true)
    else
      var view := o.memory.views[v];
      Change(WithView(o.memory, v, view.(orders := view.orders[order.cid := order], active := Some(order.cid), freeze := freeze)))
  }

  function StatusUpdated(view: ViewState, cid: int, status: SourceStatus): ViewState
    requires cid in view.orders
  {
    view.(orders := view.orders[cid := view.orders[cid].(status := status)],
          active := if (status.Denied? || status.Filled? || status.Rejected?) && view.active == Some(cid)
                    then None else view.active,
          halt := if (status.Canceled? || status.Expired?) && view.halt == None
                  then Some(ReconcileReason(cid)) else view.halt)
  }

  function UpdateSourceStatus(o: Owner, v: nat, cid: int, status: SourceStatus): Attempt
    requires v < |o.memory.views|
  {
    if cid !in o.memory.views[v].orders then Nothing(false)
    else Change(WithView(o.memory, v, StatusUpdated(o.memory.views[v], cid, status)))
  }

  /** A canceled or expired order is confirmed: its hold on the view ends. */
  function Confirmed(view: ViewState, cid: int): ViewState {
    view.(active := if view.active == Some(cid) then None else view.active,
          halt := if view.halt == Some(ReconcileReason(cid)) then None else view.halt)
  }

  function ConfirmSource(o: Owner, v: nat, cid: int): Attempt
    requires v < |o.memory.views|
  {
    var view := o.memory.views[v];
    if cid !in view.orders || !(view.orders[cid].status.Canceled? || view.orders[cid].status.Expired?) then Nothing(true)
    else Change(WithView(o.memory, v, Confirmed(view, cid)))
  }

  /** What became of a source order is not known; the view halts, even for an order it does not know. */
  function Doubted(view: ViewState, cid: int, reason: Reason): ViewState {
    view.(orders := if cid in view.orders then view.orders[cid := view.orders[cid].(status := Unknown)] else view.orders,
          halt := Some(reason))
  }

  function DoubtSource(o: Owner, v: nat, cid: int, reason: Reason): Attempt
    requires v < |o.memory.views|
  {
    Change(WithView(o.memory, v, Doubted(o.memory.views[v], cid, reason)))
  }

  /** A fill may open the cycle's own freeze, unless an external one already holds. */
  predicate OpensCycle(o: Owner) {
    && !o.failed && (forall i :: 0 <= i < |o.memory.views| ==> o.memory.views[i].halt == None)
    && (CycleFreezeOnly(o) || forall i :: 0 <= i < |o.memory.views| ==> o.memory.views[i].freeze == None)
  }

  function FilledStatus(order: SourceOrder, fill: int): SourceStatus {
    if order.filled + fill >= order.quantity then Filled else PartiallyFilled
  }

  /** The view's part of a reservation: total, status, identity and, when ounces accrue, the
      obligation. */
  function FillRecorded(view: ViewState, key: FillKey, fill: int, owed: int): ViewState
    requires key.cid in view.orders
  {
    var order := view.orders[key.cid];
    var status := FilledStatus(order, fill);
    var releases := status.Filled? && view.active == Some(key.cid);
    view.(orders := view.orders[key.cid := order.(filled := order.filled + fill, status := status)],
          seen := view.seen + {key},
          active := if releases then None else view.active,
          halt := if releases && view.halt == Some(ReconcileReason(key.cid)) then None else view.halt,
          intents := if owed == 0 then view.intents else view.intents[key := NewIntent(order, key, fill, owed)])
  }

  function Reserved(m: Memory, v: nat, key: FillKey, fill: int): Memory
    requires v < |m.views| && key.cid in m.views[v].orders
  {
    var order := m.views[v].orders[key.cid];
    var signed := HedgePlan.Signed(order.side, fill);
    var owed := Obligation(m.ledger, RouteOf(order), signed);
    WithView(m, v, FillRecorded(m.views[v], key, fill, owed)).(ledger := Allocate(m.ledger, key, RouteOf(order), signed))
  }

  function ReserveSourceFill(o: Owner, v: nat, key: FillKey, side: HedgePlan.Side, fill: int): Attempt
    requires v < |o.memory.views|
  {
    var view := o.memory.views[v];
    if key in view.seen || key.cid !in view.orders then Nothing(false)
    else if view.orders[key.cid].side != side || fill <= 0 then Nothing(true)
    else
      var m := o.memory.(cycle := o.memory.cycle || OpensCycle(o),
                         views := SetFreezes(o.memory.views, FillReason(key.cid, key.trade), None));
      Change(Reserved(m, v, key, fill))
  }

  // ---------------------------------------------------------------- the hedge side

  datatype HedgeChange =
    | HedgeFilled(order: int, trade: int, quantity: int)
    | HedgeStatus(order: int, status: ObligationStatus)
    | PlanBound(plan: seq<HedgePlan.Leg>)
    | OrderBound(order: int)
    | PlanBlocked(reason: int)

  /** Order events concern the obligation whose current order they name, each trade once. */
  predicate Concerns(view: ViewState, key: FillKey, change: HedgeChange) {
    match change
    case HedgeFilled(order, trade, _) =>
      key in view.intents && view.intents[key].orderId == Some(order) && (order, trade) !in view.seenHedge
    case HedgeStatus(order, _) =>
      key in view.intents && view.intents[key].orderId == Some(order) && !HedgeLane.Stopped(view.intents[key].status)
    case _ => true
  }

  function UsedIds(view: ViewState): set<int> {
    set key, id | key in view.intents && id in OrderIds(view.intents[key]) :: id
  }

  function IntentChanged(view: ViewState, i: HedgeIntent, change: HedgeChange): Option<HedgeIntent> {
    match change
    case HedgeFilled(_, _, quantity) => HedgeLane.ApplyFill(i, quantity)
    case HedgeStatus(_, status) => HedgeLane.UpdateStatus(i, status)
    case PlanBound(plan) => HedgeLane.BindPlan(i, plan)
    case OrderBound(order) => HedgeLane.BindOrder(i, order, UsedIds(view))
    case PlanBlocked(reason) => if reason == EMPTY then None else HedgeLane.Block(i)
  }

  /** The view with the changed record, the seen hedge fill and any halt it calls for. */
  function HedgeChanged(view: ViewState, key: FillKey, i: HedgeIntent, change: HedgeChange): ViewState {
    var halts :=
      match change
      case HedgeFilled(_, _, _) => i.status.Blocked?
      case HedgeStatus(_, status) => status.HedgeRejected? || status.HedgeUnknown?
      case PlanBlocked(_) => true
      case _ => false;
    view.(intents := view.intents[key := i],
          seenHedge := if change.HedgeFilled? then view.seenHedge + {(change.order, change.trade)} else view.seenHedge,
          halt := if halts then Some(HaltFor(key, change)) else view.halt)
  }

  function HaltFor(key: FillKey, change: HedgeChange): Reason {
    match change
    case HedgeFilled(order, _, _) => HedgeReason(order)
    case HedgeStatus(order, _) => HedgeReason(order)
    case _ => HedgeReason(key.trade)
  }

  function ChangeHedge(o: Owner, v: nat, key: FillKey, change: HedgeChange): Attempt
    requires v < |o.memory.views|
  {
    var view := o.memory.views[v];
    if !Concerns(view, key, change) then Nothing(false)
    else if key !in view.intents then Nothing(true)
    else
      match IntentChanged(view, view.intents[key], change)
      case None => Nothing(true)
      case Some(i) =>
        if change.PlanBound? && i == view.intents[key] then Nothing(false)
        else Change(WithView(o.memory, v, HedgeChanged(view, key, i, change)))
  }

  // ---------------------------------------------------------------- one operation

  datatype Operation =
    | DoFreeze(reason: Reason, which: Option<nat>)
    | DoClear
    | DoBegin(v: nat, order: SourceOrder, hold: Option<Reason>)
    | DoStatus(v: nat, cid: int, status: SourceStatus)
    | DoConfirm(v: nat, cid: int)
    | DoDoubt(v: nat, cid: int, doubt: Reason)
    | DoReserve(v: nat, key: FillKey, side: HedgePlan.Side, fill: int)
    | DoHedge(v: nat, key: FillKey, change: HedgeChange)

  predicate Names(m: Memory, op: Operation) {
    match op
    case DoFreeze(_, which) => m.views != [] && (which.Some? ==> which.value < |m.views|)
    case DoClear => true
    case _ => op.v < |m.views|
  }

  ghost function Try(cfg: Config, o: Owner, op: Operation): Attempt
    requires Names(o.memory, op)
  {
    match op
    case DoFreeze(reason, which) => Freeze(o, reason, which)
    case DoClear => Clear(cfg, o)
    case DoBegin(v, order, hold) => BeginSource(cfg, o, v, order, hold)
    case DoStatus(v, cid, status) => UpdateSourceStatus(o, v, cid, status)
    case DoConfirm(v, cid) => ConfirmSource(o, v, cid)
    case DoDoubt(v, cid, doubt) => DoubtSource(o, v, cid, doubt)
    case DoReserve(v, key, side, fill) => ReserveSourceFill(o, v, key, side, fill)
    case DoHedge(v, key, change) => ChangeHedge(o, v, key, change)
  }

  /** A freeze whose write raises also revokes the permission for good. */
  function Finish(o: Owner, op: Operation, a: Attempt, valid: bool, w: WriteOutcome): Result {
    match a
    case Nothing(raised) => Result(o, raised)
    case Change(m) =>
      var r := Persist(o, Candidate(o, m), valid, w);
      if op.DoFreeze? && r.raised then Result(r.owner.(failed := true), true) else r
  }

  ghost predicate Publishable(cfg: Config, o: Owner, a: Attempt) {
    a.Change? && MemoryValid(cfg, Candidate(o, a.memory))
  }

  ghost function Step(cfg: Config, o: Owner, op: Operation, w: WriteOutcome): Result
    requires Names(o.memory, op)
  {
    var a := Try(cfg, o, op);
    Finish(o, op, a, Publishable(cfg, o, a), w)
  }
}
