/** What each operation of the state owner takes and what it leaves. */
module MakerEffects {
  import opened Rounding
  import opened Records
  import opened AllocationLedger
  import opened Durability
  import opened MakerSpec
  import opened MakerSafety
  import opened CycleEvidence
  import HedgeLane
  import HedgePlan

  // ---------------------------------------------------------------- publication

  /** The image an operation tries to publish; a revoked permission is never among it. */
  function Proposed(o: Owner, m: Memory): Memory {
    Memory(m.views, m.ledger, m.cycle && !o.failed)
  }

  /** A change is published only if it passes every check and the write succeeds; if not, memory is
      back as it was, and an external freeze still revokes.  A write that was published and raised
      leaves the change and revokes. */
  lemma EveryOutcome(cfg: Config, o: Owner, op: Operation, m: Memory, w: WriteOutcome, r: Result)
    requires Agreed(cfg, o) && Names(o.memory, op) && Try(cfg, o, op) == Change(m) && r == Step(cfg, o, op, w)
    ensures
      var image := Proposed(o, m);
      if MemoryValid(cfg, image) && w == Written then r == Result(Owner(image, o.failed, image, Some(image)), false)
      else if MemoryValid(cfg, image) && w == PublishedButRaised then r == Result(Owner(image, true, image, Some(image)), true)
      else r == Result(o.(failed := o.failed || op.DoFreeze?), true)
  {
    assert Candidate(o, m) == Proposed(o, m);
  }

  // ---------------------------------------------------------------- freezing

  predicate SomeUnfrozen(views: seq<ViewState>) {
    exists i :: 0 <= i < |views| && views[i].freeze == None
  }

  /** A freeze needs a reason; it sets it on the named views that have none, and ends the permission. */
  lemma FreezeLeaves(o: Owner, reason: Reason, which: Option<nat>)
    requires Names(o.memory, DoFreeze(reason, which))
    ensures Freeze(o, reason, which) == Nothing(true) <==> reason == Named(EMPTY)
    ensures Freeze(o, reason, which).Change? ==>
      var m := Freeze(o, reason, which).memory;
      && m.ledger == o.memory.ledger && !m.cycle && |m.views| == |o.memory.views|
      && forall i :: 0 <= i < |m.views| ==>
           m.views[i] == if (which == None || which == Some(i)) && o.memory.views[i].freeze == None
                         then o.memory.views[i].(freeze := Some(reason)) else o.memory.views[i]
    ensures reason != Named(EMPTY) && (o.memory.cycle || (which == None && SomeUnfrozen(o.memory.views))) ==>
      Freeze(o, reason, which).Change?
  {
    var views := MakerSpec.SetFreezes(o.memory.views, reason, which);
    if which == None && reason != Named(EMPTY) {
      if i :| 0 <= i < |o.memory.views| && o.memory.views[i].freeze == None {
        assert views[i] != o.memory.views[i];
      }
    }
  }

  // ---------------------------------------------------------------- beginning an order

  /** The view is free: nothing halted, frozen or active, and every obligation hedged in full. */
  ghost predicate ViewFree(cfg: Config, m: Memory, v: nat)
    requires v < |m.views|
  {
    var view := m.views[v];
    && view.halt == None && view.freeze == None && view.active == None && ResidualsBounded(cfg, m.ledger)
    && forall key :: key in view.intents ==>
         view.intents[key].status == Completed && view.intents[key].filled == view.intents[key].quantity
  }

  predicate OrderFits(order: SourceOrder, hold: Option<Reason>) {
    && order.quantity > 0 && order.filled == 0 && order.status == Submitting && hold != Some(Named(EMPTY))
    && match order.hedgePosition
       case None => order.hedgePositionQuantity == None
       case Some(id) => id != "" && order.hedgePositionQuantity.Some? && order.hedgePositionQuantity.value > 0
  }

  /** An order is begun exactly in a free view; it becomes the active one, and may come with a hold. */
  lemma BeginLeaves(cfg: Config, o: Owner, v: nat, order: SourceOrder, hold: Option<Reason>)
    requires v < |o.memory.views|
    ensures BeginSource(cfg, o, v, order, hold) ==
      if !(ViewFree(cfg, o.memory, v) && OrderFits(order, hold)) then Nothing(true)
      else
        var view := o.memory.views[v];
        var orders := view.orders[order.cid := order];
        var begun := ViewState(orders, Some(order.cid), view.seen, view.seenHedge, view.intents, None, hold);
        Change(Memory(o.memory.views[v := begun], o.memory.ledger, o.memory.cycle))
  {
  }

  // ---------------------------------------------------------------- what becomes of an order

  predicate Among(status: SourceStatus, statuses: set<SourceStatus>) {
    status in statuses
  }

  /** A reported status; one that ends the order without doubt frees the view, a cancel or an expiry
      halts it until the order is confirmed. */
  lemma StatusLeaves(o: Owner, v: nat, cid: int, status: SourceStatus)
    requires v < |o.memory.views|
    ensures
      var view := o.memory.views[v];
      UpdateSourceStatus(o, v, cid, status) ==
        if cid !in view.orders then Nothing(false)
        else
          var order := view.orders[cid].(status := status);
          var active := if view.active == Some(cid) && Among(status, {Denied, Filled, Rejected}) then None else view.active;
          var halt := if view.halt == None && Among(status, {Canceled, Expired}) then Some(ReconcileReason(cid)) else view.halt;
          var after := ViewState(view.orders[cid := order], active, view.seen, view.seenHedge, view.intents, halt, view.freeze);
          Change(Memory(o.memory.views[v := after], o.memory.ledger, o.memory.cycle))
  {
  }

  /** Only a canceled or expired order can be confirmed; that frees the view of it and of its halt. */
  lemma ConfirmLeaves(o: Owner, v: nat, cid: int)
    requires v < |o.memory.views|
    ensures
      var view := o.memory.views[v];
      ConfirmSource(o, v, cid) ==
        if cid in view.orders && Among(view.orders[cid].status, {Canceled, Expired}) then
          var active := if view.active == Some(cid) then None else view.active;
          var halt := if view.halt == Some(ReconcileReason(cid)) then None else view.halt;
          var after := ViewState(view.orders, active, view.seen, view.seenHedge, view.intents, halt, view.freeze);
          Change(Memory(o.memory.views[v := after], o.memory.ledger, o.memory.cycle))
        else Nothing(true)
  {
  }

  /** A doubt makes a known order's status unknown and halts the view, for an unknown order too. */
  lemma DoubtLeaves(o: Owner, v: nat, cid: int, reason: Reason)
    requires v < |o.memory.views|
    ensures
      var view := o.memory.views[v];
      var orders := if cid in view.orders then view.orders[cid := view.orders[cid].(status := Unknown)] else view.orders;
      var after := ViewState(orders, view.active, view.seen, view.seenHedge, view.intents, Some(reason), view.freeze);
      DoubtSource(o, v, cid, reason) == Change(Memory(o.memory.views[v := after], o.memory.ledger, o.memory.cycle))
  {
  }

  // ---------------------------------------------------------------- a source fill

  /** What a fill leaves of its order. */
  predicate OrderFilled(order: SourceOrder, after: SourceOrder, fill: int) {
    && after == order.(filled := after.filled, status := after.status) && after.filled == order.filled + fill
    && (if after.filled < order.quantity then after.status == PartiallyFilled else after.status == Filled)
  }

  /** The obligation a fill owes: the opposite side, for as many ounces as its allocation. */
  predicate Owes(order: SourceOrder, key: FillKey, fill: int, owed: int, i: HedgeIntent) {
    && i.key == key && i.sourceSide == order.side && i.sourceFill == fill
    && i.hedgeSide == (if owed > 0 then HedgePlan.Sell else HedgePlan.Buy) && i.quantity == (if owed > 0 then owed else -owed)
    && i.position == order.hedgePosition && i.positionQuantity == order.hedgePositionQuantity
    && i.status == Pending && i.orderId == None && i.orderIds == []
    && i.filled == 0 && i.plan == [] && i.legIndex == 0 && i.legFilled == 0
  }

  /** The view of a recorded fill, but for its freeze. */
  ghost predicate ViewFilled(view: ViewState, after: ViewState, key: FillKey, fill: int, owed: int)
    requires key.cid in view.orders
  {
    var order := view.orders[key.cid];
    var ends := view.active == Some(key.cid) && order.filled + fill >= order.quantity;
    && after.orders.Keys == view.orders.Keys && OrderFilled(order, after.orders[key.cid], fill)
    && (forall cid :: cid in view.orders && cid != key.cid ==> after.orders[cid] == view.orders[cid])
    && after.seen == view.seen + {key} && after.seenHedge == view.seenHedge
    && after.active == (if ends then None else view.active)
    && after.halt == (if ends && view.halt == Some(ReconcileReason(key.cid)) then None else view.halt)
    && (if owed == 0 then after.intents == view.intents
        else after.intents.Keys == view.intents.Keys + {key} && Owes(order, key, fill, owed, after.intents[key])
             && forall k :: k in view.intents && k != key ==> after.intents[k] == view.intents[k])
  }

  lemma RecordLeaves(view: ViewState, key: FillKey, fill: int, owed: int)
    requires key.cid in view.orders
    ensures ViewFilled(view, FillRecorded(view, key, fill, owed), key, fill, owed)
    ensures FillRecorded(view, key, fill, owed).freeze == view.freeze
  {
  }

  /** A fill that is new and of a known order is refused only for its side or its size. */
  lemma ReserveTakesIff(o: Owner, v: nat, key: FillKey, side: HedgePlan.Side, fill: int)
    requires v < |o.memory.views|
    ensures
      var view := o.memory.views[v];
      var r := ReserveSourceFill(o, v, key, side, fill);
      if key in view.seen || key.cid !in view.orders then r == Nothing(false)
      else if view.orders[key.cid].side != side || fill <= 0 then r == Nothing(true)
      else r.Change?
  {
  }

  predicate AppendsFill(ledger: Ledger, after: Ledger, order: SourceOrder, key: FillKey, fill: int) {
    && |after| == |ledger| + 1 && after[..|ledger|] == ledger
    && after[|ledger|].key == key && after[|ledger|].route == RouteOf(order)
    && after[|ledger|].signed == (if order.side == HedgePlan.Buy then fill else -fill)
  }

  /** It is recorded once: in its order and view, as the last allocation of its route, and as one
      obligation when whole ounces are owed; and every view that was not frozen is, for this fill. */
  lemma ReserveLeaves(o: Owner, v: nat, key: FillKey, side: HedgePlan.Side, fill: int, m: Memory)
    requires v < |o.memory.views| && ReserveSourceFill(o, v, key, side, fill) == Change(m)
    ensures |m.views| == |o.memory.views| && AppendsFill(o.memory.ledger, m.ledger, o.memory.views[v].orders[key.cid], key, fill)
    ensures ViewFilled(o.memory.views[v], m.views[v], key, fill, m.ledger[|o.memory.ledger|].owed)
    ensures forall i :: 0 <= i < |m.views| ==>
      var before := o.memory.views[i].freeze;
      m.views[i].freeze == if before == None then Some(FillReason(key.cid, key.trade)) else before
    ensures forall i :: 0 <= i < |m.views| && i != v ==> m.views[i].(freeze := None) == o.memory.views[i].(freeze := None)
  {
    var frozen := MakerSpec.SetFreezes(o.memory.views, FillReason(key.cid, key.trade), None);
    var order := o.memory.views[v].orders[key.cid];
    var owed := m.ledger[|o.memory.ledger|].owed;
    RecordLeaves(frozen[v], key, fill, owed);
    assert m.views == frozen[v := FillRecorded(frozen[v], key, fill, owed)];
    OnlyFrozen(o.memory.views[v], frozen[v], m.views[v], key, fill, owed);
  }

  lemma OnlyFrozen(view: ViewState, frozen: ViewState, after: ViewState, key: FillKey, fill: int, owed: int)
    requires key.cid in view.orders && frozen == view.(freeze := frozen.freeze) && ViewFilled(frozen, after, key, fill, owed)
    ensures ViewFilled(view, after, key, fill, owed)
  {
  }

  // ---------------------------------------------------------------- the permission

  predicate Untroubled(views: seq<ViewState>) {
    forall i :: 0 <= i < |views| ==> views[i].halt == None && views[i].freeze == None
  }

  lemma OpensIff(o: Owner, op: Operation, a: Attempt, valid: bool, w: WriteOutcome, after: Owner)
    requires o.memory == o.committed && !(o.memory.cycle && !o.failed) && after == Finish(o, op, a, valid, w).owner
    requires a.Change? && a.memory.cycle ==> op.DoReserve? && (o.memory.cycle || Untroubled(o.memory.views))
    requires a.Change? && op.DoReserve? && !o.failed && Untroubled(o.memory.views) ==> a.memory.cycle
    ensures after.memory.cycle && !after.failed <==>
      op.DoReserve? && after.memory != o.memory && w == Written && !o.failed && Untroubled(o.memory.views)
  {
  }

  lemma CycleOf(cfg: Config, o: Owner, op: Operation, a: Attempt)
    requires Names(o.memory, op) && a == Try(cfg, o, op) && !CycleFreezeOnly(o) && !o.failed
    ensures a.Change? && a.memory.cycle ==> op.DoReserve? && (o.memory.cycle || Untroubled(o.memory.views))
    ensures a.Change? && op.DoReserve? && Untroubled(o.memory.views) ==> a.memory.cycle
  {
  }

  /** The permission comes up exactly with a fill that is published while no view is halted or frozen
      and no publication has failed. */
  lemma PermissionOpensIff(cfg: Config, o: Owner, op: Operation, w: WriteOutcome, after: Owner)
    requires Agreed(cfg, o) && Names(o.memory, op) && !CycleFreezeOnly(o) && after == Step(cfg, o, op, w).owner
    ensures CycleFreezeOnly(after) <==>
      op.DoReserve? && after.memory != o.memory && w == Written && !o.failed && Untroubled(o.memory.views)
  {
    var a := Try(cfg, o, op);
    if o.failed {
      FailureStays(o, op, a, Publishable(cfg, o, a), w);
    } else {
      CycleOf(cfg, o, op, a);
      OpensIff(o, op, a, Publishable(cfg, o, a), w, after);
    }
  }

  lemma ClosesIff(o: Owner, op: Operation, a: Attempt, valid: bool, w: WriteOutcome, after: Owner)
    requires o.memory == o.committed && o.memory.cycle && !o.failed && after == Finish(o, op, a, valid, w).owner
    requires a.Change? ==> a.memory.cycle == !(op.DoClear? || op.DoFreeze?)
    requires op.DoFreeze? ==> (a.Change? <==> op.reason != Named(EMPTY))
    ensures !(after.memory.cycle && !after.failed) <==>
      || (op.DoFreeze? && op.reason != Named(EMPTY))
      || (after.memory != o.memory && op.DoClear?)
      || (a.Change? && valid && w == PublishedButRaised)
  {
  }

  /** It goes exactly with an external freeze, however that ends; with a clear that is published; or
      with any publication that raises. */
  lemma PermissionClosesIff(cfg: Config, o: Owner, op: Operation, w: WriteOutcome, after: Owner)
    requires Agreed(cfg, o) && Names(o.memory, op) && CycleFreezeOnly(o) && after == Step(cfg, o, op, w).owner
    ensures !CycleFreezeOnly(after) <==>
      || (op.DoFreeze? && op.reason != Named(EMPTY))
      || (after.memory != o.memory && op.DoClear?)
      || (Publishable(cfg, o, Try(cfg, o, op)) && w == PublishedButRaised)
  {
    var a := Try(cfg, o, op);
    CycleStays(cfg, o, op, a);
    ClosesIff(o, op, a, Publishable(cfg, o, a), w, after);
  }

  lemma CycleStays(cfg: Config, o: Owner, op: Operation, a: Attempt)
    requires Names(o.memory, op) && a == Try(cfg, o, op) && o.memory.cycle
    ensures a.Change? ==> a.memory.cycle == !(op.DoClear? || op.DoFreeze?)
    ensures op.DoFreeze? ==> (a.Change? <==> op.reason != Named(EMPTY))
  {
  }

  // ---------------------------------------------------------------- a hedge operation

  function WithHedge(m: Memory, v: nat, key: FillKey, j: HedgeIntent, seen: set<HedgeFill>, halt: Option<Reason>): Attempt
    requires v < |m.views|
  {
    var view := m.views[v];
    Change(Memory(m.views[v := ViewState(view.orders, view.active, view.seen, seen, view.intents[key := j], halt, view.freeze)],
                  m.ledger, m.cycle))
  }

  predicate CurrentOrder(view: ViewState, key: FillKey, order: int) {
    key in view.intents && view.intents[key].orderId == Some(order)
  }

  /** A hedge fill counts once and only for the obligation's current order; one that blocks the
      obligation halts the view. */
  lemma HedgeFillLeaves(o: Owner, v: nat, key: FillKey, order: int, trade: int, quantity: int)
    requires v < |o.memory.views|
    ensures
      var view := o.memory.views[v];
      ChangeHedge(o, v, key, HedgeFilled(order, trade, quantity)) ==
        if !CurrentOrder(view, key, order) || (order, trade) in view.seenHedge then Nothing(false)
        else
          match HedgeLane.ApplyFill(view.intents[key], quantity)
          case None => Nothing(true)
          case Some(j) =>
            WithHedge(o.memory, v, key, j, view.seenHedge + {(order, trade)},
                      if j.status == Blocked then Some(HedgeReason(order)) else view.halt)
  {
  }

  /** A status reaches only the current order of an obligation that has not stopped; a rejected or
      unknown one halts the view. */
  lemma HedgeStatusLeaves(o: Owner, v: nat, key: FillKey, order: int, status: ObligationStatus)
    requires v < |o.memory.views|
    ensures
      var view := o.memory.views[v];
      ChangeHedge(o, v, key, HedgeStatus(order, status)) ==
        if !CurrentOrder(view, key, order) || view.intents[key].status in {Blocked, HedgeRejected, HedgeUnknown} then Nothing(false)
        else
          match HedgeLane.UpdateStatus(view.intents[key], status)
          case None => Nothing(true)
          case Some(j) =>
            WithHedge(o.memory, v, key, j, view.seenHedge,
                      if status == HedgeRejected || status == HedgeUnknown then Some(HedgeReason(order)) else view.halt)
  {
  }

  /** A plan is published only when it is new; an order only under an ID no obligation of the view has
      used; a block always halts the view. */
  lemma HedgePlanningLeaves(o: Owner, v: nat, key: FillKey, plan: seq<HedgePlan.Leg>, order: int, reason: int)
    requires v < |o.memory.views| && key in o.memory.views[v].intents
    ensures
      var view, i := o.memory.views[v], o.memory.views[v].intents[key];
      && (match HedgeLane.BindPlan(i, plan)
          case None => ChangeHedge(o, v, key, PlanBound(plan)) == Nothing(true)
          case Some(j) =>
            ChangeHedge(o, v, key, PlanBound(plan))
              == (if j == i then Nothing(false) else WithHedge(o.memory, v, key, j, view.seenHedge, view.halt)))
      && (reason == EMPTY ==> ChangeHedge(o, v, key, PlanBlocked(reason)) == Nothing(true))
      && (reason != EMPTY ==>
          match HedgeLane.Block(i)
          case None => ChangeHedge(o, v, key, PlanBlocked(reason)) == Nothing(true)
          case Some(j) =>
            ChangeHedge(o, v, key, PlanBlocked(reason))
              == WithHedge(o.memory, v, key, j, view.seenHedge, Some(HedgeReason(key.trade))))
  {
  }

  predicate NamesOrder(i: HedgeIntent, order: int) {
    i.orderId == Some(order) || exists k :: 0 <= k < |i.orderIds| && i.orderIds[k] == order
  }

  lemma HedgeOrderLeaves(o: Owner, v: nat, key: FillKey, order: int)
    requires v < |o.memory.views| && key in o.memory.views[v].intents
    ensures
      var view, i := o.memory.views[v], o.memory.views[v].intents[key];
      var r := ChangeHedge(o, v, key, OrderBound(order));
      var free := i.status == Pending && i.orderId == None && order != EMPTY
                  && forall k :: k in view.intents ==> !NamesOrder(view.intents[k], order);
      var j := i.(orderId := Some(order), orderIds := i.orderIds + [order], status := HedgeSubmitting);
      r == if free && HedgeLane.WellFormed(j) then WithHedge(o.memory, v, key, j, view.seenHedge, view.halt) else Nothing(true)
  {
    var view := o.memory.views[v];
    forall k | k in view.intents ensures order in OrderIds(view.intents[k]) <==> NamesOrder(view.intents[k], order) {
    }
    UsedIs(view, order);
  }

  lemma UsedIs(view: ViewState, order: int)
    ensures order in UsedIds(view) <==> exists k :: k in view.intents && order in OrderIds(view.intents[k])
  {
  }

  // An obligation the view does not know.
  lemma UnknownHedgeLeaves(o: Owner, v: nat, key: FillKey, change: HedgeChange)
    requires v < |o.memory.views| && key !in o.memory.views[v].intents
    ensures ChangeHedge(o, v, key, change) == Nothing(!(change.HedgeFilled? || change.HedgeStatus?))
  {
  }

  // ---------------------------------------------------------------- a stopped hedge halts its view

  predicate StopHalts(view: ViewState) {
    forall key :: key in view.intents && view.intents[key].status in {Blocked, HedgeRejected, HedgeUnknown} ==>
      view.halt.Some? && !view.halt.value.ReconcileReason?
  }

  ghost predicate StopsHalt(views: seq<ViewState>) {
    forall i :: 0 <= i < |views| ==> StopHalts(views[i])
  }

  /** An obligation reported as blocked, unlike one rejected or unknown, does not halt; and a doubt
      must not borrow the reason that a confirmation takes back. */
  predicate Halting(op: Operation) {
    && (op.DoHedge? && op.change.HedgeStatus? ==> op.change.status != Blocked)
    && (op.DoDoubt? ==> !op.doubt.ReconcileReason?)
  }

  lemma SameStops(view: ViewState, after: ViewState)
    requires StopHalts(view) && after.intents == view.intents
    requires after.halt == view.halt || (after.halt.Some? && !after.halt.value.ReconcileReason?)
      || view.halt == None || view.halt.value.ReconcileReason?
    ensures StopHalts(after)
  {
  }

  lemma OneStops(views: seq<ViewState>, v: nat, after: ViewState)
    requires v < |views| && StopsHalt(views) && StopHalts(after)
    ensures StopsHalt(views[v := after])
  {
  }

  lemma HedgeStops(view: ViewState, key: FillKey, change: HedgeChange, j: HedgeIntent)
    requires StopHalts(view) && key in view.intents && IntentChanged(view, view.intents[key], change) == Some(j)
    requires change.HedgeStatus? ==> change.status != Blocked && !HedgeLane.Stopped(view.intents[key].status)
    ensures StopHalts(HedgeChanged(view, key, j, change))
  {
  }

  lemma FillStops(view: ViewState, key: FillKey, fill: int, owed: int)
    requires key.cid in view.orders && StopHalts(view)
    ensures StopHalts(FillRecorded(view, key, fill, owed))
  {
  }

  lemma ReserveStops(o: Owner, v: nat, key: FillKey, side: HedgePlan.Side, fill: int, m: Memory)
    requires v < |o.memory.views| && StopsHalt(o.memory.views) && ReserveSourceFill(o, v, key, side, fill) == Change(m)
    ensures StopsHalt(m.views)
  {
    var frozen := MakerSpec.SetFreezes(o.memory.views, FillReason(key.cid, key.trade), None);
    forall i | 0 <= i < |frozen| ensures StopHalts(frozen[i]) {
      SameStops(o.memory.views[i], frozen[i]);
    }
    var owed := m.ledger[|o.memory.ledger|].owed;
    FillStops(frozen[v], key, fill, owed);
    OneStops(frozen, v, FillRecorded(frozen[v], key, fill, owed));
  }

  lemma ChangeStops(cfg: Config, o: Owner, op: Operation, m: Memory)
    requires Names(o.memory, op) && StopsHalt(o.memory.views) && Halting(op) && Try(cfg, o, op) == Change(m)
    ensures StopsHalt(m.views)
  {
    match op
    case DoReserve(v, key, side, fill) => ReserveStops(o, v, key, side, fill, m);
    case DoHedge(v, key, change) =>
      var view := o.memory.views[v];
      var j := IntentChanged(view, view.intents[key], change).value;
      HedgeStops(view, key, change, j);
      OneStops(o.memory.views, v, HedgeChanged(view, key, j, change));
    case DoFreeze(reason, which) =>
      forall i | 0 <= i < |m.views| ensures StopHalts(m.views[i]) {
        SameStops(o.memory.views[i], m.views[i]);
      }
    case DoClear =>
      forall i | 0 <= i < |m.views| ensures StopHalts(m.views[i]) {
        SameStops(o.memory.views[i], m.views[i]);
      }
    case _ =>
      SameStops(o.memory.views[op.v], m.views[op.v]);
      OneStops(o.memory.views, op.v, m.views[op.v]);
  }

  lemma StepStops(cfg: Config, o: Owner, op: Operation, w: WriteOutcome)
    requires Agreed(cfg, o) && Names(o.memory, op) && StopsHalt(o.memory.views) && Halting(op)
    ensures StopsHalt(Step(cfg, o, op, w).owner.memory.views)
  {
    var a := Try(cfg, o, op);
    if a.Change? {
      ChangeStops(cfg, o, op, a.memory);
    }
  }

  lemma RunAgrees(cfg: Config, acts: seq<Act>)
    ensures Agreed(cfg, Run(cfg, Start(cfg), acts))
  {
    EveryRunSettles(cfg, acts);
  }

  /** In every run from a fresh file in which no obligation is reported as blocked, a view with a
      blocked, rejected or unknown obligation is halted, for a reason no confirmation or fill takes
      back; so it begins no order, and no freeze is cleared. */
  lemma {:induction false} EveryStopHalts(cfg: Config, acts: seq<Act>)
    requires forall n :: 0 <= n < |acts| ==> Halting(acts[n].op)
    ensures StopsHalt(Run(cfg, Start(cfg), acts).memory.views)
    decreases |acts|
  {
    if acts != [] {
      var front, last := acts[..|acts| - 1], acts[|acts| - 1];
      EveryStopHalts(cfg, front);
      RunAgrees(cfg, front);
      var before := Run(cfg, Start(cfg), front);
      if Names(before.memory, last.op) {
        StepStops(cfg, before, last.op, last.w);
      }
    }
  }

  /** A reported block stops an obligation and halts nothing. */
  lemma BlockedReportDoesNotHalt(o: Owner, v: nat, key: FillKey, order: int, m: Memory)
    requires v < |o.memory.views| && ChangeHedge(o, v, key, HedgeStatus(order, Blocked)) == Change(m)
    ensures key in m.views[v].intents && m.views[v].intents[key].status == Blocked
    ensures m.views[v].halt == o.memory.views[v].halt
  {
  }
}
