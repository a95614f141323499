/** One hedge obligation through its life: planned once, its legs ordered and filled one at a
    time, finished exactly or stopped for good. */
module HedgeLane {
  import opened Rounding
  import opened HedgePlan
  import opened Records

  // ---------------------------------------------------------------- the record's own checks

  predicate Stopped(status: ObligationStatus) {
    status.Blocked? || status.HedgeRejected? || status.HedgeUnknown?
  }

  predicate DistinctOrders(ids: seq<int>) {
    && (forall i :: 0 <= i < |ids| ==> ids[i] != EMPTY)
    && (forall i, j :: 0 <= i < j < |ids| ==> ids[i] != ids[j])
  }

  predicate LegsAgree(plan: seq<Leg>, side: Side) {
    forall i :: 0 <= i < |plan| ==> plan[i].side == side && plan[i].quantity > 0
  }

  predicate PlanProgress(i: HedgeIntent) {
    && LegsAgree(i.plan, i.hedgeSide) && Total(i.plan) == i.quantity && i.legIndex <= |i.plan|
    && (i.legIndex == |i.plan| ==> i.legFilled == 0)
    && (i.legIndex < |i.plan| && !i.status.Blocked? ==> i.legFilled < i.plan[i.legIndex].quantity)
    && (!i.status.Blocked? ==> i.filled == Total(i.plan[..i.legIndex]) + i.legFilled)
    && (i.status.Completed? ==> i.legIndex == |i.plan| && i.filled == i.quantity)
  }

  /** A record whose construction does not raise. */
  predicate WellFormed(i: HedgeIntent) {
    && (i.positionQuantity.Some? ==> i.position.Some? && i.positionQuantity.value > 0)
    && i.quantity > 0 && i.filled >= 0 && i.legIndex <= |i.plan| && i.legFilled >= 0
    && DistinctOrders(i.orderIds)
    && (if i.plan == [] then i.legIndex == 0 && i.legFilled == 0 else PlanProgress(i))
  }

  function Made(i: HedgeIntent): Option<HedgeIntent> {
    if WellFormed(i) then Some(i) else None
  }

  // ---------------------------------------------------------------- what the store does to it

  function BindPlan(i: HedgeIntent, plan: seq<Leg>): Option<HedgeIntent> {
    if i.plan != [] then (if i.plan == plan then Some(i) else None)
    else if !i.status.Pending? || i.orderId.Some? || i.filled != 0 then None
    else if plan == [] || (exists k :: 0 <= k < |plan| && plan[k].side != i.hedgeSide) then None
    else if Total(plan) != i.quantity - i.filled then None
    else Made(i.(plan := plan, legIndex := 0, legFilled := 0))
  }

  /** `used` holds every order ID any obligation already names. */
  function BindOrder(i: HedgeIntent, cid: int, used: set<int>): Option<HedgeIntent> {
    if !i.status.Pending? || i.orderId.Some? || cid == EMPTY || cid in used then None
    else Made(i.(orderId := Some(cid), orderIds := i.orderIds + [cid], status := HedgeSubmitting))
  }

  /** A fill of the obligation's current order. */
  function ApplyFill(i: HedgeIntent, fill: int): Option<HedgeIntent> {
    if fill <= 0 then None
    else
      var filled := i.filled + fill;
      if Stopped(i.status) then
        Made(i.(filled := filled, status := Blocked,
                legFilled := if i.plan != [] && i.legIndex < |i.plan| then i.legFilled + fill else i.legFilled))
      else if i.plan == [] then
        Made(i.(filled := filled, status := if filled >= i.quantity then Completed else HedgeAccepted))
      else if i.legIndex >= |i.plan| then Made(i.(filled := filled, status := Blocked))
      else if fill != i.plan[i.legIndex].quantity - i.legFilled then
        Made(i.(filled := filled, legFilled := i.legFilled + fill, status := Blocked))
      else
        Made(i.(filled := filled, status := if i.legIndex + 1 == |i.plan| then Completed else Pending,
                orderId := None, legIndex := i.legIndex + 1, legFilled := 0))
  }

  function UpdateStatus(i: HedgeIntent, status: ObligationStatus): Option<HedgeIntent> {
    if Stopped(i.status) then Some(i) else Made(i.(status := status))
  }

  function Block(i: HedgeIntent): Option<HedgeIntent> {
    if i.status.Completed? then None else Made(i.(status := Blocked))
  }

  /** Planning and checking the next leg.  A refusal blocks the obligation. */
  datatype Next = Ready(intent: HedgeIntent, leg: Leg) | Refused(intent: HedgeIntent)

  predicate BoundExitAgrees(i: HedgeIntent, plan: seq<Leg>) {
    i.position == None ||
    (|plan| == 1 && plan[0].CloseLeg? && plan[0].positionId == i.position.value
     && Some(plan[0].expectedQuantity) == i.positionQuantity)
  }

  function Planned(i: HedgeIntent, tickets: seq<Ticket>): Option<HedgeIntent> {
    if i.plan != [] then Some(i)
    else
      match Plan(tickets, i.hedgeSide, i.quantity - i.filled)
      case Failure(_) => None
      case Success(plan) => if BoundExitAgrees(i, plan) then BindPlan(i, plan) else None
  }

  /** A plan bound before the refusal stays bound. */
  function NextLeg(i: HedgeIntent, tickets: seq<Ticket>): Next {
    match Planned(i, tickets)
    case None => Refused(AfterRefusal(i))
    case Some(planned) =>
      if planned.legIndex >= |planned.plan| then Refused(AfterRefusal(planned))
      else if !LegIsCurrent(planned.plan[planned.legIndex], tickets) then Refused(AfterRefusal(planned))
      else Ready(planned, planned.plan[planned.legIndex])
  }

  function AfterRefusal(i: HedgeIntent): HedgeIntent {
    var blocked := Block(i);
    if blocked.Some? then blocked.value else i
  }

  // ---------------------------------------------------------------- one event

  datatype HedgeEvent =
    | PlanBound(plan: seq<Leg>)
    | OrderBound(cid: int)
    | Filled(cid: int, quantity: int)
    | StatusReported(cid: int, status: ObligationStatus)
    | PlanningBlocked

  /** Order events reach the obligation only through its current order. */
  predicate Addressed(i: HedgeIntent, e: HedgeEvent) {
    match e
    case Filled(cid, _) => i.orderId == Some(cid)
    case StatusReported(cid, _) => i.orderId == Some(cid)
    case _ => true
  }

  /** The record after an event; a raised error leaves it as it was. */
  function Step(i: HedgeIntent, e: HedgeEvent): HedgeIntent {
    var next :=
      match e
      case PlanBound(plan) => BindPlan(i, plan)
      case OrderBound(cid) => BindOrder(i, cid, set k | 0 <= k < |i.orderIds| :: i.orderIds[k])
      case Filled(_, quantity) => ApplyFill(i, quantity)
      case StatusReported(_, status) => UpdateStatus(i, status)
      case PlanningBlocked => Block(i);
    if Addressed(i, e) && next.Some? then next.value else i
  }

  /** The fill an event records, if any. */
  function FillOf(i: HedgeIntent, e: HedgeEvent): seq<int> {
    if e.Filled? && Addressed(i, e) && ApplyFill(i, e.quantity).Some? then [e.quantity] else []
  }

  function SumOf(fills: seq<int>): int {
    if fills == [] then 0 else SumOf(fills[..|fills| - 1]) + fills[|fills| - 1]
  }

  function Quantities(plan: seq<Leg>): seq<int> {
    if plan == [] then [] else Quantities(plan[..|plan| - 1]) + [plan[|plan| - 1].quantity]
  }

  /** What an obligation and its recorded fills satisfy at any time.  A running planned
      obligation has filled exactly its first legs, each in full. */
  ghost predicate LaneInv(i: HedgeIntent, fills: seq<int>) {
    && WellFormed(i) && i.filled == SumOf(fills) && (forall k :: 0 <= k < |fills| ==> fills[k] > 0)
    && (i.plan != [] && !Stopped(i.status) ==>
          && i.legFilled == 0 && fills == Quantities(i.plan[..i.legIndex])
          && (i.status.Completed? <==> i.legIndex == |i.plan|)
          && (i.status.Completed? ==> i.orderId == None))
  }

  // ---------------------------------------------------------------- every event keeps it

  lemma {:induction false} TotalQuantities(plan: seq<Leg>)
    ensures Total(plan) == SumOf(Quantities(plan))
  {
    if plan != [] {
      TotalQuantities(plan[..|plan| - 1]);
      assert plan == plan[..|plan| - 1] + [plan[|plan| - 1]];
      TotalAppend(plan[..|plan| - 1], plan[|plan| - 1]);
    }
  }

  lemma {:induction false} TotalAppend(plan: seq<Leg>, last: Leg)
    ensures Total(plan + [last]) == Total(plan) + last.quantity
  {
    if plan == [] {
      assert [] + [last] == [last] && [last][1..] == [];
    } else {
      TotalAppend(plan[1..], last);
      assert (plan + [last])[1..] == plan[1..] + [last];
    }
  }

  lemma NextLegTotals(plan: seq<Leg>, k: nat)
    requires k < |plan|
    ensures Total(plan[..k + 1]) == Total(plan[..k]) + plan[k].quantity
    ensures Quantities(plan[..k + 1]) == Quantities(plan[..k]) + [plan[k].quantity]
  {
    assert plan[..k + 1] == plan[..k] + [plan[k]];
    TotalAppend(plan[..k], plan[k]);
    assert plan[..k + 1][..k] == plan[..k];
  }

  lemma {:induction false} PrefixBelowTotal(plan: seq<Leg>, side: Side, k: nat)
    requires LegsAgree(plan, side) && k < |plan|
    ensures Total(plan[..k + 1]) <= Total(plan)
    decreases |plan| - k
  {
    if k + 1 < |plan| {
      NextLegTotals(plan, k + 1);
      PrefixBelowTotal(plan, side, k + 1);
    } else {
      assert plan[..k + 1] == plan;
    }
  }

  lemma SumGrows(fills: seq<int>, fill: int)
    ensures SumOf(fills + [fill]) == SumOf(fills) + fill
  {
    assert (fills + [fill])[..|fills|] == fills;
  }

  lemma {:induction false} SumZero(fills: seq<int>)
    requires forall k :: 0 <= k < |fills| ==> fills[k] > 0
    ensures SumOf(fills) >= 0 && (SumOf(fills) == 0 ==> fills == [])
  {
    if fills != [] {
      SumZero(fills[..|fills| - 1]);
    }
  }

  lemma BindPlanKeeps(i: HedgeIntent, plan: seq<Leg>, fills: seq<int>)
    requires LaneInv(i, fills) && BindPlan(i, plan).Some?
    ensures LaneInv(BindPlan(i, plan).value, fills)
  {
    SumZero(fills);
    assert plan[..0] == [];
  }

  // A running obligation whose order is out has a leg left.
  lemma ExactFillKeeps(i: HedgeIntent, fill: int, fills: seq<int>, i': HedgeIntent)
    requires LaneInv(i, fills) && i.plan != [] && !Stopped(i.status) && i.orderId.Some?
    requires i.legIndex < |i.plan| && fill == i.plan[i.legIndex].quantity
    requires i' == i.(filled := i.filled + fill, orderId := None, legIndex := i.legIndex + 1, legFilled := 0,
                      status := if i.legIndex + 1 == |i.plan| then Completed else Pending)
    ensures LaneInv(i', fills + [fill]) && ApplyFill(i, fill) == Some(i')
  {
    NextLegTotals(i.plan, i.legIndex);
    SumGrows(fills, fill);
    assert i.plan[..|i.plan|] == i.plan;
  }

  lemma OtherFillKeeps(i: HedgeIntent, fill: int, fills: seq<int>)
    requires LaneInv(i, fills) && i.orderId.Some? && ApplyFill(i, fill).Some?
    requires i.plan == [] || Stopped(i.status) || fill != i.plan[i.legIndex].quantity
    ensures LaneInv(ApplyFill(i, fill).value, fills + [fill])
  {
    SumGrows(fills, fill);
  }

  lemma OrderKeeps(i: HedgeIntent, cid: int, used: set<int>, fills: seq<int>)
    requires LaneInv(i, fills) && BindOrder(i, cid, used).Some?
    ensures LaneInv(BindOrder(i, cid, used).value, fills)
  {
  }

  lemma StatusKeeps(i: HedgeIntent, status: ObligationStatus, fills: seq<int>)
    requires LaneInv(i, fills)
    ensures i.orderId.Some? && UpdateStatus(i, status).Some? ==> LaneInv(UpdateStatus(i, status).value, fills)
    ensures Block(i).Some? ==> LaneInv(Block(i).value, fills)
  {
  }

  lemma FillKeeps(i: HedgeIntent, quantity: int, fills: seq<int>)
    requires LaneInv(i, fills) && i.orderId.Some? && ApplyFill(i, quantity).Some?
    ensures LaneInv(ApplyFill(i, quantity).value, fills + [quantity])
  {
    if i.plan != [] && !Stopped(i.status) && quantity == i.plan[i.legIndex].quantity {
      ExactFillKeeps(i, quantity, fills, ApplyFill(i, quantity).value);
    } else {
      OtherFillKeeps(i, quantity, fills);
    }
  }

  /** Whatever happens to an obligation, in any order and with any errors, a running planned one
      has filled exactly its first legs, one full leg per fill. */
  lemma StepKeeps(i: HedgeIntent, e: HedgeEvent, fills: seq<int>)
    requires LaneInv(i, fills)
    ensures LaneInv(Step(i, e), fills + FillOf(i, e))
  {
    if FillOf(i, e) == [] {
      assert fills + [] == fills;
    }
    match e
    case PlanBound(plan) =>
      if BindPlan(i, plan).Some? {
        BindPlanKeeps(i, plan, fills);
      }
    case OrderBound(cid) =>
      var used := set k | 0 <= k < |i.orderIds| :: i.orderIds[k];
      if BindOrder(i, cid, used).Some? {
        OrderKeeps(i, cid, used, fills);
      }
    case Filled(cid, quantity) =>
      if Addressed(i, e) && ApplyFill(i, quantity).Some? {
        FillKeeps(i, quantity, fills);
      }
    case StatusReported(_, status) => StatusKeeps(i, status, fills);
    case PlanningBlocked => StatusKeeps(i, Blocked, fills);
  }

  // ---------------------------------------------------------------- whole lives

  datatype Life = Life(intent: HedgeIntent, fills: seq<int>)

  function Live(i: HedgeIntent, events: seq<HedgeEvent>): Life
    decreases |events|
  {
    if events == [] then Life(i, [])
    else
      var before := Live(i, events[..|events| - 1]);
      var e := events[|events| - 1];
      Life(Step(before.intent, e), before.fills + FillOf(before.intent, e))
  }

  predicate Fresh(i: HedgeIntent) {
    WellFormed(i) && i.status.Pending? && i.orderId == None && i.filled == 0 && i.plan == [] && i.orderIds == []
  }

  lemma {:induction false} LifeKeeps(i: HedgeIntent, events: seq<HedgeEvent>)
    requires Fresh(i)
    ensures LaneInv(Live(i, events).intent, Live(i, events).fills)
    decreases |events|
  {
    if events != [] {
      LifeKeeps(i, events[..|events| - 1]);
      var before := Live(i, events[..|events| - 1]);
      StepKeeps(before.intent, events[|events| - 1], before.fills);
    }
  }

  /** A planned obligation completes only by filling its legs in plan order, each exactly once
      and in full, and so hedges exactly its quantity. */
  lemma CompletedExactly(i: HedgeIntent, events: seq<HedgeEvent>, life: Life)
    requires Fresh(i) && life == Live(i, events) && life.intent.plan != []
    ensures life.intent.status.Completed? ==>
      life.fills == Quantities(life.intent.plan) && SumOf(life.fills) == life.intent.quantity
    ensures !Stopped(life.intent.status) ==>
      life.intent.legIndex <= |life.intent.plan| && life.fills == Quantities(life.intent.plan[..life.intent.legIndex])
  {
    LifeKeeps(i, events);
    InvMeans(life.intent, life.fills);
  }

  lemma InvMeans(i: HedgeIntent, fills: seq<int>)
    requires LaneInv(i, fills) && i.plan != []
    ensures i.status.Completed? ==> fills == Quantities(i.plan) && SumOf(fills) == i.quantity
    ensures i.legIndex <= |i.plan|
    ensures !Stopped(i.status) ==> fills == Quantities(i.plan[..i.legIndex])
  {
    assert i.plan[..|i.plan|] == i.plan;
  }

  /** Nothing changes a completed planned obligation, and nothing restarts a stopped one. */
  lemma EndsAreFinal(i: HedgeIntent, e: HedgeEvent, fills: seq<int>)
    requires LaneInv(i, fills)
    ensures i.plan != [] && i.status.Completed? ==> Step(i, e) == i
    ensures Stopped(i.status) ==> Stopped(Step(i, e).status) && Step(i, e).orderIds == i.orderIds
    ensures i.plan != [] ==> Step(i, e).plan == i.plan
  {
    FillEnds(i, if e.Filled? then e.quantity else 0, fills);
    OthersEnd(i, if e.PlanBound? then e.plan else [], if e.StatusReported? then e.status else Pending,
              if e.OrderBound? then e.cid else EMPTY, fills);
  }

  // Order events reach only an obligation whose order is out, and a completed planned one has none.
  lemma FillEnds(i: HedgeIntent, fill: int, fills: seq<int>)
    requires LaneInv(i, fills)
    ensures i.plan != [] && i.status.Completed? ==> i.orderId == None
    ensures
      var next := ApplyFill(i, fill);
      next.Some? ==>
        && next.value.plan == i.plan && next.value.orderIds == i.orderIds
        && (Stopped(i.status) ==> Stopped(next.value.status))
  {
  }

  lemma OthersEnd(i: HedgeIntent, plan: seq<Leg>, status: ObligationStatus, cid: int, fills: seq<int>)
    requires LaneInv(i, fills)
    ensures i.plan != [] && i.status.Completed? ==> Block(i) == None
    ensures i.plan != [] && BindPlan(i, plan).Some? ==> BindPlan(i, plan) == Some(i)
    ensures Stopped(i.status) ==> BindPlan(i, plan) == None || BindPlan(i, plan) == Some(i)
    ensures !i.status.Pending? ==> BindOrder(i, cid, set k | 0 <= k < |i.orderIds| :: i.orderIds[k]) == None
    ensures Stopped(i.status) ==> UpdateStatus(i, status) == Some(i)
  {
  }

  // ---------------------------------------------------------------- carried out against tickets

  /** One round: the next leg is checked, ordered and filled in full, and the tickets follow. */
  function Round(i: HedgeIntent, tickets: seq<Ticket>, cid: int, openId: string): Option<(HedgeIntent, seq<Ticket>)> {
    match NextLeg(i, tickets)
    case Refused(_) => None
    case Ready(planned, leg) =>
      var ordered := BindOrder(planned, cid, set k | 0 <= k < |planned.orderIds| :: planned.orderIds[k]);
      if ordered == None then None
      else
        var filled := ApplyFill(ordered.value, leg.quantity);
        if filled == None then None else Some((filled.value, Apply(tickets, leg, openId)))
  }

  /** The obligation after its first `n` legs. */
  function After(i: HedgeIntent, plan: seq<Leg>, cids: seq<int>, n: nat): HedgeIntent
    requires n <= |plan| && n <= |cids|
  {
    i.(plan := plan, legIndex := n, filled := Total(plan[..n]), orderIds := cids[..n],
       status := if n == |plan| then Completed else Pending)
  }

  lemma {:induction false} LegsAgreeWithSide(tickets: seq<Ticket>, side: Side, remaining: nat)
    requires AllValid(tickets)
    ensures LegsAgree(Legs(tickets, side, remaining), side)
  {
    if remaining > 0 && tickets != [] {
      var t := tickets[0];
      if SideOf(t) == side {
        LegsAgreeWithSide(tickets[1..], side, remaining);
      } else {
        var rest := Legs(tickets[1..], side, remaining - Min(remaining, t.quantity));
        LegsAgreeWithSide(tickets[1..], side, remaining - Min(remaining, t.quantity));
        assert Legs(tickets, side, remaining)[1..] == rest;
        forall k | 0 <= k < |Legs(tickets, side, remaining)|
          ensures Legs(tickets, side, remaining)[k].side == side && Legs(tickets, side, remaining)[k].quantity > 0
        {
          if k > 0 {
            assert Legs(tickets, side, remaining)[k] == rest[k - 1];
          }
        }
      }
    }
  }

  // The plan of a fresh obligation is acceptable to its record.
  lemma PlanIsAcceptable(i: HedgeIntent, start: seq<Ticket>, plan: seq<Leg>)
    requires Plan(start, i.hedgeSide, i.quantity) == Success(plan)
    ensures plan != [] && LegsAgree(plan, i.hedgeSide) && Total(plan) == i.quantity
  {
    PlanClosesInOrder(start, i.hedgeSide, i.quantity);
    SortKeeps(start);
    LegsAgreeWithSide(Sort(start), i.hedgeSide, i.quantity);
  }

  lemma {:induction false} TotalNonNegative(plan: seq<Leg>, side: Side)
    requires LegsAgree(plan, side)
    ensures Total(plan) >= 0 && (plan != [] ==> Total(plan) > 0)
  {
    if plan != [] {
      assert forall k :: 0 <= k < |plan[1..]| ==> plan[1..][k] == plan[k + 1];
      TotalNonNegative(plan[1..], side);
    }
  }

  lemma AfterIsWellFormed(i: HedgeIntent, plan: seq<Leg>, cids: seq<int>, n: nat)
    requires Fresh(i) && plan != [] && LegsAgree(plan, i.hedgeSide) && Total(plan) == i.quantity
    requires DistinctOrders(cids) && n <= |plan| == |cids| && i.legFilled == 0
    ensures WellFormed(After(i, plan, cids, n))
  {
    TotalNonNegative(plan[..n], i.hedgeSide);
    assert plan[..|plan|] == plan;
  }

  /** The obligation with the order of its n-th leg out. */
  function Ordered(i: HedgeIntent, plan: seq<Leg>, cids: seq<int>, n: nat): HedgeIntent
    requires n < |plan| && n < |cids|
  {
    After(i, plan, cids, n).(orderId := Some(cids[n]), orderIds := cids[..n + 1], status := HedgeSubmitting)
  }

  lemma LegIsOrdered(i: HedgeIntent, plan: seq<Leg>, cids: seq<int>, n: nat, used: set<int>)
    requires Fresh(i) && plan != [] && LegsAgree(plan, i.hedgeSide) && Total(plan) == i.quantity && i.legFilled == 0
    requires DistinctOrders(cids) && n < |plan| == |cids|
    requires used == set k | 0 <= k < n :: cids[..n][k]
    ensures BindOrder(After(i, plan, cids, n), cids[n], used) == Some(Ordered(i, plan, cids, n))
  {
    AfterIsWellFormed(i, plan, cids, n);
    OrderBinds(After(i, plan, cids, n), cids[n], used, Ordered(i, plan, cids, n));
  }

  lemma LegIsFilled(i: HedgeIntent, plan: seq<Leg>, cids: seq<int>, n: nat)
    requires Fresh(i) && plan != [] && LegsAgree(plan, i.hedgeSide) && Total(plan) == i.quantity && i.legFilled == 0
    requires DistinctOrders(cids) && n < |plan| == |cids|
    ensures ApplyFill(Ordered(i, plan, cids, n), plan[n].quantity) == Some(After(i, plan, cids, n + 1))
  {
    AfterIsWellFormed(i, plan, cids, n + 1);
    AfterFollows(i, plan, cids, n);
    FillAdvances(Ordered(i, plan, cids, n), plan[n].quantity, After(i, plan, cids, n + 1));
  }

  lemma AfterFollows(i: HedgeIntent, plan: seq<Leg>, cids: seq<int>, n: nat)
    requires Fresh(i) && i.legFilled == 0 && n < |plan| == |cids|
    ensures
      var o := Ordered(i, plan, cids, n);
      After(i, plan, cids, n + 1)
        == o.(filled := o.filled + plan[n].quantity, status := if n + 1 == |plan| then Completed else Pending,
              orderId := None, legIndex := n + 1, legFilled := 0)
  {
    NextLegTotals(plan, n);
  }

  lemma FillAdvances(i: HedgeIntent, fill: int, next: HedgeIntent)
    requires !Stopped(i.status) && i.legIndex < |i.plan| && fill == i.plan[i.legIndex].quantity - i.legFilled > 0
    requires WellFormed(next)
    requires next == i.(filled := i.filled + fill, status := if i.legIndex + 1 == |i.plan| then Completed else Pending,
                        orderId := None, legIndex := i.legIndex + 1, legFilled := 0)
    ensures ApplyFill(i, fill) == Some(next)
  {
  }

  lemma OrderBinds(now: HedgeIntent, cid: int, used: set<int>, ordered: HedgeIntent)
    requires WellFormed(now) && now.status.Pending? && now.orderId == None && cid !in used && cid != EMPTY
    requires used == set k | 0 <= k < |now.orderIds| :: now.orderIds[k]
    requires ordered.orderIds == now.orderIds + [cid]
    requires ordered == now.(orderId := Some(cid), orderIds := ordered.orderIds, status := HedgeSubmitting)
    ensures BindOrder(now, cid, used) == Some(ordered)
  {
    assert forall k :: 0 <= k < |now.orderIds| ==> now.orderIds[k] in used;
  }

  lemma {:induction false} ReadyInTurn(i: HedgeIntent, plan: seq<Leg>, cids: seq<int>, n: nat, start: seq<Ticket>, openId: string)
    requires Fresh(i) && Plan(start, i.hedgeSide, i.quantity) == Success(plan) && n < |plan| == |cids|
    ensures NextLeg(After(i, plan, cids, n), Execute(start, plan[..n], openId)) == Ready(After(i, plan, cids, n), plan[n])
  {
    PlanIsStable(start, i.hedgeSide, i.quantity, plan, n, openId);
  }

  lemma RoundAdvances(i: HedgeIntent, plan: seq<Leg>, cids: seq<int>, n: nat, start: seq<Ticket>, openId: string)
    requires Fresh(i) && i.legFilled == 0 && Plan(start, i.hedgeSide, i.quantity) == Success(plan)
    requires n < |plan| == |cids| && DistinctOrders(cids)
    ensures Round(After(i, plan, cids, n), Execute(start, plan[..n], openId), cids[n], openId)
         == Some((After(i, plan, cids, n + 1), Execute(start, plan[..n + 1], openId)))
  {
    PlanIsAcceptable(i, start, plan);
    ReadyInTurn(i, plan, cids, n, start, openId);
    LegIsOrdered(i, plan, cids, n, set k | 0 <= k < n :: cids[..n][k]);
    LegIsFilled(i, plan, cids, n);
    ExecuteNext(start, plan, n, openId);
  }

  lemma ExecuteNext(start: seq<Ticket>, plan: seq<Leg>, n: nat, openId: string)
    requires n < |plan|
    ensures Execute(start, plan[..n + 1], openId) == Apply(Execute(start, plan[..n], openId), plan[n], openId)
  {
    assert plan[..n + 1] == plan[..n] + [plan[n]];
    ExecuteAppend(start, plan[..n], plan[n], openId);
  }

  /** Round after round, one order ID each. */
  function Drive(i: HedgeIntent, tickets: seq<Ticket>, cids: seq<int>, openId: string): Option<(HedgeIntent, seq<Ticket>)>
    decreases |cids|
  {
    if cids == [] then Some((i, tickets))
    else
      var before := Drive(i, tickets, cids[..|cids| - 1], openId);
      if before == None then None
      else Round(before.value.0, before.value.1, cids[|cids| - 1], openId)
  }

  // The first round also binds the plan.
  lemma FirstRoundBinds(i: HedgeIntent, plan: seq<Leg>, cids: seq<int>, start: seq<Ticket>, openId: string)
    requires Fresh(i) && i.legFilled == 0 && i.legIndex == 0 && Plan(start, i.hedgeSide, i.quantity) == Success(plan)
    requires BoundExitAgrees(i, plan) && |plan| == |cids| && DistinctOrders(cids)
    ensures plan != [] && Round(i, start, cids[0], openId) == Round(After(i, plan, cids, 0), start, cids[0], openId)
  {
    PlanIsAcceptable(i, start, plan);
    FreshBinds(i, plan, cids);
  }

  lemma FreshBinds(i: HedgeIntent, plan: seq<Leg>, cids: seq<int>)
    requires Fresh(i) && i.legFilled == 0 && i.legIndex == 0 && plan != [] && |plan| == |cids| && DistinctOrders(cids)
    requires LegsAgree(plan, i.hedgeSide) && Total(plan) == i.quantity
    ensures BindPlan(i, plan) == Some(After(i, plan, cids, 0))
  {
    AfterIsWellFormed(i, plan, cids, 0);
    assert plan[..0] == [] && cids[..0] == [];
    assert After(i, plan, cids, 0) == i.(plan := plan, legIndex := 0, legFilled := 0);
  }

  lemma {:induction false} DriveReaches(i: HedgeIntent, plan: seq<Leg>, cids: seq<int>, n: nat, start: seq<Ticket>, openId: string)
    requires Fresh(i) && i.legFilled == 0 && i.legIndex == 0 && Plan(start, i.hedgeSide, i.quantity) == Success(plan)
    requires BoundExitAgrees(i, plan) && 0 < n <= |plan| == |cids| && DistinctOrders(cids)
    ensures Drive(i, start, cids[..n], openId) == Some((After(i, plan, cids, n), Execute(start, plan[..n], openId)))
    decreases n
  {
    DriveUnfolds(i, start, cids, n, openId);
    if n == 1 {
      assert Execute(start, plan[..0], openId) == start;
      FirstRoundBinds(i, plan, cids, start, openId);
    } else {
      DriveReaches(i, plan, cids, n - 1, start, openId);
    }
    RoundAdvances(i, plan, cids, n - 1, start, openId);
  }

  lemma DriveUnfolds(i: HedgeIntent, start: seq<Ticket>, cids: seq<int>, n: nat, openId: string)
    requires 0 < n <= |cids|
    ensures
      var before := Drive(i, start, cids[..n - 1], openId);
      Drive(i, start, cids[..n], openId)
        == if before == None then None else Round(before.value.0, before.value.1, cids[n - 1], openId)
    ensures Drive(i, start, cids[..0], openId) == Some((i, start))
  {
    assert cids[..n][..n - 1] == cids[..n - 1];
  }

  /** While nothing else touches the tickets, every leg passes its check when its turn comes, and
      one exactly filled order per leg completes the obligation and moves the net hedge position
      by exactly its signed quantity. */
  lemma DrivenToCompletion(i: HedgeIntent, plan: seq<Leg>, cids: seq<int>, start: seq<Ticket>, openId: string)
    requires Fresh(i) && i.legFilled == 0 && i.legIndex == 0 && Plan(start, i.hedgeSide, i.quantity) == Success(plan)
    requires BoundExitAgrees(i, plan) && |plan| == |cids| && DistinctOrders(cids) && openId != ""
    ensures Drive(i, start, cids, openId).Some?
    ensures
      var end := Drive(i, start, cids, openId).value;
      && end.0.status.Completed? && end.0.filled == i.quantity && end.0.orderIds == cids
      && AllValid(start) && AllValid(end.1) && Net(end.1) == Net(start) + Signed(i.hedgeSide, i.quantity)
  {
    PlanIsAcceptable(i, start, plan);
    DriveReaches(i, plan, cids, |plan|, start, openId);
    assert cids[..|plan|] == cids && plan[..|plan|] == plan;
    PlanReachesDelta(start, i.hedgeSide, i.quantity, plan, openId);
  }
}
