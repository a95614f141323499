/** What each change of a hedge obligation's record takes and leaves. */
module HedgeRecord {
  import opened Rounding
  import opened HedgePlan
  import opened Records
  import opened HedgeLane

  // ---------------------------------------------------------------- which records exist

  predicate Halted(status: ObligationStatus) {
    status in {Blocked, HedgeRejected, HedgeUnknown}
  }

  function SumOfLegs(plan: seq<Leg>, n: int): int {
    if n <= 0 || n > |plan| then 0 else SumOfLegs(plan, n - 1) + plan[n - 1].quantity
  }

  /** The legs are of the hedge's side and add up to it; one that is not blocked has filled exactly the
      legs behind it and part of the next, and a completed one has filled them all. */
  predicate InStep(i: HedgeIntent) {
    && (forall k :: 0 <= k < |i.plan| ==> i.plan[k].side == i.hedgeSide && i.plan[k].quantity >= 1)
    && SumOfLegs(i.plan, |i.plan|) == i.quantity
    && (i.legIndex == |i.plan| ==> i.legFilled == 0)
    && (i.status != Blocked ==>
          && i.filled == SumOfLegs(i.plan, i.legIndex) + i.legFilled
          && (i.legIndex < |i.plan| ==> i.legFilled < i.plan[i.legIndex].quantity))
    && (i.status == Completed ==> i.legIndex == |i.plan| && i.filled == i.quantity)
  }

  predicate Exists(i: HedgeIntent) {
    && i.quantity >= 1 && i.filled >= 0 && i.legFilled >= 0 && 0 <= i.legIndex <= |i.plan|
    && (i.positionQuantity.Some? ==> i.positionQuantity.value >= 1 && i.position != None)
    && (forall k :: 0 <= k < |i.orderIds| ==> i.orderIds[k] != 0)
    && (forall k, m :: 0 <= k < |i.orderIds| && 0 <= m < |i.orderIds| && i.orderIds[k] == i.orderIds[m] ==> k == m)
    && (if |i.plan| == 0 then i.legFilled == 0 else InStep(i))
  }

  lemma {:induction false} PlannedIsTotal(plan: seq<Leg>, n: nat)
    requires n <= |plan|
    ensures SumOfLegs(plan, n) == Total(plan[..n])
  {
    if n > 0 {
      PlannedIsTotal(plan, n - 1);
      NextLegTotals(plan, n - 1);
    }
  }

  /** A record can be made exactly when its numbers are in step. */
  lemma RecordMadeIff(i: HedgeIntent)
    ensures Made(i) == if Exists(i) then Some(i) else None
  {
    if i.legIndex <= |i.plan| {
      PlannedIsTotal(i.plan, i.legIndex);
      PlannedIsTotal(i.plan, |i.plan|);
      assert i.plan[..|i.plan|] == i.plan;
    }
  }

  // ---------------------------------------------------------------- plans and orders

  /** A plan is bound once, to an obligation nothing was done for, on its side and for its quantity; the
      same plan again changes nothing. */
  lemma PlanBoundIff(i: HedgeIntent, plan: seq<Leg>)
    requires Exists(i)
    ensures BindPlan(i, plan) ==
      if i.plan != [] then (if plan == i.plan then Some(i) else None)
      else if && i.status == Pending && i.orderId == None && i.filled == 0 && plan != []
              && (forall k :: 0 <= k < |plan| ==> plan[k].side == i.hedgeSide && plan[k].quantity >= 1)
              && SumOfLegs(plan, |plan|) == i.quantity
      then Some(i.(plan := plan))
      else None
  {
    PlannedIsTotal(plan, |plan|);
    assert plan[..|plan|] == plan && plan[..0] == [];
    var bound := i.(plan := plan, legIndex := 0, legFilled := 0);
    RecordMadeIff(bound);
    PlannedIsTotal(plan, 0);
  }

  /** An order is bound to a pending obligation that has none, under an ID never used. */
  lemma OrderBoundIff(i: HedgeIntent, cid: int, used: set<int>)
    requires Exists(i) && forall k :: 0 <= k < |i.orderIds| ==> i.orderIds[k] in used
    ensures BindOrder(i, cid, used) ==
      if i.status == Pending && i.orderId == None && cid != 0 && cid !in used
      then Some(i.(orderId := Some(cid), orderIds := i.orderIds + [cid], status := HedgeSubmitting))
      else None
  {
    RecordMadeIff(i.(orderId := Some(cid), orderIds := i.orderIds + [cid], status := HedgeSubmitting));
  }

  // ---------------------------------------------------------------- fills and statuses

  /** The next leg, filled in full. */
  predicate FillsLeg(i: HedgeIntent, fill: int) {
    0 <= i.legIndex < |i.plan| && i.legFilled + fill == i.plan[i.legIndex].quantity
  }

  /** A positive fill is always recorded.  It completes an unplanned obligation when it reaches the
      quantity; it moves a planned one to the next leg when it is exactly the rest of this one; and
      anything else, or any fill after a stop, blocks. */
  lemma FillRecordedIs(i: HedgeIntent, fill: int)
    requires Exists(i)
    ensures ApplyFill(i, fill) ==
      if fill <= 0 then None
      else if |i.plan| == 0 then
        Some(i.(filled := i.filled + fill,
                status := if Halted(i.status) then Blocked else if i.filled + fill < i.quantity then HedgeAccepted else Completed))
      else if !Halted(i.status) && FillsLeg(i, fill) then
        Some(i.(filled := i.filled + fill, legIndex := i.legIndex + 1, legFilled := 0, orderId := None,
                status := if i.legIndex == |i.plan| - 1 then Completed else Pending))
      else
        Some(i.(filled := i.filled + fill, status := Blocked,
                legFilled := if i.legIndex < |i.plan| then i.legFilled + fill else i.legFilled))
  {
    if fill > 0 {
      PlannedIsTotal(i.plan, |i.plan|);
      FillMakes(i, fill, ApplyFill(i, fill));
    }
  }

  lemma FillMakes(i: HedgeIntent, fill: int, r: Option<HedgeIntent>)
    requires Exists(i) && fill > 0 && r == ApplyFill(i, fill)
    ensures r.Some?
  {
    if Stopped(i.status) {
      RecordMadeIff(i.(filled := i.filled + fill, status := Blocked,
                       legFilled := if i.plan != [] && i.legIndex < |i.plan| then i.legFilled + fill else i.legFilled));
    } else if i.plan == [] {
      RecordMadeIff(i.(filled := i.filled + fill, status := if i.filled + fill >= i.quantity then Completed else HedgeAccepted));
    } else {
      LegFillMakes(i, fill, r);
    }
  }

  lemma LegFillMakes(i: HedgeIntent, fill: int, r: Option<HedgeIntent>)
    requires Exists(i) && fill > 0 && r == ApplyFill(i, fill) && !Stopped(i.status) && i.plan != []
    ensures r.Some?
  {
    if i.legIndex >= |i.plan| {
      RecordMadeIff(i.(filled := i.filled + fill, status := Blocked));
    } else if fill != i.plan[i.legIndex].quantity - i.legFilled {
      RecordMadeIff(i.(filled := i.filled + fill, legFilled := i.legFilled + fill, status := Blocked));
    } else {
      AdvanceMakes(i, fill, i.(filled := i.filled + fill, status := if i.legIndex + 1 == |i.plan| then Completed else Pending,
                               orderId := None, legIndex := i.legIndex + 1, legFilled := 0));
    }
  }

  lemma AdvanceMakes(i: HedgeIntent, fill: int, j: HedgeIntent)
    requires Exists(i) && fill > 0 && !Stopped(i.status) && i.legIndex < |i.plan| && FillsLeg(i, fill)
    requires j == i.(filled := i.filled + fill, status := if i.legIndex + 1 == |i.plan| then Completed else Pending,
                     orderId := None, legIndex := i.legIndex + 1, legFilled := 0)
    ensures Made(j) == Some(j)
  {
    RecordMadeIff(j);
    assert SumOfLegs(i.plan, i.legIndex + 1) == SumOfLegs(i.plan, i.legIndex) + i.plan[i.legIndex].quantity;
  }

  /** A status is taken unless the obligation has stopped, and refused only when it claims that a plan is
      completed that is not. */
  lemma StatusTakenIs(i: HedgeIntent, status: ObligationStatus)
    requires Exists(i)
    ensures UpdateStatus(i, status) ==
      if Halted(i.status) then Some(i)
      else if status == Completed && i.plan != [] && !(i.legIndex == |i.plan| && i.filled == i.quantity) then None
      else Some(i.(status := status))
  {
    RecordMadeIff(i.(status := status));
  }

  /** Only a completed obligation cannot be blocked. */
  lemma BlockedIs(i: HedgeIntent)
    requires Exists(i)
    ensures Block(i) == if i.status == Completed then None else Some(i.(status := Blocked))
  {
    RecordMadeIff(i.(status := Blocked));
  }
}
