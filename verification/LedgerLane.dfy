/** The carry bounds speak about a route machine; here each route of the ledger is shown to be
    that machine, so the closed forms bound what the ledger itself can do. */
module LedgerLane {
  import opened Rounding
  import opened Records
  import opened AllocationLedger
  import C = CarryBounds

  function Bought(ledger: Ledger, route: Route): nat {
    if ledger == [] then 0
    else
      var last := ledger[|ledger| - 1];
      Bought(ledger[..|ledger| - 1], route) + if last.route == route && last.signed > 0 then last.signed else 0
  }

  function Sold(ledger: Ledger, route: Route): nat {
    if ledger == [] then 0
    else
      var last := ledger[|ledger| - 1];
      Sold(ledger[..|ledger| - 1], route) + if last.route == route && last.signed < 0 then -last.signed else 0
  }

  /** The route's fills, as the machine's events. */
  function RouteEvents(ledger: Ledger, route: Route): seq<C.Event> {
    if ledger == [] then []
    else
      var last := ledger[|ledger| - 1];
      RouteEvents(ledger[..|ledger| - 1], route) + if last.route == route then [C.Fill(last.signed)] else []
  }

  /** The route's obligations in allocation order. */
  function RouteQueue(ledger: Ledger, route: Route): seq<int> {
    if ledger == [] then []
    else
      var last := ledger[|ledger| - 1];
      RouteQueue(ledger[..|ledger| - 1], route)
      + if last.route == route && last.owed != 0 then [last.owed] else []
  }

  lemma {:induction false} RunAppend(lane: C.Lane, events: seq<C.Event>, e: C.Event, buyLeaves: nat, sellLeaves: nat)
    requires C.CanRun(lane, events, buyLeaves, sellLeaves)
    requires C.Enabled(C.Run(lane, events, buyLeaves, sellLeaves), e, buyLeaves, sellLeaves)
    ensures C.CanRun(lane, events + [e], buyLeaves, sellLeaves)
    ensures C.Run(lane, events + [e], buyLeaves, sellLeaves)
         == C.Step(C.Run(lane, events, buyLeaves, sellLeaves), e, buyLeaves, sellLeaves)
    decreases |events|
  {
    if events == [] {
      assert [] + [e] == [e] && [e][1..] == [];
    } else {
      RunAppend(C.Step(lane, events[0], buyLeaves, sellLeaves), events[1..], e, buyLeaves, sellLeaves);
      assert (events + [e])[1..] == events[1..] + [e];
    }
  }

  /** The machine stands where the route of the ledger stands. */
  predicate Mirrors(lane: C.Lane, prefix: Ledger, suffix: Ledger, route: Route) {
    && lane.residual == Balance(prefix + suffix, route) && lane.queue == RouteQueue(suffix, route)
    && lane.hedged == 0 && lane.bought == Bought(suffix, route) && lane.sold == Sold(suffix, route)
    && OUNCE * lane.ounceTotal == AllocatedTotal(suffix, route)
  }

  predicate Reaches(prefix: Ledger, suffix: Ledger, route: Route, buyLeaves: nat, sellLeaves: nat) {
    var start, events := C.Settled(Balance(prefix, route)), RouteEvents(suffix, route);
    C.CanRun(start, events, buyLeaves, sellLeaves)
    && Mirrors(C.Run(start, events, buyLeaves, sellLeaves), prefix, suffix, route)
  }

  /** Growing the ledger by `suffix` runs the route's machine from the balance it had, fill by
      fill: same residual, same obligations in the same order, same totals. */
  lemma {:induction false} LedgerIsLane(prefix: Ledger, suffix: Ledger, route: Route, buyLeaves: nat, sellLeaves: nat)
    requires Online(prefix + suffix)
    requires forall i :: 0 <= i < |suffix| ==> suffix[i].signed != 0
    requires Bought(suffix, route) <= buyLeaves && Sold(suffix, route) <= sellLeaves
    ensures Reaches(prefix, suffix, route, buyLeaves, sellLeaves)
    decreases |suffix|
  {
    if suffix == [] {
      assert prefix + suffix == prefix;
    } else {
      var front, last := suffix[..|suffix| - 1], suffix[|suffix| - 1];
      assert front + [last] == suffix;
      assert prefix + suffix == (prefix + front) + [last];
      assert (prefix + suffix)[..|prefix + suffix| - 1] == prefix + front;
      LedgerIsLane(prefix, front, route, buyLeaves, sellLeaves);
      if last.route == route {
        LaneFills(prefix, front, last, buyLeaves, sellLeaves);
      } else {
        LaneRests(prefix, front, last, route, buyLeaves, sellLeaves);
      }
    }
  }

  lemma LaneRests(prefix: Ledger, front: Ledger, last: Allocation, route: Route, buyLeaves: nat, sellLeaves: nat)
    requires last.route != route && Reaches(prefix, front, route, buyLeaves, sellLeaves)
    ensures Reaches(prefix, front + [last], route, buyLeaves, sellLeaves)
  {
    GrowsByOne(prefix, front, last, route);
  }

  lemma GrowsByOne(prefix: Ledger, front: Ledger, last: Allocation, route: Route)
    ensures Balance(prefix + (front + [last]), route)
      == if last.route == route then Balance(prefix + front, route) + last.signed - last.owed else Balance(prefix + front, route)
    ensures RouteEvents(front + [last], route)
      == if last.route == route then RouteEvents(front, route) + [C.Fill(last.signed)] else RouteEvents(front, route)
    ensures RouteQueue(front + [last], route)
      == if last.route == route && last.owed != 0 then RouteQueue(front, route) + [last.owed] else RouteQueue(front, route)
    ensures Bought(front + [last], route)
      == Bought(front, route) + if last.route == route && last.signed > 0 then last.signed else 0
    ensures Sold(front + [last], route)
      == Sold(front, route) + if last.route == route && last.signed < 0 then -last.signed else 0
    ensures AllocatedTotal(front + [last], route)
      == AllocatedTotal(front, route) + if last.route == route then last.owed else 0
  {
    assert (front + [last])[..|front|] == front;
    var whole := prefix + (front + [last]);
    assert whole[..|whole| - 1] == prefix + front && whole[|whole| - 1] == last;
  }

  lemma MirrorStep(lane: C.Lane, next: C.Lane, prefix: Ledger, front: Ledger, last: Allocation, ounces: int)
    requires Mirrors(lane, prefix, front, last.route) && last.owed == OUNCE * ounces
    requires next == C.Lane(lane.residual + last.signed - OUNCE * ounces,
                            if ounces == 0 then lane.queue else lane.queue + [OUNCE * ounces], lane.hedged,
                            if last.signed > 0 then lane.bought + last.signed else lane.bought,
                            if last.signed < 0 then lane.sold - last.signed else lane.sold, lane.ounceTotal + ounces)
    ensures Mirrors(next, prefix, front + [last], last.route)
  {
    GrowsByOne(prefix, front, last, last.route);
  }

  lemma FillMirrors(lane: C.Lane, balance: int, signed: int, ounces: int, buyLeaves: nat, sellLeaves: nat)
    requires lane.residual == balance && ounces == HalfEven(balance + signed)
    requires C.Enabled(lane, C.Fill(signed), buyLeaves, sellLeaves)
    ensures C.Step(lane, C.Fill(signed), buyLeaves, sellLeaves)
      == C.Lane(balance + signed - OUNCE * ounces, if ounces == 0 then lane.queue else lane.queue + [OUNCE * ounces],
                lane.hedged, if signed > 0 then lane.bought + signed else lane.bought,
                if signed < 0 then lane.sold - signed else lane.sold, lane.ounceTotal + ounces)
  {
  }

  lemma LaneFills(prefix: Ledger, front: Ledger, last: Allocation, buyLeaves: nat, sellLeaves: nat)
    requires Reaches(prefix, front, last.route, buyLeaves, sellLeaves) && last.signed != 0
    requires last.owed == Obligation(prefix + front, last.route, last.signed)
    requires Bought(front + [last], last.route) <= buyLeaves && Sold(front + [last], last.route) <= sellLeaves
    ensures Reaches(prefix, front + [last], last.route, buyLeaves, sellLeaves)
  {
    GrowsByOne(prefix, front, last, last.route);
    var start, events := C.Settled(Balance(prefix, last.route)), RouteEvents(front, last.route);
    var lane := C.Run(start, events, buyLeaves, sellLeaves);
    var ounces := Ounces(prefix + front, last.route, last.signed);
    FillMirrors(lane, lane.residual, last.signed, ounces, buyLeaves, sellLeaves);
    MirrorStep(lane, C.Step(lane, C.Fill(last.signed), buyLeaves, sellLeaves), prefix, front, last, ounces);
    RunAppend(start, events, C.Fill(last.signed), buyLeaves, sellLeaves);
  }

  lemma LaneIsBounded(start: int, events: seq<C.Event>, lane: C.Lane, buyLeaves: nat, sellLeaves: nat, bounds: C.Bounds)
    requires Abs(start) <= HALF && C.CanRun(C.Settled(start), events, buyLeaves, sellLeaves)
    requires lane == C.Run(C.Settled(start), events, buyLeaves, sellLeaves)
    requires C.MakerCarryBounds(start, buyLeaves, sellLeaves) == Some(bounds)
    ensures Abs(C.Exposure(start, lane)) <= bounds.exposure
    ensures -OUNCE * bounds.buy <= OUNCE * lane.ounceTotal <= OUNCE * bounds.sell
  {
    C.CarryBoundsHold(start, buyLeaves, sellLeaves, events);
    C.StartIsInBands(start, buyLeaves, sellLeaves, bounds);
    C.RunKeepsInv(start, buyLeaves, sellLeaves, bounds, C.Settled(start), events);
    C.PrefixesTotal(lane.hedged, lane.queue, -OUNCE * bounds.buy, OUNCE * bounds.sell);
  }

  // The machine's run for a suffix, with what it shares with the ledger.
  lemma RouteLane(prefix: Ledger, suffix: Ledger, route: Route, buyLeaves: nat, sellLeaves: nat)
    returns (start: int, events: seq<C.Event>, lane: C.Lane)
    requires Online(prefix + suffix) && Online(prefix)
    requires forall i :: 0 <= i < |suffix| ==> suffix[i].signed != 0
    requires Bought(suffix, route) <= buyLeaves && Sold(suffix, route) <= sellLeaves
    ensures start == Balance(prefix, route) && Abs(start) <= HALF
    ensures C.CanRun(C.Settled(start), events, buyLeaves, sellLeaves)
    ensures lane == C.Run(C.Settled(start), events, buyLeaves, sellLeaves)
    ensures lane.residual == Balance(prefix + suffix, route) && lane.hedged == 0
    ensures lane.bought == Bought(suffix, route) && lane.sold == Sold(suffix, route)
    ensures OUNCE * lane.ounceTotal == AllocatedTotal(suffix, route)
  {
    start, events := Balance(prefix, route), RouteEvents(suffix, route);
    BalanceWithinHalf(prefix, route);
    LedgerIsLane(prefix, suffix, route, buyLeaves, sellLeaves);
    lane := C.Run(C.Settled(start), events, buyLeaves, sellLeaves);
  }

  /** However the fills within the leaves arrive, before any hedge the exposure they leave and the
      hedge they oblige stay within the closed forms computed from the balance before them. */
  lemma LedgerWithinCarryBounds(prefix: Ledger, suffix: Ledger, route: Route, start: int, bought: nat, sold: nat, oblige: int,
                                buyLeaves: nat, sellLeaves: nat, bounds: C.Bounds)
    requires Online(prefix + suffix) && Online(prefix)
    requires forall i :: 0 <= i < |suffix| ==> suffix[i].signed != 0
    requires bought == Bought(suffix, route) <= buyLeaves && sold == Sold(suffix, route) <= sellLeaves
    requires start == Balance(prefix, route) && oblige == AllocatedTotal(suffix, route)
    requires C.MakerCarryBounds(start, buyLeaves, sellLeaves) == Some(bounds)
    ensures Abs(start + bought - sold) <= bounds.exposure
    ensures -OUNCE * bounds.buy <= oblige <= OUNCE * bounds.sell
  {
    var _, events, lane := RouteLane(prefix, suffix, route, buyLeaves, sellLeaves);
    LaneTotals(start, events, lane, bought, sold, oblige, buyLeaves, sellLeaves, bounds);
  }

  lemma LaneTotals(start: int, events: seq<C.Event>, lane: C.Lane, bought: nat, sold: nat, oblige: int,
                   buyLeaves: nat, sellLeaves: nat, bounds: C.Bounds)
    requires Abs(start) <= HALF && C.CanRun(C.Settled(start), events, buyLeaves, sellLeaves)
    requires lane == C.Run(C.Settled(start), events, buyLeaves, sellLeaves)
    requires lane.hedged == 0 && lane.bought == bought && lane.sold == sold && OUNCE * lane.ounceTotal == oblige
    requires C.MakerCarryBounds(start, buyLeaves, sellLeaves) == Some(bounds)
    ensures Abs(start + bought - sold) <= bounds.exposure
    ensures -OUNCE * bounds.buy <= oblige <= OUNCE * bounds.sell
  {
    LaneIsBounded(start, events, lane, buyLeaves, sellLeaves, bounds);
  }

  /** The next fill's obligation opposes the fill and is within the single-intent bound. */
  lemma LedgerObligationBound(prefix: Ledger, suffix: Ledger, route: Route, start: int, balance: int,
                              signed: int, buyLeaves: nat, sellLeaves: nat)
    requires Online(prefix + suffix) && Online(prefix) && signed != 0
    requires forall i :: 0 <= i < |suffix| ==> suffix[i].signed != 0
    requires Bought(suffix, route) + Max(signed, 0) <= buyLeaves
    requires Sold(suffix, route) + Max(-signed, 0) <= sellLeaves
    requires start == Balance(prefix, route) && balance == Balance(prefix + suffix, route)
    ensures signed > 0 ==>
      0 <= HalfEven(balance + signed) <= C.MakerHedgeQuantityBound(start, buyLeaves, C.Long, sellLeaves > 0)
    ensures signed < 0 ==>
      0 <= -HalfEven(balance + signed) <= C.MakerHedgeQuantityBound(start, sellLeaves, C.Short, buyLeaves > 0)
  {
    var _, events, lane := RouteLane(prefix, suffix, route, buyLeaves, sellLeaves);
    LaneObligation(start, events, lane, signed, buyLeaves, sellLeaves);
  }

  lemma LaneObligation(start: int, events: seq<C.Event>, lane: C.Lane, signed: int, buyLeaves: nat, sellLeaves: nat)
    requires Abs(start) <= HALF && C.CanRun(C.Settled(start), events, buyLeaves, sellLeaves)
    requires lane == C.Run(C.Settled(start), events, buyLeaves, sellLeaves)
    requires signed != 0 && (signed > 0 ==> lane.bought + signed <= buyLeaves) && (signed < 0 ==> lane.sold - signed <= sellLeaves)
    ensures signed > 0 ==>
      0 <= HalfEven(lane.residual + signed) <= C.MakerHedgeQuantityBound(start, buyLeaves, C.Long, sellLeaves > 0)
    ensures signed < 0 ==>
      0 <= -HalfEven(lane.residual + signed) <= C.MakerHedgeQuantityBound(start, sellLeaves, C.Short, buyLeaves > 0)
  {
    C.SingleIntentBound(start, buyLeaves, sellLeaves, events, signed);
  }
}
