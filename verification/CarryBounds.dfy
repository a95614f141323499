/** The carry budget of one route, over every run of fills and hedges. */
module CarryBounds {
  // What every interleaving of source fills and hedge executions can do before the working orders
  // are exhausted.  A fill is added to the residual, the sum is rounded to whole ounces, and the
  // rounded part joins the end of the hedge queue.  Hedges are executed in allocation order, by any
  // portions, so a run may stop anywhere inside an obligation.

  import opened Rounding

  // ---------------------------------------------------------------- the route as a machine

  /** residual: fills not yet allocated; queue: unexecuted obligations in allocation order,
      positive when the hedge sells; hedged: net executed hedge, positive when it sold;
      bought and sold: source fills so far, all in units.  ounceTotal: sum of the route's
      allocations, in ounces. */
  datatype Lane = Lane(residual: int, queue: seq<int>, hedged: int, bought: nat, sold: nat,
                       ounceTotal: int)

  datatype Event =
    | Fill(signed: int)
    | Execute(portion: int)

  function Settled(residual: int): Lane {
    Lane(residual, [], 0, 0, 0, 0)
  }

  function Allocation(lane: Lane, signed: int): int {
    HalfEven(lane.residual + signed)
  }

  /** A fill is within the leaves; a hedge fill is part of the first obligation. */
  predicate Enabled(lane: Lane, event: Event, buyLeaves: nat, sellLeaves: nat) {
    match event
    case Fill(signed) =>
      && signed != 0
      && (signed > 0 ==> lane.bought + signed <= buyLeaves)
      && (signed < 0 ==> lane.sold - signed <= sellLeaves)
    case Execute(portion) =>
      && lane.queue != []
      && (0 < portion <= lane.queue[0] || lane.queue[0] <= portion < 0)
  }

  function Step(lane: Lane, event: Event, buyLeaves: nat, sellLeaves: nat): Lane
    requires Enabled(lane, event, buyLeaves, sellLeaves)
  {
    match event
    case Fill(signed) =>
      var ounces := Allocation(lane, signed);
      lane.(residual := lane.residual + signed - OUNCE * ounces,
            queue := if ounces == 0 then lane.queue else lane.queue + [OUNCE * ounces],
            bought := if signed > 0 then lane.bought + signed else lane.bought,
            sold := if signed < 0 then lane.sold - signed else lane.sold,
            ounceTotal := lane.ounceTotal + ounces)
    case Execute(portion) =>
      var rest := lane.queue[0] - portion;
      lane.(queue := if rest == 0 then lane.queue[1..] else [rest] + lane.queue[1..],
            hedged := lane.hedged + portion)
  }

  predicate CanRun(lane: Lane, events: seq<Event>, buyLeaves: nat, sellLeaves: nat)
    decreases |events|
  {
    events == [] ||
    (Enabled(lane, events[0], buyLeaves, sellLeaves) &&
     CanRun(Step(lane, events[0], buyLeaves, sellLeaves), events[1..], buyLeaves, sellLeaves))
  }

  function Run(lane: Lane, events: seq<Event>, buyLeaves: nat, sellLeaves: nat): Lane
    requires CanRun(lane, events, buyLeaves, sellLeaves)
    decreases |events|
  {
    if events == [] then lane
    else Run(Step(lane, events[0], buyLeaves, sellLeaves), events[1..], buyLeaves, sellLeaves)
  }

  /** Unhedged exposure: where the route started, plus its fills, minus its executed hedges. */
  function Exposure(start: int, lane: Lane): int {
    start + lane.bought - lane.sold - lane.hedged
  }

  // ---------------------------------------------------------------- the closed forms

  datatype Bounds = Bounds(exposure: int, buy: int, sell: int)

  /** Worst unhedged exposure in units, worst cumulative BUY and SELL hedge in ounces. */
  function MakerCarryBounds(residual: int, buyLeaves: int, sellLeaves: int): Option<Bounds> {
    if Abs(residual) > HALF || Min(buyLeaves, sellLeaves) < 0 then None
    else
      var exposure := if buyLeaves != 0 && sellLeaves != 0 then HALF + Max(buyLeaves, sellLeaves)
                      else Max(Abs(residual), Abs(residual + buyLeaves - sellLeaves));
      var buy := if sellLeaves != 0 then Max(0, FloorOunces(-residual + sellLeaves + HALF)) else 0;
      var sell := if buyLeaves != 0 then Max(0, FloorOunces(residual + buyLeaves + HALF)) else 0;
      Some(Bounds(exposure, buy, sell))
  }

  /** The budget is refused exactly for a residual beyond half an ounce or negative leaves. */
  lemma BudgetRefusedIff(residual: int, buyLeaves: int, sellLeaves: int)
    ensures MakerCarryBounds(residual, buyLeaves, sellLeaves).Some? <==>
      -HALF <= residual <= HALF && buyLeaves >= 0 && sellLeaves >= 0
  {
  }

  datatype Direction = Long | Short

  function MakerHedgeQuantityBound(
    residual: int, sourceQuantity: int, direction: Direction, oppositeWorking: bool): int
  {
    var signed := if direction.Long? then residual else -residual;
    var initial := if oppositeWorking then HALF else signed;
    Max(0, HalfEven(initial + sourceQuantity))
  }

  // ---------------------------------------------------------------- queue bookkeeping

  function Sum(queue: seq<int>): int {
    if queue == [] then 0 else queue[0] + Sum(queue[1..])
  }

  /** The exposure left after completing any number of whole obligations stays in the band. */
  predicate SuffixesWithin(residual: int, queue: seq<int>, low: int, high: int) {
    && low <= residual + Sum(queue) <= high
    && (queue != [] ==> SuffixesWithin(residual, queue[1..], low, high))
  }

  /** The hedge executed after completing any number of whole obligations stays in the band. */
  predicate PrefixesWithin(hedged: int, queue: seq<int>, low: int, high: int)
    decreases |queue|
  {
    && low <= hedged <= high
    && (queue != [] ==> PrefixesWithin(hedged + queue[0], queue[1..], low, high))
  }

  lemma {:induction false} SumAppend(queue: seq<int>, last: int)
    ensures Sum(queue + [last]) == Sum(queue) + last
  {
    if queue != [] {
      assert (queue + [last])[1..] == queue[1..] + [last];
      SumAppend(queue[1..], last);
    } else {
      assert queue + [last] == [last];
    }
  }

  lemma {:induction false} SuffixesWiden(residual: int, queue: seq<int>, change: int,
                                         low: int, high: int, low': int, high': int)
    requires SuffixesWithin(residual, queue, low, high)
    requires low' <= low + change && high + change <= high'
    ensures SuffixesWithin(residual + change, queue, low', high')
  {
    if queue != [] {
      SuffixesWiden(residual, queue[1..], change, low, high, low', high');
    }
  }

  lemma {:induction false} SuffixesAppend(residual: int, queue: seq<int>, change: int, last: int,
                                          low: int, high: int, low': int, high': int)
    requires SuffixesWithin(residual, queue, low, high)
    requires low' <= low + change && high + change <= high'
    requires low' <= residual + change - last <= high'
    ensures SuffixesWithin(residual + change - last, queue + [last], low', high')
  {
    SumAppend(queue, last);
    var more := queue + [last];
    if queue != [] {
      assert more[1..] == queue[1..] + [last];
      SuffixesAppend(residual, queue[1..], change, last, low, high, low', high');
    } else {
      assert more[1..] == [];
    }
  }

  lemma {:induction false} PrefixesAppend(hedged: int, queue: seq<int>, last: int, low: int, high: int)
    requires PrefixesWithin(hedged, queue, low, high)
    requires low <= hedged + Sum(queue) + last <= high
    ensures PrefixesWithin(hedged, queue + [last], low, high)
    decreases |queue|
  {
    var more := queue + [last];
    if queue != [] {
      assert more[1..] == queue[1..] + [last];
      PrefixesAppend(hedged + queue[0], queue[1..], last, low, high);
    } else {
      assert more[1..] == [];
    }
  }

  lemma {:induction false} PrefixesTotal(hedged: int, queue: seq<int>, low: int, high: int)
    requires PrefixesWithin(hedged, queue, low, high)
    ensures low <= hedged + Sum(queue) <= high
    decreases |queue|
  {
    if queue != [] {
      PrefixesTotal(hedged + queue[0], queue[1..], low, high);
    }
  }

  lemma {:induction false} SuffixesEnd(residual: int, queue: seq<int>, low: int, high: int)
    requires SuffixesWithin(residual, queue, low, high)
    ensures low <= residual <= high
  {
    if queue != [] {
      SuffixesEnd(residual, queue[1..], low, high);
    }
  }

  // ---------------------------------------------------------------- the bands of a run

  /** The least exposure a run can show once it has bought and sold so much.  With one side
      only, hedging can push it below the start just after an obligation was possible. */
  function Lowest(start: int, buyLeaves: nat, sellLeaves: nat, bought: nat, sold: nat): int {
    if buyLeaves > 0 && sellLeaves > 0 then -HALF - sold
    else if sellLeaves == 0 then (if start + bought > HALF then -HALF else start)
    else start - sold
  }

  function Highest(start: int, buyLeaves: nat, sellLeaves: nat, bought: nat, sold: nat): int {
    if buyLeaves > 0 && sellLeaves > 0 then HALF + bought
    else if sellLeaves == 0 then start + bought
    else (if start - sold < -HALF then HALF else start)
  }

  ghost predicate Inv(start: int, buyLeaves: nat, sellLeaves: nat, bounds: Bounds, lane: Lane) {
    && lane.bought <= buyLeaves && lane.sold <= sellLeaves
    && Abs(lane.residual) <= HALF
    && start + lane.bought - lane.sold == lane.residual + OUNCE * lane.ounceTotal
    && lane.hedged + Sum(lane.queue) == OUNCE * lane.ounceTotal
    && SuffixesWithin(lane.residual, lane.queue,
                      Lowest(start, buyLeaves, sellLeaves, lane.bought, lane.sold),
                      Highest(start, buyLeaves, sellLeaves, lane.bought, lane.sold))
    && PrefixesWithin(lane.hedged, lane.queue, -OUNCE * bounds.buy, OUNCE * bounds.sell)
  }

  /** The arithmetic of one fill, on a nearest-integer allocation of the combined quantity. */
  lemma FillKeepsExposureBand(start: int, buyLeaves: nat, sellLeaves: nat, residual: int,
                              bought: nat, sold: nat, signed: int, ounces: int)
    requires Abs(start) <= HALF && Abs(residual) <= HALF
    requires bought <= buyLeaves && sold <= sellLeaves
    requires Lowest(start, buyLeaves, sellLeaves, bought, sold) <= residual
          <= Highest(start, buyLeaves, sellLeaves, bought, sold)
    requires signed != 0
    requires signed > 0 ==> bought + signed <= buyLeaves
    requires signed < 0 ==> sold - signed <= sellLeaves
    requires 2 * Abs(residual + signed - OUNCE * ounces) <= OUNCE
    requires ounces == 0 <==> Abs(residual + signed) <= HALF
    ensures
      var bought', sold' := bought + Max(signed, 0), sold + Max(-signed, 0);
      var low := Lowest(start, buyLeaves, sellLeaves, bought', sold');
      var high := Highest(start, buyLeaves, sellLeaves, bought', sold');
      && low <= Lowest(start, buyLeaves, sellLeaves, bought, sold) + signed
      && Highest(start, buyLeaves, sellLeaves, bought, sold) + signed <= high
      && low <= residual + signed - OUNCE * ounces <= high
  {
  }

  lemma FillKeepsHedgeBand(start: int, buyLeaves: nat, sellLeaves: nat, bounds: Bounds,
                           bought: nat, sold: nat, residual: int, ounceTotal: int, before: int)
    requires Abs(start) <= HALF && MakerCarryBounds(start, buyLeaves, sellLeaves) == Some(bounds)
    requires bought <= buyLeaves && sold <= sellLeaves && Abs(residual) <= HALF
    requires start + bought - sold == residual + OUNCE * ounceTotal
    requires -bounds.buy <= before <= bounds.sell
    requires buyLeaves == 0 ==> ounceTotal <= before
    requires sellLeaves == 0 ==> before <= ounceTotal
    ensures -bounds.buy <= ounceTotal <= bounds.sell
  {
  }

  /** Queueing a rounded fill keeps both bands, whatever the rounding was. */
  lemma AllocatingKeepsBands(residual: int, queue: seq<int>, hedged: int, signed: int, ounces: int,
                             low: int, high: int, low': int, high': int, buy: int, sell: int)
    requires SuffixesWithin(residual, queue, low, high)
    requires PrefixesWithin(hedged, queue, buy, sell)
    requires low' <= low + signed && high + signed <= high'
    requires low' <= residual + signed - OUNCE * ounces <= high'
    requires buy <= hedged + Sum(queue) + OUNCE * ounces <= sell
    ensures
      var queue' := if ounces == 0 then queue else queue + [OUNCE * ounces];
      && SuffixesWithin(residual + signed - OUNCE * ounces, queue', low', high')
      && PrefixesWithin(hedged, queue', buy, sell)
      && Sum(queue') == Sum(queue) + OUNCE * ounces
  {
    if ounces == 0 {
      SuffixesWiden(residual, queue, signed, low, high, low', high');
    } else {
      SumAppend(queue, OUNCE * ounces);
      SuffixesAppend(residual, queue, signed, OUNCE * ounces, low, high, low', high');
      PrefixesAppend(hedged, queue, OUNCE * ounces, buy, sell);
    }
  }

  lemma FillKeepsInv(start: int, buyLeaves: nat, sellLeaves: nat, bounds: Bounds,
                     lane: Lane, signed: int)
    requires Abs(start) <= HALF && MakerCarryBounds(start, buyLeaves, sellLeaves) == Some(bounds)
    requires Inv(start, buyLeaves, sellLeaves, bounds, lane)
    requires Enabled(lane, Fill(signed), buyLeaves, sellLeaves)
    ensures Inv(start, buyLeaves, sellLeaves, bounds,
                Step(lane, Fill(signed), buyLeaves, sellLeaves))
  {
    HalfEvenZero(lane.residual + signed);
    FillKeepsInvFor(start, buyLeaves, sellLeaves, bounds, lane, signed, Allocation(lane, signed),
                    Step(lane, Fill(signed), buyLeaves, sellLeaves));
  }

  lemma FillKeepsExposure(start: int, buyLeaves: nat, sellLeaves: nat, bounds: Bounds, lane: Lane,
                          signed: int, ounces: int, next: Lane,
                          low: int, high: int, low': int, high': int)
    requires Abs(start) <= HALF && MakerCarryBounds(start, buyLeaves, sellLeaves) == Some(bounds)
    requires Inv(start, buyLeaves, sellLeaves, bounds, lane)
    requires Enabled(lane, Fill(signed), buyLeaves, sellLeaves)
    requires 2 * Abs(lane.residual + signed - OUNCE * ounces) <= OUNCE
    requires ounces == 0 <==> Abs(lane.residual + signed) <= HALF
    requires next.bought == lane.bought + Max(signed, 0) && next.sold == lane.sold + Max(-signed, 0)
    requires next.residual == lane.residual + signed - OUNCE * ounces
    requires low == Lowest(start, buyLeaves, sellLeaves, lane.bought, lane.sold)
    requires high == Highest(start, buyLeaves, sellLeaves, lane.bought, lane.sold)
    requires low' == Lowest(start, buyLeaves, sellLeaves, next.bought, next.sold)
    requires high' == Highest(start, buyLeaves, sellLeaves, next.bought, next.sold)
    ensures low' <= low + signed && high + signed <= high' && low' <= next.residual <= high'
  {
    SuffixesEnd(lane.residual, lane.queue, low, high);
    FillKeepsExposureBand(start, buyLeaves, sellLeaves, lane.residual, lane.bought, lane.sold,
                          signed, ounces);
  }

  lemma FillKeepsTotal(start: int, buyLeaves: nat, sellLeaves: nat, bounds: Bounds,
                       lane: Lane, signed: int, ounces: int, next: Lane)
    requires Abs(start) <= HALF && MakerCarryBounds(start, buyLeaves, sellLeaves) == Some(bounds)
    requires Inv(start, buyLeaves, sellLeaves, bounds, lane)
    requires Enabled(lane, Fill(signed), buyLeaves, sellLeaves)
    requires 2 * Abs(lane.residual + signed - OUNCE * ounces) <= OUNCE
    requires ounces > 0 <==> lane.residual + signed > HALF
    requires ounces == 0 <==> Abs(lane.residual + signed) <= HALF
    requires next.bought == lane.bought + Max(signed, 0) && next.sold == lane.sold + Max(-signed, 0)
    requires next.residual == lane.residual + signed - OUNCE * ounces
    requires next.ounceTotal == lane.ounceTotal + ounces
    ensures -bounds.buy <= next.ounceTotal <= bounds.sell
  {
    PrefixesTotal(lane.hedged, lane.queue, -OUNCE * bounds.buy, OUNCE * bounds.sell);
    assert signed > 0 ==> ounces >= 0;
    assert signed < 0 ==> ounces <= 0;
    FillKeepsHedgeBand(start, buyLeaves, sellLeaves, bounds, next.bought, next.sold,
                       next.residual, next.ounceTotal, lane.ounceTotal);
  }

  lemma FillKeepsInvFor(start: int, buyLeaves: nat, sellLeaves: nat, bounds: Bounds,
                        lane: Lane, signed: int, ounces: int, next: Lane)
    requires Abs(start) <= HALF && MakerCarryBounds(start, buyLeaves, sellLeaves) == Some(bounds)
    requires Inv(start, buyLeaves, sellLeaves, bounds, lane)
    requires Enabled(lane, Fill(signed), buyLeaves, sellLeaves)
    requires 2 * Abs(lane.residual + signed - OUNCE * ounces) <= OUNCE
    requires ounces == 0 <==> Abs(lane.residual + signed) <= HALF
    requires ounces > 0 <==> lane.residual + signed > HALF
    requires next == Lane(lane.residual + signed - OUNCE * ounces,
                          if ounces == 0 then lane.queue else lane.queue + [OUNCE * ounces],
                          lane.hedged, lane.bought + Max(signed, 0), lane.sold + Max(-signed, 0),
                          lane.ounceTotal + ounces)
    ensures Inv(start, buyLeaves, sellLeaves, bounds, next)
  {
    var low, high := Lowest(start, buyLeaves, sellLeaves, lane.bought, lane.sold),
                     Highest(start, buyLeaves, sellLeaves, lane.bought, lane.sold);
    var low', high' := Lowest(start, buyLeaves, sellLeaves, next.bought, next.sold),
                       Highest(start, buyLeaves, sellLeaves, next.bought, next.sold);
    FillKeepsExposure(start, buyLeaves, sellLeaves, bounds, lane, signed, ounces, next,
                      low, high, low', high');
    FillKeepsTotal(start, buyLeaves, sellLeaves, bounds, lane, signed, ounces, next);
    AllocatingKeepsBands(lane.residual, lane.queue, lane.hedged, signed, ounces, low, high,
                         low', high', -OUNCE * bounds.buy, OUNCE * bounds.sell);
  }

  lemma ExecuteKeepsInv(start: int, buyLeaves: nat, sellLeaves: nat, bounds: Bounds,
                        lane: Lane, portion: int)
    requires Inv(start, buyLeaves, sellLeaves, bounds, lane)
    requires Enabled(lane, Execute(portion), buyLeaves, sellLeaves)
    ensures Inv(start, buyLeaves, sellLeaves, bounds,
                Step(lane, Execute(portion), buyLeaves, sellLeaves))
  {
    var rest := lane.queue[0] - portion;
    if rest != 0 {
      assert ([rest] + lane.queue[1..])[1..] == lane.queue[1..];
    }
    // Both bands hold before and after the whole obligation, hence part-way through it.
    assert SuffixesWithin(lane.residual, lane.queue[1..],
                          Lowest(start, buyLeaves, sellLeaves, lane.bought, lane.sold),
                          Highest(start, buyLeaves, sellLeaves, lane.bought, lane.sold));
    assert PrefixesWithin(lane.hedged + lane.queue[0], lane.queue[1..],
                          -OUNCE * bounds.buy, OUNCE * bounds.sell);
  }

  lemma {:induction false} RunKeepsInv(start: int, buyLeaves: nat, sellLeaves: nat, bounds: Bounds,
                                       lane: Lane, events: seq<Event>)
    requires Abs(start) <= HALF && MakerCarryBounds(start, buyLeaves, sellLeaves) == Some(bounds)
    requires Inv(start, buyLeaves, sellLeaves, bounds, lane)
    requires CanRun(lane, events, buyLeaves, sellLeaves)
    ensures Inv(start, buyLeaves, sellLeaves, bounds, Run(lane, events, buyLeaves, sellLeaves))
    decreases |events|
  {
    if events != [] {
      match events[0] {
        case Fill(signed) =>
          FillKeepsInv(start, buyLeaves, sellLeaves, bounds, lane, signed);
        case Execute(portion) =>
          ExecuteKeepsInv(start, buyLeaves, sellLeaves, bounds, lane, portion);
      }
      RunKeepsInv(start, buyLeaves, sellLeaves, bounds,
                  Step(lane, events[0], buyLeaves, sellLeaves), events[1..]);
    }
  }

  lemma BandWithinExposureBound(start: int, buyLeaves: nat, sellLeaves: nat, bounds: Bounds,
                                bought: nat, sold: nat, exposure: int)
    requires Abs(start) <= HALF && MakerCarryBounds(start, buyLeaves, sellLeaves) == Some(bounds)
    requires bought <= buyLeaves && sold <= sellLeaves
    requires Lowest(start, buyLeaves, sellLeaves, bought, sold) <= exposure
          <= Highest(start, buyLeaves, sellLeaves, bought, sold)
    ensures Abs(exposure) <= bounds.exposure
  {
  }

  /** What a fill can meet: the residual never exceeds the start by more than the fills, nor,
      when the other side also works, half an ounce. */
  lemma CombinedWithinQuantity(start: int, buyLeaves: nat, sellLeaves: nat, residual: int,
                               bought: nat, sold: nat, signed: int)
    requires Abs(residual) <= HALF && bought <= buyLeaves && sold <= sellLeaves
    requires Lowest(start, buyLeaves, sellLeaves, bought, sold) <= residual
          <= Highest(start, buyLeaves, sellLeaves, bought, sold)
    requires signed > 0 ==> bought + signed <= buyLeaves
    requires signed < 0 ==> sold - signed <= sellLeaves
    ensures signed > 0 ==>
      -HALF < residual + signed <= (if sellLeaves > 0 then HALF else start) + buyLeaves
    ensures signed < 0 ==>
      -HALF < -(residual + signed) <= (if buyLeaves > 0 then HALF else -start) + sellLeaves
  {
  }

  // ---------------------------------------------------------------- main results

  /** Over every split and interleaving within the leaves, and stopped anywhere, the exposure
      and the net executed hedge stay within the closed forms. */
  lemma CarryBoundsHold(start: int, buyLeaves: nat, sellLeaves: nat, events: seq<Event>)
    requires Abs(start) <= HALF
    requires CanRun(Settled(start), events, buyLeaves, sellLeaves)
    ensures
      var bounds := MakerCarryBounds(start, buyLeaves, sellLeaves).value;
      var lane := Run(Settled(start), events, buyLeaves, sellLeaves);
      && Abs(Exposure(start, lane)) <= bounds.exposure
      && -OUNCE * bounds.buy <= lane.hedged <= OUNCE * bounds.sell
  {
    var bounds := MakerCarryBounds(start, buyLeaves, sellLeaves).value;
    StartIsInBands(start, buyLeaves, sellLeaves, bounds);
    RunKeepsInv(start, buyLeaves, sellLeaves, bounds, Settled(start), events);
    var lane := Run(Settled(start), events, buyLeaves, sellLeaves);
    BandWithinExposureBound(start, buyLeaves, sellLeaves, bounds, lane.bought, lane.sold,
                            Exposure(start, lane));
  }

  lemma StartIsInBands(start: int, buyLeaves: nat, sellLeaves: nat, bounds: Bounds)
    requires Abs(start) <= HALF && MakerCarryBounds(start, buyLeaves, sellLeaves) == Some(bounds)
    ensures Inv(start, buyLeaves, sellLeaves, bounds, Settled(start))
  {
  }

  /** A buy never creates a BUY hedge nor a sell a SELL hedge, and no single obligation of any
      run exceeds the single-intent bound of its side. */
  lemma SingleIntentBound(start: int, buyLeaves: nat, sellLeaves: nat,
                          events: seq<Event>, signed: int)
    requires Abs(start) <= HALF
    requires CanRun(Settled(start), events, buyLeaves, sellLeaves)
    requires Enabled(Run(Settled(start), events, buyLeaves, sellLeaves), Fill(signed),
                     buyLeaves, sellLeaves)
    ensures
      var ounces := Allocation(Run(Settled(start), events, buyLeaves, sellLeaves), signed);
      && (signed > 0 ==>
            0 <= ounces <= MakerHedgeQuantityBound(start, buyLeaves, Long, sellLeaves > 0))
      && (signed < 0 ==>
            0 <= -ounces <= MakerHedgeQuantityBound(start, sellLeaves, Short, buyLeaves > 0))
  {
    var bounds := MakerCarryBounds(start, buyLeaves, sellLeaves).value;
    StartIsInBands(start, buyLeaves, sellLeaves, bounds);
    RunKeepsInv(start, buyLeaves, sellLeaves, bounds, Settled(start), events);
    var lane := Run(Settled(start), events, buyLeaves, sellLeaves);
    SuffixesEnd(lane.residual, lane.queue,
                Lowest(start, buyLeaves, sellLeaves, lane.bought, lane.sold),
                Highest(start, buyLeaves, sellLeaves, lane.bought, lane.sold));
    IntentOfBandedResidual(start, buyLeaves, sellLeaves, lane, signed);
  }

  lemma IntentOfBandedResidual(start: int, buyLeaves: nat, sellLeaves: nat, lane: Lane, signed: int)
    requires Abs(lane.residual) <= HALF && Enabled(lane, Fill(signed), buyLeaves, sellLeaves)
    requires lane.bought <= buyLeaves && lane.sold <= sellLeaves
    requires Lowest(start, buyLeaves, sellLeaves, lane.bought, lane.sold) <= lane.residual
          <= Highest(start, buyLeaves, sellLeaves, lane.bought, lane.sold)
    ensures signed > 0 ==>
      0 <= Allocation(lane, signed) <= MakerHedgeQuantityBound(start, buyLeaves, Long, sellLeaves > 0)
    ensures signed < 0 ==>
      0 <= -Allocation(lane, signed) <= MakerHedgeQuantityBound(start, sellLeaves, Short, buyLeaves > 0)
  {
    CombinedWithinQuantity(start, buyLeaves, sellLeaves, lane.residual, lane.bought, lane.sold, signed);
    if signed > 0 {
      BuyIntent(lane, signed, (if sellLeaves > 0 then HALF else start) + buyLeaves);
    } else {
      SellIntent(lane, signed, (if buyLeaves > 0 then HALF else -start) + sellLeaves);
    }
    BoundIsRoundedLimit(start, buyLeaves, sellLeaves);
  }

  lemma BuyIntent(lane: Lane, signed: int, limit: int)
    requires -HALF < lane.residual + signed <= limit
    ensures 0 <= Allocation(lane, signed) <= HalfEven(limit)
  {
    RoundedBetween(lane.residual + signed, limit);
  }

  lemma SellIntent(lane: Lane, signed: int, limit: int)
    requires -HALF < -(lane.residual + signed) <= limit
    ensures 0 <= -Allocation(lane, signed) <= HalfEven(limit)
  {
    RoundedBetween(-(lane.residual + signed), limit);
    HalfEvenOdd(lane.residual + signed);
  }

  lemma BoundIsRoundedLimit(start: int, buyLeaves: nat, sellLeaves: nat)
    ensures HalfEven((if sellLeaves > 0 then HALF else start) + buyLeaves)
         <= MakerHedgeQuantityBound(start, buyLeaves, Long, sellLeaves > 0)
    ensures HalfEven((if buyLeaves > 0 then HALF else -start) + sellLeaves)
         <= MakerHedgeQuantityBound(start, sellLeaves, Short, buyLeaves > 0)
  {
  }

  lemma RoundedBetween(combined: int, limit: int)
    ensures -HALF < combined <= limit ==> 0 <= HalfEven(combined) <= HalfEven(limit)
  {
    if -HALF < combined <= limit {
      HalfEvenZero(combined);
      HalfEvenMonotone(combined, limit);
    }
  }

  /** With one side working the exposure bound is not only safe but exact: some run shows it. */
  lemma OneSidedExposureIsAttained(start: int, buyLeaves: nat, sellLeaves: nat)
    returns (events: seq<Event>)
    requires Abs(start) <= HALF && (buyLeaves == 0 || sellLeaves == 0)
    ensures CanRun(Settled(start), events, buyLeaves, sellLeaves)
    ensures Abs(Exposure(start, Run(Settled(start), events, buyLeaves, sellLeaves)))
         == MakerCarryBounds(start, buyLeaves, sellLeaves).value.exposure
  {
    var net := buyLeaves - sellLeaves;
    if Abs(start) < Abs(start + net) {
      events := [Fill(net)];
      assert CanRun(Step(Settled(start), Fill(net), buyLeaves, sellLeaves), events[1..],
                    buyLeaves, sellLeaves);
    } else {
      events := [];
    }
  }

  lemma FillThenHedge(lane: Lane, signed: int, ounces: int, buyLeaves: nat, sellLeaves: nat)
    returns (events: seq<Event>)
    requires lane.queue == [] && Enabled(lane, Fill(signed), buyLeaves, sellLeaves)
    requires ounces == Allocation(lane, signed) && ounces != 0
    ensures CanRun(lane, events, buyLeaves, sellLeaves)
    ensures
      var filled := Step(lane, Fill(signed), buyLeaves, sellLeaves);
      Run(lane, events, buyLeaves, sellLeaves) == filled.(queue := [], hedged := lane.hedged + OUNCE * ounces)
  {
    var fill, execute := Fill(signed), Execute(OUNCE * ounces);
    events := [fill, execute];
    var filled := Step(lane, fill, buyLeaves, sellLeaves);
    assert filled.queue == [OUNCE * ounces];
    var hedged := Step(filled, execute, buyLeaves, sellLeaves);
    assert hedged.queue == [];
    assert events[1..] == [execute];
    assert CanRun(hedged, events[1..][1..], buyLeaves, sellLeaves);
    assert CanRun(filled, events[1..], buyLeaves, sellLeaves);
    assert Run(filled, events[1..], buyLeaves, sellLeaves) == hedged;
  }

  lemma TailOfAppend(front: seq<Event>, back: seq<Event>)
    requires front != []
    ensures (front + back)[0] == front[0] && (front + back)[1..] == front[1..] + back
  {
  }

  lemma {:induction false} RunAppend(lane: Lane, front: seq<Event>, back: seq<Event>, buyLeaves: nat, sellLeaves: nat)
    requires CanRun(lane, front, buyLeaves, sellLeaves)
    requires CanRun(Run(lane, front, buyLeaves, sellLeaves), back, buyLeaves, sellLeaves)
    ensures CanRun(lane, front + back, buyLeaves, sellLeaves)
    ensures Run(lane, front + back, buyLeaves, sellLeaves)
         == Run(Run(lane, front, buyLeaves, sellLeaves), back, buyLeaves, sellLeaves)
    decreases |front|
  {
    if front == [] {
      assert front + back == back;
    } else {
      TailOfAppend(front, back);
      RunAppend(Step(lane, front[0], buyLeaves, sellLeaves), front[1..], back, buyLeaves, sellLeaves);
    }
  }

  ghost predicate Sells(start: int, buyLeaves: nat, sellLeaves: nat, events: seq<Event>, hedged: int) {
    CanRun(Settled(start), events, buyLeaves, sellLeaves)
    && Run(Settled(start), events, buyLeaves, sellLeaves).hedged == hedged
  }

  /** Some run ends with exactly this net executed hedge. */
  ghost predicate SomeRunSells(start: int, buyLeaves: nat, sellLeaves: nat, hedged: int) {
    exists events :: Sells(start, buyLeaves, sellLeaves, events, hedged)
  }

  /** One whole fill, or at a tie that rounds down an ounce first, reaches the SELL bound. */
  lemma SellBoundReached(start: int, buyLeaves: nat, sellLeaves: nat, sell: int) returns (events: seq<Event>)
    requires Abs(start) <= HALF && (buyLeaves == 0 || start + buyLeaves != HALF)
    requires sell == MakerCarryBounds(start, buyLeaves, sellLeaves).value.sell
    ensures Sells(start, buyLeaves, sellLeaves, events, OUNCE * sell)
  {
    if sell == 0 {
      events := [];
    } else if HalfEven(start + buyLeaves) == sell {
      events := FillThenHedge(Settled(start), buyLeaves, sell, buyLeaves, sellLeaves);
    } else {
      // A tie: the first ounce makes the rest round up.
      assert start + buyLeaves == OUNCE * sell - HALF && sell % 2 == 1 && sell >= 3 by {
        TieRoundsDown(start + buyLeaves, sell);
      }
      HalfEvenUnique(OUNCE, 1);
      var first := FillThenHedge(Settled(start), OUNCE - start, 1, buyLeaves, sellLeaves);
      var lane := Run(Settled(start), first, buyLeaves, sellLeaves);
      var rest := buyLeaves - (OUNCE - start);
      HalfEvenUnique(rest, sell - 1);
      var second := FillThenHedge(lane, rest, sell - 1, buyLeaves, sellLeaves);
      RunAppend(Settled(start), first, second, buyLeaves, sellLeaves);
      events := first + second;
    }
  }

  lemma TieRoundsDown(combined: int, sell: int)
    requires sell == FloorOunces(combined + HALF) && sell > 0
    requires HalfEven(combined) != sell && combined != HALF
    ensures combined == OUNCE * sell - HALF && sell % 2 == 1 && sell >= 3
  {
    if combined != OUNCE * sell - HALF || sell % 2 == 0 {
      HalfEvenUnique(combined, sell);
    }
  }

  // Buying can only ever bring the combined quantity up to half an ounce.
  ghost predicate TieInv(start: int, buyLeaves: nat, sellLeaves: nat, bounds: Bounds, lane: Lane) {
    && Inv(start, buyLeaves, sellLeaves, bounds, lane)
    && (lane.sold == 0 ==> lane.ounceTotal >= 0)
    && PrefixesWithin(lane.hedged, lane.queue, -OUNCE * bounds.buy, 0)
  }

  lemma TieTotal(start: int, buyLeaves: nat, lane: Lane, signed: int, ounces: int)
    requires Abs(start) <= HALF && start + buyLeaves == HALF && Abs(lane.residual) <= HALF
    requires start + lane.bought - lane.sold == lane.residual + OUNCE * lane.ounceTotal
    requires lane.bought + Max(signed, 0) <= buyLeaves && signed != 0 && lane.ounceTotal <= 0
    requires lane.sold == 0 ==> lane.ounceTotal >= 0
    requires 2 * Abs(lane.residual + signed - OUNCE * ounces) <= OUNCE
    requires ounces == 0 <==> Abs(lane.residual + signed) <= HALF
    requires ounces > 0 <==> lane.residual + signed > HALF
    ensures lane.ounceTotal + ounces <= 0
    ensures lane.sold + Max(-signed, 0) == 0 ==> lane.ounceTotal + ounces >= 0
  {
  }

  lemma TieFill(start: int, buyLeaves: nat, sellLeaves: nat, bounds: Bounds, lane: Lane, signed: int, ounces: int,
                next: Lane)
    requires Abs(start) <= HALF && MakerCarryBounds(start, buyLeaves, sellLeaves) == Some(bounds)
    requires start + buyLeaves == HALF && TieInv(start, buyLeaves, sellLeaves, bounds, lane)
    requires Enabled(lane, Fill(signed), buyLeaves, sellLeaves) && ounces == Allocation(lane, signed)
    requires next == Step(lane, Fill(signed), buyLeaves, sellLeaves)
    ensures TieInv(start, buyLeaves, sellLeaves, bounds, next)
  {
    FillKeepsInv(start, buyLeaves, sellLeaves, bounds, lane, signed);
    HalfEvenZero(lane.residual + signed);
    PrefixesTotal(lane.hedged, lane.queue, -OUNCE * bounds.buy, 0);
    PrefixesTotal(next.hedged, next.queue, -OUNCE * bounds.buy, OUNCE * bounds.sell);
    TieTotal(start, buyLeaves, lane, signed, ounces);
    if ounces != 0 {
      SumAppend(lane.queue, OUNCE * ounces);
      PrefixesAppend(lane.hedged, lane.queue, OUNCE * ounces, -OUNCE * bounds.buy, 0);
    }
  }

  lemma TieExecute(start: int, buyLeaves: nat, sellLeaves: nat, bounds: Bounds, lane: Lane, portion: int, next: Lane)
    requires TieInv(start, buyLeaves, sellLeaves, bounds, lane)
    requires Enabled(lane, Execute(portion), buyLeaves, sellLeaves)
    requires next == Step(lane, Execute(portion), buyLeaves, sellLeaves)
    ensures TieInv(start, buyLeaves, sellLeaves, bounds, next)
  {
    ExecuteKeepsInv(start, buyLeaves, sellLeaves, bounds, lane, portion);
    var rest := lane.queue[0] - portion;
    if rest != 0 {
      assert ([rest] + lane.queue[1..])[1..] == lane.queue[1..];
    }
    assert PrefixesWithin(lane.hedged + lane.queue[0], lane.queue[1..], -OUNCE * bounds.buy, 0);
  }

  lemma {:induction false} TieRun(start: int, buyLeaves: nat, sellLeaves: nat, bounds: Bounds, lane: Lane,
                                  events: seq<Event>)
    requires Abs(start) <= HALF && MakerCarryBounds(start, buyLeaves, sellLeaves) == Some(bounds)
    requires start + buyLeaves == HALF && TieInv(start, buyLeaves, sellLeaves, bounds, lane)
    requires CanRun(lane, events, buyLeaves, sellLeaves)
    ensures Run(lane, events, buyLeaves, sellLeaves).hedged <= 0
    decreases |events|
  {
    if events != [] {
      var next := Step(lane, events[0], buyLeaves, sellLeaves);
      match events[0] {
        case Fill(signed) =>
          TieFill(start, buyLeaves, sellLeaves, bounds, lane, signed, Allocation(lane, signed), next);
        case Execute(portion) =>
          TieExecute(start, buyLeaves, sellLeaves, bounds, lane, portion, next);
      }
      TieRun(start, buyLeaves, sellLeaves, bounds, next, events[1..]);
    }
  }

  /** The cumulative SELL bound is exact, except when all buying together only reaches half an
      ounce: half-to-even rounding then sells nothing, and the bound still counts one ounce. */
  lemma SellBoundIsAttainedIff(start: int, buyLeaves: nat, sellLeaves: nat)
    requires Abs(start) <= HALF
    ensures
      var sell := MakerCarryBounds(start, buyLeaves, sellLeaves).value.sell;
      SomeRunSells(start, buyLeaves, sellLeaves, OUNCE * sell) <==> (buyLeaves == 0 || start + buyLeaves != HALF)
  {
    var bounds := MakerCarryBounds(start, buyLeaves, sellLeaves).value;
    if buyLeaves == 0 || start + buyLeaves != HALF {
      var events := SellBoundReached(start, buyLeaves, sellLeaves, bounds.sell);
    } else {
      StartIsInBands(start, buyLeaves, sellLeaves, bounds);
      forall events | CanRun(Settled(start), events, buyLeaves, sellLeaves)
        ensures Run(Settled(start), events, buyLeaves, sellLeaves).hedged <= 0
      {
        TieRun(start, buyLeaves, sellLeaves, bounds, Settled(start), events);
      }
    }
  }

  // ---------------------------------------------------------------- buying mirrors selling

  function Mirror(lane: Lane): Lane {
    Lane(-lane.residual, Negated(lane.queue), -lane.hedged, lane.sold, lane.bought, -lane.ounceTotal)
  }

  function Negated(queue: seq<int>): seq<int> {
    seq(|queue|, i requires 0 <= i < |queue| => -queue[i])
  }

  function MirrorEvent(event: Event): Event {
    match event
    case Fill(signed) => Fill(-signed)
    case Execute(portion) => Execute(-portion)
  }

  function MirrorAll(events: seq<Event>): seq<Event> {
    seq(|events|, i requires 0 <= i < |events| => MirrorEvent(events[i]))
  }

  lemma NegatedAppend(queue: seq<int>, last: int)
    ensures Negated(queue + [last]) == Negated(queue) + [-last]
    ensures Negated([last] + queue) == [-last] + Negated(queue)
    ensures queue != [] ==> Negated(queue)[1..] == Negated(queue[1..])
  {
  }

  lemma MirrorFill(lane: Lane, signed: int, ounces: int, buyLeaves: nat, sellLeaves: nat)
    requires Enabled(lane, Fill(signed), buyLeaves, sellLeaves) && ounces == Allocation(lane, signed)
    ensures Enabled(Mirror(lane), Fill(-signed), sellLeaves, buyLeaves)
    ensures Step(Mirror(lane), Fill(-signed), sellLeaves, buyLeaves)
         == Mirror(Step(lane, Fill(signed), buyLeaves, sellLeaves))
  {
    MirrorAllocation(lane, signed);
    var owed := OUNCE * ounces;
    assert OUNCE * -ounces == -owed;
    NegatedAppend(lane.queue, owed);
  }

  lemma MirrorAllocation(lane: Lane, signed: int)
    ensures Allocation(Mirror(lane), -signed) == -Allocation(lane, signed)
  {
    var combined := lane.residual + signed;
    HalfEvenOdd(combined);
    assert Mirror(lane).residual - signed == -combined;
  }

  lemma MirrorExecute(lane: Lane, portion: int, buyLeaves: nat, sellLeaves: nat)
    requires Enabled(lane, Execute(portion), buyLeaves, sellLeaves)
    ensures Enabled(Mirror(lane), Execute(-portion), sellLeaves, buyLeaves)
    ensures Step(Mirror(lane), Execute(-portion), sellLeaves, buyLeaves)
         == Mirror(Step(lane, Execute(portion), buyLeaves, sellLeaves))
  {
    NegatedAppend(lane.queue, 0);
    NegatedAppend(lane.queue[1..], lane.queue[0] - portion);
  }

  lemma MirrorTail(events: seq<Event>)
    requires events != []
    ensures MirrorAll(events)[0] == MirrorEvent(events[0]) && MirrorAll(events)[1..] == MirrorAll(events[1..])
  {
  }

  /** Swapping the sides of every event swaps the sides of the whole run. */
  lemma {:induction false} MirrorRun(lane: Lane, events: seq<Event>, buyLeaves: nat, sellLeaves: nat)
    requires CanRun(lane, events, buyLeaves, sellLeaves)
    ensures CanRun(Mirror(lane), MirrorAll(events), sellLeaves, buyLeaves)
    ensures Run(Mirror(lane), MirrorAll(events), sellLeaves, buyLeaves)
         == Mirror(Run(lane, events, buyLeaves, sellLeaves))
    decreases |events|
  {
    if events != [] {
      match events[0] {
        case Fill(signed) => MirrorFill(lane, signed, Allocation(lane, signed), buyLeaves, sellLeaves);
        case Execute(portion) => MirrorExecute(lane, portion, buyLeaves, sellLeaves);
      }
      MirrorTail(events);
      MirrorRun(Step(lane, events[0], buyLeaves, sellLeaves), events[1..], buyLeaves, sellLeaves);
    }
  }

  lemma MirrorSettled(start: int, buyLeaves: nat, sellLeaves: nat, hedged: int)
    ensures SomeRunSells(start, buyLeaves, sellLeaves, hedged) ==> SomeRunSells(-start, sellLeaves, buyLeaves, -hedged)
  {
    if events :| Sells(start, buyLeaves, sellLeaves, events, hedged) {
      MirrorRun(Settled(start), events, buyLeaves, sellLeaves);
      assert Mirror(Settled(start)) == Settled(-start);
      assert Sells(-start, sellLeaves, buyLeaves, MirrorAll(events), -hedged);
    }
  }

  /** The cumulative BUY bound is exact under the mirrored condition. */
  lemma BuyBoundIsAttainedIff(start: int, buyLeaves: nat, sellLeaves: nat)
    requires Abs(start) <= HALF
    ensures
      var buy := MakerCarryBounds(start, buyLeaves, sellLeaves).value.buy;
      SomeRunSells(start, buyLeaves, sellLeaves, -OUNCE * buy) <==> (sellLeaves == 0 || start - sellLeaves != -HALF)
  {
    var buy := MakerCarryBounds(start, buyLeaves, sellLeaves).value.buy;
    assert buy == MakerCarryBounds(-start, sellLeaves, buyLeaves).value.sell;
    SellBoundIsAttainedIff(-start, sellLeaves, buyLeaves);
    MirrorSettled(start, buyLeaves, sellLeaves, -OUNCE * buy);
    MirrorSettled(-start, sellLeaves, buyLeaves, OUNCE * buy);
  }

  // ---------------------------------------------------------------- the hedge account gate

  datatype HedgeAccount = HedgeAccount(position: int, maxLong: int, maxShort: int)
  datatype Risk = Risk(maximum: int, minimum: int, onlyLong: bool)

  predicate AccountAllows(before: int, change: int, capacity: int, risk: Risk) {
    var after := before + change;
    if Abs(change) > capacity then false
    else if Abs(after) > risk.maximum && Abs(after) > Abs(before) then false
    else if !risk.onlyLong then true
    else if before * after < 0 then false
    else !(Abs(after) < risk.minimum && Abs(after) < Abs(before))
  }

  predicate MakerHedgeBoundsAllow(account: HedgeAccount, risk: Risk, buy: int, sell: int) {
    && AccountAllows(account.position, OUNCE * buy, account.maxLong, risk)
    && AccountAllows(account.position, -OUNCE * sell, account.maxShort, risk)
  }

  lemma ProductSign(x: int, y: int)
    ensures x * y < 0 <==> (x < 0 < y || y < 0 < x)
  {
    if x > 0 && y > 0 { assert x * y > 0; }
    if x < 0 && y < 0 { assert x * y == (-x) * (-y) > 0; }
    if x > 0 && y < 0 { assert x * -y > 0; }
    if x < 0 && y > 0 { assert -x * y > 0; }
  }

  /** The gate, with every limit written out: a BUY of `buy` ounces fits the long capacity, a SELL
      of `sell` ounces the short one, neither end exceeds the maximum unless it shrinks the position,
      and a long-only account neither changes side nor shrinks below its minimum at either end. */
  lemma GateIff(account: HedgeAccount, risk: Risk, buy: nat, sell: nat)
    ensures
      var before := account.position;
      var bought := before + OUNCE * buy;
      var sold := before - OUNCE * sell;
      MakerHedgeBoundsAllow(account, risk, buy, sell)
      <==>
      && OUNCE * buy <= account.maxLong
      && OUNCE * sell <= account.maxShort
      && (Abs(bought) <= risk.maximum || Abs(bought) <= Abs(before))
      && (Abs(sold) <= risk.maximum || Abs(sold) <= Abs(before))
      && (risk.onlyLong ==>
            && (before > 0 ==> sold >= 0)
            && (before < 0 ==> bought <= 0)
            && (Abs(bought) >= risk.minimum || Abs(bought) >= Abs(before))
            && (Abs(sold) >= risk.minimum || Abs(sold) >= Abs(before)))
  {
    ProductSign(account.position, account.position + OUNCE * buy);
    ProductSign(account.position, account.position - OUNCE * sell);
  }

  /** Two accepted end points make every position between them acceptable. */
  lemma BetweenAcceptedEnds(account: HedgeAccount, risk: Risk, buy: nat, sell: nat, position: int)
    requires MakerHedgeBoundsAllow(account, risk, buy, sell)
    requires account.position - OUNCE * sell <= position <= account.position + OUNCE * buy
    ensures Abs(position) <= Max(Abs(account.position), risk.maximum)
    ensures risk.onlyLong ==>
      && account.position * position >= 0
      && Abs(position) >= Min(Abs(account.position), risk.minimum)
  {
    ProductSign(account.position, position);
    ProductSign(account.position, account.position + OUNCE * buy);
    ProductSign(account.position, account.position - OUNCE * sell);
  }

  /** Once the gate accepts the two cumulative bounds, the hedge stays within both capacities and the
      hedge position is admissible at every point of every run, not only at the ends the gate saw. */
  lemma GateCoversEveryPoint(account: HedgeAccount, risk: Risk, start: int,
                             buyLeaves: nat, sellLeaves: nat, events: seq<Event>)
    requires Abs(start) <= HALF
    requires CanRun(Settled(start), events, buyLeaves, sellLeaves)
    requires var bounds := MakerCarryBounds(start, buyLeaves, sellLeaves).value;
             MakerHedgeBoundsAllow(account, risk, bounds.buy, bounds.sell)
    ensures
      var hedged := Run(Settled(start), events, buyLeaves, sellLeaves).hedged;
      -account.maxShort <= -hedged <= account.maxLong
    ensures
      var position := account.position - Run(Settled(start), events, buyLeaves, sellLeaves).hedged;
      && Abs(position) <= Max(Abs(account.position), risk.maximum)
      && (risk.onlyLong ==>
            && account.position * position >= 0
            && Abs(position) >= Min(Abs(account.position), risk.minimum))
  {
    CarryBoundsHold(start, buyLeaves, sellLeaves, events);
    var bounds := MakerCarryBounds(start, buyLeaves, sellLeaves).value;
    var lane := Run(Settled(start), events, buyLeaves, sellLeaves);
    GateIff(account, risk, bounds.buy, bounds.sell);
    BetweenAcceptedEnds(account, risk, bounds.buy, bounds.sell, account.position - lane.hedged);
  }
}
