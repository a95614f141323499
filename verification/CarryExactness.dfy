/** How far the carry bounds are reached: the exact worst cases of one route. */
module CarryExactness {
  import opened Rounding
  import opened CarryBounds

  /** The largest residual that selling alone can leave, before anything is bought.  Half an ounce
      takes a tie that rounds to an even ounce, an ounce and a half below; one unit less takes only
      a sale past half an ounce. */
  function BestResidual(start: int, sellLeaves: nat): int {
    if start == HALF || sellLeaves >= start + OUNCE + HALF then HALF
    else if sellLeaves > start + HALF then HALF - 1
    else start
  }

  // ---------------------------------------------------------------- what every run keeps

  /** Before anything is bought nothing was allocated to sell, and a residual of half an ounce that
      was not there at the start took a tie at an even number of ounces. */
  predicate OnlySold(start: int, lane: Lane) {
    lane.bought == 0 ==> lane.ounceTotal <= 0 && (lane.residual == HALF && start != HALF ==> lane.ounceTotal <= -2)
  }

  predicate OnlyBought(start: int, lane: Lane) {
    lane.sold == 0 ==> lane.ounceTotal >= 0 && (lane.residual == -HALF && start != -HALF ==> lane.ounceTotal >= 2)
  }

  predicate Accounts(start: int, buyLeaves: nat, sellLeaves: nat, lane: Lane) {
    && lane.bought <= buyLeaves && lane.sold <= sellLeaves && Abs(lane.residual) <= HALF
    && start + lane.bought - lane.sold == lane.residual + OUNCE * lane.ounceTotal
    && lane.hedged + Sum(lane.queue) == OUNCE * lane.ounceTotal
    && OnlySold(start, lane) && OnlyBought(start, lane)
  }

  /** The exposure left after completing any number of whole obligations stays in the exact band. */
  ghost predicate Tight(start: int, buyLeaves: nat, sellLeaves: nat, lane: Lane) {
    && Accounts(start, buyLeaves, sellLeaves, lane)
    && SuffixesWithin(lane.residual, lane.queue,
                      -BestResidual(-start, buyLeaves) - lane.sold, BestResidual(start, sellLeaves) + lane.bought)
  }

  lemma ResidualWithinBest(start: int, buyLeaves: nat, sellLeaves: nat, lane: Lane)
    requires Abs(start) <= HALF && lane.bought <= buyLeaves && lane.sold <= sellLeaves && Abs(lane.residual) <= HALF
    requires start + lane.bought - lane.sold == lane.residual + OUNCE * lane.ounceTotal
    ensures OnlySold(start, lane) ==> lane.residual <= BestResidual(start, sellLeaves) + lane.bought
    ensures OnlyBought(start, lane) ==> -BestResidual(-start, buyLeaves) - lane.sold <= lane.residual
  {
  }

  lemma EvenTie(combined: int, ounces: int)
    requires ounces == HalfEven(combined) && Abs(combined - OUNCE * ounces) == HALF
    ensures ounces % 2 == 0
  {
  }

  lemma OneSideKept(start: int, lane: Lane, signed: int, ounces: int, next: Lane)
    requires Abs(start) <= HALF && Abs(lane.residual) <= HALF && signed != 0
    requires ounces == HalfEven(lane.residual + signed)
    requires next.residual == lane.residual + signed - OUNCE * ounces && next.ounceTotal == lane.ounceTotal + ounces
    requires next.bought == lane.bought + Max(signed, 0) && next.sold == lane.sold + Max(-signed, 0)
    ensures OnlySold(start, lane) ==> OnlySold(start, next)
    ensures OnlyBought(start, lane) ==> OnlyBought(start, next)
  {
    HalfEvenZero(lane.residual + signed);
    HalfEvenZero(-(lane.residual + signed));
    HalfEvenOdd(lane.residual + signed);
    if Abs(next.residual) == HALF {
      EvenTie(lane.residual + signed, ounces);
    }
  }

  lemma FillKeepsAccounts(start: int, buyLeaves: nat, sellLeaves: nat, lane: Lane, signed: int, ounces: int, next: Lane)
    requires Abs(start) <= HALF && Accounts(start, buyLeaves, sellLeaves, lane)
    requires Enabled(lane, Fill(signed), buyLeaves, sellLeaves) && ounces == Allocation(lane, signed)
    requires next == Step(lane, Fill(signed), buyLeaves, sellLeaves)
    ensures Accounts(start, buyLeaves, sellLeaves, next)
  {
    OneSideKept(start, lane, signed, ounces, next);
    SumAppend(lane.queue, OUNCE * ounces);
  }

  lemma FillKeepsTight(start: int, buyLeaves: nat, sellLeaves: nat, lane: Lane, signed: int, ounces: int, next: Lane)
    requires Abs(start) <= HALF && Tight(start, buyLeaves, sellLeaves, lane)
    requires Enabled(lane, Fill(signed), buyLeaves, sellLeaves) && ounces == Allocation(lane, signed)
    requires next == Step(lane, Fill(signed), buyLeaves, sellLeaves)
    ensures Tight(start, buyLeaves, sellLeaves, next)
  {
    FillKeepsAccounts(start, buyLeaves, sellLeaves, lane, signed, ounces, next);
    ResidualWithinBest(start, buyLeaves, sellLeaves, next);
    var low, high := -BestResidual(-start, buyLeaves), BestResidual(start, sellLeaves);
    AllocatingKeepsSuffixes(lane.residual, lane.queue, signed, ounces, next.residual, next.queue,
                            low - lane.sold, high + lane.bought, low - next.sold, high + next.bought);
  }

  lemma AllocatingKeepsSuffixes(residual: int, queue: seq<int>, signed: int, ounces: int, residual': int, queue': seq<int>,
                                low: int, high: int, low': int, high': int)
    requires SuffixesWithin(residual, queue, low, high) && low' <= residual' <= high'
    requires low' <= low + signed && high + signed <= high' && residual' == residual + signed - OUNCE * ounces
    requires queue' == if ounces == 0 then queue else queue + [OUNCE * ounces]
    ensures SuffixesWithin(residual', queue', low', high') && Sum(queue') == Sum(queue) + OUNCE * ounces
  {
    if ounces == 0 {
      SuffixesWiden(residual, queue, signed, low, high, low', high');
    } else {
      SumAppend(queue, OUNCE * ounces);
      SuffixesAppend(residual, queue, signed, OUNCE * ounces, low, high, low', high');
    }
  }

  lemma ExecuteKeepsSuffixes(residual: int, queue: seq<int>, portion: int, rest: seq<int>, low: int, high: int)
    requires SuffixesWithin(residual, queue, low, high) && queue != []
    requires 0 < portion <= queue[0] || queue[0] <= portion < 0
    requires rest == if queue[0] == portion then queue[1..] else [queue[0] - portion] + queue[1..]
    ensures SuffixesWithin(residual, rest, low, high) && Sum(rest) == Sum(queue) - portion
  {
    assert SuffixesWithin(residual, queue[1..], low, high);
    if queue[0] != portion {
      assert rest[1..] == queue[1..];
    }
  }

  lemma {:induction false} RunKeepsTight(start: int, buyLeaves: nat, sellLeaves: nat, lane: Lane, events: seq<Event>)
    requires Abs(start) <= HALF && Tight(start, buyLeaves, sellLeaves, lane)
    requires CanRun(lane, events, buyLeaves, sellLeaves)
    ensures Tight(start, buyLeaves, sellLeaves, Run(lane, events, buyLeaves, sellLeaves))
    decreases |events|
  {
    if events != [] {
      var next := Step(lane, events[0], buyLeaves, sellLeaves);
      match events[0] {
        case Fill(signed) =>
          FillKeepsTight(start, buyLeaves, sellLeaves, lane, signed, Allocation(lane, signed), next);
        case Execute(portion) =>
          ExecuteKeepsSuffixes(lane.residual, lane.queue, portion, next.queue,
                               -BestResidual(-start, buyLeaves) - lane.sold, BestResidual(start, sellLeaves) + lane.bought);
      }
      RunKeepsTight(start, buyLeaves, sellLeaves, next, events[1..]);
    }
  }

  // ---------------------------------------------------------------- the worst exposure

  /** Some run shows exactly this exposure. */
  ghost predicate SomeRunShows(start: int, buyLeaves: nat, sellLeaves: nat, exposure: int) {
    exists events :: Shows(start, buyLeaves, sellLeaves, events, exposure)
  }

  ghost predicate Shows(start: int, buyLeaves: nat, sellLeaves: nat, events: seq<Event>, exposure: int) {
    CanRun(Settled(start), events, buyLeaves, sellLeaves)
    && Exposure(start, Run(Settled(start), events, buyLeaves, sellLeaves)) == exposure
  }

  // Selling and hedging reaches the best residual with nothing bought and nothing left to hedge.
  lemma ReachBest(start: int, buyLeaves: nat, sellLeaves: nat) returns (events: seq<Event>, lane: Lane)
    requires Abs(start) <= HALF
    ensures CanRun(Settled(start), events, buyLeaves, sellLeaves) && lane == Run(Settled(start), events, buyLeaves, sellLeaves)
    ensures lane.residual == BestResidual(start, sellLeaves) && lane.queue == [] && lane.bought == 0
    ensures Exposure(start, lane) == lane.residual
  {
    if start == HALF || sellLeaves <= start + HALF {
      events, lane := [], Settled(start);
    } else {
      var signed := if sellLeaves >= start + OUNCE + HALF then -(start + OUNCE + HALF) else -(start + HALF + 1);
      var ounces := if sellLeaves >= start + OUNCE + HALF then -2 else -1;
      HalfEvenUnique(start + signed, ounces);
      events := FillThenHedge(Settled(start), signed, ounces, buyLeaves, sellLeaves);
      lane := Run(Settled(start), events, buyLeaves, sellLeaves);
    }
  }

  lemma ReachWorst(start: int, buyLeaves: nat, sellLeaves: nat)
    requires Abs(start) <= HALF
    ensures SomeRunShows(start, buyLeaves, sellLeaves, BestResidual(start, sellLeaves) + buyLeaves)
  {
    var events, lane := ReachBest(start, buyLeaves, sellLeaves);
    if buyLeaves > 0 {
      var more := [Fill(buyLeaves)];
      assert more[1..] == [];
      assert CanRun(lane, more, buyLeaves, sellLeaves);
      RunAppend(Settled(start), events, more, buyLeaves, sellLeaves);
      events := events + more;
    }
    assert Shows(start, buyLeaves, sellLeaves, events, BestResidual(start, sellLeaves) + buyLeaves);
  }

  lemma MirrorShows(start: int, buyLeaves: nat, sellLeaves: nat, exposure: int)
    ensures SomeRunShows(start, buyLeaves, sellLeaves, exposure) ==> SomeRunShows(-start, sellLeaves, buyLeaves, -exposure)
  {
    if events :| Shows(start, buyLeaves, sellLeaves, events, exposure) {
      MirrorRun(Settled(start), events, buyLeaves, sellLeaves);
      assert Mirror(Settled(start)) == Settled(-start);
      assert Shows(-start, sellLeaves, buyLeaves, MirrorAll(events), -exposure);
    }
  }

  lemma RunIsTight(start: int, buyLeaves: nat, sellLeaves: nat, events: seq<Event>, lane: Lane)
    requires Abs(start) <= HALF && CanRun(Settled(start), events, buyLeaves, sellLeaves)
    requires lane == Run(Settled(start), events, buyLeaves, sellLeaves)
    ensures lane.residual <= BestResidual(start, sellLeaves) + lane.bought
    ensures -BestResidual(-start, buyLeaves) - sellLeaves <= Exposure(start, lane) <= BestResidual(start, sellLeaves) + buyLeaves
  {
    ResidualWithinBest(start, buyLeaves, sellLeaves, Settled(start));
    RunKeepsTight(start, buyLeaves, sellLeaves, Settled(start), events);
    ResidualWithinBest(start, buyLeaves, sellLeaves, lane);
  }

  /** The exact worst exposures: no run leaves this band, and both of its ends are reached. */
  lemma WorstExposures(start: int, buyLeaves: nat, sellLeaves: nat)
    requires Abs(start) <= HALF
    ensures forall exposure :: SomeRunShows(start, buyLeaves, sellLeaves, exposure) ==>
      -BestResidual(-start, buyLeaves) - sellLeaves <= exposure <= BestResidual(start, sellLeaves) + buyLeaves
    ensures SomeRunShows(start, buyLeaves, sellLeaves, BestResidual(start, sellLeaves) + buyLeaves)
    ensures SomeRunShows(start, buyLeaves, sellLeaves, -BestResidual(-start, buyLeaves) - sellLeaves)
  {
    forall exposure | SomeRunShows(start, buyLeaves, sellLeaves, exposure)
      ensures -BestResidual(-start, buyLeaves) - sellLeaves <= exposure <= BestResidual(start, sellLeaves) + buyLeaves
    {
      var events :| Shows(start, buyLeaves, sellLeaves, events, exposure);
      RunIsTight(start, buyLeaves, sellLeaves, events, Run(Settled(start), events, buyLeaves, sellLeaves));
    }
    ReachWorst(start, buyLeaves, sellLeaves);
    ReachWorst(-start, sellLeaves, buyLeaves);
    MirrorShows(-start, sellLeaves, buyLeaves, BestResidual(-start, buyLeaves) + sellLeaves);
  }

  /** The exposure bound is exact with one side working.  With both it is exact when the side that
      has the larger leaves can first be left with half an ounce: it starts there, or the other
      side's leaves reach the tie an ounce and a half beyond. */
  lemma ExposureBoundIsAttainedIff(start: int, buyLeaves: nat, sellLeaves: nat, exposure: int)
    requires Abs(start) <= HALF && exposure == MakerCarryBounds(start, buyLeaves, sellLeaves).value.exposure
    ensures (SomeRunShows(start, buyLeaves, sellLeaves, exposure) || SomeRunShows(start, buyLeaves, sellLeaves, -exposure))
      <==> (|| buyLeaves == 0 || sellLeaves == 0
            || (buyLeaves >= sellLeaves && (start == HALF || sellLeaves >= start + OUNCE + HALF))
            || (sellLeaves >= buyLeaves && (start == -HALF || buyLeaves >= -start + OUNCE + HALF)))
  {
    WorstExposures(start, buyLeaves, sellLeaves);
    if buyLeaves == 0 || sellLeaves == 0 {
      var events := OneSidedExposureIsAttained(start, buyLeaves, sellLeaves);
      var shown := Exposure(start, Run(Settled(start), events, buyLeaves, sellLeaves));
      assert Shows(start, buyLeaves, sellLeaves, events, shown);
      assert SomeRunShows(start, buyLeaves, sellLeaves, shown);
    }
  }

  // ---------------------------------------------------------------- the largest obligation

  /** Some run's next buy fill owes exactly so many ounces. */
  ghost predicate SomeFillOwes(start: int, buyLeaves: nat, sellLeaves: nat, ounces: int) {
    exists events, signed :: Owes(start, buyLeaves, sellLeaves, events, signed, ounces)
  }

  ghost predicate Owes(start: int, buyLeaves: nat, sellLeaves: nat, events: seq<Event>, signed: int, ounces: int) {
    && CanRun(Settled(start), events, buyLeaves, sellLeaves) && signed > 0
    && Enabled(Run(Settled(start), events, buyLeaves, sellLeaves), Fill(signed), buyLeaves, sellLeaves)
    && Allocation(Run(Settled(start), events, buyLeaves, sellLeaves), signed) == ounces
  }

  lemma NoFillOwesMore(start: int, buyLeaves: nat, sellLeaves: nat, events: seq<Event>, signed: int, lane: Lane)
    requires Abs(start) <= HALF && CanRun(Settled(start), events, buyLeaves, sellLeaves) && signed > 0
    requires lane == Run(Settled(start), events, buyLeaves, sellLeaves) && Enabled(lane, Fill(signed), buyLeaves, sellLeaves)
    ensures Allocation(lane, signed) <= HalfEven(BestResidual(start, sellLeaves) + buyLeaves)
  {
    RunIsTight(start, buyLeaves, sellLeaves, events, lane);
    HalfEvenMonotone(lane.residual + signed, BestResidual(start, sellLeaves) + buyLeaves);
  }

  /** The exact largest obligation a buy fill can create: no fill of any run owes more, and one
      owes so much. */
  lemma LargestObligation(start: int, buyLeaves: nat, sellLeaves: nat)
    requires Abs(start) <= HALF && buyLeaves > 0
    ensures forall ounces :: SomeFillOwes(start, buyLeaves, sellLeaves, ounces) ==>
      ounces <= HalfEven(BestResidual(start, sellLeaves) + buyLeaves)
    ensures SomeFillOwes(start, buyLeaves, sellLeaves, HalfEven(BestResidual(start, sellLeaves) + buyLeaves))
  {
    forall ounces | SomeFillOwes(start, buyLeaves, sellLeaves, ounces)
      ensures ounces <= HalfEven(BestResidual(start, sellLeaves) + buyLeaves)
    {
      var events, signed :| Owes(start, buyLeaves, sellLeaves, events, signed, ounces);
      NoFillOwesMore(start, buyLeaves, sellLeaves, events, signed, Run(Settled(start), events, buyLeaves, sellLeaves));
    }
    var events, lane := ReachBest(start, buyLeaves, sellLeaves);
    assert Owes(start, buyLeaves, sellLeaves, events, buyLeaves, HalfEven(BestResidual(start, sellLeaves) + buyLeaves));
  }

  /** The single-intent bound of a buying side is reached exactly when the best residual rounds with
      its leaves to the bound; always, when the other side does not work. */
  lemma IntentBoundIsAttainedIff(start: int, buyLeaves: nat, sellLeaves: nat)
    requires Abs(start) <= HALF && buyLeaves > 0
    ensures
      var bound := MakerHedgeQuantityBound(start, buyLeaves, Long, sellLeaves > 0);
      && (SomeFillOwes(start, buyLeaves, sellLeaves, bound) <==> HalfEven(BestResidual(start, sellLeaves) + buyLeaves) == bound)
      && (sellLeaves == 0 ==> SomeFillOwes(start, buyLeaves, sellLeaves, bound))
  {
    LargestObligation(start, buyLeaves, sellLeaves);
    LargestWithinBound(start, buyLeaves, sellLeaves, BestResidual(start, sellLeaves));
  }

  lemma LargestWithinBound(start: int, buyLeaves: nat, sellLeaves: nat, best: int)
    requires Abs(start) <= HALF && buyLeaves > 0 && best == BestResidual(start, sellLeaves)
    ensures HalfEven(best + buyLeaves) <= MakerHedgeQuantityBound(start, buyLeaves, Long, sellLeaves > 0)
    ensures sellLeaves == 0 ==> HalfEven(best + buyLeaves) == MakerHedgeQuantityBound(start, buyLeaves, Long, false)
  {
    HalfEvenMonotone(best + buyLeaves, HALF + buyLeaves);
    NotNegative(start + buyLeaves);
  }

  lemma NotNegative(combined: int)
    requires combined > -HALF
    ensures HalfEven(combined) >= 0
  {
    HalfEvenMonotone(-HALF, combined);
  }
}
