/** The ledger and its obligations together: source fills and hedge fills, in any order. */
module HedgedLedger {
  // Hedge fills are taken at the first unfinished obligation of the ledger.  Per route the store is
  // then a run of the carry machine, so the closed forms bound it at every point of the hedging.

  import opened Rounding
  import opened Records
  import opened AllocationLedger
  import opened LedgerLane
  import opened MakerStore
  import MakerLedger
  import C = CarryBounds

  // ---------------------------------------------------------------- what is hedged and what is open

  /** `done[i]` is the executed part of the i-th allocation, signed like what it owes. */
  function OpenQueue(ledger: Ledger, done: seq<int>, route: Route): seq<int>
    requires |ledger| == |done|
  {
    if ledger == [] then []
    else
      var n := |ledger| - 1;
      OpenQueue(ledger[..n], done[..n], route) + OpenPart(ledger[n], done[n], route)
  }

  function OpenPart(item: Allocation, done: int, route: Route): seq<int> {
    if item.route == route && done != item.owed then [item.owed - done] else []
  }

  function DoneTotal(ledger: Ledger, done: seq<int>, route: Route): int
    requires |ledger| == |done|
  {
    if ledger == [] then 0
    else
      var n := |ledger| - 1;
      DoneTotal(ledger[..n], done[..n], route) + if ledger[n].route == route then done[n] else 0
  }

  ghost predicate AllDone(ledger: Ledger, done: seq<int>)
    requires |ledger| == |done|
  {
    forall i :: 0 <= i < |ledger| ==> done[i] == ledger[i].owed
  }

  lemma {:induction false} NothingOpen(ledger: Ledger, done: seq<int>, route: Route)
    requires |ledger| == |done| && AllDone(ledger, done)
    ensures OpenQueue(ledger, done, route) == [] && DoneTotal(ledger, done, route) == AllocatedTotal(ledger, route)
  {
    if ledger != [] {
      NothingOpen(ledger[..|ledger| - 1], done[..|ledger| - 1], route);
    }
  }

  /** A portion of the first open allocation. */
  predicate Portion(owed: int, done: int, portion: int) {
    0 < portion <= owed - done || owed - done <= portion < 0
  }

  /** A portion comes off the first open obligation. */
  predicate TakesHead(queue: seq<int>, queue': seq<int>, portion: int) {
    && queue != [] && (0 < portion <= queue[0] || queue[0] <= portion < 0)
    && queue' == (if queue[0] == portion then queue[1..] else [queue[0] - portion] + queue[1..])
  }

  lemma TakesHeadBefore(queue: seq<int>, queue': seq<int>, portion: int, more: seq<int>)
    requires TakesHead(queue, queue', portion)
    ensures TakesHead(queue + more, queue' + more, portion)
  {
    assert (queue + more)[1..] == queue[1..] + more;
  }

  lemma OneOpen(item: Allocation, done: int, portion: int)
    requires Portion(item.owed, done, portion)
    ensures TakesHead(OpenPart(item, done, item.route), OpenPart(item, done + portion, item.route), portion)
  {
  }

  /** The first `n` allocations are executed. */
  ghost predicate DoneUpTo(ledger: Ledger, done: seq<int>, n: nat)
    requires |ledger| == |done| && n <= |ledger|
  {
    forall i :: 0 <= i < n ==> done[i] == ledger[i].owed
  }

  lemma LastTakesHead(ledger: Ledger, done: seq<int>, m: nat, portion: int, done': seq<int>)
    requires |ledger| == |done| == m + 1 && DoneUpTo(ledger, done, m)
    requires Portion(ledger[m].owed, done[m], portion) && done' == done[m := done[m] + portion]
    ensures TakesHead(OpenQueue(ledger, done, ledger[m].route), OpenQueue(ledger, done', ledger[m].route), portion)
  {
    var route := ledger[m].route;
    LastOnly(ledger, done, m, route);
    LastUpdated(done, m, done[m] + portion);
    LastOnly(ledger, done', m, route);
    OneOpen(ledger[m], done[m], portion);
  }

  lemma LastUpdated(done: seq<int>, m: nat, value: int)
    requires |done| == m + 1
    ensures forall i :: 0 <= i < m ==> done[m := value][i] == done[i]
    ensures done[m := value][m] == value
  {
  }

  lemma LastOnly(ledger: Ledger, done: seq<int>, m: nat, route: Route)
    requires |ledger| == |done| == m + 1 && DoneUpTo(ledger, done, m)
    ensures OpenQueue(ledger, done, route) == OpenPart(ledger[m], done[m], route)
  {
    NothingOpenBefore(ledger, done, m, route);
    QueueOfLast(ledger, done, m, route);
  }

  lemma NothingOpenBefore(ledger: Ledger, done: seq<int>, m: nat, route: Route)
    requires |ledger| == |done| == m + 1 && DoneUpTo(ledger, done, m)
    ensures OpenQueue(ledger[..m], done[..m], route) == []
  {
    assert AllDone(ledger[..m], done[..m]);
    NothingOpen(ledger[..m], done[..m], route);
  }

  lemma QueueOfLast(ledger: Ledger, done: seq<int>, m: nat, route: Route)
    requires |ledger| == |done| == m + 1 && OpenQueue(ledger[..m], done[..m], route) == []
    ensures OpenQueue(ledger, done, route) == OpenPart(ledger[m], done[m], route)
  {
  }

  lemma FrontUpdated(done: seq<int>, n: nat, m: nat, value: int)
    requires n < m < |done|
    ensures done[n := value][..m] == done[..m][n := value]
  {
  }

  // A later allocation does not touch the head of the queue.
  lemma TakesHeadLater(ledger: Ledger, done: seq<int>, done': seq<int>, m: nat, portion: int, route: Route)
    requires |ledger| == |done| == |done'| == m + 1 && done'[m] == done[m]
    requires TakesHead(OpenQueue(ledger[..m], done[..m], route), OpenQueue(ledger[..m], done'[..m], route), portion)
    ensures TakesHead(OpenQueue(ledger, done, route), OpenQueue(ledger, done', route), portion)
  {
    TakesHeadBefore(OpenQueue(ledger[..m], done[..m], route), OpenQueue(ledger[..m], done'[..m], route), portion,
                    OpenPart(ledger[m], done[m], route));
  }

  lemma FrontDone(ledger: Ledger, done: seq<int>, n: nat, m: nat)
    requires |ledger| == |done| == m + 1 && n < m && DoneUpTo(ledger, done, n)
    ensures DoneUpTo(ledger[..m], done[..m], n) && ledger[..m][n] == ledger[n] && done[..m][n] == done[n]
  {
  }

  lemma {:induction false} ExecutingTakesHead(ledger: Ledger, done: seq<int>, n: nat, portion: int, done': seq<int>)
    requires |ledger| == |done| && n < |ledger| && DoneUpTo(ledger, done, n)
    requires Portion(ledger[n].owed, done[n], portion) && done' == done[n := done[n] + portion]
    ensures TakesHead(OpenQueue(ledger, done, ledger[n].route), OpenQueue(ledger, done', ledger[n].route), portion)
    decreases |ledger|
  {
    var m := |ledger| - 1;
    if n == m {
      LastTakesHead(ledger, done, m, portion, done');
    } else {
      FrontDone(ledger, done, n, m);
      FrontUpdated(done, n, m, done[n] + portion);
      ExecutingTakesHead(ledger[..m], done[..m], n, portion, done'[..m]);
      TakesHeadLater(ledger, done, done', m, portion, ledger[n].route);
    }
  }

  lemma {:induction false} ExecutingElsewhere(ledger: Ledger, done: seq<int>, n: nat, portion: int, done': seq<int>, route: Route)
    requires |ledger| == |done| && n < |ledger| && ledger[n].route != route && done' == done[n := done[n] + portion]
    ensures OpenQueue(ledger, done', route) == OpenQueue(ledger, done, route)
    decreases |ledger|
  {
    var m := |ledger| - 1;
    if n == m {
      assert done'[..m] == done[..m];
    } else {
      FrontUpdated(done, n, m, done[n] + portion);
      ExecutingElsewhere(ledger[..m], done[..m], n, portion, done'[..m], route);
    }
  }

  lemma {:induction false} ExecutingAdds(ledger: Ledger, done: seq<int>, n: nat, portion: int, done': seq<int>, route: Route)
    requires |ledger| == |done| && n < |ledger| && done' == done[n := done[n] + portion]
    ensures DoneTotal(ledger, done', route) == DoneTotal(ledger, done, route) + if ledger[n].route == route then portion else 0
    decreases |ledger|
  {
    var m := |ledger| - 1;
    if n == m {
      assert done'[..m] == done[..m];
    } else {
      FrontUpdated(done, n, m, done[n] + portion);
      ExecutingAdds(ledger[..m], done[..m], n, portion, done'[..m], route);
    }
  }

  lemma AppendsOne(ledger: Ledger, done: seq<int>, last: Allocation, route: Route)
    requires |ledger| == |done|
    ensures OpenQueue(ledger + [last], done + [0], route)
      == OpenQueue(ledger, done, route) + if last.route == route && last.owed != 0 then [last.owed] else []
    ensures DoneTotal(ledger + [last], done + [0], route) == DoneTotal(ledger, done, route)
  {
    assert (ledger + [last])[..|ledger|] == ledger && (done + [0])[..|ledger|] == done;
  }

  // ---------------------------------------------------------------- the route as a run of the machine

  /** What the route had when the run began. */
  datatype Base = Base(start: int, bought: nat, sold: nat, owed: int)

  function BaseOf(ledger: Ledger, route: Route): Base {
    Base(Balance(ledger, route), Bought(ledger, route), Sold(ledger, route), AllocatedTotal(ledger, route))
  }

  ghost predicate At(lane: C.Lane, base: Base, ledger: Ledger, done: seq<int>, route: Route)
    requires |ledger| == |done|
  {
    && lane.residual == Balance(ledger, route) && lane.queue == OpenQueue(ledger, done, route)
    && base.owed + lane.hedged == DoneTotal(ledger, done, route)
    && base.bought + lane.bought == Bought(ledger, route) && base.sold + lane.sold == Sold(ledger, route)
    && base.owed + OUNCE * lane.ounceTotal == AllocatedTotal(ledger, route)
  }

  ghost predicate Reached(start: int, lane: C.Lane, buyLeaves: nat, sellLeaves: nat) {
    exists events :: RunOf(start, events, lane, buyLeaves, sellLeaves)
  }

  ghost predicate RunOf(start: int, events: seq<C.Event>, lane: C.Lane, buyLeaves: nat, sellLeaves: nat) {
    C.CanRun(C.Settled(start), events, buyLeaves, sellLeaves)
    && C.Run(C.Settled(start), events, buyLeaves, sellLeaves) == lane
  }

  ghost predicate RunsTo(base: Base, ledger: Ledger, done: seq<int>, route: Route, buyLeaves: nat, sellLeaves: nat, lane: C.Lane)
    requires |ledger| == |done|
  {
    Reached(base.start, lane, buyLeaves, sellLeaves) && At(lane, base, ledger, done, route)
  }

  ghost predicate Simulated(base: Base, ledger: Ledger, done: seq<int>, route: Route, buyLeaves: nat, sellLeaves: nat)
    requires |ledger| == |done|
  {
    exists lane :: RunsTo(base, ledger, done, route, buyLeaves, sellLeaves, lane)
  }

  // One more event of the machine.
  lemma Extends(start: int, lane: C.Lane, e: C.Event, buyLeaves: nat, sellLeaves: nat)
    requires Reached(start, lane, buyLeaves, sellLeaves) && C.Enabled(lane, e, buyLeaves, sellLeaves)
    ensures Reached(start, C.Step(lane, e, buyLeaves, sellLeaves), buyLeaves, sellLeaves)
  {
    var events :| RunOf(start, events, lane, buyLeaves, sellLeaves);
    LedgerLane.RunAppend(C.Settled(start), events, e, buyLeaves, sellLeaves);
    assert RunOf(start, events + [e], C.Step(lane, e, buyLeaves, sellLeaves), buyLeaves, sellLeaves);
  }

  lemma SourceFillSimulates(base: Base, ledger: Ledger, done: seq<int>, last: Allocation, route: Route, buyLeaves: nat, sellLeaves: nat)
    requires |ledger| == |done| && Simulated(base, ledger, done, route, buyLeaves, sellLeaves)
    requires last.owed == Obligation(ledger, last.route, last.signed) && last.signed != 0
    requires Bought(ledger + [last], route) <= base.bought + buyLeaves && Sold(ledger + [last], route) <= base.sold + sellLeaves
    ensures Simulated(base, ledger + [last], done + [0], route, buyLeaves, sellLeaves)
  {
    var lane :| RunsTo(base, ledger, done, route, buyLeaves, sellLeaves, lane);
    AppendsOne(ledger, done, last, route);
    GrowsByOne([], ledger, last, route);
    assert [] + ledger == ledger && [] + (ledger + [last]) == ledger + [last];
    if last.route == route {
      Extends(base.start, lane, C.Fill(last.signed), buyLeaves, sellLeaves);
      FillAt(lane, base, ledger, done, last, buyLeaves, sellLeaves);
      assert RunsTo(base, ledger + [last], done + [0], route, buyLeaves, sellLeaves,
                    C.Step(lane, C.Fill(last.signed), buyLeaves, sellLeaves));
    } else {
      assert RunsTo(base, ledger + [last], done + [0], route, buyLeaves, sellLeaves, lane);
    }
  }

  lemma FillAt(lane: C.Lane, base: Base, ledger: Ledger, done: seq<int>, last: Allocation, buyLeaves: nat, sellLeaves: nat)
    requires |ledger| == |done| && At(lane, base, ledger, done, last.route)
    requires last.owed == Obligation(ledger, last.route, last.signed)
    requires C.Enabled(lane, C.Fill(last.signed), buyLeaves, sellLeaves)
    ensures At(C.Step(lane, C.Fill(last.signed), buyLeaves, sellLeaves), base, ledger + [last], done + [0], last.route)
  {
    AppendsOne(ledger, done, last, last.route);
    GrowsByOne([], ledger, last, last.route);
    assert [] + ledger == ledger && [] + (ledger + [last]) == ledger + [last];
    var ounces := Ounces(ledger, last.route, last.signed);
    FillMirrors(lane, lane.residual, last.signed, ounces, buyLeaves, sellLeaves);
    var owed := OUNCE * ounces;
    assert last.owed == owed && OUNCE * (lane.ounceTotal + ounces) == OUNCE * lane.ounceTotal + owed;
  }

  lemma HedgeFillSimulates(base: Base, ledger: Ledger, done: seq<int>, n: nat, portion: int, route: Route,
                           buyLeaves: nat, sellLeaves: nat)
    requires |ledger| == |done| && Simulated(base, ledger, done, route, buyLeaves, sellLeaves)
    requires n < |ledger| && DoneUpTo(ledger, done, n) && Portion(ledger[n].owed, done[n], portion)
    ensures Simulated(base, ledger, done[n := done[n] + portion], route, buyLeaves, sellLeaves)
  {
    var lane :| RunsTo(base, ledger, done, route, buyLeaves, sellLeaves, lane);
    var done' := done[n := done[n] + portion];
    ExecutingAdds(ledger, done, n, portion, done', route);
    if ledger[n].route == route {
      ExecutingTakesHead(ledger, done, n, portion, done');
      Extends(base.start, lane, C.Execute(portion), buyLeaves, sellLeaves);
      ExecuteAt(lane, base, ledger, done, done', portion, route, buyLeaves, sellLeaves);
      assert RunsTo(base, ledger, done', route, buyLeaves, sellLeaves, C.Step(lane, C.Execute(portion), buyLeaves, sellLeaves));
    } else {
      ExecutingElsewhere(ledger, done, n, portion, done', route);
      assert RunsTo(base, ledger, done', route, buyLeaves, sellLeaves, lane);
    }
  }

  lemma ExecuteAt(lane: C.Lane, base: Base, ledger: Ledger, done: seq<int>, done': seq<int>, portion: int, route: Route,
                  buyLeaves: nat, sellLeaves: nat)
    requires |ledger| == |done| == |done'| && At(lane, base, ledger, done, route)
    requires TakesHead(OpenQueue(ledger, done, route), OpenQueue(ledger, done', route), portion)
    requires DoneTotal(ledger, done', route) == DoneTotal(ledger, done, route) + portion
    ensures C.Enabled(lane, C.Execute(portion), buyLeaves, sellLeaves)
    ensures At(C.Step(lane, C.Execute(portion), buyLeaves, sellLeaves), base, ledger, done', route)
  {
    LaneExecutes(lane, OpenQueue(ledger, done', route), portion, buyLeaves, sellLeaves);
  }

  lemma LaneExecutes(lane: C.Lane, queue': seq<int>, portion: int, buyLeaves: nat, sellLeaves: nat)
    requires TakesHead(lane.queue, queue', portion)
    ensures C.Enabled(lane, C.Execute(portion), buyLeaves, sellLeaves)
    ensures C.Step(lane, C.Execute(portion), buyLeaves, sellLeaves) == lane.(queue := queue', hedged := lane.hedged + portion)
  {
  }

  lemma SettledSimulates(ledger: Ledger, done: seq<int>, route: Route, buyLeaves: nat, sellLeaves: nat)
    requires |ledger| == |done| && AllDone(ledger, done)
    ensures Simulated(BaseOf(ledger, route), ledger, done, route, buyLeaves, sellLeaves)
  {
    NothingOpen(ledger, done, route);
    var base := BaseOf(ledger, route);
    assert RunOf(base.start, [], C.Settled(base.start), buyLeaves, sellLeaves);
    assert RunsTo(base, ledger, done, route, buyLeaves, sellLeaves, C.Settled(base.start));
  }

  lemma LaneIsWithin(start: int, lane: C.Lane, buyLeaves: nat, sellLeaves: nat, bounds: C.Bounds)
    requires Reached(start, lane, buyLeaves, sellLeaves) && Abs(start) <= HALF
    requires C.MakerCarryBounds(start, buyLeaves, sellLeaves) == Some(bounds)
    ensures Abs(start + lane.bought - lane.sold - lane.hedged) <= bounds.exposure
    ensures -OUNCE * bounds.buy <= lane.hedged <= OUNCE * bounds.sell
  {
    var events :| RunOf(start, events, lane, buyLeaves, sellLeaves);
    C.CarryBoundsHold(start, buyLeaves, sellLeaves, events);
  }

  /** Wherever the hedging stands, exposure and executed hedge are within the closed forms. */
  lemma SimulatedIsBounded(base: Base, ledger: Ledger, done: seq<int>, route: Route, buyLeaves: nat, sellLeaves: nat,
                           bounds: C.Bounds, bought: int, sold: int, hedged: int)
    requires |ledger| == |done| && Simulated(base, ledger, done, route, buyLeaves, sellLeaves) && Abs(base.start) <= HALF
    requires C.MakerCarryBounds(base.start, buyLeaves, sellLeaves) == Some(bounds)
    requires bought == Bought(ledger, route) - base.bought && sold == Sold(ledger, route) - base.sold
    requires hedged == DoneTotal(ledger, done, route) - base.owed
    ensures Abs(base.start + bought - sold - hedged) <= bounds.exposure
    ensures -OUNCE * bounds.buy <= hedged <= OUNCE * bounds.sell
  {
    var lane :| RunsTo(base, ledger, done, route, buyLeaves, sellLeaves, lane);
    LaneIsWithin(base.start, lane, buyLeaves, sellLeaves, bounds);
  }

  // ---------------------------------------------------------------- the store's books

  /** Fills tell which obligations are completed. */
  ghost predicate FillsTell(intents: map<FillKey, HedgeIntent>) {
    forall key :: key in intents ==>
      0 <= intents[key].filled <= intents[key].quantity
      && (intents[key].status.Completed? <==> intents[key].filled == intents[key].quantity)
  }

  function DoneOf(intents: map<FillKey, HedgeIntent>, item: Allocation): int {
    if item.owed == 0 || item.key !in intents then 0
    else if item.owed > 0 then intents[item.key].filled else -intents[item.key].filled
  }

  function Done(intents: map<FillKey, HedgeIntent>, ledger: Ledger): seq<int> {
    seq(|ledger|, i requires 0 <= i < |ledger| => DoneOf(intents, ledger[i]))
  }

  /** A source fill is reserved. */
  predicate Reserves(b: Books, b': Books, key: FillKey, fill: int, status: SourceStatus) {
    key.cid in b.records && key !in b.seen && fill > 0 && b' == Reserve(b, key, fill, status)
  }

  /** A hedge fill at the first unfinished obligation: more of it is filled, or all of it. */
  ghost predicate Hedges(b: Books, b': Books, key: FillKey, j: HedgeIntent) {
    && FirstUnfinished(b.intents, b.ledger, key) && b' == b.(intents := b.intents[key := j])
    && MakerLedger.SameObligation(b.intents[key], j) && b.intents[key].filled < j.filled <= j.quantity
    && (j.status.Completed? <==> j.filled == j.quantity)
  }

  /** Any other change: a new order, a plan, an order bound, a status. */
  ghost predicate LeavesFills(b: Books, b': Books) {
    b'.ledger == b.ledger && b'.intents.Keys == b.intents.Keys
    && forall key :: key in b.intents ==> SameFill(b.intents[key], b'.intents[key])
  }

  predicate SameFill(i: HedgeIntent, j: HedgeIntent) {
    j.filled == i.filled && j.quantity == i.quantity && (j.status.Completed? <==> i.status.Completed?)
  }

  ghost predicate BooksStep(b: Books, b': Books) {
    || (exists key, fill, status :: Reserves(b, b', key, fill, status))
    || (exists key, j :: Hedges(b, b', key, j))
    || (BooksValid(b') && LeavesFills(b, b'))
  }

  ghost predicate Follows(books: seq<Books>) {
    forall i :: 0 <= i < |books| - 1 ==> BooksStep(books[i], books[i + 1])
  }

  ghost predicate Telling(b: Books) {
    BooksValid(b) && FillsTell(b.intents)
  }

  ghost predicate BooksSimulated(base: Base, b: Books, route: Route, buyLeaves: nat, sellLeaves: nat) {
    Simulated(base, b.ledger, Done(b.intents, b.ledger), route, buyLeaves, sellLeaves)
  }

  lemma NewFillIsNew(b: Books, key: FillKey)
    requires BooksValid(b) && key !in b.seen
    ensures forall i :: 0 <= i < |b.ledger| ==> b.ledger[i].key != key
  {
    forall i | 0 <= i < |b.ledger| ensures b.ledger[i].key != key {
      assert SourceAgrees(b.records, b.seen, b.ledger[i]);
    }
  }

  // Another key's obligation may be added or changed.
  lemma DoneOfOthers(intents: map<FillKey, HedgeIntent>, key: FillKey, j: HedgeIntent, item: Allocation)
    requires item.key != key
    ensures DoneOf(intents[key := j], item) == DoneOf(intents, item)
  {
  }

  lemma ReserveDone(b: Books, b': Books, key: FillKey, fill: int, status: SourceStatus)
    requires BooksValid(b) && Reserves(b, b', key, fill, status)
    ensures Done(b'.intents, b'.ledger) == Done(b.intents, b.ledger) + [0]
  {
    NewFillIsNew(b, key);
    var n := |b.ledger|;
    forall i | 0 <= i < n ensures DoneOf(b'.intents, b'.ledger[i]) == DoneOf(b.intents, b.ledger[i]) {
      if key in b'.intents {
        DoneOfOthers(b.intents, key, b'.intents[key], b.ledger[i]);
      }
    }
    assert DoneOf(b'.intents, b'.ledger[n]) == 0;
  }

  lemma ReserveTells(b: Books, b': Books, key: FillKey, fill: int, status: SourceStatus)
    requires FillsTell(b.intents) && Reserves(b, b', key, fill, status)
    ensures FillsTell(b'.intents)
  {
  }

  lemma ReserveSimulates(base: Base, b: Books, b': Books, key: FillKey, fill: int, status: SourceStatus, route: Route,
                         buyLeaves: nat, sellLeaves: nat)
    requires Telling(b) && Reserves(b, b', key, fill, status) && BooksSimulated(base, b, route, buyLeaves, sellLeaves)
    requires Bought(b'.ledger, route) <= base.bought + buyLeaves && Sold(b'.ledger, route) <= base.sold + sellLeaves
    ensures BooksSimulated(base, b', route, buyLeaves, sellLeaves)
  {
    ReserveDone(b, b', key, fill, status);
    SourceFillSimulates(base, b.ledger, Done(b.intents, b.ledger), b'.ledger[|b.ledger|], route, buyLeaves, sellLeaves);
  }

  // Before the first unfinished obligation everything owed is done.
  lemma FinishedIsDone(b: Books, n: nat)
    requires Telling(b) && n <= |b.ledger| && AllFinished(b.intents, b.ledger[..n])
    ensures DoneUpTo(b.ledger, Done(b.intents, b.ledger), n)
  {
    forall i | 0 <= i < n ensures DoneOf(b.intents, b.ledger[i]) == b.ledger[i].owed {
      assert b.ledger[..n][i] == b.ledger[i];
      assert IntentAgrees(b.intents, b.ledger[i]);
    }
  }

  lemma HedgeDone(b: Books, b': Books, key: FillKey, j: HedgeIntent, n: nat, portion: int, done: seq<int>)
    requires BooksValid(b) && Hedges(b, b', key, j) && n < |b.ledger| && b.ledger[n].key == key && b.ledger[n].owed != 0
    requires portion == if b.ledger[n].owed > 0 then j.filled - b.intents[key].filled else b.intents[key].filled - j.filled
    requires done == Done(b.intents, b.ledger)
    ensures Done(b'.intents, b'.ledger) == done[n := done[n] + portion]
  {
    forall i | 0 <= i < |b.ledger| && i != n ensures DoneOf(b'.intents, b.ledger[i]) == DoneOf(b.intents, b.ledger[i]) {
      DoneOfOthers(b.intents, key, j, b.ledger[i]);
    }
    OneChanged(done, Done(b'.intents, b'.ledger), n, portion);
  }

  lemma OneChanged(done: seq<int>, done': seq<int>, n: nat, portion: int)
    requires |done| == |done'| && n < |done| && done'[n] == done[n] + portion
    requires forall i :: 0 <= i < |done| && i != n ==> done'[i] == done[i]
    ensures done' == done[n := done[n] + portion]
  {
  }

  lemma HedgePortion(b: Books, b': Books, key: FillKey, j: HedgeIntent, n: nat, portion: int)
    requires Telling(b) && Hedges(b, b', key, j) && n < |b.ledger| && b.ledger[n].key == key
    requires portion == if b.ledger[n].owed > 0 then j.filled - b.intents[key].filled else b.intents[key].filled - j.filled
    ensures b.ledger[n].owed != 0 && Portion(b.ledger[n].owed, DoneOf(b.intents, b.ledger[n]), portion)
    ensures FillsTell(b'.intents)
  {
    assert IntentAgrees(b.intents, b.ledger[n]);
  }

  lemma HedgeSimulates(base: Base, b: Books, b': Books, key: FillKey, j: HedgeIntent, route: Route, buyLeaves: nat, sellLeaves: nat)
    requires Telling(b) && Hedges(b, b', key, j) && BooksSimulated(base, b, route, buyLeaves, sellLeaves)
    ensures BooksSimulated(base, b', route, buyLeaves, sellLeaves) && FillsTell(b'.intents)
  {
    var n :| 0 <= n < |b.ledger| && b.ledger[n].key == key && Unfinished(b.intents, key) && AllFinished(b.intents, b.ledger[..n]);
    HedgeAtSimulates(base, b, b', key, j, n, Done(b.intents, b.ledger), route, buyLeaves, sellLeaves);
  }

  lemma HedgeAtSimulates(base: Base, b: Books, b': Books, key: FillKey, j: HedgeIntent, n: nat, done: seq<int>, route: Route,
                         buyLeaves: nat, sellLeaves: nat)
    requires Telling(b) && Hedges(b, b', key, j) && done == Done(b.intents, b.ledger)
    requires Simulated(base, b.ledger, done, route, buyLeaves, sellLeaves)
    requires n < |b.ledger| && b.ledger[n].key == key && AllFinished(b.intents, b.ledger[..n])
    ensures BooksSimulated(base, b', route, buyLeaves, sellLeaves) && FillsTell(b'.intents)
  {
    var portion := if b.ledger[n].owed > 0 then j.filled - b.intents[key].filled else b.intents[key].filled - j.filled;
    HedgePortion(b, b', key, j, n, portion);
    HedgeDone(b, b', key, j, n, portion, done);
    FinishedIsDone(b, n);
    HedgeFillSimulates(base, b.ledger, done, n, portion, route, buyLeaves, sellLeaves);
  }

  lemma LeavesDone(b: Books, b': Books)
    requires FillsTell(b.intents) && LeavesFills(b, b')
    ensures Done(b'.intents, b'.ledger) == Done(b.intents, b.ledger) && FillsTell(b'.intents)
  {
    forall i | 0 <= i < |b.ledger| ensures DoneOf(b'.intents, b.ledger[i]) == DoneOf(b.intents, b.ledger[i]) {
      if b.ledger[i].key in b.intents {
        assert SameFill(b.intents[b.ledger[i].key], b'.intents[b.ledger[i].key]);
      }
    }
    forall key | key in b'.intents
      ensures 0 <= b'.intents[key].filled <= b'.intents[key].quantity
      ensures b'.intents[key].status.Completed? <==> b'.intents[key].filled == b'.intents[key].quantity
    {
      assert SameFill(b.intents[key], b'.intents[key]);
    }
  }

  lemma StepGrows(b: Books, b': Books, route: Route)
    requires BooksStep(b, b')
    ensures Bought(b.ledger, route) <= Bought(b'.ledger, route) && Sold(b.ledger, route) <= Sold(b'.ledger, route)
  {
    if key, fill, status :| Reserves(b, b', key, fill, status) {
      assert b'.ledger[..|b'.ledger| - 1] == b.ledger;
    }
  }

  lemma StepSimulates(base: Base, b: Books, b': Books, route: Route, buyLeaves: nat, sellLeaves: nat)
    requires Telling(b) && BooksStep(b, b') && BooksSimulated(base, b, route, buyLeaves, sellLeaves)
    requires Bought(b'.ledger, route) <= base.bought + buyLeaves && Sold(b'.ledger, route) <= base.sold + sellLeaves
    ensures Telling(b') && BooksSimulated(base, b', route, buyLeaves, sellLeaves)
  {
    if key, fill, status :| Reserves(b, b', key, fill, status) {
      ReserveKeepsValid(b, key, fill, status);
      ReserveTells(b, b', key, fill, status);
      ReserveSimulates(base, b, b', key, fill, status, route, buyLeaves, sellLeaves);
    } else if key, j :| Hedges(b, b', key, j) {
      MakerLedger.IntentChangeKeepsBooks(b, key, j);
      HedgeSimulates(base, b, b', key, j, route, buyLeaves, sellLeaves);
    } else {
      LeavesDone(b, b');
    }
  }

  /** Every obligation is completed. */
  ghost predicate HedgedUp(b: Books) {
    forall key :: key in b.intents ==> b.intents[key].status.Completed?
  }

  lemma {:induction false} BooksSimulate(books: seq<Books>, route: Route, buyLeaves: nat, sellLeaves: nat)
    requires books != [] && Telling(books[0]) && HedgedUp(books[0]) && Follows(books)
    requires
      var base, b := BaseOf(books[0].ledger, route), books[|books| - 1];
      Bought(b.ledger, route) <= base.bought + buyLeaves && Sold(b.ledger, route) <= base.sold + sellLeaves
    ensures Telling(books[|books| - 1])
    ensures BooksSimulated(BaseOf(books[0].ledger, route), books[|books| - 1], route, buyLeaves, sellLeaves)
  {
    var n := |books| - 1;
    if n == 0 {
      var b := books[0];
      assert b.ledger[..|b.ledger|] == b.ledger;
      FinishedIsDone(b, |b.ledger|);
      SettledSimulates(b.ledger, Done(b.intents, b.ledger), route, buyLeaves, sellLeaves);
    } else {
      assert BooksStep(books[n - 1], books[n - 1 + 1]);
      StepGrows(books[n - 1], books[n], route);
      BooksSimulate(books[..n], route, buyLeaves, sellLeaves);
      StepSimulates(BaseOf(books[0].ledger, route), books[n - 1], books[n], route, buyLeaves, sellLeaves);
    }
  }

  /** From books with every obligation completed, over any order of source fills, hedge fills and
      other changes, and stopped anywhere inside an obligation: per route the exposure and the
      executed hedge stay within the closed forms computed at the start. */
  lemma StoreWithinCarryBounds(books: seq<Books>, route: Route, buyLeaves: nat, sellLeaves: nat, base: Base, b: Books,
                               bounds: C.Bounds, bought: int, sold: int, hedged: int)
    requires books != [] && Telling(books[0]) && HedgedUp(books[0]) && Follows(books)
    requires base == BaseOf(books[0].ledger, route) && b == books[|books| - 1]
    requires bought == Bought(b.ledger, route) - base.bought <= buyLeaves && sold == Sold(b.ledger, route) - base.sold <= sellLeaves
    requires hedged == DoneTotal(b.ledger, Done(b.intents, b.ledger), route) - base.owed
    requires C.MakerCarryBounds(base.start, buyLeaves, sellLeaves) == Some(bounds)
    ensures Abs(base.start + bought - sold - hedged) <= bounds.exposure
    ensures -OUNCE * bounds.buy <= hedged <= OUNCE * bounds.sell
  {
    BooksSimulate(books, route, buyLeaves, sellLeaves);
    BalanceWithinHalf(books[0].ledger, route);
    SimulatedIsBounded(base, b.ledger, Done(b.intents, b.ledger), route, buyLeaves, sellLeaves, bounds, bought, sold, hedged);
  }
}
