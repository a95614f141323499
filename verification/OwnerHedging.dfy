/** The carry bounds for the state owner: its operations step the books as the ledger allows. */
module OwnerHedging {
  import opened Rounding
  import opened Records
  import opened AllocationLedger
  import opened MakerSpec
  import opened MakerSafety
  import opened MakerLedger
  import opened LedgerLane
  import opened MakerStore
  import opened HedgedLedger
  import opened Durability
  import HedgePlan
  import C = CarryBounds

  /** A hedge change leaves what is filled, or fills more of the first unfinished obligation. */
  ghost predicate InTurn(b: Books, key: FillKey, j: HedgeIntent) {
    key in b.intents && (SameFill(b.intents[key], j) || Hedges(b, b.(intents := b.intents[key := j]), key, j))
  }

  /** Orders are new when they are begun, and hedge fills come in turn and without contradiction. */
  ghost predicate Orderly(o: Owner, op: Operation)
    requires Names(o.memory, op)
  {
    match op
    case DoBegin(v, order, _) => order.cid !in o.memory.views[v].orders
    case DoHedge(v, key, change) =>
      ChangeHedge(o, v, key, change).Change? ==>
        var view := o.memory.views[v];
        InTurn(BooksOf(o.memory), key, IntentChanged(view, view.intents[key], change).value)
    case _ => true
  }

  // The fill is reserved on views that are frozen already.
  lemma FrozenReserveSteps(frozen: Memory, v: nat, key: FillKey, fill: int, m: Memory)
    requires v < |frozen.views| && key.cid in frozen.views[v].orders && key !in frozen.views[v].seen && fill > 0
    requires m == Reserved(frozen, v, key, fill) && IdentitiesValid(m.views)
    ensures BooksStep(BooksOf(frozen), BooksOf(m))
  {
    forall i: nat | i < |frozen.views| && i != v
      ensures key.cid !in frozen.views[i].orders && key !in frozen.views[i].intents && key !in frozen.views[i].seen
    {
      ReservedElsewhere(frozen.views, m.views, v, key, i);
    }
    ReservedIsReserve(frozen, v, key, fill);
    SeenOnly(frozen.views, key);
    assert Reserves(BooksOf(frozen), BooksOf(m), key, fill, FilledStatus(frozen.views[v].orders[key.cid], fill));
  }

  lemma ReserveSteps(o: Owner, v: nat, key: FillKey, side: HedgePlan.Side, fill: int, m: Memory)
    requires v < |o.memory.views| && ReserveSourceFill(o, v, key, side, fill) == Change(m) && IdentitiesValid(m.views)
    ensures BooksStep(BooksOf(o.memory), BooksOf(m))
  {
    var frozen := o.memory.(cycle := o.memory.cycle || OpensCycle(o),
                            views := SetFreezes(o.memory.views, FillReason(key.cid, key.trade), None));
    BooksIgnoreFreezes(o.memory, frozen);
    FrozenReserveSteps(frozen, v, key, fill, m);
  }

  lemma LeavesAlone(b: Books, b': Books, key: FillKey, j: HedgeIntent)
    requires key in b.intents && SameFill(b.intents[key], j) && b' == b.(intents := b.intents[key := j])
    ensures LeavesFills(b, b')
  {
  }

  lemma HedgeSteps(o: Owner, v: nat, key: FillKey, change: HedgeChange, m: Memory)
    requires Sound(o.memory) && v < |o.memory.views| && ChangeHedge(o, v, key, change) == Change(m)
    requires Orderly(o, DoHedge(v, key, change))
    ensures BooksStep(BooksOf(o.memory), BooksOf(m))
  {
    var b, view := BooksOf(o.memory), o.memory.views[v];
    var j := IntentChanged(view, view.intents[key], change).value;
    forall i: nat | i < |o.memory.views| && i != v ensures key !in o.memory.views[i].intents {
      IntentsOfOneView(o.memory.views, v, key, i);
    }
    ObligationBooks(o.memory, v, key, j, HedgeChanged(view, key, j, change));
    if SameFill(b.intents[key], j) {
      HedgeLedgerKept(o, v, key, change);
      LeavesAlone(b, BooksOf(m), key, j);
    } else {
      assert Hedges(b, BooksOf(m), key, j);
    }
  }

  lemma OtherSteps(m: Memory, m': Memory)
    requires BooksValid(BooksOf(m')) && m'.ledger == m.ledger && |m'.views| == |m.views|
    requires forall i :: 0 <= i < |m.views| ==> m'.views[i].intents == m.views[i].intents
    ensures BooksStep(BooksOf(m), BooksOf(m'))
  {
    SameIntents(m.views, m'.views);
    assert LeavesFills(BooksOf(m), BooksOf(m'));
  }

  lemma StatusSteps(o: Owner, v: nat, cid: int, status: SourceStatus, m: Memory)
    requires v < |o.memory.views| && UpdateSourceStatus(o, v, cid, status) == Change(m) && BooksValid(BooksOf(m))
    ensures BooksStep(BooksOf(o.memory), BooksOf(m))
  {
    OtherSteps(o.memory, m);
  }

  lemma ViewSteps(o: Owner, v: nat, view: ViewState, m: Memory)
    requires v < |o.memory.views| && view.intents == o.memory.views[v].intents && m == WithView(o.memory, v, view)
    requires BooksValid(BooksOf(m))
    ensures BooksStep(BooksOf(o.memory), BooksOf(m))
  {
    OtherSteps(o.memory, m);
  }

  lemma BeginSteps(cfg: Config, o: Owner, v: nat, order: SourceOrder, hold: Option<Reason>, m: Memory)
    requires v < |o.memory.views| && BeginSource(cfg, o, v, order, hold) == Change(m) && BooksValid(BooksOf(m))
    ensures BooksStep(BooksOf(o.memory), BooksOf(m))
  {
    OtherSteps(o.memory, m);
  }

  lemma FreezeSteps(cfg: Config, o: Owner, op: Operation, m: Memory)
    requires Names(o.memory, op) && (op.DoFreeze? || op.DoClear?) && Try(cfg, o, op) == Change(m) && BooksValid(BooksOf(m))
    ensures BooksStep(BooksOf(o.memory), BooksOf(m))
  {
    OtherSteps(o.memory, m);
  }

  /** Every orderly operation is a step of the books. */
  lemma OperationSteps(cfg: Config, o: Owner, op: Operation, m: Memory)
    requires Sound(o.memory) && Names(o.memory, op) && Try(cfg, o, op) == Change(m) && IdentitiesValid(m.views)
    requires Orderly(o, op)
    ensures BooksStep(BooksOf(o.memory), BooksOf(m)) && Sound(m)
  {
    LedgerIsNeverRefused(cfg, o, op, m);
    match op
    case DoReserve(v, key, side, fill) => ReserveSteps(o, v, key, side, fill, m);
    case DoHedge(v, key, change) => HedgeSteps(o, v, key, change, m);
    case DoStatus(v, cid, status) => StatusSteps(o, v, cid, status, m);
    case DoConfirm(v, cid) => ViewSteps(o, v, Confirmed(o.memory.views[v], cid), m);
    case DoDoubt(v, cid, doubt) => ViewSteps(o, v, Doubted(o.memory.views[v], cid, doubt), m);
    case DoBegin(v, order, hold) => BeginSteps(cfg, o, v, order, hold, m);
    case DoFreeze(_, _) => FreezeSteps(cfg, o, op, m);
    case DoClear => FreezeSteps(cfg, o, op, m);
  }

  // ---------------------------------------------------------------- runs

  /** The books after each operation of a run. */
  ghost function BooksRun(cfg: Config, o: Owner, acts: seq<Act>): (books: seq<Books>)
    ensures |books| == |acts| + 1 && books[|acts|] == BooksOf(Run(cfg, o, acts).memory)
    decreases |acts|
  {
    (if acts == [] then [] else BooksRun(cfg, o, acts[..|acts| - 1])) + [BooksOf(Run(cfg, o, acts).memory)]
  }

  ghost predicate AllOrderly(cfg: Config, o: Owner, acts: seq<Act>) {
    forall n :: 0 <= n < |acts| ==> ActOrderly(Run(cfg, o, acts[..n]), acts[n])
  }

  ghost predicate ActOrderly(o: Owner, act: Act) {
    Names(o.memory, act.op) ==> Orderly(o, act.op)
  }

  lemma StayingSteps(b: Books)
    requires BooksValid(b)
    ensures BooksStep(b, b)
  {
    assert LeavesFills(b, b);
  }

  // Whichever way its write ends, an operation steps the books or leaves them.
  lemma ActSteps(cfg: Config, o: Owner, act: Act)
    requires Settled(cfg, o) && Names(o.memory, act.op) && Orderly(o, act.op)
    ensures BooksStep(BooksOf(o.memory), BooksOf(Step(cfg, o, act.op, act.w).owner.memory))
  {
    var a := Try(cfg, o, act.op);
    StayingSteps(BooksOf(o.memory));
    FinishAgrees(cfg, o, act.op, a, Publishable(cfg, o, a), act.w);
    if Publishable(cfg, o, a) {
      OperationSteps(cfg, o, act.op, a.memory);
      assert BooksOf(Candidate(o, a.memory)) == BooksOf(a.memory);
    }
  }

  lemma {:induction false} RunFollows(cfg: Config, o: Owner, acts: seq<Act>)
    requires Settled(cfg, o) && AllOrderly(cfg, o, acts)
    ensures Follows(BooksRun(cfg, o, acts)) && BooksRun(cfg, o, acts)[0] == BooksOf(o.memory)
    ensures Settled(cfg, Run(cfg, o, acts))
    decreases |acts|
  {
    if acts != [] {
      var k := |acts| - 1;
      var front := acts[..k];
      assert forall n :: 0 <= n <= k ==> front[..n] == acts[..n];
      RunFollows(cfg, o, front);
      var before := Run(cfg, o, front);
      assert ActOrderly(before, acts[k]);
      StayingSteps(BooksOf(before.memory));
      if Names(before.memory, acts[k].op) {
        ActSteps(cfg, before, acts[k]);
        StepSettles(cfg, before, acts[k].op, acts[k].w);
      }
      OneMoreFollows(BooksRun(cfg, o, front), BooksOf(Run(cfg, o, acts).memory));
    }
  }

  lemma OneMoreFollows(books: seq<Books>, b: Books)
    requires books != [] && Follows(books) && BooksStep(books[|books| - 1], b)
    ensures Follows(books + [b])
  {
    forall i | 0 <= i < |books| ensures BooksStep((books + [b])[i], (books + [b])[i + 1]) {
      if i < |books| - 1 {
        assert BooksStep(books[i], books[i + 1]);
      }
    }
  }

  /** From a settled owner with every obligation completed, over every run of its operations and
      write outcomes with hedge fills in turn: per route the exposure and the executed hedge stay
      within the closed forms computed at the start, at every point of the hedging. */
  lemma OwnerWithinCarryBounds(cfg: Config, o: Owner, acts: seq<Act>, route: Route, buyLeaves: nat, sellLeaves: nat,
                               base: Base, b: Books, bounds: C.Bounds, bought: int, sold: int, hedged: int)
    requires Settled(cfg, o) && Telling(BooksOf(o.memory)) && HedgedUp(BooksOf(o.memory)) && AllOrderly(cfg, o, acts)
    requires base == BaseOf(o.memory.ledger, route) && b == BooksOf(Run(cfg, o, acts).memory)
    requires bought == Bought(b.ledger, route) - base.bought <= buyLeaves && sold == Sold(b.ledger, route) - base.sold <= sellLeaves
    requires hedged == DoneTotal(b.ledger, Done(b.intents, b.ledger), route) - base.owed
    requires C.MakerCarryBounds(base.start, buyLeaves, sellLeaves) == Some(bounds)
    ensures Abs(base.start + bought - sold - hedged) <= bounds.exposure
    ensures -OUNCE * bounds.buy <= hedged <= OUNCE * bounds.sell
  {
    RunFollows(cfg, o, acts);
    StoreWithinCarryBounds(BooksRun(cfg, o, acts), route, buyLeaves, sellLeaves, base, b, bounds, bought, sold, hedged);
  }
}
