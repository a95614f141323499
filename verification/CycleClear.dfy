/** When the freezes of a cycle go, and what is hedged by then. */
module CycleClear {
  import opened Rounding
  import opened Records
  import opened AllocationLedger
  import opened Durability
  import opened MakerSpec
  import opened CycleEvidence
  import opened MakerSafety
  import opened MakerLedger
  import opened HedgedLedger

  // ---------------------------------------------------------------- when a freeze goes

  /** A step that removes or changes any view's freeze is a clear, and before it the whole cycle was
      over: nothing halted or active, every order terminal, every obligation completed in full, every
      residual admissible, and one reason on every frozen view. */
  lemma ThawNeedsEvidence(cfg: Config, o: Owner, op: Operation, w: WriteOutcome, i: nat, after: Owner)
    requires Agreed(cfg, o) && Names(o.memory, op) && after == Step(cfg, o, op, w).owner
    requires i < |o.memory.views| && o.memory.views[i].freeze.Some?
    ensures |after.memory.views| == |o.memory.views|
    ensures after.memory.views[i].freeze == o.memory.views[i].freeze
      || (op.DoClear? && CycleOver(cfg, o) && FrozenFor(o.memory.views, o.memory.views[i].freeze.value))
  {
    FreezesStay(cfg, o, op, w, i, after);
  }

  lemma {:induction false} IntentsOnly(views: seq<ViewState>, key: FillKey)
    requires key in Intents(views)
    ensures exists i :: 0 <= i < |views| && key in views[i].intents && views[i].intents[key] == Intents(views)[key]
  {
    var n := |views| - 1;
    if key in views[n].intents {
      assert views[n].intents[key] == Intents(views)[key];
    } else {
      IntentsOnly(views[..n], key);
      var i :| 0 <= i < n && key in views[..n][i].intents && views[..n][i].intents[key] == Intents(views[..n])[key];
      assert views[i].intents[key] == Intents(views)[key];
    }
  }

  lemma SettledIsDone(m: Memory)
    requires BooksValid(BooksOf(m)) && forall i :: 0 <= i < |m.views| ==> ViewSettled(m.views[i])
    ensures AllDone(m.ledger, Done(Intents(m.views), m.ledger))
  {
    var intents := Intents(m.views);
    forall i | 0 <= i < |m.ledger| ensures Done(intents, m.ledger)[i] == m.ledger[i].owed {
      assert IntentAgrees(intents, m.ledger[i]);
      if m.ledger[i].owed != 0 {
        IntentsOnly(m.views, m.ledger[i].key);
      }
    }
  }

  lemma OverIsHedged(ledger: Ledger, done: seq<int>, route: Route)
    requires |done| == |ledger| && AllDone(ledger, done) && Online(ledger)
    ensures DoneTotal(ledger, done, route) == AllocatedTotal(ledger, route)
    ensures FillTotal(ledger, route) - AllocatedTotal(ledger, route) == Balance(ledger, route)
    ensures Abs(Balance(ledger, route)) <= HALF
  {
    NothingOpen(ledger, done, route);
    FillsAreAllocationsPlusBalance(ledger, route);
  }

  /** Once the cycle is over every route is hedged exactly: what was executed is what was allocated,
      and the exposure left open is a bounded residual of the carry route or nothing. */
  lemma CycleOverIsHedged(cfg: Config, o: Owner, route: Route, executed: int)
    requires Settled(cfg, o) && CycleOver(cfg, o)
    requires executed == DoneTotal(o.memory.ledger, Done(Intents(o.memory.views), o.memory.ledger), route)
    ensures executed == AllocatedTotal(o.memory.ledger, route)
    ensures
      var exposure := FillTotal(o.memory.ledger, route) - executed;
      && exposure == Balance(o.memory.ledger, route) && -HALF <= exposure <= HALF
      && (exposure != 0 ==> cfg.carryRoute == Some(route) && -cfg.residualLimit <= exposure <= cfg.residualLimit)
  {
    SettledIsDone(o.memory);
    OverIsHedged(o.memory.ledger, Done(Intents(o.memory.views), o.memory.ledger), route);
  }

  // ---------------------------------------------------------------- when a clear succeeds

  lemma UnfrozenOrders(views: seq<ViewState>)
    requires OrdersValid(views)
    ensures OrdersValid(Unfrozen(views))
  {
  }

  lemma UnfrozenFills(views: seq<ViewState>)
    requires FillsValid(views)
    ensures FillsValid(Unfrozen(views))
  {
    forall i, j, key, other |
      0 <= i < |views| && 0 <= j < |views| && key in Unfrozen(views)[i].seen && other in Unfrozen(views)[j].seen && key != other
      && AccountOf(Unfrozen(views)[i], key.cid) == AccountOf(Unfrozen(views)[j], other.cid)
      ensures key.trade != other.trade
    {
      assert key in views[i].seen && other in views[j].seen;
      assert AccountOf(views[i], key.cid) == AccountOf(views[j], other.cid);
    }
  }

  lemma UnfrozenIntents(views: seq<ViewState>)
    requires IntentsValid(views)
    ensures IntentsValid(Unfrozen(views))
  {
  }

  lemma UnfrozenTrades(views: seq<ViewState>, i: nat, j: nat)
    requires i < |views| && j < |views| && HedgeTradesDistinct(views[i], views[j])
    ensures HedgeTradesDistinct(Unfrozen(views)[i], Unfrozen(views)[j])
  {
  }

  lemma UnfrozenHedgeFills(views: seq<ViewState>)
    requires HedgeFillsValid(views)
    ensures HedgeFillsValid(Unfrozen(views))
  {
    forall i, fill | 0 <= i < |views| && fill in Unfrozen(views)[i].seenHedge
      ensures fill.1 != EMPTY && HasOrder(Unfrozen(views)[i], fill.0)
    {
      assert HasOrder(views[i], fill.0);
    }
    forall i: nat, j: nat | i < |views| && j < |views|
      ensures HedgeTradesDistinct(Unfrozen(views)[i], Unfrozen(views)[j])
    {
      UnfrozenTrades(views, i, j);
    }
  }

  lemma EvidenceClears(cfg: Config, o: Owner, reason: Reason)
    requires CycleOver(cfg, o) && FrozenFor(o.memory.views, reason)
    ensures Clear(cfg, o) == Change(o.memory.(views := Unfrozen(o.memory.views), cycle := false))
  {
  }

  lemma ClearedByWrite(o: Owner, m: Memory)
    requires !o.failed
    ensures Finish(o, DoClear, Change(m), true, Written) == Result(Owner(m, false, m, Some(m)), false)
  {
  }

  /** The converse: an over cycle frozen for one reason is cleared, and nothing but the freezes and
      the permission changes. */
  lemma EvidenceThaws(cfg: Config, o: Owner, reason: Reason)
    requires Settled(cfg, o) && CycleOver(cfg, o) && FrozenFor(o.memory.views, reason)
    ensures
      var r := Step(cfg, o, DoClear, Written);
      && !r.raised && !r.owner.failed && !r.owner.memory.cycle && r.owner.memory.ledger == o.memory.ledger
      && |r.owner.memory.views| == |o.memory.views|
      && (forall i :: 0 <= i < |o.memory.views| ==>
            r.owner.memory.views[i] == o.memory.views[i].(freeze := None))
  {
    EvidenceClears(cfg, o, reason);
    UnfrozenOrders(o.memory.views);
    UnfrozenFills(o.memory.views);
    UnfrozenIntents(o.memory.views);
    UnfrozenHedgeFills(o.memory.views);
    FreezeLedgerKept(cfg, o, Named(EMPTY), None);
    var m := o.memory.(views := Unfrozen(o.memory.views), cycle := false);
    assert MemoryValid(cfg, m);
    ClearedByWrite(o, m);
  }

  lemma ThawIsOver(cfg: Config, before: Owner, op: Operation, w: WriteOutcome, i: nat, after: Owner)
    requires Agreed(cfg, before) && Names(before.memory, op) && after == Step(cfg, before, op, w).owner
    requires i < |before.memory.views| && before.memory.views[i].freeze.Some?
    requires i >= |after.memory.views| || after.memory.views[i].freeze != before.memory.views[i].freeze
    ensures op.DoClear? && CycleOver(cfg, before)
  {
    ThawNeedsEvidence(cfg, before, op, w, i, after);
  }

  /** In every run from a fresh file, a freeze is removed only at the end of a fully hedged cycle. */
  lemma EveryThawIsEarned(cfg: Config, acts: seq<Act>, op: Operation, w: WriteOutcome, i: nat, route: Route,
                          before: Owner, after: Owner, executed: int)
    requires before == Run(cfg, Start(cfg), acts) && Names(before.memory, op) && after == Step(cfg, before, op, w).owner
    requires i < |before.memory.views| && before.memory.views[i].freeze.Some?
    requires executed == DoneTotal(before.memory.ledger, Done(Intents(before.memory.views), before.memory.ledger), route)
    requires i >= |after.memory.views| || after.memory.views[i].freeze != before.memory.views[i].freeze
    ensures op.DoClear? && CycleOver(cfg, before)
    ensures
      var exposure := FillTotal(before.memory.ledger, route) - executed;
      && -HALF <= exposure <= HALF
      && (exposure != 0 ==> cfg.carryRoute == Some(route) && -cfg.residualLimit <= exposure <= cfg.residualLimit)
  {
    EveryRunSettles(cfg, acts);
    ThawIsOver(cfg, before, op, w, i, after);
    CycleOverIsHedged(cfg, before, route, executed);
  }
}
