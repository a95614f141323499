/** What must be true before the freezes of a cycle may go. */
module CycleEvidence {
  import opened Rounding
  import opened Records
  import opened AllocationLedger
  import opened MakerSpec

  /** A view with nothing left to do. */
  predicate ViewSettled(view: ViewState) {
    && view.halt == None && view.active == None
    && (forall cid :: cid in view.orders ==>
          view.orders[cid].status in {Filled, Denied, SourceStatus.Rejected, Canceled, Expired})
    && (forall key :: key in view.intents ==>
          view.intents[key].status == Completed && view.intents[key].filled == view.intents[key].quantity)
  }

  /** Only the carry route has a residual, within its limit. */
  ghost predicate ResidualsBounded(cfg: Config, ledger: Ledger) {
    forall route :: Balance(ledger, route) == 0
      || (cfg.carryRoute == Some(route) && -cfg.residualLimit <= Balance(ledger, route) <= cfg.residualLimit)
  }

  ghost predicate CycleOver(cfg: Config, o: Owner) {
    && !o.failed && ResidualsBounded(cfg, o.memory.ledger)
    && (forall i :: 0 <= i < |o.memory.views| ==> ViewSettled(o.memory.views[i]))
  }

  /** Some view is frozen, and every frozen view for this one reason. */
  predicate FrozenFor(views: seq<ViewState>, reason: Reason) {
    && (exists i :: 0 <= i < |views| && views[i].freeze == Some(reason))
    && (forall i :: 0 <= i < |views| ==> views[i].freeze == None || views[i].freeze == Some(reason))
  }

  predicate FrozenAlike(views: seq<ViewState>) {
    exists i :: 0 <= i < |views| && views[i].freeze.Some? && FrozenFor(views, views[i].freeze.value)
  }

  ghost predicate Clearable(cfg: Config, o: Owner) {
    CycleOver(cfg, o) && FrozenAlike(o.memory.views)
  }

  /** The owner's own test for a clear is that the cycle is over and every frozen view has one reason. */
  lemma MayClearIff(cfg: Config, o: Owner)
    ensures MayClear(cfg, o) <==> Clearable(cfg, o)
  {
    if MayClear(cfg, o) {
      var i :| 0 <= i < |o.memory.views| && o.memory.views[i].freeze.Some?;
      assert FrozenFor(o.memory.views, o.memory.views[i].freeze.value);
    }
    if Clearable(cfg, o) {
      var views := o.memory.views;
      var i :| 0 <= i < |views| && views[i].freeze.Some? && FrozenFor(views, views[i].freeze.value);
      assert OneReason(views);
    }
  }
}
