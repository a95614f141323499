/** The state owner itself: a mutable object whose operations change memory in place and then try
    to publish it.  Each is proved to do exactly what the specification says. */
module MakerStore {
  import opened Rounding
  import opened Records
  import opened AllocationLedger
  import opened Durability
  import opened MakerSpec
  import opened MakerSafety
  import opened CycleEvidence
  import MakerLedger
  import HedgeLane
  import HedgePlan

  function ViewName(v: nat): View {
    if v == 0 then Bid else if v == 1 then Ask else Taker
  }

  /** Which view saw each fill. */
  function SeenBy(views: seq<ViewState>): map<FillKey, View> {
    if views == [] then map[]
    else
      var last := views[|views| - 1];
      SeenBy(views[..|views| - 1]) + map key | key in last.seen :: ViewName(|views| - 1)
  }

  lemma {:induction false} SeenByAll(views: seq<ViewState>)
    ensures SeenBy(views).Keys == Seen(views)
  {
    if views != [] {
      SeenByAll(views[..|views| - 1]);
    }
  }

  lemma LedgerIsSeen(m: Memory)
    requires BooksValid(BooksOf(m))
    ensures LedgerSeen(m)
  {
    SeenByAll(m.views);
    forall i | 0 <= i < |m.ledger| ensures m.ledger[i].key in Seen(m.views) {
      assert SourceAgrees(Orders(m.views), Seen(m.views), m.ledger[i]);
    }
  }

  /** The entries of the running dictionary decide admissibility. */
  predicate EntriesAdmissible(cfg: Config, entries: seq<Entry>) {
    forall i :: 0 <= i < |entries| && entries[i].balance != 0 ==>
      Some(entries[i].route) == cfg.carryRoute && Abs(entries[i].balance) <= cfg.residualLimit
  }

  lemma {:induction false} EntryIsLookup(entries: seq<Entry>, i: nat)
    requires Distinct(entries) && i < |entries|
    ensures Lookup(entries, entries[i].route) == entries[i].balance
    ensures Mentions(entries, entries[i].route)
  {
    if i > 0 {
      EntryIsLookup(entries[1..], i - 1);
    }
  }

  lemma {:induction false} LookupIsEntry(entries: seq<Entry>, route: Route)
    requires Lookup(entries, route) != 0
    ensures exists i :: 0 <= i < |entries| && entries[i].route == route && entries[i].balance == Lookup(entries, route)
  {
    if entries[0].route != route {
      LookupIsEntry(entries[1..], route);
      var i :| 0 <= i < |entries[1..]| && entries[1..][i].route == route && entries[1..][i].balance == Lookup(entries[1..], route);
      assert entries[i + 1] == entries[1..][i];
    }
  }

  lemma EntriesDecide(cfg: Config, entries: seq<Entry>, ledger: Ledger)
    requires Distinct(entries) && forall route :: Lookup(entries, route) == Balance(ledger, route)
    ensures EntriesAdmissible(cfg, entries) <==> Admissible(cfg, ledger)
  {
    forall i | 0 <= i < |entries| ensures Balance(ledger, entries[i].route) == entries[i].balance {
      EntryIsLookup(entries, i);
      assert Lookup(entries, entries[i].route) == Balance(ledger, entries[i].route);
    }
    if EntriesAdmissible(cfg, entries) {
      forall route | Balance(ledger, route) != 0
        ensures Some(route) == cfg.carryRoute && Abs(Balance(ledger, route)) <= cfg.residualLimit
      {
        assert Lookup(entries, route) == Balance(ledger, route);
        LookupIsEntry(entries, route);
      }
    }
  }

  // What a write leaves knows the fills of its ledger.
  lemma PublishedIsSeen(cfg: Config, o: Owner, op: Operation, m: Memory, w: WriteOutcome)
    requires LedgerSeen(o.memory) && o.memory == o.committed
    ensures LedgerSeen(MakerSpec.Persist(o, m, MemoryValid(cfg, m), w).owner.memory)
  {
    if MemoryValid(cfg, m) {
      LedgerIsSeen(m);
    }
  }

  // An operation that changes nothing ends at once.
  lemma NothingSteps(cfg: Config, o: Owner, op: Operation, w: WriteOutcome, refused: bool)
    requires Names(o.memory, op) && Try(cfg, o, op) == Nothing(refused)
    ensures Step(cfg, o, op, w) == Result(o, refused)
  {
  }

  predicate Unfinished(intents: map<FillKey, HedgeIntent>, key: FillKey) {
    key in intents && !intents[key].status.Completed?
  }

  /** The obligation of `key` is open and every earlier one is completed. */
  ghost predicate FirstUnfinished(intents: map<FillKey, HedgeIntent>, ledger: Ledger, key: FillKey) {
    exists n :: 0 <= n < |ledger| && ledger[n].key == key && Unfinished(intents, key) && AllFinished(intents, ledger[..n])
  }

  predicate AllFinished(intents: map<FillKey, HedgeIntent>, ledger: Ledger) {
    forall i :: 0 <= i < |ledger| ==> !Unfinished(intents, ledger[i].key)
  }

  lemma FirstIsOne(intents: map<FillKey, HedgeIntent>, ledger: Ledger, key: FillKey, other: FillKey)
    requires FirstUnfinished(intents, ledger, key)
    ensures FirstUnfinished(intents, ledger, other) ==> other == key
  {
    if FirstUnfinished(intents, ledger, other) {
      var n :| 0 <= n < |ledger| && ledger[n].key == key && Unfinished(intents, key) && AllFinished(intents, ledger[..n]);
      var m :| 0 <= m < |ledger| && ledger[m].key == other && Unfinished(intents, other) && AllFinished(intents, ledger[..m]);
      NoneBefore(intents, ledger, n, m);
      NoneBefore(intents, ledger, m, n);
    }
  }

  lemma NoneBefore(intents: map<FillKey, HedgeIntent>, ledger: Ledger, n: nat, m: nat)
    requires n < |ledger| && m < |ledger| && AllFinished(intents, ledger[..m])
    ensures n < m ==> !Unfinished(intents, ledger[n].key)
  {
    if n < m {
      assert !Unfinished(intents, ledger[..m][n].key);
    }
  }

  predicate LedgerSeen(m: Memory) {
    forall i :: 0 <= i < |m.ledger| ==> m.ledger[i].key in SeenBy(m.views)
  }

  class MakerStateStore {
    const cfg: Config
    var views: seq<ViewState>
    var ledger: Ledger
    var cycle: bool
    var failed: bool
    var committed: Memory
    var disk: Option<Memory>

    constructor (cfg: Config)
      ensures this.cfg == cfg && Current() == Start(cfg) && Valid()
    {
      this.cfg := cfg;
      views, ledger, cycle := Empty(cfg).views, [], false;
      failed, committed, disk := false, Empty(cfg), None;
    }

    function Image(): Memory
      reads this
    {
      Memory(views, ledger, cycle)
    }

    function Current(): Owner
      reads this
    {
      Owner(Image(), failed, committed, disk)
    }

    /** Memory, the committed image and the file agree, and every allocation's fill is known. */
    predicate Valid()
      reads this
    {
      Agreed(cfg, Current()) && LedgerSeen(Image())
    }

    // ---------------------------------------------------------------- checking and publishing

    method Validate() returns (ok: bool)
      ensures ok <==> MemoryValid(cfg, Image())
    {
      if |views| != ViewCount(cfg) || (cycle && !CommonFreeze(views)) || !IdentitiesValid(views) {
        return false;
      }
      ok := ValidateAllocations(Orders(views), Seen(views), Intents(views), ledger);
    }

    method Restore(m: Memory)
      modifies this`views, this`ledger, this`cycle
      ensures Image() == m
    {
      views, ledger, cycle := m.views, m.ledger, m.cycle;
    }

    /** Publish the changed memory; `w` is how the write ends. */
    method Persist(w: WriteOutcome) returns (raised: bool)
      modifies this
      ensures
        var o := old(Current());
        var m := Candidate(o, old(Image()));
        Result(Current(), raised) == MakerSpec.Persist(o, m, MemoryValid(cfg, m), w)
    {
      if failed {
        cycle := false;
      }
      var candidate := Image();
      var ok := Validate();
      if !ok || w.NotWritten? {
        Restore(committed);
        return true;
      }
      disk := Some(candidate);
      committed := candidate;
      if w.PublishedButRaised? {
        failed := true;
        return true;
      }
      return false;
    }

    /** The operation has put its change into memory; publishing it completes the step. */
    method Publish(w: WriteOutcome, ghost o: Owner, ghost op: Operation) returns (raised: bool)
      requires Agreed(cfg, o) && LedgerSeen(o.memory) && Names(o.memory, op) && !op.DoFreeze?
      requires Try(cfg, o, op) == Change(Image()) && failed == o.failed && committed == o.committed && disk == o.disk
      modifies this
      ensures Result(Current(), raised) == Step(cfg, o, op, w) && Valid()
    {
      ghost var m := Candidate(o, Image());
      raised := Persist(w);
      PublishedIsSeen(cfg, o, op, m, w);
    }

    // ---------------------------------------------------------------- freezes

    method SetFreezes(reason: Reason, which: Option<nat>) returns (changed: bool)
      modifies this`views
      ensures views == MakerSpec.SetFreezes(old(views), reason, which)
      ensures changed <==> views != old(views)
    {
      changed := false;
      ghost var goal := MakerSpec.SetFreezes(views, reason, which);
      for i := 0 to |views|
        invariant |views| == |old(views)| == |goal|
        invariant forall j :: 0 <= j < i ==> views[j] == goal[j]
        invariant forall j :: i <= j < |views| ==> views[j] == old(views)[j]
        invariant changed <==> exists j :: 0 <= j < i && goal[j] != old(views)[j]
      {
        if (which == None || which == Some(i)) && views[i].freeze == None {
          views := views[i := views[i].(freeze := Some(reason))];
          changed := true;
          assert goal[i] != old(views)[i];
        }
      }
      assert views == goal;
    }

    /** The in-memory part of an external hold. */
    method SetHold(reason: Reason, which: Option<nat>) returns (changed: bool, raised: bool)
      modifies this`views, this`cycle
      ensures
        var a := MakerSpec.Freeze(old(Current()), reason, which);
        && (changed <==> a.Change?) && Image() == (if changed then a.memory else old(Image()))
        && (!changed ==> raised == a.raised)
    {
      if reason == Named(EMPTY) {
        return false, true;
      }
      changed := SetFreezes(reason, which);
      changed := changed || cycle;
      cycle := false;
      raised := false;
    }

    method Freeze(reason: Reason, which: Option<nat>, w: WriteOutcome) returns (raised: bool)
      requires Valid() && Names(Image(), DoFreeze(reason, which))
      modifies this
      ensures Result(Current(), raised) == Step(cfg, old(Current()), DoFreeze(reason, which), w) && Valid()
    {
      ghost var o := Current();
      var changed, refused := SetHold(reason, which);
      if !changed {
        return refused;
      }
      ghost var m := Candidate(o, Image());
      PublishedIsSeen(cfg, o, DoFreeze(reason, which), m, w);
      raised := Persist(w);
      if raised {
        failed := true;
      }
    }

    method SourceBalanceIsAdmissible() returns (ok: bool)
      requires LedgerSeen(Image())
      ensures ok <==> Admissible(cfg, ledger)
    {
      var entries := ComputeRouteBalances(SeenBy(views), ledger);
      EntriesDecide(cfg, entries, ledger);
      ok := EntriesAdmissible(cfg, entries);
    }

    method CanClear() returns (ok: bool)
      requires Valid()
      ensures ok <==> Clearable(cfg, Current())
    {
      MayClearIff(cfg, Current());
      var admissible := SourceBalanceIsAdmissible();
      ok := !failed && admissible && OneReason(views) && forall i :: 0 <= i < |views| ==> CycleComplete(views[i]);
    }

    method Thaw()
      modifies this`views
      ensures views == Unfrozen(old(views))
    {
      var n := |views|;
      for i := 0 to n
        invariant |views| == n
        invariant forall j :: 0 <= j < i ==> views[j] == old(views)[j].(freeze := None)
        invariant forall j :: i <= j < n ==> views[j] == old(views)[j]
      {
        views := views[i := views[i].(freeze := None)];
      }
    }

    method ClearSourceFreezes(w: WriteOutcome) returns (raised: bool, cleared: bool)
      requires Valid()
      modifies this
      ensures Result(Current(), raised) == Step(cfg, old(Current()), DoClear, w) && Valid()
      ensures cleared <==> Clearable(cfg, old(Current())) && !raised
    {
      MayClearIff(cfg, Current());
      ghost var o := Current();
      var ok := CanClear();
      if !ok {
        return false, false;
      }
      Thaw();
      cycle := false;
      raised := Publish(w, o, DoClear);
      cleared := !raised;
    }

    // ---------------------------------------------------------------- source orders and fills

    method BeginSource(v: nat, order: SourceOrder, hold: Option<Reason>, w: WriteOutcome) returns (raised: bool)
      requires Valid() && v < |views|
      modifies this
      ensures Result(Current(), raised) == Step(cfg, old(Current()), DoBegin(v, order, hold), w) && Valid()
    {
      ghost var o := Current();
      var view := views[v];
      var admissible := SourceBalanceIsAdmissible();
      if view.halt != None || view.freeze != None || view.active != None || !admissible
         || !AllHedged(view) || !AllCompleted(view) || !OrderAcceptable(order, hold) {
        return true;
      }
      views := views[v := view.(orders := view.orders[order.cid := order], active := Some(order.cid), freeze := hold)];
      raised := Publish(w, o, DoBegin(v, order, hold));
    }

    method UpdateSourceStatus(v: nat, cid: int, status: SourceStatus, w: WriteOutcome) returns (raised: bool)
      requires Valid() && v < |views|
      modifies this
      ensures Result(Current(), raised) == Step(cfg, old(Current()), DoStatus(v, cid, status), w) && Valid()
    {
      ghost var o := Current();
      if cid !in views[v].orders {
        return false;
      }
      views := views[v := StatusUpdated(views[v], cid, status)];
      raised := Publish(w, o, DoStatus(v, cid, status));
    }

    /** A canceled or expired order is confirmed by an authoritative report. */
    method ConfirmSourceReconciled(v: nat, cid: int, w: WriteOutcome) returns (raised: bool)
      requires Valid() && v < |views|
      modifies this
      ensures Result(Current(), raised) == Step(cfg, old(Current()), DoConfirm(v, cid), w) && Valid()
    {
      ghost var o := Current();
      var view := views[v];
      if cid !in view.orders || !(view.orders[cid].status.Canceled? || view.orders[cid].status.Expired?) {
        return true;
      }
      if view.active == Some(cid) {
        view := view.(active := None);
      }
      if view.halt == Some(ReconcileReason(cid)) {
        view := view.(halt := None);
      }
      views := views[v := view];
      raised := Publish(w, o, DoConfirm(v, cid));
    }

    method MarkSourceUnknown(v: nat, cid: int, reason: Reason, w: WriteOutcome) returns (raised: bool)
      requires Valid() && v < |views|
      modifies this
      ensures Result(Current(), raised) == Step(cfg, old(Current()), DoDoubt(v, cid, reason), w) && Valid()
    {
      ghost var o := Current();
      var view := views[v];
      if cid in view.orders {
        view := view.(orders := view.orders[cid := view.orders[cid].(status := Unknown)]);
      }
      views := views[v := view.(halt := Some(reason))];
      raised := Publish(w, o, DoDoubt(v, cid, reason));
    }

    /** The fill joins its route's residual; the rounded sum becomes its allocation. */
    method AllocateFill(order: SourceOrder, key: FillKey, signed: int) returns (owed: int)
      requires forall i :: 0 <= i < |ledger| ==> ledger[i].key in SeenBy(views)
      modifies this`ledger
      ensures owed == Obligation(old(ledger), RouteOf(order), signed)
      ensures ledger == Allocate(old(ledger), key, RouteOf(order), signed)
    {
      var route := RouteOf(order);
      var entries := ComputeRouteBalances(SeenBy(views), ledger);
      var combined := Lookup(entries, route) + signed;
      owed := OUNCE * HalfEven(combined);
      ledger := ledger + [Allocation(key, route, signed, owed)];
    }

    /** The fill's own records: the order's total, the allocation and any obligation. */
    method RecordFill(v: nat, key: FillKey, fill: int)
      requires LedgerSeen(Image()) && v < |views| && key.cid in views[v].orders
      modifies this`views, this`ledger
      ensures Image() == Reserved(old(Image()), v, key, fill)
    {
      var order := views[v].orders[key.cid];
      var owed := AllocateFill(order, key, HedgePlan.Signed(order.side, fill));
      views := views[v := FillRecorded(views[v], key, fill, owed)];
    }

    /** A fill freezes every view under its own reason and may open the cycle's permission. */
    method HoldForFill(key: FillKey)
      requires LedgerSeen(Image())
      modifies this`views, this`cycle
      ensures cycle == (old(cycle) || OpensCycle(old(Current())))
      ensures views == MakerSpec.SetFreezes(old(views), FillReason(key.cid, key.trade), None)
      ensures LedgerSeen(Image())
    {
      ghost var before := Image();
      if !failed && (forall i :: 0 <= i < |views| ==> views[i].halt == None)
         && (cycle || forall i :: 0 <= i < |views| ==> views[i].freeze == None) {
        cycle := true;
      }
      var _ := SetFreezes(FillReason(key.cid, key.trade), None);
      SeenSurvives(before, Image());
    }

    /** The in-memory part of a reservation; a refused fill takes its freezes back. */
    method ReserveInMemory(v: nat, key: FillKey, side: HedgePlan.Side, fill: int) returns (changed: bool, raised: bool)
      requires LedgerSeen(Image()) && v < |views|
      modifies this`views, this`ledger, this`cycle
      ensures
        var a := MakerSpec.ReserveSourceFill(old(Current()), v, key, side, fill);
        && (changed <==> a.Change?) && Image() == (if changed then a.memory else old(Image()))
        && (!changed ==> raised == a.raised)
    {
      if key in views[v].seen || key.cid !in views[v].orders {
        return false, false;
      }
      var previous := Image();
      HoldForFill(key);
      if views[v].orders[key.cid].side != side || fill <= 0 {
        Restore(previous);
        return false, true;
      }
      RecordFill(v, key, fill);
      return true, false;
    }

    /** Record one actual fill and publish all of it, or nothing. */
    method ReserveSourceFill(v: nat, key: FillKey, side: HedgePlan.Side, fill: int, w: WriteOutcome) returns (raised: bool)
      requires Valid() && v < |views|
      modifies this
      ensures Result(Current(), raised) == Step(cfg, old(Current()), DoReserve(v, key, side, fill), w) && Valid()
    {
      ghost var o := Current();
      var changed, refused := ReserveInMemory(v, key, side, fill);
      if !changed {
        NothingSteps(cfg, o, DoReserve(v, key, side, fill), w, refused);
        return refused;
      }
      raised := Publish(w, o, DoReserve(v, key, side, fill));
    }

    // ---------------------------------------------------------------- the hedge side

    method RecordHedge(v: nat, key: FillKey, change: HedgeChange) returns (changed: bool, raised: bool)
      requires v < |views|
      modifies this`views
      ensures
        var a := MakerSpec.ChangeHedge(old(Current()), v, key, change);
        && (changed <==> a.Change?) && Image() == (if changed then a.memory else old(Image()))
        && (!changed ==> raised == a.raised)
    {
      var view := views[v];
      if !Concerns(view, key, change) {
        return false, false;
      }
      if key !in view.intents {
        return false, true;
      }
      var next := IntentChanged(view, view.intents[key], change);
      if next == None {
        return false, true;
      }
      if change.PlanBound? && next.value == view.intents[key] {
        return false, false;
      }
      views := views[v := HedgeChanged(view, key, next.value, change)];
      return true, false;
    }

    method ChangeHedge(v: nat, key: FillKey, change: HedgeChange, w: WriteOutcome) returns (raised: bool)
      requires Valid() && v < |views|
      modifies this
      ensures Result(Current(), raised) == Step(cfg, old(Current()), DoHedge(v, key, change), w) && Valid()
    {
      ghost var o := Current();
      var changed, refused := RecordHedge(v, key, change);
      if !changed {
        NothingSteps(cfg, o, DoHedge(v, key, change), w, refused);
        return refused;
      }
      raised := Publish(w, o, DoHedge(v, key, change));
    }

    /** The earliest allocation whose obligation is not completed. */
    method FirstUnfinishedHedge() returns (selected: Option<FillKey>)
      ensures selected == None ==> AllFinished(Intents(views), ledger)
      ensures selected.Some? ==> FirstUnfinished(Intents(views), ledger, selected.value)
    {
      var intents := Intents(views);
      for n := 0 to |ledger|
        invariant AllFinished(intents, ledger[..n])
      {
        if Unfinished(intents, ledger[n].key) {
          return Some(ledger[n].key);
        }
      }
      return None;
    }

    /** In a shared owner exactly the first unfinished obligation is ready, for the view it is in. */
    method HedgeDispatchReady(v: nat, key: FillKey) returns (ready: bool)
      requires v < |views|
      ensures ready <==> !cfg.shared || (FirstUnfinished(Intents(views), ledger, key) && key in views[v].intents)
    {
      if !cfg.shared {
        return true;
      }
      var selected := FirstUnfinishedHedge();
      ready := selected == Some(key) && key in views[v].intents;
      if selected.Some? {
        FirstIsOne(Intents(views), ledger, selected.value, key);
      }
    }

    /** The view's share of the route balances. */
    method RoundingResidual(v: nat) returns (residual: int)
      requires LedgerSeen(Image())
      ensures residual == TotalOf(RouteBalances(SeenBy(views), ledger), ViewName(v))
    {
      var entries := ComputeRouteBalances(SeenBy(views), ledger);
      residual := 0;
      for i := 0 to |entries|
        invariant residual + TotalOf(entries[i..], ViewName(v)) == TotalOf(entries, ViewName(v))
      {
        assert entries[i..][0] == entries[i] && entries[i..][1..] == entries[i + 1..];
        if entries[i].view == ViewName(v) {
          residual := residual + entries[i].balance;
        }
      }
    }
  }

  lemma SeenSurvives(m: Memory, frozen: Memory)
    requires LedgerSeen(m) && frozen.ledger == m.ledger && |frozen.views| == |m.views|
    requires forall i :: 0 <= i < |m.views| ==> frozen.views[i].seen == m.views[i].seen
    ensures LedgerSeen(frozen)
  {
    SeenByAll(m.views);
    SeenByAll(frozen.views);
    MakerLedger.SameSeen(m.views, frozen.views);
  }
}
