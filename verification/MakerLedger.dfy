/** The ledger of the state owner: no operation can leave one that the ordered check refuses.

    The check looks at all views together, so each operation on one view is related to a change of
    the merged dictionaries: one order, one fill, one obligation.  What the ledger module proves of
    a reservation then holds of the owner, and so of every image it publishes. */
module MakerLedger {
  import opened Rounding
  import opened Records
  import opened AllocationLedger
  import opened MakerSpec
  import HedgeLane
  import HedgePlan

  // ---------------------------------------------------------------- merged dictionaries

  lemma {:induction false} SameOrders(views: seq<ViewState>, views': seq<ViewState>)
    requires |views'| == |views| && forall i :: 0 <= i < |views| ==> views'[i].orders == views[i].orders
    ensures Orders(views') == Orders(views)
  {
    if views != [] {
      SameOrders(views[..|views| - 1], views'[..|views| - 1]);
    }
  }

  lemma {:induction false} SameIntents(views: seq<ViewState>, views': seq<ViewState>)
    requires |views'| == |views| && forall i :: 0 <= i < |views| ==> views'[i].intents == views[i].intents
    ensures Intents(views') == Intents(views)
  {
    if views != [] {
      SameIntents(views[..|views| - 1], views'[..|views| - 1]);
    }
  }

  lemma {:induction false} SameSeen(views: seq<ViewState>, views': seq<ViewState>)
    requires |views'| == |views| && forall i :: 0 <= i < |views| ==> views'[i].seen == views[i].seen
    ensures Seen(views') == Seen(views)
  {
    if views != [] {
      SameSeen(views[..|views| - 1], views'[..|views| - 1]);
    }
  }

  lemma MergeLast<K, V>(a: map<K, V>, b: map<K, V>, k: K, v: V)
    ensures a + b[k := v] == (a + b)[k := v]
  {
  }

  lemma MergeFirst<K, V>(a: map<K, V>, b: map<K, V>, k: K, v: V)
    requires k !in b
    ensures a[k := v] + b == (a + b)[k := v]
  {
  }

  lemma {:induction false} OneOrder(views: seq<ViewState>, views': seq<ViewState>, v: nat, c: int, r: SourceOrder)
    requires v < |views| == |views'| && views'[v].orders == views[v].orders[c := r]
    requires forall i :: 0 <= i < |views| && i != v ==> views'[i].orders == views[i].orders && c !in views[i].orders
    ensures Orders(views') == Orders(views)[c := r]
  {
    var n := |views| - 1;
    var front := Orders(views[..n]);
    if v == n {
      SameOrders(views[..n], views'[..n]);
      MergeLast(front, views[n].orders, c, r);
    } else {
      OneOrder(views[..n], views'[..n], v, c, r);
      MergeFirst(front, views[n].orders, c, r);
    }
  }

  lemma {:induction false} OneIntent(views: seq<ViewState>, views': seq<ViewState>, v: nat, key: FillKey, i: HedgeIntent)
    requires v < |views| == |views'| && views'[v].intents == views[v].intents[key := i]
    requires forall j :: 0 <= j < |views| && j != v ==> views'[j].intents == views[j].intents && key !in views[j].intents
    ensures Intents(views') == Intents(views)[key := i]
  {
    var n := |views| - 1;
    var front := Intents(views[..n]);
    if v == n {
      SameIntents(views[..n], views'[..n]);
      MergeLast(front, views[n].intents, key, i);
    } else {
      OneIntent(views[..n], views'[..n], v, key, i);
      MergeFirst(front, views[n].intents, key, i);
    }
  }

  lemma {:induction false} OneSeen(views: seq<ViewState>, views': seq<ViewState>, v: nat, key: FillKey)
    requires v < |views| == |views'| && views'[v].seen == views[v].seen + {key}
    requires forall i :: 0 <= i < |views| && i != v ==> views'[i].seen == views[i].seen
    ensures Seen(views') == Seen(views) + {key}
  {
    var n := |views| - 1;
    if v == n {
      SameSeen(views[..n], views'[..n]);
    } else {
      OneSeen(views[..n], views'[..n], v, key);
    }
  }

  lemma {:induction false} OrdersLookup(views: seq<ViewState>, v: nat, c: int)
    requires v < |views| && c in views[v].orders
    requires forall i :: 0 <= i < |views| && i != v ==> c !in views[i].orders
    ensures c in Orders(views) && Orders(views)[c] == views[v].orders[c]
  {
    var n := |views| - 1;
    if v < n {
      OrdersLookup(views[..n], v, c);
    }
  }

  lemma {:induction false} OrdersOnly(views: seq<ViewState>, c: int)
    requires forall i :: 0 <= i < |views| ==> c !in views[i].orders
    ensures c !in Orders(views)
  {
    if views != [] {
      OrdersOnly(views[..|views| - 1], c);
    }
  }

  lemma {:induction false} IntentsLookup(views: seq<ViewState>, v: nat, key: FillKey)
    requires v < |views| && key in views[v].intents
    requires forall i :: 0 <= i < |views| && i != v ==> key !in views[i].intents
    ensures key in Intents(views) && Intents(views)[key] == views[v].intents[key]
  {
    var n := |views| - 1;
    if v < n {
      IntentsLookup(views[..n], v, key);
    }
  }

  lemma {:induction false} SeenOnly(views: seq<ViewState>, key: FillKey)
    requires forall i :: 0 <= i < |views| ==> key !in views[i].seen
    ensures key !in Seen(views)
  {
    if views != [] {
      SeenOnly(views[..|views| - 1], key);
    }
  }

  // ---------------------------------------------------------------- harmless changes

  predicate SameObligation(i: HedgeIntent, j: HedgeIntent) {
    j.quantity == i.quantity && j.sourceFill == i.sourceFill && j.hedgeSide == i.hedgeSide
  }

  predicate SameSource(r: SourceOrder, r': SourceOrder) {
    r'.side == r.side && r'.filled == r.filled && RouteOf(r') == RouteOf(r)
  }

  lemma IntentChangeKeepsBooks(b: Books, key: FillKey, j: HedgeIntent)
    requires BooksValid(b) && key in b.intents && SameObligation(b.intents[key], j)
    ensures BooksValid(b.(intents := b.intents[key := j]))
  {
    var b' := b.(intents := b.intents[key := j]);
    forall i | 0 <= i < |b.ledger| ensures IntentAgrees(b'.intents, b.ledger[i]) {
      assert IntentAgrees(b.intents, b.ledger[i]);
    }
  }

  lemma OrderChangeKeepsBooks(b: Books, c: int, r: SourceOrder)
    requires BooksValid(b) && c in b.records && SameSource(b.records[c], r)
    ensures BooksValid(b.(records := b.records[c := r]))
  {
    var b' := b.(records := b.records[c := r]);
    forall i | 0 <= i < |b.ledger| ensures SourceAgrees(b'.records, b.seen, b.ledger[i]) {
      assert SourceAgrees(b.records, b.seen, b.ledger[i]);
    }
  }

  lemma IntentChangedIsSame(view: ViewState, i: HedgeIntent, change: HedgeChange, j: HedgeIntent)
    requires IntentChanged(view, i, change) == Some(j)
    ensures SameObligation(i, j)
  {
  }

  // ---------------------------------------------------------------- operation by operation

  /** The books of a memory image do not look at freezes, halts or the permission. */
  lemma BooksIgnoreFreezes(m: Memory, m': Memory)
    requires |m'.views| == |m.views| && m'.ledger == m.ledger
    requires forall i :: 0 <= i < |m.views| ==>
      m'.views[i].orders == m.views[i].orders && m'.views[i].seen == m.views[i].seen && m'.views[i].intents == m.views[i].intents
    ensures BooksOf(m') == BooksOf(m)
  {
    SameOrders(m.views, m'.views);
    SameSeen(m.views, m'.views);
    SameIntents(m.views, m'.views);
  }

  lemma ObligationBooks(m: Memory, v: nat, key: FillKey, j: HedgeIntent, view: ViewState)
    requires v < |m.views| && key in m.views[v].intents
    requires forall i :: 0 <= i < |m.views| && i != v ==> key !in m.views[i].intents
    requires view.intents == m.views[v].intents[key := j] && view.orders == m.views[v].orders && view.seen == m.views[v].seen
    ensures BooksOf(WithView(m, v, view)) == BooksOf(m).(intents := BooksOf(m).intents[key := j])
    ensures key in BooksOf(m).intents && BooksOf(m).intents[key] == m.views[v].intents[key]
  {
    var m' := WithView(m, v, view);
    IntentsLookup(m.views, v, key);
    OneIntent(m.views, m'.views, v, key, j);
    SameOrders(m.views, m'.views);
    SameSeen(m.views, m'.views);
  }

  lemma StatusKeepsBooks(m: Memory, v: nat, cid: int, status: SourceStatus)
    requires v < |m.views| && BooksValid(BooksOf(m)) && cid in m.views[v].orders
    requires forall i :: 0 <= i < |m.views| && i != v ==> cid !in m.views[i].orders
    ensures BooksValid(BooksOf(WithView(m, v, StatusUpdated(m.views[v], cid, status))))
  {
    var m' := WithView(m, v, StatusUpdated(m.views[v], cid, status));
    OrdersLookup(m.views, v, cid);
    OneOrder(m.views, m'.views, v, cid, m.views[v].orders[cid].(status := status));
    SameIntents(m.views, m'.views);
    SameSeen(m.views, m'.views);
    OrderChangeKeepsBooks(BooksOf(m), cid, m.views[v].orders[cid].(status := status));
  }

  lemma BeginKeepsBooks(m: Memory, v: nat, order: SourceOrder, view: ViewState)
    requires v < |m.views| && BooksValid(BooksOf(m)) && order.filled == 0
    requires forall i :: 0 <= i < |m.views| ==> order.cid !in m.views[i].orders
    requires view == m.views[v].(orders := m.views[v].orders[order.cid := order], active := view.active, freeze := view.freeze)
    ensures BooksValid(BooksOf(WithView(m, v, view)))
  {
    var m' := WithView(m, v, view);
    OrdersOnly(m.views, order.cid);
    OneOrder(m.views, m'.views, v, order.cid, order);
    SameIntents(m.views, m'.views);
    SameSeen(m.views, m'.views);
    NewOrderKeepsValid(BooksOf(m), order);
  }

  lemma ReservedRecords(m: Memory, v: nat, key: FillKey, fill: int, m': Memory)
    requires v < |m.views| && key.cid in m.views[v].orders && m' == Reserved(m, v, key, fill)
    requires forall i :: 0 <= i < |m.views| && i != v ==> key.cid !in m.views[i].orders
    ensures key.cid in Orders(m.views) && Orders(m.views)[key.cid] == m.views[v].orders[key.cid]
    ensures
      var order := m.views[v].orders[key.cid];
      Orders(m'.views) == Orders(m.views)[key.cid := order.(filled := order.filled + fill, status := FilledStatus(order, fill))]
  {
    var order := m.views[v].orders[key.cid];
    OrdersLookup(m.views, v, key.cid);
    OneOrder(m.views, m'.views, v, key.cid, order.(filled := order.filled + fill, status := FilledStatus(order, fill)));
  }

  lemma ReservedIntents(m: Memory, v: nat, key: FillKey, fill: int, m': Memory, order: SourceOrder, owed: int)
    requires v < |m.views| && key.cid in m.views[v].orders && m' == Reserved(m, v, key, fill)
    requires order == m.views[v].orders[key.cid]
    requires owed == Obligation(m.ledger, RouteOf(order), HedgePlan.Signed(order.side, fill))
    requires forall i :: 0 <= i < |m.views| && i != v ==> key !in m.views[i].intents
    ensures Intents(m'.views) == if owed == 0 then Intents(m.views) else Intents(m.views)[key := NewIntent(order, key, fill, owed)]
  {
    if owed == 0 {
      SameIntents(m.views, m'.views);
    } else {
      OneIntent(m.views, m'.views, v, key, NewIntent(order, key, fill, owed));
    }
  }

  lemma ReservedSeen(m: Memory, v: nat, key: FillKey, fill: int, m': Memory)
    requires v < |m.views| && key.cid in m.views[v].orders && m' == Reserved(m, v, key, fill)
    ensures Seen(m'.views) == Seen(m.views) + {key}
  {
    OneSeen(m.views, m'.views, v, key);
  }

  lemma ReserveIs(b: Books, key: FillKey, fill: int, status: SourceStatus, order: SourceOrder, owed: int, b': Books)
    requires key.cid in b.records && order == b.records[key.cid]
    requires owed == Obligation(b.ledger, RouteOf(order), HedgePlan.Signed(order.side, fill))
    requires b'.records == b.records[key.cid := order.(filled := order.filled + fill, status := status)]
    requires b'.seen == b.seen + {key}
    requires b'.intents == if owed == 0 then b.intents else b.intents[key := NewIntent(order, key, fill, owed)]
    requires b'.ledger == Allocate(b.ledger, key, RouteOf(order), HedgePlan.Signed(order.side, fill))
    ensures b' == Reserve(b, key, fill, status)
  {
  }

  /** The reservation of the memory image is the reservation of its books. */
  lemma ReservedIsReserve(m: Memory, v: nat, key: FillKey, fill: int)
    requires v < |m.views| && key.cid in m.views[v].orders
    requires forall i :: 0 <= i < |m.views| && i != v ==> key.cid !in m.views[i].orders && key !in m.views[i].intents
    ensures key.cid in BooksOf(m).records
    ensures BooksOf(Reserved(m, v, key, fill)) == Reserve(BooksOf(m), key, fill, FilledStatus(m.views[v].orders[key.cid], fill))
  {
    var m', order := Reserved(m, v, key, fill), m.views[v].orders[key.cid];
    var owed := Obligation(m.ledger, RouteOf(order), HedgePlan.Signed(order.side, fill));
    ReservedRecords(m, v, key, fill, m');
    ReservedSeen(m, v, key, fill, m');
    ReservedIntents(m, v, key, fill, m', order, owed);
    ReserveIs(BooksOf(m), key, fill, FilledStatus(order, fill), order, owed, BooksOf(m'));
  }

  lemma ReserveKeepsBooks(m: Memory, v: nat, key: FillKey, fill: int)
    requires v < |m.views| && BooksValid(BooksOf(m)) && key.cid in m.views[v].orders && fill > 0
    requires forall i :: 0 <= i < |m.views| && i != v ==> key.cid !in m.views[i].orders && key !in m.views[i].intents
    requires forall i :: 0 <= i < |m.views| ==> key !in m.views[i].seen
    ensures BooksValid(BooksOf(Reserved(m, v, key, fill)))
  {
    ReservedIsReserve(m, v, key, fill);
    SeenOnly(m.views, key);
    ReserveKeepsValid(BooksOf(m), key, fill, FilledStatus(m.views[v].orders[key.cid], fill));
  }

  // ---------------------------------------------------------------- all operations

  lemma IntentsOfOneView(views: seq<ViewState>, v: nat, key: FillKey, i: nat)
    requires IdentitiesValid(views) && v < |views| && i < |views| && i != v && key in views[v].seen
    ensures key !in views[i].intents
  {
  }

  lemma OrdersOfOneView(views: seq<ViewState>, v: nat, cid: int, i: nat)
    requires IdentitiesValid(views) && v < |views| && i < |views| && i != v && cid in views[v].orders
    ensures cid !in views[i].orders
  {
  }

  lemma FreezesKeepBooks(m: Memory, m': Memory)
    requires |m'.views| == |m.views| && m'.ledger == m.ledger && BooksValid(BooksOf(m))
    requires forall i :: 0 <= i < |m.views| ==>
      m'.views[i].orders == m.views[i].orders && m'.views[i].seen == m.views[i].seen && m'.views[i].intents == m.views[i].intents
    ensures BooksValid(BooksOf(m'))
  {
    BooksIgnoreFreezes(m, m');
  }

  ghost predicate Sound(m: Memory) {
    IdentitiesValid(m.views) && BooksValid(BooksOf(m))
  }

  lemma HedgeLedgerKept(o: Owner, v: nat, key: FillKey, change: HedgeChange)
    requires Sound(o.memory) && v < |o.memory.views| && ChangeHedge(o, v, key, change).Change?
    ensures BooksValid(BooksOf(ChangeHedge(o, v, key, change).memory))
  {
    var view := o.memory.views[v];
    var j := IntentChanged(view, view.intents[key], change).value;
    IntentChangedIsSame(view, view.intents[key], change, j);
    forall i: nat | i < |o.memory.views| && i != v ensures key !in o.memory.views[i].intents {
      IntentsOfOneView(o.memory.views, v, key, i);
    }
    ObligationBooks(o.memory, v, key, j, HedgeChanged(view, key, j, change));
    IntentChangeKeepsBooks(BooksOf(o.memory), key, j);
  }

  lemma StatusLedgerKept(o: Owner, v: nat, cid: int, status: SourceStatus)
    requires Sound(o.memory) && v < |o.memory.views| && UpdateSourceStatus(o, v, cid, status).Change?
    ensures BooksValid(BooksOf(UpdateSourceStatus(o, v, cid, status).memory))
  {
    forall i: nat | i < |o.memory.views| && i != v ensures cid !in o.memory.views[i].orders {
      OrdersOfOneView(o.memory.views, v, cid, i);
    }
    StatusKeepsBooks(o.memory, v, cid, status);
  }

  lemma DoubtLedgerKept(o: Owner, v: nat, cid: int, reason: Reason)
    requires Sound(o.memory) && v < |o.memory.views|
    ensures BooksValid(BooksOf(DoubtSource(o, v, cid, reason).memory))
  {
    var view := o.memory.views[v];
    if cid in view.orders {
      StatusLedgerKept(o, v, cid, Unknown);
      SameBooksInView(o.memory, v, StatusUpdated(view, cid, Unknown), Doubted(view, cid, reason));
    } else {
      HaltKeepsBooks(o.memory, v, Doubted(view, cid, reason));
    }
  }

  lemma ConfirmLedgerKept(o: Owner, v: nat, cid: int)
    requires Sound(o.memory) && v < |o.memory.views|
    ensures BooksValid(BooksOf(WithView(o.memory, v, Confirmed(o.memory.views[v], cid))))
  {
    HaltKeepsBooks(o.memory, v, Confirmed(o.memory.views[v], cid));
  }

  lemma HaltKeepsBooks(m: Memory, v: nat, view: ViewState)
    requires v < |m.views| && BooksValid(BooksOf(m))
    requires view.orders == m.views[v].orders && view.seen == m.views[v].seen && view.intents == m.views[v].intents
    ensures BooksValid(BooksOf(WithView(m, v, view)))
  {
    FreezesKeepBooks(m, WithView(m, v, view));
  }

  lemma SameBooksInView(m: Memory, v: nat, view: ViewState, view': ViewState)
    requires v < |m.views| && BooksValid(BooksOf(WithView(m, v, view)))
    requires view'.orders == view.orders && view'.seen == view.seen && view'.intents == view.intents
    ensures BooksValid(BooksOf(WithView(m, v, view')))
  {
    FreezesKeepBooks(WithView(m, v, view), WithView(m, v, view'));
  }

  // The reserved fill belongs to its own view alone.
  lemma ReservedElsewhere(views: seq<ViewState>, after: seq<ViewState>, v: nat, key: FillKey, i: nat)
    requires IdentitiesValid(after) && v < |after| == |views| && i < |views| && i != v && after[i] == views[i]
    requires key in after[v].seen && key.cid in after[v].orders
    ensures key.cid !in views[i].orders && key !in views[i].intents && key !in views[i].seen
  {
    OrdersOfOneView(after, v, key.cid, i);
    IntentsOfOneView(after, v, key, i);
  }

  lemma FrozenReserveKept(m: Memory, v: nat, key: FillKey, fill: int)
    requires BooksValid(BooksOf(m)) && v < |m.views| && key.cid in m.views[v].orders && fill > 0
    requires key !in m.views[v].seen && IdentitiesValid(Reserved(m, v, key, fill).views)
    ensures BooksValid(BooksOf(Reserved(m, v, key, fill)))
  {
    var after := Reserved(m, v, key, fill);
    forall i: nat | i < |m.views| && i != v
      ensures key.cid !in m.views[i].orders && key !in m.views[i].intents && key !in m.views[i].seen
    {
      ReservedElsewhere(m.views, after.views, v, key, i);
    }
    ReserveKeepsBooks(m, v, key, fill);
  }

  lemma ReserveLedgerKept(o: Owner, v: nat, key: FillKey, side: HedgePlan.Side, fill: int)
    requires BooksValid(BooksOf(o.memory)) && v < |o.memory.views| && ReserveSourceFill(o, v, key, side, fill).Change?
    requires IdentitiesValid(ReserveSourceFill(o, v, key, side, fill).memory.views)
    ensures BooksValid(BooksOf(ReserveSourceFill(o, v, key, side, fill).memory))
  {
    var m := o.memory.(cycle := o.memory.cycle || OpensCycle(o),
                       views := SetFreezes(o.memory.views, FillReason(key.cid, key.trade), None));
    FreezesKeepBooks(o.memory, m);
    FrozenReserveKept(m, v, key, fill);
  }

  lemma BeginLedgerKept(cfg: Config, o: Owner, v: nat, order: SourceOrder, hold: Option<Reason>)
    requires BooksValid(BooksOf(o.memory)) && v < |o.memory.views| && BeginSource(cfg, o, v, order, hold).Change?
    requires IdentitiesValid(BeginSource(cfg, o, v, order, hold).memory.views) && order.cid !in o.memory.views[v].orders
    ensures BooksValid(BooksOf(BeginSource(cfg, o, v, order, hold).memory))
  {
    var after := BeginSource(cfg, o, v, order, hold).memory;
    forall i: nat | i < |o.memory.views| ensures order.cid !in o.memory.views[i].orders {
      if i != v {
        OrdersOfOneView(after.views, v, order.cid, i);
      }
    }
    BeginKeepsBooks(o.memory, v, order, after.views[v]);
  }

  lemma FreezeLedgerKept(cfg: Config, o: Owner, reason: Reason, which: Option<nat>)
    requires BooksValid(BooksOf(o.memory))
    ensures Freeze(o, reason, which).Change? ==> BooksValid(BooksOf(Freeze(o, reason, which).memory))
    ensures Clear(cfg, o).Change? ==> BooksValid(BooksOf(Clear(cfg, o).memory))
  {
    if Freeze(o, reason, which).Change? {
      FreezesKeepBooks(o.memory, Freeze(o, reason, which).memory);
    }
    if Clear(cfg, o).Change? {
      FreezesKeepBooks(o.memory, Clear(cfg, o).memory);
    }
  }

  /** From a sound image no operation reaches a ledger the ordered check refuses: whenever the
      identities of the changed image are sound, its allocations pass.  (A new order must be new.) */
  lemma LedgerIsNeverRefused(cfg: Config, o: Owner, op: Operation, m: Memory)
    requires Sound(o.memory) && Names(o.memory, op) && Try(cfg, o, op) == Change(m) && IdentitiesValid(m.views)
    requires op.DoBegin? ==> op.order.cid !in o.memory.views[op.v].orders
    ensures Sound(m)
  {
    match op
    case DoReserve(v, key, side, fill) => ReserveLedgerKept(o, v, key, side, fill);
    case DoHedge(v, key, change) => HedgeLedgerKept(o, v, key, change);
    case DoStatus(v, cid, status) => StatusLedgerKept(o, v, cid, status);
    case DoConfirm(v, cid) => ConfirmLedgerKept(o, v, cid);
    case DoDoubt(v, cid, doubt) => DoubtLedgerKept(o, v, cid, doubt);
    case DoBegin(v, order, hold) => BeginLedgerKept(cfg, o, v, order, hold);
    case DoFreeze(reason, which) => FreezeLedgerKept(cfg, o, reason, which);
    case DoClear => FreezeLedgerKept(cfg, o, Named(EMPTY), None);
  }
}
