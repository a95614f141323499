/** Which images may be published: whose every order, fill, trade and hedge order is one thing. */
module MakerIdentities {
  import opened Rounding
  import opened Records
  import opened AllocationLedger
  import opened MakerSpec
  import opened MakerSafety
  import HedgePlan

  /** Where something is recorded: a view and its key. */
  predicate OrderAt(views: seq<ViewState>, i: int, cid: int) {
    0 <= i < |views| && cid in views[i].orders
  }

  predicate FillAt(views: seq<ViewState>, i: int, key: FillKey) {
    0 <= i < |views| && key in views[i].seen
  }

  predicate IntentAt(views: seq<ViewState>, i: int, key: FillKey) {
    0 <= i < |views| && key in views[i].intents
  }

  predicate HedgeFillAt(views: seq<ViewState>, i: int, fill: HedgeFill) {
    0 <= i < |views| && fill in views[i].seenHedge
  }

  /** The obligation was sent under this order ID. */
  predicate SentAs(i: HedgeIntent, order: int) {
    i.orderId == Some(order) || order in i.orderIds
  }

  predicate SentAt(views: seq<ViewState>, i: int, key: FillKey, order: int) {
    IntentAt(views, i, key) && SentAs(views[i].intents[key], order)
  }

  ghost predicate OrdersAreOne(views: seq<ViewState>) {
    && (forall i, cid :: OrderAt(views, i, cid) ==>
          && cid != 0 && views[i].orders[cid].cid == cid
          && (i == 0 ==> views[i].orders[cid].side == HedgePlan.Buy) && (i == 1 ==> views[i].orders[cid].side == HedgePlan.Sell))
    && (forall i, j, cid :: OrderAt(views, i, cid) && OrderAt(views, j, cid) ==> i == j)
    && (forall i :: 0 <= i < |views| && views[i].active.Some? ==> OrderAt(views, i, views[i].active.value))
  }

  /** One trade of one source account, in two places. */
  predicate SameTrade(views: seq<ViewState>, i: int, j: int, key: FillKey, other: FillKey) {
    && FillAt(views, i, key) && FillAt(views, j, other) && OrderAt(views, i, key.cid) && OrderAt(views, j, other.cid)
    && key.trade == other.trade
    && views[i].orders[key.cid].sourceAccount == views[j].orders[other.cid].sourceAccount
  }

  ghost predicate FillsAreOne(views: seq<ViewState>) {
    && (forall i, key :: FillAt(views, i, key) ==> OrderAt(views, i, key.cid) && key.venue != 0 && key.trade != 0)
    && (forall i, j, key :: FillAt(views, i, key) && FillAt(views, j, key) ==> i == j)
    && (forall i, j, key, other :: SameTrade(views, i, j, key, other) ==> key == other)
  }

  ghost predicate ObligationsAreOne(views: seq<ViewState>) {
    && (forall i, key :: IntentAt(views, i, key) ==>
          && FillAt(views, i, key) && OrderAt(views, i, key.cid) && views[i].intents[key].key == key
          && views[i].intents[key].sourceSide == views[i].orders[key.cid].side)
    && (forall i, j, key, other, order :: SentAt(views, i, key, order) && SentAt(views, j, other, order) ==> key == other)
    && (forall i, j, key, order :: SentAt(views, i, key, order) ==> !OrderAt(views, j, order))
  }

  /** One trade of one hedge account, in two places. */
  predicate SameHedgeTrade(views: seq<ViewState>, i: int, j: int, fill: HedgeFill, other: HedgeFill, key: FillKey, peer: FillKey) {
    && HedgeFillAt(views, i, fill) && HedgeFillAt(views, j, other) && fill.1 == other.1
    && SentAt(views, i, key, fill.0) && SentAt(views, j, peer, other.0)
    && HedgeAccount(views[i], key.cid) == HedgeAccount(views[j], peer.cid)
  }

  function HedgeAccount(view: ViewState, cid: int): Option<int> {
    if cid in view.orders then view.orders[cid].hedgeAccount else None
  }

  ghost predicate HedgeFillsAreOne(views: seq<ViewState>) {
    && (forall i, fill :: HedgeFillAt(views, i, fill) ==>
          fill.1 != 0 && exists key :: SentAt(views, i, key, fill.0))
    && (forall i, j, fill :: HedgeFillAt(views, i, fill) && HedgeFillAt(views, j, fill) ==> i == j)
    && (forall i, j, fill, other, key, peer :: SameHedgeTrade(views, i, j, fill, other, key, peer) ==> fill == other)
  }

  lemma OrdersIff(views: seq<ViewState>)
    ensures OrdersValid(views) <==> OrdersAreOne(views)
  {
    if OrdersValid(views) {
      forall i, j, cid | OrderAt(views, i, cid) && OrderAt(views, j, cid) ensures i == j {
      }
    }
    if OrdersAreOne(views) {
      forall i, cid | 0 <= i < |views| && cid in views[i].orders
        ensures cid != EMPTY && views[i].orders[cid].cid == cid && ViewSide(i, views[i].orders[cid].side)
      {
        assert OrderAt(views, i, cid);
      }
      forall i, j, cid | 0 <= i < j < |views| && cid in views[i].orders ensures cid !in views[j].orders {
        assert OrderAt(views, i, cid) && !OrderAt(views, j, cid);
      }
    }
  }

  lemma FillsIff(views: seq<ViewState>)
    ensures FillsValid(views) <==> FillsAreOne(views)
  {
    if FillsValid(views) {
      forall i, j, key | FillAt(views, i, key) && FillAt(views, j, key) ensures i == j {
      }
    }
    if FillsAreOne(views) {
      forall i, key | 0 <= i < |views| && key in views[i].seen
        ensures key.cid in views[i].orders && key.venue != EMPTY && key.trade != EMPTY
      {
        assert FillAt(views, i, key);
        assert OrderAt(views, i, key.cid);
      }
      forall i, j, key | 0 <= i < j < |views| && key in views[i].seen ensures key !in views[j].seen {
        assert FillAt(views, i, key) && !FillAt(views, j, key);
      }
      TradesOnce(views);
    }
  }

  lemma TradesOnce(views: seq<ViewState>)
    requires FillsAreOne(views)
    ensures forall i, j, key, other ::
      (0 <= i < |views| && 0 <= j < |views| && key in views[i].seen && other in views[j].seen && key != other
       && AccountOf(views[i], key.cid) == AccountOf(views[j], other.cid)) ==> key.trade != other.trade
  {
    forall i, j, key, other |
      0 <= i < |views| && 0 <= j < |views| && key in views[i].seen && other in views[j].seen && key != other
      && AccountOf(views[i], key.cid) == AccountOf(views[j], other.cid)
      ensures key.trade != other.trade
    {
      assert FillAt(views, i, key) && FillAt(views, j, other);
      assert OrderAt(views, i, key.cid) && OrderAt(views, j, other.cid);
      assert key.trade == other.trade ==> SameTrade(views, i, j, key, other);
    }
  }

  lemma SentIff(i: HedgeIntent, order: int)
    ensures order in OrderIds(i) <==> SentAs(i, order)
  {
  }

  lemma ObligationsIff(views: seq<ViewState>)
    requires FillsAreOne(views)
    ensures IntentsValid(views) <==> ObligationsAreOne(views)
  {
    forall i: HedgeIntent, order ensures order in OrderIds(i) <==> SentAs(i, order) {
      SentIff(i, order);
    }
    if IntentsValid(views) {
      ObligationsHold(views);
    }
    if ObligationsAreOne(views) {
      ObligationsPass(views);
    }
  }

  lemma ObligationsHold(views: seq<ViewState>)
    requires IntentsValid(views) && forall i: HedgeIntent, order :: order in OrderIds(i) <==> SentAs(i, order)
    ensures ObligationsAreOne(views)
  {
    forall i, j, key, other, order | SentAt(views, i, key, order) && SentAt(views, j, other, order) ensures key == other
    {
      assert order in OrderIds(views[i].intents[key]) && order in OrderIds(views[j].intents[other]);
    }
    forall i, j, key, order | SentAt(views, i, key, order) ensures !OrderAt(views, j, order) {
      assert order in OrderIds(views[i].intents[key]);
    }
  }

  lemma ObligationsPass(views: seq<ViewState>)
    requires ObligationsAreOne(views) && forall i: HedgeIntent, order :: order in OrderIds(i) <==> SentAs(i, order)
    ensures IntentsValid(views)
  {
    forall i, key | 0 <= i < |views| && key in views[i].intents
      ensures views[i].intents[key].key == key && key in views[i].seen && key.cid in views[i].orders
      ensures views[i].intents[key].sourceSide == views[i].orders[key.cid].side
    {
      assert IntentAt(views, i, key);
      assert FillAt(views, i, key) && OrderAt(views, i, key.cid);
    }
    forall i, j, key, other |
      0 <= i < |views| && 0 <= j < |views| && key in views[i].intents && other in views[j].intents && key != other
      ensures OrderIds(views[i].intents[key]) !! OrderIds(views[j].intents[other])
    {
      assert IntentAt(views, i, key) && IntentAt(views, j, other);
      forall order | order in OrderIds(views[i].intents[key]) ensures order !in OrderIds(views[j].intents[other]) {
        assert SentAt(views, i, key, order);
        assert order in OrderIds(views[j].intents[other]) ==> SentAt(views, j, other, order);
      }
    }
    forall i, j, key | 0 <= i < |views| && 0 <= j < |views| && key in views[i].intents
      ensures OrderIds(views[i].intents[key]) !! views[j].orders.Keys
    {
      assert IntentAt(views, i, key);
      forall order | order in OrderIds(views[i].intents[key]) ensures order !in views[j].orders {
        assert SentAt(views, i, key, order);
        assert !OrderAt(views, j, order);
      }
    }
  }

  lemma HedgeFillsIff(views: seq<ViewState>)
    ensures HedgeFillsValid(views) <==> HedgeFillsAreOne(views)
  {
    forall i: HedgeIntent, order ensures order in OrderIds(i) <==> SentAs(i, order) {
      SentIff(i, order);
    }
    if HedgeFillsValid(views) {
      HedgeFillsHold(views);
    }
    if HedgeFillsAreOne(views) {
      HedgeFillsPass(views);
    }
  }

  lemma HedgeFillsHold(views: seq<ViewState>)
    requires HedgeFillsValid(views) && forall i: HedgeIntent, order :: order in OrderIds(i) <==> SentAs(i, order)
    ensures HedgeFillsAreOne(views)
  {
    forall i, fill | HedgeFillAt(views, i, fill) ensures fill.1 != 0 && exists key :: SentAt(views, i, key, fill.0) {
      assert HasOrder(views[i], fill.0);
      var key :| key in views[i].intents && fill.0 in OrderIds(views[i].intents[key]);
      assert SentAt(views, i, key, fill.0);
    }
    forall i, j, fill, other, key, peer | SameHedgeTrade(views, i, j, fill, other, key, peer) ensures fill == other {
      assert HedgeTradesDistinct(views[i], views[j]);
      assert fill.0 in OrderIds(views[i].intents[key]) && other.0 in OrderIds(views[j].intents[peer]);
    }
  }

  lemma HedgeFillsPass(views: seq<ViewState>)
    requires HedgeFillsAreOne(views) && forall i: HedgeIntent, order :: order in OrderIds(i) <==> SentAs(i, order)
    ensures HedgeFillsValid(views)
  {
    forall i, fill | 0 <= i < |views| && fill in views[i].seenHedge ensures fill.1 != EMPTY && HasOrder(views[i], fill.0) {
      assert HedgeFillAt(views, i, fill);
      var key :| SentAt(views, i, key, fill.0);
      assert fill.0 in OrderIds(views[i].intents[key]);
    }
    forall i, j, fill | 0 <= i < j < |views| && fill in views[i].seenHedge ensures fill !in views[j].seenHedge {
      assert HedgeFillAt(views, i, fill) && !HedgeFillAt(views, j, fill);
    }
    forall i, j | 0 <= i < |views| && 0 <= j < |views| ensures HedgeTradesDistinct(views[i], views[j]) {
      TradesDistinct(views, i, j);
    }
  }

  lemma TradesDistinct(views: seq<ViewState>, i: int, j: int)
    requires HedgeFillsAreOne(views) && forall i: HedgeIntent, order :: order in OrderIds(i) <==> SentAs(i, order)
    requires 0 <= i < |views| && 0 <= j < |views|
    ensures HedgeTradesDistinct(views[i], views[j])
  {
    forall fill, other, key, peer |
      fill in views[i].seenHedge && other in views[j].seenHedge && fill != other && fill.1 == other.1
      && key in views[i].intents && fill.0 in OrderIds(views[i].intents[key])
      && peer in views[j].intents && other.0 in OrderIds(views[j].intents[peer])
      ensures HedgeAccountOf(views[i], key.cid) != HedgeAccountOf(views[j], peer.cid)
    {
      assert SentAt(views, i, key, fill.0) && SentAt(views, j, peer, other.0);
      assert !SameHedgeTrade(views, i, j, fill, other, key, peer);
    }
  }

  ghost predicate EachIsOne(views: seq<ViewState>) {
    OrdersAreOne(views) && FillsAreOne(views) && ObligationsAreOne(views) && HedgeFillsAreOne(views)
  }

  /** An image may be published exactly when it has the owner's views, a permission only over one common
      freeze, every order, fill, obligation and trade once, and a ledger that its facts bear out. */
  lemma ImageAcceptedIff(cfg: Config, m: Memory)
    ensures MemoryValid(cfg, m) <==>
      && |m.views| == (if cfg.shared then 3 else 2)
      && (m.cycle ==> m.views[0].freeze.Some? && forall i :: 0 < i < |m.views| ==> m.views[i].freeze == m.views[0].freeze)
      && EachIsOne(m.views)
      && LedgerValid(Orders(m.views), Seen(m.views), Intents(m.views), m.ledger)
  {
    OrdersIff(m.views);
    FillsIff(m.views);
    if FillsAreOne(m.views) {
      ObligationsIff(m.views);
    }
    HedgeFillsIff(m.views);
    if |m.views| == ViewCount(cfg) {
      CommonIff(m.views);
    }
  }

  lemma CommonIff(views: seq<ViewState>)
    requires |views| > 0
    ensures CommonFreeze(views) <==>
      views[0].freeze.Some? && forall i :: 0 < i < |views| ==> views[i].freeze == views[0].freeze
  {
  }

  /** In every run from a fresh file, with any write outcomes, each order, fill, obligation, hedge order
      and trade is one thing. */
  lemma EveryRunIdentifies(cfg: Config, acts: seq<Act>)
    ensures EachIsOne(Run(cfg, Start(cfg), acts).memory.views)
  {
    EveryRunSettles(cfg, acts);
    ImageAcceptedIff(cfg, Run(cfg, Start(cfg), acts).memory);
  }
}
