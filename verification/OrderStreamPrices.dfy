/** The price of an order: which is current, which are known, and what is published of them. */
module OrderStreamPrices {
  import opened Rounding
  import opened OrderStream
  import opened OrderStreamSafety
  import opened OrderStreamRuns
  import opened OrderStreamRaises

  // ---------------------------------------------------------------- published prices

  /** The prices published for an order, in order. */
  function Updates(log: seq<Emission>, c: int): seq<int> {
    if log == [] then []
    else
      var last := log[|log| - 1];
      Updates(log[..|log| - 1], c) + if last.Updated? && last.cid == c then [last.price] else []
  }

  lemma {:induction false} UpdatesAppend(log: seq<Emission>, out: seq<Emission>, c: int)
    ensures Updates(log + out, c) == Updates(log, c) + Updates(out, c)
    decreases |out|
  {
    if out == [] {
      assert log + out == log;
    } else {
      UpdatesAppend(log, out[..|out| - 1], c);
      assert (log + out)[..|log + out| - 1] == log + out[..|out| - 1];
    }
  }

  lemma {:induction false} UpdatesOfOthers(out: seq<Emission>, c: int, d: int)
    requires OutFor(out, c) && d != c
    ensures Updates(out, d) == []
  {
    if out != [] {
      UpdatesOfOthers(out[..|out| - 1], c, d);
    }
  }

  // ---------------------------------------------------------------- what one order's price can do

  datatype Priced = Priced(live: Live, updates: seq<int>)

  predicate SamePrice(a: Priced, b: Priced) {
    b.updates == a.updates && b.live.currentPrice == a.live.currentPrice && b.live.knownPrices == a.live.knownPrices
  }

  /** Nothing about the price changes. */
  predicate Kept(a: Priced, b: Priced) {
    SamePrice(a, b) && b.live.pendingModify == a.live.pendingModify
  }

  /** The asked price is published once and becomes the current one; the old ones stay known. */
  predicate Acknowledged(a: Priced, b: Priced, price: int) {
    && a.live.pendingModify == Some(price) && b.live.pendingModify == None
    && b.updates == a.updates + [price]
    && b.live.currentPrice == price && b.live.knownPrices == a.live.knownPrices + {price}
  }

  /** The terminal ends an asked change without any acknowledgment. */
  predicate Dropped(a: Priced, b: Priced) {
    a.live.pendingModify.Some? && b.live.pendingModify == None && b.live.terminalEmitted && SamePrice(a, b)
  }

  predicate Follows(a: Priced, b: Priced, named: set<int>) {
    && b.live.cid == a.live.cid && (a.live.terminalEmitted ==> b.live.terminalEmitted)
    && (Kept(a, b) || Dropped(a, b)
        || (a.live.pendingModify.Some? && a.live.pendingModify.value in named
            && Acknowledged(a, b, a.live.pendingModify.value)))
  }

  /** A message that names the asked price acknowledges it. */
  predicate Answers(a: Priced, b: Priced, price: int, named: set<int>) {
    && Follows(a, b, named + {price})
    && (a.live.pendingModify == Some(price) ==> Acknowledged(a, b, price))
  }

  lemma FollowsOn(a: Priced, b: Priced, c: Priced, first: set<int>, second: set<int>)
    requires Follows(a, b, first) && Follows(b, c, second)
    ensures Follows(a, c, first + second)
  {
  }

  lemma AnswersOn(a: Priced, b: Priced, c: Priced, price: int, first: set<int>, second: set<int>)
    requires Answers(a, b, price, first) && Follows(b, c, second)
    ensures Answers(a, c, price, first + second)
  {
    FollowsOn(a, b, c, first + {price}, second);
    assert first + {price} + second == first + second + {price};
  }

  function Of1(x: Local): Priced {
    Priced(x.live, Updates(x.out, x.live.cid))
  }

  // ---------------------------------------------------------------- the shared steps

  lemma AcceptPrices(x: Local, venue: int, y: Local)
    requires Accept(x, venue) == Some(y) && OutFor(x.out, x.live.cid)
    ensures Kept(Of1(x), Of1(y)) && Follows(Of1(x), Of1(y), {}) && OutFor(y.out, y.live.cid)
  {
    AcceptIs(x, venue, y);
    Unpriced(x.out, x.live.cid, Accepted(x.live.cid));
  }

  lemma AcceptIs(x: Local, venue: int, y: Local)
    requires Accept(x, venue) == Some(y)
    ensures y.out == if x.live.accepted then x.out else x.out + [Accepted(x.live.cid)]
    ensures y.live == x.live.(venue := Some(venue), accepted := true, unknown := x.live.unknown - {Submit})
  {
  }

  lemma {:induction false} PublishedPrice(out: seq<Emission>, c: int, price: int)
    requires OutFor(out, c)
    ensures Updates(out + [Updated(c, price)], c) == Updates(out, c) + [price]
    ensures OutFor(out + [Updated(c, price)], c)
  {
    assert (out + [Updated(c, price)])[..|out|] == out;
  }

  lemma AckIs(x: Local, price: int, y: Local)
    requires AckPendingPrice(x, price) == Some(y) && x.live.pendingModify == Some(price)
    ensures y.out == x.out + [Updated(x.live.cid, price)]
    ensures y.live == x.live.(currentPrice := price, knownPrices := x.live.knownPrices + {price}, pendingModify := None,
                              unknown := x.live.unknown - {Modify})
  {
  }

  lemma AckPrices(x: Local, price: int, y: Local)
    requires AckPendingPrice(x, price) == Some(y) && OutFor(x.out, x.live.cid)
    ensures Answers(Of1(x), Of1(y), price, {}) && OutFor(y.out, y.live.cid)
  {
    if x.live.pendingModify == Some(price) {
      PublishedPrice(x.out, x.live.cid, price);
      AckIs(x, price, y);
    } else {
      assert y == x;
    }
  }

  lemma AcceptAndAckPrices(x: Local, venue: int, price: int, y: Local)
    requires AcceptAndAck(x, venue, price) == Some(y) && OutFor(x.out, x.live.cid)
    ensures Answers(Of1(x), Of1(y), price, {}) && OutFor(y.out, y.live.cid)
  {
    var accepted := Accept(x, venue).value;
    AcceptPrices(x, venue, accepted);
    AckPrices(accepted, price, y);
  }

  lemma FinishPrices(x: Local, y: Local)
    requires FinishTerminal(x) == Some(y) && OutFor(x.out, x.live.cid)
    ensures Follows(Of1(x), Of1(y), {}) && OutFor(y.out, y.live.cid)
  {
    Unpriced(x.out, x.live.cid, CanceledOrder(x.live.cid));
  }

  lemma RecordIs(x: Local, t: Trade, next: int)
    ensures RecordFill(x, t, next).out == x.out + [Filled(x.live.cid, t.id, Abs(t.quantity))]
    ensures RecordFill(x, t, next).live == x.live.(filled := next, unknown := RecordFill(x, t, next).live.unknown,
                                                   pendingCancel := RecordFill(x, t, next).live.pendingCancel)
  {
  }

  lemma {:induction false} Unpriced(out: seq<Emission>, c: int, e: Emission)
    requires OutFor(out, c) && e.cid == c && !e.Updated?
    ensures Updates(out + [e], c) == Updates(out, c) && OutFor(out + [e], c)
  {
    assert (out + [e])[..|out|] == out;
  }

  lemma RecordPrices(x: Local, t: Trade, next: int)
    requires OutFor(x.out, x.live.cid)
    ensures Follows(Of1(x), Of1(RecordFill(x, t, next)), {}) && Kept(Of1(x), Of1(RecordFill(x, t, next)))
    ensures OutFor(RecordFill(x, t, next).out, x.live.cid)
  {
    RecordIs(x, t, next);
    Unpriced(x.out, x.live.cid, Filled(x.live.cid, t.id, Abs(t.quantity)));
  }

  lemma FillPrices(x: Local, t: Trade, y: Local)
    requires ApplyFill(x, t) == Some(y) && OutFor(x.out, x.live.cid)
    ensures Answers(Of1(x), Of1(y), t.orderPrice, {}) && OutFor(y.out, y.live.cid)
  {
    var next := x.live.filled + Abs(t.quantity);
    var ready := AcceptAndAck(x, t.venue, t.orderPrice).value;
    AcceptAndAckPrices(x, t.venue, t.orderPrice, ready);
    RecordPrices(ready, t, next);
    AnswersOn(Of1(x), Of1(ready), Of1(RecordFill(ready, t, next)), t.orderPrice, {}, {});
    FinishPrices(RecordFill(ready, t, next), y);
    AnswersOn(Of1(x), Of1(RecordFill(ready, t, next)), Of1(y), t.orderPrice, {}, {});
  }

  function OrderPrices(ts: seq<Trade>): set<int> {
    set t <- ts :: t.orderPrice
  }

  lemma {:induction false} ReleasePrices(x: Local, staged: seq<Trade>, y: Local)
    requires Release(x, staged) == Some(y) && OutFor(x.out, x.live.cid)
    ensures Follows(Of1(x), Of1(y), OrderPrices(staged)) && OutFor(y.out, y.live.cid)
    decreases |staged|
  {
    if staged != [] {
      var first := ApplyFill(x, staged[0]).value;
      FillPrices(x, staged[0], first);
      ReleasePrices(first, staged[1..], y);
      FollowsOn(Of1(x), Of1(first), Of1(y), {staged[0].orderPrice}, OrderPrices(staged[1..]));
      assert staged[0] in staged;
      assert {staged[0].orderPrice} + OrderPrices(staged[1..]) == OrderPrices(staged);
    }
  }

  lemma {:induction false} TakenPrices(x: Local, op: OrderOp, state: OrderState, ready: Local, taken: Local)
    requires AcceptAndAck(x, state.venue, state.price) == Some(ready) && OutFor(x.out, x.live.cid)
    requires taken == if op.Oc? then TakeTerminal(ready, state) else ready
    ensures Answers(Of1(x), Of1(taken), state.price, {}) && OutFor(taken.out, taken.live.cid)
  {
    AcceptAndAckPrices(x, state.venue, state.price, ready);
    assert Kept(Of1(ready), Of1(taken));
    AnswersOn(Of1(x), Of1(ready), Of1(taken), state.price, {}, {});
  }

  lemma {:induction false} UnfinishedPrices(x: Local, op: OrderOp, state: OrderState, staged: seq<Trade>, y: Local)
    requires Unfinished(x, op, state, staged) == Some(y) && OutFor(x.out, x.live.cid)
    ensures Answers(Of1(x), Of1(y), state.price, OrderPrices(staged)) && OutFor(y.out, y.live.cid)
  {
    var ready := AcceptAndAck(x, state.venue, state.price).value;
    var taken := if op.Oc? then TakeTerminal(ready, state) else ready;
    TakenPrices(x, op, state, ready, taken);
    ReleasePrices(taken, staged, y);
    AnswersOn(Of1(x), Of1(taken), Of1(y), state.price, {}, OrderPrices(staged));
    assert {} + OrderPrices(staged) == OrderPrices(staged);
  }

  lemma {:induction false} AdoptPrices(x: Local, op: OrderOp, state: OrderState, staged: seq<Trade>, y: Local)
    requires Adopt(x, op, state, staged) == Some(y) && OutFor(x.out, x.live.cid)
    ensures Answers(Of1(x), Of1(y), state.price, OrderPrices(staged)) && OutFor(y.out, y.live.cid)
  {
    var released := Unfinished(x, op, state, staged).value;
    UnfinishedPrices(x, op, state, staged, released);
    if op.Oc? {
      FinishPrices(released, y);
      AnswersOn(Of1(x), Of1(released), Of1(y), state.price, OrderPrices(staged), {});
      assert OrderPrices(staged) + {} == OrderPrices(staged);
    }
  }

  // ---------------------------------------------------------------- one event

  function PricedOf(s: Stream, c: int): Priced
    requires c in s.orders
  {
    Priced(s.orders[c], Updates(s.log, c))
  }

  /** Only order `c` is worked on. */
  ghost predicate Concerns(s: Stream, s': Stream, c: int) {
    && s'.orders.Keys == s.orders.Keys && c in s.orders
    && forall d :: d != c ==>
         Updates(s'.log, d) == Updates(s.log, d) && (d in s.orders ==> s'.orders[d] == s.orders[d])
  }

  lemma {:induction false} LogGrows(s: Stream, s': Stream, c: int, out: seq<Emission>)
    requires c in s.orders && s'.orders.Keys == s.orders.Keys && s'.log == s.log + out && OutFor(out, c)
    requires forall d :: d != c && d in s.orders ==> s'.orders[d] == s.orders[d]
    ensures Concerns(s, s', c) && Updates(s'.log, c) == Updates(s.log, c) + Updates(out, c)
  {
    forall d ensures Updates(s'.log, d) == Updates(s.log, d) + Updates(out, d) {
      UpdatesAppend(s.log, out, d);
    }
    forall d | d != c ensures Updates(s'.log, d) == Updates(s.log, d) {
      UpdatesOfOthers(out, c, d);
    }
  }

  lemma CommitPrices(s: Stream, s': Stream, c: int, x: Local, named: set<int>)
    requires c in s.orders && x.live.cid == c && OutFor(x.out, c)
    requires s'.orders == s.orders[c := x.live] && s'.log == s.log + x.out
    requires Follows(Priced(s.orders[c], []), Of1(x), named)
    ensures Concerns(s, s', c) && Follows(PricedOf(s, c), PricedOf(s', c), named)
    ensures forall p :: Acknowledged(Priced(s.orders[c], []), Of1(x), p) ==> Acknowledged(PricedOf(s, c), PricedOf(s', c), p)
  {
    LogGrows(s, s', c, x.out);
  }

  lemma FollowsMore(a: Priced, b: Priced, named: set<int>, more: set<int>)
    requires Follows(a, b, named) && named <= more
    ensures Follows(a, b, more)
  {
  }

  lemma {:induction false} InsertedIsOne(t: Trade, ts: seq<Trade>, u: Trade)
    requires u in InsertTrade(t, ts)
    ensures u == t || u in ts
  {
    InsertTradeKeeps(t, ts);
    assert u in multiset(InsertTrade(t, ts));
  }

  lemma {:induction false} StagedIsBuffered(buffer: seq<Trade>, l: Live, state: OrderState, op: OrderOp, t: Trade)
    requires t in StagedFor(buffer, l, state, op)
    ensures t in buffer
  {
    var rest := StagedFor(buffer[1..], l, state, op);
    if t in rest {
      StagedIsBuffered(buffer[1..], l, state, op, t);
    } else {
      InsertedIsOne(buffer[0], rest, t);
    }
  }

  /** The prices a message states. */
  function Named(s: Stream, e: Event): set<int> {
    match e
    case OrderFrame(_, state) => OrderPrices(s.buffer) + {state.price}
    case InterimFrame(t) => {t.orderPrice}
    case TradeFrame(t) => {t.orderPrice}
    case _ => {}
  }

  lemma StagedAreNamed(s: Stream, l: Live, state: OrderState, op: OrderOp)
    ensures OrderPrices(StagedFor(s.buffer, l, state, op)) + {state.price} <= Named(s, OrderFrame(op, state))
  {
    var staged := StagedFor(s.buffer, l, state, op);
    forall t | t in staged ensures t.orderPrice in OrderPrices(s.buffer) {
      StagedIsBuffered(s.buffer, l, state, op, t);
    }
  }

  // The adopted frame's order; `y` is what adoption leaves of it.
  lemma AdoptedPrices(s: Stream, s': Stream, c: int, x: Local, op: OrderOp, state: OrderState, y: Local)
    requires c in s.orders && s.orders[c].cid == c && x == Of(s, c).(live := s.orders[c].(flagsVerified := true))
    requires OutFor(y.out, y.live.cid) && s'.orders == s.orders[c := y.live] && s'.log == s.log + y.out
    requires Answers(Of1(x), Of1(y), state.price, OrderPrices(StagedFor(s.buffer, s.orders[c], state, op)))
    ensures Concerns(s, s', c) && Follows(PricedOf(s, c), PricedOf(s', c), Named(s, OrderFrame(op, state)))
    ensures s.orders[c].pendingModify == Some(state.price) ==> Acknowledged(PricedOf(s, c), PricedOf(s', c), state.price)
  {
    StagedAreNamed(s, s.orders[c], state, op);
    var claimed := OrderPrices(StagedFor(s.buffer, s.orders[c], state, op)) + {state.price};
    FollowsMore(Of1(x), Of1(y), claimed, Named(s, OrderFrame(op, state)));
    CommitPrices(s, s', c, y, Named(s, OrderFrame(op, state)));
  }

  lemma OrderFramePrices(cfg: Config, s: Stream, op: OrderOp, state: OrderState, s': Stream, c: int)
    requires Inv(s) && Resolve(s, state.cid, Some(state.venue)) == Order(c) && HandleOrder(cfg, s, op, state) == Some(s')
    ensures Concerns(s, s', c) && Follows(PricedOf(s, c), PricedOf(s', c), Named(s, OrderFrame(op, state)))
    ensures s.orders[c].terminal == None && s.orders[c].pendingModify == Some(state.price) ==>
      Acknowledged(PricedOf(s, c), PricedOf(s', c), state.price)
  {
    assert OrderKept(s, c);
    var l := s.orders[c];
    if l.terminal == None {
      var staged := StagedFor(s.buffer, l, state, op);
      AdmittedAdvances(cfg, s, c, op, state, staged);
      AdvancePrices(s, s', c, op, state, staged);
    }
  }

  lemma {:induction false} AdvancePrices(s: Stream, s': Stream, c: int, op: OrderOp, state: OrderState, staged: seq<Trade>)
    requires c in s.orders && OrderKept(s, c) && staged == StagedFor(s.buffer, s.orders[c], state, op)
    requires Advance(s, c, op, state, staged, Rejects(s.orders[c], state)) == Some(s')
    ensures Concerns(s, s', c) && Follows(PricedOf(s, c), PricedOf(s', c), Named(s, OrderFrame(op, state)))
    ensures s.orders[c].pendingModify == Some(state.price) ==> Acknowledged(PricedOf(s, c), PricedOf(s', c), state.price)
  {
    var l := s.orders[c];
    var x := Of(s, c).(live := l.(flagsVerified := true));
    if l.rejection.Some? {
      CommitPrices(s, s', c, x, Named(s, OrderFrame(op, state)));
    } else if Rejects(l, state) {
      Unpriced([], c, Rejected(c));
      CommitPrices(s, s', c, RejectByStatus(x, state), Named(s, OrderFrame(op, state)));
    } else {
      var y := Adopt(x, op, state, staged).value;
      AdoptPrices(x, op, state, staged, y);
      AdoptedPrices(s, s', c, x, op, state, y);
    }
  }

  lemma AppliedPrices(s: Stream, s': Stream, c: int, t: Trade, y: Local)
    requires c in s.orders && OrderKept(s, c) && ApplyFill(Of(s, c), t) == Some(y)
    requires s'.orders == s.orders[c := y.live] && s'.log == s.log + y.out
    ensures Concerns(s, s', c) && Follows(PricedOf(s, c), PricedOf(s', c), {t.orderPrice})
    ensures s.orders[c].pendingModify == Some(t.orderPrice) ==> Acknowledged(PricedOf(s, c), PricedOf(s', c), t.orderPrice)
  {
    FillPrices(Of(s, c), t, y);
    assert {} + {t.orderPrice} == {t.orderPrice};
    CommitPrices(s, s', c, y, {t.orderPrice});
  }

  lemma Untouched(s: Stream, s': Stream, c: int, named: set<int>)
    requires c in s.orders && s'.orders == s.orders && s'.log == s.log
    ensures Concerns(s, s', c) && Follows(PricedOf(s, c), PricedOf(s', c), named)
  {
  }

  lemma InterimPrices(cfg: Config, s: Stream, t: Trade, s': Stream, c: int)
    requires Inv(s) && Resolve(s, t.cid, Some(t.venue)) == Order(c) && HandleInterim(cfg, s, t) == Some(s')
    ensures Concerns(s, s', c) && Follows(PricedOf(s, c), PricedOf(s', c), {t.orderPrice})
    ensures s'.orders[c].filled != s.orders[c].filled && s.orders[c].pendingModify == Some(t.orderPrice) ==>
      Acknowledged(PricedOf(s, c), PricedOf(s', c), t.orderPrice)
  {
    assert OrderKept(s, c);
    if s'.orders == s.orders && s'.log == s.log {
      Untouched(s, s', c, {t.orderPrice});
    } else {
      assert ApplyInterim(s, c, t) == Some(s');
      AppliedPrices(s, s', c, t, ApplyFill(Of(s, c), t).value);
    }
  }

  lemma TradePrices(cfg: Config, s: Stream, t: Trade, s': Stream, c: int)
    requires Inv(s) && Resolve(s, t.cid, Some(t.venue)) == Order(c) && HandleTrade(cfg, s, t) == Some(s')
    ensures Concerns(s, s', c) && Follows(PricedOf(s, c), PricedOf(s', c), {t.orderPrice})
    ensures s'.orders[c].filled != s.orders[c].filled && s.orders[c].pendingModify == Some(t.orderPrice) ==>
      Acknowledged(PricedOf(s, c), PricedOf(s', c), t.orderPrice)
  {
    assert OrderKept(s, c);
    if t.id in s.seen {
      Untouched(s, s', c, {t.orderPrice});
    } else if t.id in s.interim {
      var y := FinishTerminal(Of(s, c)).value;
      FinishPrices(Of(s, c), y);
      FollowsMore(Of1(Of(s, c)), Of1(y), {}, {t.orderPrice});
      CommitPrices(s, s', c, y, {t.orderPrice});
      FinishesOnly(Of(s, c), y);
    } else {
      AppliedPrices(s, s', c, t, ApplyFill(Of(s, c), t).value);
    }
  }

  lemma FinishesOnly(x: Local, y: Local)
    requires FinishTerminal(x) == Some(y)
    ensures y.live.filled == x.live.filled
  {
  }

  /** A refused change leaves the price as it was. */
  predicate Refused(a: Priced, b: Priced, e: Event) {
    && e.NoticeFrame? && !e.notice.success && e.notice.op.Ou?
    && b == Priced(a.live.(pendingModify := None, unknown := a.live.unknown - {Modify}), a.updates)
  }

  lemma NoticePrices(s: Stream, n: Notice, s': Stream, c: int)
    requires Inv(s) && !n.success && Resolve(s, n.cid, n.venue) == Order(c) && HandleNotice(s, n) == Some(s')
    ensures Concerns(s, s', c)
    ensures Follows(PricedOf(s, c), PricedOf(s', c), {}) || Refused(PricedOf(s, c), PricedOf(s', c), NoticeFrame(n))
  {
    assert OrderKept(s, c);
    if s.orders[c].rejection.Some? {
      Untouched(s, s', c, {});
    } else {
      var y := NoticeFor(Of(s, c), n.op, ByNotice(n.status, n.code, n.text)).value;
      NoticeOut(Of(s, c), n.op, ByNotice(n.status, n.code, n.text), y);
      NoticeCommits(s, s', c, y, n);
    }
  }

  lemma NoticeCommits(s: Stream, s': Stream, c: int, y: Local, n: Notice)
    requires c in s.orders && s.orders[c].cid == c && s' == Commit(s, c, y) && !n.success
    requires OutFor(y.out, c) && Updates(y.out, c) == []
    requires if n.op.Ou? then y.live == s.orders[c].(pendingModify := None, unknown := s.orders[c].unknown - {Modify})
             else Kept(Priced(s.orders[c], []), Priced(y.live, [])) && y.live.cid == c
                  && (s.orders[c].terminalEmitted ==> y.live.terminalEmitted)
    ensures Concerns(s, s', c)
    ensures Follows(PricedOf(s, c), PricedOf(s', c), {}) || Refused(PricedOf(s, c), PricedOf(s', c), NoticeFrame(n))
  {
    LogGrows(s, s', c, y.out);
  }

  lemma NoticeOut(x: Local, op: OrderOp, key: Rejection, y: Local)
    requires NoticeFor(x, op, key) == Some(y) && x.out == []
    ensures OutFor(y.out, x.live.cid) && Updates(y.out, x.live.cid) == []
    ensures y.live == if op.Ou? then x.live.(pendingModify := None, unknown := x.live.unknown - {Modify})
                      else x.live.(terminalEmitted := y.live.terminalEmitted, rejection := y.live.rejection,
                                   pendingCancel := y.live.pendingCancel, unknown := y.live.unknown)
    ensures x.live.terminalEmitted ==> y.live.terminalEmitted
  {
    Unpriced([], x.live.cid, Rejected(x.live.cid));
    Unpriced([], x.live.cid, ModifyRejected(x.live.cid));
    Unpriced([], x.live.cid, CancelRejected(x.live.cid));
  }

  // ---------------------------------------------------------------- commands

  /** A change of price is asked for. */
  predicate Asked(a: Priced, b: Priced, e: Event) {
    && e.ModifyCommand? && e.cid == a.live.cid && !e.held && e.newPrice.Some? && a.live.pendingModify == None
    && b == Priced(a.live.(pendingModify := e.newPrice), a.updates)
  }

  lemma ModifyPrices(s: Stream, price: Option<int>, held: bool, s': Stream, c: int)
    requires c in s.orders && s.orders[c].cid == c && ModifyOrder(s, c, price, held) == Some(s')
    ensures Concerns(s, s', c)
    ensures Follows(PricedOf(s, c), PricedOf(s', c), {}) || Asked(PricedOf(s, c), PricedOf(s', c), ModifyCommand(c, price, held))
  {
    if s' == s.(log := s.log + [ModifyRejected(c)]) {
      Logged(s, s', c, ModifyRejected(c));
    } else {
      Reordered(s, s', c, s.orders[c].(pendingModify := price));
    }
  }

  lemma CancelPrices(s: Stream, s': Stream, c: int)
    requires c in s.orders && CancelOrder(s, c) == Some(s')
    ensures Concerns(s, s', c) && Follows(PricedOf(s, c), PricedOf(s', c), {})
  {
    if s' == s.(log := s.log + [CancelRejected(c)]) {
      Logged(s, s', c, CancelRejected(c));
    } else {
      Reordered(s, s', c, s.orders[c].(pendingCancel := true));
    }
  }

  lemma Logged(s: Stream, s': Stream, c: int, e: Emission)
    requires c in s.orders && s'.orders == s.orders && s'.log == s.log + [e] && e.cid == c && !e.Updated?
    ensures Concerns(s, s', c) && PricedOf(s', c) == PricedOf(s, c)
  {
    Unpriced([], c, e);
    LogGrows(s, s', c, [e]);
  }

  lemma Reordered(s: Stream, s': Stream, c: int, l: Live)
    requires c in s.orders && s'.orders == s.orders[c := l] && s'.log == s.log
    ensures Concerns(s, s', c) && PricedOf(s', c) == Priced(l, PricedOf(s, c).updates)
  {
  }

  // Sends, deadlines and the close leave every price alone.
  predicate SamePrices(l: Live, l': Live) {
    l' == l.(unknown := l'.unknown)
  }

  ghost predicate Quiet(s: Stream, s': Stream) {
    s'.orders.Keys == s.orders.Keys && s'.log == s.log && forall c :: c in s.orders ==> SamePrices(s.orders[c], s'.orders[c])
  }

  lemma SendIsQuiet(s: Stream, c: int, op: Operation, outcome: SendOutcome)
    requires c in s.orders
    ensures Quiet(s, EndSend(s, c, op, outcome))
  {
  }

  lemma ExpiryIsQuiet(s: Stream, c: int, op: Operation)
    requires c in s.orders
    ensures Quiet(s, ExpireDeadline(s, c, op))
  {
    if (c, op) in s.deadlines {
      MarkIsQuiet(s.(deadlines := s.deadlines - {(c, op)}), c, op);
    }
  }

  lemma MarkIsQuiet(s: Stream, c: int, op: Operation)
    requires c in s.orders
    ensures Quiet(s, MarkUnknown(s, c, op))
  {
  }

  lemma CloseIsQuiet(cfg: Config, s: Stream)
    ensures Quiet(s, CloseStream(cfg, s))
  {
  }

  lemma QuietFollows(s: Stream, s': Stream, c: int)
    requires Quiet(s, s') && c in s.orders
    ensures Follows(PricedOf(s, c), PricedOf(s', c), {})
  {
  }

  // ---------------------------------------------------------------- every step

  /** What any event can do to an order's price. */
  ghost predicate PriceStep(s: Stream, e: Event, s': Stream, c: int)
    requires c in s.orders && c in s'.orders
  {
    var a, b := PricedOf(s, c), PricedOf(s', c);
    Follows(a, b, Named(s, e)) || Asked(a, b, e) || Refused(a, b, e)
  }

  /** An order frame at the asked price acknowledges it, and so does a fill made at that price. */
  ghost predicate PriceAnswered(s: Stream, e: Event, s': Stream, c: int)
    requires c in s.orders && c in s'.orders
  {
    var a, b := PricedOf(s, c), PricedOf(s', c);
    && (e.OrderFrame? && e.state.cid == Some(c) && a.live.terminal == None && a.live.pendingModify == Some(e.state.price) ==>
          Acknowledged(a, b, e.state.price))
    && ((e.InterimFrame? || e.TradeFrame?) && b.live.filled != a.live.filled && a.live.pendingModify == Some(e.trade.orderPrice) ==>
          Acknowledged(a, b, e.trade.orderPrice))
  }

  ghost predicate PricesKept(s: Stream, e: Event, s': Stream) {
    && (forall c :: c in s.orders ==> c in s'.orders && PriceStep(s, e, s', c) && PriceAnswered(s, e, s', c))
    && (forall c :: c !in s.orders ==> Updates(s'.log, c) == Updates(s.log, c))
    && (forall c :: c !in s.orders && c in s'.orders ==> Begins(s'.orders[c], e, c))
  }

  /** A supported submission starts the order at its price. */
  predicate Begins(l: Live, e: Event, c: int) {
    e.SubmitCommand? && e.cid == c && Supported(e.terms) && l == NewOrder(c, e.terms, e.price)
  }

  lemma OthersKept(s: Stream, e: Event, s': Stream, c: int)
    requires Concerns(s, s', c) && PriceStep(s, e, s', c) && PriceAnswered(s, e, s', c)
    requires e.OrderFrame? && e.state.cid.Some? && e.state.cid.value in s.orders ==> e.state.cid == Some(c)
    ensures PricesKept(s, e, s')
  {
  }

  lemma NothingMoves(s: Stream, e: Event, s': Stream)
    requires s'.orders == s.orders && s'.log == s.log
    requires e.OrderFrame? && e.state.cid.Some? ==> e.state.cid.value !in s.orders
    ensures PricesKept(s, e, s')
  {
  }

  lemma OrderFrameStep(cfg: Config, s: Stream, op: OrderOp, state: OrderState, s': Stream)
    requires Inv(s) && HandleOrder(cfg, s, op, state) == Some(s')
    ensures PricesKept(s, OrderFrame(op, state), s')
  {
    var found := Resolve(s, state.cid, Some(state.venue));
    if found.Order? {
      OrderFramePrices(cfg, s, op, state, s', found.cid);
      OthersKept(s, OrderFrame(op, state), s', found.cid);
    } else {
      NothingMoves(s, OrderFrame(op, state), s');
    }
  }

  lemma InterimStep(cfg: Config, s: Stream, t: Trade, s': Stream)
    requires Inv(s) && HandleInterim(cfg, s, t) == Some(s')
    ensures PricesKept(s, InterimFrame(t), s')
  {
    var found := Resolve(s, t.cid, Some(t.venue));
    if found.Order? {
      InterimPrices(cfg, s, t, s', found.cid);
      OthersKept(s, InterimFrame(t), s', found.cid);
    } else {
      NothingMoves(s, InterimFrame(t), s');
    }
  }

  lemma TradeStep(cfg: Config, s: Stream, t: Trade, s': Stream)
    requires Inv(s) && HandleTrade(cfg, s, t) == Some(s')
    ensures PricesKept(s, TradeFrame(t), s')
  {
    var found := Resolve(s, t.cid, Some(t.venue));
    if found.Order? {
      TradePrices(cfg, s, t, s', found.cid);
      OthersKept(s, TradeFrame(t), s', found.cid);
    } else {
      NothingMoves(s, TradeFrame(t), s');
    }
  }

  lemma NoticeStep(cfg: Config, s: Stream, n: Notice, s': Stream)
    requires Inv(s) && HandleNotice(s, n) == Some(s')
    ensures PricesKept(s, NoticeFrame(n), s')
  {
    var found := Resolve(s, n.cid, n.venue);
    if !n.success && found.Order? {
      NoticePrices(s, n, s', found.cid);
      OthersKept(s, NoticeFrame(n), s', found.cid);
    } else {
      NothingMoves(s, NoticeFrame(n), s');
    }
  }

  lemma SubmitStep(cfg: Config, s: Stream, e: Event, s': Stream)
    requires e.SubmitCommand? && CanHappen(s, e) && Step(cfg, s, e) == Some(s')
    ensures PricesKept(s, e, s')
  {
    if Supported(e.terms) {
      assert s'.orders == s.orders[e.cid := NewOrder(e.cid, e.terms, e.price)];
    }
  }

  lemma QuietStep(s: Stream, e: Event, s': Stream)
    requires Quiet(s, s') && !e.OrderFrame? && !e.InterimFrame? && !e.TradeFrame?
    ensures PricesKept(s, e, s')
  {
    forall c | c in s.orders ensures Follows(PricedOf(s, c), PricedOf(s', c), {}) {
      QuietFollows(s, s', c);
    }
  }

  lemma StepPrices(cfg: Config, s: Stream, e: Event, s': Stream)
    requires Inv(s) && CanHappen(s, e) && Step(cfg, s, e) == Some(s')
    ensures PricesKept(s, e, s')
  {
    match e
    case OrderFrame(op, state) => OrderFrameStep(cfg, s, op, state, s');
    case InterimFrame(t) => InterimStep(cfg, s, t, s');
    case TradeFrame(t) => TradeStep(cfg, s, t, s');
    case NoticeFrame(n) => NoticeStep(cfg, s, n, s');
    case SubmitCommand(_, _, _) => SubmitStep(cfg, s, e, s');
    case ModifyCommand(cid, price, held) =>
      assert OrderKept(s, cid);
      ModifyPrices(s, price, held, s', cid);
      OthersKept(s, e, s', cid);
    case CancelCommand(cid) =>
      CancelPrices(s, s', cid);
      OthersKept(s, e, s', cid);
    case SendReturns(cid, op, outcome) =>
      SendIsQuiet(s, cid, op, outcome);
      QuietStep(s, e, s');
    case DeadlineExpires(cid, op) =>
      ExpiryIsQuiet(s, cid, op);
      QuietStep(s, e, s');
    case Closes =>
      CloseIsQuiet(cfg, s);
      QuietStep(s, e, s');
  }

  // ---------------------------------------------------------------- a step that raises

  // What a raise left may have acknowledged a price, never lost or invented one.
  lemma RaisedPrices(cfg: Config, s: Stream, e: Event)
    requires Inv(s)
    ensures AllFollow(s, Raised(cfg, s, e), Named(s, e))
  {
    if Raised(cfg, s, e) == s {
      NoneMoves(s, Named(s, e));
    } else {
      var c := Resolve(s, e.state.cid, Some(e.state.venue)).cid;
      RaisedOrderPrices(s, c, e.op, e.state);
      OneMoves(s, Raised(cfg, s, e), c, Named(s, e));
    }
  }

  ghost predicate AllFollow(s: Stream, s': Stream, named: set<int>) {
    && s'.orders.Keys == s.orders.Keys
    && (forall c :: c in s.orders ==> Follows(PricedOf(s, c), PricedOf(s', c), named))
    && (forall c :: c !in s.orders ==> Updates(s'.log, c) == Updates(s.log, c))
  }

  lemma NoneMoves(s: Stream, named: set<int>)
    ensures AllFollow(s, s, named)
  {
  }

  lemma OneMoves(s: Stream, s': Stream, c: int, named: set<int>)
    requires Concerns(s, s', c) && Follows(PricedOf(s, c), PricedOf(s', c), named)
    ensures AllFollow(s, s', named)
  {
  }

  lemma RaisedOrderPrices(s: Stream, c: int, op: OrderOp, state: OrderState)
    requires Inv(s) && c in s.orders
    ensures
      var s' := RaisedFor(s, c, op, state, StagedFor(s.buffer, s.orders[c], state, op));
      Concerns(s, s', c) && Follows(PricedOf(s, c), PricedOf(s', c), Named(s, OrderFrame(op, state)))
  {
    assert OrderKept(s, c);
    var staged := StagedFor(s.buffer, s.orders[c], state, op);
    var s' := RaisedFor(s, c, op, state, staged);
    var x := Of(s, c).(live := s.orders[c].(flagsVerified := true));
    var y := Unfinished(x, op, state, staged);
    if s.orders[c].rejection.Some? || y == None {
      CommitPrices(s, s', c, x, Named(s, OrderFrame(op, state)));
    } else {
      UnfinishedPrices(x, op, state, staged, y.value);
      AdoptedPrices(s, s', c, x, op, state, y.value);
    }
  }

  // ---------------------------------------------------------------- whole runs

  predicate Submits(e: Event, c: int, price: int) {
    e.SubmitCommand? && e.cid == c && Supported(e.terms) && e.price == price
  }

  /** The current price is the last one published, or else the submitted one; the known prices are
      these; and every price published or still asked for was asked for by a command. */
  ghost predicate PriceTold(events: seq<Event>, a: Priced, c: int) {
    && (exists k :: 0 <= k < |events| && events[k].SubmitCommand? && Submits(events[k], c, events[k].price)
          && a.live.currentPrice == (if a.updates == [] then events[k].price else a.updates[|a.updates| - 1])
          && a.live.knownPrices == {events[k].price} + (set p <- a.updates))
    && (forall p :: p in a.updates || a.live.pendingModify == Some(p) ==> ModifyCommand(c, Some(p), false) in events)
  }

  ghost predicate PricesTold(events: seq<Event>, s: Stream) {
    && (forall c :: c in s.orders ==> PriceTold(events, PricedOf(s, c), c))
    && (forall c :: c !in s.orders ==> Updates(s.log, c) == [])
  }

  lemma {:induction false} ToldOn(events: seq<Event>, e: Event, a: Priced, b: Priced, c: int, named: set<int>)
    requires PriceTold(events, a, c) && a.live.cid == c
    requires Follows(a, b, named) || Asked(a, b, e) || Refused(a, b, e)
    ensures PriceTold(events + [e], b, c)
  {
    var k :| 0 <= k < |events| && events[k].SubmitCommand? && Submits(events[k], c, events[k].price)
      && a.live.currentPrice == (if a.updates == [] then events[k].price else a.updates[|a.updates| - 1])
      && a.live.knownPrices == {events[k].price} + (set p <- a.updates);
    assert (events + [e])[k] == events[k];
    assert e in events + [e];
    if !Kept(a, b) && b.updates != a.updates {
      assert (set p <- b.updates) == (set p <- a.updates) + {a.live.pendingModify.value};
    }
  }

  lemma {:induction false} BeginsTold(events: seq<Event>, e: Event, a: Priced, c: int)
    requires Begins(a.live, e, c) && a.updates == []
    ensures PriceTold(events + [e], a, c)
  {
    assert (events + [e])[|events|] == e;
  }

  lemma {:induction false} StepTold(cfg: Config, events: seq<Event>, s: Stream, e: Event, s': Stream)
    requires Inv(s) && PricesTold(events, s) && CanHappen(s, e) && Step(cfg, s, e) == Some(s')
    ensures PricesTold(events + [e], s')
  {
    StepPrices(cfg, s, e, s');
    forall c | c in s'.orders ensures PriceTold(events + [e], PricedOf(s', c), c) {
      if c in s.orders {
        assert OrderKept(s, c) && PriceStep(s, e, s', c);
        ToldOn(events, e, PricedOf(s, c), PricedOf(s', c), c, Named(s, e));
      } else {
        BeginsTold(events, e, PricedOf(s', c), c);
      }
    }
  }

  lemma {:induction false} FollowedTold(events: seq<Event>, s: Stream, e: Event, s': Stream, named: set<int>)
    requires Inv(s) && PricesTold(events, s) && s'.orders.Keys == s.orders.Keys
    requires forall c :: c in s.orders ==> Follows(PricedOf(s, c), PricedOf(s', c), named)
    requires forall c :: c !in s.orders ==> Updates(s'.log, c) == Updates(s.log, c)
    ensures PricesTold(events + [e], s')
  {
    forall c | c in s'.orders ensures PriceTold(events + [e], PricedOf(s', c), c) {
      assert OrderKept(s, c);
      ToldOn(events, e, PricedOf(s, c), PricedOf(s', c), c, named);
    }
  }

  lemma {:induction false} QuietAfter(events: seq<Event>, s: Stream, e: Event, raised: Stream, s': Stream, named: set<int>)
    requires Inv(s) && PricesTold(events, s) && raised.orders.Keys == s.orders.Keys && Quiet(raised, s')
    requires forall c :: c in s.orders ==> Follows(PricedOf(s, c), PricedOf(raised, c), named)
    requires forall c :: c !in s.orders ==> Updates(raised.log, c) == Updates(s.log, c)
    ensures PricesTold(events + [e], s')
  {
    forall c | c in s.orders ensures Follows(PricedOf(s, c), PricedOf(s', c), named) {
      QuietFollows(raised, s', c);
      FollowsOn(PricedOf(s, c), PricedOf(raised, c), PricedOf(s', c), named, {});
      assert named + {} == named;
    }
    FollowedTold(events, s, e, s', named);
  }

  // The reader closes the stream behind a frame that raised.
  lemma {:induction false} RaiseTold(cfg: Config, events: seq<Event>, s: Stream, e: Event)
    requires Inv(s) && PricesTold(events, s)
    ensures PricesTold(events + [e], CloseStream(cfg, Raised(cfg, s, e)))
  {
    var raised := Raised(cfg, s, e);
    RaisedPrices(cfg, s, e);
    CloseIsQuiet(cfg, raised);
    QuietAfter(events, s, e, raised, CloseStream(cfg, raised), Named(s, e));
  }

  lemma {:induction false} StaysTold(events: seq<Event>, s: Stream, e: Event)
    requires Inv(s) && PricesTold(events, s)
    ensures PricesTold(events + [e], s)
  {
    FollowedTold(events, s, e, s, {});
  }

  lemma {:induction false} StepOnTold(cfg: Config, events: seq<Event>, s: Stream, e: Event)
    requires Inv(s) && PricesTold(events, s) && Occurs(s, e)
    ensures PricesTold(events + [e], StepOn(cfg, s, e))
  {
    match Step(cfg, s, e)
    case Some(s') => StepTold(cfg, events, s, e, s');
    case None =>
      if IsFrame(e) {
        RaiseTold(cfg, events, s, e);
      } else {
        StaysTold(events, s, e);
      }
  }

  lemma {:induction false} RunOnLast(cfg: Config, events: seq<Event>, front: seq<Event>, e: Event) returns (s: Stream)
    requires events != [] && RunOn(cfg, events).Some? && front == events[..|events| - 1] && e == events[|events| - 1]
    ensures RunOn(cfg, front) == Some(s) && Occurs(s, e) && RunOn(cfg, events) == Some(StepOn(cfg, s, e))
    ensures events == front + [e]
  {
    s := RunOn(cfg, front).value;
  }

  lemma {:induction false} RunTold(cfg: Config, events: seq<Event>)
    requires RunOn(cfg, events).Some?
    ensures PricesTold(events, RunOn(cfg, events).value)
  {
    if events != [] {
      var front, e := events[..|events| - 1], events[|events| - 1];
      var s := RunOnLast(cfg, events, front, e);
      RunTold(cfg, front);
      RunOnKeeps(cfg, front);
      StepOnTold(cfg, front, s, e);
    }
  }

  /** In every run, also through frames that raise: an order's current price is the last one
      published for it, or the submitted one if none was; exactly these prices are known; and every
      price published or still asked for was asked for by a command. */
  lemma {:induction false} EveryPriceIsTold(cfg: Config, events: seq<Event>, s: Stream, c: int)
    requires RunOn(cfg, events) == Some(s) && c in s.orders
    ensures PriceTold(events, PricedOf(s, c), c)
  {
    RunTold(cfg, events);
  }

  /** The asked price is still asked for; or published, current and known; or given up. */
  predicate Ends(a: Priced, b: Priced, e: Event, price: int, named: set<int>) {
    || (b.live.pendingModify == Some(price) && SamePrice(a, b))
    || (b.live.pendingModify == None && price in named && b.updates == a.updates + [price]
        && b.live.currentPrice == price && b.live.knownPrices == a.live.knownPrices + {price})
    || (b.live.pendingModify == None && SamePrice(a, b)
        && (b.live.terminalEmitted || (e.NoticeFrame? && e.notice.op.Ou? && !e.notice.success)))
  }

  lemma HowItEnds(a: Priced, b: Priced, e: Event, price: int, named: set<int>)
    requires a.live.pendingModify == Some(price) && (Follows(a, b, named) || Asked(a, b, e) || Refused(a, b, e))
    ensures Ends(a, b, e, price, named)
  {
  }

  /** A step that ends an asked change publishes exactly that price and adopts it, beside the old
      ones; or a failure notice refuses it, or the terminal ends it, and then nothing is published
      and no price changes.  A frame or fill that states the asked price always acknowledges it. */
  lemma PendingPriceEnds(cfg: Config, s: Stream, e: Event, s': Stream, c: int, price: int)
    requires Inv(s) && CanHappen(s, e) && Step(cfg, s, e) == Some(s')
    requires c in s.orders && s.orders[c].pendingModify == Some(price)
    ensures c in s'.orders && PriceAnswered(s, e, s', c)
    ensures Ends(PricedOf(s, c), PricedOf(s', c), e, price, Named(s, e))
  {
    StepPrices(cfg, s, e, s');
    assert PriceStep(s, e, s', c);
    HowItEnds(PricedOf(s, c), PricedOf(s', c), e, price, Named(s, e));
  }
}
