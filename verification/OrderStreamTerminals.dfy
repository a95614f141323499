/** The end of an order: published as soon as the fills reach what the terminal reports. */
module OrderStreamTerminals {
  import opened Rounding
  import opened OrderStream
  import opened OrderStreamSafety
  import opened OrderStreamRuns
  import opened OrderStreamRaises
  import opened OrderStreamPrices

  // ---------------------------------------------------------------- the ended order

  /** The terminal reports a cancel short of the whole order. */
  predicate EndsShort(state: OrderState) {
    !state.status.Executed? && Abs(state.original) - Abs(state.remaining) < Abs(state.original)
  }

  /** A cancel is published exactly for a settled order that ended short, and nothing more is asked of
      the price of a settled order. */
  predicate Told(l: Live, canceled: bool) {
    && (l.terminal.Some? && l.rejection == None ==> (canceled <==> l.terminalEmitted && EndsShort(l.terminal.value)))
    && (l.terminalEmitted ==> l.pendingModify == None)
  }

  /** The order is settled as soon as the fills are all there. */
  predicate Reached(l: Live) {
    l.terminal.Some? && l.rejection == None && l.filled == TerminalFilled(l.terminal.value) ==> l.terminalEmitted
  }

  /** `before` says that the cancel was already published. */
  predicate CanceledBy(x: Local, before: bool) {
    before || CanceledOrder(x.live.cid) in x.out
  }

  predicate SameEnd(x: Local, y: Local) {
    && y.live.cid == x.live.cid && y.live.terminal == x.live.terminal && y.live.rejection == x.live.rejection
    && y.live.terminalEmitted == x.live.terminalEmitted
    && (y.live.pendingModify == x.live.pendingModify || y.live.pendingModify == None)
    && (CanceledOrder(x.live.cid) in y.out <==> CanceledOrder(x.live.cid) in x.out)
  }

  lemma AcceptEnd(x: Local, venue: int, y: Local)
    requires Accept(x, venue) == Some(y)
    ensures SameEnd(x, y) && y.live.filled == x.live.filled
  {
  }

  lemma AckEnd(x: Local, price: int, y: Local)
    requires AckPendingPrice(x, price) == Some(y)
    ensures SameEnd(x, y) && y.live.filled == x.live.filled
  {
  }

  lemma AcceptAndAckEnd(x: Local, venue: int, price: int, y: Local)
    requires AcceptAndAck(x, venue, price) == Some(y)
    ensures SameEnd(x, y) && y.live.filled == x.live.filled
  {
    AcceptEnd(x, venue, Accept(x, venue).value);
    AckEnd(Accept(x, venue).value, price, y);
  }

  lemma RecordEnd(x: Local, t: Trade, next: int)
    ensures SameEnd(x, RecordFill(x, t, next)) && RecordFill(x, t, next).live.filled == next
  {
    RecordIs(x, t, next);
  }

  lemma FinishEnds(x: Local, before: bool, y: Local)
    requires Told(x.live, CanceledBy(x, before)) && x.live.rejection == None && FinishTerminal(x) == Some(y)
    ensures Told(y.live, CanceledBy(y, before)) && Reached(y.live)
    ensures y.live.cid == x.live.cid && y.live.rejection == None && y.live.terminal == x.live.terminal
  {
  }

  lemma FillEnds(x: Local, t: Trade, before: bool, y: Local)
    requires Told(x.live, CanceledBy(x, before)) && x.live.rejection == None && ApplyFill(x, t) == Some(y)
    ensures Told(y.live, CanceledBy(y, before)) && Reached(y.live)
    ensures y.live.cid == x.live.cid && y.live.rejection == None && y.live.terminal == x.live.terminal
  {
    var next := x.live.filled + Abs(t.quantity);
    var ready := AcceptAndAck(x, t.venue, t.orderPrice).value;
    AcceptAndAckEnd(x, t.venue, t.orderPrice, ready);
    RecordEnd(ready, t, next);
    FinishEnds(RecordFill(ready, t, next), before, y);
  }

  lemma {:induction false} ReleaseEnds(x: Local, staged: seq<Trade>, before: bool, y: Local)
    requires Told(x.live, CanceledBy(x, before)) && x.live.rejection == None && Release(x, staged) == Some(y)
    ensures Told(y.live, CanceledBy(y, before)) && (staged != [] || Reached(x.live) ==> Reached(y.live))
    ensures y.live.cid == x.live.cid && y.live.rejection == None && y.live.terminal == x.live.terminal
    decreases |staged|
  {
    if staged != [] {
      FillEnds(x, staged[0], before, ApplyFill(x, staged[0]).value);
      ReleaseEnds(ApplyFill(x, staged[0]).value, staged[1..], before, y);
    }
  }

  /** An order that is open to frames. */
  predicate Unended(l: Live, canceled: bool) {
    l.terminal == None && l.rejection == None && !l.terminalEmitted && !canceled
  }

  lemma {:induction false} UnfinishedEnds(x: Local, op: OrderOp, state: OrderState, staged: seq<Trade>, before: bool,
                                          y: Local)
    requires Unended(x.live, CanceledBy(x, before)) && Unfinished(x, op, state, staged) == Some(y)
    ensures Told(y.live, CanceledBy(y, before)) && (!op.Oc? ==> Reached(y.live))
    ensures y.live.cid == x.live.cid && y.live.rejection == None
    ensures y.live.terminal == if op.Oc? then Some(state) else None
  {
    var ready := AcceptAndAck(x, state.venue, state.price).value;
    AcceptAndAckEnd(x, state.venue, state.price, ready);
    ReleaseEnds(if op.Oc? then TakeTerminal(ready, state) else ready, staged, before, y);
  }

  lemma {:induction false} AdoptEnds(x: Local, op: OrderOp, state: OrderState, staged: seq<Trade>, before: bool, y: Local)
    requires Unended(x.live, CanceledBy(x, before)) && Adopt(x, op, state, staged) == Some(y)
    ensures Told(y.live, CanceledBy(y, before)) && Reached(y.live)
    ensures y.live.cid == x.live.cid && y.live.rejection == None
    ensures y.live.terminal == if op.Oc? then Some(state) else None
  {
    var released := Unfinished(x, op, state, staged).value;
    UnfinishedEnds(x, op, state, staged, before, released);
    if op.Oc? {
      FinishEnds(released, before, y);
    }
  }

  // ---------------------------------------------------------------- the stream

  predicate EndTold(s: Stream, c: int)
    requires c in s.orders
  {
    Told(s.orders[c], CanceledOrder(c) in s.log) && Reached(s.orders[c])
  }

  ghost predicate EndsTold(s: Stream) {
    forall c :: c in s.orders ==> EndTold(s, c)
  }

  lemma InvUnended(s: Stream, c: int)
    requires Inv(s) && c in s.orders && s.orders[c].terminal == None && s.orders[c].rejection == None
    ensures Unended(s.orders[c], CanceledOrder(c) in s.log)
  {
    assert OrderKept(s, c);
    HistoryMeans(s.log, c);
  }

  lemma CommitEnds(s: Stream, s': Stream, c: int, x: Local)
    requires EndsTold(s) && c in s.orders && x.live.cid == c && OutFor(x.out, c)
    requires s'.orders == s.orders[c := x.live] && s'.log == s.log + x.out
    requires Told(x.live, CanceledBy(x, CanceledOrder(c) in s.log)) && Reached(x.live)
    ensures EndsTold(s')
  {
    forall d | d in s'.orders ensures EndTold(s', d) {
      if d != c {
        assert EndTold(s, d);
        assert CanceledOrder(d) !in x.out by {
          assert forall i :: 0 <= i < |x.out| ==> x.out[i].cid == c;
        }
      }
    }
  }

  // Nothing about the end of any order changes.
  lemma UntouchedEnds(s: Stream, s': Stream)
    requires EndsTold(s) && s'.log == s.log && s'.orders.Keys == s.orders.Keys
    requires forall c :: c in s.orders ==> SamePrices(s.orders[c], s'.orders[c])
    ensures EndsTold(s')
  {
    forall c | c in s'.orders ensures EndTold(s', c) {
      assert EndTold(s, c);
    }
  }

  lemma {:induction false} AdvanceEnds(s: Stream, s': Stream, c: int, op: OrderOp, state: OrderState, staged: seq<Trade>)
    requires Inv(s) && EndsTold(s) && c in s.orders && s.orders[c].terminal == None
    requires Advance(s, c, op, state, staged, Rejects(s.orders[c], state)) == Some(s')
    ensures EndsTold(s')
  {
    assert OrderKept(s, c);
    var l := s.orders[c];
    var x := Of(s, c).(live := l.(flagsVerified := true));
    if l.rejection.Some? {
      CommitEnds(s, s', c, x);
    } else if Rejects(l, state) {
      CommitEnds(s, s', c, RejectByStatus(x, state));
    } else {
      var y := Adopt(x, op, state, staged).value;
      InvUnended(s, c);
      AdoptEnds(x, op, state, staged, CanceledOrder(c) in s.log, y);
      AdoptPrices(x, op, state, staged, y);
      CommitEnds(s, s', c, y);
    }
  }

  lemma OrderFrameEnds(cfg: Config, s: Stream, op: OrderOp, state: OrderState, s': Stream)
    requires Inv(s) && EndsTold(s) && HandleOrder(cfg, s, op, state) == Some(s')
    ensures EndsTold(s')
  {
    var found := Resolve(s, state.cid, Some(state.venue));
    if found.Order? && s.orders[found.cid].terminal == None {
      var staged := StagedFor(s.buffer, s.orders[found.cid], state, op);
      AdmittedAdvances(cfg, s, found.cid, op, state, staged);
      AdvanceEnds(s, s', found.cid, op, state, staged);
    }
  }

  lemma AppliedEnds(s: Stream, s': Stream, c: int, t: Trade, y: Local)
    requires Inv(s) && EndsTold(s) && c in s.orders && s.orders[c].rejection == None && ApplyFill(Of(s, c), t) == Some(y)
    requires s'.orders == s.orders[c := y.live] && s'.log == s.log + y.out
    ensures EndsTold(s')
  {
    assert OrderKept(s, c) && EndTold(s, c);
    FillEnds(Of(s, c), t, CanceledOrder(c) in s.log, y);
    FillPrices(Of(s, c), t, y);
    CommitEnds(s, s', c, y);
  }

  lemma InterimEnds(cfg: Config, s: Stream, t: Trade, s': Stream)
    requires Inv(s) && EndsTold(s) && HandleInterim(cfg, s, t) == Some(s')
    ensures EndsTold(s')
  {
    var c := InterimCases(cfg, s, t, s');
    if s'.orders == s.orders && s'.log == s.log {
      UntouchedEnds(s, s');
    } else {
      AppliedEnds(s, s', c, t, ApplyFill(Of(s, c), t).value);
    }
  }

  lemma InterimCases(cfg: Config, s: Stream, t: Trade, s': Stream) returns (c: int)
    requires HandleInterim(cfg, s, t) == Some(s')
    ensures (s'.orders == s.orders && s'.log == s.log)
      || (c in s.orders && s.orders[c].rejection == None && ApplyInterim(s, c, t) == Some(s'))
  {
    var found := Resolve(s, t.cid, Some(t.venue));
    c := if found.Order? then found.cid else 0;
  }

  lemma TradeEnds(cfg: Config, s: Stream, t: Trade, s': Stream)
    requires Inv(s) && EndsTold(s) && HandleTrade(cfg, s, t) == Some(s')
    ensures EndsTold(s')
  {
    var found := Resolve(s, t.cid, Some(t.venue));
    if found.Order? && t.id !in s.seen {
      var c := found.cid;
      if t.id in s.interim {
        var y := FinishTerminal(Of(s, c)).value;
        assert OrderKept(s, c) && EndTold(s, c);
        FinishEnds(Of(s, c), CanceledOrder(c) in s.log, y);
        FinishPrices(Of(s, c), y);
        CommitEnds(s, s', c, y);
      } else {
        AppliedEnds(s, s', c, t, ApplyFill(Of(s, c), t).value);
      }
    }
  }

  lemma NoticeEnds(s: Stream, n: Notice, s': Stream)
    requires Inv(s) && EndsTold(s) && HandleNotice(s, n) == Some(s')
    ensures EndsTold(s')
  {
    var found := Resolve(s, n.cid, n.venue);
    if !n.success && found.Order? && s.orders[found.cid].rejection == None {
      var c, key := found.cid, ByNotice(n.status, n.code, n.text);
      var y := NoticeFor(Of(s, c), n.op, key).value;
      assert OrderKept(s, c) && EndTold(s, c);
      NoticeOut(Of(s, c), n.op, key, y);
      NoticeEnd(Of(s, c), n.op, key, y);
      CommitEnds(s, s', c, y);
    }
  }

  lemma NoticeEnd(x: Local, op: OrderOp, key: Rejection, y: Local)
    requires NoticeFor(x, op, key) == Some(y) && x.out == []
    ensures y.live.cid == x.live.cid && y.live.terminal == x.live.terminal && y.live.filled == x.live.filled
    ensures CanceledOrder(x.live.cid) !in y.out
    ensures y.live.rejection.Some? || (y.live.rejection == x.live.rejection && y.live.terminalEmitted == x.live.terminalEmitted)
    ensures y.live.pendingModify == None || y.live.pendingModify == x.live.pendingModify
    ensures y.live.terminalEmitted ==> x.live.terminalEmitted || !x.live.accepted
  {
  }

  // ---------------------------------------------------------------- every step

  lemma LoggedEnds(s: Stream, s': Stream, e: Emission)
    requires EndsTold(s) && s'.log == s.log + [e] && !e.CanceledOrder? && s'.orders == s.orders
    ensures EndsTold(s')
  {
    forall c | c in s'.orders ensures EndTold(s', c) {
      assert EndTold(s, c);
    }
  }

  // A command changes what is asked of an order, not how it ends.
  lemma AskedEnds(s: Stream, s': Stream, c: int, l: Live)
    requires EndsTold(s) && s'.log == s.log && s'.orders == s.orders[c := l]
    requires c in s.orders ==>
      && l == s.orders[c].(pendingModify := l.pendingModify, pendingCancel := l.pendingCancel)
      && (l.pendingModify == s.orders[c].pendingModify || !l.terminalEmitted)
    requires c !in s.orders ==> l.terminal == None && !l.terminalEmitted
    ensures EndsTold(s')
  {
    forall d | d in s'.orders ensures EndTold(s', d) {
      if d in s.orders {
        assert EndTold(s, d);
      }
    }
  }

  lemma ModifyEnds(s: Stream, c: int, price: Option<int>, held: bool, s': Stream)
    requires Inv(s) && EndsTold(s) && c in s.orders && ModifyOrder(s, c, price, held) == Some(s')
    ensures EndsTold(s')
  {
    assert OrderKept(s, c);
    if s' == s.(log := s.log + [ModifyRejected(c)]) {
      LoggedEnds(s, s', ModifyRejected(c));
    } else {
      AskedEnds(s, s', c, s.orders[c].(pendingModify := price));
    }
  }

  lemma CancelEnds(s: Stream, c: int, s': Stream)
    requires EndsTold(s) && c in s.orders && CancelOrder(s, c) == Some(s')
    ensures EndsTold(s')
  {
    if s' == s.(log := s.log + [CancelRejected(c)]) {
      LoggedEnds(s, s', CancelRejected(c));
    } else {
      AskedEnds(s, s', c, s.orders[c].(pendingCancel := true));
    }
  }

  lemma SubmitEnds(s: Stream, cid: int, terms: Terms, price: int, s': Stream)
    requires EndsTold(s) && cid !in s.orders && SubmitOrder(s, cid, terms, price) == Some(s')
    ensures EndsTold(s')
  {
    if Supported(terms) {
      AskedEnds(s, s', cid, NewOrder(cid, terms, price));
    }
  }

  lemma QuietEnds(s: Stream, s': Stream)
    requires EndsTold(s) && Quiet(s, s')
    ensures EndsTold(s')
  {
    UntouchedEnds(s, s');
  }

  lemma StepEnds(cfg: Config, s: Stream, e: Event, s': Stream)
    requires Inv(s) && EndsTold(s) && CanHappen(s, e) && Step(cfg, s, e) == Some(s')
    ensures EndsTold(s')
  {
    match e
    case OrderFrame(op, state) => OrderFrameEnds(cfg, s, op, state, s');
    case InterimFrame(t) => InterimEnds(cfg, s, t, s');
    case TradeFrame(t) => TradeEnds(cfg, s, t, s');
    case NoticeFrame(n) => NoticeEnds(s, n, s');
    case SubmitCommand(cid, terms, price) => SubmitEnds(s, cid, terms, price, s');
    case ModifyCommand(cid, price, held) => ModifyEnds(s, cid, price, held, s');
    case CancelCommand(cid) => CancelEnds(s, cid, s');
    case SendReturns(cid, op, outcome) =>
      SendIsQuiet(s, cid, op, outcome);
      QuietEnds(s, s');
    case DeadlineExpires(cid, op) =>
      ExpiryIsQuiet(s, cid, op);
      QuietEnds(s, s');
    case Closes =>
      CloseIsQuiet(cfg, s);
      QuietEnds(s, s');
  }

  // A raise after an adopted terminal means that more was filled than it reports.
  lemma {:induction false} RaisedOrderEnds(cfg: Config, s: Stream, c: int, op: OrderOp, state: OrderState,
                                           staged: seq<Trade>)
    requires Inv(s) && EndsTold(s) && Resolve(s, state.cid, Some(state.venue)) == Order(c)
    requires Admitted(cfg, s, c, op, state) && staged == StagedFor(s.buffer, s.orders[c], state, op)
    requires HandleOrder(cfg, s, op, state) == None
    ensures EndsTold(RaisedFor(s, c, op, state, staged))
  {
    assert OrderKept(s, c) && EndTold(s, c);
    var x := Of(s, c).(live := s.orders[c].(flagsVerified := true));
    var s' := RaisedFor(s, c, op, state, staged);
    OrderRaisesIff(cfg, s, c, op, state);
    if s.orders[c].rejection.Some? {
      CommitEnds(s, s', c, x);
    } else {
      AdmittedAdopts(cfg, s, c, op, state, staged);
      var y := Unfinished(x, op, state, staged).value;
      InvUnended(s, c);
      UnfinishedEnds(x, op, state, staged, CanceledOrder(c) in s.log, y);
      UnfinishedPrices(x, op, state, staged, y);
      UnfinishedFills(cfg, s, c, x, op, state, staged, y);
      CommitEnds(s, s', c, y);
    }
  }

  lemma {:induction false} UnfinishedFills(cfg: Config, s: Stream, c: int, x: Local, op: OrderOp, state: OrderState,
                                           staged: seq<Trade>, y: Local)
    requires Inv(s) && Resolve(s, state.cid, Some(state.venue)) == Order(c) && s.orders[c].rejection == None
    requires Admitted(cfg, s, c, op, state) && staged == StagedFor(s.buffer, s.orders[c], state, op)
    requires x == Of(s, c).(live := s.orders[c].(flagsVerified := true)) && Unfinished(x, op, state, staged) == Some(y)
    ensures y.live.filled >= s.orders[c].filled
  {
    assert OrderKept(s, c);
    AcceptAndAckEnd(x, state.venue, state.price, AcceptAndAck(x, state.venue, state.price).value);
    var ready := AcceptAndAck(x, state.venue, state.price).value;
    ReleaseFills(if op.Oc? then TakeTerminal(ready, state) else ready, staged, y);
  }

  lemma {:induction false} ReleaseFills(x: Local, staged: seq<Trade>, y: Local)
    requires Release(x, staged) == Some(y)
    ensures y.live.filled >= x.live.filled
    decreases |staged|
  {
    if staged != [] {
      var first := ApplyFill(x, staged[0]).value;
      FillFills(x, staged[0], first);
      ReleaseFills(first, staged[1..], y);
    }
  }

  lemma FillFills(x: Local, t: Trade, y: Local)
    requires ApplyFill(x, t) == Some(y)
    ensures y.live.filled == x.live.filled + Abs(t.quantity)
  {
    var recorded := FillRecords(x, t, y);
    FinishesOnly(recorded, y);
  }

  lemma FillRecords(x: Local, t: Trade, y: Local) returns (recorded: Local)
    requires ApplyFill(x, t) == Some(y)
    ensures recorded.live.filled == x.live.filled + Abs(t.quantity) && FinishTerminal(recorded) == Some(y)
  {
    var ready := AcceptAndAck(x, t.venue, t.orderPrice).value;
    recorded := RecordFill(ready, t, x.live.filled + Abs(t.quantity));
    RecordEnd(ready, t, x.live.filled + Abs(t.quantity));
  }

  lemma StepOnEnds(cfg: Config, s: Stream, e: Event)
    requires Inv(s) && EndsTold(s) && Occurs(s, e)
    ensures EndsTold(StepOn(cfg, s, e))
  {
    if Step(cfg, s, e).Some? {
      StepEnds(cfg, s, e, Step(cfg, s, e).value);
    } else if IsFrame(e) {
      var raised := Raised(cfg, s, e);
      RaisedEnds(cfg, s, e);
      CloseIsQuiet(cfg, raised);
      QuietEnds(raised, CloseStream(cfg, raised));
    }
  }

  lemma RaisedEnds(cfg: Config, s: Stream, e: Event)
    requires Inv(s) && EndsTold(s) && Occurs(s, e) && Step(cfg, s, e) == None
    ensures EndsTold(Raised(cfg, s, e))
  {
    if e.OrderFrame? {
      var found := Resolve(s, e.state.cid, Some(e.state.venue));
      if found.Order? && Admitted(cfg, s, found.cid, e.op, e.state) {
        RaisedOrderEnds(cfg, s, found.cid, e.op, e.state, StagedFor(s.buffer, s.orders[found.cid], e.state, e.op));
      }
    }
  }

  lemma {:induction false} RunEnds(cfg: Config, events: seq<Event>)
    requires RunOn(cfg, events).Some?
    ensures EndsTold(RunOn(cfg, events).value)
  {
    if events != [] {
      var front, e := events[..|events| - 1], events[|events| - 1];
      var s := RunOnLast(cfg, events, front, e);
      RunEnds(cfg, front);
      RunOnKeeps(cfg, front);
      StepOnEnds(cfg, s, e);
    }
  }

  /** In every run, also through frames that raise, an order that was not rejected is settled exactly
      when its terminal is known and the fills add up to what it reports; and then, and only then, a
      cancel is published if it ended short. */
  lemma SettledIff(cfg: Config, events: seq<Event>, s: Stream, c: int)
    requires RunOn(cfg, events) == Some(s) && c in s.orders && s.orders[c].rejection == None
    ensures
      var l := s.orders[c];
      && (l.terminalEmitted <==>
            l.terminal.Some? && l.filled + Abs(l.terminal.value.remaining) == Abs(l.terminal.value.original))
      && (CanceledOrder(c) in s.log <==> l.terminalEmitted && EndsShort(l.terminal.value))
      && (l.terminalEmitted ==> l.pendingModify == None)
  {
    RunEnds(cfg, events);
    RunOnKeeps(cfg, events);
    assert EndTold(s, c);
    SettledByInv(s, c);
  }

  lemma SettledByInv(s: Stream, c: int)
    requires Inv(s) && c in s.orders && s.orders[c].rejection == None
    ensures s.orders[c].terminalEmitted ==>
      s.orders[c].terminal.Some? && s.orders[c].filled == TerminalFilled(s.orders[c].terminal.value)
    ensures CanceledOrder(c) in s.log ==> s.orders[c].terminalEmitted
  {
    assert OrderKept(s, c);
    HistoryMeans(s.log, c);
  }
}
