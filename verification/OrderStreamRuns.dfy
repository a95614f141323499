/** Whole runs of the private stream: any interleaving of frames, commands, send outcomes,
    deadlines and the closing of the stream. */
module OrderStreamRuns {
  // A step works on one order; these lemmas carry the invariant of that order, and of all the
  // others, through every kind of step, and read the run-level promises off it.

  import opened Rounding
  import opened OrderStream
  import opened OrderStreamSafety

  // ---------------------------------------------------------------- sends and deadlines

  // The send of `op` is over and its outcome is unknown, awaited or already settled.
  lemma SendEnds(x: Local, y: Local, op: Operation, h: History, sending: set<Operation>, rest: set<Operation>)
    requires LocalInv(x, h, sending) && sending - {op} <= rest
    requires y == x.(live := x.live.(unknown := x.live.unknown + {op}))
          || (y == x.(waiting := x.waiting + {op}) && IsPending(x.live, op))
          || (y == x && !IsPending(x.live, op))
    ensures LocalInv(y, h, rest)
  {
    forall o ensures Remembered(y.live, y.waiting, rest, o) {
      assert Remembered(x.live, x.waiting, sending, o) by {
        assert o == Submit || o == Modify || o == Cancel;
      }
      assert IsPending(y.live, o) == IsPending(x.live, o);
    }
  }

  lemma WaitingAdds(deadlines: set<Key>, c: int, op: Operation)
    ensures WaitingOn(deadlines + {(c, op)}, c) == WaitingOn(deadlines, c) + {op}
  {
  }

  lemma SendingDrops(sending: multiset<Key>, c: int, op: Operation)
    ensures SendingOn(sending, c) - {op} <= SendingOn(sending - multiset{(c, op)}, c)
  {
  }

  lemma EndSendOwn(s: Stream, c: int, op: Operation, outcome: SendOutcome)
    requires c in s.orders
    ensures OwnChange(s, EndSend(s, c, op, outcome), c)
  {
    var sent := s.(sending := s.sending - multiset{(c, op)});
    SentOwn(s, sent, c, op);
    UnknownOwn(s, sent, c, op);
  }

  lemma SentOwn(s: Stream, sent: Stream, c: int, op: Operation)
    requires c in s.orders && sent == s.(sending := s.sending - multiset{(c, op)})
    ensures OwnChange(s, sent, c) && OwnChange(s, sent.(deadlines := sent.deadlines + {(c, op)}), c)
  {
  }

  lemma UnknownOwn(s: Stream, sent: Stream, c: int, op: Operation)
    requires c in s.orders && sent == s.(sending := s.sending - multiset{(c, op)})
    ensures OwnChange(s, MarkUnknown(sent, c, op), c)
  {
  }

  lemma EndSendKeepsOrder(s: Stream, c: int, op: Operation, outcome: SendOutcome)
    requires c in s.orders && OrderKept(s, c)
    ensures OrderKept(EndSend(s, c, op, outcome), c)
  {
    var s' := EndSend(s, c, op, outcome);
    WaitingAdds(s.deadlines, c, op);
    SendingDrops(s.sending, c, op);
    SendEnds(Of(s, c), Of(s', c), op, HistoryOf(s.log, c), SendingOf(s, c), SendingOf(s', c));
  }

  lemma EndSendKeeps(s: Stream, c: int, op: Operation, outcome: SendOutcome)
    requires Inv(s) && c in s.orders
    ensures Inv(EndSend(s, c, op, outcome))
  {
    assert OrderKept(s, c);
    EndSendKeepsOrder(s, c, op, outcome);
    EndSendOwn(s, c, op, outcome);
    OwnChangeKeeps(s, EndSend(s, c, op, outcome), c);
  }

  lemma ExpireKeeps(s: Stream, c: int, op: Operation)
    requires Inv(s) && c in s.orders
    ensures Inv(ExpireDeadline(s, c, op))
  {
    if (c, op) in s.deadlines {
      var s' := ExpireDeadline(s, c, op);
      assert OrderKept(s, c);
      assert forall o :: o != op ==> (o in WaitingOn(s'.deadlines, c) <==> o in WaitingOn(s.deadlines, c));
      assert OrderKept(s', c);
      assert OwnChange(s, s', c);
      OwnChangeKeeps(s, s', c);
    }
  }

  // Closing an order's deadlines only moves operations from awaited to unknown.
  lemma ClosedOrderKept(cfg: Config, x: Local, h: History, sending: set<Operation>)
    requires LocalInv(x, h, sending)
    ensures
      var l := MarkSilent(cfg, x.live.(unknown := x.live.unknown + x.waiting));
      LocalInv(x.(live := l, waiting := {}), h, sending)
  {
  }

  lemma OneClosed(cfg: Config, s: Stream, c: int, s': Stream)
    requires c in s.orders && OrderKept(s, c) && s' == CloseStream(cfg, s)
    ensures OrderKept(s', c)
  {
    ClosedOrderKept(cfg, Of(s, c), HistoryOf(s.log, c), SendingOf(s, c));
    assert WaitingOn(s'.deadlines, c) == {};
    assert SendingOf(s', c) == SendingOf(s, c);
  }

  lemma CloseKeeps(cfg: Config, s: Stream)
    requires Inv(s)
    ensures Inv(CloseStream(cfg, s))
  {
    CloseKeepsOrders(cfg, s, CloseStream(cfg, s));
    CloseKeepsVenues(cfg, s, CloseStream(cfg, s));
  }

  lemma CloseKeepsOrders(cfg: Config, s: Stream, s': Stream)
    requires Inv(s) && s' == CloseStream(cfg, s)
    ensures forall c :: c in s'.orders ==> OrderKept(s', c)
  {
    forall c | c in s'.orders ensures OrderKept(s', c) {
      OneClosed(cfg, s, c, s');
    }
  }

  lemma CloseKeepsVenues(cfg: Config, s: Stream, s': Stream)
    requires KeysKept(s) && VenuesKept(s) && s' == CloseStream(cfg, s)
    ensures KeysKept(s') && VenuesKept(s')
  {
  }

  /** Closing leaves no deadline open and forgets none: each becomes an UNKNOWN outcome. */
  lemma CloseTurnsDeadlinesUnknown(cfg: Config, s: Stream)
    requires Inv(s)
    ensures CloseStream(cfg, s).deadlines == {} && !CloseStream(cfg, s).open
    ensures forall k :: k in s.deadlines ==>
      k.0 in CloseStream(cfg, s).orders && k.1 in CloseStream(cfg, s).orders[k.0].unknown
    ensures forall c :: c in s.orders && CanEndSilently(cfg, CloseStream(cfg, s).orders[c]) ==>
      Submit in CloseStream(cfg, s).orders[c].unknown
  {
    forall k | k in s.deadlines
      ensures k.0 in CloseStream(cfg, s).orders && k.1 in CloseStream(cfg, s).orders[k.0].unknown
    {
      assert k == (k.0, k.1);
    }
  }

  // ---------------------------------------------------------------- runs

  lemma StepKeeps(cfg: Config, s: Stream, e: Event)
    requires Inv(s) && CanHappen(s, e) && Step(cfg, s, e).Some?
    ensures Inv(Step(cfg, s, e).value)
  {
    match e
    case OrderFrame(op, state) => OrderFrameKeeps(cfg, s, op, state);
    case InterimFrame(t) => InterimFrameKeeps(cfg, s, t);
    case TradeFrame(t) => TradeFrameKeeps(cfg, s, t);
    case NoticeFrame(n) => NoticeFrameKeeps(s, n);
    case SubmitCommand(cid, terms, price) => SubmitKeeps(s, cid, terms, price);
    case ModifyCommand(cid, price, held) => CommandsKeep(s, cid, price, held);
    case CancelCommand(cid) => CommandsKeep(s, cid, None, false);
    case SendReturns(cid, op, outcome) => EndSendKeeps(s, cid, op, outcome);
    case DeadlineExpires(cid, op) => ExpireKeeps(s, cid, op);
    case Closes => CloseKeeps(cfg, s);
  }

  /** The state after the events, if each could happen and none raised. */
  function Run(cfg: Config, s: Stream, events: seq<Event>): Option<Stream>
    decreases |events|
  {
    if events == [] then Some(s)
    else
      var front := Run(cfg, s, events[..|events| - 1]);
      if front == None || !CanHappen(front.value, events[|events| - 1]) then None
      else Step(cfg, front.value, events[|events| - 1])
  }

  lemma {:induction false} RunKeeps(cfg: Config, events: seq<Event>)
    requires Run(cfg, EMPTY, events).Some?
    ensures Inv(Run(cfg, EMPTY, events).value)
    decreases |events|
  {
    if events != [] {
      RunKeeps(cfg, events[..|events| - 1]);
      StepKeeps(cfg, Run(cfg, EMPTY, events[..|events| - 1]).value, events[|events| - 1]);
    }
  }

  /** No run ever holds an order that the client does not support. */
  lemma EveryOrderIsSupported(cfg: Config, events: seq<Event>, s: Stream, c: int)
    requires Run(cfg, EMPTY, events) == Some(s) && c in s.orders
    ensures Supported(s.orders[c].terms)
  {
    RunKeeps(cfg, events);
    assert OrderKept(s, c);
  }

  function FillTotal(log: seq<Emission>, c: int): int {
    if log == [] then 0
    else
      var last := log[|log| - 1];
      FillTotal(log[..|log| - 1], c) + if last.Filled? && last.cid == c then last.quantity else 0
  }

  lemma {:induction false} SumIsFillTotal(log: seq<Emission>, c: int)
    ensures HistoryOf(log, c).sum == FillTotal(log, c)
  {
    if log != [] {
      SumIsFillTotal(log[..|log| - 1], c);
    }
  }

  ghost predicate FillAt(log: seq<Emission>, i: int, c: int) {
    0 <= i < |log| && log[i].Filled? && log[i].cid == c
  }

  /** The events published for an order: fills sum to the recorded quantity and never exceed the
      order; acceptance precedes the first fill; a rejection excludes fills; a cancel is published at
      most once, after every fill, and only when the fills sum to the quantity the terminal reports. */
  ghost predicate Consistent(s: Stream, c: int)
    requires c in s.orders
  {
    && FillTotal(s.log, c) == s.orders[c].filled <= s.orders[c].terms.quantity
    && (forall i :: FillAt(s.log, i, c) ==> exists j :: 0 <= j < i && s.log[j] == Accepted(c))
    && (Rejected(c) in s.log ==> forall i :: !FillAt(s.log, i, c))
    && (forall i, j :: 0 <= i < j < |s.log| && s.log[i] == CanceledOrder(c) ==>
          s.log[j] != CanceledOrder(c) && !FillAt(s.log, j, c))
    && (CanceledOrder(c) in s.log ==>
          s.orders[c].terminal.Some? && FillTotal(s.log, c) == TerminalFilled(s.orders[c].terminal.value))
  }

  lemma InvPublishes(s: Stream, c: int)
    requires Inv(s) && c in s.orders
    ensures Consistent(s, c)
  {
    assert OrderKept(s, c);
    HistoryMeans(s.log, c);
    SumIsFillTotal(s.log, c);
  }

  /** Over every run that raises nothing, what is published for an order is consistent. */
  lemma EveryRunPublishesConsistently(cfg: Config, events: seq<Event>, s: Stream, c: int)
    requires Run(cfg, EMPTY, events) == Some(s) && c in s.orders
    ensures Consistent(s, c)
  {
    RunKeeps(cfg, events);
    InvPublishes(s, c);
  }

  lemma InvRemembers(s: Stream, c: int, op: Operation)
    requires Inv(s) && c in s.orders
    ensures IsPending(s.orders[c], op) && s.orders[c].terminal == None ==>
      (c, op) in s.deadlines || op in s.orders[c].unknown || (c, op) in s.sending
    ensures (c, op) in s.deadlines ==>
      IsPending(s.orders[c], op) || (op == Modify && s.orders[c].terminal.Some?)
  {
    assert OrderKept(s, c);
    assert Remembered(s.orders[c], WaitingOn(s.deadlines, c), SendingOf(s, c), op);
  }

  /** A mutation in doubt is never forgotten: outside its own send, a pending operation of an
      order without a terminal has a deadline or an UNKNOWN mark.  Deadlines belong to pending
      operations, except for a modify of an order whose terminal is already known. */
  lemma EveryRunRemembersMutations(cfg: Config, events: seq<Event>, s: Stream, c: int, op: Operation)
    requires Run(cfg, EMPTY, events) == Some(s) && c in s.orders
    ensures IsPending(s.orders[c], op) && s.orders[c].terminal == None ==>
      (c, op) in s.deadlines || op in s.orders[c].unknown || (c, op) in s.sending
    ensures (c, op) in s.deadlines ==>
      IsPending(s.orders[c], op) || (op == Modify && s.orders[c].terminal.Some?)
  {
    RunKeeps(cfg, events);
    InvRemembers(s, c, op);
  }

  // ---------------------------------------------------------------- deadlines after a terminal

  /** Every deadline belongs to a pending operation of an order without a terminal. */
  ghost predicate DeadlinesPending(s: Stream) {
    forall k :: k in s.deadlines && k.0 in s.orders ==>
      IsPending(s.orders[k.0], k.1) && s.orders[k.0].terminal == None
  }

  predicate WaitsPending(x: Local) {
    forall op :: op in x.waiting ==> IsPending(x.live, op) && x.live.terminal == None
  }

  /** A modify whose send returns only after the order's terminal arrived. */
  predicate LateModify(s: Stream, e: Event) {
    && e.SendReturns? && e.op2 == Modify && e.outcome.Sent? && s.open
    && e.cid in s.orders && s.orders[e.cid].terminal.Some? && s.orders[e.cid].pendingModify.Some?
  }

  lemma AcceptAndAckWaits(x: Local, venue: int, price: int, y: Local)
    requires WaitsPending(x) && AcceptAndAck(x, venue, price) == Some(y)
    ensures WaitsPending(y) && y.live.terminal == x.live.terminal
  {
    assert WaitsPending(Accept(x, venue).value);
  }

  lemma RecordFillWaits(x: Local, t: Trade, next: int, y: Local)
    requires WaitsPending(x) && FinishTerminal(RecordFill(x, t, next)) == Some(y)
    ensures WaitsPending(y)
  {
    assert WaitsPending(RecordFill(x, t, next));
  }

  lemma ApplyFillWaits(x: Local, t: Trade, y: Local)
    requires WaitsPending(x) && ApplyFill(x, t) == Some(y)
    ensures WaitsPending(y)
  {
    var ready := AcceptAndAck(x, t.venue, t.orderPrice).value;
    AcceptAndAckWaits(x, t.venue, t.orderPrice, ready);
    RecordFillWaits(ready, t, x.live.filled + Abs(t.quantity), y);
  }

  lemma {:induction false} ReleaseWaits(x: Local, staged: seq<Trade>)
    requires WaitsPending(x)
    ensures Release(x, staged).Some? ==> WaitsPending(Release(x, staged).value)
    decreases |staged|
  {
    if staged != [] && ApplyFill(x, staged[0]).Some? {
      ApplyFillWaits(x, staged[0], ApplyFill(x, staged[0]).value);
      ReleaseWaits(ApplyFill(x, staged[0]).value, staged[1..]);
    }
  }

  lemma AdoptWaits(x: Local, op: OrderOp, state: OrderState, staged: seq<Trade>)
    requires WaitsPending(x)
    ensures Adopt(x, op, state, staged).Some? ==> WaitsPending(Adopt(x, op, state, staged).value)
  {
    if Adopt(x, op, state, staged).Some? {
      var x2 := AcceptAndAck(x, state.venue, state.price).value;
      AcceptAndAckWaits(x, state.venue, state.price, x2);
      ReleaseWaits(if op.Oc? then TakeTerminal(x2, state) else x2, staged);
    }
  }

  lemma CommitWaits(s: Stream, c: int, x: Local)
    requires DeadlinesPending(s) && c in s.orders && WaitsPending(x)
    ensures DeadlinesPending(Commit(s, c, x))
  {
  }

  lemma OfWaits(s: Stream, c: int)
    requires DeadlinesPending(s) && c in s.orders
    ensures WaitsPending(Of(s, c))
  {
    forall op | op in Of(s, c).waiting ensures IsPending(s.orders[c], op) && s.orders[c].terminal == None {
      assert (c, op) in s.deadlines;
    }
  }

  lemma FramesWait(cfg: Config, s: Stream, e: Event)
    requires DeadlinesPending(s)
    requires e.OrderFrame? || e.InterimFrame? || e.TradeFrame? || e.NoticeFrame?
    requires Step(cfg, s, e).Some?
    ensures DeadlinesPending(Step(cfg, s, e).value)
  {
    match e
    case OrderFrame(op, state) => OrderFrameWaits(cfg, s, op, state);
    case InterimFrame(t) => InterimFrameWaits(cfg, s, t);
    case TradeFrame(t) => TradeFrameWaits(cfg, s, t);
    case NoticeFrame(n) => NoticeWaits(s, n);
  }

  lemma OrderFrameWaits(cfg: Config, s: Stream, op: OrderOp, state: OrderState)
    requires DeadlinesPending(s) && HandleOrder(cfg, s, op, state).Some?
    ensures DeadlinesPending(HandleOrder(cfg, s, op, state).value)
  {
    var found := Resolve(s, state.cid, Some(state.venue));
    if found.Order? && s.orders[found.cid].terminal == None {
      var c := found.cid;
      OfWaits(s, c);
      var x := Of(s, c).(live := s.orders[c].(flagsVerified := true));
      var staged := StagedFor(s.buffer, s.orders[c], state, op);
      if x.live.rejection.Some? {
        CommitWaits(s, c, x);
      } else if InitialRejection(state.status) && !x.live.accepted && TerminalFilled(state) == 0 {
        CommitWaits(s, c, RejectByStatus(x, state));
      } else {
        AdoptWaits(x, op, state, staged);
        CommitWaits(s, c, Adopt(x, op, state, staged).value);
      }
    }
  }

  lemma InterimFrameWaits(cfg: Config, s: Stream, t: Trade)
    requires DeadlinesPending(s)
    ensures HandleInterim(cfg, s, t).Some? ==> DeadlinesPending(HandleInterim(cfg, s, t).value)
  {
    var found := Resolve(s, t.cid, Some(t.venue));
    if found.Order? {
      FillWaits(s, found.cid, t);
    }
  }

  lemma TradeFrameWaits(cfg: Config, s: Stream, t: Trade)
    requires DeadlinesPending(s)
    ensures HandleTrade(cfg, s, t).Some? ==> DeadlinesPending(HandleTrade(cfg, s, t).value)
  {
    var found := Resolve(s, t.cid, Some(t.venue));
    if found.Order? {
      FillWaits(s, found.cid, t);
    }
  }

  lemma FillWaits(s: Stream, c: int, t: Trade)
    requires DeadlinesPending(s) && c in s.orders
    ensures ApplyFill(Of(s, c), t).Some? ==> DeadlinesPending(Commit(s, c, ApplyFill(Of(s, c), t).value))
    ensures FinishTerminal(Of(s, c)).Some? ==> DeadlinesPending(Commit(s, c, FinishTerminal(Of(s, c)).value))
  {
    OfWaits(s, c);
    if FinishTerminal(Of(s, c)).Some? {
      CommitWaits(s, c, FinishTerminal(Of(s, c)).value);
    }
    if ApplyFill(Of(s, c), t).Some? {
      ApplyFillWaits(Of(s, c), t, ApplyFill(Of(s, c), t).value);
      CommitWaits(s, c, ApplyFill(Of(s, c), t).value);
    }
  }

  lemma NoticeWaits(s: Stream, n: Notice)
    requires DeadlinesPending(s) && HandleNotice(s, n).Some?
    ensures DeadlinesPending(HandleNotice(s, n).value)
  {
    var found := Resolve(s, n.cid, n.venue);
    if !n.success && found.Order? && s.orders[found.cid].rejection == None {
      OfWaits(s, found.cid);
      var y := NoticeFor(Of(s, found.cid), n.op, ByNotice(n.status, n.code, n.text)).value;
      CommitWaits(s, found.cid, y);
    }
  }

  lemma ModifyWaits(s: Stream, c: int, price: Option<int>, held: bool)
    requires c in s.orders && DeadlinesPending(s)
    ensures ModifyOrder(s, c, price, held).Some? ==> DeadlinesPending(ModifyOrder(s, c, price, held).value)
  {
  }

  lemma CancelWaits(s: Stream, c: int)
    requires c in s.orders && DeadlinesPending(s)
    ensures CancelOrder(s, c).Some? ==> DeadlinesPending(CancelOrder(s, c).value)
  {
  }

  /** A step leaves a deadline behind a terminal exactly when a modify's send returns late. */
  lemma DeadlinesStayPendingIff(cfg: Config, s: Stream, e: Event)
    requires Inv(s) && DeadlinesPending(s) && CanHappen(s, e) && Step(cfg, s, e).Some?
    ensures DeadlinesPending(Step(cfg, s, e).value) <==> !LateModify(s, e)
  {
    match e
    case SubmitCommand(cid, terms, price) => assert forall k :: k in s.deadlines ==> k.0 in s.orders;
    case ModifyCommand(cid, price, held) => ModifyWaits(s, cid, price, held);
    case CancelCommand(cid) => CancelWaits(s, cid);
    case SendReturns(cid, op, outcome) =>
      assert OrderKept(s, cid);
      EndSendWaits(s, cid, op, outcome);
    case DeadlineExpires(cid, op) => ExpireWaits(s, cid, op);
    case Closes =>
    case _ => FramesWait(cfg, s, e);
  }

  lemma ExpireWaits(s: Stream, c: int, op: Operation)
    requires c in s.orders && DeadlinesPending(s)
    ensures DeadlinesPending(ExpireDeadline(s, c, op))
  {
  }

  lemma EndSendWaits(s: Stream, c: int, op: Operation, outcome: SendOutcome)
    requires c in s.orders && OrderKept(s, c) && DeadlinesPending(s)
    ensures DeadlinesPending(EndSend(s, c, op, outcome)) <==> !LateModify(s, SendReturns(c, op, outcome))
  {
    var s' := EndSend(s, c, op, outcome);
    if LateModify(s, SendReturns(c, op, outcome)) {
      assert (c, op) in s'.deadlines;
    }
  }

  /** Without late modifies, every deadline of every run belongs to a pending operation. */
  lemma {:induction false} DeadlinesPendingInRun(cfg: Config, events: seq<Event>)
    requires Run(cfg, EMPTY, events).Some?
    requires forall n :: 0 <= n < |events| && Run(cfg, EMPTY, events[..n]).Some? ==>
      !LateModify(Run(cfg, EMPTY, events[..n]).value, events[n])
    ensures DeadlinesPending(Run(cfg, EMPTY, events).value)
    decreases |events|
  {
    if events != [] {
      var front := events[..|events| - 1];
      assert forall n :: 0 <= n <= |front| ==> front[..n] == events[..n];
      DeadlinesPendingInRun(cfg, front);
      RunKeeps(cfg, front);
      DeadlinesStayPendingIff(cfg, Run(cfg, EMPTY, front).value, events[|events| - 1]);
    }
  }
}
