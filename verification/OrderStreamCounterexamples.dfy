/** Three runs that raise nothing and yet break an expectation.

    A trade filled twice because the first order frame was `ou`, a trade filled twice because the
    venue named two orders for it, and a deadline that outlives its operation.  Each is built step by
    step, every step evaluated by a lemma of its own. */
module OrderStreamCounterexamples {
  import opened Rounding
  import opened OrderStream
  import opened OrderStreamRuns
  import opened OrderStreamFills

  const PAPER := Config("GOLD", true)
  const REDUCE := Terms(2, true, true, false, true)
  const RESTING := Terms(2, true, false, true, false)

  function Frame(venue: int, cid: int, remaining: int, terms: Terms, status: Status): OrderState {
    OrderState(venue, Some(cid), "GOLD", 0, remaining, 2, Kind(terms), false,
               if terms.postOnly then POST_ONLY_FLAG else if terms.reduceOnly then REDUCE_ONLY_FLAG else 0,
               None, status, "", 10)
  }

  function Execution(id: int, cid: Option<int>, venue: int, kind: OrderKind): Trade {
    Trade(id, cid, venue, "GOLD", 5, 1, 10, kind, 10, kind.Limit?, true, None, false)
  }

  function Final(t: Trade): Trade {
    t.(fee := Some(0), feeInUsd := true)
  }

  function Known(cid: int, terms: Terms, venue: int, filled: int): Live {
    NewOrder(cid, terms, 10).(flagsVerified := terms.reduceOnly, venue := Some(venue), accepted := true, filled := filled)
  }

  lemma RunExtends(cfg: Config, events: seq<Event>, s: Stream, e: Event, s': Stream)
    requires Run(cfg, EMPTY, events) == Some(s) && CanHappen(s, e) && Step(cfg, s, e) == Some(s')
    ensures Run(cfg, EMPTY, events + [e]) == Some(s')
  {
    assert (events + [e])[..|events|] == events;
  }

  // ---------------------------------------------------------------- single steps, evaluated

  predicate Quiet(x: Local) {
    x.live.unknown == {} && x.waiting == {} && x.live.pendingModify == None && x.live.terminal == None
    && !x.live.pendingCancel
  }

  lemma AcceptsFirst(x: Local, venue: int)
    requires Quiet(x) && !x.live.accepted && x.live.venue == None
    ensures Accept(x, venue) == Some(x.(live := x.live.(venue := Some(venue), accepted := true),
                                        bound := Some(venue), out := x.out + [Accepted(x.live.cid)]))
  {
    assert x.live.unknown - {Submit} == x.live.unknown && x.waiting - {Submit} == x.waiting;
  }

  lemma AcceptsAgain(x: Local, venue: int)
    requires Quiet(x) && x.live.accepted && x.live.venue == Some(venue)
    ensures Accept(x, venue) == Some(x.(bound := Some(venue)))
  {
    assert x.live.unknown - {Submit} == x.live.unknown && x.waiting - {Submit} == x.waiting;
  }

  lemma RecordsFill(x: Local, t: Trade, next: int)
    requires Quiet(x)
    ensures FinishTerminal(RecordFill(x, t, next))
      == Some(x.(live := x.live.(filled := next), out := x.out + [Filled(x.live.cid, t.id, Abs(t.quantity))]))
  {
    assert x.live.unknown - {Submit} == {} && x.waiting - {Submit} == {};
    assert x.live.unknown - {Cancel} == {} && x.waiting - {Cancel} == {};
  }

  lemma FillsAgain(x: Local, t: Trade)
    requires Quiet(x) && x.live.accepted && x.live.venue == Some(t.venue) && t.onGrid
    requires x.live.terms.reduceOnly ==> x.live.flagsVerified
    requires x.live.filled + Abs(t.quantity) <= x.live.terms.quantity
    ensures ApplyFill(x, t) == Some(x.(live := x.live.(filled := x.live.filled + Abs(t.quantity)), bound := Some(t.venue),
                                       out := x.out + [Filled(x.live.cid, t.id, Abs(t.quantity))]))
  {
    AcceptsAgain(x, t.venue);
    RecordsFill(x.(bound := Some(t.venue)), t, x.live.filled + Abs(t.quantity));
  }

  lemma FillsFirst(x: Local, t: Trade)
    requires Quiet(x) && !x.live.accepted && x.live.venue == None && t.onGrid && !x.live.terms.reduceOnly
    requires x.live.filled + Abs(t.quantity) <= x.live.terms.quantity
    ensures ApplyFill(x, t) == Some(x.(live := x.live.(filled := x.live.filled + Abs(t.quantity), venue := Some(t.venue), accepted := true),
                                       bound := Some(t.venue),
                                       out := x.out + [Accepted(x.live.cid), Filled(x.live.cid, t.id, Abs(t.quantity))]))
  {
    AcceptsFirst(x, t.venue);
    var a := Accept(x, t.venue).value;
    RecordsFill(a, t, x.live.filled + Abs(t.quantity));
    assert a.out + [Filled(x.live.cid, t.id, Abs(t.quantity))]
        == x.out + [Accepted(x.live.cid), Filled(x.live.cid, t.id, Abs(t.quantity))];
  }

  // With no deadline open, committing an order's work only adds to the stream.
  lemma CommitsQuietly(s: Stream, c: int, y: Local)
    requires s.deadlines == {} && y.waiting == {}
    ensures Commit(s, c, y) == s.(orders := s.orders[c := y.live], log := s.log + y.out,
                                  byVenue := if y.bound.Some? then s.byVenue[y.bound.value := c] else s.byVenue)
  {
  }

  // A settled order has nothing to wait for.
  lemma QuietStart(s: Stream, c: int)
    requires c in s.orders && s.deadlines == {}
    ensures Of(s, c) == Local(s.orders[c], {}, None, [])
  {
  }

  lemma Submits(s: Stream, c: int, terms: Terms)
    requires c !in s.orders && s.deadlines == {} && terms.quantity > 0 && Supported(terms)
    ensures CanHappen(s, SubmitCommand(c, terms, 10))
    ensures Step(PAPER, s, SubmitCommand(c, terms, 10))
      == Some(s.(orders := s.orders[c := NewOrder(c, terms, 10)], sending := s.sending + multiset{(c, Submit)}))
  {
  }

  // An interim execution that finds no flags, or no order, is buffered.
  lemma Buffers(s: Stream, t: Trade)
    requires s.buffer == [] && t.id !in s.seen && t.id !in s.interim
    requires
      var found := Resolve(s, t.cid, Some(t.venue));
      || (found == NoOrder && t == Execution(7, None, 9, Ioc))
      || (found.Order? && s.orders[found.cid] == NewOrder(1, REDUCE, 10) && t == Execution(7, Some(1), 9, Ioc))
    ensures Step(PAPER, s, InterimFrame(t)) == Some(s.(buffer := [t]))
  {
    assert FindBuffered(s.buffer, t.id) == None;
    assert s.buffer + [t] == [t];
    assert BufferInterim(s, t) == Some(s.(buffer := [t]));
  }

  // A final update fills an order.
  lemma UpdateFills(s: Stream, t: Trade, c: int, y: Local)
    requires Resolve(s, t.cid, Some(t.venue)) == Order(c) && t.id !in s.seen && t.id !in s.interim
    requires s.orders[c].rejection == None && TradeValid(PAPER, s.orders[c], t) && ApplyFill(Of(s, c), t) == Some(y)
    ensures Step(PAPER, s, TradeFrame(t)) == Some(Commit(s, c, y).(seen := s.seen[t.id := t]))
  {
  }

  // An `on` frame releases the one buffered execution under its venue ID.
  lemma OnReleases(s: Stream, c: int, t: Trade, x: Local, y: Local)
    requires c in s.orders && s.orders[c].cid == c && s.orders[c].terms == REDUCE && s.orders[c].filled <= 1
    requires s.orders[c].terminal == None && s.orders[c].rejection == None && s.orders[c].currentPrice == 10
    requires s.orders[c].knownPrices == {10} && s.buffer == [t]
    requires t == Execution(7, t.cid, 9, Ioc) && (t.cid == None || t.cid == Some(c))
    requires Resolve(s, Some(c), Some(9)) == Order(c)
    requires x == Of(s, c).(live := s.orders[c].(flagsVerified := true))
    requires AcceptAndAck(x, 9, 10).Some? && ApplyFill(AcceptAndAck(x, 9, 10).value, t) == Some(y)
    ensures Step(PAPER, s, OrderFrame(On, Frame(9, c, 2, REDUCE, Active)))
      == Some(Commit(s, c, y).(interim := s.interim[7 := t], buffer := []))
  {
    var state := Frame(9, c, 2, REDUCE, Active);
    var l := s.orders[c];
    OneIsStaged(l, c, t, state);
    OneIsReleased(x, state, t, AcceptAndAck(x, 9, 10).value, y);
    OneIsTaken(s.interim, t);
    assert AdoptOrder(s, c, x, On, state, [t]) == Some(Commit(s, c, y).(interim := s.interim[7 := t], buffer := []));
  }

  lemma OneIsStaged(l: Live, c: int, t: Trade, state: OrderState)
    requires l.cid == c && l.terms == REDUCE && l.filled <= 1 && l.knownPrices == {10} && l.currentPrice == 10
    requires t == Execution(7, t.cid, 9, Ioc) && (t.cid == None || t.cid == Some(c)) && state == Frame(9, c, 2, REDUCE, Active)
    ensures StagedFor([t], l, state, On) == [t] && StagedValid(PAPER, l, state, On, [t]) && OrderStateValid(PAPER, l, state, On)
  {
    assert StagedFor([t][1..], l, state, On) == [];
    assert StagedTradeValid(PAPER, l, state, On, t);
    assert Quantities([t][1..]) == 0;
  }

  lemma OneIsReleased(x: Local, state: OrderState, t: Trade, a: Local, y: Local)
    requires AcceptAndAck(x, state.venue, state.price) == Some(a) && ApplyFill(a, t) == Some(y)
    ensures Adopt(x, On, state, [t]) == Some(y)
  {
    assert Release(y, [t][1..]) == Some(y);
  }

  lemma OneIsTaken(interim: map<int, Trade>, t: Trade)
    ensures WithInterims(interim, [t]) == interim[t.id := t] && Without([t], [t]) == []
  {
    assert WithInterims(interim[t.id := t], [t][1..]) == interim[t.id := t];
    assert FindBuffered([t], t.id) == Some(t);
    assert Without([t][1..], [t]) == [];
  }

  // An order frame that claims no buffered trade.
  lemma FrameAdopts(s: Stream, c: int, op: OrderOp, state: OrderState, x: Local, y: Local)
    requires Resolve(s, state.cid, Some(state.venue)) == Order(c)
    requires s.orders[c].terminal == None && s.orders[c].rejection == None && OrderStateValid(PAPER, s.orders[c], state, op)
    requires StagedFor(s.buffer, s.orders[c], state, op) == [] && Without(s.buffer, []) == s.buffer
    requires op.Oc? ==> Disposable(state)
    requires !InitialRejection(state.status) && x == Of(s, c).(live := s.orders[c].(flagsVerified := true))
    requires Adopt(x, op, state, []) == Some(y)
    ensures Step(PAPER, s, OrderFrame(op, state)) == Some(Commit(s, c, y))
  {
    assert WithInterims(s.interim, []) == s.interim;
  }

  // ---------------------------------------------------------------- `ou` first

  lemma UpdateVerifiesFlags(s: Stream, t: Trade)
    requires s.orders == map[1 := NewOrder(1, REDUCE, 10)] && s.byVenue == map[] && s.deadlines == {} && s.log == []
    requires t == Execution(7, Some(1), 9, Ioc) && s.buffer == [t] && s.interim == map[]
    ensures Step(PAPER, s, OrderFrame(Ou, Frame(9, 1, 2, REDUCE, PartiallyFilled)))
      == Some(s.(orders := map[1 := Known(1, REDUCE, 9, 0)], byVenue := map[9 := 1], log := [Accepted(1)]))
  {
    var state := Frame(9, 1, 2, REDUCE, PartiallyFilled);
    var l := s.orders[1];
    assert StagedFor(s.buffer, l, state, Ou) == [] by {
      assert StagedFor(s.buffer[1..], l, state, Ou) == [];
    }
    var x := Of(s, 1).(live := l.(flagsVerified := true));
    var y := Local(Known(1, REDUCE, 9, 0), {}, Some(9), [Accepted(1)]);
    assert WaitingOn(s.deadlines, 1) == {};
    AcceptsFirst(x, 9);
    assert x.out + [Accepted(1)] == [Accepted(1)];
    assert Accept(x, 9) == Some(y);
    assert AcceptAndAck(x, 9, 10) == Some(y);
    assert Release(y, []) == Some(y);
    assert Adopt(x, Ou, state, []) == Some(y);
    assert WithInterims(s.interim, []) == s.interim;
    assert Without(s.buffer, []) == s.buffer by {
      assert Without(s.buffer[1..], []) == [];
    }
    assert Commit(s, 1, y).deadlines == {} && Commit(s, 1, y).log == [Accepted(1)];
    assert Commit(s, 1, y).orders == map[1 := Known(1, REDUCE, 9, 0)];
    FrameAdopts(s, 1, Ou, state, x, y);
  }

  lemma UpdateFirstStarts(t: Trade) returns (events: seq<Event>, s: Stream)
    requires t == Execution(7, Some(1), 9, Ioc)
    ensures Run(PAPER, EMPTY, events) == Some(s)
    ensures s.orders == map[1 := Known(1, REDUCE, 9, 0)] && s.byVenue == map[9 := 1] && s.deadlines == {}
    ensures s.log == [Accepted(1)] && s.seen == map[] && s.interim == map[] && s.buffer == [t]
  {
    var e1, e2 := SubmitCommand(1, REDUCE, 10), InterimFrame(t);
    var e3 := OrderFrame(Ou, Frame(9, 1, 2, REDUCE, PartiallyFilled));
    var s1 := EMPTY.(orders := EMPTY.orders[1 := NewOrder(1, REDUCE, 10)], sending := EMPTY.sending + multiset{(1, Submit)});
    Submits(EMPTY, 1, REDUCE);
    RunExtends(PAPER, [], EMPTY, e1, s1);
    Buffers(s1, t);
    var s2 := s1.(buffer := [t]);
    RunExtends(PAPER, [] + [e1], s1, e2, s2);
    UpdateVerifiesFlags(s2, t);
    s := s2.(orders := map[1 := Known(1, REDUCE, 9, 0)], byVenue := map[9 := 1], log := [Accepted(1)]);
    RunExtends(PAPER, [] + [e1] + [e2], s2, e3, s);
    events := [] + [e1] + [e2] + [e3];
  }

  /** `ou` verifies the flags but leaves the buffered execution behind; the final update fills it,
      and the later `on` releases it again. */
  lemma UpdateFirstFillsTwice() returns (events: seq<Event>, s: Stream)
    ensures Run(PAPER, EMPTY, events) == Some(s)
    ensures s.log == [Accepted(1), Filled(1, 7, 1), Filled(1, 7, 1)]
  {
    var t := Execution(7, Some(1), 9, Ioc);
    var e4, e5 := TradeFrame(Final(t)), OrderFrame(On, Frame(9, 1, 2, REDUCE, Active));
    var start, s3 := UpdateFirstStarts(t);
    var s4 := FinalFills(s3, t);
    RunExtends(PAPER, start, s3, e4, s4);
    s := OnFillsAgain(s4, t);
    RunExtends(PAPER, start + [e4], s4, e5, s);
    events := start + [e4] + [e5];
  }

  lemma FinalFills(s: Stream, t: Trade) returns (s': Stream)
    requires s.orders == map[1 := Known(1, REDUCE, 9, 0)] && s.byVenue == map[9 := 1] && s.deadlines == {}
    requires s.log == [Accepted(1)] && s.seen == map[] && s.interim == map[]
    requires t == Execution(7, Some(1), 9, Ioc) && s.buffer == [t]
    ensures s' == s.(orders := map[1 := Known(1, REDUCE, 9, 1)], log := [Accepted(1), Filled(1, 7, 1)], seen := s'.seen)
    ensures Step(PAPER, s, TradeFrame(Final(t))) == Some(s')
  {
    QuietStart(s, 1);
    FillsAgain(Of(s, 1), Final(t));
    var y := ApplyFill(Of(s, 1), Final(t)).value;
    FinalIsFound(s, t);
    UpdateFills(s, Final(t), 1, y);
    CommitsQuietly(s, 1, y);
    s' := Commit(s, 1, y).(seen := s.seen[7 := Final(t)]);
  }

  lemma FinalIsFound(s: Stream, t: Trade)
    requires s.orders == map[1 := Known(1, REDUCE, 9, 0)] && s.byVenue == map[9 := 1] && t == Execution(7, Some(1), 9, Ioc)
    ensures Resolve(s, Some(1), Some(9)) == Order(1) && TradeValid(PAPER, s.orders[1], Final(t))
  {
  }

  lemma OnFillsAgain(s: Stream, t: Trade) returns (s': Stream)
    requires s.orders == map[1 := Known(1, REDUCE, 9, 1)] && s.byVenue == map[9 := 1] && s.deadlines == {}
    requires s.log == [Accepted(1), Filled(1, 7, 1)] && t == Execution(7, Some(1), 9, Ioc) && s.buffer == [t]
    ensures Step(PAPER, s, OrderFrame(On, Frame(9, 1, 2, REDUCE, Active))) == Some(s')
    ensures s'.log == [Accepted(1), Filled(1, 7, 1), Filled(1, 7, 1)]
  {
    QuietStart(s, 1);
    var x := Of(s, 1).(live := s.orders[1].(flagsVerified := true));
    AcceptsAgain(x, 9);
    var a := Accept(x, 9).value;
    FillsAgain(a, t);
    var y := ApplyFill(a, t).value;
    OnReleases(s, 1, t, x, y);
    CommitsQuietly(s, 1, y);
    s' := Commit(s, 1, y).(interim := s.interim[7 := t], buffer := []);
  }

  // ---------------------------------------------------------------- one trade ID, two venue orders

  /** An execution is buffered under one venue order and then filled under another; the first
      venue order's `on` fills its trade ID again.  No `ou` frame is involved. */
  lemma TwoVenuesFillTwice() returns (events: seq<Event>, s: Stream)
    ensures Run(PAPER, EMPTY, events) == Some(s)
    ensures s.log == [Accepted(1), Filled(1, 7, 1), Accepted(2), Filled(2, 7, 1)]
  {
    var t := Execution(7, None, 9, Ioc);
    var u := Final(Execution(7, Some(1), 8, Limit));
    var e1, e2, e3 := InterimFrame(t), SubmitCommand(1, RESTING, 10), TradeFrame(u);
    var e4, e5 := SubmitCommand(2, REDUCE, 10), OrderFrame(On, Frame(9, 2, 2, REDUCE, Active));
    Buffers(EMPTY, t);
    var s1 := EMPTY.(buffer := [t]);
    RunExtends(PAPER, [], EMPTY, e1, s1);
    var s2 := s1.(orders := s1.orders[1 := NewOrder(1, RESTING, 10)], sending := s1.sending + multiset{(1, Submit)});
    Submits(s1, 1, RESTING);
    RunExtends(PAPER, [e1], s1, e2, s2);
    var s3 := RestingFills(s2, u);
    RunExtends(PAPER, [e1] + [e2], s2, e3, s3);
    var s4 := s3.(orders := s3.orders[2 := NewOrder(2, REDUCE, 10)], sending := s3.sending + multiset{(2, Submit)});
    Submits(s3, 2, REDUCE);
    RunExtends(PAPER, [e1] + [e2] + [e3], s3, e4, s4);
    s := OnFillsFirst(s4, t);
    RunExtends(PAPER, [e1] + [e2] + [e3] + [e4], s4, e5, s);
    events := [e1] + [e2] + [e3] + [e4] + [e5];
  }

  lemma RestingFills(s: Stream, u: Trade) returns (s': Stream)
    requires s.orders == map[1 := NewOrder(1, RESTING, 10)] && s.byVenue == map[] && s.deadlines == {}
    requires s.log == [] && s.seen == map[] && s.interim == map[] && u == Final(Execution(u.id, Some(1), 8, Limit))
    ensures s' == s.(orders := map[1 := Known(1, RESTING, 8, 1)], byVenue := map[8 := 1],
                     log := [Accepted(1), Filled(1, u.id, 1)], seen := map[u.id := u])
    ensures Step(PAPER, s, TradeFrame(u)) == Some(s')
  {
    QuietStart(s, 1);
    FillsFirst(Of(s, 1), u);
    var y := ApplyFill(Of(s, 1), u).value;
    RestingIsFound(s, u);
    UpdateFills(s, u, 1, y);
    CommitsQuietly(s, 1, y);
    s' := Commit(s, 1, y).(seen := s.seen[u.id := u]);
  }

  lemma RestingIsFound(s: Stream, u: Trade)
    requires s.orders == map[1 := NewOrder(1, RESTING, 10)] && s.byVenue == map[]
    requires u == Final(Execution(u.id, Some(1), 8, Limit))
    ensures Resolve(s, Some(1), Some(8)) == Order(1) && TradeValid(PAPER, s.orders[1], u)
  {
  }

  lemma SecondIsFound(s: Stream)
    requires s.orders == map[1 := Known(1, RESTING, 8, 1)][2 := NewOrder(2, REDUCE, 10)] && s.byVenue == map[8 := 1]
    ensures Resolve(s, Some(2), Some(9)) == Order(2) && s.orders[2] == NewOrder(2, REDUCE, 10)
  {
  }

  lemma OnFillsFirst(s: Stream, t: Trade) returns (s': Stream)
    requires s.orders == map[1 := Known(1, RESTING, 8, 1)][2 := NewOrder(2, REDUCE, 10)] && s.byVenue == map[8 := 1]
    requires s.deadlines == {} && s.log == [Accepted(1), Filled(1, 7, 1)]
    requires t == Execution(7, None, 9, Ioc) && s.buffer == [t]
    ensures Step(PAPER, s, OrderFrame(On, Frame(9, 2, 2, REDUCE, Active))) == Some(s')
    ensures s'.log == [Accepted(1), Filled(1, 7, 1), Accepted(2), Filled(2, 7, 1)]
  {
    QuietStart(s, 2);
    var x := Of(s, 2).(live := s.orders[2].(flagsVerified := true));
    SecondIsFound(s);
    AcceptsFirst(x, 9);
    var a := Accept(x, 9).value;
    FillsAgain(a, t);
    var y := ApplyFill(a, t).value;
    OnReleases(s, 2, t, x, y);
    CommitsQuietly(s, 2, y);
    s' := Commit(s, 2, y).(interim := s.interim[7 := t], buffer := []);
  }

  // ---------------------------------------------------------------- a deadline left behind

  /** The terminal arrives while a modify is being sent, with a fill still missing.  The send then
      returns and starts a deadline, and the last fill settles the order without resolving it. */
  lemma LateModifyLeavesDeadline() returns (events: seq<Event>, s: Stream)
    ensures Run(PAPER, EMPTY, events) == Some(s) && 1 in s.orders
    ensures (1, Modify) in s.deadlines && !IsPending(s.orders[1], Modify) && s.orders[1].terminalEmitted
  {
    var u, w := Final(Execution(7, Some(1), 8, Limit)), Final(Execution(8, Some(1), 8, Limit));
    var oc := Frame(8, 1, 0, RESTING, Executed);
    var e1, e2, e3 := SubmitCommand(1, RESTING, 10), TradeFrame(u), ModifyCommand(1, Some(20), false);
    var e4, e5, e6 := OrderFrame(Oc, oc), SendReturns(1, Modify, Sent), TradeFrame(w);
    var s1 := EMPTY.(orders := EMPTY.orders[1 := NewOrder(1, RESTING, 10)], sending := EMPTY.sending + multiset{(1, Submit)});
    Submits(EMPTY, 1, RESTING);
    RunExtends(PAPER, [], EMPTY, e1, s1);
    var s2 := RestingFills(s1, u);
    RunExtends(PAPER, [e1], s1, e2, s2);
    var s3 := ModifyStarts(s2);
    RunExtends(PAPER, [e1] + [e2], s2, e3, s3);
    TerminalWaits(s3, oc);
    var s4 := s3.(orders := map[1 := s3.orders[1].(terminal := Some(oc), flagsVerified := true)]);
    RunExtends(PAPER, [e1] + [e2] + [e3], s3, e4, s4);
    var s5 := SendStartsDeadline(s4);
    RunExtends(PAPER, [e1] + [e2] + [e3] + [e4], s4, e5, s5);
    s := LastFillSettles(s5, w, oc);
    RunExtends(PAPER, [e1] + [e2] + [e3] + [e4] + [e5], s5, e6, s);
    events := [e1] + [e2] + [e3] + [e4] + [e5] + [e6];
  }

  lemma ModifyStarts(s: Stream) returns (s': Stream)
    requires s.orders == map[1 := Known(1, RESTING, 8, 1)] && s.deadlines == {}
    ensures Step(PAPER, s, ModifyCommand(1, Some(20), false)) == Some(s')
    ensures s' == s.(orders := map[1 := s.orders[1].(pendingModify := Some(20))], sending := s.sending + multiset{(1, Modify)})
  {
    s' := BeginSend(s, 1, s.orders[1].(pendingModify := Some(20)), Modify).value;
  }

  lemma SendStartsDeadline(s: Stream) returns (s': Stream)
    requires 1 in s.orders && s.orders[1].pendingModify.Some? && s.deadlines == {} && s.open
    requires (1, Modify) in s.sending
    ensures Step(PAPER, s, SendReturns(1, Modify, Sent)) == Some(s')
    ensures s' == s.(sending := s.sending - multiset{(1, Modify)}, deadlines := {(1, Modify)})
  {
    s' := EndSend(s, 1, Modify, Sent);
  }

  lemma TerminalWaits(s: Stream, oc: OrderState)
    requires s.orders == map[1 := Known(1, RESTING, 8, 1).(pendingModify := Some(20))] && s.byVenue == map[8 := 1]
    requires s.deadlines == {} && s.buffer == [] && oc == Frame(8, 1, 0, RESTING, Executed)
    ensures Step(PAPER, s, OrderFrame(Oc, oc))
      == Some(s.(orders := map[1 := s.orders[1].(terminal := Some(oc), flagsVerified := true)]))
  {
    var l := s.orders[1];
    QuietStart(s, 1);
    var x := Of(s, 1).(live := l.(flagsVerified := true));
    var y := x.(live := l.(flagsVerified := true, terminal := Some(oc)), bound := Some(8));
    TerminalAdopts(x, oc, y);
    TerminalIsValid(s, oc);
    FrameAdopts(s, 1, Oc, oc, x, y);
    CommitsQuietly(s, 1, y);
    OnlyOrderReplaced(s, l, y.live);
  }

  lemma OnlyOrderReplaced(s: Stream, l: Live, l': Live)
    requires s.orders == map[1 := l] && s.byVenue == map[8 := 1]
    ensures s.orders[1 := l'] == map[1 := l'] && s.log + [] == s.log && s.byVenue[8 := 1] == s.byVenue
  {
  }

  // Fills are still missing, so adopting the terminal publishes nothing.
  lemma TerminalAdopts(x: Local, oc: OrderState, y: Local)
    requires x == Local(Known(1, RESTING, 8, 1).(pendingModify := Some(20), flagsVerified := true), {}, None, [])
    requires oc == Frame(8, 1, 0, RESTING, Executed) && y == x.(live := x.live.(terminal := Some(oc)), bound := Some(8))
    ensures Adopt(x, Oc, oc, []) == Some(y)
  {
    assert x.live.unknown - {Submit} == {} && x.waiting - {Submit} == {};
    assert AcceptAndAck(x, 8, 10) == Some(x.(bound := Some(8)));
    assert TakeTerminal(x.(bound := Some(8)), oc) == y;
  }

  lemma TerminalIsValid(s: Stream, oc: OrderState)
    requires s.orders == map[1 := Known(1, RESTING, 8, 1).(pendingModify := Some(20))] && s.byVenue == map[8 := 1]
    requires s.buffer == [] && oc == Frame(8, 1, 0, RESTING, Executed)
    ensures Resolve(s, oc.cid, Some(oc.venue)) == Order(1) && OrderStateValid(PAPER, s.orders[1], oc, Oc)
    ensures StagedFor(s.buffer, s.orders[1], oc, Oc) == [] && Without(s.buffer, []) == s.buffer && Disposable(oc)
  {
  }

  lemma LastFillSettles(s: Stream, w: Trade, oc: OrderState) returns (s': Stream)
    requires oc == Frame(8, 1, 0, RESTING, Executed) && w == Final(Execution(8, Some(1), 8, Limit))
    requires s.orders == map[1 := Known(1, RESTING, 8, 1).(pendingModify := Some(20), terminal := Some(oc), flagsVerified := true)]
    requires s.byVenue == map[8 := 1] && s.deadlines == {(1, Modify)} && 8 !in s.seen && s.interim == map[]
    ensures Step(PAPER, s, TradeFrame(w)) == Some(s') && 1 in s'.orders
    ensures (1, Modify) in s'.deadlines && !IsPending(s'.orders[1], Modify) && s'.orders[1].terminalEmitted
  {
    var x := Of(s, 1);
    assert x.waiting == {Modify};
    assert x.live.unknown - {Submit} == {} && x.waiting - {Submit} == {Modify};
    assert x.live.unknown - {Cancel} == {} && x.waiting - {Cancel} == {Modify};
    var a := x.(bound := Some(8));
    assert AcceptAndAck(x, 8, 10) == Some(a);
    var y := FinishTerminal(RecordFill(a, w, 2)).value;
    assert ApplyFill(x, w) == Some(y) && Modify in y.waiting;
    UpdateFills(s, w, 1, y);
    s' := Commit(s, 1, y).(seen := s.seen[8 := w]);
  }
}
