/** What every step of the private stream keeps, for the order it works on and for all others.

    The published events are judged by a small observer: its verdict on a prefix of the log says
    that acceptance came first, what was filled, and whether a rejection or a cancel was published.
    The invariant ties each order's record to that verdict. */
module OrderStreamSafety {
  import opened Rounding
  import opened OrderStream

  // ---------------------------------------------------------------- the published history

  /** The published events of one order, read by an observer that turns `ok` off at the first
      event out of place: a second acceptance, a fill before acceptance or after the terminal,
      anything after a rejection. */
  datatype History = History(ok: bool, accepted: bool, rejected: bool, canceled: bool, sum: int)

  const FRESH := History(true, false, false, false, 0)

  function Observe(h: History, e: Emission, c: int): History {
    if e.cid != c then h
    else
      match e
      case Accepted(_) => h.(ok := h.ok && !h.accepted && !h.rejected, accepted := true)
      case Rejected(_) => h.(ok := h.ok && !h.accepted && !h.rejected, rejected := true)
      case Filled(_, _, quantity) =>
        h.(ok := h.ok && h.accepted && !h.rejected && !h.canceled && quantity > 0, sum := h.sum + quantity)
      case CanceledOrder(_) =>
        h.(ok := h.ok && h.accepted && !h.rejected && !h.canceled, canceled := true)
      case _ => h
  }

  function Fold(h: History, log: seq<Emission>, c: int): History {
    if log == [] then h else Observe(Fold(h, log[..|log| - 1], c), log[|log| - 1], c)
  }

  function HistoryOf(log: seq<Emission>, c: int): History {
    Fold(FRESH, log, c)
  }

  lemma {:induction false} FoldAppend(h: History, log: seq<Emission>, out: seq<Emission>, c: int)
    ensures Fold(h, log + out, c) == Fold(Fold(h, log, c), out, c)
    decreases |out|
  {
    if out == [] {
      assert log + out == log;
    } else {
      FoldAppend(h, log, out[..|out| - 1], c);
      assert (log + out)[..|log + out| - 1] == log + out[..|out| - 1];
    }
  }

  ghost predicate OutFor(out: seq<Emission>, c: int) {
    forall i :: 0 <= i < |out| ==> out[i].cid == c
  }

  lemma {:induction false} FoldOthers(h: History, out: seq<Emission>, c: int, other: int)
    requires OutFor(out, c) && other != c
    ensures Fold(h, out, other) == h
  {
    if out != [] {
      FoldOthers(h, out[..|out| - 1], c, other);
    }
  }

  /** What the observer's verdict means, event by event. */
  lemma {:induction false} HistoryMeans(log: seq<Emission>, c: int)
    requires HistoryOf(log, c).ok
    ensures forall i :: 0 <= i < |log| && log[i].Filled? && log[i].cid == c ==>
      exists j :: 0 <= j < i && log[j] == Accepted(c)
    ensures HistoryOf(log, c).accepted <==> Accepted(c) in log
    ensures HistoryOf(log, c).rejected <==> Rejected(c) in log
    ensures HistoryOf(log, c).canceled <==> CanceledOrder(c) in log
    ensures Rejected(c) in log ==> forall i :: 0 <= i < |log| ==> !(log[i].Filled? && log[i].cid == c)
    ensures forall i, j :: 0 <= i < j < |log| && log[i] == CanceledOrder(c) ==>
      log[j] != CanceledOrder(c) && !(log[j].Filled? && log[j].cid == c)
  {
    if log != [] {
      var front, last := log[..|log| - 1], log[|log| - 1];
      assert log == front + [last];
      HistoryMeans(front, c);
      if last.Filled? && last.cid == c {
        var j :| 0 <= j < |front| && front[j] == Accepted(c);
        assert log[j] == Accepted(c);
      }
      FillsNeedAcceptance(front, c);
    }
  }

  lemma FillsNeedAcceptance(log: seq<Emission>, c: int)
    requires forall i :: 0 <= i < |log| && log[i].Filled? && log[i].cid == c ==>
      exists j :: 0 <= j < i && log[j] == Accepted(c)
    ensures Accepted(c) !in log ==> forall i :: 0 <= i < |log| ==> !(log[i].Filled? && log[i].cid == c)
  {
  }

  // ---------------------------------------------------------------- one order

  /** The record of an order agrees with the events published for it. */
  ghost predicate OrderInv(l: Live, h: History) {
    && h.ok && h.accepted == l.accepted && h.sum == l.filled && (h.rejected <==> l.rejection.Some?)
    && 0 <= l.filled <= l.terms.quantity && Supported(l.terms)
    && (l.rejection.Some? ==> l.terminalEmitted && !l.accepted)
    && (!l.accepted ==> l.filled == 0 && l.pendingModify == None && !l.pendingCancel)
    && (l.accepted <==> l.venue.Some?)
    && (l.terminal.Some? && l.rejection == None ==> l.accepted)
    && (l.terminalEmitted && l.rejection == None ==>
          l.terminal.Some? && l.filled == TerminalFilled(l.terminal.value))
    && (h.canceled ==> l.terminalEmitted && l.rejection == None)
    && (l.terms.reduceOnly && l.accepted ==> l.flagsVerified)
  }

  /** No mutation is forgotten: outside its own send, a pending operation of an order without a
      terminal has a deadline or an UNKNOWN mark.  A deadline belongs to a pending operation, or
      to a modify whose send returned after the terminal. */
  ghost predicate MutationInv(l: Live, waiting: set<Operation>, sending: set<Operation>) {
    && Remembered(l, waiting, sending, Submit)
    && Remembered(l, waiting, sending, Modify)
    && Remembered(l, waiting, sending, Cancel)
  }

  predicate Remembered(l: Live, waiting: set<Operation>, sending: set<Operation>, op: Operation) {
    && (IsPending(l, op) && l.terminal == None ==> op in waiting || op in l.unknown || op in sending)
    && (op in waiting ==> IsPending(l, op) || (op == Modify && l.terminal.Some?))
  }

  ghost predicate LocalInv(x: Local, h: History, sending: set<Operation>) {
    && OrderInv(x.live, Fold(h, x.out, x.live.cid))
    && MutationInv(x.live, x.waiting, sending)
    && OutFor(x.out, x.live.cid)
    && (x.bound.Some? ==> x.bound == x.live.venue)
  }

  /** What every step leaves as it was submitted. */
  predicate SameOrder(l: Live, l': Live) {
    && l'.cid == l.cid && l'.terms == l.terms && l'.rejection == l.rejection
    && l'.terminal == l.terminal && l'.flagsVerified == l.flagsVerified
  }

  lemma PublishFolds(x: Local, e: Emission, h: History)
    ensures Fold(h, Publish(x, e).out, x.live.cid) == Observe(Fold(h, x.out, x.live.cid), e, x.live.cid)
  {
    assert Publish(x, e).out[..|x.out|] == x.out;
  }

  lemma AcceptKeeps(x: Local, venue: int, h: History, sending: set<Operation>)
    requires LocalInv(x, h, sending) && x.live.rejection == None
    requires x.live.terms.reduceOnly ==> x.live.flagsVerified
    ensures Accept(x, venue).Some? ==>
      var y := Accept(x, venue).value;
      && LocalInv(y, h, sending)
      && y.live == x.live.(venue := Some(venue), accepted := true, unknown := y.live.unknown)
      && y.bound == Some(venue) && (x.live.accepted ==> x.live.venue == Some(venue))
  {
    var l := x.live.(venue := Some(venue));
    var x1 := ResolveMutation(x.(live := l, bound := Some(venue)), Submit);
    PublishFolds(x1.(live := x1.live.(accepted := true)), Accepted(x.live.cid), h);
  }

  lemma AckKeeps(x: Local, price: int, h: History, sending: set<Operation>)
    requires LocalInv(x, h, sending)
    ensures AckPendingPrice(x, price).Some? ==>
      var y := AckPendingPrice(x, price).value;
      && LocalInv(y, h, sending) && y.bound == x.bound
      && y.live == x.live.(currentPrice := y.live.currentPrice, knownPrices := y.live.knownPrices,
                           pendingModify := y.live.pendingModify, unknown := y.live.unknown)
  {
    var l := x.live;
    var l1 := l.(currentPrice := price, knownPrices := l.knownPrices + {price}, pendingModify := None);
    PublishFolds(x.(live := l1), Updated(l.cid, price), h);
  }

  lemma AcceptAndAckKeeps(x: Local, venue: int, price: int, h: History, sending: set<Operation>)
    requires LocalInv(x, h, sending) && x.live.rejection == None
    requires x.live.terms.reduceOnly ==> x.live.flagsVerified
    ensures AcceptAndAck(x, venue, price).Some? ==>
      var y := AcceptAndAck(x, venue, price).value;
      && LocalInv(y, h, sending) && SameOrder(x.live, y.live)
      && y.live.filled == x.live.filled && y.live.accepted && y.bound == Some(venue)
      && (x.live.accepted ==> x.live.venue == Some(venue))
  {
    AcceptKeeps(x, venue, h, sending);
    if Accept(x, venue).Some? {
      AckKeeps(Accept(x, venue).value, price, h, sending);
    }
  }

  lemma FinishKeeps(x: Local, h: History, sending: set<Operation>)
    requires LocalInv(x, h, sending)
    ensures FinishTerminal(x).Some? ==>
      var y := FinishTerminal(x).value;
      && LocalInv(y, h, sending) && y.bound == x.bound
      && y.live == x.live.(terminalEmitted := y.live.terminalEmitted, pendingModify := y.live.pendingModify)
  {
    var x1 := x.(live := x.live.(terminalEmitted := true, pendingModify := None));
    PublishFolds(x1, CanceledOrder(x.live.cid), h);
  }

  lemma RecordFillKeepsOrder(x: Local, t: Trade, next: int, h: History)
    requires OrderInv(x.live, Fold(h, x.out, x.live.cid)) && x.live.accepted && t.quantity != 0
    requires next == x.live.filled + Abs(t.quantity) && next <= x.live.terms.quantity
    requires x.live.terminal.Some? ==> next <= TerminalFilled(x.live.terminal.value)
    ensures var y := RecordFill(x, t, next); OrderInv(y.live, Fold(h, y.out, y.live.cid))
  {
    var x1 := ResolveMutation(x.(live := x.live.(filled := next)), Submit);
    PublishFolds(x1, Filled(x.live.cid, t.id, Abs(t.quantity)), h);
  }

  lemma RecordFillKeepsMutations(x: Local, t: Trade, next: int, sending: set<Operation>)
    requires MutationInv(x.live, x.waiting, sending) && x.live.accepted
    ensures var y := RecordFill(x, t, next); MutationInv(y.live, y.waiting, sending)
  {
  }

  lemma RecordFillTouches(x: Local, t: Trade, next: int)
    requires OutFor(x.out, x.live.cid)
    ensures
      var y := RecordFill(x, t, next);
      && OutFor(y.out, y.live.cid) && y.bound == x.bound
      && y.live == x.live.(filled := next, pendingCancel := y.live.pendingCancel, unknown := y.live.unknown)
  {
  }

  lemma RecordFillKeeps(x: Local, t: Trade, next: int, h: History, sending: set<Operation>)
    requires LocalInv(x, h, sending) && x.live.accepted && t.quantity != 0
    requires next == x.live.filled + Abs(t.quantity) && next <= x.live.terms.quantity
    requires x.live.terminal.Some? ==> next <= TerminalFilled(x.live.terminal.value)
    ensures
      var y := RecordFill(x, t, next);
      && LocalInv(y, h, sending) && y.bound == x.bound
      && y.live == x.live.(filled := next, pendingCancel := y.live.pendingCancel, unknown := y.live.unknown)
  {
    RecordFillKeepsOrder(x, t, next, h);
    RecordFillKeepsMutations(x, t, next, sending);
    RecordFillTouches(x, t, next);
  }

  lemma ApplyFillKeeps(x: Local, t: Trade, y: Local, h: History, sending: set<Operation>)
    requires LocalInv(x, h, sending) && x.live.rejection == None && t.quantity != 0
    requires ApplyFill(x, t) == Some(y)
    ensures LocalInv(y, h, sending) && SameOrder(x.live, y.live)
    ensures y.live.filled == x.live.filled + Abs(t.quantity) && y.live.accepted
    ensures y.bound == Some(t.venue) && (x.live.accepted ==> x.live.venue == Some(t.venue))
  {
    AcceptAndAckKeeps(x, t.venue, t.orderPrice, h, sending);
    RecordAndFinish(AcceptAndAck(x, t.venue, t.orderPrice).value, t, x.live.filled + Abs(t.quantity), y, h, sending);
  }

  lemma RecordAndFinish(x: Local, t: Trade, next: int, y: Local, h: History, sending: set<Operation>)
    requires LocalInv(x, h, sending) && x.live.accepted && t.quantity != 0
    requires next == x.live.filled + Abs(t.quantity) && next <= x.live.terms.quantity
    requires x.live.terminal.Some? ==> next <= TerminalFilled(x.live.terminal.value)
    requires FinishTerminal(RecordFill(x, t, next)) == Some(y)
    ensures LocalInv(y, h, sending) && SameOrder(x.live, y.live) && y.live.filled == next
    ensures y.live.accepted && y.bound == x.bound
  {
    RecordFillKeeps(x, t, next, h, sending);
    FinishKeeps(RecordFill(x, t, next), h, sending);
  }

  lemma {:induction false} ReleaseKeeps(x: Local, staged: seq<Trade>, h: History, sending: set<Operation>)
    requires LocalInv(x, h, sending) && x.live.rejection == None && x.live.accepted
    requires forall i :: 0 <= i < |staged| ==> staged[i].quantity != 0 && Some(staged[i].venue) == x.live.venue
    requires x.bound == x.live.venue
    requires Release(x, staged).Some?
    ensures
      var y := Release(x, staged).value;
      && LocalInv(y, h, sending) && SameOrder(x.live, y.live) && y.bound == x.bound && y.live.accepted
      && y.live.filled == x.live.filled + Quantities(staged)
    decreases |staged|
  {
    if staged != [] {
      ApplyFillKeeps(x, staged[0], ApplyFill(x, staged[0]).value, h, sending);
      ReleaseKeeps(ApplyFill(x, staged[0]).value, staged[1..], h, sending);
    }
  }

  lemma TakeTerminalKeeps(x: Local, state: OrderState, h: History, sending: set<Operation>)
    requires LocalInv(x, h, sending) && x.live.accepted && x.live.terminal == None && x.live.rejection == None
    ensures
      var y := TakeTerminal(x, state);
      && LocalInv(y, h, sending) && y.bound == x.bound && y.live.filled == x.live.filled
      && SameOrder(x.live.(terminal := Some(state)), y.live) && y.live.venue == x.live.venue && y.live.accepted
  {
  }

  lemma AdoptKeeps(x: Local, op: OrderOp, state: OrderState, staged: seq<Trade>, h: History, sending: set<Operation>)
    requires LocalInv(x, h, sending) && x.live.rejection == None && x.live.flagsVerified && x.live.terminal == None
    requires forall i :: 0 <= i < |staged| ==> staged[i].quantity != 0 && staged[i].venue == state.venue
    requires Adopt(x, op, state, staged).Some?
    ensures
      var y := Adopt(x, op, state, staged).value;
      && LocalInv(y, h, sending) && y.live.cid == x.live.cid && y.live.flagsVerified && y.live.accepted
      && y.live.terms == x.live.terms && y.live.rejection == None
      && y.bound == Some(state.venue) && (x.live.accepted ==> x.live.venue == Some(state.venue))
  {
    AcceptAndAckKeeps(x, state.venue, state.price, h, sending);
    var taken := AcceptAndAck(x, state.venue, state.price).value;
    TakeTerminalKeeps(taken, state, h, sending);
    var ready := if op.Oc? then TakeTerminal(taken, state) else taken;
    ReleaseKeeps(ready, staged, h, sending);
    FinishKeeps(Release(ready, staged).value, h, sending);
  }

  lemma RejectKeeps(x: Local, state: OrderState, h: History, sending: set<Operation>)
    requires LocalInv(x, h, sending) && x.live.rejection == None && !x.live.accepted
    ensures
      var y := RejectByStatus(x, state);
      && LocalInv(y, h, sending) && y.live.cid == x.live.cid && y.bound == x.bound && !y.live.accepted
      && y.live.terms == x.live.terms && y.live.venue == x.live.venue && y.live.flagsVerified == x.live.flagsVerified
  {
    var l := x.live.(terminal := Some(state), terminalEmitted := true, rejection := Some(ByStatus(state.text)));
    PublishFolds(x.(live := l), Rejected(l.cid), h);
  }

  /** What a notification never touches. */
  predicate SameIdentity(x: Local, y: Local) {
    && y.bound == x.bound && y.live.cid == x.live.cid && y.live.terms == x.live.terms
    && y.live.venue == x.live.venue && y.live.flagsVerified == x.live.flagsVerified
  }

  lemma SubmitNoticeKeeps(x: Local, key: Rejection, y: Local, h: History, sending: set<Operation>)
    requires LocalInv(x, h, sending) && x.live.rejection == None && NoticeFor(x, On, key) == Some(y)
    ensures LocalInv(y, h, sending) && SameIdentity(x, y)
  {
    var l := x.live;
    PublishFolds(x.(live := l.(terminalEmitted := true, rejection := Some(key))), Rejected(l.cid), h);
  }

  lemma ModifyNoticeKeeps(x: Local, key: Rejection, y: Local, h: History, sending: set<Operation>)
    requires LocalInv(x, h, sending) && NoticeFor(x, Ou, key) == Some(y)
    ensures LocalInv(y, h, sending) && SameIdentity(x, y)
  {
    var l := x.live;
    PublishFolds(x.(live := l.(pendingModify := None)), ModifyRejected(l.cid), h);
  }

  lemma CancelNoticeKeeps(x: Local, key: Rejection, y: Local, h: History, sending: set<Operation>)
    requires LocalInv(x, h, sending) && NoticeFor(x, Oc, key) == Some(y)
    ensures LocalInv(y, h, sending) && SameIdentity(x, y)
  {
    var l := x.live;
    PublishFolds(x.(live := l.(pendingCancel := false)), CancelRejected(l.cid), h);
  }

  lemma NoticeKeeps(x: Local, op: OrderOp, key: Rejection, y: Local, h: History, sending: set<Operation>)
    requires LocalInv(x, h, sending) && x.live.rejection == None && NoticeFor(x, op, key) == Some(y)
    ensures LocalInv(y, h, sending) && SameIdentity(x, y)
  {
    match op
    case On => SubmitNoticeKeeps(x, key, y, h, sending);
    case Ou => ModifyNoticeKeeps(x, key, y, h, sending);
    case Oc => CancelNoticeKeeps(x, key, y, h, sending);
  }

  // ---------------------------------------------------------------- the whole stream

  function SendingOn(sending: multiset<Key>, c: int): set<Operation> {
    set op: Operation | (c, op) in sending
  }

  function SendingOf(s: Stream, c: int): set<Operation> {
    SendingOn(s.sending, c)
  }

  ghost predicate OrderKept(s: Stream, c: int)
    requires c in s.orders
  {
    s.orders[c].cid == c && LocalInv(Of(s, c), HistoryOf(s.log, c), SendingOf(s, c))
  }

  /** Venue IDs and accepted orders name each other. */
  ghost predicate VenuesKept(s: Stream) {
    && (forall v :: v in s.byVenue ==> s.byVenue[v] in s.orders && s.orders[s.byVenue[v]].venue == Some(v))
    && (forall c :: c in s.orders && s.orders[c].venue.Some? ==>
          s.orders[c].venue.value in s.byVenue && s.byVenue[s.orders[c].venue.value] == c)
  }

  /** Deadlines and sends name submitted orders. */
  ghost predicate KeysKept(s: Stream) {
    forall k: Key :: k in s.deadlines || k in s.sending ==> k.0 in s.orders
  }

  ghost predicate Inv(s: Stream) {
    && (forall c :: c in s.orders ==> OrderKept(s, c))
    && (forall c :: c !in s.orders ==> HistoryOf(s.log, c) == FRESH)
    && KeysKept(s)
    && VenuesKept(s)
  }

  // Working on one order leaves every other order as it was.
  lemma CommitKeeps(s: Stream, c: int, x: Local)
    requires Inv(s) && c in s.orders && x.live.cid == c
    requires LocalInv(x, HistoryOf(s.log, c), SendingOf(s, c))
    requires x.bound == None ==> x.live.venue == s.orders[c].venue
    requires s.orders[c].venue.Some? ==> x.live.venue == s.orders[c].venue
    requires x.bound.Some? && x.bound.value in s.byVenue ==> s.byVenue[x.bound.value] == c
    ensures Inv(Commit(s, c, x))
  {
    var s' := Commit(s, c, x);
    forall d | d in s'.orders ensures OrderKept(s', d) {
      assert OrderKept(s, d);
      CommitKeepsOrder(s, c, x, d);
    }
    forall d | d !in s'.orders ensures HistoryOf(s'.log, d) == FRESH {
      FoldAppend(FRESH, s.log, x.out, d);
      FoldOthers(FRESH, x.out, c, d);
    }
    CommitKeepsVenues(s, c, x);
  }

  lemma CommitKeepsVenues(s: Stream, c: int, x: Local)
    requires VenuesKept(s) && c in s.orders
    requires x.bound.Some? ==> x.bound == x.live.venue
    requires x.bound == None ==> x.live.venue == s.orders[c].venue
    requires s.orders[c].venue.Some? ==> x.live.venue == s.orders[c].venue
    requires x.bound.Some? && x.bound.value in s.byVenue ==> s.byVenue[x.bound.value] == c
    ensures VenuesKept(Commit(s, c, x))
  {
  }

  lemma CommitKeepsOrder(s: Stream, c: int, x: Local, d: int)
    requires c in s.orders && d in s.orders && OrderKept(s, d) && x.live.cid == c
    requires LocalInv(x, HistoryOf(s.log, c), SendingOf(s, c))
    ensures OrderKept(Commit(s, c, x), d)
  {
    var s' := Commit(s, c, x);
    FoldAppend(FRESH, s.log, x.out, d);
    if d == c {
      assert WaitingOn(s'.deadlines, c) == x.waiting;
    } else {
      FoldOthers(HistoryOf(s.log, d), x.out, c, d);
      assert WaitingOn(s'.deadlines, d) == WaitingOn(s.deadlines, d);
    }
  }

  // The invariant does not look at the trade records.
  lemma InvIgnoresTrades(s: Stream, s': Stream)
    requires Inv(s) && s' == s.(seen := s'.seen, interim := s'.interim, buffer := s'.buffer)
    ensures Inv(s')
  {
    forall c | c in s'.orders ensures OrderKept(s', c) {
      assert OrderKept(s, c);
    }
  }

  lemma {:induction false} InsertTradeKeeps(t: Trade, ts: seq<Trade>)
    ensures multiset(InsertTrade(t, ts)) == multiset(ts) + multiset{t}
  {
    if ts != [] && !Earlier(t, ts[0]) {
      InsertTradeKeeps(t, ts[1..]);
      assert ts == [ts[0]] + ts[1..];
    }
  }

  lemma ResolvedVenue(s: Stream, cid: Option<int>, venue: int, c: int)
    requires Inv(s) && Resolve(s, cid, Some(venue)) == Order(c)
    ensures venue in s.byVenue ==> s.byVenue[venue] == c
    ensures s.orders[c].venue.Some? ==> s.orders[c].venue == Some(venue)
  {
  }

  lemma OrderFrameKeeps(cfg: Config, s: Stream, op: OrderOp, state: OrderState)
    requires Inv(s) && HandleOrder(cfg, s, op, state).Some?
    ensures Inv(HandleOrder(cfg, s, op, state).value)
  {
    var found := Resolve(s, state.cid, Some(state.venue));
    if found.Order? && s.orders[found.cid].terminal == None {
      var c := found.cid;
      var l := s.orders[c];
      ResolvedVenue(s, state.cid, state.venue, c);
      assert OrderKept(s, c);
      var staged := StagedFor(s.buffer, l, state, op);
      var x := Of(s, c).(live := l.(flagsVerified := true));
      var h, sending := HistoryOf(s.log, c), SendingOf(s, c);
      if l.rejection.Some? {
        CommitKeeps(s, c, x);
      } else if InitialRejection(state.status) && !l.accepted && TerminalFilled(state) == 0 {
        RejectKeeps(x, state, h, sending);
        CommitKeeps(s, c, RejectByStatus(x, state));
      } else {
        StagedQuantities(cfg, l, state, op, staged);
        AdoptOrderKeeps(s, c, x, op, state, staged);
      }
    }
  }

  lemma AdoptOrderKeeps(s: Stream, c: int, x: Local, op: OrderOp, state: OrderState, staged: seq<Trade>)
    requires Inv(s) && c in s.orders && s.orders[c].rejection == None && s.orders[c].terminal == None
    requires x == Of(s, c).(live := s.orders[c].(flagsVerified := true))
    requires LocalInv(x, HistoryOf(s.log, c), SendingOf(s, c)) && x.live.cid == c
    requires forall i :: 0 <= i < |staged| ==> staged[i].quantity != 0 && staged[i].venue == state.venue
    requires state.venue in s.byVenue ==> s.byVenue[state.venue] == c
    requires AdoptOrder(s, c, x, op, state, staged).Some?
    ensures Inv(AdoptOrder(s, c, x, op, state, staged).value)
  {
    AdoptKeeps(x, op, state, staged, HistoryOf(s.log, c), SendingOf(s, c));
    var y := Adopt(x, op, state, staged).value;
    CommitKeeps(s, c, y);
    InvIgnoresTrades(Commit(s, c, y), AdoptOrder(s, c, x, op, state, staged).value);
  }

  lemma StagedQuantities(cfg: Config, l: Live, state: OrderState, op: OrderOp, staged: seq<Trade>)
    requires StagedValid(cfg, l, state, op, staged)
    ensures forall i :: 0 <= i < |staged| ==> staged[i].quantity != 0 && staged[i].venue == state.venue
  {
    forall i | 0 <= i < |staged| ensures staged[i].quantity != 0 && staged[i].venue == state.venue {
      assert StagedTradeValid(cfg, l, state, op, staged[i]);
    }
  }

  lemma FillKeeps(cfg: Config, s: Stream, c: int, t: Trade)
    requires Inv(s) && Resolve(s, t.cid, Some(t.venue)) == Order(c)
    requires s.orders[c].rejection == None && TradeValid(cfg, s.orders[c], t)
    requires ApplyFill(Of(s, c), t).Some?
    ensures Inv(Commit(s, c, ApplyFill(Of(s, c), t).value))
  {
    ResolvedVenue(s, t.cid, t.venue, c);
    assert OrderKept(s, c);
    ApplyFillKeeps(Of(s, c), t, ApplyFill(Of(s, c), t).value, HistoryOf(s.log, c), SendingOf(s, c));
    CommitKeeps(s, c, ApplyFill(Of(s, c), t).value);
  }

  lemma InterimFrameKeeps(cfg: Config, s: Stream, t: Trade)
    requires Inv(s) && HandleInterim(cfg, s, t).Some?
    ensures Inv(HandleInterim(cfg, s, t).value)
  {
    var s' := HandleInterim(cfg, s, t).value;
    var found := Resolve(s, t.cid, Some(t.venue));
    if found.Order? && s.orders[found.cid].rejection == None && TradeValid(cfg, s.orders[found.cid], t)
       && HandleInterim(cfg, s, t) == ApplyInterim(s, found.cid, t) {
      FillKeeps(cfg, s, found.cid, t);
      InvIgnoresTrades(Commit(s, found.cid, ApplyFill(Of(s, found.cid), t).value), s');
    } else {
      InvIgnoresTrades(s, s');
    }
  }

  lemma TradeFrameKeeps(cfg: Config, s: Stream, t: Trade)
    requires Inv(s) && HandleTrade(cfg, s, t).Some?
    ensures Inv(HandleTrade(cfg, s, t).value)
  {
    var s' := HandleTrade(cfg, s, t).value;
    var found := Resolve(s, t.cid, Some(t.venue));
    if found.Order? && t.id !in s.seen {
      var c := found.cid;
      if t.id in s.interim {
        assert OrderKept(s, c);
        FinishKeeps(Of(s, c), HistoryOf(s.log, c), SendingOf(s, c));
        CommitKeeps(s, c, FinishTerminal(Of(s, c)).value);
        InvIgnoresTrades(Commit(s, c, FinishTerminal(Of(s, c)).value), s');
      } else {
        FillKeeps(cfg, s, c, t);
        InvIgnoresTrades(Commit(s, c, ApplyFill(Of(s, c), t).value), s');
      }
    }
  }

  lemma NoticeFrameKeeps(s: Stream, n: Notice)
    requires Inv(s) && HandleNotice(s, n).Some?
    ensures Inv(HandleNotice(s, n).value)
  {
    var found := Resolve(s, n.cid, n.venue);
    if !n.success && found.Order? && s.orders[found.cid].rejection == None {
      var key := ByNotice(n.status, n.code, n.text);
      assert OrderKept(s, found.cid);
      var y := NoticeFor(Of(s, found.cid), n.op, key).value;
      NoticeKeeps(Of(s, found.cid), n.op, key, y, HistoryOf(s.log, found.cid), SendingOf(s, found.cid));
      CommitKeeps(s, found.cid, y);
    }
  }

  // ---------------------------------------------------------------- commands, sends, deadlines

  ghost predicate SameKeys(s: Stream, s': Stream, d: int) {
    forall op :: ((d, op) in s'.deadlines <==> (d, op) in s.deadlines)
              && ((d, op) in s'.sending <==> (d, op) in s.sending)
  }

  lemma OtherOrderKept(s: Stream, s': Stream, d: int)
    requires d in s.orders && OrderKept(s, d) && d in s'.orders && s'.orders[d] == s.orders[d]
    requires s'.log == s.log && SameKeys(s, s', d)
    ensures OrderKept(s', d)
  {
    assert WaitingOn(s'.deadlines, d) == WaitingOn(s.deadlines, d);
    assert SendingOn(s'.sending, d) == SendingOn(s.sending, d);
  }

  // Changing one order's record and its own keys leaves every other order as it was.
  ghost predicate OwnChange(s: Stream, s': Stream, c: int) {
    && s'.orders.Keys == s.orders.Keys + {c} && s'.byVenue == s.byVenue && s'.log == s.log
    && s'.orders[c].venue == (if c in s.orders then s.orders[c].venue else None)
    && (forall d :: d != c && d in s.orders ==> s'.orders[d] == s.orders[d])
    && (forall d :: d != c ==> SameKeys(s, s', d))
  }

  lemma OwnChangeKeepsKeys(s: Stream, s': Stream, c: int)
    requires OwnChange(s, s', c) && KeysKept(s) && VenuesKept(s)
    ensures KeysKept(s') && VenuesKept(s')
  {
    forall k: Key | k in s'.deadlines || k in s'.sending ensures k.0 in s'.orders {
      if k.0 != c {
        assert SameKeys(s, s', k.0);
        assert k == (k.0, k.1);
      }
    }
    forall v | v in s'.byVenue
      ensures s'.byVenue[v] in s'.orders && s'.orders[s'.byVenue[v]].venue == Some(v)
    {
      assert s.byVenue[v] in s.orders && s.orders[s.byVenue[v]].venue == Some(v);
      assert s.byVenue[v] == c || s'.orders[s.byVenue[v]] == s.orders[s.byVenue[v]];
    }
  }

  lemma OwnChangeKeeps(s: Stream, s': Stream, c: int)
    requires Inv(s) && OwnChange(s, s', c) && OrderKept(s', c)
    ensures Inv(s')
  {
    OwnChangeKeepsKeys(s, s', c);
    forall d | d in s'.orders ensures OrderKept(s', d) {
      if d != c {
        OtherOrderKept(s, s', d);
      }
    }
  }

  lemma BeginSendKeeps(s: Stream, c: int, l: Live, op: Operation)
    requires Inv(s) && l.cid == c && (c, op) !in s.deadlines
    requires c in s.orders ==> l.venue == s.orders[c].venue
    requires c !in s.orders ==> l.venue == None
    requires OrderInv(l, HistoryOf(s.log, c)) && MutationInv(l, WaitingOn(s.deadlines, c), SendingOf(s, c) + {op})
    ensures Inv(BeginSend(s, c, l, op).value)
  {
    var s' := BeginSend(s, c, l, op).value;
    assert SendingOn(s'.sending, c) == SendingOn(s.sending, c) + {op};
    assert OrderKept(s', c);
    assert OwnChange(s, s', c);
    OwnChangeKeeps(s, s', c);
  }

  lemma RefusalKeeps(s: Stream, e: Emission)
    requires Inv(s) && e.cid in s.orders && (e.ModifyRejected? || e.CancelRejected?)
    ensures Inv(s.(log := s.log + [e]))
  {
    var s' := s.(log := s.log + [e]);
    forall d ensures HistoryOf(s'.log, d) == HistoryOf(s.log, d) {
      assert s'.log[..|s.log|] == s.log;
    }
    forall d | d in s'.orders ensures OrderKept(s', d) {
      assert OrderKept(s, d);
    }
  }

  /** The wire-level guard against a second send never fires on an order without a terminal. */
  lemma CommandsKeep(s: Stream, c: int, price: Option<int>, held: bool)
    requires Inv(s) && c in s.orders
    ensures ModifyOrder(s, c, price, held).Some? && Inv(ModifyOrder(s, c, price, held).value)
    ensures CancelOrder(s, c).Some? && Inv(CancelOrder(s, c).value)
  {
    ModifyKeeps(s, c, price, held);
    CancelKeeps(s, c);
  }

  lemma ModifyKeeps(s: Stream, c: int, price: Option<int>, held: bool)
    requires Inv(s) && c in s.orders
    ensures ModifyOrder(s, c, price, held).Some? && Inv(ModifyOrder(s, c, price, held).value)
  {
    assert OrderKept(s, c);
    var l := s.orders[c];
    RefusalKeeps(s, ModifyRejected(c));
    if l.accepted && l.terminal == None && !l.pendingCancel && l.pendingModify == None && price.Some? {
      assert Remembered(l, WaitingOn(s.deadlines, c), SendingOf(s, c), Modify);
      BeginSendKeeps(s, c, l.(pendingModify := price), Modify);
    }
  }

  lemma CancelKeeps(s: Stream, c: int)
    requires Inv(s) && c in s.orders
    ensures CancelOrder(s, c).Some? && Inv(CancelOrder(s, c).value)
  {
    assert OrderKept(s, c);
    var l := s.orders[c];
    RefusalKeeps(s, CancelRejected(c));
    if l.accepted && l.terminal == None && !l.pendingCancel {
      assert Remembered(l, WaitingOn(s.deadlines, c), SendingOf(s, c), Cancel);
      BeginSendKeeps(s, c, l.(pendingCancel := true), Cancel);
    }
  }

  lemma SubmitKeeps(s: Stream, cid: int, terms: Terms, price: int)
    requires Inv(s) && cid !in s.orders && terms.quantity > 0
    ensures SubmitOrder(s, cid, terms, price).Some? && Inv(SubmitOrder(s, cid, terms, price).value)
  {
    forall op: Operation ensures (cid, op) !in s.deadlines && (cid, op) !in s.sending {
      var k: Key := (cid, op);
    }
    assert WaitingOn(s.deadlines, cid) == {};
    if Supported(terms) {
      BeginSendKeeps(s, cid, NewOrder(cid, terms, price), Submit);
    }
  }
}
