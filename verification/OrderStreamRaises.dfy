/** What a raising frame leaves behind, and runs that go on through it to the close.

    The handlers check before they change anything, with two exceptions: verified flags stay, and a
    terminal is adopted before its last check.  The reader then closes the stream. */
module OrderStreamRaises {
  import opened Rounding
  import opened OrderStream
  import opened OrderStreamSafety
  import opened OrderStreamRuns

  // ---------------------------------------------------------------- the state a raise leaves

  /** Adoption up to its last check. */
  function Unfinished(x: Local, op: OrderOp, state: OrderState, staged: seq<Trade>): Option<Local> {
    var ready := AcceptAndAck(x, state.venue, state.price);
    if ready == None then None
    else Release(if op.Oc? then TakeTerminal(ready.value, state) else ready.value, staged)
  }

  function Released(s: Stream, staged: seq<Trade>): Stream {
    s.(interim := WithInterims(s.interim, staged), buffer := Without(s.buffer, staged))
  }

  /** The end of an adoption: the buffered executions, then the terminal if it is one. */
  function ReleasedAndFinished(s: Stream, c: int, x: Local, op: OrderOp, staged: seq<Trade>): Option<Stream> {
    var released := Release(x, staged);
    if released == None then None
    else
      var y := if op.Oc? then FinishTerminal(released.value) else released;
      if y == None then None else Some(Released(Commit(s, c, y.value), staged))
  }

  lemma {:induction false} AdoptUnfolds(s: Stream, c: int, x: Local, op: OrderOp, state: OrderState, staged: seq<Trade>, ready: Local)
    requires AcceptAndAck(x, state.venue, state.price).Some?
    requires var a := AcceptAndAck(x, state.venue, state.price).value; ready == if op.Oc? then TakeTerminal(a, state) else a
    ensures Unfinished(x, op, state, staged) == Release(ready, staged)
    ensures AdoptOrder(s, c, x, op, state, staged) == ReleasedAndFinished(s, c, ready, op, staged)
  {
  }

  predicate Rejects(l: Live, state: OrderState) {
    InitialRejection(state.status) && !l.accepted && TerminalFilled(state) == 0
  }

  /** The frame passes every check made before anything changes. */
  predicate Admitted(cfg: Config, s: Stream, c: int, op: OrderOp, state: OrderState)
    requires c in s.orders
  {
    var l := s.orders[c];
    var staged := StagedFor(s.buffer, l, state, op);
    && l.terminal == None && OrderStateValid(cfg, l, state, op) && StagedValid(cfg, l, state, op, staged)
    && (op.Oc? ==> Disposable(state)) && !(Rejects(l, state) && staged != [])
  }

  /** An admitted order frame has verified the flags; if it then raises, it contradicts a rejection,
      or it has adopted a terminal that reports less than was already filled.  Every other frame
      raises before it changes anything. */
  function Raised(cfg: Config, s: Stream, e: Event): Stream {
    if !e.OrderFrame? then s
    else
      var found := Resolve(s, e.state.cid, Some(e.state.venue));
      if !found.Order? || !Admitted(cfg, s, found.cid, e.op, e.state) then s
      else RaisedFor(s, found.cid, e.op, e.state, StagedFor(s.buffer, s.orders[found.cid], e.state, e.op))
  }

  function RaisedFor(s: Stream, c: int, op: OrderOp, state: OrderState, staged: seq<Trade>): Stream
    requires c in s.orders
  {
    var x := Of(s, c).(live := s.orders[c].(flagsVerified := true));
    var y := Unfinished(x, op, state, staged);
    if s.orders[c].rejection.Some? || y == None then Commit(s, c, x)
    else Released(Commit(s, c, y.value), staged)
  }

  // ---------------------------------------------------------------- where a frame can raise

  /** Nothing observed exceeds the terminal, and the terminal is usable. */
  predicate TerminalSound(l: Live) {
    l.terminal.Some? && l.rejection == None ==>
      l.filled <= TerminalFilled(l.terminal.value) && Disposable(l.terminal.value)
  }

  /** The checks of a fill, all made before it changes anything. */
  predicate FillRefused(x: Local, t: Trade) {
    var l, next := x.live, x.live.filled + Abs(t.quantity);
    || (l.terms.reduceOnly && !l.flagsVerified) || next > l.terms.quantity
    || (l.terminal.Some? && next > TerminalFilled(l.terminal.value)) || !t.onGrid
  }

  predicate VenueAgrees(l: Live, venue: int) {
    l.venue.Some? ==> l.venue == Some(venue)
  }

  /** What neither accepting nor acknowledging a price touches. */
  predicate SameFacts(l: Live, l': Live) {
    && l'.terminal == l.terminal && l'.filled == l.filled && l'.rejection == l.rejection
    && l'.terms == l.terms && l'.flagsVerified == l.flagsVerified
  }

  lemma AckNeverRaises(x: Local, price: int)
    requires x.live.venue.Some?
    ensures AckPendingPrice(x, price).Some?
    ensures
      var y := AckPendingPrice(x, price).value;
      y.live.venue == x.live.venue && SameFacts(x.live, y.live)
  {
  }

  lemma AcceptNeverRaises(x: Local, venue: int, price: int)
    requires VenueAgrees(x.live, venue)
    ensures AcceptAndAck(x, venue, price).Some?
    ensures
      var y := AcceptAndAck(x, venue, price).value;
      y.live.venue == Some(venue) && SameFacts(x.live, y.live)
  {
    AckNeverRaises(Accept(x, venue).value, price);
  }

  lemma RecordedFacts(x: Local, t: Trade, next: int)
    ensures
      var y := RecordFill(x, t, next);
      y.live.venue == x.live.venue && SameFacts(x.live.(filled := next), y.live)
  {
  }

  lemma FinishNeverRaises(x: Local)
    requires TerminalSound(x.live) && x.live.rejection == None
    ensures FinishTerminal(x).Some?
    ensures
      var l, y := x.live, FinishTerminal(x).value;
      y.live == l.(terminalEmitted := y.live.terminalEmitted, pendingModify := y.live.pendingModify)
  {
  }

  lemma CompletingNeverRaises(x: Local, t: Trade, next: int)
    requires VenueAgrees(x.live, t.venue) && x.live.rejection == None && TerminalSound(x.live.(filled := next))
    ensures CompleteFill(x, t, next).Some?
    ensures
      var y := CompleteFill(x, t, next).value;
      y.live.venue == Some(t.venue) && SameFacts(x.live.(filled := next), y.live)
  {
    AcceptNeverRaises(x, t.venue, t.orderPrice);
    var a := AcceptAndAck(x, t.venue, t.orderPrice).value;
    RecordedFacts(a, t, next);
    FinishNeverRaises(RecordFill(a, t, next));
  }

  lemma FillCompletes(x: Local, t: Trade, next: int)
    requires !FillRefused(x, t) && next == x.live.filled + Abs(t.quantity)
    ensures ApplyFill(x, t) == CompleteFill(x, t, next)
  {
  }

  /** A fill raises exactly at its own checks. */
  lemma FillRaisesIff(x: Local, t: Trade)
    requires TerminalSound(x.live) && x.live.rejection == None && VenueAgrees(x.live, t.venue)
    ensures ApplyFill(x, t) == None <==> FillRefused(x, t)
    ensures ApplyFill(x, t).Some? ==>
      var y := ApplyFill(x, t).value;
      && y.live.venue == Some(t.venue) && SameFacts(x.live.(filled := x.live.filled + Abs(t.quantity)), y.live)
      && TerminalSound(y.live)
  {
    if !FillRefused(x, t) {
      var next := x.live.filled + Abs(t.quantity);
      CompletingNeverRaises(x, t, next);
      FillCompletes(x, t, next);
    }
  }

  /** Buffered executions that passed their check are always applied. */
  lemma {:induction false} ReleaseNeverRaises(x: Local, staged: seq<Trade>, venue: int)
    requires TerminalSound(x.live) && x.live.rejection == None && x.live.venue == Some(venue) && x.live.flagsVerified
    requires forall i :: 0 <= i < |staged| ==> staged[i].venue == venue && staged[i].onGrid
    requires x.live.filled + Quantities(staged) <= x.live.terms.quantity
    requires x.live.terminal.Some? ==> x.live.filled + Quantities(staged) <= TerminalFilled(x.live.terminal.value)
    ensures Release(x, staged).Some?
    ensures
      var y := Release(x, staged).value;
      && y.live.filled == x.live.filled + Quantities(staged) && y.live.terminal == x.live.terminal
      && y.live.rejection == None && TerminalSound(y.live)
    decreases |staged|
  {
    if staged != [] {
      FillRaisesIff(x, staged[0]);
      ReleaseNeverRaises(ApplyFill(x, staged[0]).value, staged[1..], venue);
    }
  }

  // ---------------------------------------------------------------- order frames

  /** What the stream's invariant gives an order frame that found its order. */
  lemma FoundAgrees(s: Stream, cid: Option<int>, venue: int, c: int)
    requires Inv(s) && Resolve(s, cid, Some(venue)) == Order(c)
    ensures VenueAgrees(s.orders[c], venue)
  {
    ResolvedVenue(s, cid, venue, c);
  }

  lemma AdmittedStaged(cfg: Config, s: Stream, c: int, op: OrderOp, state: OrderState, staged: seq<Trade>)
    requires c in s.orders && Admitted(cfg, s, c, op, state) && staged == StagedFor(s.buffer, s.orders[c], state, op)
    ensures forall i :: 0 <= i < |staged| ==> staged[i].venue == state.venue && staged[i].onGrid && staged[i].quantity != 0
    ensures staged != [] ==>
      && s.orders[c].filled + Quantities(staged) <= s.orders[c].terms.quantity
      && (op.Oc? ==> s.orders[c].filled + Quantities(staged) <= TerminalFilled(state))
  {
    forall i | 0 <= i < |staged| ensures staged[i].venue == state.venue && staged[i].onGrid && staged[i].quantity != 0 {
      assert StagedTradeValid(cfg, s.orders[c], state, op, staged[i]);
    }
  }

  /** Adoption never raises before its last check, and there exactly when the terminal reports less
      than was already filled. */
  lemma {:induction false} AdoptRaisesIff(x: Local, op: OrderOp, state: OrderState, staged: seq<Trade>)
    requires x.live.terminal == None && x.live.rejection == None && x.live.flagsVerified && VenueAgrees(x.live, state.venue)
    requires x.live.filled <= x.live.terms.quantity && (op.Oc? ==> Disposable(state))
    requires forall i :: 0 <= i < |staged| ==> staged[i].venue == state.venue && staged[i].onGrid
    requires staged != [] ==>
      && x.live.filled + Quantities(staged) <= x.live.terms.quantity
      && (op.Oc? ==> x.live.filled + Quantities(staged) <= TerminalFilled(state))
    ensures Unfinished(x, op, state, staged).Some?
    ensures Adopt(x, op, state, staged) == None <==> op.Oc? && x.live.filled + Quantities(staged) > TerminalFilled(state)
    ensures Adopt(x, op, state, staged).Some? ==> TerminalSound(Adopt(x, op, state, staged).value.live)
  {
    AcceptNeverRaises(x, state.venue, state.price);
    var ready := AcceptAndAck(x, state.venue, state.price).value;
    if op.Oc? {
      var taken := TakeTerminal(ready, state);
      if staged == [] {
        if taken.live.filled <= TerminalFilled(state) {
          FinishNeverRaises(taken);
        }
      } else {
        ReleaseNeverRaises(taken, staged, state.venue);
        FinishNeverRaises(Release(taken, staged).value);
      }
    } else if staged != [] {
      ReleaseNeverRaises(ready, staged, state.venue);
    }
  }

  lemma {:induction false} AdmittedAdvances(cfg: Config, s: Stream, c: int, op: OrderOp, state: OrderState, staged: seq<Trade>)
    requires Resolve(s, state.cid, Some(state.venue)) == Order(c) && s.orders[c].terminal == None
    requires staged == StagedFor(s.buffer, s.orders[c], state, op)
    ensures HandleOrder(cfg, s, op, state)
      == if Admitted(cfg, s, c, op, state) then Advance(s, c, op, state, staged, Rejects(s.orders[c], state)) else None
    ensures Raised(cfg, s, OrderFrame(op, state))
      == if Admitted(cfg, s, c, op, state) then RaisedFor(s, c, op, state, staged) else s
  {
  }

  /** Nothing stops the adoption before its last check. */
  predicate Adoptable(s: Stream, c: int, op: OrderOp, state: OrderState, staged: seq<Trade>)
    requires c in s.orders
  {
    Unfinished(Of(s, c).(live := s.orders[c].(flagsVerified := true)), op, state, staged).Some?
  }

  lemma AdmittedAdopts(cfg: Config, s: Stream, c: int, op: OrderOp, state: OrderState, staged: seq<Trade>)
    requires Resolve(s, state.cid, Some(state.venue)) == Order(c) && Admitted(cfg, s, c, op, state)
    requires staged == StagedFor(s.buffer, s.orders[c], state, op)
    ensures Inv(s) && s.orders[c].rejection == None ==> Adoptable(s, c, op, state, staged)
  {
    if Inv(s) && s.orders[c].rejection == None {
      FoundAgrees(s, state.cid, state.venue, c);
      AdmittedStaged(cfg, s, c, op, state, staged);
      FilledWithin(s, c);
      AdoptRaisesIff(Of(s, c).(live := s.orders[c].(flagsVerified := true)), op, state, staged);
    }
  }

  /** An admitted order frame raises exactly when it contradicts a definitive rejection, or when its
      terminal reports less than was already filled. */
  lemma OrderRaisesIff(cfg: Config, s: Stream, c: int, op: OrderOp, state: OrderState)
    requires Inv(s) && Resolve(s, state.cid, Some(state.venue)) == Order(c) && Admitted(cfg, s, c, op, state)
    ensures
      var l := s.orders[c];
      HandleOrder(cfg, s, op, state) == None <==>
        if l.rejection.Some? then !(Rejects(l, state) && l.rejection == Some(ByStatus(state.text)))
        else !Rejects(l, state) && op.Oc? && l.filled > TerminalFilled(state)
  {
    var l := s.orders[c];
    if l.rejection == None && !Rejects(l, state) {
      var staged := StagedFor(s.buffer, l, state, op);
      FoundAgrees(s, state.cid, state.venue, c);
      AdmittedStaged(cfg, s, c, op, state, staged);
      FilledWithin(s, c);
      AdoptRaisesIff(Of(s, c).(live := l.(flagsVerified := true)), op, state, staged);
    }
  }

  lemma FilledWithin(s: Stream, c: int)
    requires Inv(s) && c in s.orders
    ensures s.orders[c].filled <= s.orders[c].terms.quantity
  {
    assert OrderKept(s, c);
  }

  // ---------------------------------------------------------------- a raise keeps the invariant

  lemma UnfinishedKeeps(x: Local, op: OrderOp, state: OrderState, staged: seq<Trade>, h: History, sending: set<Operation>)
    requires LocalInv(x, h, sending) && x.live.rejection == None && x.live.flagsVerified && x.live.terminal == None
    requires forall i :: 0 <= i < |staged| ==> staged[i].quantity != 0 && staged[i].venue == state.venue
    requires Unfinished(x, op, state, staged).Some?
    ensures
      var y := Unfinished(x, op, state, staged).value;
      && LocalInv(y, h, sending) && y.live.cid == x.live.cid && y.live.venue == Some(state.venue)
      && y.bound == Some(state.venue) && (x.live.accepted ==> x.live.venue == Some(state.venue))
  {
    AcceptAndAckKeeps(x, state.venue, state.price, h, sending);
    var taken := AcceptAndAck(x, state.venue, state.price).value;
    TakeTerminalKeeps(taken, state, h, sending);
    ReleaseKeeps(if op.Oc? then TakeTerminal(taken, state) else taken, staged, h, sending);
  }

  lemma UnfinishedCommits(s: Stream, c: int, x: Local, op: OrderOp, state: OrderState, staged: seq<Trade>)
    requires Inv(s) && c in s.orders && s.orders[c].terminal == None && s.orders[c].rejection == None
    requires Resolve(s, state.cid, Some(state.venue)) == Order(c) && x == Of(s, c).(live := s.orders[c].(flagsVerified := true))
    requires forall i :: 0 <= i < |staged| ==> staged[i].quantity != 0 && staged[i].venue == state.venue
    requires Unfinished(x, op, state, staged).Some?
    ensures Inv(Released(Commit(s, c, Unfinished(x, op, state, staged).value), staged))
  {
    assert OrderKept(s, c);
    ResolvedVenue(s, state.cid, state.venue, c);
    UnfinishedKeeps(x, op, state, staged, HistoryOf(s.log, c), SendingOf(s, c));
    var y := Unfinished(x, op, state, staged).value;
    CommitKeeps(s, c, y);
    InvIgnoresTrades(Commit(s, c, y), Released(Commit(s, c, y), staged));
  }

  lemma FlagsCommit(s: Stream, c: int)
    requires Inv(s) && c in s.orders
    ensures Inv(Commit(s, c, Of(s, c).(live := s.orders[c].(flagsVerified := true))))
  {
    assert OrderKept(s, c);
    CommitKeeps(s, c, Of(s, c).(live := s.orders[c].(flagsVerified := true)));
  }

  lemma RaisedForKeeps(s: Stream, c: int, op: OrderOp, state: OrderState, staged: seq<Trade>)
    requires Inv(s) && c in s.orders && s.orders[c].terminal == None
    requires Resolve(s, state.cid, Some(state.venue)) == Order(c)
    requires forall i :: 0 <= i < |staged| ==> staged[i].quantity != 0 && staged[i].venue == state.venue
    ensures Inv(RaisedFor(s, c, op, state, staged))
  {
    var x := Of(s, c).(live := s.orders[c].(flagsVerified := true));
    if s.orders[c].rejection == None && Unfinished(x, op, state, staged).Some? {
      UnfinishedCommits(s, c, x, op, state, staged);
    } else {
      FlagsCommit(s, c);
    }
  }

  lemma RaisedKeeps(cfg: Config, s: Stream, e: Event)
    requires Inv(s)
    ensures Inv(Raised(cfg, s, e))
  {
    if e.OrderFrame? {
      var found := Resolve(s, e.state.cid, Some(e.state.venue));
      if found.Order? && Admitted(cfg, s, found.cid, e.op, e.state) {
        var c, l := found.cid, s.orders[found.cid];
        var staged := StagedFor(s.buffer, l, e.state, e.op);
        AdmittedStaged(cfg, s, c, e.op, e.state, staged);
        RaisedForKeeps(s, c, e.op, e.state, staged);
      }
    }
  }

  // ---------------------------------------------------------------- sound terminals

  ghost predicate AllSound(s: Stream) {
    forall c :: c in s.orders ==> TerminalSound(s.orders[c])
  }

  lemma CommitSound(s: Stream, c: int, x: Local)
    requires AllSound(s) && c in s.orders && TerminalSound(x.live)
    ensures AllSound(Commit(s, c, x))
  {
  }

  lemma OrderFrameSound(cfg: Config, s: Stream, op: OrderOp, state: OrderState)
    requires Inv(s) && AllSound(s) && HandleOrder(cfg, s, op, state).Some?
    ensures AllSound(HandleOrder(cfg, s, op, state).value)
  {
    var found := Resolve(s, state.cid, Some(state.venue));
    if found.Order? && s.orders[found.cid].terminal == None {
      var c, l := found.cid, s.orders[found.cid];
      var x := Of(s, c).(live := l.(flagsVerified := true));
      var staged := StagedFor(s.buffer, l, state, op);
      assert Admitted(cfg, s, c, op, state);
      if l.rejection.Some? {
        CommitSound(s, c, x);
      } else if Rejects(l, state) {
        CommitSound(s, c, RejectByStatus(x, state));
      } else {
        FoundAgrees(s, state.cid, state.venue, c);
        AdmittedStaged(cfg, s, c, op, state, staged);
        FilledWithin(s, c);
        AdoptRaisesIff(x, op, state, staged);
        CommitSound(s, c, Adopt(x, op, state, staged).value);
      }
    }
  }

  lemma FillSound(s: Stream, t: Trade, c: int)
    requires Inv(s) && AllSound(s) && Resolve(s, t.cid, Some(t.venue)) == Order(c) && s.orders[c].rejection == None
    ensures ApplyFill(Of(s, c), t) == None <==> FillRefused(Of(s, c), t)
    ensures ApplyFill(Of(s, c), t).Some? ==> AllSound(Commit(s, c, ApplyFill(Of(s, c), t).value))
  {
    FoundAgrees(s, t.cid, t.venue, c);
    FillRaisesIff(Of(s, c), t);
    if ApplyFill(Of(s, c), t).Some? {
      CommitSound(s, c, ApplyFill(Of(s, c), t).value);
    }
  }

  // For a caller that does not know the stream to be sound.
  lemma FillSoundIf(s: Stream, t: Trade, c: int)
    requires Resolve(s, t.cid, Some(t.venue)) == Order(c) && s.orders[c].rejection == None
    ensures Inv(s) && AllSound(s) && ApplyFill(Of(s, c), t) == None ==> FillRefused(Of(s, c), t)
  {
    if Inv(s) && AllSound(s) {
      FillSound(s, t, c);
    }
  }

  lemma InterimSound(cfg: Config, s: Stream, t: Trade)
    requires Inv(s) && AllSound(s) && HandleInterim(cfg, s, t).Some?
    ensures AllSound(HandleInterim(cfg, s, t).value)
  {
    var found := Resolve(s, t.cid, Some(t.venue));
    if found.Order? && s.orders[found.cid].rejection == None {
      FillSound(s, t, found.cid);
    }
  }

  lemma TradeSound(cfg: Config, s: Stream, t: Trade)
    requires Inv(s) && AllSound(s) && HandleTrade(cfg, s, t).Some?
    ensures AllSound(HandleTrade(cfg, s, t).value)
  {
    var found := Resolve(s, t.cid, Some(t.venue));
    if found.Order? && s.orders[found.cid].rejection == None {
      FillSound(s, t, found.cid);
      FinishNeverRaises(Of(s, found.cid));
      CommitSound(s, found.cid, FinishTerminal(Of(s, found.cid)).value);
    }
  }

  lemma NoticeSound(s: Stream, n: Notice)
    requires AllSound(s) && HandleNotice(s, n).Some?
    ensures AllSound(HandleNotice(s, n).value)
  {
    var found := Resolve(s, n.cid, n.venue);
    if !n.success && found.Order? && s.orders[found.cid].rejection == None {
      CommitSound(s, found.cid, NoticeFor(Of(s, found.cid), n.op, ByNotice(n.status, n.code, n.text)).value);
    }
  }

  predicate IsFrame(e: Event) {
    e.OrderFrame? || e.InterimFrame? || e.TradeFrame? || e.NoticeFrame?
  }

  // Commands, sends and deadlines leave terminals, fills and rejections alone.
  ghost predicate FactsStay(s: Stream, s': Stream) {
    forall c :: c in s'.orders ==>
      s'.orders[c].terminal == None
      || (c in s.orders && s'.orders[c].terminal == s.orders[c].terminal && s'.orders[c].filled == s.orders[c].filled
          && s'.orders[c].rejection == s.orders[c].rejection)
  }

  lemma FactsStaySound(s: Stream, s': Stream)
    requires AllSound(s) && FactsStay(s, s')
    ensures AllSound(s')
  {
  }

  lemma BeginSendFacts(s: Stream, c: int, l: Live, op: Operation)
    requires l.terminal == None || (c in s.orders && l.terminal == s.orders[c].terminal
      && l.filled == s.orders[c].filled && l.rejection == s.orders[c].rejection)
    ensures BeginSend(s, c, l, op).Some? ==> FactsStay(s, BeginSend(s, c, l, op).value)
  {
  }

  lemma ModifyFacts(s: Stream, c: int, price: Option<int>, held: bool)
    requires c in s.orders
    ensures ModifyOrder(s, c, price, held).Some? ==> FactsStay(s, ModifyOrder(s, c, price, held).value)
    ensures CancelOrder(s, c).Some? ==> FactsStay(s, CancelOrder(s, c).value)
  {
    BeginSendFacts(s, c, s.orders[c].(pendingModify := price), Modify);
    BeginSendFacts(s, c, s.orders[c].(pendingCancel := true), Cancel);
  }

  lemma SendFacts(s: Stream, c: int, op: Operation, outcome: SendOutcome)
    requires c in s.orders
    ensures FactsStay(s, EndSend(s, c, op, outcome))
  {
    UnknownFacts(s.(sending := s.sending - multiset{(c, op)}), c, op);
  }

  lemma UnknownFacts(s: Stream, c: int, op: Operation)
    requires c in s.orders
    ensures FactsStay(s, MarkUnknown(s, c, op))
  {
  }

  lemma ExpireFacts(s: Stream, c: int, op: Operation)
    requires c in s.orders
    ensures FactsStay(s, ExpireDeadline(s, c, op))
  {
    UnknownFacts(s.(deadlines := s.deadlines - {(c, op)}), c, op);
  }

  lemma CloseFacts(cfg: Config, s: Stream)
    ensures FactsStay(s, CloseStream(cfg, s))
  {
  }

  lemma CommandSound(cfg: Config, s: Stream, e: Event, s': Stream)
    requires AllSound(s) && CanHappen(s, e) && !IsFrame(e) && Step(cfg, s, e) == Some(s')
    ensures AllSound(s')
  {
    match e
    case SubmitCommand(cid, terms, price) => BeginSendFacts(s, cid, NewOrder(cid, terms, price), Submit);
    case ModifyCommand(cid, price, held) => ModifyFacts(s, cid, price, held);
    case CancelCommand(cid) => ModifyFacts(s, cid, None, false);
    case SendReturns(cid, op, outcome) => SendFacts(s, cid, op, outcome);
    case DeadlineExpires(cid, op) => ExpireFacts(s, cid, op);
    case Closes => CloseFacts(cfg, s);
    FactsStaySound(s, s');
  }

  lemma StepSound(cfg: Config, s: Stream, e: Event, s': Stream)
    requires Inv(s) && AllSound(s) && CanHappen(s, e) && Step(cfg, s, e) == Some(s')
    ensures AllSound(s')
  {
    match e
    case OrderFrame(op, state) => OrderFrameSound(cfg, s, op, state);
    case InterimFrame(t) => InterimSound(cfg, s, t);
    case TradeFrame(t) => TradeSound(cfg, s, t);
    case NoticeFrame(n) => NoticeSound(s, n);
    case _ => CommandSound(cfg, s, e, s');
  }

  // ---------------------------------------------------------------- runs through a raise

  /** Frames are read while the stream is open. */
  predicate Occurs(s: Stream, e: Event) {
    CanHappen(s, e) && (IsFrame(e) ==> s.open)
  }

  /** A frame that raises leaves its partial work, and the reader closes the stream. */
  function StepOn(cfg: Config, s: Stream, e: Event): Stream
    requires Occurs(s, e)
  {
    match Step(cfg, s, e)
    case Some(after) => after
    case None => if IsFrame(e) then CloseStream(cfg, Raised(cfg, s, e)) else s
  }

  function RunOn(cfg: Config, events: seq<Event>): Option<Stream> {
    if events == [] then Some(EMPTY)
    else
      var front, last := RunOn(cfg, events[..|events| - 1]), events[|events| - 1];
      if front == None || !Occurs(front.value, last) then None else Some(StepOn(cfg, front.value, last))
  }

  /** While the stream is open, what its terminals say is sound. */
  ghost predicate Good(s: Stream) {
    Inv(s) && (s.open ==> AllSound(s))
  }

  lemma FramesStayOpen(cfg: Config, s: Stream, e: Event, s': Stream)
    requires CanHappen(s, e) && Step(cfg, s, e) == Some(s') && s'.open
    ensures s.open
  {
  }

  lemma StepOnKeeps(cfg: Config, s: Stream, e: Event)
    requires Good(s) && Occurs(s, e)
    ensures Good(StepOn(cfg, s, e))
  {
    if Step(cfg, s, e).Some? {
      var s' := Step(cfg, s, e).value;
      StepKeeps(cfg, s, e);
      if s'.open {
        FramesStayOpen(cfg, s, e, s');
        StepSound(cfg, s, e, s');
      }
    } else if IsFrame(e) {
      RaisedKeeps(cfg, s, e);
      CloseKeeps(cfg, Raised(cfg, s, e));
    }
  }

  lemma {:induction false} RunOnKeeps(cfg: Config, events: seq<Event>)
    requires RunOn(cfg, events).Some?
    ensures Good(RunOn(cfg, events).value)
  {
    if events != [] {
      RunOnKeeps(cfg, events[..|events| - 1]);
      StepOnKeeps(cfg, RunOn(cfg, events[..|events| - 1]).value, events[|events| - 1]);
    }
  }

  /** Nothing in doubt is forgotten, also when a frame raises: over every run through raises and
      closes, outside its own send a pending operation of an order without a terminal has a
      deadline or an UNKNOWN mark, and once the stream is closed the deadlines that were open are
      UNKNOWN outcomes. */
  lemma RaisesForgetNothing(cfg: Config, events: seq<Event>, s: Stream, c: int, op: Operation)
    requires RunOn(cfg, events) == Some(s) && c in s.orders
    ensures IsPending(s.orders[c], op) && s.orders[c].terminal == None ==>
      (c, op) in s.deadlines || op in s.orders[c].unknown || (c, op) in s.sending
    ensures (c, op) in s.deadlines ==>
      IsPending(s.orders[c], op) || (op == Modify && s.orders[c].terminal.Some?)
  {
    RunOnKeeps(cfg, events);
    InvRemembers(s, c, op);
  }

  /** What was published stays consistent too. */
  lemma RaisesPublishConsistently(cfg: Config, events: seq<Event>, s: Stream, c: int)
    requires RunOn(cfg, events) == Some(s) && c in s.orders
    ensures Consistent(s, c)
  {
    RunOnKeeps(cfg, events);
    InvPublishes(s, c);
  }
}
