/** Runs in which no trade ID is ever filled twice.

    A venue that gives each trade ID one venue order, and sends `on` or `oc` before any `ou`, never
    leaves a buffered execution behind that some other frame has filled.  The invariant says which
    order each buffered execution is still waiting for, and every frame and command is shown to
    keep it, over any interleaving and with any repeats. */
module OrderStreamUnique {
  import opened Rounding
  import opened OrderStream
  import opened OrderStreamSafety
  import opened OrderStreamRuns
  import opened OrderStreamFills

  /** The venue's frames are orderly: a trade ID always names the same venue order, and an order's
      first order frame is `on` or `oc`. */
  predicate Orderly(s: Stream, venueOf: int -> int, e: Event) {
    match e
    case InterimFrame(t) => t.venue == venueOf(t.id)
    case TradeFrame(t) => t.venue == venueOf(t.id)
    case OrderFrame(op, state) =>
      var found := Resolve(s, state.cid, Some(state.venue));
      op.Ou? && found.Order? ==> s.orders[found.cid].flagsVerified
    case _ => true
  }

  /** A buffered trade never waits for a reduce-only order that is already bound to its venue ID. */
  ghost predicate Sourced(s: Stream, venueOf: int -> int) {
    && (forall id :: id in FilledIds(s.log) ==> venueOf(id) in s.byVenue)
    && (forall i :: 0 <= i < |s.buffer| ==> Waits(s, venueOf, s.buffer[i]))
    && (forall c :: c in s.orders && s.orders[c].flagsVerified && s.orders[c].rejection == None ==> s.orders[c].accepted)
  }

  predicate Waits(s: Stream, venueOf: int -> int, t: Trade) {
    && t.venue == venueOf(t.id)
    && (t.venue in s.byVenue && s.byVenue[t.venue] in s.orders ==> !s.orders[s.byVenue[t.venue]].terms.reduceOnly)
  }

  // ---------------------------------------------------------------- order frames

  // A claimed trade waits for an unbound venue ID, so nothing under that ID was filled.
  lemma ClaimedAreNew(cfg: Config, s: Stream, venueOf: int -> int, c: int, op: OrderOp, state: OrderState, staged: seq<Trade>)
    requires Inv(s) && FillsKnown(s) && Sourced(s, venueOf)
    requires Resolve(s, state.cid, Some(state.venue)) == Order(c)
    requires staged == StagedFor(s.buffer, s.orders[c], state, op) && StagedValid(cfg, s.orders[c], state, op, staged)
    ensures forall i :: 0 <= i < |staged| ==>
      venueOf(staged[i].id) == state.venue && staged[i].id !in FilledIds(s.log)
  {
    ResolvedVenue(s, state.cid, state.venue, c);
    StagedComeFromBuffer(s.buffer, s.orders[c], state, op);
    StagedQuantities(cfg, s.orders[c], state, op, staged);
    forall i | 0 <= i < |staged|
      ensures venueOf(staged[i].id) == state.venue && staged[i].id !in FilledIds(s.log)
    {
      assert staged[i] in s.buffer;
      var j :| 0 <= j < |s.buffer| && s.buffer[j] == staged[i];
      assert Waits(s, venueOf, s.buffer[j]);
    }
  }

  lemma {:induction false} IdsShareVenue(ts: seq<Trade>, venueOf: int -> int, v: int)
    requires forall i :: 0 <= i < |ts| ==> venueOf(ts[i].id) == v
    ensures forall id :: id in IdsOf(ts) ==> venueOf(id) == v
  {
    if ts != [] {
      assert forall i :: 0 <= i < |ts[1..]| ==> ts[1..][i] == ts[i + 1];
      IdsShareVenue(ts[1..], venueOf, v);
    }
  }

  // After an order frame, what stays buffered under its venue ID is not for a reduce-only order.
  lemma RemainderWaits(s: Stream, venueOf: int -> int, c: int, op: OrderOp, state: OrderState, staged: seq<Trade>, i: int)
    requires Inv(s) && FillsKnown(s) && Sourced(s, venueOf)
    requires Resolve(s, state.cid, Some(state.venue)) == Order(c) && s.orders[c].rejection == None
    requires op.Ou? ==> s.orders[c].flagsVerified
    requires staged == StagedFor(s.buffer, s.orders[c], state, op)
    requires 0 <= i < |Without(s.buffer, staged)|
    ensures
      var t := Without(s.buffer, staged)[i];
      Waits(s, venueOf, t) && (t.venue == state.venue ==> !s.orders[c].terms.reduceOnly)
  {
    var t := Without(s.buffer, staged)[i];
    WithoutIds(s.buffer, staged);
    StagedIds(s.buffer, s.orders[c], state, op);
    ResolvedVenue(s, state.cid, state.venue, c);
    var j :| 0 <= j < |s.buffer| && s.buffer[j] == t;
    assert Waits(s, venueOf, s.buffer[j]);
    if t.venue == state.venue {
      assert op.Ou? by {
        assert !Staged(s.orders[c], state, op, s.buffer[j]);
      }
      assert OrderKept(s, c);
    }
  }

  lemma AdoptOrderSourced(s: Stream, venueOf: int -> int, c: int, op: OrderOp, state: OrderState, staged: seq<Trade>, y: Local, s': Stream)
    requires Inv(s) && FillsKnown(s) && Sourced(s, venueOf)
    requires Resolve(s, state.cid, Some(state.venue)) == Order(c) && s.orders[c].rejection == None
    requires op.Ou? ==> s.orders[c].flagsVerified
    requires staged == StagedFor(s.buffer, s.orders[c], state, op)
    requires forall i :: 0 <= i < |staged| ==> venueOf(staged[i].id) == state.venue
    requires y.bound == Some(state.venue) && y.live.accepted && y.live.terms == s.orders[c].terms
    requires s' == Commit(s, c, y).(interim := s'.interim, buffer := Without(s.buffer, staged))
    requires FilledIds(s'.log) == FilledIds(s.log) + IdsOf(staged)
    ensures Sourced(s', venueOf)
  {
    IdsShareVenue(staged, venueOf, state.venue);
    forall i | 0 <= i < |s'.buffer| ensures Waits(s', venueOf, s'.buffer[i]) {
      RemainderWaits(s, venueOf, c, op, state, staged, i);
    }
  }

  // Binding no venue ID and accepting nothing new keeps the waiting trades as they were.
  lemma QuietCommit(s: Stream, venueOf: int -> int, c: int, y: Local)
    requires c in s.orders && Sourced(s, venueOf) && y.bound == None
    requires y.live.terms == s.orders[c].terms && FilledIds(Commit(s, c, y).log) == FilledIds(s.log)
    requires y.live.flagsVerified && y.live.rejection == None ==> y.live.accepted
    ensures Sourced(Commit(s, c, y), venueOf)
  {
    var s' := Commit(s, c, y);
    forall i | 0 <= i < |s'.buffer| ensures Waits(s', venueOf, s'.buffer[i]) {
      assert Waits(s, venueOf, s.buffer[i]);
    }
  }

  lemma RejectionSourced(s: Stream, venueOf: int -> int, c: int, state: OrderState, x: Local)
    requires FillsKnown(s) && UniqueFills(s.log) && Sourced(s, venueOf) && c in s.orders
    requires x == Of(s, c).(live := s.orders[c].(flagsVerified := true))
    ensures x.live.rejection.Some? ==> Sourced(Commit(s, c, x), venueOf)
    ensures Sourced(Commit(s, c, RejectByStatus(x, state)), venueOf)
  {
    CommitPublishes(s, c, x, {}, true);
    if x.live.rejection.Some? {
      QuietCommit(s, venueOf, c, x);
    }
    RejectPublishes(x, state, FilledIds(s.log));
    CommitPublishes(s, c, RejectByStatus(x, state), {}, true);
    QuietCommit(s, venueOf, c, RejectByStatus(x, state));
  }

  lemma LiveFrameSourced(cfg: Config, s: Stream, venueOf: int -> int, c: int, op: OrderOp, state: OrderState, staged: seq<Trade>, s': Stream)
    requires Inv(s) && FillsKnown(s) && UniqueFills(s.log) && Sourced(s, venueOf)
    requires Resolve(s, state.cid, Some(state.venue)) == Order(c) && s.orders[c].terminal == None
    requires op.Ou? ==> s.orders[c].flagsVerified
    requires staged == StagedFor(s.buffer, s.orders[c], state, op) && HandleOrder(cfg, s, op, state) == Some(s')
    ensures Sourced(s', venueOf) && forall i :: 0 <= i < |staged| ==> staged[i].id !in FilledIds(s.log)
  {
    var x := Of(s, c).(live := s.orders[c].(flagsVerified := true));
    OrderFrameCases(cfg, s, c, op, state, staged, s');
    RejectionSourced(s, venueOf, c, state, x);
    if s.orders[c].rejection == None && StagedValid(cfg, s.orders[c], state, op, staged)
       && AdoptOrder(s, c, x, op, state, staged) == Some(s') {
      ClaimedAreNew(cfg, s, venueOf, c, op, state, staged);
      LiveOrderSourced(cfg, s, venueOf, c, op, state, staged, s');
    }
  }

  lemma OrderFrameSourced(cfg: Config, s: Stream, venueOf: int -> int, op: OrderOp, state: OrderState, s': Stream)
    requires Inv(s) && FillsKnown(s) && UniqueFills(s.log) && Sourced(s, venueOf)
    requires Orderly(s, venueOf, OrderFrame(op, state)) && HandleOrder(cfg, s, op, state) == Some(s')
    ensures Sourced(s', venueOf) && !ReleasesFilled(s, OrderFrame(op, state))
  {
    var found := Resolve(s, state.cid, Some(state.venue));
    if found.Order? && s.orders[found.cid].terminal == None {
      var staged := StagedFor(s.buffer, s.orders[found.cid], state, op);
      LiveFrameSourced(cfg, s, venueOf, found.cid, op, state, staged, s');
    }
  }

  lemma LiveOrderSourced(cfg: Config, s: Stream, venueOf: int -> int, c: int, op: OrderOp, state: OrderState, staged: seq<Trade>, s': Stream)
    requires Inv(s) && FillsKnown(s) && UniqueFills(s.log) && Sourced(s, venueOf)
    requires Resolve(s, state.cid, Some(state.venue)) == Order(c) && s.orders[c].rejection == None && s.orders[c].terminal == None
    requires op.Ou? ==> s.orders[c].flagsVerified
    requires staged == StagedFor(s.buffer, s.orders[c], state, op) && StagedValid(cfg, s.orders[c], state, op, staged)
    requires forall i :: 0 <= i < |staged| ==> venueOf(staged[i].id) == state.venue
    requires AdoptOrder(s, c, Of(s, c).(live := s.orders[c].(flagsVerified := true)), op, state, staged) == Some(s')
    ensures Sourced(s', venueOf)
  {
    var x := Of(s, c).(live := s.orders[c].(flagsVerified := true));
    var y := Adopt(x, op, state, staged).value;
    assert OrderKept(s, c);
    StagedQuantities(cfg, s.orders[c], state, op, staged);
    AdoptKeeps(x, op, state, staged, HistoryOf(s.log, c), SendingOf(s, c));
    StagedIds(s.buffer, s.orders[c], state, op);
    AdoptStep(s, c, x, op, state, staged, y);
    AdoptOrderSourced(s, venueOf, c, op, state, staged, y, s');
  }

  // ---------------------------------------------------------------- the other steps

  lemma FillSourced(cfg: Config, s: Stream, venueOf: int -> int, c: int, t: Trade, s': Stream)
    requires Inv(s) && FillsKnown(s) && UniqueFills(s.log) && Sourced(s, venueOf) && t.venue == venueOf(t.id)
    requires Resolve(s, t.cid, Some(t.venue)) == Order(c) && s.orders[c].rejection == None
    requires TradeValid(cfg, s.orders[c], t) && ApplyFill(Of(s, c), t).Some?
    requires t.id !in s.seen && t.id !in s.interim
    requires s' == Commit(s, c, ApplyFill(Of(s, c), t).value).(seen := s'.seen, interim := s'.interim)
    ensures Sourced(s', venueOf)
  {
    var y := ApplyFill(Of(s, c), t).value;
    assert OrderKept(s, c);
    ApplyFillKeeps(Of(s, c), t, y, HistoryOf(s.log, c), SendingOf(s, c));
    FillStep(s, c, t, y);
    ResolvedVenue(s, t.cid, t.venue, c);
    forall i | 0 <= i < |s'.buffer| ensures Waits(s', venueOf, s'.buffer[i]) {
      assert Waits(s, venueOf, s.buffer[i]);
    }
  }

  lemma BufferSourced(s: Stream, venueOf: int -> int, t: Trade, s': Stream)
    requires Inv(s) && Sourced(s, venueOf) && t.venue == venueOf(t.id)
    requires BufferInterim(s, t) == Some(s')
    requires
      var found := Resolve(s, t.cid, Some(t.venue));
      found == NoOrder || (found.Order? && AwaitsFlags(s.orders[found.cid], t))
    ensures Sourced(s', venueOf)
  {
    var found := Resolve(s, t.cid, Some(t.venue));
    if found.Order? {
      ResolvedVenue(s, t.cid, t.venue, found.cid);
      assert OrderKept(s, found.cid);
    }
    assert t.venue !in s.byVenue;
    forall i | 0 <= i < |s'.buffer| ensures Waits(s', venueOf, s'.buffer[i]) {
      if i < |s.buffer| {
        assert Waits(s, venueOf, s.buffer[i]);
      }
    }
  }

  lemma InterimFrameSourced(cfg: Config, s: Stream, venueOf: int -> int, t: Trade, s': Stream)
    requires Inv(s) && FillsKnown(s) && UniqueFills(s.log) && Sourced(s, venueOf) && t.venue == venueOf(t.id)
    requires HandleInterim(cfg, s, t) == Some(s')
    ensures Sourced(s', venueOf)
  {
    InterimFrameCases(cfg, s, t, s');
    var found := Resolve(s, t.cid, Some(t.venue));
    if s' == s {
    } else if BufferInterim(s, t) == Some(s')
              && (found == NoOrder || (found.Order? && AwaitsFlags(s.orders[found.cid], t))) {
      BufferSourced(s, venueOf, t, s');
    } else {
      FillSourced(cfg, s, venueOf, found.cid, t, s');
    }
  }

  lemma TradeFrameSourced(cfg: Config, s: Stream, venueOf: int -> int, t: Trade, s': Stream)
    requires Inv(s) && FillsKnown(s) && UniqueFills(s.log) && Sourced(s, venueOf) && t.venue == venueOf(t.id)
    requires HandleTrade(cfg, s, t) == Some(s')
    ensures Sourced(s', venueOf)
  {
    var found := Resolve(s, t.cid, Some(t.venue));
    if found.Order? && t.id !in s.seen {
      var c := found.cid;
      if t.id in s.interim {
        FinishSourced(s, venueOf, c);
        SourcedIgnoresSeen(Commit(s, c, FinishTerminal(Of(s, c)).value), s', venueOf);
      } else {
        FillSourced(cfg, s, venueOf, c, t, s');
      }
    }
  }

  lemma FinishSourced(s: Stream, venueOf: int -> int, c: int)
    requires Inv(s) && FillsKnown(s) && UniqueFills(s.log) && Sourced(s, venueOf)
    requires c in s.orders && FinishTerminal(Of(s, c)).Some?
    ensures Sourced(Commit(s, c, FinishTerminal(Of(s, c)).value), venueOf)
  {
    var y := FinishTerminal(Of(s, c)).value;
    assert OrderKept(s, c);
    FinishKeeps(Of(s, c), HistoryOf(s.log, c), SendingOf(s, c));
    FinishPublishes(Of(s, c), y, FilledIds(s.log));
    CommitPublishes(s, c, y, {}, true);
    QuietCommit(s, venueOf, c, y);
  }

  lemma SourcedIgnoresSeen(s: Stream, s': Stream, venueOf: int -> int)
    requires Sourced(s, venueOf) && s' == s.(seen := s'.seen)
    ensures Sourced(s', venueOf)
  {
    forall i | 0 <= i < |s'.buffer| ensures Waits(s', venueOf, s'.buffer[i]) {
      assert Waits(s, venueOf, s.buffer[i]);
    }
  }

  lemma NoticeSourced(s: Stream, venueOf: int -> int, n: Notice, s': Stream)
    requires Inv(s) && FillsKnown(s) && UniqueFills(s.log) && Sourced(s, venueOf) && HandleNotice(s, n) == Some(s')
    ensures Sourced(s', venueOf)
  {
    var found := Resolve(s, n.cid, n.venue);
    if !n.success && found.Order? && s.orders[found.cid].rejection == None {
      var c, key := found.cid, ByNotice(n.status, n.code, n.text);
      var y := NoticeFor(Of(s, c), n.op, key).value;
      NoticePublishes(Of(s, c), n.op, key, y, FilledIds(s.log));
      CommitPublishes(s, c, y, {}, true);
      QuietCommit(s, venueOf, c, y);
    }
  }

  predicate SameTerms(l: Live, l': Live) {
    && l'.terms == l.terms && l'.accepted == l.accepted
    && l'.flagsVerified == l.flagsVerified && l'.rejection == l.rejection
  }

  lemma CommandKeepsTerms(cfg: Config, s: Stream, e: Event, s': Stream, c: int)
    requires CanHappen(s, e) && Step(cfg, s, e) == Some(s') && IsCommand(e) && c in s'.orders
    ensures c in s.orders ==> SameTerms(s.orders[c], s'.orders[c])
    ensures c !in s.orders ==> !s'.orders[c].flagsVerified
  {
    match e
    case ModifyCommand(cid, price, held) => ModifyKeepsTerms(s, cid, price, held, s', c);
    case SendReturns(cid, op, outcome) => EndSendKeepsTerms(s, cid, op, outcome, c);
    case SubmitCommand(cid, terms, price) => SubmitKeepsTerms(s, cid, terms, price, s', c);
    case CancelCommand(cid) => CancelKeepsTerms(s, cid, s', c);
    case DeadlineExpires(cid, op) => ExpireKeepsTerms(s, cid, op, c);
    case Closes => CloseKeepsTerms(cfg, s, c);
  }

  lemma SubmitKeepsTerms(s: Stream, cid: int, terms: Terms, price: int, s': Stream, c: int)
    requires cid !in s.orders && SubmitOrder(s, cid, terms, price) == Some(s') && c in s'.orders
    ensures c in s.orders ==> SameTerms(s.orders[c], s'.orders[c])
    ensures c !in s.orders ==> !s'.orders[c].flagsVerified
  {
  }

  lemma CloseKeepsTerms(cfg: Config, s: Stream, c: int)
    requires c in s.orders
    ensures SameTerms(s.orders[c], CloseStream(cfg, s).orders[c])
  {
  }

  lemma CancelKeepsTerms(s: Stream, cid: int, s': Stream, c: int)
    requires cid in s.orders && CancelOrder(s, cid) == Some(s') && c in s'.orders
    ensures c in s.orders && SameTerms(s.orders[c], s'.orders[c])
  {
  }

  lemma ExpireKeepsTerms(s: Stream, cid: int, op: Operation, c: int)
    requires cid in s.orders && c in s.orders
    ensures SameTerms(s.orders[c], ExpireDeadline(s, cid, op).orders[c])
  {
  }

  lemma ModifyKeepsTerms(s: Stream, cid: int, price: Option<int>, held: bool, s': Stream, c: int)
    requires cid in s.orders && ModifyOrder(s, cid, price, held) == Some(s') && c in s'.orders
    ensures c in s.orders && SameTerms(s.orders[c], s'.orders[c])
  {
  }

  lemma EndSendKeepsTerms(s: Stream, cid: int, op: Operation, outcome: SendOutcome, c: int)
    requires cid in s.orders && c in s.orders
    ensures SameTerms(s.orders[c], EndSend(s, cid, op, outcome).orders[c])
  {
  }

  lemma CommandSourced(cfg: Config, s: Stream, venueOf: int -> int, e: Event, s': Stream)
    requires Inv(s) && FillsKnown(s) && UniqueFills(s.log) && Sourced(s, venueOf)
    requires CanHappen(s, e) && Step(cfg, s, e) == Some(s') && IsCommand(e)
    ensures Sourced(s', venueOf)
  {
    CommandCases(cfg, s, e, s');
    CommandFills(cfg, s, e, s');
    forall c | c in s'.orders && s'.orders[c].flagsVerified && s'.orders[c].rejection == None
      ensures s'.orders[c].accepted
    {
      CommandKeepsTerms(cfg, s, e, s', c);
    }
    forall i | 0 <= i < |s'.buffer| ensures Waits(s', venueOf, s'.buffer[i]) {
      assert Waits(s, venueOf, s.buffer[i]);
      var v := s.buffer[i].venue;
      if v in s'.byVenue && s'.byVenue[v] in s'.orders {
        assert s.byVenue[v] in s.orders;
        CommandKeepsTerms(cfg, s, e, s', s.byVenue[v]);
      }
    }
  }

  // ---------------------------------------------------------------- runs

  ghost predicate FillsSafe(s: Stream, venueOf: int -> int) {
    Inv(s) && FillsKnown(s) && UniqueFills(s.log) && Sourced(s, venueOf)
  }

  lemma OrderlyStep(cfg: Config, s: Stream, venueOf: int -> int, e: Event, s': Stream)
    requires FillsSafe(s, venueOf) && CanHappen(s, e) && Orderly(s, venueOf, e) && Step(cfg, s, e) == Some(s')
    ensures FillsSafe(s', venueOf)
  {
    StepKeeps(cfg, s, e);
    FillsStayUniqueIff(cfg, s, e, s');
    match e
    case OrderFrame(op, state) => OrderFrameSourced(cfg, s, venueOf, op, state, s');
    case InterimFrame(t) => InterimFrameSourced(cfg, s, venueOf, t, s');
    case TradeFrame(t) => TradeFrameSourced(cfg, s, venueOf, t, s');
    case NoticeFrame(n) => NoticeSourced(s, venueOf, n, s');
    case _ => CommandSourced(cfg, s, venueOf, e, s');
  }

  lemma {:induction false} OrderlyRunIsSafe(cfg: Config, venueOf: int -> int, events: seq<Event>)
    requires Run(cfg, EMPTY, events).Some?
    requires forall n :: 0 <= n < |events| && Run(cfg, EMPTY, events[..n]).Some? ==>
      Orderly(Run(cfg, EMPTY, events[..n]).value, venueOf, events[n])
    ensures FillsSafe(Run(cfg, EMPTY, events).value, venueOf)
    decreases |events|
  {
    if events != [] {
      var front := events[..|events| - 1];
      assert forall n :: 0 <= n <= |front| ==> front[..n] == events[..n];
      OrderlyRunIsSafe(cfg, venueOf, front);
      OrderlyStep(cfg, Run(cfg, EMPTY, front).value, venueOf, events[|events| - 1], Run(cfg, EMPTY, events).value);
    }
  }

  /** With an orderly venue, over every interleaving and any repeats, each trade ID is published
      as a fill at most once. */
  lemma EachTradeFillsOnce(cfg: Config, venueOf: int -> int, events: seq<Event>, s: Stream)
    requires Run(cfg, EMPTY, events) == Some(s)
    requires forall n :: 0 <= n < |events| && Run(cfg, EMPTY, events[..n]).Some? ==>
      Orderly(Run(cfg, EMPTY, events[..n]).value, venueOf, events[n])
    ensures forall i, j :: 0 <= i < j < |s.log| && s.log[i].Filled? && s.log[j].Filled? ==> s.log[i].trade != s.log[j].trade
    ensures FilledIds(s.log) == s.seen.Keys + s.interim.Keys
  {
    OrderlyRunIsSafe(cfg, venueOf, events);
    UniqueFillsMean(s.log);
  }
}
