/** What a frame or command must say to be taken, told on its own fields and the order's. */
module OrderStreamGuards {
  import opened Rounding
  import opened OrderStream
  import opened OrderStreamSafety
  import opened OrderStreamRuns
  import opened OrderStreamRaises
  import opened OrderStreamPrices
  import opened OrderStreamTerminals

  // ---------------------------------------------------------------- which order

  predicate Bound(s: Stream, venue: Option<int>, c: int) {
    venue.Some? && venue.value in s.byVenue && s.byVenue[venue.value] == c
  }

  /** The client ID names the order, or is absent and the venue ID does; and neither disagrees. */
  predicate Leads(s: Stream, cid: Option<int>, venue: Option<int>, c: int) {
    && c in s.orders
    && (cid == Some(c) || (cid == None && Bound(s, venue, c)))
    && (venue.Some? && venue.value in s.byVenue ==> Bound(s, venue, c))
    && (venue.Some? && s.orders[c].venue.Some? ==> s.orders[c].venue == venue)
  }

  /** A message is about an order exactly when its IDs lead there, about none when both are unknown,
      and otherwise contradictory. */
  lemma ResolveIff(s: Stream, cid: Option<int>, venue: Option<int>, c: int)
    requires VenuesKept(s)
    ensures Resolve(s, cid, venue) == Order(c) <==> Leads(s, cid, venue, c)
    ensures Resolve(s, cid, venue) == NoOrder <==>
      (cid.Some? ==> cid.value !in s.orders) && (venue.Some? ==> venue.value !in s.byVenue)
  {
    assert forall v :: v in s.byVenue ==> s.byVenue[v] in s.orders;
  }

  // ---------------------------------------------------------------- order frames

  predicate Signed(l: Live, signed: int, size: int) {
    size >= 0 && signed == if l.terms.buy then size else -size
  }

  /** What the terminal, or the paper venue's hidden post-only flag, rests on. */
  predicate MayHidePostOnly(cfg: Config, l: Live, state: OrderState, op: OrderOp) {
    && cfg.paper && !l.terms.ioc && state.postOnlyMeta == None
    && match op
       case On => true
       case Ou => l.pendingModify.Some?
       case Oc => l.accepted && (l.pendingCancel || (l.filled == l.terms.quantity && state.remaining == 0))
  }

  predicate FlagsFit(cfg: Config, l: Live, state: OrderState, op: OrderOp) {
    if l.terms.postOnly then
      state.flags == 4096 || (state.flags == 0 && (state.postOnlyMeta == Some(true) || MayHidePostOnly(cfg, l, state, op)))
    else
      state.flags == (if l.terms.reduceOnly then 1024 else 0) && state.postOnlyMeta != Some(true)
  }

  /** The frame repeats the submitted order: its instrument, client ID, side, size and kind, without an
      expiry, under its flags, at the current price or the one asked for. */
  predicate FrameFits(cfg: Config, l: Live, state: OrderState, op: OrderOp) {
    && state.symbol == cfg.symbol && state.cid == Some(l.cid)
    && state.original != 0 && Signed(l, state.original, l.terms.quantity)
    && (exists left :: 0 <= left <= l.terms.quantity && Signed(l, state.remaining, left))
    && (state.kind.Ioc? || state.kind.Limit?) && (state.kind.Ioc? <==> l.terms.ioc)
    && !state.hasExpiry && FlagsFit(cfg, l, state, op)
    && (state.price == l.currentPrice || l.pendingModify == Some(state.price))
  }

  lemma FlagsFitIff(cfg: Config, l: Live, state: OrderState, op: OrderOp)
    requires Signed(l, state.original, l.terms.quantity)
    ensures FlagsMatch(cfg, l, state, op) <==> FlagsFit(cfg, l, state, op)
  {
  }

  lemma FrameFitsIff(cfg: Config, l: Live, state: OrderState, op: OrderOp)
    ensures OrderStateValid(cfg, l, state, op) <==> FrameFits(cfg, l, state, op)
  {
    if Signed(l, state.original, l.terms.quantity) {
      FlagsFitIff(cfg, l, state, op);
    }
    if OrderStateValid(cfg, l, state, op) {
      assert Signed(l, state.remaining, Abs(state.remaining));
    }
  }

  /** A terminal frame is executed with nothing remaining, or canceled for a known reason. */
  predicate Terminates(state: OrderState) {
    match state.status
    case Executed => state.remaining == 0
    case Active => false
    case PartiallyFilled => false
    case OtherStatus => false
    case _ => true
  }

  // ---------------------------------------------------------------- trades

  /** The execution belongs to the order: its instrument, side, kind, role and order price. */
  predicate TradeFits(cfg: Config, l: Live, t: Trade) {
    && t.symbol == cfg.symbol && t.quantity != 0 && Signed(l, t.quantity, Abs(t.quantity)) && t.price >= 1
    && (t.kind.Ioc? || t.kind.Limit?) && (t.kind.Ioc? <==> l.terms.ioc)
    && (l.pendingModify == Some(t.orderPrice) || t.orderPrice in l.knownPrices)
    && (t.maker <==> l.terms.postOnly)
    && t.cid in {None, Some(l.cid)}
    && (t.fee == None || t.feeInUsd)
  }

  lemma TradeFitsIff(cfg: Config, l: Live, t: Trade)
    ensures TradeValid(cfg, l, t) <==> TradeFits(cfg, l, t)
  {
  }

  /** The frame claims the buffered execution: both under the frame's venue ID or the order's client
      ID, but an update claims only what came without a client ID. */
  predicate ClaimedBy(l: Live, state: OrderState, op: OrderOp, t: Trade) {
    if op.Ou? then t.cid == None && t.venue == state.venue
    else t.venue == state.venue || t.cid == Some(l.cid)
  }

  /** A claimed execution may be applied: a paper, reduce-only IOC one of this very order, made after
      it was created; only a new order adopts one without a client ID. */
  predicate ClaimFits(cfg: Config, l: Live, state: OrderState, op: OrderOp, t: Trade) {
    && !op.Ou? && cfg.paper && l.terms.reduceOnly && l.terms.ioc && state.flags == 1024
    && t.venue == state.venue && t.ms >= state.createdMs && t.onGrid && TradeFits(cfg, l, t)
    && (t.cid == None ==> op.On?)
  }

  ghost predicate Ordered(ts: seq<Trade>) {
    forall i, j :: 0 <= i < j < |ts| ==> ts[i].ms < ts[j].ms || (ts[i].ms == ts[j].ms && ts[i].id <= ts[j].id)
  }

  lemma {:induction false} InsertOrdered(t: Trade, ts: seq<Trade>)
    requires Ordered(ts)
    ensures Ordered(InsertTrade(t, ts))
  {
    if ts != [] && !Earlier(t, ts[0]) {
      InsertOrdered(t, ts[1..]);
      var rest := InsertTrade(t, ts[1..]);
      forall j | 0 <= j < |rest| ensures ts[0].ms < rest[j].ms || (ts[0].ms == rest[j].ms && ts[0].id <= rest[j].id) {
        InsertTradeKeeps(t, ts[1..]);
        assert rest[j] in multiset(rest);
        if rest[j] != t {
          assert rest[j] in ts[1..];
        }
      }
    }
  }

  function Claimed(buffer: seq<Trade>, l: Live, state: OrderState, op: OrderOp): multiset<Trade> {
    if buffer == [] then multiset{}
    else Claimed(buffer[1..], l, state, op) + if ClaimedBy(l, state, op, buffer[0]) then multiset{buffer[0]} else multiset{}
  }

  /** An order frame takes exactly the buffered executions it claims, by time and trade ID. */
  lemma {:induction false} StagedAreClaimed(buffer: seq<Trade>, l: Live, state: OrderState, op: OrderOp)
    ensures Ordered(StagedFor(buffer, l, state, op))
    ensures multiset(StagedFor(buffer, l, state, op)) == Claimed(buffer, l, state, op)
  {
    if buffer != [] {
      StagedAreClaimed(buffer[1..], l, state, op);
      if ClaimedBy(l, state, op, buffer[0]) {
        InsertOrdered(buffer[0], StagedFor(buffer[1..], l, state, op));
        InsertTradeKeeps(buffer[0], StagedFor(buffer[1..], l, state, op));
      }
    }
  }

  /** Every claimed execution fits, and together they exceed neither the order nor its terminal. */
  ghost predicate ClaimsFit(cfg: Config, l: Live, state: OrderState, op: OrderOp, staged: seq<Trade>) {
    && (forall i :: 0 <= i < |staged| ==> ClaimFits(cfg, l, state, op, staged[i]))
    && (staged != [] ==> l.filled + Quantities(staged) <= l.terms.quantity)
    && (staged != [] && op.Oc? ==> l.filled + Quantities(staged) + Abs(state.remaining) <= l.terms.quantity)
  }

  lemma ClaimFitsIff(cfg: Config, l: Live, state: OrderState, op: OrderOp, t: Trade)
    requires cfg.paper && l.terms.reduceOnly && !op.Ou? && state.flags == 1024
    ensures StagedTradeValid(cfg, l, state, op, t) <==> ClaimFits(cfg, l, state, op, t)
  {
    TradeFitsIff(cfg, l, t);
  }

  lemma {:induction false} ClaimsFitIff(cfg: Config, l: Live, state: OrderState, op: OrderOp, staged: seq<Trade>)
    requires Supported(l.terms) && FrameFits(cfg, l, state, op)
    ensures StagedValid(cfg, l, state, op, staged) <==> ClaimsFit(cfg, l, state, op, staged)
  {
    if staged != [] && (StagedValid(cfg, l, state, op, staged) || ClaimsFit(cfg, l, state, op, staged)) {
      assert ClaimsFit(cfg, l, state, op, staged) ==> ClaimFits(cfg, l, state, op, staged[0]);
      forall i | 0 <= i < |staged|
        ensures StagedTradeValid(cfg, l, state, op, staged[i]) <==> ClaimFits(cfg, l, state, op, staged[i])
      {
        ClaimFitsIff(cfg, l, state, op, staged[i]);
      }
    }
  }

  /** An initial rejection: nothing accepted, nothing executed, and the status says so. */
  predicate RejectsNow(l: Live, state: OrderState) {
    && !l.accepted && Abs(state.remaining) == Abs(state.original)
    && match state.status
       case PostOnlyCanceled => true
       case InsufficientMargin => true
       case RsnDust => true
       case RsnPause => true
       case _ => false
  }

  ghost predicate FrameAdmitted(cfg: Config, l: Live, state: OrderState, op: OrderOp, staged: seq<Trade>) {
    && FrameFits(cfg, l, state, op) && ClaimsFit(cfg, l, state, op, staged)
    && (op.Oc? ==> Terminates(state)) && (RejectsNow(l, state) ==> staged == [])
  }

  lemma {:induction false} AdmittedIff(cfg: Config, s: Stream, c: int, op: OrderOp, state: OrderState, staged: seq<Trade>)
    requires Inv(s) && c in s.orders && s.orders[c].terminal == None && staged == StagedFor(s.buffer, s.orders[c], state, op)
    ensures Admitted(cfg, s, c, op, state) <==> FrameAdmitted(cfg, s.orders[c], state, op, staged)
  {
    assert OrderKept(s, c);
    FrameFitsIff(cfg, s.orders[c], state, op);
    if FrameFits(cfg, s.orders[c], state, op) {
      ClaimsFitIff(cfg, s.orders[c], state, op, staged);
    }
  }

  /** A frame about an order raises exactly when it differs from the terminal already held; or does not
      fit the order or the executions it claims; or does not repeat a definitive rejection; or reports
      less executed than was already filled. */
  lemma {:induction false} OrderFrameRaisesIff(cfg: Config, s: Stream, c: int, op: OrderOp, state: OrderState,
                                               staged: seq<Trade>)
    requires Inv(s) && Leads(s, state.cid, Some(state.venue), c)
    requires staged == StagedFor(s.buffer, s.orders[c], state, op)
    ensures
      var l := s.orders[c];
      HandleOrder(cfg, s, op, state) == None <==>
        if l.terminal.Some? then !(op.Oc? && l.terminal == Some(state))
        else if !FrameAdmitted(cfg, l, state, op, staged) then true
        else if l.rejection.Some? then !(RejectsNow(l, state) && l.rejection == Some(ByStatus(state.text)))
        else op.Oc? && !RejectsNow(l, state) && l.filled > Abs(state.original) - Abs(state.remaining)
  {
    ResolveIff(s, state.cid, Some(state.venue), c);
    if s.orders[c].terminal == None {
      AdmittedIff(cfg, s, c, op, state, staged);
      AdmittedAdvances(cfg, s, c, op, state, staged);
      if Admitted(cfg, s, c, op, state) {
        OrderRaisesIff(cfg, s, c, op, state);
      }
    }
  }

  // ---------------------------------------------------------------- executions

  /** The same execution again, now with its fee and perhaps its client ID. */
  predicate Completes(first: Trade, final: Trade) {
    && first.id == final.id && first.venue == final.venue && first.symbol == final.symbol && first.ms == final.ms
    && first.quantity == final.quantity && first.price == final.price && first.kind == final.kind
    && first.orderPrice == final.orderPrice && first.maker == final.maker && first.onGrid == final.onGrid
    && first.cid in {None, final.cid}
  }

  lemma CompletesIff(first: Trade, final: Trade)
    ensures SameExecution(first, final) <==> Completes(first, final)
  {
  }

  /** The fill is not one the order can take: a reduce-only order's flags are unread, it exceeds the
      order or its terminal, or the instrument cannot represent it. */
  predicate Overfills(l: Live, t: Trade) {
    var filled := l.filled + Abs(t.quantity);
    || !t.onGrid || filled > l.terms.quantity || (l.terms.reduceOnly && !l.flagsVerified)
    || (l.terminal.Some? && filled + Abs(l.terminal.value.remaining) > Abs(l.terminal.value.original))
  }

  lemma FillIff(s: Stream, c: int, t: Trade)
    requires Good(s) && s.open && Resolve(s, t.cid, Some(t.venue)) == Order(c) && s.orders[c].rejection == None
    ensures ApplyFill(Of(s, c), t) == None <==> Overfills(s.orders[c], t)
  {
    FoundAgrees(s, t.cid, t.venue, c);
    FillRaisesIff(Of(s, c), t);
  }

  /** The first final update of an execution that was not applied before. */
  predicate NewFill(s: Stream, t: Trade) {
    t.id !in s.seen && t.id !in s.interim
  }

  /** A final update raises exactly when the order is rejected or it does not fit; when it differs from
      the one already seen; when it does not complete the interim execution; or, if it is the first
      news of the execution, when the order cannot take it. */
  lemma TradeFrameRaisesIff(cfg: Config, s: Stream, c: int, t: Trade)
    requires Good(s) && s.open && Leads(s, t.cid, Some(t.venue), c)
    ensures
      var l := s.orders[c];
      HandleTrade(cfg, s, t) == None <==>
        || l.rejection.Some? || !TradeFits(cfg, l, t)
        || (t.id in s.seen && s.seen[t.id] != t)
        || (t.id !in s.seen && t.id in s.interim && !Completes(s.interim[t.id], t))
        || (NewFill(s, t) && Overfills(l, t))
  {
    ResolveIff(s, t.cid, Some(t.venue), c);
    TradeFitsIff(cfg, s.orders[c], t);
    if s.orders[c].rejection == None {
      if t.id in s.interim {
        CompletesIff(s.interim[t.id], t);
        assert TerminalSound(s.orders[c]);
        FinishNeverRaises(Of(s, c));
      } else {
        FillIff(s, c, t);
      }
    }
  }

  // ---------------------------------------------------------------- interim executions

  /** The first buffered execution under this ID. */
  predicate FirstBuffered(buffer: seq<Trade>, id: int, k: nat) {
    k < |buffer| && buffer[k].id == id && forall j :: 0 <= j < k ==> buffer[j].id != id
  }

  lemma {:induction false} FindIsFirst(buffer: seq<Trade>, id: int) returns (k: nat)
    ensures FindBuffered(buffer, id).Some? ==> FirstBuffered(buffer, id, k) && FindBuffered(buffer, id) == Some(buffer[k])
    ensures FindBuffered(buffer, id) == None ==> forall j :: 0 <= j < |buffer| ==> buffer[j].id != id
  {
    k := 0;
    if buffer != [] && buffer[0].id != id {
      var m := FindIsFirst(buffer[1..], id);
      k := m + 1;
      assert forall j :: 0 < j < |buffer| ==> buffer[j] == buffer[1..][j - 1];
    }
  }

  predicate IsBuffered(s: Stream, t: Trade) {
    exists k :: 0 <= k < |s.buffer| && s.buffer[k].id == t.id
  }

  /** An execution that must wait differs from what is known of it, or there is no room. */
  ghost predicate BufferRefuses(s: Stream, t: Trade) {
    if t.id in s.seen then !Completes(t, s.seen[t.id])
    else if t.id in s.interim then s.interim[t.id] != t
    else if IsBuffered(s, t) then exists k: nat :: FirstBuffered(s.buffer, t.id, k) && s.buffer[k] != t
    else |s.buffer| >= 256
  }

  lemma BufferRefusesIff(s: Stream, t: Trade)
    ensures BufferInterim(s, t) == None <==> BufferRefuses(s, t)
    ensures BufferInterim(s, t) in {None, Some(if NewFill(s, t) && !IsBuffered(s, t) then s.(buffer := s.buffer + [t]) else s)}
  {
    if t.id in s.seen {
      CompletesIff(t, s.seen[t.id]);
    }
    var k := FindIsFirst(s.buffer, t.id);
    if m: nat :| FirstBuffered(s.buffer, t.id, m) {
      assert m == k;
    }
  }

  /** A reduce-only IOC execution that comes before the order's flags are read waits for them. */
  predicate Awaits(l: Live, t: Trade) {
    l.terms.reduceOnly && l.terms.ioc && t.cid == Some(l.cid) && !(l.accepted || l.flagsVerified || l.terminal.Some?)
  }

  /** An interim execution of an order raises exactly when the order is rejected or it does not fit;
      and, on paper, when it cannot wait for the flags, differs from what is known of it, or is news
      that the order cannot take. */
  lemma InterimFrameRaisesIff(cfg: Config, s: Stream, c: int, t: Trade)
    requires Good(s) && s.open && Leads(s, t.cid, Some(t.venue), c)
    ensures
      var l := s.orders[c];
      HandleInterim(cfg, s, t) == None <==>
        || l.rejection.Some? || !TradeFits(cfg, l, t)
        || (cfg.paper &&
              if Awaits(l, t) then BufferRefuses(s, t)
              else if t.id in s.interim then s.interim[t.id] != t
              else if t.id in s.seen then !Completes(t, s.seen[t.id])
              else Overfills(l, t))
  {
    ResolveIff(s, t.cid, Some(t.venue), c);
    TradeFitsIff(cfg, s.orders[c], t);
    BufferRefusesIff(s, t);
    if t.id in s.seen {
      CompletesIff(t, s.seen[t.id]);
    }
    if s.orders[c].rejection == None {
      FillIff(s, c, t);
    }
  }

  /** Of an execution of no known order the paper client keeps what may be its own: an IOC taker's,
      without a client ID.  It raises exactly when such a one is malformed or cannot wait. */
  lemma StrayInterimRaisesIff(cfg: Config, s: Stream, t: Trade)
    requires Inv(s) && (t.cid.Some? ==> t.cid.value !in s.orders) && t.venue !in s.byVenue
    ensures HandleInterim(cfg, s, t) == None <==>
      && cfg.paper && t.cid == None
      && (t.symbol != cfg.symbol || !t.kind.Ioc? || t.orderPrice <= 0 || t.maker || BufferRefuses(s, t))
    ensures !(cfg.paper && t.cid == None) ==> HandleInterim(cfg, s, t) == Some(s)
  {
    ResolveIff(s, t.cid, Some(t.venue), 0);
    BufferRefusesIff(s, t);
  }

  // ---------------------------------------------------------------- what an execution leaves

  predicate SameTrades(s: Stream, s': Stream) {
    s'.seen == s.seen && s'.interim == s.interim && s'.buffer == s.buffer
  }

  /** A final update is remembered, and fills the order by its quantity exactly when it is the first
      news of its execution. */
  lemma TradeFrameLeaves(cfg: Config, s: Stream, c: int, t: Trade, s': Stream)
    requires Good(s) && s.open && Leads(s, t.cid, Some(t.venue), c) && HandleTrade(cfg, s, t) == Some(s')
    ensures c in s'.orders && s'.seen == s.seen[t.id := t] && s'.interim == s.interim && s'.buffer == s.buffer
    ensures s'.orders[c].filled == s.orders[c].filled + if NewFill(s, t) then Abs(t.quantity) else 0
    ensures t.id in s.seen ==> s' == s
  {
    ResolveIff(s, t.cid, Some(t.venue), c);
    if t.id in s.seen {
      assert s.seen[t.id := t] == s.seen;
    } else if t.id in s.interim {
      assert TerminalSound(s.orders[c]);
      FinishNeverRaises(Of(s, c));
    } else {
      FoundAgrees(s, t.cid, t.venue, c);
      assert TerminalSound(s.orders[c]);
      FillRaisesIff(Of(s, c), t);
    }
  }

  /** A paper interim execution of an order waits, repeats what is known, or is remembered and fills
      the order by its quantity; off paper it leaves nothing. */
  lemma InterimFrameLeaves(cfg: Config, s: Stream, c: int, t: Trade, s': Stream)
    requires Good(s) && s.open && Leads(s, t.cid, Some(t.venue), c) && HandleInterim(cfg, s, t) == Some(s')
    ensures !cfg.paper || t.id in s.interim || t.id in s.seen ==> s' == s
    ensures cfg.paper && NewFill(s, t) && Awaits(s.orders[c], t) ==>
      s' == if IsBuffered(s, t) then s else s.(buffer := s.buffer + [t])
    ensures cfg.paper && NewFill(s, t) && !Awaits(s.orders[c], t) ==>
      && s'.interim == s.interim[t.id := t] && s'.seen == s.seen && s'.buffer == s.buffer && c in s'.orders
      && s'.orders[c].filled == s.orders[c].filled + Abs(t.quantity)
  {
    ResolveIff(s, t.cid, Some(t.venue), c);
    BufferRefusesIff(s, t);
    if cfg.paper && NewFill(s, t) && !Awaits(s.orders[c], t) {
      FoundAgrees(s, t.cid, t.venue, c);
      assert TerminalSound(s.orders[c]);
      FillRaisesIff(Of(s, c), t);
    }
  }

  // ---------------------------------------------------------------- what an order frame leaves

  lemma {:induction false} WithoutIs(buffer: seq<Trade>, staged: seq<Trade>, t: Trade)
    ensures t in Without(buffer, staged) <==> t in buffer && forall k :: 0 <= k < |staged| ==> staged[k].id != t.id
  {
    if buffer != [] {
      WithoutIs(buffer[1..], staged, t);
      var k := FindIsFirst(staged, buffer[0].id);
    }
  }

  lemma {:induction false} WithInterimsIs(interim: map<int, Trade>, staged: seq<Trade>, id: int)
    ensures id in WithInterims(interim, staged) <==> id in interim || exists k :: 0 <= k < |staged| && staged[k].id == id
    ensures id in WithInterims(interim, staged) ==>
      (WithInterims(interim, staged)[id] in staged && WithInterims(interim, staged)[id].id == id)
      || (id in interim && WithInterims(interim, staged)[id] == interim[id] && forall k :: 0 <= k < |staged| ==> staged[k].id != id)
    decreases |staged|
  {
    if staged != [] {
      WithInterimsIs(interim[staged[0].id := staged[0]], staged[1..], id);
      assert staged == [staged[0]] + staged[1..];
    }
  }

  /** A frame that is not repeated or refused either rejects the order, which is published at once and
      settles it with nothing pending; or is adopted. */
  lemma {:induction false} OrderFrameRejects(cfg: Config, s: Stream, c: int, op: OrderOp, state: OrderState, s': Stream)
    requires Inv(s) && Leads(s, state.cid, Some(state.venue), c) && HandleOrder(cfg, s, op, state) == Some(s')
    requires s.orders[c].terminal == None && s.orders[c].rejection == None && RejectsNow(s.orders[c], state)
    ensures c in s'.orders && s'.log == s.log + [Rejected(c)]
    ensures
      var l' := s'.orders[c];
      l'.rejection == Some(ByStatus(state.text)) && l'.terminal == Some(state) && l'.terminalEmitted && l'.unknown == {}
    ensures SameTrades(s, s') && s'.byVenue == s.byVenue && forall o :: (c, o) !in s'.deadlines
  {
    assert OrderKept(s, c);
    ResolveIff(s, state.cid, Some(state.venue), c);
    AdmittedAdvances(cfg, s, c, op, state, StagedFor(s.buffer, s.orders[c], state, op));
    RejectLeaves(s, c, state, s');
  }

  lemma RejectLeaves(s: Stream, c: int, state: OrderState, s': Stream)
    requires c in s.orders && s.orders[c].cid == c
    requires s' == Commit(s, c, RejectByStatus(Of(s, c).(live := s.orders[c].(flagsVerified := true)), state))
    ensures s'.orders.Keys == s.orders.Keys && s'.log == s.log + [Rejected(c)]
    ensures
      var l' := s'.orders[c];
      l'.rejection == Some(ByStatus(state.text)) && l'.terminal == Some(state) && l'.terminalEmitted && l'.unknown == {}
    ensures SameTrades(s, s') && s'.byVenue == s.byVenue && forall o :: (c, o) !in s'.deadlines
  {
  }

  lemma {:induction false} AdvanceAdopts(cfg: Config, s: Stream, c: int, op: OrderOp, state: OrderState, s': Stream,
                                         x: Local, staged: seq<Trade>)
    requires Inv(s) && Leads(s, state.cid, Some(state.venue), c) && HandleOrder(cfg, s, op, state) == Some(s')
    requires s.orders[c].terminal == None && s.orders[c].rejection == None && !RejectsNow(s.orders[c], state)
    requires x == Of(s, c).(live := s.orders[c].(flagsVerified := true)) && staged == StagedFor(s.buffer, s.orders[c], state, op)
    ensures Resolve(s, state.cid, Some(state.venue)) == Order(c) && Admitted(cfg, s, c, op, state)
    ensures Adopt(x, op, state, staged).Some?
    ensures s' == Commit(s, c, Adopt(x, op, state, staged).value).(interim := WithInterims(s.interim, staged),
                                                                  buffer := Without(s.buffer, staged))
  {
    ResolveIff(s, state.cid, Some(state.venue), c);
    AdmittedAdvances(cfg, s, c, op, state, staged);
    AdmittedIff(cfg, s, c, op, state, staged);
  }

  /** An adopted frame accepts the order under its venue ID, fills it by exactly the executions it
      claims, which it remembers instead of keeping them waiting, and if it ends the order is its
      terminal, after which nothing is asked of it, in doubt or awaited. */
  lemma {:induction false} OrderFrameAdopts(cfg: Config, s: Stream, c: int, op: OrderOp, state: OrderState,
                                            s': Stream, staged: seq<Trade>)
    requires Inv(s) && Leads(s, state.cid, Some(state.venue), c) && HandleOrder(cfg, s, op, state) == Some(s')
    requires s.orders[c].terminal == None && s.orders[c].rejection == None && !RejectsNow(s.orders[c], state)
    requires staged == StagedFor(s.buffer, s.orders[c], state, op)
    ensures c in s'.orders && s'.byVenue == s.byVenue[state.venue := c]
    ensures
      var l' := s'.orders[c];
      && l'.accepted && l'.venue == Some(state.venue) && l'.flagsVerified && l'.rejection == None
      && l'.terminal == (if op.Oc? then Some(state) else None)
      && l'.filled == s.orders[c].filled + Quantities(staged)
      && (op.Oc? ==> !l'.pendingCancel && l'.unknown == {} && forall o :: (c, o) !in s'.deadlines)
    ensures s'.interim == WithInterims(s.interim, staged) && s'.buffer == Without(s.buffer, staged) && s'.seen == s.seen
  {
    var x := Of(s, c).(live := s.orders[c].(flagsVerified := true));
    AdvanceAdopts(cfg, s, c, op, state, s', x, staged);
    AdoptedIs(cfg, s, c, op, state, x, staged, Adopt(x, op, state, staged).value);
    if op.Oc? {
      TerminalQuiets(x, state, staged, Adopt(x, op, state, staged).value);
    }
  }

  /** Nothing more is asked, in doubt or awaited. */
  predicate NoMore(x: Local, y: Local) {
    y.live.unknown <= x.live.unknown && y.waiting <= x.waiting && (y.live.pendingCancel ==> x.live.pendingCancel)
  }

  lemma AcceptQuiets(x: Local, venue: int, y: Local)
    requires Accept(x, venue) == Some(y)
    ensures NoMore(x, y)
  {
  }

  lemma AckQuiets(x: Local, price: int, y: Local)
    requires AckPendingPrice(x, price) == Some(y)
    ensures NoMore(x, y)
  {
  }

  lemma RecordQuiets(x: Local, t: Trade, next: int)
    ensures NoMore(x, RecordFill(x, t, next))
  {
  }

  lemma FillQuiets(x: Local, t: Trade, y: Local)
    requires ApplyFill(x, t) == Some(y)
    ensures NoMore(x, y)
  {
    var next := x.live.filled + Abs(t.quantity);
    var accepted := Accept(x, t.venue).value;
    AcceptQuiets(x, t.venue, accepted);
    var ready := AckPendingPrice(accepted, t.orderPrice).value;
    AckQuiets(accepted, t.orderPrice, ready);
    var recorded := RecordFill(ready, t, next);
    RecordQuiets(ready, t, next);
    FinishQuiets(recorded, y);
  }

  lemma {:induction false} ReleaseQuiets(x: Local, staged: seq<Trade>, y: Local)
    requires Release(x, staged) == Some(y)
    ensures NoMore(x, y)
    decreases |staged|
  {
    if staged != [] {
      FillQuiets(x, staged[0], ApplyFill(x, staged[0]).value);
      ReleaseQuiets(ApplyFill(x, staged[0]).value, staged[1..], y);
    }
  }

  lemma {:induction false} TerminalQuiets(x: Local, state: OrderState, staged: seq<Trade>, y: Local)
    requires Adopt(x, Oc, state, staged) == Some(y)
    ensures y.live.unknown == {} && y.waiting == {} && !y.live.pendingCancel
  {
    var released := Unfinished(x, Oc, state, staged).value;
    var taken := TakeTerminal(AcceptAndAck(x, state.venue, state.price).value, state);
    ReleaseQuiets(taken, staged, released);
    FinishQuiets(released, y);
  }

  lemma FinishQuiets(x: Local, y: Local)
    requires FinishTerminal(x) == Some(y)
    ensures NoMore(x, y)
  {
  }

  lemma {:induction false} AdoptedIs(cfg: Config, s: Stream, c: int, op: OrderOp, state: OrderState, x: Local,
                                     staged: seq<Trade>, y: Local)
    requires Inv(s) && Resolve(s, state.cid, Some(state.venue)) == Order(c) && Admitted(cfg, s, c, op, state)
    requires s.orders[c].rejection == None && staged == StagedFor(s.buffer, s.orders[c], state, op)
    requires x == Of(s, c).(live := s.orders[c].(flagsVerified := true)) && Adopt(x, op, state, staged) == Some(y)
    ensures y.live.accepted && y.live.flagsVerified && y.live.rejection == None && y.live.venue == Some(state.venue)
    ensures y.bound == Some(state.venue) && y.live.terminal == (if op.Oc? then Some(state) else None)
    ensures y.live.filled == s.orders[c].filled + Quantities(staged)
  {
    assert OrderKept(s, c);
    AdmittedStaged(cfg, s, c, op, state, staged);
    AdoptKeeps(x, op, state, staged, HistoryOf(s.log, c), SendingOf(s, c));
    InvUnended(s, c);
    AdoptEnds(x, op, state, staged, CanceledOrder(c) in s.log, y);
    AdoptFills(cfg, s, c, op, state, x, staged, y);
  }

  lemma {:induction false} AdoptFills(cfg: Config, s: Stream, c: int, op: OrderOp, state: OrderState, x: Local,
                                      staged: seq<Trade>, y: Local)
    requires Inv(s) && Resolve(s, state.cid, Some(state.venue)) == Order(c) && Admitted(cfg, s, c, op, state)
    requires s.orders[c].rejection == None && staged == StagedFor(s.buffer, s.orders[c], state, op)
    requires x == Of(s, c).(live := s.orders[c].(flagsVerified := true)) && Adopt(x, op, state, staged) == Some(y)
    ensures y.live.filled == x.live.filled + Quantities(staged)
  {
    var ready := AcceptAndAck(x, state.venue, state.price).value;
    AcceptAndAckEnd(x, state.venue, state.price, ready);
    var released := Unfinished(x, op, state, staged).value;
    ReleaseQuantities(if op.Oc? then TakeTerminal(ready, state) else ready, staged, released);
    if op.Oc? {
      FinishesOnly(released, y);
    }
  }

  lemma {:induction false} ReleaseQuantities(x: Local, staged: seq<Trade>, y: Local)
    requires Release(x, staged) == Some(y)
    ensures y.live.filled == x.live.filled + Quantities(staged)
    decreases |staged|
  {
    if staged != [] {
      var first := ApplyFill(x, staged[0]).value;
      FillFills(x, staged[0], first);
      ReleaseQuantities(first, staged[1..], y);
    }
  }

  // ---------------------------------------------------------------- notices

  /** A failure notice raises exactly when it fails what is neither pending nor in doubt, or contradicts
      the definitive rejection; a success notice changes nothing. */
  lemma NoticeRaisesIff(s: Stream, n: Notice, c: int)
    requires Inv(s) && Leads(s, n.cid, n.venue, c)
    ensures
      var l := s.orders[c];
      HandleNotice(s, n) == None <==>
        && !n.success
        && if l.rejection.Some? then !(n.op.On? && l.rejection == Some(ByNotice(n.status, n.code, n.text)))
           else match n.op
                case On => l.accepted
                case Ou => l.pendingModify == None && Modify !in l.unknown
                case Oc => !l.pendingCancel && Cancel !in l.unknown
    ensures n.success ==> HandleNotice(s, n) == Some(s)
  {
    ResolveIff(s, n.cid, n.venue, c);
  }

  /** What a failure leaves: the operation is neither pending, in doubt nor awaited any longer, and its
      rejection is published. */
  lemma NoticeLeaves(s: Stream, n: Notice, c: int, s': Stream)
    requires Inv(s) && Leads(s, n.cid, n.venue, c) && !n.success && s.orders[c].rejection == None
    requires HandleNotice(s, n) == Some(s')
    ensures c in s'.orders
    ensures
      var l, l' := s.orders[c], s'.orders[c];
      match n.op
      case On => && s'.log == s.log + [Rejected(c)] && l'.rejection == Some(ByNotice(n.status, n.code, n.text))
                 && l'.unknown == {} && l'.terminalEmitted && (forall o :: (c, o) !in s'.deadlines)
      case Ou => && s'.log == s.log + [ModifyRejected(c)] && l' == l.(pendingModify := None, unknown := l.unknown - {Modify})
                 && s'.deadlines == s.deadlines - {(c, Modify)}
      case Oc => && s'.log == s.log + [CancelRejected(c)] && l' == l.(pendingCancel := false, unknown := l.unknown - {Cancel})
                 && s'.deadlines == s.deadlines - {(c, Cancel)}
  {
    ResolveIff(s, n.cid, n.venue, c);
    assert OrderKept(s, c);
    match n.op
    case On =>
    case Ou => DeadlineDrops(s.deadlines, c, Modify);
    case Oc => DeadlineDrops(s.deadlines, c, Cancel);
  }

  lemma DeadlineDrops(deadlines: set<Key>, c: int, op: Operation)
    ensures (set k <- deadlines | k.0 != c) + (set o <- WaitingOn(deadlines, c) - {op} :: (c, o)) == deadlines - {(c, op)}
  {
    assert forall k: Key :: k == (k.0, k.1);
  }

  // ---------------------------------------------------------------- commands and their sends

  /** Only these orders are sent; any other is denied and never known. */
  lemma SubmitSentIff(s: Stream, cid: int, terms: Terms, price: int)
    requires Inv(s) && cid !in s.orders
    ensures
      var sent := if terms.reduceOnly then terms.ioc && !terms.postOnly else terms.ioc == !terms.postOnly;
      var submitted := Live(terms, cid, price, {price}, {}, None, false, 0, None, false, None, false, None, false);
      SubmitOrder(s, cid, terms, price) == Some(
        if !sent then s
        else s.(sending := s.sending + multiset{(cid, Submit)}, orders := s.orders[cid := submitted]))
  {
    assert forall k: Key :: k in s.deadlines ==> k.0 in s.orders;
    assert (cid, Submit) !in s.deadlines;
  }

  /** A change is sent exactly for an accepted order without a terminal, with nothing else asked of it;
      otherwise the refusal is published and nothing changes. */
  lemma ModifySentIff(s: Stream, c: int, price: Option<int>, held: bool)
    requires Inv(s) && c in s.orders
    ensures
      var l := s.orders[c];
      var free := l.accepted && l.terminal == None && !l.pendingCancel && l.pendingModify == None;
      ModifyOrder(s, c, price, held) == Some(
        if free && !held && price.Some? then
          s.(orders := s.orders[c := l.(pendingModify := price)], sending := s.sending + multiset{(c, Modify)})
        else s.(log := s.log + [ModifyRejected(c)]))
  {
    assert OrderKept(s, c);
    InvRemembers(s, c, Modify);
  }

  lemma CancelSentIff(s: Stream, c: int)
    requires Inv(s) && c in s.orders
    ensures
      var l := s.orders[c];
      CancelOrder(s, c) == Some(
        if l.accepted && l.terminal == None && !l.pendingCancel then
          s.(orders := s.orders[c := l.(pendingCancel := true)], sending := s.sending + multiset{(c, Cancel)})
        else s.(log := s.log + [CancelRejected(c)]))
  {
    assert OrderKept(s, c);
    InvRemembers(s, c, Cancel);
  }

  /** A send that raised, or returned to a closed stream, is in doubt; one that returned is awaited
      exactly while nothing has answered it. */
  lemma SendLeaves(s: Stream, c: int, op: Operation, outcome: SendOutcome, s': Stream)
    requires c in s.orders && s' == EndSend(s, c, op, outcome)
    ensures
      var l := s.orders[c];
      var unanswered := match op
        case Submit => !l.accepted && l.rejection == None && !l.terminalEmitted
        case Modify => l.pendingModify != None
        case Cancel => l.pendingCancel && l.terminal == None;
      var back := s.(sending := s.sending - multiset{(c, op)});
      s' == if outcome == SendRaised || !s.open then back.(orders := s.orders[c := l.(unknown := l.unknown + {op})])
            else if unanswered then back.(deadlines := s.deadlines + {(c, op)}) else back
  {
  }

  /** An expired deadline is over, and its operation in doubt. */
  lemma ExpiryLeaves(s: Stream, c: int, op: Operation)
    requires c in s.orders
    ensures ExpireDeadline(s, c, op) ==
      if (c, op) in s.deadlines then
        s.(deadlines := s.deadlines - {(c, op)}, orders := s.orders[c := s.orders[c].(unknown := s.orders[c].unknown + {op})])
      else s
  {
  }

  /** Closing puts in doubt what was awaited, and the submission of every paper IOC order that may
      have ended unseen; nothing else. */
  lemma CloseLeaves(cfg: Config, s: Stream, c: int)
    requires c in s.orders
    ensures
      var l, l' := s.orders[c], CloseStream(cfg, s).orders[c];
      var awaited := set op: Operation | (c, op) in s.deadlines;
      var unseen := cfg.paper && l.terms.ioc && l.filled < l.terms.quantity && l.pendingModify == None
        && l.terminal == None && l.rejection == None && !l.terminalEmitted && Modify !in l.unknown + awaited;
      l' == l.(unknown := l.unknown + awaited + if unseen then {Submit} else {})
  {
  }
}
