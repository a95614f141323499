/** The published trade IDs: the recorded trades are always exactly those published as fills.

    One step can publish a trade ID a second time in exactly one way, which is a condition on the
    state before the step that a caller could look at: an order frame that claims a buffered
    execution already recorded as interim or final.  Each kind of step is shown to publish what it
    records and to record what it publishes, so that the condition is both needed and enough. */
module OrderStreamFills {
  import opened Rounding
  import opened OrderStream
  import opened OrderStreamSafety
  import opened OrderStreamRuns

  // ---------------------------------------------------------------- the published trade IDs

  function FilledIds(log: seq<Emission>): set<int> {
    if log == [] then {}
    else
      var last := log[|log| - 1];
      FilledIds(log[..|log| - 1]) + if last.Filled? then {last.trade} else {}
  }

  /** No trade ID is filled twice, nor any of `ids` again. */
  predicate UniqueAfter(ids: set<int>, log: seq<Emission>) {
    log == [] ||
    (&& UniqueAfter(ids, log[..|log| - 1])
     && (log[|log| - 1].Filled? ==> log[|log| - 1].trade !in ids + FilledIds(log[..|log| - 1])))
  }

  predicate UniqueFills(log: seq<Emission>) {
    UniqueAfter({}, log)
  }

  lemma {:induction false} FilledIdsMean(log: seq<Emission>, i: int)
    requires 0 <= i < |log| && log[i].Filled?
    ensures log[i].trade in FilledIds(log)
  {
    if i < |log| - 1 {
      FilledIdsMean(log[..|log| - 1], i);
    }
  }

  lemma {:induction false} UniqueFillsMean(log: seq<Emission>)
    requires UniqueFills(log)
    ensures forall i, j :: 0 <= i < j < |log| && log[i].Filled? && log[j].Filled? ==> log[i].trade != log[j].trade
  {
    if log != [] {
      var front := log[..|log| - 1];
      UniqueFillsMean(front);
      forall i | 0 <= i < |log| - 1 && log[i].Filled? && log[|log| - 1].Filled?
        ensures log[i].trade != log[|log| - 1].trade
      {
        FilledIdsMean(front, i);
      }
    }
  }

  lemma {:induction false} UniqueAppend(ids: set<int>, log: seq<Emission>, out: seq<Emission>)
    ensures FilledIds(log + out) == FilledIds(log) + FilledIds(out)
    ensures UniqueAfter(ids, log + out) <==> UniqueAfter(ids, log) && UniqueAfter(ids + FilledIds(log), out)
    decreases |out|
  {
    if out == [] {
      assert log + out == log;
    } else {
      UniqueAppend(ids, log, out[..|out| - 1]);
      assert (log + out)[..|log + out| - 1] == log + out[..|out| - 1];
    }
  }

  // ---------------------------------------------------------------- what one order's work publishes

  /** `y` published the fills of `ids` beyond those of `x`; all are new if they were fresh. */
  ghost predicate Publishes(x: Local, y: Local, ids: set<int>, newAll: bool, before: set<int>) {
    && FilledIds(y.out) == FilledIds(x.out) + ids
    && (UniqueAfter(before, y.out) <==> UniqueAfter(before, x.out) && newAll)
  }

  lemma PublishOne(x: Local, e: Emission, before: set<int>)
    ensures FilledIds(Publish(x, e).out) == FilledIds(x.out) + (if e.Filled? then {e.trade} else {})
    ensures UniqueAfter(before, Publish(x, e).out) <==>
      UniqueAfter(before, x.out) && (e.Filled? ==> e.trade !in before + FilledIds(x.out))
  {
    assert Publish(x, e).out[..|x.out|] == x.out;
  }

  lemma AcceptAndAckPublishes(x: Local, venue: int, price: int, y: Local, before: set<int>)
    requires AcceptAndAck(x, venue, price) == Some(y)
    ensures Publishes(x, y, {}, true, before)
  {
    var a := Accept(x, venue).value;
    PublishOne(x, Accepted(x.live.cid), before);
    PublishOne(a, Updated(x.live.cid, price), before);
  }

  lemma FinishPublishes(x: Local, y: Local, before: set<int>)
    requires FinishTerminal(x) == Some(y)
    ensures Publishes(x, y, {}, true, before)
  {
    PublishOne(x, CanceledOrder(x.live.cid), before);
  }

  lemma RecordFillPublishes(x: Local, t: Trade, next: int, before: set<int>)
    ensures Publishes(x, RecordFill(x, t, next), {t.id}, t.id !in before + FilledIds(x.out), before)
  {
    PublishOne(x, Filled(x.live.cid, t.id, Abs(t.quantity)), before);
  }

  lemma ApplyFillPublishes(x: Local, t: Trade, y: Local, before: set<int>)
    requires ApplyFill(x, t) == Some(y)
    ensures Publishes(x, y, {t.id}, t.id !in before + FilledIds(x.out), before)
  {
    CompleteFillPublishes(x, t, x.live.filled + Abs(t.quantity), y, before);
  }

  lemma CompleteFillPublishes(x: Local, t: Trade, next: int, y: Local, before: set<int>)
    requires CompleteFill(x, t, next) == Some(y)
    ensures Publishes(x, y, {t.id}, t.id !in before + FilledIds(x.out), before)
  {
    var ready := AcceptAndAck(x, t.venue, t.orderPrice).value;
    var recorded := RecordFill(ready, t, next);
    AcceptAndAckPublishes(x, t.venue, t.orderPrice, ready, before);
    RecordFillPublishes(ready, t, next, before);
    FinishPublishes(recorded, y, before);
    PublishesTwice(x, ready, {}, true, recorded, {t.id}, t.id !in before + FilledIds(ready.out), before);
    PublishesTwice(x, recorded, {t.id}, t.id !in before + FilledIds(x.out), y, {}, true, before);
  }

  lemma PublishesTwice(x: Local, y: Local, ids: set<int>, newAll: bool, z: Local, more: set<int>, newMore: bool, before: set<int>)
    requires Publishes(x, y, ids, newAll, before) && Publishes(y, z, more, newMore, before)
    ensures Publishes(x, z, ids + more, newAll && newMore, before)
  {
  }

  function IdsOf(ts: seq<Trade>): set<int> {
    if ts == [] then {} else {ts[0].id} + IdsOf(ts[1..])
  }

  predicate DistinctIds(ts: seq<Trade>) {
    ts == [] || (ts[0].id !in IdsOf(ts[1..]) && DistinctIds(ts[1..]))
  }

  lemma {:induction false} ReleasePublishes(x: Local, staged: seq<Trade>, y: Local, before: set<int>)
    requires Release(x, staged) == Some(y) && DistinctIds(staged)
    ensures Publishes(x, y, IdsOf(staged), IdsOf(staged) !! before + FilledIds(x.out), before)
    decreases |staged|
  {
    if staged != [] {
      var a, ids, rest := ApplyFill(x, staged[0]).value, {staged[0].id}, IdsOf(staged[1..]);
      ApplyFillPublishes(x, staged[0], a, before);
      ReleasePublishes(a, staged[1..], y, before);
      PublishesTwice(x, a, ids, staged[0].id !in before + FilledIds(x.out), y, rest, rest !! before + FilledIds(a.out), before);
    }
  }

  lemma ReleaseAndFinishPublish(x: Local, op: OrderOp, staged: seq<Trade>, y: Local, before: set<int>)
    requires Release(x, staged).Some? && DistinctIds(staged)
    requires (if op.Oc? then FinishTerminal(Release(x, staged).value) else Release(x, staged)) == Some(y)
    ensures Publishes(x, y, IdsOf(staged), IdsOf(staged) !! before + FilledIds(x.out), before)
  {
    var r := Release(x, staged).value;
    ReleasePublishes(x, staged, r, before);
    if op.Oc? {
      FinishPublishes(r, y, before);
    }
  }

  lemma PublishesInTurn(x: Local, a: Local, b: Local, y: Local, ids: set<int>, before: set<int>)
    requires Publishes(x, a, {}, true, before) && b.out == a.out
    requires Publishes(b, y, ids, ids !! before + FilledIds(b.out), before)
    ensures Publishes(x, y, ids, ids !! before + FilledIds(x.out), before)
  {
  }

  lemma AdoptPublishes(x: Local, op: OrderOp, state: OrderState, staged: seq<Trade>, y: Local, before: set<int>)
    requires Adopt(x, op, state, staged) == Some(y) && DistinctIds(staged)
    ensures Publishes(x, y, IdsOf(staged), IdsOf(staged) !! before + FilledIds(x.out), before)
  {
    var a := AcceptAndAck(x, state.venue, state.price).value;
    AcceptAndAckPublishes(x, state.venue, state.price, a, before);
    var b := if op.Oc? then TakeTerminal(a, state) else a;
    ReleaseAndFinishPublish(b, op, staged, y, before);
    PublishesInTurn(x, a, b, y, IdsOf(staged), before);
  }

  lemma NoticePublishes(x: Local, op: OrderOp, key: Rejection, y: Local, before: set<int>)
    requires NoticeFor(x, op, key) == Some(y)
    ensures Publishes(x, y, {}, true, before)
  {
    PublishOne(x, Rejected(x.live.cid), before);
    PublishOne(x, ModifyRejected(x.live.cid), before);
    PublishOne(x, CancelRejected(x.live.cid), before);
  }

  lemma RejectPublishes(x: Local, state: OrderState, before: set<int>)
    ensures Publishes(x, RejectByStatus(x, state), {}, true, before)
  {
    PublishOne(x, Rejected(x.live.cid), before);
  }

  // ---------------------------------------------------------------- the interim buffer

  lemma {:induction false} FindMeans(ts: seq<Trade>, id: int)
    ensures FindBuffered(ts, id).Some? <==> id in IdsOf(ts)
  {
    if ts != [] {
      FindMeans(ts[1..], id);
    }
  }

  lemma {:induction false} AppendIds(ts: seq<Trade>, t: Trade)
    ensures IdsOf(ts + [t]) == IdsOf(ts) + {t.id}
    ensures DistinctIds(ts) && t.id !in IdsOf(ts) ==> DistinctIds(ts + [t])
  {
    if ts != [] {
      AppendIds(ts[1..], t);
      assert (ts + [t])[1..] == ts[1..] + [t];
    }
  }

  lemma {:induction false} InsertIds(t: Trade, ts: seq<Trade>)
    ensures IdsOf(InsertTrade(t, ts)) == IdsOf(ts) + {t.id}
    ensures DistinctIds(ts) && t.id !in IdsOf(ts) ==> DistinctIds(InsertTrade(t, ts))
  {
    if ts != [] && !Earlier(t, ts[0]) {
      InsertIds(t, ts[1..]);
    }
  }

  lemma {:induction false} StagedIds(buffer: seq<Trade>, l: Live, state: OrderState, op: OrderOp)
    requires DistinctIds(buffer)
    ensures DistinctIds(StagedFor(buffer, l, state, op))
    ensures IdsOf(StagedFor(buffer, l, state, op)) <= IdsOf(buffer)
    ensures forall i :: 0 <= i < |buffer| && Staged(l, state, op, buffer[i]) ==>
      buffer[i].id in IdsOf(StagedFor(buffer, l, state, op))
  {
    if buffer != [] {
      StagedIds(buffer[1..], l, state, op);
      InsertIds(buffer[0], StagedFor(buffer[1..], l, state, op));
      forall i | 0 <= i < |buffer| && Staged(l, state, op, buffer[i])
        ensures buffer[i].id in IdsOf(StagedFor(buffer, l, state, op))
      {
        if i > 0 {
          assert buffer[i] == buffer[1..][i - 1];
        }
      }
    }
  }

  lemma {:induction false} StagedComeFromBuffer(buffer: seq<Trade>, l: Live, state: OrderState, op: OrderOp)
    ensures forall t :: t in StagedFor(buffer, l, state, op) ==> t in buffer
  {
    if buffer != [] {
      StagedComeFromBuffer(buffer[1..], l, state, op);
      InsertTradeKeeps(buffer[0], StagedFor(buffer[1..], l, state, op));
      forall t | t in StagedFor(buffer, l, state, op) ensures t in buffer {
        assert t in multiset(StagedFor(buffer, l, state, op));
        assert t == buffer[0] || t in StagedFor(buffer[1..], l, state, op);
      }
    }
  }

  lemma {:induction false} WithoutIds(buffer: seq<Trade>, staged: seq<Trade>)
    ensures DistinctIds(buffer) ==> DistinctIds(Without(buffer, staged))
    ensures IdsOf(Without(buffer, staged)) <= IdsOf(buffer)
    ensures forall i :: 0 <= i < |Without(buffer, staged)| ==>
      Without(buffer, staged)[i] in buffer && Without(buffer, staged)[i].id !in IdsOf(staged)
  {
    if buffer != [] {
      WithoutIds(buffer[1..], staged);
      FindMeans(staged, buffer[0].id);
    }
  }

  lemma {:induction false} WithInterimsKeys(interim: map<int, Trade>, staged: seq<Trade>)
    ensures WithInterims(interim, staged).Keys == interim.Keys + IdsOf(staged)
    decreases |staged|
  {
    if staged != [] {
      WithInterimsKeys(interim[staged[0].id := staged[0]], staged[1..]);
    }
  }

  // ---------------------------------------------------------------- one step

  /** The trades recorded as final or interim are exactly those published as fills. */
  ghost predicate FillsKnown(s: Stream) {
    FilledIds(s.log) == s.seen.Keys + s.interim.Keys && DistinctIds(s.buffer)
  }

  /** An order frame claims a buffered trade that was already filled under its own ID. */
  predicate ReleasesFilled(s: Stream, e: Event) {
    e.OrderFrame? &&
    var found := Resolve(s, e.state.cid, Some(e.state.venue));
    found.Order? && s.orders[found.cid].terminal == None &&
    var staged := StagedFor(s.buffer, s.orders[found.cid], e.state, e.op);
    exists i :: 0 <= i < |staged| && (staged[i].id in s.seen || staged[i].id in s.interim)
  }

  lemma CommitPublishes(s: Stream, c: int, y: Local, ids: set<int>, newAll: bool)
    requires c in s.orders && UniqueFills(s.log) && Publishes(Of(s, c), y, ids, newAll, FilledIds(s.log))
    ensures FilledIds(Commit(s, c, y).log) == FilledIds(s.log) + ids
    ensures UniqueFills(Commit(s, c, y).log) <==> newAll
  {
    UniqueAppend({}, s.log, y.out);
    assert {} + FilledIds(s.log) == FilledIds(s.log);
    assert Of(s, c).out == [];
  }

  lemma {:induction false} SomeIdIn(ts: seq<Trade>, ids: set<int>)
    ensures IdsOf(ts) !! ids <==> forall i :: 0 <= i < |ts| ==> ts[i].id !in ids
  {
    if ts != [] {
      SomeIdIn(ts[1..], ids);
      assert forall i :: 1 <= i < |ts| ==> ts[i] == ts[1..][i - 1];
    }
  }

  lemma AdoptStep(s: Stream, c: int, x: Local, op: OrderOp, state: OrderState, staged: seq<Trade>, y: Local)
    requires c in s.orders && UniqueFills(s.log) && DistinctIds(staged)
    requires x.out == [] && Adopt(x, op, state, staged) == Some(y)
    ensures FilledIds(Commit(s, c, y).log) == FilledIds(s.log) + IdsOf(staged)
    ensures UniqueFills(Commit(s, c, y).log) <==> IdsOf(staged) !! FilledIds(s.log)
  {
    AdoptPublishes(x, op, state, staged, y, FilledIds(s.log));
    UniqueAppend({}, s.log, y.out);
    assert {} + FilledIds(s.log) == FilledIds(s.log);
  }

  lemma AdoptOrderFills(s: Stream, c: int, x: Local, op: OrderOp, state: OrderState, staged: seq<Trade>, s': Stream)
    requires c in s.orders && FillsKnown(s) && UniqueFills(s.log) && DistinctIds(staged)
    requires x.out == [] && AdoptOrder(s, c, x, op, state, staged) == Some(s')
    ensures FillsKnown(s') && (UniqueFills(s'.log) <==> IdsOf(staged) !! FilledIds(s.log))
  {
    var y := Adopt(x, op, state, staged).value;
    AdoptStep(s, c, x, op, state, staged, y);
    ReleasedFills(Commit(s, c, y), staged, s', FilledIds(s.log));
  }

  // The released executions are recorded as interim and leave the buffer.
  lemma ReleasedFills(s: Stream, staged: seq<Trade>, s': Stream, before: set<int>)
    requires s' == s.(interim := WithInterims(s.interim, staged), buffer := Without(s.buffer, staged))
    requires FilledIds(s.log) == before + IdsOf(staged) && before == s.seen.Keys + s.interim.Keys && DistinctIds(s.buffer)
    ensures FillsKnown(s')
  {
    WithInterimsKeys(s.interim, staged);
    WithoutIds(s.buffer, staged);
  }

  lemma OrderFrameFills(cfg: Config, s: Stream, op: OrderOp, state: OrderState, s': Stream)
    requires FillsKnown(s) && UniqueFills(s.log) && HandleOrder(cfg, s, op, state) == Some(s')
    ensures FillsKnown(s') && (UniqueFills(s'.log) <==> !ReleasesFilled(s, OrderFrame(op, state)))
  {
    var found := Resolve(s, state.cid, Some(state.venue));
    if found.Order? && s.orders[found.cid].terminal == None {
      var staged := StagedFor(s.buffer, s.orders[found.cid], state, op);
      StagedIds(s.buffer, s.orders[found.cid], state, op);
      SomeIdIn(staged, FilledIds(s.log));
      LiveOrderFills(cfg, s, found.cid, op, state, staged, s');
    }
  }

  // The three ways an order frame for a live order can succeed.
  lemma OrderFrameCases(cfg: Config, s: Stream, c: int, op: OrderOp, state: OrderState, staged: seq<Trade>, s': Stream)
    requires HandleOrder(cfg, s, op, state) == Some(s')
    requires Resolve(s, state.cid, Some(state.venue)) == Order(c) && s.orders[c].terminal == None
    requires staged == StagedFor(s.buffer, s.orders[c], state, op)
    ensures
      var l := s.orders[c];
      var x := Of(s, c).(live := l.(flagsVerified := true));
      || (staged == [] && l.rejection.Some? && s' == Commit(s, c, x))
      || (staged == [] && l.rejection == None && !l.accepted && s' == Commit(s, c, RejectByStatus(x, state)))
      || (l.rejection == None && StagedValid(cfg, l, state, op, staged) && AdoptOrder(s, c, x, op, state, staged) == Some(s'))
  {
  }

  lemma RejectionFills(s: Stream, c: int, state: OrderState, x: Local)
    requires FillsKnown(s) && UniqueFills(s.log) && c in s.orders
    requires x == Of(s, c).(live := s.orders[c].(flagsVerified := true))
    ensures FillsKnown(Commit(s, c, x)) && UniqueFills(Commit(s, c, x).log)
    ensures FillsKnown(Commit(s, c, RejectByStatus(x, state))) && UniqueFills(Commit(s, c, RejectByStatus(x, state)).log)
  {
    CommitPublishes(s, c, x, {}, true);
    RejectPublishes(x, state, FilledIds(s.log));
    CommitPublishes(s, c, RejectByStatus(x, state), {}, true);
  }

  lemma LiveOrderFills(cfg: Config, s: Stream, c: int, op: OrderOp, state: OrderState, staged: seq<Trade>, s': Stream)
    requires FillsKnown(s) && UniqueFills(s.log) && HandleOrder(cfg, s, op, state) == Some(s')
    requires Resolve(s, state.cid, Some(state.venue)) == Order(c) && s.orders[c].terminal == None
    requires staged == StagedFor(s.buffer, s.orders[c], state, op) && DistinctIds(staged)
    ensures FillsKnown(s') && (UniqueFills(s'.log) <==> IdsOf(staged) !! FilledIds(s.log))
  {
    var x := Of(s, c).(live := s.orders[c].(flagsVerified := true));
    OrderFrameCases(cfg, s, c, op, state, staged, s');
    RejectionFills(s, c, state, x);
    if AdoptOrder(s, c, x, op, state, staged) == Some(s') {
      AdoptOrderFills(s, c, x, op, state, staged, s');
    } else {
      assert IdsOf(staged) == {};
    }
  }

  lemma BufferFills(s: Stream, t: Trade, s': Stream)
    requires FillsKnown(s) && UniqueFills(s.log) && BufferInterim(s, t) == Some(s')
    ensures FillsKnown(s') && UniqueFills(s'.log)
  {
    FindMeans(s.buffer, t.id);
    AppendIds(s.buffer, t);
  }

  lemma FillStep(s: Stream, c: int, t: Trade, y: Local)
    requires FillsKnown(s) && UniqueFills(s.log) && c in s.orders && ApplyFill(Of(s, c), t) == Some(y)
    requires t.id !in s.seen && t.id !in s.interim
    ensures FilledIds(Commit(s, c, y).log) == FilledIds(s.log) + {t.id} && UniqueFills(Commit(s, c, y).log)
  {
    ApplyFillPublishes(Of(s, c), t, y, FilledIds(s.log));
    CommitPublishes(s, c, y, {t.id}, true);
  }

  // The three ways an interim execution can succeed.
  lemma InterimFrameCases(cfg: Config, s: Stream, t: Trade, s': Stream)
    requires HandleInterim(cfg, s, t) == Some(s')
    ensures
      var found := Resolve(s, t.cid, Some(t.venue));
      || s' == s
      || (BufferInterim(s, t) == Some(s')
          && (found == NoOrder || (found.Order? && AwaitsFlags(s.orders[found.cid], t))))
      || (found.Order? && s.orders[found.cid].rejection == None && TradeValid(cfg, s.orders[found.cid], t)
          && t.id !in s.interim && t.id !in s.seen && ApplyInterim(s, found.cid, t) == Some(s'))
  {
  }

  lemma ApplyInterimFills(s: Stream, c: int, t: Trade, s': Stream)
    requires FillsKnown(s) && UniqueFills(s.log) && t.id !in s.interim && t.id !in s.seen
    requires c in s.orders && ApplyInterim(s, c, t) == Some(s')
    ensures FillsKnown(s') && UniqueFills(s'.log)
  {
    FillStep(s, c, t, ApplyFill(Of(s, c), t).value);
  }

  lemma InterimFrameFills(cfg: Config, s: Stream, t: Trade, s': Stream)
    requires FillsKnown(s) && UniqueFills(s.log) && HandleInterim(cfg, s, t) == Some(s')
    ensures FillsKnown(s') && UniqueFills(s'.log)
  {
    InterimFrameCases(cfg, s, t, s');
    if s' == s {
    } else if BufferInterim(s, t) == Some(s') {
      BufferFills(s, t, s');
    } else {
      ApplyInterimFills(s, Resolve(s, t.cid, Some(t.venue)).cid, t, s');
    }
  }

  lemma TradeFrameFills(cfg: Config, s: Stream, t: Trade, s': Stream)
    requires FillsKnown(s) && UniqueFills(s.log) && HandleTrade(cfg, s, t) == Some(s')
    ensures FillsKnown(s') && UniqueFills(s'.log)
  {
    var found := Resolve(s, t.cid, Some(t.venue));
    if found.Order? && t.id !in s.seen {
      var c := found.cid;
      if t.id in s.interim {
        FinishPublishes(Of(s, c), FinishTerminal(Of(s, c)).value, FilledIds(s.log));
        CommitPublishes(s, c, FinishTerminal(Of(s, c)).value, {}, true);
      } else {
        FillStep(s, c, t, ApplyFill(Of(s, c), t).value);
      }
    }
  }

  lemma NoticeFills(s: Stream, n: Notice, s': Stream)
    requires FillsKnown(s) && UniqueFills(s.log) && HandleNotice(s, n) == Some(s')
    ensures FillsKnown(s') && UniqueFills(s'.log)
  {
    var found := Resolve(s, n.cid, n.venue);
    if !n.success && found.Order? && s.orders[found.cid].rejection == None {
      var y := NoticeFor(Of(s, found.cid), n.op, ByNotice(n.status, n.code, n.text)).value;
      NoticePublishes(Of(s, found.cid), n.op, ByNotice(n.status, n.code, n.text), y, FilledIds(s.log));
      CommitPublishes(s, found.cid, y, {}, true);
    }
  }

  lemma RefusalsPublish(s: Stream, e: Emission)
    requires UniqueFills(s.log) && !e.Filled?
    ensures FilledIds(s.log + [e]) == FilledIds(s.log) && UniqueFills(s.log + [e])
  {
    assert (s.log + [e])[..|s.log|] == s.log;
  }

  predicate IsCommand(e: Event) {
    !e.OrderFrame? && !e.InterimFrame? && !e.TradeFrame? && !e.NoticeFrame?
  }

  // Commands, sends and deadlines leave the trade records and the venue IDs alone.
  lemma CommandCases(cfg: Config, s: Stream, e: Event, s': Stream)
    requires CanHappen(s, e) && Step(cfg, s, e) == Some(s') && IsCommand(e)
    ensures s'.seen == s.seen && s'.interim == s.interim && s'.buffer == s.buffer && s'.byVenue == s.byVenue
    ensures s'.log == s.log
         || (e.ModifyCommand? && s'.log == s.log + [ModifyRejected(e.cid)])
         || (e.CancelCommand? && s'.log == s.log + [CancelRejected(e.cid)])
  {
    match e
    case ModifyCommand(cid, price, held) => ModifyCases(s, cid, price, held, s');
    case SendReturns(cid, op, outcome) => EndSendCases(s, cid, op, outcome);
    case _ =>
  }

  lemma ModifyCases(s: Stream, c: int, price: Option<int>, held: bool, s': Stream)
    requires c in s.orders && ModifyOrder(s, c, price, held) == Some(s')
    ensures s'.seen == s.seen && s'.interim == s.interim && s'.buffer == s.buffer && s'.byVenue == s.byVenue
    ensures s'.log == s.log || s'.log == s.log + [ModifyRejected(c)]
  {
  }

  lemma EndSendCases(s: Stream, c: int, op: Operation, outcome: SendOutcome)
    requires c in s.orders
    ensures var s' := EndSend(s, c, op, outcome);
      && s'.seen == s.seen && s'.interim == s.interim && s'.buffer == s.buffer && s'.byVenue == s.byVenue && s'.log == s.log
  {
  }

  lemma CommandFills(cfg: Config, s: Stream, e: Event, s': Stream)
    requires FillsKnown(s) && UniqueFills(s.log) && CanHappen(s, e) && Step(cfg, s, e) == Some(s') && IsCommand(e)
    ensures FillsKnown(s') && UniqueFills(s'.log) && FilledIds(s'.log) == FilledIds(s.log)
  {
    CommandCases(cfg, s, e, s');
    if e.ModifyCommand? {
      RefusalsPublish(s, ModifyRejected(e.cid));
    } else if e.CancelCommand? {
      RefusalsPublish(s, CancelRejected(e.cid));
    }
  }

  /** A step publishes a trade ID a second time exactly when an order frame claims a buffered
      trade that is already recorded as interim or final.  Whatever happens, the recorded trades
      stay exactly the published ones. */
  lemma FillsStayUniqueIff(cfg: Config, s: Stream, e: Event, s': Stream)
    requires FillsKnown(s) && UniqueFills(s.log) && CanHappen(s, e) && Step(cfg, s, e) == Some(s')
    ensures FillsKnown(s')
    ensures UniqueFills(s'.log) <==> !ReleasesFilled(s, e)
  {
    match e
    case OrderFrame(op, state) => OrderFrameFills(cfg, s, op, state, s');
    case InterimFrame(t) => InterimFrameFills(cfg, s, t, s');
    case TradeFrame(t) => TradeFrameFills(cfg, s, t, s');
    case NoticeFrame(n) => NoticeFills(s, n, s');
    case _ => CommandFills(cfg, s, e, s');
  }
}
