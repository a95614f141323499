/** The execution client itself: a mutable object whose handlers work through an order step by
    step.  Each handler is proved to do exactly what the stream specification says. */
module ExecutionClient {
  import opened Rounding
  import opened OrderStream
  import opened OrderStreamSafety
  import opened OrderStreamRaises
  import Spec = OrderStream

  lemma {:induction false} QuantitiesAppend(ts: seq<Trade>, t: Trade)
    ensures Quantities(ts + [t]) == Quantities(ts) + Abs(t.quantity)
  {
    if ts != [] {
      QuantitiesAppend(ts[1..], t);
      assert (ts + [t])[1..] == ts[1..] + [t];
    }
  }

  lemma {:induction false} QuantitiesSplit(ts: seq<Trade>, i: nat)
    requires i <= |ts|
    ensures Quantities(ts) == Quantities(ts[..i]) + Quantities(ts[i..])
  {
    if i > 0 {
      QuantitiesSplit(ts[1..], i - 1);
      assert ts[..i][1..] == ts[1..][..i - 1] && ts[i..] == ts[1..][i - 1..];
    }
  }

  lemma {:induction false} FindAppend(ts: seq<Trade>, t: Trade, id: int)
    ensures FindBuffered(ts + [t], id).Some? <==> FindBuffered(ts, id).Some? || t.id == id
  {
    if ts == [] {
      assert ([] + [t])[1..] == [];
    } else {
      FindAppend(ts[1..], t, id);
      assert (ts + [t])[1..] == ts[1..] + [t];
    }
  }

  lemma {:induction false} WithoutAppend(buffer: seq<Trade>, staged: seq<Trade>, t: Trade)
    ensures Without(Without(buffer, staged), [t]) == Without(buffer, staged + [t])
  {
    if buffer != [] {
      WithoutAppend(buffer[1..], staged, t);
      FindAppend(staged, t, buffer[0].id);
      FindAppend([], t, buffer[0].id);
      assert [] + [t] == [t];
    }
  }

  lemma {:induction false} WithoutNothing(buffer: seq<Trade>)
    ensures Without(buffer, []) == buffer
  {
    if buffer != [] {
      WithoutNothing(buffer[1..]);
    }
  }

  lemma {:induction false} WithInterimsAppend(interim: map<int, Trade>, staged: seq<Trade>, t: Trade)
    ensures WithInterims(interim, staged + [t]) == WithInterims(interim, staged)[t.id := t]
    decreases |staged|
  {
    if staged == [] {
      assert ([] + [t])[1..] == [];
    } else {
      WithInterimsAppend(interim[staged[0].id := staged[0]], staged[1..], t);
      assert (staged + [t])[1..] == staged[1..] + [t];
    }
  }

  lemma ReleaseNext(x: Local, staged: seq<Trade>, i: nat)
    requires i < |staged|
    ensures staged[..i + 1] == staged[..i] + [staged[i]]
    ensures Release(x, staged[i..]) ==
      if Spec.ApplyFill(x, staged[i]) == None then None
      else Release(Spec.ApplyFill(x, staged[i]).value, staged[i + 1..])
  {
    assert staged[i..][0] == staged[i] && staged[i..][1..] == staged[i + 1..];
  }

  /** Every buffered trade the frame claims is checked in turn, adding up the fills. */
  method StagedAccepted(cfg: Config, l: Live, state: OrderState, op: OrderOp, staged: seq<Trade>) returns (ok: bool)
    ensures ok == StagedValid(cfg, l, state, op, staged)
  {
    if staged == [] {
      return true;
    }
    if op.Ou? || !cfg.paper || !l.terms.reduceOnly || EffectiveFlags(state) != REDUCE_ONLY_FLAG {
      return false;
    }
    var nextFilled := l.filled;
    for i := 0 to |staged|
      invariant nextFilled == l.filled + Quantities(staged[..i])
      invariant forall j :: 0 <= j < i ==> StagedTradeValid(cfg, l, state, op, staged[j])
      invariant i > 0 ==> nextFilled <= l.terms.quantity && (op.Oc? ==> nextFilled <= TerminalFilled(state))
    {
      nextFilled := nextFilled + Abs(staged[i].quantity);
      assert staged[..i + 1] == staged[..i] + [staged[i]];
      QuantitiesAppend(staged[..i], staged[i]);
      QuantitiesSplit(staged, i + 1);
      if !StagedTradeValid(cfg, l, state, op, staged[i])
         || nextFilled > l.terms.quantity || (op.Oc? && nextFilled > TerminalFilled(state)) {
        return false;
      }
    }
    assert staged[..|staged|] == staged;
    return true;
  }

  class Client {
    const cfg: Config
    var orders: map<int, Live>
    var byVenue: map<int, int>
    var seen: map<int, Trade>
    var interim: map<int, Trade>
    var buffer: seq<Trade>
    var deadlines: set<Key>
    var sending: multiset<Key>
    var open: bool
    var log: seq<Emission>

    constructor (cfg: Config)
      ensures this.cfg == cfg && State() == EMPTY
    {
      this.cfg := cfg;
      orders, byVenue, seen, interim, buffer := map[], map[], map[], map[], [];
      deadlines, sending, open, log := {}, multiset{}, true, [];
    }

    function State(): Stream
      reads this
    {
      Stream(orders, byVenue, seen, interim, buffer, deadlines, sending, open, log)
    }

    /** The object is part-way through working on order `c`: it started in `s`, and `x` says what
        has been done since. */
    ghost predicate At(s: Stream, c: int, x: Local)
      reads this
    {
      State() == Commit(s, c, x) && (x.bound.Some? ==> x.bound == x.live.venue)
    }

    ghost predicate Reached(s: Stream, c: int, y: Option<Local>, ok: bool)
      reads this
    {
      ok == y.Some? && (ok ==> At(s, c, y.value))
    }

    lemma StartsAt(s: Stream, c: int)
      requires State() == s && c in s.orders
      ensures At(s, c, Of(s, c))
    {
      assert s.orders[c := s.orders[c]] == s.orders;
      forall k: Key ensures k in Commit(s, c, Of(s, c)).deadlines <==> k in s.deadlines {
        assert k == (k.0, k.1);
      }
      assert s.log + [] == s.log;
    }

    // ---------------------------------------------------------------- the steps frames share

    /** The order's record changes, its venue ID apart. */
    method Set(c: int, l: Live, ghost s: Stream, ghost x: Local)
      requires At(s, c, x) && l.venue == x.live.venue
      modifies this
      ensures At(s, c, x.(live := l)) && orders[c] == l
    {
      orders := orders[c := l];
      assert orders == s.orders[c := l];
    }

    method Bind(c: int, venue: int, ghost s: Stream, ghost x: Local)
      requires At(s, c, x) && (x.live.venue == None || x.live.venue == Some(venue))
      modifies this
      ensures At(s, c, x.(live := x.live.(venue := Some(venue)), bound := Some(venue)))
      ensures orders[c] == x.live.(venue := Some(venue))
    {
      orders := orders[c := orders[c].(venue := Some(venue))];
      byVenue := byVenue[venue := c];
      assert orders == s.orders[c := x.live.(venue := Some(venue))];
      assert byVenue == s.byVenue[venue := c];
    }

    method Publish(c: int, e: Emission, ghost s: Stream, ghost x: Local)
      requires At(s, c, x)
      modifies this
      ensures At(s, c, Spec.Publish(x, e)) && orders[c] == x.live
    {
      log := log + [e];
      assert log == s.log + (x.out + [e]);
    }

    method ResolveMutation(c: int, op: Operation, ghost s: Stream, ghost x: Local)
      requires At(s, c, x)
      modifies this
      ensures At(s, c, Spec.ResolveMutation(x, op))
      ensures orders[c] == x.live.(unknown := x.live.unknown - {op})
    {
      deadlines := deadlines - {(c, op)};
      orders := orders[c := orders[c].(unknown := orders[c].unknown - {op})];
      assert orders == s.orders[c := x.live.(unknown := x.live.unknown - {op})];
    }

    method ResolveAll(c: int, ghost s: Stream, ghost x: Local)
      requires At(s, c, x)
      modifies this
      ensures At(s, c, Spec.ResolveAll(x)) && orders[c] == x.live.(unknown := {})
    {
      ResolveMutation(c, Submit, s, x);
      ResolveMutation(c, Modify, s, Spec.ResolveMutation(x, Submit));
      ghost var x2 := Spec.ResolveMutation(Spec.ResolveMutation(x, Submit), Modify);
      ResolveMutation(c, Cancel, s, x2);
      ghost var y := Spec.ResolveMutation(x2, Cancel);
      forall o ensures o !in y.live.unknown && o !in y.waiting {
        assert o == Submit || o == Modify || o == Cancel;
      }
      assert y == Spec.ResolveAll(x);
    }

    method Accept(c: int, venue: int, ghost s: Stream, ghost x: Local) returns (ok: bool)
      requires At(s, c, x)
      modifies this
      ensures Reached(s, c, Spec.Accept(x, venue), ok)
    {
      var l := orders[c];
      if l.venue.Some? && l.venue != Some(venue) {
        return false;
      }
      Bind(c, venue, s, x);
      ghost var x1 := x.(live := x.live.(venue := Some(venue)), bound := Some(venue));
      ResolveMutation(c, Submit, s, x1);
      ghost var x2 := Spec.ResolveMutation(x1, Submit);
      if !l.accepted {
        Set(c, orders[c].(accepted := true), s, x2);
        Publish(c, Accepted(l.cid), s, x2.(live := x2.live.(accepted := true)));
      }
      return true;
    }

    method AckPendingPrice(c: int, price: int, ghost s: Stream, ghost x: Local) returns (ok: bool)
      requires At(s, c, x)
      modifies this
      ensures Reached(s, c, Spec.AckPendingPrice(x, price), ok)
      ensures
        var l := old(orders[c]);
        if l.pendingModify != Some(price) then ok && c in orders && orders[c] == l && log == old(log)
        else if l.venue == None then !ok
        else
          && ok && log == old(log) + [Updated(l.cid, price)] && c in orders && orders[c].pendingModify == None
          && orders[c].currentPrice == price && orders[c].knownPrices == l.knownPrices + {price}
    {
      var l := orders[c];
      if l.pendingModify != Some(price) {
        return true;
      }
      if l.venue == None {
        return false;
      }
      var l1 := l.(currentPrice := price, knownPrices := l.knownPrices + {price}, pendingModify := None);
      Publish(c, Updated(l.cid, price), s, x);
      Set(c, l1, s, Spec.Publish(x, Updated(l.cid, price)));
      ResolveMutation(c, Modify, s, Spec.Publish(x.(live := l1), Updated(l.cid, price)));
      return true;
    }

    method FinishTerminal(c: int, ghost s: Stream, ghost x: Local) returns (ok: bool)
      requires At(s, c, x)
      modifies this
      ensures Reached(s, c, Spec.FinishTerminal(x), ok) && (!ok ==> State() == old(State()))
    {
      var l := orders[c];
      if l.terminal == None {
        return true;
      }
      var state := l.terminal.value;
      if l.filled > TerminalFilled(state) {
        return false;
      }
      if l.terminalEmitted || TerminalFilled(state) > l.filled {
        return true;
      }
      if !Disposable(state) {
        return false;
      }
      Set(c, l.(terminalEmitted := true, pendingModify := None), s, x);
      if CancelStatus(state.status) && TerminalFilled(state) < Abs(state.original) {
        Publish(c, CanceledOrder(l.cid), s, x.(live := l.(terminalEmitted := true, pendingModify := None)));
      }
      return true;
    }

    method ApplyFill(c: int, t: Trade, ghost s: Stream, ghost x: Local) returns (ok: bool)
      requires At(s, c, x)
      modifies this
      ensures Reached(s, c, Spec.ApplyFill(x, t), ok) && (FillRefused(x, t) ==> State() == old(State()))
    {
      var l := orders[c];
      assert l == x.live;
      var nextFilled := l.filled + Abs(t.quantity);
      if l.terms.reduceOnly && !l.flagsVerified {
        return false;
      }
      if nextFilled > l.terms.quantity {
        return false;
      }
      if l.terminal.Some? && nextFilled > TerminalFilled(l.terminal.value) {
        return false;
      }
      if !t.onGrid {
        return false;
      }
      assert Spec.ApplyFill(x, t) == Spec.CompleteFill(x, t, nextFilled);
      ok := CompleteFill(c, t, nextFilled, s, x);
    }

    method CompleteFill(c: int, t: Trade, nextFilled: int, ghost s: Stream, ghost x: Local) returns (ok: bool)
      requires At(s, c, x)
      modifies this
      ensures Reached(s, c, Spec.CompleteFill(x, t, nextFilled), ok)
    {
      ok := AcceptAndAck(c, t.venue, t.orderPrice, s, x);
      if ok {
        ok := RecordAndFinish(c, t, nextFilled, s, Spec.AcceptAndAck(x, t.venue, t.orderPrice).value);
      }
    }

    method RecordAndFinish(c: int, t: Trade, nextFilled: int, ghost s: Stream, ghost x: Local) returns (ok: bool)
      requires At(s, c, x)
      modifies this
      ensures Reached(s, c, Spec.FinishTerminal(Spec.RecordFill(x, t, nextFilled)), ok)
    {
      RecordFill(c, t, nextFilled, s, x);
      ok := FinishTerminal(c, s, Spec.RecordFill(x, t, nextFilled));
    }

    method RecordFill(c: int, t: Trade, nextFilled: int, ghost s: Stream, ghost x: Local)
      requires At(s, c, x)
      modifies this
      ensures At(s, c, Spec.RecordFill(x, t, nextFilled))
    {
      var l := orders[c];
      Set(c, l.(filled := nextFilled), s, x);
      ghost var x1 := x.(live := l.(filled := nextFilled));
      ResolveMutation(c, Submit, s, x1);
      ghost var x2 := Spec.ResolveMutation(x1, Submit);
      Publish(c, Filled(l.cid, t.id, Abs(t.quantity)), s, x2);
      if nextFilled == l.terms.quantity {
        ghost var x3 := Spec.Publish(x2, Filled(l.cid, t.id, Abs(t.quantity)));
        Set(c, orders[c].(pendingCancel := false), s, x3);
        ResolveMutation(c, Cancel, s, x3.(live := x3.live.(pendingCancel := false)));
      }
    }

    // ---------------------------------------------------------------- order frames

    method ReleaseOne(c: int, t: Trade, ghost done: seq<Trade>, ghost s: Stream, ghost x: Local) returns (ok: bool)
      requires At(Released(s, done), c, x)
      modifies this
      ensures Reached(Released(s, done + [t]), c, Spec.ApplyFill(x, t), ok)
    {
      ghost var before := Released(s, done);
      ok := ApplyFill(c, t, before, x);
      if ok {
        WithInterimsAppend(s.interim, done, t);
        WithoutAppend(s.buffer, done, t);
        interim := interim[t.id := t];
        buffer := Without(buffer, [t]);
        assert Released(s, done + [t]) == before.(interim := interim, buffer := buffer);
      }
    }

    /** Each claimed trade is applied, remembered and taken out of the buffer. */
    method ReleaseStaged(c: int, staged: seq<Trade>, ghost s: Stream, ghost x: Local) returns (ok: bool)
      requires At(s, c, x)
      modifies this
      ensures Reached(Released(s, staged), c, Release(x, staged), ok)
    {
      ghost var y := x;
      WithoutNothing(s.buffer);
      assert Released(s, staged[..0]) == s && staged[0..] == staged;
      for i := 0 to |staged|
        invariant At(Released(s, staged[..i]), c, y)
        invariant Release(x, staged) == Release(y, staged[i..])
      {
        ReleaseNext(y, staged, i);
        ok := ReleaseOne(c, staged[i], staged[..i], s, y);
        if !ok {
          return;
        }
        y := Spec.ApplyFill(y, staged[i]).value;
      }
      assert staged[..|staged|] == staged;
      ok := true;
    }

    method HandleOrder(op: OrderOp, state: OrderState) returns (ok: bool)
      modifies this
      ensures ok == Spec.HandleOrder(cfg, old(State()), op, state).Some?
      ensures ok ==> State() == Spec.HandleOrder(cfg, old(State()), op, state).value
      ensures !ok && Inv(old(State())) ==> State() == Raised(cfg, old(State()), OrderFrame(op, state))
    {
      ghost var s := State();
      var found := Resolve(State(), state.cid, Some(state.venue));
      if !found.Order? {
        return found.NoOrder?;
      }
      var c := found.cid;
      var l := orders[c];
      if l.terminal.Some? {
        return op.Oc? && state == l.terminal.value;
      }
      var staged;
      ok, staged := Admits(c, op, state);
      AdmittedAdvances(cfg, s, c, op, state, staged);
      if ok {
        AdmittedAdopts(cfg, s, c, op, state, staged);
        ok := Advance(c, op, state, staged, Rejects(l, state));
      }
    }

    /** The checks of an order frame, all made before it changes anything. */
    method Admits(c: int, op: OrderOp, state: OrderState) returns (ok: bool, staged: seq<Trade>)
      requires c in orders && orders[c].terminal == None
      ensures ok <==> Admitted(cfg, State(), c, op, state)
      ensures staged == StagedFor(buffer, orders[c], state, op)
    {
      var l := orders[c];
      staged := StagedFor(buffer, l, state, op);
      if !OrderStateValid(cfg, l, state, op) {
        return false, staged;
      }
      ok := StagedAccepted(cfg, l, state, op, staged);
      if !ok || (op.Oc? && !Disposable(state)) {
        return false, staged;
      }
      ok := !(Rejects(l, state) && staged != []);
    }

    method Advance(c: int, op: OrderOp, state: OrderState, staged: seq<Trade>, rejection: bool) returns (ok: bool)
      requires c in orders
      modifies this
      ensures ok == Spec.Advance(old(State()), c, op, state, staged, rejection).Some?
      ensures ok ==> State() == Spec.Advance(old(State()), c, op, state, staged, rejection).value
      ensures !ok && (old(orders)[c].rejection.Some? || Adoptable(old(State()), c, op, state, staged)) ==>
        State() == RaisedFor(old(State()), c, op, state, staged)
    {
      ghost var s := State();
      var l := orders[c];
      StartsAt(s, c);
      Set(c, l.(flagsVerified := true), s, Of(s, c));
      ghost var x := Of(s, c).(live := l.(flagsVerified := true));
      if l.rejection.Some? {
        return rejection && l.rejection == Some(ByStatus(state.text));
      }
      if rejection {
        RejectByStatus(c, state, s, x);
        return true;
      }
      ok := AdoptOrder(c, op, state, staged, s, x);
    }

    method RejectByStatus(c: int, state: OrderState, ghost s: Stream, ghost x: Local)
      requires At(s, c, x)
      modifies this
      ensures At(s, c, Spec.RejectByStatus(x, state))
    {
      Publish(c, Rejected(orders[c].cid), s, x);
      ghost var x1 := Spec.Publish(x, Rejected(x.live.cid));
      var l := orders[c].(terminal := Some(state), terminalEmitted := true, rejection := Some(ByStatus(state.text)));
      Set(c, l, s, x1);
      ResolveAll(c, s, x1.(live := l));
    }

    method AdoptOrder(c: int, op: OrderOp, state: OrderState, staged: seq<Trade>, ghost s: Stream, ghost x: Local)
      returns (ok: bool)
      requires At(s, c, x)
      modifies this
      ensures ok == Spec.AdoptOrder(s, c, x, op, state, staged).Some?
      ensures ok ==> State() == Spec.AdoptOrder(s, c, x, op, state, staged).value
      ensures !ok && Unfinished(x, op, state, staged).Some? ==>
        State() == Released(Commit(s, c, Unfinished(x, op, state, staged).value), staged)
    {
      ok := AcceptAndAck(c, state.venue, state.price, s, x);
      if !ok {
        return;
      }
      ghost var ready := Spec.AcceptAndAck(x, state.venue, state.price).value;
      if op.Oc? {
        TakeTerminal(c, state, s, ready);
        ready := Spec.TakeTerminal(ready, state);
      }
      AdoptUnfolds(s, c, x, op, state, staged, ready);
      ok := ReleaseAndFinish(c, op, staged, s, ready);
    }

    method AcceptAndAck(c: int, venue: int, price: int, ghost s: Stream, ghost x: Local) returns (ok: bool)
      requires At(s, c, x)
      modifies this
      ensures Reached(s, c, Spec.AcceptAndAck(x, venue, price), ok)
    {
      ok := Accept(c, venue, s, x);
      if ok {
        ok := AckPendingPrice(c, price, s, Spec.Accept(x, venue).value);
      }
    }

    method ReleaseAndFinish(c: int, op: OrderOp, staged: seq<Trade>, ghost s: Stream, ghost x: Local) returns (ok: bool)
      requires At(s, c, x)
      modifies this
      ensures ok == ReleasedAndFinished(s, c, x, op, staged).Some?
      ensures ok ==> State() == ReleasedAndFinished(s, c, x, op, staged).value
      ensures !ok && Release(x, staged).Some? ==> State() == Released(Commit(s, c, Release(x, staged).value), staged)
    {
      ok := ReleaseStaged(c, staged, s, x);
      if ok && op.Oc? {
        ok := FinishTerminal(c, Released(s, staged), Release(x, staged).value);
      }
    }

    method TakeTerminal(c: int, state: OrderState, ghost s: Stream, ghost x: Local)
      requires At(s, c, x)
      modifies this
      ensures At(s, c, Spec.TakeTerminal(x, state))
    {
      var l := orders[c].(pendingCancel := false, terminal := Some(state));
      Set(c, l, s, x);
      ResolveAll(c, s, x.(live := l));
    }

    // ---------------------------------------------------------------- trade frames

    method BufferInterim(t: Trade) returns (ok: bool)
      modifies this
      ensures ok == Spec.BufferInterim(old(State()), t).Some?
      ensures State() == if ok then Spec.BufferInterim(old(State()), t).value else old(State())
    {
      if t.id in seen {
        return SameExecution(t, seen[t.id]);
      }
      if t.id in interim {
        return interim[t.id] == t;
      }
      var previous := FindBuffered(buffer, t.id);
      if previous.Some? {
        return previous.value == t;
      }
      if |buffer| >= MAX_BUFFERED {
        return false;
      }
      buffer := buffer + [t];
      return true;
    }

    method HandleInterim(t: Trade) returns (ok: bool)
      modifies this
      ensures ok == Spec.HandleInterim(cfg, old(State()), t).Some?
      ensures ok ==> State() == Spec.HandleInterim(cfg, old(State()), t).value
      ensures !ok && Inv(old(State())) && AllSound(old(State())) ==> State() == old(State())
    {
      ghost var s := State();
      var found := Resolve(State(), t.cid, Some(t.venue));
      if found.Conflict? {
        return false;
      }
      if found.NoOrder? {
        if !cfg.paper || t.cid.Some? {
          return true;
        }
        if t.symbol != cfg.symbol || !t.kind.Ioc? || t.orderPrice <= 0 || t.maker {
          return false;
        }
        ok := BufferInterim(t);
        return;
      }
      var c := found.cid;
      if orders[c].rejection.Some? || !TradeValid(cfg, orders[c], t) {
        return false;
      }
      if !cfg.paper {
        return true;
      }
      if AwaitsFlags(orders[c], t) {
        ok := BufferInterim(t);
        return;
      }
      if t.id in interim {
        return interim[t.id] == t;
      }
      if t.id in seen {
        return SameExecution(t, seen[t.id]);
      }
      ok := ApplyInterim(c, t);
    }

    method ApplyInterim(c: int, t: Trade) returns (ok: bool)
      requires c in orders && orders[c].rejection == None && Resolve(State(), t.cid, Some(t.venue)) == Order(c)
      modifies this
      ensures ok == Spec.ApplyInterim(old(State()), c, t).Some?
      ensures ok ==> State() == Spec.ApplyInterim(old(State()), c, t).value
      ensures !ok && Inv(old(State())) && AllSound(old(State())) ==> State() == old(State())
    {
      ghost var s := State();
      StartsAt(s, c);
      FillSoundIf(s, t, c);
      ok := ApplyFill(c, t, s, Of(s, c));
      if ok {
        interim := interim[t.id := t];
      }
    }

    method HandleTrade(t: Trade) returns (ok: bool)
      modifies this
      ensures ok == Spec.HandleTrade(cfg, old(State()), t).Some?
      ensures ok ==> State() == Spec.HandleTrade(cfg, old(State()), t).value
      ensures !ok && Inv(old(State())) && AllSound(old(State())) ==> State() == old(State())
    {
      ghost var s := State();
      var found := Resolve(State(), t.cid, Some(t.venue));
      if !found.Order? {
        return found.NoOrder?;
      }
      var c := found.cid;
      if orders[c].rejection.Some? || !TradeValid(cfg, orders[c], t) {
        return false;
      }
      if t.id in seen {
        return seen[t.id] == t;
      }
      StartsAt(s, c);
      FillSoundIf(s, t, c);
      if t.id in interim {
        if !SameExecution(interim[t.id], t) {
          return false;
        }
        ok := FinishTerminal(c, s, Of(s, c));
      } else {
        ok := ApplyFill(c, t, s, Of(s, c));
      }
      if ok {
        seen := seen[t.id := t];
      }
    }

    // ---------------------------------------------------------------- notifications

    method HandleNotice(n: Notice) returns (ok: bool)
      modifies this
      ensures ok == Spec.HandleNotice(old(State()), n).Some?
      ensures State() == if ok then Spec.HandleNotice(old(State()), n).value else old(State())
    {
      ghost var s := State();
      if n.success {
        return true;
      }
      var found := Resolve(State(), n.cid, n.venue);
      if !found.Order? {
        return found.NoOrder?;
      }
      var c, key := found.cid, ByNotice(n.status, n.code, n.text);
      if orders[c].rejection.Some? {
        return n.op.On? && orders[c].rejection == Some(key);
      }
      StartsAt(s, c);
      ok := NoticeFor(c, n.op, key, s, Of(s, c));
    }

    method NoticeFor(c: int, op: OrderOp, key: Rejection, ghost s: Stream, ghost x: Local) returns (ok: bool)
      requires At(s, c, x)
      modifies this
      ensures Reached(s, c, Spec.NoticeFor(x, op, key), ok) && (!ok ==> State() == old(State()))
    {
      var l := orders[c];
      if op.On? {
        if l.accepted {
          return false;
        }
        Publish(c, Rejected(l.cid), s, x);
        var l1 := l.(terminalEmitted := true, rejection := Some(key));
        Set(c, l1, s, Spec.Publish(x, Rejected(l.cid)));
        ResolveAll(c, s, Spec.Publish(x.(live := l1), Rejected(l.cid)));
        return true;
      } else if op.Ou? {
        if l.pendingModify == None && Modify !in l.unknown {
          return false;
        }
        RefuseMutation(c, l.(pendingModify := None), ModifyRejected(l.cid), Modify, s, x);
        return true;
      }
      if !l.pendingCancel && Cancel !in l.unknown {
        return false;
      }
      RefuseMutation(c, l.(pendingCancel := false), CancelRejected(l.cid), Cancel, s, x);
      return true;
    }

    method RefuseMutation(c: int, l: Live, e: Emission, op: Operation, ghost s: Stream, ghost x: Local)
      requires At(s, c, x) && l.venue == x.live.venue
      modifies this
      ensures At(s, c, Spec.ResolveMutation(Spec.Publish(x.(live := l), e), op))
    {
      Publish(c, e, s, x);
      Set(c, l, s, Spec.Publish(x, e));
      ResolveMutation(c, op, s, Spec.Publish(x.(live := l), e));
    }

    // ---------------------------------------------------------------- commands, sends, deadlines

    method BeginSend(c: int, l: Live, op: Operation) returns (ok: bool)
      modifies this
      ensures ok == Spec.BeginSend(old(State()), c, l, op).Some?
      ensures ok ==> State() == Spec.BeginSend(old(State()), c, l, op).value
    {
      orders := orders[c := l];
      if (c, op) in deadlines {
        return false;
      }
      sending := sending + multiset{(c, op)};
      return true;
    }

    method SubmitOrder(cid: int, terms: Terms, price: int) returns (ok: bool)
      requires CanHappen(State(), SubmitCommand(cid, terms, price))
      modifies this
      ensures ok == Spec.SubmitOrder(old(State()), cid, terms, price).Some?
      ensures ok ==> State() == Spec.SubmitOrder(old(State()), cid, terms, price).value
    {
      if !Supported(terms) {
        return true;
      }
      ok := BeginSend(cid, NewOrder(cid, terms, price), Submit);
    }

    method ModifyOrder(c: int, price: Option<int>, held: bool) returns (ok: bool)
      requires c in orders
      modifies this
      ensures ok == Spec.ModifyOrder(old(State()), c, price, held).Some?
      ensures ok ==> State() == Spec.ModifyOrder(old(State()), c, price, held).value
    {
      var l := orders[c];
      if held || l.venue == None || !l.accepted || l.terminal.Some? || l.pendingCancel
         || l.pendingModify.Some? || price == None {
        log := log + [ModifyRejected(c)];
        return true;
      }
      ok := BeginSend(c, l.(pendingModify := price), Modify);
    }

    method CancelOrder(c: int) returns (ok: bool)
      requires c in orders
      modifies this
      ensures ok == Spec.CancelOrder(old(State()), c).Some?
      ensures ok ==> State() == Spec.CancelOrder(old(State()), c).value
    {
      var l := orders[c];
      if l.venue == None || !l.accepted || l.terminal.Some? || l.pendingCancel {
        log := log + [CancelRejected(c)];
        return true;
      }
      ok := BeginSend(c, l.(pendingCancel := true), Cancel);
    }

    method EndSend(c: int, op: Operation, outcome: SendOutcome)
      requires CanHappen(State(), SendReturns(c, op, outcome))
      modifies this
      ensures State() == Spec.EndSend(old(State()), c, op, outcome)
    {
      sending := sending - multiset{(c, op)};
      if outcome.SendRaised? || !open {
        orders := orders[c := orders[c].(unknown := orders[c].unknown + {op})];
      } else if IsPending(orders[c], op) {
        deadlines := deadlines + {(c, op)};
      }
    }

    method ExpireDeadline(c: int, op: Operation)
      requires c in orders
      modifies this
      ensures State() == Spec.ExpireDeadline(old(State()), c, op)
    {
      if (c, op) in deadlines {
        deadlines := deadlines - {(c, op)};
        orders := orders[c := orders[c].(unknown := orders[c].unknown + {op})];
      }
    }

    /** The open deadlines are taken one by one, in any order; then every order is looked at. */
    method CloseStream()
      requires forall k :: k in deadlines ==> k.0 in orders
      modifies this
      ensures State() == Spec.CloseStream(cfg, old(State()))
    {
      open := false;
      var pending := deadlines;
      deadlines := {};
      ghost var before := orders;
      ghost var done: set<Key> := {};
      NothingMarked(before);
      while pending != {}
        invariant State() == old(State()).(open := false, deadlines := {}, orders := orders)
        invariant old(deadlines) == done + pending && MarkedFor(before, done, orders)
        decreases pending
      {
        var k :| k in pending;
        assert k in old(deadlines);
        MarkedForMore(before, done, orders, k);
        pending := pending - {k};
        done := done + {k};
        orders := orders[k.0 := orders[k.0].(unknown := orders[k.0].unknown + {k.1})];
      }
      assert done == old(deadlines);
      ghost var marked := orders;
      MarkSilentOrders();
      MarkedThenSilent(cfg, old(State()), marked, orders);
    }

    /** Every order that may now end unseen is marked. */
    method MarkSilentOrders()
      modifies this`orders
      ensures orders == map c <- old(orders) :: MarkSilent(cfg, old(orders)[c])
    {
      var left := orders.Keys;
      while left != {}
        invariant left <= orders.Keys == old(orders).Keys
        invariant forall c :: c in orders ==>
          orders[c] == if c in left then old(orders)[c] else MarkSilent(cfg, old(orders)[c])
        decreases left
      {
        SomeElement(left);
        var c :| c in left;
        left := left - {c};
        if CanEndSilently(cfg, orders[c]) {
          orders := orders[c := orders[c].(unknown := orders[c].unknown + {Submit})];
        }
      }
      ghost var marked := map c <- old(orders) :: MarkSilent(cfg, old(orders)[c]);
      assert left == {} && orders.Keys == marked.Keys;
      forall c | c in orders ensures orders[c] == marked[c] {
        assert c !in left;
      }
      assert orders == marked;
    }
  }

  /** Every order's taken deadlines are UNKNOWN. */
  ghost predicate MarkedFor(before: map<int, Live>, done: set<Key>, orders: map<int, Live>) {
    && orders.Keys == before.Keys
    && forall c :: c in orders ==> orders[c] == before[c].(unknown := before[c].unknown + WaitingOn(done, c))
  }

  lemma MarkedThenSilent(cfg: Config, s: Stream, marked: map<int, Live>, silent: map<int, Live>)
    requires MarkedFor(s.orders, s.deadlines, marked) && silent == map c <- marked :: MarkSilent(cfg, marked[c])
    ensures silent == Spec.CloseStream(cfg, s).orders
  {
  }

  lemma NothingMarked(before: map<int, Live>)
    ensures MarkedFor(before, {}, before)
  {
    assert forall c :: WaitingOn({}, c) == {};
  }

  lemma MarkedForMore(before: map<int, Live>, done: set<Key>, orders: map<int, Live>, k: Key)
    requires MarkedFor(before, done, orders) && k.0 in before
    ensures MarkedFor(before, done + {k}, orders[k.0 := orders[k.0].(unknown := orders[k.0].unknown + {k.1})])
  {
    WaitingStep(done, k);
  }

  lemma WaitingStep(done: set<Key>, k: Key)
    ensures WaitingOn(done + {k}, k.0) == WaitingOn(done, k.0) + {k.1}
    ensures forall c :: c != k.0 ==> WaitingOn(done + {k}, c) == WaitingOn(done, c)
  {
    assert k == (k.0, k.1);
  }
}
