/** The terminal reconciler, step by step between its await points.

    One root task at a time, at most two rounds a root, and callbacks that stay registered until they
    confirm.  A step is one segment between two awaits, so runs of steps are all interleavings of the
    root with the timer, the callers and the callbacks, which may themselves register. */
module TerminalReconciler {

  /** A registration: the callback and a number no other registration has. */
  datatype Callback = Callback(id: int, token: nat)

  type Requests = map<int, seq<Callback>>

  /** Where the root task waits; `n` counts its attempts from zero. */
  datatype Pc =
    | Idle
    | Created
    | AtWorking(n: nat)
    | AtReconcile(n: nat)
    | AtReport(n: nat, key: int)
    | AfterCallback(n: nat, key: int)
    | AfterPop(n: nat)
    | AtRecovery(n: nat)
    | AtBackoff

  datatype Call = Call(token: nat, ok: bool)

  datatype State = State(
    active: bool, busy: bool, mass: bool, restart: bool, failure: bool, stopping: bool, pc: Pc,
    requests: Requests, failed: Requests, next: nat, rounds: nat, calls: seq<Call>)

  function Initial(restart: bool): State {
    State(true, false, false, restart, false, false, Idle, map[], map[], 0, 0, [])
  }

  /** What the world answers when the root resumes: the awaited call raised or timed out, the clients
      are connected, the adapter still requires reconciliation, the awaited result was good (for a
      working-order check: something changed), the callback returned True and what it registered
      meanwhile, and which pending request is next. */
  datatype Input = Input(raised: bool, connected: bool, required: bool, good: bool, accepted: bool,
                         reentrant: seq<(int, int)>, pick: int)

  // ---------------------------------------------------------------- registering

  predicate Knows(callbacks: seq<Callback>, id: int) {
    exists i :: 0 <= i < |callbacks| && callbacks[i].id == id
  }

  function Revive(s: State): State {
    s.(requests := s.requests + s.failed, failed := map[])
  }

  /** Start a root, or make a running one do the whole reconciliation. */
  function Launch(s: State, working: bool): State {
    if s.pc.Idle? then s.(busy := true, mass := s.restart || !working, pc := Created, rounds := 0)
    else if !working then s.(mass := true)
    else s
  }

  function EnsureRoot(s: State, retry: bool, working: bool): State {
    Launch(if retry then Revive(s) else s, working)
  }

  function Known(m: Requests, key: int): seq<Callback> {
    if key in m then m[key] else []
  }

  function Added(s: State, m: Requests, key: int, id: int): Requests {
    if Knows(Known(m, key), id) then m[key := Known(m, key)]
    else m[key := Known(m, key) + [Callback(id, s.next)]]
  }

  /** A failed request collects further callbacks without getting a new attempt. */
  function Query(s: State, key: int, id: int): State {
    if !s.active then s
    else if key in s.failed then
      s.(failed := Added(s, s.failed, key, id), next := if Knows(s.failed[key], id) then s.next else s.next + 1)
    else Launch(Requested(s, key, id), false)
  }

  function Requested(s: State, key: int, id: int): State {
    s.(requests := Added(s, s.requests, key, id), next := if Knows(Known(s.requests, key), id) then s.next else s.next + 1)
  }

  function QueryAll(s: State, entries: seq<(int, int)>): State
    decreases |entries|
  {
    if entries == [] then s else QueryAll(Query(s, entries[0].0, entries[0].1), entries[1..])
  }

  // ---------------------------------------------------------------- how a root ends

  function Finish(s: State): State {
    s.(pc := Idle, busy := false)
  }

  function Retain(s: State): State {
    s.(requests := map[], failed := if s.active then s.failed + s.requests else s.failed)
  }

  function Hold(s: State): State {
    Finish(Retain(s.(failure := true)))
  }

  function Fail(s: State, n: nat, connected: bool): State {
    if !connected || n > 0 then Hold(s) else s.(failure := true, pc := AtBackoff)
  }

  function Succeed(s: State): State {
    if s.failed != map[] then Finish(s) else Finish(s.(failure := false))
  }

  // ---------------------------------------------------------------- one round

  function BeginRound(s: State, n: nat, connected: bool): State {
    if !s.active || !connected then Hold(s)
    else s.(rounds := s.rounds + 1, pc := if s.mass then AtReconcile(n) else AtWorking(n))
  }

  function DrainNext(s: State, n: nat, i: Input): State {
    if s.requests != map[] then (if i.pick in s.requests then s.(pc := AtReport(n, i.pick)) else s)
    else if i.required then Fail(s, n, i.connected)
    else if !s.restart then Succeed(s)
    else if s.failed != map[] then Fail(s, n, i.connected)
    else s.(pc := AtRecovery(n))
  }

  function Rest(callbacks: seq<Callback>): seq<Callback> {
    if callbacks == [] then [] else callbacks[1..]
  }

  /** The first callback is called; it leaves the request only when it returned True. */
  function CallNext(s: State, n: nat, key: int, i: Input): State {
    var callbacks := Known(s.requests, key);
    if callbacks == [] then s.(requests := s.requests - {key}, pc := AfterPop(n))
    else
      var called := QueryAll(s, i.reentrant);
      var returned := called.(calls := called.calls + [Call(callbacks[0].token, i.accepted)]);
      if !i.accepted then Fail(returned, n, i.connected)
      else returned.(requests := called.requests[key := Rest(Known(called.requests, key))], pc := AfterCallback(n, key))
  }

  /** The root runs to its next await point, or ends. */
  function Resume(s: State, i: Input): State {
    if s.stopping then Hold(s).(stopping := false)
    else
      match s.pc
      case Idle => s
      case Created => BeginRound(s, 0, i.connected)
      case AtWorking(n) =>
        if i.raised then Fail(s, n, i.connected)
        else if !s.active then Hold(s)
        else if !i.connected then Fail(s, n, false)
        else if !s.mass && !i.good && !i.required then Succeed(s)
        else s.(mass := true, pc := AtReconcile(n))
      case AtReconcile(n) =>
        if i.raised || !i.good || i.required then Fail(s, n, i.connected) else DrainNext(s, n, i)
      case AtReport(n, key) =>
        if i.raised || !i.good then Fail(s, n, i.connected) else CallNext(s, n, key, i)
      case AfterCallback(n, key) =>
        if i.raised then Fail(s, n, i.connected) else CallNext(s, n, key, i)
      case AfterPop(n) =>
        if i.raised then Fail(s, n, i.connected) else DrainNext(s, n, i)
      case AtRecovery(n) =>
        if i.raised then Fail(s, n, i.connected)
        else if !s.active then Hold(s)
        else if !i.connected || i.required then Fail(s, n, i.connected)
        else Succeed(s.(restart := false))
      case AtBackoff => BeginRound(s, 1, i.connected)
  }

  function Stop(s: State): State {
    s.(active := false, requests := map[], failed := map[], stopping := !s.pc.Idle?)
  }

  datatype Event =
    | Queried(key: int, id: int)
    | Ensured(retry: bool, working: bool)
    | Resumed(input: Input)
    | Stopped

  function Step(s: State, e: Event): State {
    match e
    case Queried(key, id) => Query(s, key, id)
    case Ensured(retry, working) => if s.active then EnsureRoot(s, retry, working) else s
    case Resumed(i) => if s.pc.Idle? then s else Resume(s, i)
    case Stopped => Stop(s)
  }

  // ---------------------------------------------------------------- registrations

  predicate Holds(m: Requests, k: int, i: int, t: int) {
    k in m && 0 <= i < |m[k]| && m[k][i].token == t
  }

  /** The registration is waiting in one of the two maps. */
  ghost predicate Waiting(r: Requests, f: Requests, t: int) {
    (exists k, i :: Holds(r, k, i, t)) || (exists k, i :: Holds(f, k, i, t))
  }

  predicate Confirmed(calls: seq<Call>, t: int) {
    exists j :: 0 <= j < |calls| && calls[j].token == t && calls[j].ok
  }

  /** One place for each registration. */
  ghost predicate OnePlace(r: Requests, f: Requests) {
    && r.Keys !! f.Keys
    && (forall k, i, k', i', t :: Holds(r, k, i, t) && Holds(r, k', i', t) ==> k == k' && i == i')
    && (forall k, i, k', i', t :: Holds(f, k, i, t) && Holds(f, k', i', t) ==> k == k' && i == i')
    && (forall k, i, k', i', t :: Holds(r, k, i, t) ==> !Holds(f, k', i', t))
  }

  /** No call of a registration follows its confirmation. */
  predicate ConfirmedLast(calls: seq<Call>) {
    forall i, j :: 0 <= i < j < |calls| && calls[i].ok ==> calls[j].token != calls[i].token
  }

  /** Every registration up to now waits or was confirmed, never both. */
  ghost predicate Accounted(r: Requests, f: Requests, calls: seq<Call>, next: nat, active: bool) {
    && ConfirmedLast(calls)
    && (forall t :: Waiting(r, f, t) ==> t < next && !Confirmed(calls, t))
    && (forall i :: 0 <= i < |calls| ==> calls[i].token < next)
    && (active ==> forall t :: 0 <= t < next ==> Waiting(r, f, t) || Confirmed(calls, t))
  }

  ghost predicate Kept(s: State) {
    OnePlace(s.requests, s.failed) && Accounted(s.requests, s.failed, s.calls, s.next, s.active)
  }

  lemma MergedPlaces(r: Requests, f: Requests, t: int)
    requires r.Keys !! f.Keys
    ensures forall k, i :: Holds(r + f, k, i, t) <==> Holds(r, k, i, t) || Holds(f, k, i, t)
    ensures Waiting(r + f, map[], t) <==> Waiting(r, f, t)
    ensures Waiting(map[], f + r, t) <==> Waiting(r, f, t)
  {
    assert f + r == r + f;
    if k, i :| Holds(r + f, k, i, t) {
      assert Holds(r, k, i, t) || Holds(f, k, i, t);
    }
    if k, i :| Holds(r, k, i, t) {
      assert Holds(r + f, k, i, t);
    }
    if k, i :| Holds(f, k, i, t) {
      assert Holds(r + f, k, i, t);
    }
  }

  lemma MergedOnePlace(r: Requests, f: Requests)
    requires OnePlace(r, f)
    ensures OnePlace(r + f, map[]) && OnePlace(map[], f + r)
  {
    assert f + r == r + f;
    forall k, i, t ensures Holds(r + f, k, i, t) <==> Holds(r, k, i, t) || Holds(f, k, i, t) {
    }
    forall k, i, k', i', t | Holds(r + f, k, i, t) && Holds(r + f, k', i', t) ensures k == k' && i == i' {
    }
  }

  // The registrations of two maps, all moved into one of them.
  lemma MovedKeeps(r: Requests, f: Requests, calls: seq<Call>, next: nat, active: bool)
    requires OnePlace(r, f) && Accounted(r, f, calls, next, active)
    ensures OnePlace(r + f, map[]) && Accounted(r + f, map[], calls, next, active)
    ensures OnePlace(map[], f + r) && Accounted(map[], f + r, calls, next, active)
  {
    MergedOnePlace(r, f);
    forall t ensures Waiting(r + f, map[], t) <==> Waiting(r, f, t)
      ensures Waiting(map[], f + r, t) <==> Waiting(r, f, t)
    {
      MergedPlaces(r, f, t);
    }
  }

  // `m'` is `m` with one registration more, at the end of one request.
  ghost predicate OneMore(m: Requests, m': Requests, key: int, token: int) {
    && (forall k, i, t :: Holds(m, k, i, t) ==> Holds(m', k, i, t))
    && (forall k, i, t :: Holds(m', k, i, t) ==> Holds(m, k, i, t) || (k == key && i == |Known(m, key)| && t == token))
    && Holds(m', key, |Known(m, key)|, token)
  }

  lemma AppendIsOneMore(m: Requests, key: int, id: int, token: nat)
    ensures OneMore(m, m[key := Known(m, key) + [Callback(id, token)]], key, token)
  {
  }

  lemma TokensBelow(r: Requests, f: Requests, calls: seq<Call>, next: nat, active: bool)
    requires Accounted(r, f, calls, next, active)
    ensures forall k, i, t :: Holds(r, k, i, t) || Holds(f, k, i, t) ==> t < next && !Confirmed(calls, t)
  {
    forall k, i, t | Holds(r, k, i, t) || Holds(f, k, i, t) ensures t < next && !Confirmed(calls, t) {
      assert Waiting(r, f, t);
    }
  }

  // One more registration, under a number never used before.
  lemma AddedKeeps(r: Requests, f: Requests, r': Requests, f': Requests, calls: seq<Call>, next: nat, active: bool, key: int)
    requires OnePlace(r, f) && Accounted(r, f, calls, next, active) && r'.Keys !! f'.Keys
    requires (OneMore(r, r', key, next) && f' == f) || (OneMore(f, f', key, next) && r' == r)
    ensures OnePlace(r', f') && Accounted(r', f', calls, next + 1, active)
  {
    TokensBelow(r, f, calls, next, active);
    assert Waiting(r', f', next);
    forall t ensures Waiting(r', f', t) <==> Waiting(r, f, t) || t == next {
    }
    assert !Confirmed(calls, next);
  }

  predicate SameRegistrations(s: State, s': State) {
    s'.requests == s.requests && s'.failed == s.failed && s'.calls == s.calls && s'.next == s.next && s'.active == s.active
  }

  lemma SameKeeps(s: State, s': State)
    requires Kept(s) && SameRegistrations(s, s')
    ensures Kept(s')
  {
  }

  lemma LaunchKeeps(s: State, working: bool)
    requires Kept(s)
    ensures Kept(Launch(s, working))
  {
    SameKeeps(s, Launch(s, working));
  }

  lemma ReviveKeeps(s: State)
    requires Kept(s)
    ensures Kept(Revive(s))
  {
    MovedKeeps(s.requests, s.failed, s.calls, s.next, s.active);
  }

  lemma EnsureKeeps(s: State, retry: bool, working: bool)
    requires Kept(s)
    ensures Kept(EnsureRoot(s, retry, working))
  {
    if retry {
      ReviveKeeps(s);
      LaunchKeeps(Revive(s), working);
    } else {
      LaunchKeeps(s, working);
    }
  }

  lemma FailedQueryKeeps(s: State, key: int, id: int)
    requires Kept(s) && s.active && key in s.failed
    ensures Kept(Query(s, key, id))
  {
    if Knows(s.failed[key], id) {
      assert s.failed[key := s.failed[key]] == s.failed;
    } else {
      AppendIsOneMore(s.failed, key, id, s.next);
      AddedKeeps(s.requests, s.failed, s.requests, Added(s, s.failed, key, id), s.calls, s.next, s.active, key);
    }
  }

  lemma EmptyRequestKeeps(r: Requests, f: Requests, calls: seq<Call>, next: nat, active: bool, key: int)
    requires OnePlace(r, f) && Accounted(r, f, calls, next, active) && key !in f
    ensures OnePlace(r[key := Known(r, key)], f) && Accounted(r[key := Known(r, key)], f, calls, next, active)
  {
    var r' := r[key := Known(r, key)];
    forall k, i, t ensures Holds(r', k, i, t) <==> Holds(r, k, i, t) {
    }
    forall t ensures Waiting(r', f, t) <==> Waiting(r, f, t) {
    }
  }

  lemma RequestedKeeps(s: State, key: int, id: int)
    requires Kept(s) && s.active && key !in s.failed
    ensures Kept(Requested(s, key, id))
  {
    if Knows(Known(s.requests, key), id) {
      EmptyRequestKeeps(s.requests, s.failed, s.calls, s.next, s.active, key);
    } else {
      AppendIsOneMore(s.requests, key, id, s.next);
      AddedKeeps(s.requests, s.failed, Added(s, s.requests, key, id), s.failed, s.calls, s.next, s.active, key);
    }
  }

  lemma QueryKeeps(s: State, key: int, id: int)
    requires Kept(s)
    ensures Kept(Query(s, key, id))
  {
    if s.active && key in s.failed {
      FailedQueryKeeps(s, key, id);
    } else if s.active {
      RequestedKeeps(s, key, id);
      SameKeeps(Requested(s, key, id), Query(s, key, id));
    }
  }

  lemma RetainKeeps(s: State)
    requires Kept(s) && (!s.active ==> s.requests == map[])
    ensures Kept(Retain(s)) && Kept(Hold(s))
  {
    MovedKeeps(s.requests, s.failed, s.calls, s.next, s.active);
  }

  lemma LaterCall(calls: seq<Call>, token: nat, ok: bool)
    ensures forall t :: Confirmed(calls + [Call(token, ok)], t) <==> Confirmed(calls, t) || (ok && t == token)
    ensures ConfirmedLast(calls) && !Confirmed(calls, token) ==> ConfirmedLast(calls + [Call(token, ok)])
  {
    var more := calls + [Call(token, ok)];
    forall t ensures Confirmed(more, t) <==> Confirmed(calls, t) || (ok && t == token) {
      if Confirmed(calls, t) {
        var j :| 0 <= j < |calls| && calls[j].token == t && calls[j].ok;
        assert more[j].token == t && more[j].ok;
      }
      if ok && t == token {
        assert more[|calls|].token == t && more[|calls|].ok;
      }
    }
  }

  // The head of a request leaves; everything else keeps its place.
  lemma HeadLeaves(m: Requests, key: int)
    requires key in m && m[key] != []
    ensures
      var m' := m[key := m[key][1..]];
      && (forall k, i, t :: Holds(m', k, i, t) ==> Holds(m, k, if k == key then i + 1 else i, t))
      && (forall k, i, t :: Holds(m, k, i, t) && !(k == key && i == 0) ==> Holds(m', k, if k == key then i - 1 else i, t))
  {
  }

  lemma ConfirmedKeeps(r: Requests, f: Requests, calls: seq<Call>, next: nat, active: bool, key: int, token: nat)
    requires OnePlace(r, f) && Accounted(r, f, calls, next, active)
    requires key in r && r[key] != [] && token == r[key][0].token
    ensures OnePlace(r[key := r[key][1..]], f)
    ensures Accounted(r[key := r[key][1..]], f, calls + [Call(token, true)], next, active)
  {
    var r' := r[key := r[key][1..]];
    assert Holds(r, key, 0, token);
    TokensBelow(r, f, calls, next, active);
    LaterCall(calls, token, true);
    HeadLeaves(r, key);
    forall t ensures Waiting(r', f, t) <==> Waiting(r, f, t) && t != token {
      if Waiting(r, f, t) && t != token {
        if k, i :| Holds(r, k, i, t) {
          assert Holds(r', k, if k == key then i - 1 else i, t);
        }
      }
    }
  }

  lemma RefusedKeeps(r: Requests, f: Requests, calls: seq<Call>, next: nat, active: bool, key: int, token: nat)
    requires OnePlace(r, f) && Accounted(r, f, calls, next, active)
    requires key in r && r[key] != [] && token == r[key][0].token
    ensures Accounted(r, f, calls + [Call(token, false)], next, active)
  {
    assert Holds(r, key, 0, token);
    TokensBelow(r, f, calls, next, active);
    LaterCall(calls, token, false);
  }

  lemma {:induction false} QueryAllKeeps(s: State, entries: seq<(int, int)>)
    requires Kept(s)
    ensures Kept(QueryAll(s, entries))
    decreases |entries|
  {
    if entries != [] {
      QueryKeeps(s, entries[0].0, entries[0].1);
      QueryAllKeeps(Query(s, entries[0].0, entries[0].1), entries[1..]);
    }
  }

  // Registering, even from inside a callback, leaves the request being drained where it is.
  predicate SameDrain(s: State, s': State, key: int) {
    && s'.active == s.active && s'.pc == s.pc && s'.busy == s.busy && s'.rounds == s.rounds
    && s'.stopping == s.stopping && s'.calls == s.calls && s'.restart == s.restart
    && (key in s.requests ==> key in s'.requests && s.requests[key] <= s'.requests[key])
  }

  lemma AddedExtends(s: State, m: Requests, key: int, id: int, drained: int)
    requires drained in m
    ensures drained in Added(s, m, key, id) && m[drained] <= Added(s, m, key, id)[drained]
  {
  }

  lemma QueryDrain(s: State, key: int, id: int, drained: int)
    requires !s.pc.Idle?
    ensures SameDrain(s, Query(s, key, id), drained)
  {
    if drained in s.requests {
      AddedExtends(s, s.requests, key, id, drained);
    }
  }

  lemma {:induction false} QueryAllDrain(s: State, entries: seq<(int, int)>, drained: int)
    requires !s.pc.Idle?
    ensures SameDrain(s, QueryAll(s, entries), drained)
    decreases |entries|
  {
    if entries != [] {
      QueryDrain(s, entries[0].0, entries[0].1, drained);
      QueryAllDrain(Query(s, entries[0].0, entries[0].1), entries[1..], drained);
    }
  }

  // ---------------------------------------------------------------- control

  /** At most two rounds a root, one root at a time, and the request being drained is pending. */
  predicate Control(s: State) {
    && (s.busy <==> !s.pc.Idle?)
    && s.rounds <= 2
    && (s.stopping <==> !s.active && !s.pc.Idle?)
    && (!s.active ==> s.requests == map[] && s.failed == map[])
    && match s.pc
       case Idle => true
       case Created => s.rounds == 0
       case AtWorking(n) => s.rounds == n + 1
       case AtReconcile(n) => s.rounds == n + 1
       case AtReport(n, key) => s.rounds == n + 1 && (s.stopping || key in s.requests)
       case AfterCallback(n, key) => s.rounds == n + 1 && (s.stopping || key in s.requests)
       case AfterPop(n) => s.rounds == n + 1
       case AtRecovery(n) => s.rounds == n + 1
       case AtBackoff => s.rounds == 1
  }

  lemma FailKeeps(s: State, n: nat, connected: bool)
    requires Kept(s) && s.rounds == n + 1 <= 2 && s.active && !s.stopping && s.busy
    ensures Kept(Fail(s, n, connected)) && Control(Fail(s, n, connected))
  {
    RetainKeeps(s.(failure := true));
  }

  lemma CallNextKeeps(s: State, n: nat, key: int, i: Input)
    requires Kept(s) && Control(s) && !s.stopping && s.active && s.rounds == n + 1 && !s.pc.Idle? && key in s.requests
    ensures Kept(CallNext(s, n, key, i)) && Control(CallNext(s, n, key, i))
  {
    var callbacks := s.requests[key];
    if callbacks == [] {
      EmptyLeaves(s.requests, s.failed, s.calls, s.next, s.active, key);
    } else {
      QueryAllKeeps(s, i.reentrant);
      QueryAllDrain(s, i.reentrant, key);
      var called := QueryAll(s, i.reentrant);
      assert called.requests[key][0] == callbacks[0];
      if i.accepted {
        ConfirmedKeeps(called.requests, called.failed, called.calls, called.next, called.active, key, callbacks[0].token);
      } else {
        RefusedKeeps(called.requests, called.failed, called.calls, called.next, called.active, key, callbacks[0].token);
        FailKeeps(called.(calls := called.calls + [Call(callbacks[0].token, false)]), n, i.connected);
      }
    }
  }

  lemma EmptyLeaves(r: Requests, f: Requests, calls: seq<Call>, next: nat, active: bool, key: int)
    requires OnePlace(r, f) && Accounted(r, f, calls, next, active) && key in r && r[key] == []
    ensures OnePlace(r - {key}, f) && Accounted(r - {key}, f, calls, next, active)
  {
    var r' := r - {key};
    forall k, i, t ensures Holds(r', k, i, t) <==> Holds(r, k, i, t) {
    }
    forall t ensures Waiting(r', f, t) <==> Waiting(r, f, t) {
    }
  }

  ghost predicate Good(s: State) {
    Kept(s) && Control(s)
  }

  lemma SucceedKeeps(s: State)
    requires Kept(s) && s.active && !s.stopping && s.rounds <= 2
    ensures Good(Succeed(s))
  {
    SameKeeps(s, Succeed(s));
  }

  lemma MoveKeeps(s: State, s': State)
    requires Kept(s) && SameRegistrations(s, s') && Control(s')
    ensures Good(s')
  {
    SameKeeps(s, s');
  }

  lemma DrainNextKeeps(s: State, n: nat, i: Input)
    requires Good(s) && s.active && s.rounds == n + 1 && (s.pc == AtReconcile(n) || s.pc == AfterPop(n))
    ensures Good(DrainNext(s, n, i))
  {
    if s.requests != map[] {
      MoveKeeps(s, DrainNext(s, n, i));
    } else if i.required {
      FailKeeps(s, n, i.connected);
    } else if !s.restart {
      SucceedKeeps(s);
    } else if s.failed != map[] {
      FailKeeps(s, n, i.connected);
    } else {
      MoveKeeps(s, s.(pc := AtRecovery(n)));
    }
  }

  lemma BeginRoundKeeps(s: State, n: nat, connected: bool)
    requires Good(s) && s.active && !s.pc.Idle? && s.rounds == n <= 1
    ensures Good(BeginRound(s, n, connected))
  {
    if connected {
      MoveKeeps(s, BeginRound(s, n, connected));
    } else {
      RetainKeeps(s.(failure := true));
    }
  }

  lemma WorkingKeeps(s: State, n: nat, i: Input)
    requires Good(s) && s.active && s.pc == AtWorking(n)
    ensures Good(Resume(s, i))
  {
    if i.raised || !i.connected {
      FailKeeps(s, n, i.connected);
    } else if !s.mass && !i.good && !i.required {
      SucceedKeeps(s);
    } else {
      MoveKeeps(s, Resume(s, i));
    }
  }

  lemma RecoveryKeeps(s: State, n: nat, i: Input)
    requires Good(s) && s.active && s.pc == AtRecovery(n)
    ensures Good(Resume(s, i))
  {
    if i.raised || !i.connected || i.required {
      FailKeeps(s, n, i.connected);
    } else {
      SameKeeps(s, s.(restart := false));
      SucceedKeeps(s.(restart := false));
    }
  }

  lemma DrainingKeeps(s: State, n: nat, key: int, i: Input)
    requires Good(s) && s.active && (s.pc == AtReport(n, key) || s.pc == AfterCallback(n, key))
    ensures Good(Resume(s, i))
  {
    if i.raised || (s.pc.AtReport? && !i.good) {
      FailKeeps(s, n, i.connected);
    } else {
      CallNextKeeps(s, n, key, i);
    }
  }

  lemma BetweenKeeps(s: State, n: nat, i: Input)
    requires Good(s) && s.active && (s.pc == AtReconcile(n) || s.pc == AfterPop(n))
    ensures Good(Resume(s, i))
  {
    if i.raised || (s.pc.AtReconcile? && (!i.good || i.required)) {
      FailKeeps(s, n, i.connected);
    } else {
      DrainNextKeeps(s, n, i);
    }
  }

  lemma ResumeKeeps(s: State, i: Input)
    requires Good(s) && !s.pc.Idle? && s.active
    ensures Good(Resume(s, i))
  {
    match s.pc
    case Created => BeginRoundKeeps(s, 0, i.connected);
    case AtWorking(n) => WorkingKeeps(s, n, i);
    case AtReconcile(n) => BetweenKeeps(s, n, i);
    case AtReport(n, key) => DrainingKeeps(s, n, key, i);
    case AfterCallback(n, key) => DrainingKeeps(s, n, key, i);
    case AfterPop(n) => BetweenKeeps(s, n, i);
    case AtRecovery(n) => RecoveryKeeps(s, n, i);
    case AtBackoff => BeginRoundKeeps(s, 1, i.connected);
  }

  lemma CancelKeeps(s: State, i: Input)
    requires Good(s) && s.stopping
    ensures Good(Resume(s, i))
  {
    RetainKeeps(s.(failure := true));
  }

  lemma StopKeeps(s: State)
    requires Good(s)
    ensures Good(Stop(s))
  {
    forall t ensures !Waiting(map[], map[], t) {
    }
  }

  lemma QueriedKeeps(s: State, key: int, id: int)
    requires Good(s)
    ensures Good(Query(s, key, id))
  {
    QueryKeeps(s, key, id);
    QueryControl(s, key, id);
  }

  lemma EnsureControl(s: State, retry: bool, working: bool)
    requires Control(s) && s.active
    ensures Control(EnsureRoot(s, retry, working))
  {
  }

  lemma EnsuredKeeps(s: State, retry: bool, working: bool)
    requires Good(s) && s.active
    ensures Good(EnsureRoot(s, retry, working))
  {
    EnsureKeeps(s, retry, working);
    EnsureControl(s, retry, working);
  }

  lemma StepKeeps(s: State, e: Event)
    requires Good(s)
    ensures Good(Step(s, e))
  {
    match e
    case Queried(key, id) => QueriedKeeps(s, key, id);
    case Ensured(retry, working) =>
      if s.active {
        EnsuredKeeps(s, retry, working);
      }
    case Resumed(i) =>
      if s.stopping {
        CancelKeeps(s, i);
      } else if !s.pc.Idle? {
        ResumeKeeps(s, i);
      }
    case Stopped => StopKeeps(s);
  }

  lemma QueryControl(s: State, key: int, id: int)
    requires Control(s)
    ensures Control(Query(s, key, id))
  {
  }

  // ---------------------------------------------------------------- runs

  function Run(restart: bool, events: seq<Event>): State {
    if events == [] then Initial(restart)
    else Step(Run(restart, events[..|events| - 1]), events[|events| - 1])
  }

  lemma {:induction false} EveryRunIsGood(restart: bool, events: seq<Event>)
    ensures Good(Run(restart, events))
  {
    if events != [] {
      EveryRunIsGood(restart, events[..|events| - 1]);
      StepKeeps(Run(restart, events[..|events| - 1]), events[|events| - 1]);
    }
  }

  /** Over every interleaving, while the reconciler is active each registration waits in exactly one
      place of exactly one of the two maps, which share no key, until it has returned True. */
  lemma EveryRegistrationHasOnePlace(restart: bool, events: seq<Event>, s: State, t: nat)
    requires s == Run(restart, events) && s.active && t < s.next
    ensures s.requests.Keys !! s.failed.Keys
    ensures Waiting(s.requests, s.failed, t) <==> !Confirmed(s.calls, t)
    ensures forall k, i, k', i' :: Holds(s.requests, k, i, t) ==>
      !Holds(s.failed, k', i', t) && (Holds(s.requests, k', i', t) ==> k == k' && i == i')
    ensures forall k, i, k', i' :: Holds(s.failed, k, i, t) && Holds(s.failed, k', i', t) ==> k == k' && i == i'
  {
    EveryRunIsGood(restart, events);
  }

  /** A registration that returned True is never called again; one root makes at most two rounds;
      the gate is closed exactly while a root lives. */
  lemma EveryRunIsBounded(restart: bool, events: seq<Event>, s: State)
    requires s == Run(restart, events)
    ensures forall i, j :: 0 <= i < j < |s.calls| && s.calls[i].ok ==> s.calls[j].token != s.calls[i].token
    ensures s.rounds <= 2 && (s.busy <==> !s.pc.Idle?)
  {
    EveryRunIsGood(restart, events);
  }

  // What a resumed root can come to, as far as rounds and pending requests go.
  predicate Moved(s: State, s': State) {
    s'.rounds >= s.rounds && !s'.pc.Created?
  }

  predicate EndsEmpty(s': State) {
    s'.pc.Idle? ==> s'.requests == map[]
  }

  lemma FailMoves(s: State, n: nat, connected: bool)
    ensures Moved(s, Fail(s, n, connected)) && EndsEmpty(Fail(s, n, connected))
  {
  }

  lemma CallNextMoves(s: State, n: nat, key: int, i: Input, s': State)
    requires !s.pc.Idle? && s' == CallNext(s, n, key, i)
    ensures Moved(s, s') && EndsEmpty(s')
  {
    var callbacks := Known(s.requests, key);
    if callbacks != [] {
      var called := QueryAll(s, i.reentrant);
      QueryAllDrain(s, i.reentrant, key);
      var returned := called.(calls := called.calls + [Call(callbacks[0].token, i.accepted)]);
      if !i.accepted {
        FailMoves(returned, n, i.connected);
        assert s' == Fail(returned, n, i.connected);
      } else {
        assert s'.pc == AfterCallback(n, key) && s'.rounds == called.rounds;
      }
    } else {
      assert s'.pc == AfterPop(n) && s'.rounds == s.rounds;
    }
  }

  lemma DrainMoves(s: State, n: nat, i: Input, s': State)
    requires !s.pc.Idle? && !s.pc.Created? && s' == DrainNext(s, n, i)
    ensures Moved(s, s') && EndsEmpty(s')
  {
    FailMoves(s, n, i.connected);
    DrainCases(s, n, i, s');
  }

  lemma DrainCases(s: State, n: nat, i: Input, s': State)
    requires s' == DrainNext(s, n, i)
    ensures s.requests != map[] ==> s'.rounds == s.rounds && (s'.pc == AtReport(n, i.pick) || s' == s)
    ensures s.requests == map[] && (i.required || (s.restart && s.failed != map[])) ==> s' == Fail(s, n, i.connected)
    ensures s.requests == map[] && !i.required && s.restart && s.failed == map[] ==> s' == s.(pc := AtRecovery(n))
    ensures s.requests == map[] && !i.required && !s.restart ==> s'.requests == map[] && s'.rounds == s.rounds && s'.pc.Idle?
  {
  }

  lemma DrainingMoves(s: State, i: Input, s': State)
    requires (s.pc.AtReport? || s.pc.AfterCallback?) && !s.stopping && s' == Resume(s, i)
    ensures Moved(s, s') && EndsEmpty(s')
  {
    FailMoves(s, s.pc.n, i.connected);
    if i.raised || (s.pc.AtReport? && !i.good) {
      assert s' == Fail(s, s.pc.n, i.connected);
    } else {
      CallNextMoves(s, s.pc.n, s.pc.key, i, s');
    }
  }

  lemma BetweenMoves(s: State, i: Input, s': State)
    requires (s.pc.AtReconcile? || s.pc.AfterPop?) && !s.stopping && s' == Resume(s, i)
    ensures Moved(s, s') && EndsEmpty(s')
  {
    FailMoves(s, s.pc.n, i.connected);
    if i.raised || (s.pc.AtReconcile? && (!i.good || i.required)) {
      assert s' == Fail(s, s.pc.n, i.connected);
    } else {
      DrainMoves(s, s.pc.n, i, s');
    }
  }

  lemma BeginMoves(s: State, n: nat, connected: bool, s': State)
    requires s' == BeginRound(s, n, connected)
    ensures Moved(s, s') && EndsEmpty(s')
  {
  }

  // An observation or a recovery that ends well is the one end that drains nothing.
  lemma WaitingMoves(s: State, i: Input, s': State)
    requires (s.pc.AtWorking? || s.pc.AtRecovery?) && s.active && !s.stopping && s' == Resume(s, i)
    ensures Moved(s, s')
    ensures EndsWithoutDrain(s, i) ==> s'.pc.Idle? && s'.requests == s.requests
    ensures !EndsWithoutDrain(s, i) ==> EndsEmpty(s')
  {
    FailMoves(s, s.pc.n, i.connected);
    FailMoves(s, s.pc.n, false);
  }

  lemma ResumeMoves(s: State, i: Input, s': State)
    requires Control(s) && s.active && !s.pc.Idle? && s' == Resume(s, i)
    ensures Moved(s, s')
    ensures s'.pc.Idle? ==> (s'.requests != map[] <==> s.requests != map[] && EndsWithoutDrain(s, i))
  {
    match s.pc
    case Created => BeginMoves(s, 0, i.connected, s');
    case AtBackoff => BeginMoves(s, 1, i.connected, s');
    case AtWorking(n) => WaitingMoves(s, i, s');
    case AtRecovery(n) => WaitingMoves(s, i, s');
    case AtReport(n, key) => DrainingMoves(s, i, s');
    case AfterCallback(n, key) => DrainingMoves(s, i, s');
    case AtReconcile(n) => BetweenMoves(s, i, s');
    case AfterPop(n) => BetweenMoves(s, i, s');
  }

  /** The count of rounds starts again only with a new root, and a root starts only when none
      lives. */
  lemma RoundsBelongToOneRoot(s: State, e: Event)
    requires Control(s)
    ensures Step(s, e).rounds >= s.rounds || (s.pc.Idle? && Step(s, e).pc.Created?)
    ensures Step(s, e).pc.Created? ==> s.pc.Idle? || s.pc.Created?
  {
    if e.Resumed? && !s.pc.Idle? && s.active {
      ResumeMoves(s, e.input, Step(s, e));
    }
  }

  // ---------------------------------------------------------------- how a root leaves the maps

  /** The root ends well without draining: an unchanged working-order check, or a recovery. */
  predicate EndsWithoutDrain(s: State, i: Input) {
    || (s.pc.AtWorking? && !i.raised && i.connected && !s.mass && !i.good && !i.required)
    || (s.pc.AtRecovery? && !i.raised && i.connected && !i.required)
  }

  /** When a root of an active reconciler ends, no request stays pending without a root, except
      those that came in while it was ending without a drain. */
  lemma RootEndLeavesPendingIff(s: State, i: Input, s': State)
    requires Control(s) && s.active && !s.pc.Idle? && s' == Step(s, Resumed(i)) && s'.pc.Idle?
    ensures s'.requests != map[] <==> s.requests != map[] && EndsWithoutDrain(s, i)
  {
    ResumeMoves(s, i, s');
  }

  /** A request registered while the startup recovery is awaited outlives its root: the reconciler
      reports success and stands idle with the callback still pending. */
  lemma RecoveryCanLeaveARequest() returns (events: seq<Event>, s: State)
    ensures s == Run(true, events) && s.active && s.pc.Idle? && !s.busy && !s.failure && !s.restart
    ensures s.requests == map[1 := [Callback(5, 0)]]
  {
    var e1, e2, e4 := Ensured(false, false), Resumed(GOOD), Queried(1, 5);
    var s1 := Initial(true).(busy := true, mass := true, pc := Created);
    var s2 := s1.(rounds := 1, pc := AtReconcile(0));
    var s3 := s2.(pc := AtRecovery(0));
    var s4 := s3.(requests := map[1 := [Callback(5, 0)]], next := 1);
    s := s4.(restart := false, pc := Idle, busy := false);
    RunExtends(true, [], Initial(true), e1, s1);
    GoodSteps(s1, s2, s3, s4, s);
    RunExtends(true, [] + [e1], s1, e2, s2);
    RunExtends(true, [] + [e1] + [e2], s2, e2, s3);
    LateQuery(s3, s4);
    RunExtends(true, [] + [e1] + [e2] + [e2], s3, e4, s4);
    RunExtends(true, [] + [e1] + [e2] + [e2] + [e4], s4, e2, s);
    events := [] + [e1] + [e2] + [e2] + [e4] + [e2];
  }

  const GOOD := Input(false, true, false, true, true, [], 0)

  // A round in which nothing is pending runs to the startup recovery and ends well.
  lemma GoodSteps(s1: State, s2: State, s3: State, s4: State, s5: State)
    requires s1.active && s1.mass && s1.restart && !s1.stopping && s1.rounds == 0 && s1.pc.Created?
    requires s1.requests == map[] && s1.failed == map[] && !s1.failure
    requires s2 == s1.(rounds := 1, pc := AtReconcile(0)) && s3 == s2.(pc := AtRecovery(0))
    requires s4 == s3.(requests := s4.requests, next := s4.next) && s5 == s4.(restart := false, pc := Idle, busy := false)
    ensures Step(s1, Resumed(GOOD)) == s2 && Step(s2, Resumed(GOOD)) == s3 && Step(s4, Resumed(GOOD)) == s5
  {
  }

  lemma RunExtends(restart: bool, events: seq<Event>, s: State, e: Event, s': State)
    requires Run(restart, events) == s && Step(s, e) == s'
    ensures Run(restart, events + [e]) == s'
  {
    assert (events + [e])[..|events|] == events;
  }

  lemma LateQuery(s: State, s': State)
    requires s.active && !s.pc.Idle? && s.mass && s.requests == map[] && s.failed == map[] && s.next == 0
    requires s' == s.(requests := map[1 := [Callback(5, 0)]], next := 1)
    ensures Step(s, Queried(1, 5)) == s'
  {
    assert Known(s.requests, 1) == [] && [] + [Callback(5, 0)] == [Callback(5, 0)];
    assert !Knows(Known(s.requests, 1), 5);
  }
}
