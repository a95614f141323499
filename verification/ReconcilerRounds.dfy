/** What a root must have been answered before it calls, succeeds or releases. */
module ReconcilerRounds {
  import opened TerminalReconciler

  // ---------------------------------------------------------------- answers, told on inputs

  /** The native reconciliation was exact and left the adapter nothing to require. */
  predicate Exact(s: State, e: Event) {
    s.pc.AtReconcile? && !s.stopping && e.Resumed? && !e.input.raised && e.input.good && !e.input.required
  }

  predicate BeginsRound(s: State, e: Event) {
    e.Resumed? && (s.pc.Created? || s.pc.AtBackoff?)
  }

  /** The working orders were read and nothing about them, or asked meanwhile, calls for more. */
  predicate Unchanged(s: State, e: Event) {
    && s.pc.AtWorking? && s.active && !s.stopping && !s.mass && e.Resumed?
    && !e.input.raised && e.input.connected && !e.input.good && !e.input.required
  }

  ghost predicate ExactAt(restart: bool, events: seq<Event>, k: nat) {
    k < |events| && Exact(Run(restart, events[..k]), events[k])
    && forall j :: k < j < |events| ==> !BeginsRound(Run(restart, events[..j]), events[j])
  }

  /** The round now under way has had its exact answer. */
  ghost predicate ExactSince(restart: bool, events: seq<Event>) {
    exists k :: ExactAt(restart, events, k)
  }

  lemma RunPrefix(restart: bool, events: seq<Event>, e: Event, j: nat)
    requires j <= |events|
    ensures (events + [e])[..j] == events[..j] && Run(restart, events + [e]) == Step(Run(restart, events), e)
    ensures (events + [e])[..|events|] == events && events[..|events|] == events
  {
    assert (events + [e])[..|events|] == events;
  }

  lemma ExactStays(restart: bool, events: seq<Event>, e: Event)
    requires ExactSince(restart, events) && !BeginsRound(Run(restart, events), e)
    ensures ExactSince(restart, events + [e])
  {
    var k: nat :| ExactAt(restart, events, k);
    forall j | k < j < |events + [e]| ensures !BeginsRound(Run(restart, (events + [e])[..j]), (events + [e])[j]) {
      RunPrefix(restart, events, e, j);
    }
    RunPrefix(restart, events, e, k);
    assert ExactAt(restart, events + [e], k);
  }

  lemma ExactNow(restart: bool, events: seq<Event>, e: Event)
    requires Exact(Run(restart, events), e)
    ensures ExactSince(restart, events + [e])
  {
    RunPrefix(restart, events, e, |events|);
    assert ExactAt(restart, events + [e], |events|);
  }

  // ---------------------------------------------------------------- one step

  predicate Certified(s: State) {
    s.pc.AtReport? || s.pc.AfterCallback? || s.pc.AfterPop? || s.pc.AtRecovery?
  }

  // Registering and stopping make no call, clear no failure and move no root.
  predicate RootStays(s: State, s': State) {
    && s'.calls == s.calls && s'.restart == s.restart && s'.failure == s.failure && s'.rounds <= s.rounds
    && (s'.pc == s.pc || (s.pc.Idle? && s'.pc.Created?))
  }

  lemma QueryStays(s: State, key: int, id: int)
    ensures RootStays(s, Query(s, key, id))
  {
  }

  lemma EnsureStays(s: State, retry: bool, working: bool)
    ensures RootStays(s, EnsureRoot(s, retry, working))
  {
  }

  lemma OthersStay(s: State, e: Event)
    requires !e.Resumed? || s.pc.Idle?
    ensures RootStays(s, Step(s, e))
  {
    match e
    case Queried(key, id) => QueryStays(s, key, id);
    case Ensured(retry, working) => EnsureStays(s, retry, working);
    case _ =>
  }

  lemma CallNextIs(s: State, n: nat, key: int, i: Input, s': State)
    requires !s.pc.Idle? && s' == CallNext(s, n, key, i)
    ensures s'.calls == s.calls || (|s'.calls| == |s.calls| + 1 && s.calls <= s'.calls)
    ensures s'.pc.AfterPop? || s'.pc.AfterCallback? || s'.failure
    ensures s'.restart == s.restart
  {
    if Known(s.requests, key) != [] {
      var called := QueryAll(s, i.reentrant);
      QueryAllDrain(s, i.reentrant, key);
      var returned := called.(calls := called.calls + [Call(Known(s.requests, key)[0].token, i.accepted)]);
      if i.accepted {
        assert s'.pc.AfterCallback? && s'.calls == returned.calls && s'.restart == returned.restart;
      } else {
        FailEnds(returned, n, i.connected);
      }
    }
  }

  // A failed round.
  predicate Ended(s: State, s': State) {
    s'.failure && (s'.pc.Idle? || s'.pc.AtBackoff?) && s'.calls == s.calls && s'.restart == s.restart
  }

  lemma FailEnds(s: State, n: nat, connected: bool)
    ensures Ended(s, Fail(s, n, connected)) && Ended(s, Hold(s))
  {
  }

  lemma DrainOutcomes(s: State, n: nat, i: Input, s': State)
    requires s' == DrainNext(s, n, i)
    ensures s'.calls == s.calls && s'.restart == s.restart
  {
    FailEnds(s, n, i.connected);
    if s.requests != map[] {
      assert s' == s || s' == s.(pc := AtReport(n, i.pick));
    } else if i.required || (s.restart && s.failed != map[]) {
      assert s' == Fail(s, n, i.connected);
    } else if s.restart {
      assert s' == s.(pc := AtRecovery(n));
    } else {
      assert s' == Succeed(s);
    }
  }

  /** What a step of a living root needs for each of its effects. */
  predicate Earned(s: State, e: Event, s': State) {
    var exact := Exact(s, e) || (Certified(s) && !BeginsRound(s, e));
    && (Certified(s') ==> exact)
    && (s'.calls != s.calls ==> Certified(s) && !BeginsRound(s, e) && |s'.calls| == |s.calls| + 1 && s.calls <= s'.calls)
    && (s'.pc.Idle? && !s'.failure ==> exact || Unchanged(s, e))
    && (s.restart && !s'.restart ==> s.pc.AtRecovery? && !BeginsRound(s, e))
  }

  lemma DrainingEarns(s: State, i: Input)
    requires (s.pc.AtReport? || s.pc.AfterCallback?) && !s.stopping
    ensures Earned(s, Resumed(i), Resume(s, i))
  {
    if !i.raised && (s.pc.AtReport? ==> i.good) {
      CallNextIs(s, s.pc.n, s.pc.key, i, Resume(s, i));
    }
  }

  lemma WaitingEarns(s: State, i: Input)
    requires !s.stopping && (s.pc.Created? || s.pc.AtBackoff?)
    ensures Earned(s, Resumed(i), Resume(s, i))
  {
    FailEnds(s, 0, i.connected);
  }

  lemma WorkingEarns(s: State, i: Input)
    requires !s.stopping && s.pc.AtWorking?
    ensures Earned(s, Resumed(i), Resume(s, i))
  {
    FailEnds(s, s.pc.n, i.connected);
    FailEnds(s, s.pc.n, false);
  }

  lemma RecoveryEarns(s: State, i: Input)
    requires !s.stopping && s.pc.AtRecovery?
    ensures Earned(s, Resumed(i), Resume(s, i))
  {
    FailEnds(s, s.pc.n, i.connected);
  }

  lemma BetweenEarns(s: State, i: Input)
    requires !s.stopping && (s.pc.AtReconcile? || s.pc.AfterPop?)
    ensures Earned(s, Resumed(i), Resume(s, i))
  {
    if i.raised || (s.pc.AtReconcile? && (!i.good || i.required)) {
      FailEnds(s, s.pc.n, i.connected);
    } else {
      DrainOutcomes(s, s.pc.n, i, DrainNext(s, s.pc.n, i));
    }
  }

  lemma RootEarns(s: State, e: Event, s': State)
    requires e.Resumed? && !s.pc.Idle? && s' == Step(s, e)
    ensures Earned(s, e, s')
  {
    if s.stopping {
      assert s'.pc.Idle? && s'.failure && s'.calls == s.calls && s'.restart == s.restart;
    } else if s.pc.AtReport? || s.pc.AfterCallback? {
      DrainingEarns(s, e.input);
    } else if s.pc.AtReconcile? || s.pc.AfterPop? {
      BetweenEarns(s, e.input);
    } else if s.pc.AtWorking? {
      WorkingEarns(s, e.input);
    } else if s.pc.AtRecovery? {
      RecoveryEarns(s, e.input);
    } else {
      WaitingEarns(s, e.input);
    }
  }

  lemma CertifiedByExactness(s: State, e: Event, s': State)
    requires s' == Step(s, e) && Certified(s')
    ensures Exact(s, e) || (Certified(s) && !BeginsRound(s, e))
  {
    if e.Resumed? && !s.pc.Idle? {
      RootEarns(s, e, s');
    } else {
      OthersStay(s, e);
    }
  }

  // ---------------------------------------------------------------- whole runs

  lemma {:induction false} CertifiedIsExact(restart: bool, events: seq<Event>)
    requires Certified(Run(restart, events))
    ensures ExactSince(restart, events)
  {
    if events != [] {
      var front, e := events[..|events| - 1], events[|events| - 1];
      assert events == front + [e];
      CertifiedByExactness(Run(restart, front), e, Run(restart, events));
      if Exact(Run(restart, front), e) {
        ExactNow(restart, front, e);
      } else {
        CertifiedIsExact(restart, front);
        ExactStays(restart, front, e);
      }
    }
  }

  lemma ExactBy(restart: bool, events: seq<Event>, e: Event)
    requires Exact(Run(restart, events), e) || (Certified(Run(restart, events)) && !BeginsRound(Run(restart, events), e))
    ensures ExactSince(restart, events + [e])
  {
    if Exact(Run(restart, events), e) {
      ExactNow(restart, events, e);
    } else {
      CertifiedIsExact(restart, events);
      ExactStays(restart, events, e);
    }
  }

  lemma CallsGrow(s: State, e: Event, s': State)
    requires s' == Step(s, e)
    ensures s'.calls == s.calls || (|s'.calls| == |s.calls| + 1 && s.calls <= s'.calls && Certified(s))
  {
    if e.Resumed? && !s.pc.Idle? {
      RootEarns(s, e, s');
    } else {
      OthersStay(s, e);
    }
  }

  /** The n-th event makes the m-th call, when the round under way has had its exact answer. */
  ghost predicate CallAt(restart: bool, events: seq<Event>, m: nat, n: nat) {
    && n < |events| && ExactSince(restart, events[..n])
    && |Run(restart, events[..n]).calls| == m == |Run(restart, events[..n + 1]).calls| - 1
    && Run(restart, events[..n + 1]).calls <= Run(restart, events).calls
  }

  lemma CallStays(restart: bool, events: seq<Event>, e: Event, m: nat, n: nat)
    requires CallAt(restart, events, m, n) && Run(restart, events).calls <= Run(restart, events + [e]).calls
    ensures CallAt(restart, events + [e], m, n)
  {
    RunPrefix(restart, events, e, n);
    RunPrefix(restart, events, e, n + 1);
  }

  lemma CallNow(restart: bool, events: seq<Event>, e: Event)
    requires |Run(restart, events + [e]).calls| == |Run(restart, events).calls| + 1 && ExactSince(restart, events)
    ensures CallAt(restart, events + [e], |Run(restart, events).calls|, |events|)
  {
    RunPrefix(restart, events, e, |events|);
    assert (events + [e])[..|events| + 1] == events + [e];
  }

  /** Over every run, each callback is called only after the round then under way had an exact native
      reconciliation that left the adapter nothing to require. */
  lemma {:induction false} EveryCallFollowsExactness(restart: bool, events: seq<Event>, m: nat) returns (n: nat)
    requires m < |Run(restart, events).calls|
    ensures CallAt(restart, events, m, n)
  {
    var front, e := events[..|events| - 1], events[|events| - 1];
    assert events == front + [e];
    CallsGrow(Run(restart, front), e, Run(restart, events));
    if m == |Run(restart, front).calls| {
      CertifiedIsExact(restart, front);
      CallNow(restart, front, e);
      n := |front|;
    } else {
      n := EveryCallFollowsExactness(restart, front, m);
      CallStays(restart, front, e, m, n);
    }
  }

  /** Over every run, a root that ends with no failure recorded had an exact native reconciliation in
      its last round, or ended on an unchanged working-order check; and the startup hold is released
      only after such a reconciliation. */
  lemma SuccessFollowsExactness(restart: bool, events: seq<Event>, e: Event, s: State, s': State)
    requires s == Run(restart, events) && s' == Run(restart, events + [e])
    ensures !s.pc.Idle? && s'.pc.Idle? && !s'.failure ==> ExactSince(restart, events + [e]) || Unchanged(s, e)
    ensures s.restart && !s'.restart ==> ExactSince(restart, events + [e])
  {
    RunPrefix(restart, events, e, 0);
    if e.Resumed? && !s.pc.Idle? {
      RootEarns(s, e, s');
      if Exact(s, e) || (Certified(s) && !BeginsRound(s, e)) {
        ExactBy(restart, events, e);
      }
    } else {
      OthersStay(s, e);
    }
  }

  // ---------------------------------------------------------------- when a round fails

  /** The pending callback is called and does not return True. */
  predicate CallRefused(s: State, key: int, i: Input) {
    key in s.requests && s.requests[key] != [] && !i.accepted
  }

  /** Everything pending is drained, and something is still unresolved. */
  predicate StillHeld(s: State, i: Input) {
    s.requests == map[] && (i.required || (s.restart && s.failed != map[]))
  }

  /** The answers that fail a round. */
  predicate RoundFails(s: State, i: Input) {
    match s.pc
    case Idle => false
    case Created => !i.connected
    case AtBackoff => !i.connected
    case AtWorking(_) => i.raised || !i.connected
    case AtReconcile(_) => i.raised || !i.good || i.required || StillHeld(s, i)
    case AtReport(_, key) => i.raised || !i.good || CallRefused(s, key, i)
    case AfterCallback(_, key) => i.raised || CallRefused(s, key, i)
    case AfterPop(_) => i.raised || StillHeld(s, i)
    case AtRecovery(_) => i.raised || !i.connected || i.required
  }

  /** A failure is recorded; the first round backs off with its requests, a second one or a
      disconnection ends the root and keeps them for an explicit retry. */
  predicate Failed(s: State, i: Input, s': State) {
    && s'.failure && s'.active
    && (if i.connected && s.rounds == 1 then s'.pc.AtBackoff? && s'.busy && s.requests.Keys <= s'.requests.Keys
        else s'.pc.Idle? && !s'.busy && s'.requests == map[] && s.requests.Keys + s.failed.Keys <= s'.failed.Keys)
  }

  predicate WentOn(s: State, s': State) {
    && !s'.pc.AtBackoff? && !s'.pc.Created?
    && (if s'.pc.Idle? then !s'.busy && (s'.failure ==> s.failure && s.failed != map[]) else s'.failure == s.failure)
  }

  lemma FailIs(s: State, n: nat, i: Input)
    requires s.active && s.busy && !s.pc.Idle? && s.rounds == n + 1 <= 2
    ensures Failed(s, i, Fail(s, n, i.connected))
  {
  }

  lemma {:induction false} QueriesKeepKeys(s: State, entries: seq<(int, int)>)
    requires !s.pc.Idle?
    ensures
      var s' := QueryAll(s, entries);
      && s.requests.Keys <= s'.requests.Keys && s.failed.Keys <= s'.failed.Keys
      && s'.failure == s.failure && s'.active == s.active && s'.pc == s.pc && s'.busy == s.busy && s'.rounds == s.rounds
    decreases |entries|
  {
    if entries != [] {
      QueryKeepsKeys(s, entries[0].0, entries[0].1);
      QueriesKeepKeys(Query(s, entries[0].0, entries[0].1), entries[1..]);
    }
  }

  lemma QueryKeepsKeys(s: State, key: int, id: int)
    requires !s.pc.Idle?
    ensures
      var s' := Query(s, key, id);
      && s.requests.Keys <= s'.requests.Keys && s.failed.Keys <= s'.failed.Keys
      && s'.failure == s.failure && s'.active == s.active && s'.pc == s.pc && s'.busy == s.busy && s'.rounds == s.rounds
  {
    if s.active && key in s.failed {
      AddedKeys(s, s.failed, key, id);
    } else if s.active {
      AddedKeys(s, s.requests, key, id);
      RunningLaunch(Requested(s, key, id));
    }
  }

  lemma RunningLaunch(s: State)
    requires !s.pc.Idle?
    ensures Launch(s, false) == s.(mass := true)
  {
  }

  lemma AddedKeys(s: State, m: Requests, key: int, id: int)
    ensures Added(s, m, key, id).Keys == m.Keys + {key}
  {
  }

  lemma CallNextFailsIff(s: State, n: nat, key: int, i: Input)
    requires s.active && s.busy && !s.pc.Idle? && s.rounds == n + 1 <= 2
    ensures
      var s' := CallNext(s, n, key, i);
      if CallRefused(s, key, i) then Failed(s, i, s') else WentOn(s, s')
  {
    var callbacks := Known(s.requests, key);
    if callbacks != [] {
      QueriesKeepKeys(s, i.reentrant);
      var returned := QueryAll(s, i.reentrant);
      FailIs(returned.(calls := returned.calls + [Call(callbacks[0].token, i.accepted)]), n, i);
    }
  }

  lemma WaitingFailsIff(s: State, i: Input)
    requires Control(s) && s.active && (s.pc.Created? || s.pc.AtBackoff? || s.pc.AtWorking? || s.pc.AtRecovery?)
    ensures var s' := Resume(s, i); if RoundFails(s, i) then Failed(s, i, s') else WentOn(s, s')
  {
  }

  lemma DrainFailsIff(s: State, n: nat, i: Input)
    requires s.active && s.busy && !s.pc.Idle? && !s.pc.AtBackoff? && !s.pc.Created? && s.rounds == n + 1 <= 2
    ensures var s' := DrainNext(s, n, i); if StillHeld(s, i) then Failed(s, i, s') else WentOn(s, s')
  {
    FailIs(s, n, i);
  }

  /** A living root's round fails exactly on the named answers.  A failed first round, while the clients
      are connected, backs off for a second one; any other failure ends the root and keeps every
      pending request for a retry.  Otherwise it goes on or ends well. */
  lemma RoundFailsIff(s: State, i: Input, s': State)
    requires Good(s) && s.active && !s.pc.Idle? && s' == Step(s, Resumed(i))
    ensures if RoundFails(s, i) then Failed(s, i, s') else WentOn(s, s')
  {
    match s.pc
    case AtReconcile(n) => BetweenFailsIff(s, n, i);
    case AfterPop(n) => BetweenFailsIff(s, n, i);
    case AtReport(n, key) => DrainingFailsIff(s, n, key, i);
    case AfterCallback(n, key) => DrainingFailsIff(s, n, key, i);
    case _ => WaitingFailsIff(s, i);
  }

  lemma BetweenFailsIff(s: State, n: nat, i: Input)
    requires Control(s) && s.active && (s.pc == AtReconcile(n) || s.pc == AfterPop(n))
    ensures var s' := Resume(s, i); if RoundFails(s, i) then Failed(s, i, s') else WentOn(s, s')
  {
    FailIs(s, n, i);
    DrainFailsIff(s, n, i);
  }

  lemma DrainingFailsIff(s: State, n: nat, key: int, i: Input)
    requires Control(s) && s.active && (s.pc == AtReport(n, key) || s.pc == AfterCallback(n, key))
    ensures var s' := Resume(s, i); if RoundFails(s, i) then Failed(s, i, s') else WentOn(s, s')
  {
    FailIs(s, n, i);
    CallNextFailsIff(s, n, key, i);
  }

  /** From its backoff a root with connected clients begins its second round. */
  lemma SecondRoundBegins(s: State, i: Input, s': State)
    requires Good(s) && s.active && s.pc.AtBackoff? && i.connected && s' == Step(s, Resumed(i))
    ensures s'.rounds == 2 && s'.pc == (if s.mass then AtReconcile(1) else AtWorking(1))
    ensures SameRegistrations(s, s') && s'.failure == s.failure && s'.busy
  {
  }

  /** An observation that found a change, or during which the whole reconciliation was asked for, is
      followed by the reconciliation; without either the root ends. */
  lemma ObservationLeadsOnIff(s: State, i: Input, s': State)
    requires Good(s) && s.active && s.pc.AtWorking? && !i.raised && i.connected && s' == Step(s, Resumed(i))
    ensures s'.pc == (if i.good || i.required || s.mass then AtReconcile(s.pc.n) else Idle)
    ensures s'.mass <==> i.good || i.required || s.mass
  {
  }

  // ---------------------------------------------------------------- what a registration starts

  predicate Listed(callbacks: seq<Callback>, id: int) {
    exists i :: 0 <= i < |callbacks| && callbacks[i].id == id
  }

  /** The callback joins its request once, under a number never used. */
  function Joined(m: Requests, key: int, id: int, next: nat): Requests {
    var callbacks := if key in m then m[key] else [];
    m[key := if Listed(callbacks, id) then callbacks else callbacks + [Callback(id, next)]]
  }

  function NextNumber(m: Requests, key: int, id: int, next: nat): nat {
    if key in m && Listed(m[key], id) then next else next + 1
  }

  /** A query of an active reconciler joins a failed request without trying it again; any other query
      becomes pending and starts a root for the whole reconciliation, or makes the running one do it. */
  lemma QueryLeaves(s: State, key: int, id: int)
    ensures
      Query(s, key, id) ==
        if !s.active then s
        else if key in s.failed then
          s.(failed := Joined(s.failed, key, id, s.next), next := NextNumber(s.failed, key, id, s.next))
        else if s.pc == Idle then
          s.(requests := Joined(s.requests, key, id, s.next), next := NextNumber(s.requests, key, id, s.next),
             busy := true, mass := true, pc := Created, rounds := 0)
        else
          s.(requests := Joined(s.requests, key, id, s.next), next := NextNumber(s.requests, key, id, s.next), mass := true)
  {
    forall callbacks ensures Knows(callbacks, id) <==> Listed(callbacks, id) {
    }
    JoinedIs(s, s.requests, key, id);
    JoinedIs(s, s.failed, key, id);
  }

  lemma JoinedIs(s: State, m: Requests, key: int, id: int)
    ensures Added(s, m, key, id) == Joined(m, key, id, s.next)
    ensures (if Knows(Known(m, key), id) then s.next else s.next + 1) == NextNumber(m, key, id, s.next)
  {
  }

  /** Starting by hand: a retry makes the failed requests pending again; a new root does the whole
      reconciliation unless only working orders are to be observed and no startup hold is left. */
  lemma EnsureLeaves(s: State, retry: bool, working: bool)
    ensures
      var requests := if retry then s.requests + s.failed else s.requests;
      var failed := if retry then map[] else s.failed;
      EnsureRoot(s, retry, working) ==
        if s.pc == Idle then
          s.(requests := requests, failed := failed, busy := true, mass := s.restart || !working, pc := Created, rounds := 0)
        else s.(requests := requests, failed := failed, mass := s.mass || !working)
  {
  }

  /** The first round begins with the reconciliation, or with an observation if that is all. */
  lemma FirstRoundBegins(s: State, i: Input, s': State)
    requires Good(s) && s.active && s.pc.Created? && i.connected && s' == Step(s, Resumed(i))
    ensures s'.rounds == 1 && s'.pc == (if s.mass then AtReconcile(0) else AtWorking(0)) && SameRegistrations(s, s')
  {
  }

  /** After an exact reconciliation the pending requests are reported one by one; with none left the
      startup recovery runs if it is due, and otherwise the root ends, with the failure of earlier
      requests still recorded. */
  lemma ExactLeadsOn(s: State, i: Input, s': State)
    requires Good(s) && s.active && Exact(s, Resumed(i)) && !StillHeld(s, i) && s' == Step(s, Resumed(i))
    ensures
      if s.requests != map[] then s' == if i.pick in s.requests then s.(pc := AtReport(s.pc.n, i.pick)) else s
      else if s.restart then s' == s.(pc := AtRecovery(s.pc.n))
      else s' == s.(pc := Idle, busy := false, failure := s.failure && s.failed != map[])
  {
    var n := s.pc.n;
    if s.requests == map[] && !s.restart {
      assert s' == Succeed(s);
    }
  }
}
