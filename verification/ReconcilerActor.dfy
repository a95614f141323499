/** The reconciler as a mutable actor: each method is the code between two await points. */
module ReconcilerActor {
  import opened Spec = TerminalReconciler

  class Actor {
    var active: bool
    var busy: bool
    var mass: bool
    var restart: bool
    var failure: bool
    var stopping: bool
    var pc: Pc
    var requests: Requests
    var failed: Requests
    var next: nat
    var rounds: nat
    var calls: seq<Call>

    constructor (restart: bool)
      ensures Current() == Initial(restart)
    {
      active, busy, mass, this.restart, failure, stopping := true, false, false, restart, false, false;
      pc, requests, failed, next, rounds, calls := Idle, map[], map[], 0, 0, [];
    }

    function Current(): State
      reads this
    {
      State(active, busy, mass, restart, failure, stopping, pc, requests, failed, next, rounds, calls)
    }

    // ---------------------------------------------------------------- callers

    method Launch(working: bool)
      modifies this`busy, this`mass, this`pc, this`rounds
      ensures Current() == Spec.Launch(old(Current()), working)
    {
      if pc.Idle? {
        // The gate closes before the task is scheduled.
        busy := true;
        mass := restart || !working;
        pc, rounds := Created, 0;
      } else if !working {
        mass := true;
      }
    }

    method EnsureRoot(retry: bool, working: bool)
      modifies this
      ensures Current() == Spec.EnsureRoot(old(Current()), retry, working)
    {
      if retry {
        requests := requests + failed;
        failed := map[];
      }
      Launch(working);
    }

    method AddRequest(key: int, id: int)
      modifies this`requests, this`next
      ensures Current() == Requested(old(Current()), key, id)
    {
      var known := Knows(Known(requests, key), id);
      requests := Added(Current(), requests, key, id);
      if !known {
        next := next + 1;
      }
    }

    method QuerySourceTerminal(key: int, id: int)
      modifies this
      ensures Current() == Query(old(Current()), key, id)
    {
      if !active {
        return;
      }
      if key in failed {
        var known := Knows(failed[key], id);
        failed := Added(Current(), failed, key, id);
        if !known {
          next := next + 1;
        }
        return;
      }
      AddRequest(key, id);
      Launch(false);
    }

    method OnStop()
      modifies this
      ensures Current() == Stop(old(Current()))
    {
      active := false;
      requests, failed := map[], map[];
      stopping := !pc.Idle?;
    }

    // ---------------------------------------------------------------- the root's endings

    method RetainPending()
      modifies this`requests, this`failed
      ensures Current() == Retain(old(Current()))
    {
      var pending := requests;
      requests := map[];
      if active {
        failed := failed + pending;
      }
    }

    method Hold()
      modifies this
      ensures Current() == Spec.Hold(old(Current()))
    {
      failure := true;
      RetainPending();
      pc, busy := Idle, false;
    }

    method Fail(n: nat, connected: bool)
      modifies this
      ensures Current() == Spec.Fail(old(Current()), n, connected)
    {
      if !connected || n > 0 {
        Hold();
      } else {
        failure := true;
        pc := AtBackoff;
      }
    }

    method Succeed()
      modifies this
      ensures Current() == Spec.Succeed(old(Current()))
    {
      if failed == map[] {
        failure := false;
      }
      pc, busy := Idle, false;
    }

    // ---------------------------------------------------------------- one round

    method BeginRound(n: nat, connected: bool)
      modifies this
      ensures Current() == Spec.BeginRound(old(Current()), n, connected)
    {
      if !active || !connected {
        Hold();
        return;
      }
      rounds := rounds + 1;
      pc := if mass then AtReconcile(n) else AtWorking(n);
    }

    method DrainNext(n: nat, i: Input)
      modifies this
      ensures Current() == Spec.DrainNext(old(Current()), n, i)
    {
      if requests != map[] {
        if i.pick in requests {
          pc := AtReport(n, i.pick);
        }
      } else if i.required {
        Fail(n, i.connected);
      } else if !restart {
        Succeed();
      } else if failed != map[] {
        Fail(n, i.connected);
      } else {
        pc := AtRecovery(n);
      }
    }

    /** The callback runs, registering whatever it registers, before its answer is looked at. */
    method RunCallback(entries: seq<(int, int)>)
      modifies this
      ensures Current() == QueryAll(old(Current()), entries)
    {
      ghost var goal := QueryAll(Current(), entries);
      for j := 0 to |entries|
        invariant QueryAll(Current(), entries[j..]) == goal
      {
        assert entries[j..][0] == entries[j] && entries[j..][1..] == entries[j + 1..];
        QuerySourceTerminal(entries[j].0, entries[j].1);
      }
    }

    method CallNext(n: nat, key: int, i: Input)
      modifies this
      ensures Current() == Spec.CallNext(old(Current()), n, key, i)
    {
      var callbacks := Known(requests, key);
      if callbacks == [] {
        requests := requests - {key};
        pc := AfterPop(n);
        return;
      }
      RunCallback(i.reentrant);
      calls := calls + [Call(callbacks[0].token, i.accepted)];
      if !i.accepted {
        Fail(n, i.connected);
        return;
      }
      requests := requests[key := Rest(Known(requests, key))];
      pc := AfterCallback(n, key);
    }

    method Resume(i: Input)
      modifies this
      ensures Current() == Spec.Resume(old(Current()), i)
    {
      if stopping {
        Hold();
        stopping := false;
        return;
      }
      match pc
      case Idle =>
      case Created => BeginRound(0, i.connected);
      case AtBackoff => BeginRound(1, i.connected);
      case AtWorking(n) => Observed(n, i);
      case AtReconcile(n) => Between(n, i);
      case AfterPop(n) => Between(n, i);
      case AtReport(n, key) => Draining(n, key, i);
      case AfterCallback(n, key) => Draining(n, key, i);
      case AtRecovery(n) => Recovered(n, i);
    }

    method Observed(n: nat, i: Input)
      requires pc == AtWorking(n) && !stopping
      modifies this
      ensures Current() == Spec.Resume(old(Current()), i)
    {
      if i.raised {
        Fail(n, i.connected);
      } else if !active {
        Hold();
      } else if !i.connected {
        Fail(n, false);
      } else if !mass && !i.good && !i.required {
        Succeed();
      } else {
        mass := true;
        pc := AtReconcile(n);
      }
    }

    method Between(n: nat, i: Input)
      requires (pc == AtReconcile(n) || pc == AfterPop(n)) && !stopping
      modifies this
      ensures Current() == Spec.Resume(old(Current()), i)
    {
      if i.raised || (pc.AtReconcile? && (!i.good || i.required)) {
        Fail(n, i.connected);
      } else {
        DrainNext(n, i);
      }
    }

    method Draining(n: nat, key: int, i: Input)
      requires (pc == AtReport(n, key) || pc == AfterCallback(n, key)) && !stopping
      modifies this
      ensures Current() == Spec.Resume(old(Current()), i)
    {
      if i.raised || (pc.AtReport? && !i.good) {
        Fail(n, i.connected);
      } else {
        CallNext(n, key, i);
      }
    }

    method Recovered(n: nat, i: Input)
      requires pc == AtRecovery(n) && !stopping
      modifies this
      ensures Current() == Spec.Resume(old(Current()), i)
    {
      if i.raised {
        Fail(n, i.connected);
      } else if !active {
        Hold();
      } else if !i.connected || i.required {
        Fail(n, i.connected);
      } else {
        restart := false;
        Succeed();
      }
    }
  }
}
