/** What every operation of the state owner keeps, whichever way its write ends. */
module MakerSafety {
  import opened Rounding
  import opened Records
  import opened AllocationLedger
  import opened Durability
  import opened MakerSpec
  import opened CycleEvidence
  import HedgeLane
  import HedgePlan

  // ---------------------------------------------------------------- one image, three places

  /** Memory, the committed image and the file agree. */
  predicate Agreed(cfg: Config, o: Owner) {
    && o.memory == o.committed
    && (if o.disk.Some? then o.disk.value == o.committed else o.committed == Empty(cfg))
  }

  ghost predicate Settled(cfg: Config, o: Owner) {
    Agreed(cfg, o) && MemoryValid(cfg, o.committed)
  }

  lemma EmptyIsValid(cfg: Config)
    ensures MemoryValid(cfg, Empty(cfg))
  {
    EmptyBooks(Empty(cfg).views);
    EmptyIdentities(Empty(cfg).views);
    assert BooksOf(Empty(cfg)) == Books(map[], {}, map[], []);
    NoBooks();
  }

  lemma NoBooks()
    ensures BooksValid(Books(map[], {}, map[], []))
  {
  }

  lemma EmptyIdentities(views: seq<ViewState>)
    requires forall i :: 0 <= i < |views| ==> views[i] == EMPTY_VIEW
    ensures IdentitiesValid(views)
  {
  }

  lemma {:induction false} EmptyBooks(views: seq<ViewState>)
    requires forall i :: 0 <= i < |views| ==> views[i] == EMPTY_VIEW
    ensures Orders(views) == map[] && Seen(views) == {} && Intents(views) == map[]
  {
    if views != [] {
      EmptyBooks(views[..|views| - 1]);
    }
  }

  lemma FinishAgrees(cfg: Config, o: Owner, op: Operation, a: Attempt, valid: bool, w: WriteOutcome)
    requires Agreed(cfg, o)
    ensures Agreed(cfg, Finish(o, op, a, valid, w).owner)
    ensures Finish(o, op, a, valid, w).owner.committed == o.committed
      || (valid && a.Change? && Finish(o, op, a, valid, w).owner.committed == Candidate(o, a.memory))
  {
  }

  /** After every operation and every write outcome, memory equals the committed image equals the
      file. */
  lemma StepSettles(cfg: Config, o: Owner, op: Operation, w: WriteOutcome)
    requires Settled(cfg, o) && Names(o.memory, op)
    ensures Settled(cfg, Step(cfg, o, op, w).owner)
  {
    var a := Try(cfg, o, op);
    FinishAgrees(cfg, o, op, a, Publishable(cfg, o, a), w);
  }

  // ---------------------------------------------------------------- reservations

  ghost predicate Present(before: Memory, after: Memory, v: nat, key: FillKey, fill: int) {
    && v < |before.views| == |after.views|
    && key in after.views[v].seen && key !in before.views[v].seen
    && (forall i :: 0 <= i < |after.views| ==> after.views[i].freeze.Some?)
    && |after.ledger| == |before.ledger| + 1 && after.ledger[..|before.ledger|] == before.ledger
    && var last := after.ledger[|before.ledger|];
      && last.key == key && Abs(last.signed) == fill
      && (last.owed != 0 ==> key in after.views[v].intents && after.views[v].intents[key].quantity == Abs(last.owed))
      && (last.owed == 0 ==> after.views[v].intents == before.views[v].intents)
  }

  lemma ReservedIsPresent(o: Owner, v: nat, key: FillKey, side: HedgePlan.Side, fill: int)
    requires v < |o.memory.views| && ReserveSourceFill(o, v, key, side, fill).Change?
    ensures Present(o.memory, Candidate(o, ReserveSourceFill(o, v, key, side, fill).memory), v, key, fill)
  {
  }

  /** A reservation is all there or not at all: the fill, its allocation, its obligation exactly
      when whole ounces accrue, and a freeze on every view. */
  lemma ReservationIsAtomic(cfg: Config, o: Owner, v: nat, key: FillKey, side: HedgePlan.Side, fill: int,
                            w: WriteOutcome, r: Result)
    requires Agreed(cfg, o) && v < |o.memory.views| && r == Step(cfg, o, DoReserve(v, key, side, fill), w)
    ensures r.owner.memory == o.memory || Present(o.memory, r.owner.memory, v, key, fill)
    ensures r.owner.memory != o.memory ==> r.raised == w.PublishedButRaised?
  {
    var a := ReserveSourceFill(o, v, key, side, fill);
    FinishIsAtomic(cfg, o, DoReserve(v, key, side, fill), a, Publishable(cfg, o, a), w, r);
    if a.Change? {
      ReservedIsPresent(o, v, key, side, fill);
    }
  }

  // A change is published whole or taken back whole.
  lemma FinishIsAtomic(cfg: Config, o: Owner, op: Operation, a: Attempt, valid: bool, w: WriteOutcome, r: Result)
    requires Agreed(cfg, o) && r == Finish(o, op, a, valid, w) && !op.DoFreeze?
    ensures r.owner.memory == o.memory || (a.Change? && r.owner.memory == Candidate(o, a.memory))
    ensures r.owner.memory != o.memory ==> r.raised == w.PublishedButRaised?
  {
  }

  // ---------------------------------------------------------------- freezes

  /** An external hold: the cycle's own permission is off, and stays explained. */
  ghost predicate Held(o: Owner) {
    !CycleFreezeOnly(o) && (o.failed || SomeFrozen(o.memory.views))
  }

  predicate SomeFrozen(views: seq<ViewState>) {
    exists i :: 0 <= i < |views| && views[i].freeze.Some?
  }

  /** The one step that releases a hold: a clear that succeeds. */
  ghost predicate Releases(cfg: Config, o: Owner, op: Operation, w: WriteOutcome) {
    op.DoClear? && Clearable(cfg, o) && w.Written?
  }

  lemma FreezeHolds(o: Owner, reason: Reason, which: Option<nat>, valid: bool, w: WriteOutcome)
    requires o.memory == o.committed && reason != Named(EMPTY) && Names(o.memory, DoFreeze(reason, which))
    ensures Held(Finish(o, DoFreeze(reason, which), Freeze(o, reason, which), valid, w).owner)
  {
    var i := if which == None then 0 else which.value;
    var m := o.memory.(views := SetFreezes(o.memory.views, reason, which), cycle := false);
    assert m.views[i].freeze.Some?;
    if m == o.memory {
      assert o.memory.views[i].freeze.Some?;
    }
  }

  /** An external freeze takes the permission away, whichever way its write ends. */
  lemma FreezeTakesPermission(cfg: Config, o: Owner, reason: Reason, which: Option<nat>, w: WriteOutcome)
    requires Agreed(cfg, o) && reason != Named(EMPTY) && Names(o.memory, DoFreeze(reason, which))
    ensures Held(Step(cfg, o, DoFreeze(reason, which), w).owner)
  {
    FreezeHolds(o, reason, which, Publishable(cfg, o, Freeze(o, reason, which)), w);
  }

  // No change but a clear touches a freeze that is set, and none turns the permission on under one.
  lemma ChangeKeepsFreeze(cfg: Config, o: Owner, op: Operation, i: nat)
    requires Names(o.memory, op) && i < |o.memory.views| && o.memory.views[i].freeze.Some?
    requires Try(cfg, o, op).Change? && !op.DoClear?
    ensures
      var m := Try(cfg, o, op).memory;
      && |m.views| == |o.memory.views| && m.views[i].freeze == o.memory.views[i].freeze
      && (m.cycle ==> o.memory.cycle)
  {
  }

  lemma ClearKeepsNothing(cfg: Config, o: Owner)
    requires Clear(cfg, o).Change?
    ensures !o.failed && !Clear(cfg, o).memory.cycle && |Clear(cfg, o).memory.views| == |o.memory.views|
  {
  }

  /** Only a clear that publishes removes or changes a freeze, and it needs a clean record. */
  lemma FreezesStay(cfg: Config, o: Owner, op: Operation, w: WriteOutcome, i: nat, after: Owner)
    requires Agreed(cfg, o) && Names(o.memory, op) && i < |o.memory.views| && o.memory.views[i].freeze.Some?
    requires after == Step(cfg, o, op, w).owner
    ensures |after.memory.views| == |o.memory.views|
    ensures after.memory.views[i].freeze == o.memory.views[i].freeze
      || (op.DoClear? && Clearable(cfg, o) && !w.NotWritten?)
  {
    var a := Try(cfg, o, op);
    MayClearIff(cfg, o);
    if a.Change? {
      FinishAgrees(cfg, o, op, a, Publishable(cfg, o, a), w);
      if op.DoClear? {
        ClearKeepsNothing(cfg, o);
      } else {
        ChangeKeepsFreeze(cfg, o, op, i);
      }
    }
  }

  lemma FinishHolds(o: Owner, op: Operation, a: Attempt, valid: bool, w: WriteOutcome, i: nat)
    requires o.memory == o.committed && !CycleFreezeOnly(o) && i < |o.memory.views| && o.memory.views[i].freeze.Some?
    requires a.Change? ==> |a.memory.views| == |o.memory.views| && a.memory.views[i].freeze.Some? && (a.memory.cycle ==> o.memory.cycle)
    ensures Held(Finish(o, op, a, valid, w).owner)
  {
  }

  /** A hold outlives every operation but a successful clear. */
  lemma HoldSurvives(cfg: Config, o: Owner, op: Operation, w: WriteOutcome)
    requires Agreed(cfg, o) && Names(o.memory, op) && Held(o) && !Releases(cfg, o, op, w)
    ensures Held(Step(cfg, o, op, w).owner)
  {
    var a := Try(cfg, o, op);
    var valid := Publishable(cfg, o, a);
    MayClearIff(cfg, o);
    if !o.failed {
      var i :| 0 <= i < |o.memory.views| && o.memory.views[i].freeze.Some?;
      if op.DoClear? && a.Change? {
        ClearKeepsNothing(cfg, o);
        ClearingHolds(o, a, valid, w, i);
      } else {
        if a.Change? {
          ChangeKeepsFreeze(cfg, o, op, i);
        }
        FinishHolds(o, op, a, valid, w, i);
      }
    } else {
      FailureStays(o, op, a, valid, w);
    }
  }

  lemma ClearingHolds(o: Owner, a: Attempt, valid: bool, w: WriteOutcome, i: nat)
    requires o.memory == o.committed && !CycleFreezeOnly(o) && i < |o.memory.views| && o.memory.views[i].freeze.Some?
    requires a.Change? && !a.memory.cycle && !w.Written?
    ensures Held(Finish(o, DoClear, a, valid, w).owner)
  {
  }

  lemma FailureStays(o: Owner, op: Operation, a: Attempt, valid: bool, w: WriteOutcome)
    requires o.failed
    ensures var after := Finish(o, op, a, valid, w).owner;
      after.failed && (after.disk != o.disk ==> after.disk.Some? && !after.disk.value.cycle)
  {
  }

  /** After a failed publication the permission stays off for good, nothing publishes it again,
      and no freeze is cleared. */
  lemma FailureIsFinal(cfg: Config, o: Owner, op: Operation, w: WriteOutcome, after: Owner, i: nat)
    requires Agreed(cfg, o) && Names(o.memory, op) && o.failed && after == Step(cfg, o, op, w).owner
    ensures after.failed && !CycleFreezeOnly(after)
    ensures after.disk != o.disk ==> after.disk.Some? && !after.disk.value.cycle
    ensures i < |o.memory.views| && o.memory.views[i].freeze.Some? ==>
      i < |after.memory.views| && after.memory.views[i].freeze == o.memory.views[i].freeze
  {
    var a := Try(cfg, o, op);
    FailureStays(o, op, a, Publishable(cfg, o, a), w);
    if i < |o.memory.views| && o.memory.views[i].freeze.Some? {
      FreezesStay(cfg, o, op, w, i, after);
    }
  }

  /** Every publication that raises, and every freeze whose write fails, ends the permission. */
  lemma FailedPublicationRevokes(cfg: Config, o: Owner, op: Operation, w: WriteOutcome, r: Result)
    requires Agreed(cfg, o) && Names(o.memory, op) && r == Step(cfg, o, op, w) && r.raised
    requires r.owner.memory != o.memory || (op.DoFreeze? && op.reason != Named(EMPTY))
    ensures r.owner.failed
  {
    var a := Try(cfg, o, op);
    RevokedByFinish(cfg, o, op, a, Publishable(cfg, o, a), w);
  }

  lemma RevokedByFinish(cfg: Config, o: Owner, op: Operation, a: Attempt, valid: bool, w: WriteOutcome)
    requires Agreed(cfg, o)
    requires op.DoFreeze? && op.reason != Named(EMPTY) ==> a.Change? || !a.raised
    ensures var r := Finish(o, op, a, valid, w);
      r.raised && (r.owner.memory != o.memory || (op.DoFreeze? && op.reason != Named(EMPTY))) ==> r.owner.failed
  {
  }

  // ---------------------------------------------------------------- where the permission comes from

  // The permission is on only over one common freeze.
  ghost predicate Provenance(m: Memory) {
    m.cycle ==> CommonFreeze(m.views)
  }

  lemma ReserveProvenance(o: Owner, v: nat, key: FillKey, side: HedgePlan.Side, fill: int, m: Memory)
    requires Provenance(o.memory) && v < |o.memory.views| && ReserveSourceFill(o, v, key, side, fill) == Change(m)
    ensures Provenance(m)
  {
    if m.cycle {
      var frozen := SetFreezes(o.memory.views, FillReason(key.cid, key.trade), None);
      FrozenInCommon(o.memory.views, FillReason(key.cid, key.trade));
      SameFreezes(frozen, m.views);
    }
  }

  lemma SameFreezes(views: seq<ViewState>, views': seq<ViewState>)
    requires |views| == |views'| && forall i :: 0 <= i < |views| ==> views'[i].freeze == views[i].freeze
    ensures CommonFreeze(views) ==> CommonFreeze(views')
  {
  }

  lemma FrozenInCommon(views: seq<ViewState>, reason: Reason)
    requires CommonFreeze(views) || forall i :: 0 <= i < |views| ==> views[i].freeze == None
    ensures CommonFreeze(SetFreezes(views, reason, None))
  {
  }

  lemma BeginProvenance(cfg: Config, o: Owner, v: nat, order: SourceOrder, hold: Option<Reason>, m: Memory)
    requires Provenance(o.memory) && v < |o.memory.views| && BeginSource(cfg, o, v, order, hold) == Change(m)
    ensures Provenance(m)
  {
    assert o.memory.views[v].freeze == None;
  }

  lemma ViewProvenance(o: Owner, v: nat, view: ViewState, m: Memory)
    requires Provenance(o.memory) && v < |o.memory.views| && m == WithView(o.memory, v, view)
    requires view.freeze == o.memory.views[v].freeze
    ensures Provenance(m)
  {
  }

  /** No operation proposes an image that the provenance check refuses: the permission comes up only
      when one reason is put on every view, and no operation splits a common freeze under it. */
  lemma ProvenanceIsNeverRefused(cfg: Config, o: Owner, op: Operation, m: Memory)
    requires Settled(cfg, o) && Names(o.memory, op) && Try(cfg, o, op) == Change(m)
    ensures Provenance(Candidate(o, m))
  {
    match op
    case DoFreeze(_, _) =>
    case DoClear =>
    case DoBegin(v, order, hold) => BeginProvenance(cfg, o, v, order, hold, m);
    case DoStatus(v, cid, status) => ViewProvenance(o, v, StatusUpdated(o.memory.views[v], cid, status), m);
    case DoConfirm(v, cid) => ViewProvenance(o, v, Confirmed(o.memory.views[v], cid), m);
    case DoDoubt(v, cid, doubt) => ViewProvenance(o, v, Doubted(o.memory.views[v], cid, doubt), m);
    case DoReserve(v, key, side, fill) => ReserveProvenance(o, v, key, side, fill, m);
    case DoHedge(v, key, change) => HedgeProvenance(o, v, key, change, m);
  }

  lemma HedgeProvenance(o: Owner, v: nat, key: FillKey, change: HedgeChange, m: Memory)
    requires Provenance(o.memory) && v < |o.memory.views| && ChangeHedge(o, v, key, change) == Change(m)
    ensures Provenance(m)
  {
    var view := o.memory.views[v];
    var i := IntentChanged(view, view.intents[key], change).value;
    ViewProvenance(o, v, HedgeChanged(view, key, i, change), m);
  }

  // ---------------------------------------------------------------- runs

  datatype Act = Act(op: Operation, w: WriteOutcome)

  ghost function Run(cfg: Config, o: Owner, acts: seq<Act>): Owner
    decreases |acts|
  {
    if acts == [] then o
    else
      var before := Run(cfg, o, acts[..|acts| - 1]);
      var last := acts[|acts| - 1];
      if Names(before.memory, last.op) then Step(cfg, before, last.op, last.w).owner else before
  }

  /** From a fresh file, after any run of operations with any write outcomes, memory equals the
      committed image equals the file, and it passes every check. */
  lemma {:induction false} EveryRunSettles(cfg: Config, acts: seq<Act>)
    ensures Settled(cfg, Run(cfg, Start(cfg), acts))
    decreases |acts|
  {
    if acts == [] {
      EmptyIsValid(cfg);
    } else {
      EveryRunSettles(cfg, acts[..|acts| - 1]);
      var before, last := Run(cfg, Start(cfg), acts[..|acts| - 1]), acts[|acts| - 1];
      if Names(before.memory, last.op) {
        StepSettles(cfg, before, last.op, last.w);
      }
    }
  }

  /** Whenever in a run the permission is on, all views carry one common freeze reason. */
  lemma PermissionIsCommon(cfg: Config, acts: seq<Act>)
    ensures
      var o := Run(cfg, Start(cfg), acts);
      CycleFreezeOnly(o) ==> |o.memory.views| == ViewCount(cfg) && CommonFreeze(o.memory.views)
  {
    EveryRunSettles(cfg, acts);
  }

  /** Once an external freeze is requested the permission stays off, over any later run, until a
      clear succeeds. */
  lemma {:induction false} HoldSurvivesRun(cfg: Config, o: Owner, acts: seq<Act>)
    requires Agreed(cfg, o) && Held(o)
    requires forall n :: 0 <= n < |acts| ==>
      !Releases(cfg, Run(cfg, o, acts[..n]), acts[n].op, acts[n].w)
    ensures Agreed(cfg, Run(cfg, o, acts)) && Held(Run(cfg, o, acts))
    ensures !CycleFreezeOnly(Run(cfg, o, acts))
    decreases |acts|
  {
    if acts != [] {
      var front, last := acts[..|acts| - 1], acts[|acts| - 1];
      assert forall n :: 0 <= n <= |front| ==> front[..n] == acts[..n];
      HoldSurvivesRun(cfg, o, front);
      var before := Run(cfg, o, front);
      if Names(before.memory, last.op) {
        HoldSurvives(cfg, before, last.op, last.w);
        var a := Try(cfg, before, last.op);
        FinishAgrees(cfg, before, last.op, a, Publishable(cfg, before, a), last.w);
      }
    }
  }

  /** A permission revoked by a failed publication never comes back. */
  lemma {:induction false} RevokedForLife(cfg: Config, o: Owner, acts: seq<Act>)
    requires Agreed(cfg, o) && o.failed
    ensures Run(cfg, o, acts).failed && !CycleFreezeOnly(Run(cfg, o, acts))
    decreases |acts|
  {
    if acts != [] {
      var front, last := acts[..|acts| - 1], acts[|acts| - 1];
      RevokedForLife(cfg, o, front);
      var before := Run(cfg, o, front);
      if Names(before.memory, last.op) {
        var a := Try(cfg, before, last.op);
        FailureStays(before, last.op, a, Publishable(cfg, before, a), last.w);
      }
    }
  }
}
