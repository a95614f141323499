/** The CID store as a mutable object, refining the specification operation by operation. */
module CidClient {
  import opened Rounding
  import opened Durability
  import opened FeeTrades
  import opened Spec = CidStore

  class CidFile {
    var byClient: map<int, Binding>
    var byCid: map<int, Binding>
    var lastCid: int
    var fees: map<int, Metadata>
    var conflict: bool
    var durable: bool
    var file: Option<File>

    constructor ()
      ensures State() == FRESH
    {
      byClient, byCid, lastCid := map[], map[], 0;
      fees, conflict, durable, file := map[], false, true, None;
    }

    function State(): Cids
      reads this
    {
      Cids(byClient, byCid, lastCid, fees, conflict, durable, file)
    }

    method Persist(payload: File, w: WriteOutcome) returns (raised: bool)
      modifies this`file, this`durable
      ensures Result(State(), raised) == Spec.Persist(old(State()), payload, w)
    {
      if w.NotWritten? {
        return true;
      }
      file := Some(payload);
      if w.PublishedButRaised? {
        return true;
      }
      durable := true;
      return false;
    }

    method Remember(b: Binding)
      modifies this`byClient, this`byCid, this`lastCid
      ensures State() == Spec.Remember(old(State()), b)
    {
      byClient := byClient[b.client := b];
      byCid := byCid[b.cid := b];
      lastCid := b.cid;
    }

    /** A new binding takes the clock, or the next free CID when the clock has not moved on. */
    method Allocate(client: int, nowMs: int, w: WriteOutcome) returns (raised: bool, binding: Option<Binding>)
      requires Kept(State())
      modifies this
      ensures Result(State(), raised) == Spec.Allocate(old(State()), client, nowMs, w) && Kept(State())
      ensures !raised ==> binding.Some? && binding.value.client == client
      ensures !raised ==> old(lastCid) < binding.value.cid <= MAX_CID && binding.value.cid !in old(byCid)
    {
      AllocateKeeps(State(), client, nowMs, w);
      if client == EMPTY_TEXT || client in byClient || nowMs < 0 {
        return true, None;
      }
      var cid := Max(nowMs, lastCid + 1);
      if cid > MAX_CID {
        return true, None;
      }
      var b := Binding(client, cid, nowMs / 1000 / DAY_SECONDS);
      RememberKeeps(State(), b);
      forall n | n in byCid ensures n < cid {
        CidsReached(State(), n);
      }
      raised := Persist(File(cid, Listed(byClient[client := b]), conflict, fees), w);
      if raised && !w.PublishedButRaised? {
        return true, None;
      }
      Remember(b);
      binding := if raised then None else Some(b);
    }

    method MarkAccountingConflict(w: WriteOutcome) returns (raised: bool)
      modifies this
      ensures Result(State(), raised) == MarkConflict(old(State()), w)
    {
      if conflict && durable {
        return false;
      }
      conflict := true;
      durable := false;
      raised := Persist(Payload(State()), w);
    }

    method SaveFees(m: Metadata, w: WriteOutcome) returns (raised: bool)
      modifies this
      ensures Result(State(), raised) == Spec.SaveFees(old(State()), m, w)
    {
      if m.scope.cid in fees && fees[m.scope.cid] == m && durable {
        return false;
      }
      fees := fees[m.scope.cid := m];
      durable := false;
      raised := Persist(Payload(State()), w);
    }

    method RecordVenueTrade(scope: Scope, t: FeeTrade, w: WriteOutcome) returns (raised: bool)
      modifies this
      ensures Result(State(), raised) == Spec.RecordVenueTrade(old(State()), scope, t, w)
    {
      if !ScopeAgrees(State(), scope) {
        return true;
      }
      var current := CurrentRow(State(), scope);
      var row := t;
      var previous := RowOf(current.trades, t.id);
      if previous.Some? {
        if !SameExecution(previous.value, t) {
          return true;
        }
        if previous.value.final.Some? && t.final.Some? && previous.value != t {
          return true;
        }
        if previous.value.final.Some? {
          row := previous.value;
        }
      }
      raised := SaveFees(current.(trades := PutRow(current.trades, row)), w);
    }

    method RecordNativeFill(scope: Scope, f: NativeFill, w: WriteOutcome) returns (raised: bool)
      modifies this
      ensures Result(State(), raised) == Spec.RecordNativeFill(old(State()), scope, f, w)
    {
      if !ScopeAgrees(State(), scope) {
        return true;
      }
      var current := CurrentRow(State(), scope);
      var previous := NativeRow(current.native, f.id);
      if previous.Some? && previous.value != f {
        return true;
      }
      var updated := if previous.Some? then current else current.(native := current.native + [f]);
      raised := SaveFees(updated, w);
    }
  }
}
