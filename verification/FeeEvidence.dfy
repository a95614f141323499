/** What the CID store takes, refuses and leaves, told on the binding, the scope and the fill. */
module FeeEvidence {
  import opened Rounding
  import opened Durability
  import opened FeeTrades
  import opened CidStore

  // ---------------------------------------------------------------- venue trades

  /** Two observations that cannot both be of one trade. */
  predicate Conflict(a: FeeTrade, b: FeeTrade) {
    && a.id == b.id
    && (a.ms != b.ms || a.quantity != b.quantity || a.price != b.price || a.ioc != b.ioc || a.orderPrice != b.orderPrice
        || a.maker != b.maker || (a.final.Some? && b.final.Some? && a.final != b.final))
  }

  /** Observations are accepted exactly when no two of them conflict. */
  lemma ObservedIff(seen: seq<FeeTrade>)
    ensures ObserveAll([], seen).Some? <==> forall i, j :: 0 <= i < |seen| && 0 <= j < |seen| ==> !Conflict(seen[i], seen[j])
  {
    ObserveAllIff(seen);
    forall a: FeeTrade, b: FeeTrade ensures Compatible(a, b) <==> !Conflict(a, b) {
    }
    if Consistent(seen) {
      forall i, j | 0 <= i < |seen| && 0 <= j < |seen| ensures !Conflict(seen[i], seen[j]) {
        assert Compatible(seen[i], seen[j]);
      }
    }
  }

  /** One observation is refused exactly when it conflicts with the record of its trade; it replaces that
      record unless it lacks the fee the record has, and touches no other. */
  lemma ObservationLeaves(rows: seq<FeeTrade>, t: FeeTrade, id: int)
    ensures Observe(rows, t) == None <==> RowOf(rows, t.id).Some? && Conflict(RowOf(rows, t.id).value, t)
    ensures Observe(rows, t).Some? ==>
      RowOf(Observe(rows, t).value, id) ==
        if id != t.id then RowOf(rows, id)
        else if RowOf(rows, id).Some? && RowOf(rows, id).value.final.Some? then RowOf(rows, id)
        else Some(t)
  {
    RowIsItsId(rows, t.id);
    PutRowMeans(rows, t, id);
    if RowOf(rows, t.id).Some? && Merge(RowOf(rows, t.id).value, t).Some? {
      PutRowMeans(rows, Merge(RowOf(rows, t.id).value, t).value, id);
    }
  }

  lemma {:induction false} RowIsItsId(rows: seq<FeeTrade>, id: int)
    ensures RowOf(rows, id).Some? ==> RowOf(rows, id).value.id == id
  {
    if rows != [] && rows[0].id != id {
      RowIsItsId(rows[1..], id);
    }
  }

  // ---------------------------------------------------------------- allocating a CID

  /** A client that is named, not yet bound, at a valid time, gets the larger of the clock and the next
      number, while that fits 45 bits.  The binding is remembered unless the file surely lacks it. */
  lemma AllocationLeaves(s: Cids, client: int, nowMs: int, w: WriteOutcome)
    ensures
      var cid := if nowMs > s.lastCid then nowMs else s.lastCid + 1;
      var b := Binding(client, cid, nowMs / 86_400_000);
      var r := Allocate(s, client, nowMs, w);
      if client == 0 || client in s.byClient || nowMs < 0 || cid >= 0x2000_0000_0000 then r == Result(s, true)
      else if w == NotWritten then r == Result(s, true)
      else
        && r.raised == (w == PublishedButRaised)
        && r.store.byClient == s.byClient[client := b] && r.store.byCid == s.byCid[cid := b] && r.store.lastCid == cid
        && r.store.fees == s.fees && r.store.conflict == s.conflict && r.store.durable == (s.durable || w == Written)
        && r.store.file == Some(File(cid, Listed(s.byClient) + {b}, s.conflict, s.fees))
  {
    if client !in s.byClient && nowMs >= 0 {
      RememberValues(s, NextBinding(s, client, nowMs));
    }
  }

  // ---------------------------------------------------------------- the fee evidence

  /** How a change of the evidence ends: memory has it whatever the write does, and only a full write
      calls it durable. */
  predicate Saved(s: Cids, r: Result, fees: map<int, Metadata>, conflict: bool, w: WriteOutcome) {
    && r.store.byClient == s.byClient && r.store.byCid == s.byCid && r.store.lastCid == s.lastCid
    && r.store.fees == fees && r.store.conflict == conflict && (r.raised <==> w != Written) && (r.store.durable <==> w == Written)
    && r.store.file == if w == NotWritten then s.file else Some(File(s.lastCid, Listed(s.byClient), conflict, fees))
  }

  /** A conflict is latched in memory first; a latch that is durable already is not written again. */
  lemma ConflictLeaves(s: Cids, w: WriteOutcome)
    ensures if s.conflict && s.durable then MarkConflict(s, w) == Result(s, false)
            else Saved(s, MarkConflict(s, w), s.fees, true, w)
  {
  }

  /** The order is bound, its scope is as recorded, and no other order has its venue ID. */
  predicate ScopeFits(s: Cids, scope: Scope) {
    && scope.cid in s.byCid && (scope.cid in s.fees ==> s.fees[scope.cid].scope == scope)
    && forall c :: c in s.fees && s.fees[c].scope.venue == scope.venue ==> c == scope.cid
  }

  function Row(s: Cids, scope: Scope): Metadata {
    if scope.cid in s.fees then s.fees[scope.cid] else Metadata(scope, [], [])
  }

  /** The row is saved, unless it is what is recorded durably already. */
  predicate RowSaved(s: Cids, scope: Scope, row: Metadata, r: Result, w: WriteOutcome) {
    if s.durable && scope.cid in s.fees && s.fees[scope.cid] == row then r == Result(s, false)
    else Saved(s, r, s.fees[scope.cid := row], s.conflict, w)
  }

  lemma VenueTradeLeaves(s: Cids, scope: Scope, t: FeeTrade, w: WriteOutcome)
    ensures
      var row, r := Row(s, scope), RecordVenueTrade(s, scope, t, w);
      if !ScopeFits(s, scope) || (RowOf(row.trades, t.id).Some? && Conflict(RowOf(row.trades, t.id).value, t))
      then r == Result(s, true)
      else Observe(row.trades, t).Some? && RowSaved(s, scope, row.(trades := Observe(row.trades, t).value), r, w)
  {
    ObservationLeaves(Row(s, scope).trades, t, t.id);
    ScopeIff(s, scope);
  }

  lemma ScopeIff(s: Cids, scope: Scope)
    ensures ScopeAgrees(s, scope) <==> ScopeFits(s, scope)
    ensures ScopeFits(s, scope) ==> CurrentRow(s, scope) == Row(s, scope) && Row(s, scope).scope == scope
  {
  }

  predicate FirstNative(rows: seq<NativeFill>, id: TradeId, k: nat) {
    k < |rows| && rows[k].id == id && forall j :: 0 <= j < k ==> rows[j].id != id
  }

  lemma {:induction false} NativeIsFirst(rows: seq<NativeFill>, id: TradeId) returns (k: nat)
    ensures NativeRow(rows, id).Some? ==> FirstNative(rows, id, k) && NativeRow(rows, id) == Some(rows[k])
    ensures NativeRow(rows, id) == None ==> forall j :: 0 <= j < |rows| ==> rows[j].id != id
  {
    k := 0;
    if rows != [] && rows[0].id != id {
      var m := NativeIsFirst(rows[1..], id);
      k := m + 1;
      assert forall j :: 0 < j < |rows| ==> rows[j] == rows[1..][j - 1];
    }
  }

  /** What is recorded under the ID already is repeated or contradicted. */
  predicate FillAgain(s: Cids, scope: Scope, row: Metadata, k: nat, f: NativeFill, r: Result, w: WriteOutcome)
    requires k < |row.native|
  {
    if row.native[k] == f then RowSaved(s, scope, row, r, w) else r == Result(s, true)
  }

  /** A native fill is added once under its trade ID; the same again changes no row, another under that
      ID is refused. */
  lemma NativeFillLeaves(s: Cids, scope: Scope, f: NativeFill, w: WriteOutcome)
    ensures
      var row, r := Row(s, scope), RecordNativeFill(s, scope, f, w);
      if !ScopeFits(s, scope) then r == Result(s, true)
      else if forall j :: 0 <= j < |row.native| ==> row.native[j].id != f.id then
        RowSaved(s, scope, row.(native := row.native + [f]), r, w)
      else exists k: nat :: FirstNative(row.native, f.id, k) && FillAgain(s, scope, row, k, f, r, w)
  {
    ScopeIff(s, scope);
    var k := NativeIsFirst(Row(s, scope).native, f.id);
  }
}
