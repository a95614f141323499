/** The CID namespace and its fee evidence, kept in one file. */
module CidStore {
  import opened Rounding
  import opened Durability
  import opened FeeTrades

  const MAX_CID := 35_184_372_088_831 // 2^45 - 1
  const DAY_SECONDS := 86_400

  datatype Binding = Binding(client: int, cid: int, day: int)

  datatype Origin = TePaper | Tu | Rest | Inferred | UnknownOrigin
  datatype Liquidity = MakerSide | TakerSide | NoSide

  /** A native trade ID is a venue trade's number, or any other text. */
  datatype TradeId = Venue(id: int) | Other(text: int)

  datatype NativeFill = NativeFill(id: TradeId, origin: Origin, signed: int, price: int, ns: int,
                                   liquidity: Liquidity, commission: int, currency: int)

  datatype Scope = Scope(cid: int, venue: int, instrument: int, symbol: int)

  datatype Metadata = Metadata(scope: Scope, native: seq<NativeFill>, trades: seq<FeeTrade>)

  /** The file's contents: the bindings themselves, whatever dictionary they came from. */
  datatype File = File(lastCid: int, bindings: set<Binding>, conflict: bool, fees: map<int, Metadata>)

  datatype Cids = Cids(byClient: map<int, Binding>, byCid: map<int, Binding>, lastCid: int,
                       fees: map<int, Metadata>, conflict: bool, durable: bool, file: Option<File>)

  const FRESH := Cids(map[], map[], 0, map[], false, true, None)

  const EMPTY_TEXT := 0

  datatype Result = Result(store: Cids, raised: bool)

  // ---------------------------------------------------------------- operations

  function Listed(byClient: map<int, Binding>): set<Binding> {
    set c | c in byClient :: byClient[c]
  }

  function Payload(s: Cids): File {
    File(s.lastCid, Listed(s.byClient), s.conflict, s.fees)
  }

  /** A successful write makes everything durable; one that only raised afterwards does not say so. */
  function Persist(s: Cids, payload: File, w: WriteOutcome): Result {
    match w
    case Written => Result(s.(file := Some(payload), durable := true), false)
    case NotWritten => Result(s, true)
    case PublishedButRaised => Result(s.(file := Some(payload)), true)
  }

  function Remember(s: Cids, b: Binding): Cids {
    s.(byClient := s.byClient[b.client := b], byCid := s.byCid[b.cid := b], lastCid := b.cid)
  }

  function NextBinding(s: Cids, client: int, nowMs: int): Binding {
    Binding(client, Max(nowMs, s.lastCid + 1), nowMs / 1000 / DAY_SECONDS)
  }

  /** The binding is remembered exactly when the file may hold it. */
  function Allocate(s: Cids, client: int, nowMs: int, w: WriteOutcome): Result {
    if client == EMPTY_TEXT || client in s.byClient || nowMs < 0 then Result(s, true)
    else
      var b := NextBinding(s, client, nowMs);
      if b.cid > MAX_CID then Result(s, true)
      else
        var written := Persist(s, Payload(Remember(s, b)), w);
        if w.NotWritten? then written else Result(Remember(written.store, b), written.raised)
  }

  function MarkConflict(s: Cids, w: WriteOutcome): Result {
    if s.conflict && s.durable then Result(s, false)
    else
      var latched := s.(conflict := true, durable := false);
      Persist(latched, Payload(latched), w)
  }

  predicate ScopeAgrees(s: Cids, scope: Scope) {
    && scope.cid in s.byCid
    && (scope.cid in s.fees ==> s.fees[scope.cid].scope == scope)
    && (forall c :: c in s.fees && c != scope.cid ==> s.fees[c].scope.venue != scope.venue)
  }

  function CurrentRow(s: Cids, scope: Scope): Metadata {
    if scope.cid in s.fees then s.fees[scope.cid] else Metadata(scope, [], [])
  }

  /** Observed facts are kept even when the write fails, but are not called durable. */
  function SaveFees(s: Cids, m: Metadata, w: WriteOutcome): Result {
    if m.scope.cid in s.fees && s.fees[m.scope.cid] == m && s.durable then Result(s, false)
    else
      var kept := s.(fees := s.fees[m.scope.cid := m], durable := false);
      Persist(kept, Payload(kept), w)
  }

  function RecordVenueTrade(s: Cids, scope: Scope, t: FeeTrade, w: WriteOutcome): Result {
    if !ScopeAgrees(s, scope) then Result(s, true)
    else
      var current := CurrentRow(s, scope);
      var rows := Observe(current.trades, t);
      if rows == None then Result(s, true) else SaveFees(s, current.(trades := rows.value), w)
  }

  function NativeRow(rows: seq<NativeFill>, id: TradeId): Option<NativeFill> {
    if rows == [] then None
    else if rows[0].id == id then Some(rows[0])
    else NativeRow(rows[1..], id)
  }

  function RecordNativeFill(s: Cids, scope: Scope, f: NativeFill, w: WriteOutcome): Result {
    if !ScopeAgrees(s, scope) then Result(s, true)
    else
      var current := CurrentRow(s, scope);
      match NativeRow(current.native, f.id)
      case None => SaveFees(s, current.(native := current.native + [f]), w)
      case Some(previous) => if previous != f then Result(s, true) else SaveFees(s, current, w)
  }

  datatype Operation =
    | DoAllocate(client: int, nowMs: int)
    | DoConflict
    | DoTrade(scope: Scope, trade: FeeTrade)
    | DoFill(scope: Scope, fill: NativeFill)

  function Step(s: Cids, op: Operation, w: WriteOutcome): Result {
    match op
    case DoAllocate(client, nowMs) => Allocate(s, client, nowMs, w)
    case DoConflict => MarkConflict(s, w)
    case DoTrade(scope, t) => RecordVenueTrade(s, scope, t, w)
    case DoFill(scope, f) => RecordNativeFill(s, scope, f, w)
  }

  // ---------------------------------------------------------------- what holds at any time

  predicate ClientBound(s: Cids, c: int)
    requires c in s.byClient
  {
    var b := s.byClient[c];
    b.client == c && 1 <= b.cid <= s.lastCid && b.cid in s.byCid && s.byCid[b.cid] == b
  }

  predicate CidBound(s: Cids, n: int)
    requires n in s.byCid
  {
    var b := s.byCid[n];
    b.cid == n && b.client in s.byClient && s.byClient[b.client] == b
  }

  /** CIDs and client IDs name each other, and no CID lies beyond the last one. */
  ghost predicate Bijection(s: Cids) {
    && 0 <= s.lastCid <= MAX_CID
    && (forall c :: c in s.byClient ==> ClientBound(s, c))
    && (forall n :: n in s.byCid ==> CidBound(s, n))
    && (s.lastCid != 0 ==> s.lastCid in s.byCid)
  }

  ghost predicate FeesKept(s: Cids) {
    && (forall c :: c in s.fees ==> c in s.byCid && s.fees[c].scope.cid == c)
    && (forall c, d :: c in s.fees && d in s.fees && c != d ==> s.fees[c].scope.venue != s.fees[d].scope.venue)
  }

  /** Calling the fees durable means that the file holds exactly what memory holds. */
  predicate DurableIsTrue(s: Cids) {
    s.durable ==> if s.file == None then s == FRESH else s.file.value == Payload(s)
  }

  /** Whatever the file holds, its bindings are remembered. */
  predicate FileIsRemembered(s: Cids) {
    s.file.Some? ==> s.file.value.bindings <= Listed(s.byClient) && s.file.value.lastCid <= s.lastCid
  }

  ghost predicate Kept(s: Cids) {
    Bijection(s) && FeesKept(s) && DurableIsTrue(s) && FileIsRemembered(s)
  }

  lemma RememberValues(s: Cids, b: Binding)
    requires b.client !in s.byClient
    ensures Listed(Remember(s, b).byClient) == Listed(s.byClient) + {b}
  {
    var r := Remember(s, b);
    forall c | c in s.byClient ensures s.byClient[c] in Listed(r.byClient) {
      assert c in r.byClient && r.byClient[c] == s.byClient[c];
    }
    assert b.client in r.byClient && r.byClient[b.client] == b;
  }

  lemma CidsReached(s: Cids, n: int)
    requires Bijection(s) && n in s.byCid
    ensures 1 <= n <= s.lastCid
  {
    assert CidBound(s, n) && ClientBound(s, s.byCid[n].client);
  }

  lemma RememberKeeps(s: Cids, b: Binding)
    requires Bijection(s) && b.client !in s.byClient && s.lastCid < b.cid <= MAX_CID
    ensures Bijection(Remember(s, b))
  {
    var r := Remember(s, b);
    forall n | n in s.byCid ensures n < b.cid {
      CidsReached(s, n);
    }
    forall c | c in r.byClient ensures ClientBound(r, c) {
      if c != b.client {
        assert ClientBound(s, c);
      }
    }
    forall n | n in r.byCid ensures CidBound(r, n) {
      if n != b.cid {
        assert CidBound(s, n);
      }
    }
  }

  lemma AllocateKeeps(s: Cids, client: int, nowMs: int, w: WriteOutcome)
    requires Kept(s)
    ensures Kept(Allocate(s, client, nowMs, w).store)
  {
    var b := NextBinding(s, client, nowMs);
    if client !in s.byClient && b.cid <= MAX_CID {
      RememberKeeps(s, b);
      RememberValues(s, b);
    }
  }

  lemma FeesKeep(s: Cids, scope: Scope, m: Metadata, w: WriteOutcome)
    requires Kept(s) && ScopeAgrees(s, scope) && m.scope == scope
    ensures Kept(SaveFees(s, m, w).store)
  {
  }

  lemma StepKeeps(s: Cids, op: Operation, w: WriteOutcome)
    requires Kept(s)
    ensures Kept(Step(s, op, w).store)
  {
    match op
    case DoAllocate(client, nowMs) => AllocateKeeps(s, client, nowMs, w);
    case DoConflict =>
    case DoTrade(scope, t) =>
      if ScopeAgrees(s, scope) && Observe(CurrentRow(s, scope).trades, t).Some? {
        FeesKeep(s, scope, CurrentRow(s, scope).(trades := Observe(CurrentRow(s, scope).trades, t).value), w);
      }
    case DoFill(scope, f) =>
      if ScopeAgrees(s, scope) {
        FeesKeep(s, scope, CurrentRow(s, scope).(native := CurrentRow(s, scope).native + [f]), w);
        FeesKeep(s, scope, CurrentRow(s, scope), w);
      }
  }

  // ---------------------------------------------------------------- runs

  datatype Act = Act(op: Operation, w: WriteOutcome)

  /** A store's life: the bindings it handed out or published, in order, and every binding any
      version of the file ever held. */
  datatype Life = Life(store: Cids, issued: seq<Binding>, published: set<Binding>)

  function Issued(s: Cids, act: Act): seq<Binding> {
    if act.op.DoAllocate? && act.op.client !in s.byClient && act.op.client in Step(s, act.op, act.w).store.byClient
    then [Step(s, act.op, act.w).store.byClient[act.op.client]] else []
  }

  function Held(s: Cids): set<Binding> {
    if s.file.Some? then s.file.value.bindings else {}
  }

  function Run(acts: seq<Act>): Life {
    if acts == [] then Life(FRESH, [], {})
    else
      var before, act := Run(acts[..|acts| - 1]), acts[|acts| - 1];
      var after := Step(before.store, act.op, act.w).store;
      Life(after, before.issued + Issued(before.store, act), before.published + Held(after))
  }

  predicate StrictlyIncreasing(issued: seq<Binding>) {
    && (forall i, j :: 0 <= i < j < |issued| ==> issued[i].cid < issued[j].cid)
    && (forall i :: 0 <= i < |issued| ==> 1 <= issued[i].cid <= MAX_CID)
  }

  ghost predicate LifeKept(life: Life) {
    && Kept(life.store) && StrictlyIncreasing(life.issued)
    && (forall i :: 0 <= i < |life.issued| ==> life.issued[i].cid <= life.store.lastCid)
    && (forall b :: b in life.published ==> b in Listed(life.store.byClient))
    && (forall b :: b in Listed(life.store.byClient) <==> b in life.issued)
  }

  lemma AllocateBindings(s: Cids, client: int, nowMs: int, w: WriteOutcome)
    ensures
      var after, b := Allocate(s, client, nowMs, w).store, NextBinding(s, client, nowMs);
      || (after.byClient == s.byClient && after.lastCid == s.lastCid)
      || (after.byClient == s.byClient[client := b] && client !in s.byClient
          && s.lastCid < b.cid == after.lastCid <= MAX_CID)
  {
  }

  // A step either leaves the bindings alone or remembers one new, larger CID.
  lemma StepBindings(s: Cids, act: Act)
    requires Kept(s)
    ensures
      var after := Step(s, act.op, act.w).store;
      || (Issued(s, act) == [] && after.byClient == s.byClient && after.lastCid == s.lastCid)
      || (|Issued(s, act)| == 1 && s.lastCid < Issued(s, act)[0].cid == after.lastCid <= MAX_CID
          && Listed(after.byClient) == Listed(s.byClient) + {Issued(s, act)[0]})
  {
    if act.op.DoAllocate? {
      AllocateIssues(s, act.op.client, act.op.nowMs, act.w);
    } else {
      FeesLeaveBindings(s, act.op, act.w);
    }
  }

  lemma FeesLeaveBindings(s: Cids, op: Operation, w: WriteOutcome)
    requires !op.DoAllocate?
    ensures Step(s, op, w).store.byClient == s.byClient && Step(s, op, w).store.lastCid == s.lastCid
  {
  }

  lemma AllocateIssues(s: Cids, client: int, nowMs: int, w: WriteOutcome)
    ensures
      var after, issued := Allocate(s, client, nowMs, w).store, Issued(s, Act(DoAllocate(client, nowMs), w));
      || (issued == [] && after.byClient == s.byClient && after.lastCid == s.lastCid)
      || (|issued| == 1 && s.lastCid < issued[0].cid == after.lastCid <= MAX_CID
          && Listed(after.byClient) == Listed(s.byClient) + {issued[0]})
  {
    AllocateBindings(s, client, nowMs, w);
    if client !in s.byClient {
      RememberValues(s, NextBinding(s, client, nowMs));
    }
  }

  /** Over every run with failing writes, CIDs strictly increase and stay within 45 bits, they form
      a bijection with client IDs, and no CID that any file ever held, not even one whose write
      raised after publication, is handed out again. */
  lemma {:induction false} EveryRunKeepsCids(acts: seq<Act>)
    ensures LifeKept(Run(acts))
  {
    if acts != [] {
      var before, act := Run(acts[..|acts| - 1]), acts[|acts| - 1];
      EveryRunKeepsCids(acts[..|acts| - 1]);
      StepKeeps(before.store, act.op, act.w);
      StepBindings(before.store, act);
    }
  }

  /** What a caller gets from the bijection: two bindings share neither CID nor client ID. */
  lemma BindingsAreDistinct(acts: seq<Act>, a: Binding, b: Binding)
    requires a in Run(acts).published + Listed(Run(acts).store.byClient)
    requires b in Run(acts).published + Listed(Run(acts).store.byClient)
    ensures a.cid == b.cid || a.client == b.client ==> a == b
  {
    EveryRunKeepsCids(acts);
    var s := Run(acts).store;
    assert a in Listed(s.byClient) && b in Listed(s.byClient);
    BoundByClient(s, a);
    BoundByClient(s, b);
  }

  lemma BoundByClient(s: Cids, b: Binding)
    requires Bijection(s) && b in Listed(s.byClient)
    ensures b.client in s.byClient && s.byClient[b.client] == b && b.cid in s.byCid && s.byCid[b.cid] == b
  {
    assert exists c :: c in s.byClient && s.byClient[c] == b;
    var c :| c in s.byClient && s.byClient[c] == b;
    assert ClientBound(s, c);
  }

  // ---------------------------------------------------------------- evidence is never lost

  /** A conflict stays marked, and a final fee stays recorded, through every operation and every
      write outcome. */
  lemma EvidenceStays(s: Cids, op: Operation, w: WriteOutcome, c: int, id: int)
    ensures s.conflict ==> Step(s, op, w).store.conflict
    ensures c in s.fees ==> c in Step(s, op, w).store.fees
    ensures c in s.fees && RowOf(s.fees[c].trades, id).Some? && RowOf(s.fees[c].trades, id).value.final.Some? ==>
      RowOf(Step(s, op, w).store.fees[c].trades, id) == RowOf(s.fees[c].trades, id)
  {
    match op
    case DoTrade(scope, t) => TradeEvidenceStays(s, scope, t, w, c, id);
    case DoFill(scope, f) => FillEvidenceStays(s, scope, f, w, c);
    case _ =>
  }

  lemma SavingStays(s: Cids, m: Metadata, w: WriteOutcome, c: int)
    ensures var after := SaveFees(s, m, w).store;
      && after.conflict == s.conflict && (c in s.fees ==> c in after.fees)
      && (c in s.fees ==> after.fees[c] == if m.scope.cid == c then m else s.fees[c])
  {
  }

  lemma TradeEvidenceStays(s: Cids, scope: Scope, t: FeeTrade, w: WriteOutcome, c: int, id: int)
    ensures var after := RecordVenueTrade(s, scope, t, w).store;
      && (s.conflict ==> after.conflict) && (c in s.fees ==> c in after.fees)
      && (c in s.fees && RowOf(s.fees[c].trades, id).Some? && RowOf(s.fees[c].trades, id).value.final.Some? ==>
            RowOf(after.fees[c].trades, id) == RowOf(s.fees[c].trades, id))
  {
    var current := CurrentRow(s, scope);
    var rows := Observe(current.trades, t);
    if ScopeAgrees(s, scope) && rows.Some? {
      SavingStays(s, current.(trades := rows.value), w, c);
      if c in s.fees && scope.cid == c && RowOf(s.fees[c].trades, id).Some? && RowOf(s.fees[c].trades, id).value.final.Some? {
        FinalFeeStays(s.fees[c].trades, t, id);
      }
    }
  }

  lemma FillEvidenceStays(s: Cids, scope: Scope, f: NativeFill, w: WriteOutcome, c: int)
    ensures var after := RecordNativeFill(s, scope, f, w).store;
      && (s.conflict ==> after.conflict) && (c in s.fees ==> c in after.fees && after.fees[c].trades == s.fees[c].trades)
  {
    if ScopeAgrees(s, scope) {
      var current := CurrentRow(s, scope);
      SavingStays(s, current, w, c);
      SavingStays(s, current.(native := current.native + [f]), w, c);
    }
  }
}
