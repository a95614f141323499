/** Whether an order's native fills account for its venue trades.  `commissionOf` is the quantized
    commission the venue's fee is booked at. */
module FeeCoverage {
  import opened Rounding
  import opened FeeTrades
  import opened CidStore

  const USD := 1

  datatype Coverage = Coverage(native: seq<NativeFill>, trades: seq<FeeTrade>, paper: bool)

  predicate FillMatchesTrade(n: NativeFill, t: FeeTrade) {
    && n.id == Venue(t.id) && n.signed == t.quantity && n.price == t.price
    && n.ns == t.ms * 1_000_000
    && n.liquidity == (if t.maker then MakerSide else TakerSide)
  }

  /** A fill booked from an interim execution carries no commission, and exists only on paper. */
  predicate OriginAllowed(n: NativeFill, paper: bool) {
    n.origin.TePaper? ==> paper && n.commission == 0 && n.currency == USD
  }

  predicate CommissionAgrees(n: NativeFill, t: FeeTrade, commissionOf: int -> int) {
    t.final.Some? && !n.origin.TePaper? ==>
      n.currency == t.final.value.currency && n.commission == commissionOf(t.final.value.amount)
  }

  /** The trade that a real native fill names is there, agrees with it and with its commission. */
  predicate Claims(n: NativeFill, rows: seq<FeeTrade>, commissionOf: int -> int) {
    && n.id.Venue? && RowOf(rows, n.id.id).Some?
    && FillMatchesTrade(n, RowOf(rows, n.id.id).value)
    && CommissionAgrees(n, RowOf(rows, n.id.id).value, commissionOf)
  }

  function Remove(rows: seq<FeeTrade>, id: int): seq<FeeTrade> {
    if rows == [] then []
    else if rows[0].id == id then rows[1..]
    else [rows[0]] + Remove(rows[1..], id)
  }

  /** The dictionary of the venue trades by ID. */
  function Rows(trades: seq<FeeTrade>): seq<FeeTrade> {
    if trades == [] then [] else PutRow(Rows(trades[..|trades| - 1]), trades[|trades| - 1])
  }

  /** What the real fills leave over: unclaimed trades and inferred fills. */
  datatype Left = Left(rows: seq<FeeTrade>, inferred: seq<NativeFill>)

  function Sift(native: seq<NativeFill>, trades: seq<FeeTrade>, paper: bool, commissionOf: int -> int): Option<Left> {
    if native == [] then Some(Left(Rows(trades), []))
    else
      var before, n := Sift(native[..|native| - 1], trades, paper, commissionOf), native[|native| - 1];
      if before == None || !OriginAllowed(n, paper) then None
      else if n.origin.Inferred? then Some(before.value.(inferred := before.value.inferred + [n]))
      else if !Claims(n, before.value.rows, commissionOf) then None
      else Some(before.value.(rows := Remove(before.value.rows, n.id.id)))
  }

  function Quantity(trades: seq<FeeTrade>): int {
    if trades == [] then 0 else trades[0].quantity + Quantity(trades[1..])
  }

  function Cost(trades: seq<FeeTrade>): int {
    if trades == [] then 0 else trades[0].quantity * trades[0].price + Cost(trades[1..])
  }

  function NativeQuantity(native: seq<NativeFill>): int {
    if native == [] then 0 else NativeQuantity(native[..|native| - 1]) + native[|native| - 1].signed
  }

  function NativeCost(native: seq<NativeFill>): int {
    if native == [] then 0
    else NativeCost(native[..|native| - 1]) + native[|native| - 1].signed * native[|native| - 1].price
  }

  /** Some inferred fill is not earlier than the trade. */
  predicate NotAfter(t: FeeTrade, inferred: seq<NativeFill>) {
    exists i :: 0 <= i < |inferred| && t.ms * 1_000_000 <= inferred[i].ns
  }

  /** Without inferred fills nothing is left; with them they cover the rest exactly. */
  predicate Covers(left: Left) {
    if left.inferred == [] then left.rows == []
    else
      && left.rows != []
      && NativeQuantity(left.inferred) == Quantity(left.rows) && NativeCost(left.inferred) == Cost(left.rows)
      && forall i :: 0 <= i < |left.rows| ==> NotAfter(left.rows[i], left.inferred)
  }

  predicate OneSide(native: seq<NativeFill>, trades: seq<FeeTrade>) {
    && (forall i :: 0 <= i < |native| ==> (native[i].signed > 0 <==> native[0].signed > 0))
    && (forall i :: 0 <= i < |trades| ==> |native| > 0 && (trades[i].quantity > 0 <==> native[0].signed > 0))
  }

  predicate Matches(m: Coverage, commissionOf: int -> int) {
    && m.native != [] && m.trades != [] && OneSide(m.native, m.trades)
    && var left := Sift(m.native, m.trades, m.paper, commissionOf);
      left.Some? && Covers(left.value)
  }

  // ---------------------------------------------------------------- dictionary facts

  predicate DistinctRows(rows: seq<FeeTrade>) {
    forall i, j :: 0 <= i < j < |rows| ==> rows[i].id != rows[j].id
  }

  lemma {:induction false} RowOfMeans(rows: seq<FeeTrade>, id: int)
    ensures RowOf(rows, id).Some? ==> RowOf(rows, id).value in rows && RowOf(rows, id).value.id == id
    ensures RowOf(rows, id) == None ==> forall i :: 0 <= i < |rows| ==> rows[i].id != id
  {
    if rows != [] && rows[0].id != id {
      RowOfMeans(rows[1..], id);
      assert rows == [rows[0]] + rows[1..];
    }
  }

  lemma {:induction false} PutNewRow(rows: seq<FeeTrade>, t: FeeTrade)
    requires forall i :: 0 <= i < |rows| ==> rows[i].id != t.id
    ensures PutRow(rows, t) == rows + [t]
  {
    if rows != [] {
      PutNewRow(rows[1..], t);
      assert rows == [rows[0]] + rows[1..];
    }
  }

  lemma {:induction false} RowsOfDistinct(trades: seq<FeeTrade>)
    requires DistinctRows(trades)
    ensures Rows(trades) == trades
  {
    if trades != [] {
      var front := trades[..|trades| - 1];
      RowsOfDistinct(front);
      assert forall i :: 0 <= i < |front| ==> trades[i].id != trades[|trades| - 1].id;
      PutNewRow(front, trades[|trades| - 1]);
      assert trades == front + [trades[|trades| - 1]];
    }
  }

  lemma {:induction false} RemoveTotals(rows: seq<FeeTrade>, id: int)
    requires RowOf(rows, id).Some?
    ensures Quantity(Remove(rows, id)) == Quantity(rows) - RowOf(rows, id).value.quantity
    ensures Cost(Remove(rows, id)) == Cost(rows) - RowOf(rows, id).value.quantity * RowOf(rows, id).value.price
  {
    if rows[0].id != id {
      RemoveTotals(rows[1..], id);
      assert Remove(rows, id)[1..] == Remove(rows[1..], id);
    }
  }

  // ---------------------------------------------------------------- conservation

  lemma {:induction false} SiftConserves(native: seq<NativeFill>, trades: seq<FeeTrade>, paper: bool, commissionOf: int -> int, left: Left)
    requires Sift(native, trades, paper, commissionOf) == Some(left)
    ensures NativeQuantity(native) - NativeQuantity(left.inferred) == Quantity(Rows(trades)) - Quantity(left.rows)
    ensures NativeCost(native) - NativeCost(left.inferred) == Cost(Rows(trades)) - Cost(left.rows)
  {
    if native != [] {
      var front, n := native[..|native| - 1], native[|native| - 1];
      var before := Sift(front, trades, paper, commissionOf).value;
      SiftConserves(front, trades, paper, commissionOf, before);
      if n.origin.Inferred? {
        assert (before.inferred + [n])[..|before.inferred|] == before.inferred;
      } else {
        RemoveTotals(before.rows, n.id.id);
      }
    }
  }

  /** An accepted order conserves both the signed quantity and the price cost. */
  lemma MatchConserves(m: Coverage, commissionOf: int -> int)
    requires Matches(m, commissionOf) && DistinctRows(m.trades)
    ensures NativeQuantity(m.native) == Quantity(m.trades)
    ensures NativeCost(m.native) == Cost(m.trades)
  {
    var left := Sift(m.native, m.trades, m.paper, commissionOf).value;
    SiftConserves(m.native, m.trades, m.paper, commissionOf, left);
    RowsOfDistinct(m.trades);
  }

  // ---------------------------------------------------------------- every trade once

  predicate Names(n: NativeFill, id: int) {
    !n.origin.Inferred? && n.id == Venue(id)
  }

  predicate Named(native: seq<NativeFill>, id: int) {
    exists i :: 0 <= i < |native| && Names(native[i], id)
  }

  lemma {:induction false} RemoveLookup(rows: seq<FeeTrade>, id: int, other: int)
    requires DistinctRows(rows)
    ensures DistinctRows(Remove(rows, id))
    ensures RowOf(Remove(rows, id), other) == if other == id then None else RowOf(rows, other)
    ensures forall t :: t in Remove(rows, id) <==> t in rows && t.id != id
  {
    if rows != [] {
      assert rows == [rows[0]] + rows[1..];
      if rows[0].id == id {
        RowOfMeans(rows[1..], id);
        assert forall i :: 0 <= i < |rows[1..]| ==> rows[1..][i] == rows[i + 1];
        AbsentRow(rows[1..], id);
      } else {
        RemoveLookup(rows[1..], id, other);
        DistinctCons(rows[0], Remove(rows[1..], id), rows[1..]);
      }
    }
  }

  lemma {:induction false} AbsentRow(rows: seq<FeeTrade>, id: int)
    requires forall i :: 0 <= i < |rows| ==> rows[i].id != id
    ensures RowOf(rows, id) == None && forall t :: t in rows ==> t.id != id
  {
    if rows != [] {
      AbsentRow(rows[1..], id);
    }
  }

  lemma DistinctCons(t: FeeTrade, rows: seq<FeeTrade>, all: seq<FeeTrade>)
    requires DistinctRows(rows) && (forall r :: r in rows ==> r in all)
    requires forall i :: 0 <= i < |all| ==> all[i].id != t.id
    ensures DistinctRows([t] + rows)
  {
    forall i | 0 <= i < |rows| ensures rows[i].id != t.id {
      assert rows[i] in all;
    }
  }

  /** Sifting leaves exactly the trades that no real fill names. */
  lemma {:induction false} SiftLeaves(native: seq<NativeFill>, trades: seq<FeeTrade>, paper: bool, commissionOf: int -> int, left: Left)
    requires Sift(native, trades, paper, commissionOf) == Some(left) && DistinctRows(trades)
    ensures DistinctRows(left.rows)
    ensures forall t :: t in left.rows <==> t in trades && !Named(native, t.id)
  {
    if native == [] {
      RowsOfDistinct(trades);
    } else {
      var front, n := native[..|native| - 1], native[|native| - 1];
      var before := Sift(front, trades, paper, commissionOf).value;
      SiftLeaves(front, trades, paper, commissionOf, before);
      forall id ensures Named(native, id) <==> Named(front, id) || Names(n, id) {
        NamedStep(native, id);
      }
      if !n.origin.Inferred? {
        RemoveLookup(before.rows, n.id.id, n.id.id);
      }
    }
  }

  // A real fill takes its trade, and nothing before it had.
  lemma ClaimTakes(front: seq<NativeFill>, n: NativeFill, trades: seq<FeeTrade>, paper: bool, commissionOf: int -> int, before: Left)
    requires Sift(front, trades, paper, commissionOf) == Some(before) && DistinctRows(trades)
    requires Claims(n, before.rows, commissionOf)
    ensures !Named(front, n.id.id)
    ensures RowOf(before.rows, n.id.id).value in trades
  {
    SiftLeaves(front, trades, paper, commissionOf, before);
    RowOfMeans(before.rows, n.id.id);
  }

  /** No two real fills name one trade, and each equals the trade it names. */
  lemma {:induction false} SiftNamesOnce(native: seq<NativeFill>, trades: seq<FeeTrade>, paper: bool, commissionOf: int -> int,
                                         i: int, j: int, id: int)
    requires Sift(native, trades, paper, commissionOf).Some? && DistinctRows(trades)
    requires 0 <= i < |native| && Names(native[i], id)
    ensures exists t :: t in trades && t.id == id && FillMatchesTrade(native[i], t)
    ensures 0 <= j < |native| && i != j ==> !Names(native[j], id)
  {
    var front, n := native[..|native| - 1], native[|native| - 1];
    var before := Sift(front, trades, paper, commissionOf).value;
    if !n.origin.Inferred? {
      ClaimTakes(front, n, trades, paper, commissionOf, before);
    }
    if i < |front| {
      assert Names(front[i], id);
      SiftNamesOnce(front, trades, paper, commissionOf, i, if j < |front| then j else i, id);
    } else {
      assert forall k :: 0 <= k < |front| ==> !Names(front[k], id);
      assert forall k :: 0 <= k < |front| ==> native[k] == front[k];
    }
  }

  lemma NamedStep(native: seq<NativeFill>, id: int)
    requires native != []
    ensures Named(native, id) <==> Named(native[..|native| - 1], id) || Names(native[|native| - 1], id)
  {
    if Named(native[..|native| - 1], id) {
      var i :| 0 <= i < |native| - 1 && Names(native[..|native| - 1][i], id);
      assert Names(native[i], id);
    }
  }

  /** In an accepted order every venue trade is accounted for exactly once: by the one real fill
      that names and equals it, or, if no real fill names it, within the inferred group. */
  lemma MatchAccountsOnce(m: Coverage, commissionOf: int -> int, left: Left, t: FeeTrade)
    requires Matches(m, commissionOf) && DistinctRows(m.trades) && t in m.trades
    requires Sift(m.native, m.trades, m.paper, commissionOf) == Some(left)
    ensures t in left.rows <==> !Named(m.native, t.id)
    ensures Named(m.native, t.id) ==> NamedOnce(m.native, t)
    ensures t in left.rows ==> left.inferred != []
  {
    SiftLeaves(m.native, m.trades, m.paper, commissionOf, left);
    if Named(m.native, t.id) {
      var i :| 0 <= i < |m.native| && Names(m.native[i], t.id);
      SiftNamesOnce(m.native, m.trades, m.paper, commissionOf, i, i, t.id);
      var r :| r in m.trades && r.id == t.id && FillMatchesTrade(m.native[i], r);
      SameTrade(m.trades, r, t);
      forall j | 0 <= j < |m.native| && j != i ensures !Names(m.native[j], t.id) {
        SiftNamesOnce(m.native, m.trades, m.paper, commissionOf, i, j, t.id);
      }
    }
  }

  /** One real fill names and equals the trade, and no other names it. */
  predicate NamedOnce(native: seq<NativeFill>, t: FeeTrade) {
    exists i :: 0 <= i < |native| && FillMatchesTrade(native[i], t) && OnlyOneNames(native, i, t.id)
  }

  predicate OnlyOneNames(native: seq<NativeFill>, i: int, id: int) {
    forall j :: 0 <= j < |native| && j != i ==> !Names(native[j], id)
  }

  lemma SameTrade(trades: seq<FeeTrade>, a: FeeTrade, b: FeeTrade)
    requires DistinctRows(trades) && a in trades && b in trades && a.id == b.id
    ensures a == b
  {
  }

  // ---------------------------------------------------------------- the check itself

  /** The fills are taken in order; each real one pops the trade it names. */
  method FeeCoverageMatches(m: Coverage, commissionOf: int -> int) returns (ok: bool)
    ensures ok <==> Matches(m, commissionOf)
  {
    if m.native == [] || m.trades == [] || !OneSide(m.native, m.trades) {
      return false;
    }
    var rows, inferred: seq<NativeFill> := Rows(m.trades), [];
    for i := 0 to |m.native|
      invariant Sift(m.native[..i], m.trades, m.paper, commissionOf) == Some(Left(rows, inferred))
    {
      var n := m.native[i];
      SiftPrefix(m.native, i, m.trades, m.paper, commissionOf);
      if !OriginAllowed(n, m.paper) {
        return false;
      }
      if n.origin.Inferred? {
        inferred := inferred + [n];
      } else {
        if !Claims(n, rows, commissionOf) {
          return false;
        }
        rows := Remove(rows, n.id.id);
      }
    }
    assert m.native[..|m.native|] == m.native;
    ok := Covers(Left(rows, inferred));
  }

  lemma {:induction false} SiftPrefix(native: seq<NativeFill>, i: nat, trades: seq<FeeTrade>, paper: bool, commissionOf: int -> int)
    requires i < |native|
    ensures native[..i + 1][..i] == native[..i]
    ensures Sift(native[..i + 1], trades, paper, commissionOf) == None ==> Sift(native, trades, paper, commissionOf) == None
    decreases |native|
  {
    assert native[..i + 1][..i] == native[..i];
    if i + 1 < |native| {
      var front := native[..|native| - 1];
      assert front[..i + 1] == native[..i + 1];
      SiftPrefix(front, i, trades, paper, commissionOf);
    } else {
      assert native[..i + 1] == native;
    }
  }
}
