/** Which native fills account for an order's venue trades, told without popping. */
module FeeMatching {
  import opened Rounding
  import opened FeeTrades
  import opened CidStore
  import opened FeeCoverage

  /** The fill is this trade, at the commission its final fee is booked at. */
  predicate Books(n: NativeFill, t: FeeTrade, commissionOf: int -> int) {
    && n.id == Venue(t.id) && n.signed == t.quantity && n.price == t.price && n.ns == 1_000_000 * t.ms
    && (if t.maker then n.liquidity.MakerSide? else n.liquidity.TakerSide?)
    && (t.final.Some? && !n.origin.TePaper? ==>
          n.currency == t.final.value.currency && n.commission == commissionOf(t.final.value.amount))
  }

  predicate IsReal(n: NativeFill) {
    !n.origin.Inferred?
  }

  predicate OriginFits(n: NativeFill, paper: bool) {
    n.origin.TePaper? ==> paper && n.commission == 0 && n.currency == 1
  }

  predicate BooksSome(n: NativeFill, trades: seq<FeeTrade>, commissionOf: int -> int) {
    exists k :: 0 <= k < |trades| && Books(n, trades[k], commissionOf)
  }

  /** Every real fill is a trade of the order, and no two are the same one. */
  predicate RealsFit(native: seq<NativeFill>, trades: seq<FeeTrade>, paper: bool, commissionOf: int -> int) {
    && (forall i :: 0 <= i < |native| ==> OriginFits(native[i], paper))
    && (forall i :: 0 <= i < |native| && IsReal(native[i]) ==> BooksSome(native[i], trades, commissionOf))
    && (forall i, j :: 0 <= i < j < |native| && IsReal(native[i]) && IsReal(native[j]) ==> native[i].id != native[j].id)
  }

  predicate Taken(native: seq<NativeFill>, id: int) {
    exists i :: 0 <= i < |native| && IsReal(native[i]) && native[i].id == Venue(id)
  }

  /** The trade is in no real fill, and not later than every inferred one. */
  predicate Inferable(native: seq<NativeFill>, t: FeeTrade) {
    exists i :: 0 <= i < |native| && !IsReal(native[i]) && 1_000_000 * t.ms <= native[i].ns
  }

  /** The rest: without an inferred fill nothing, and otherwise something, no trade of it after the
      inferred fills, that makes the whole order's signed quantity and price cost agree. */
  predicate RestFits(native: seq<NativeFill>, trades: seq<FeeTrade>) {
    if forall i :: 0 <= i < |native| ==> IsReal(native[i]) then
      forall k :: 0 <= k < |trades| ==> Taken(native, trades[k].id)
    else
      && (exists k :: 0 <= k < |trades| && !Taken(native, trades[k].id))
      && NativeQuantity(native) == Quantity(trades) && NativeCost(native) == Cost(trades)
      && (forall k :: 0 <= k < |trades| && !Taken(native, trades[k].id) ==> Inferable(native, trades[k]))
  }

  predicate SameSide(native: seq<NativeFill>, trades: seq<FeeTrade>) {
    && (forall i, j :: 0 <= i < |native| && 0 <= j < |native| ==> (native[i].signed > 0 <==> native[j].signed > 0))
    && (forall i, k :: 0 <= i < |native| && 0 <= k < |trades| ==> (native[i].signed > 0 <==> trades[k].quantity > 0))
  }

  predicate Accounts(m: Coverage, commissionOf: int -> int) {
    && m.native != [] && m.trades != [] && SameSide(m.native, m.trades)
    && RealsFit(m.native, m.trades, m.paper, commissionOf) && RestFits(m.native, m.trades)
  }

  // ---------------------------------------------------------------- the real fills

  lemma {:induction false} RowIn(rows: seq<FeeTrade>, t: FeeTrade)
    requires DistinctRows(rows) && t in rows
    ensures RowOf(rows, t.id) == Some(t)
  {
    RowOfMeans(rows, t.id);
    if RowOf(rows, t.id).Some? {
      SameTrade(rows, RowOf(rows, t.id).value, t);
    }
  }

  lemma ClaimsIff(front: seq<NativeFill>, n: NativeFill, trades: seq<FeeTrade>, paper: bool,
                  commissionOf: int -> int, before: Left)
    requires Sift(front, trades, paper, commissionOf) == Some(before) && DistinctRows(trades)
    ensures Claims(n, before.rows, commissionOf) <==>
      BooksSome(n, trades, commissionOf) && !(n.id.Venue? && Named(front, n.id.id))
  {
    SiftLeaves(front, trades, paper, commissionOf, before);
    if Claims(n, before.rows, commissionOf) {
      RowOfMeans(before.rows, n.id.id);
      var t := RowOf(before.rows, n.id.id).value;
      var k :| 0 <= k < |trades| && trades[k] == t;
      assert Books(n, trades[k], commissionOf);
    }
    if BooksSome(n, trades, commissionOf) && !Named(front, n.id.id) {
      var k :| 0 <= k < |trades| && Books(n, trades[k], commissionOf);
      assert trades[k] in before.rows;
      RowIn(before.rows, trades[k]);
    }
  }

  lemma RealsFitStep(native: seq<NativeFill>, trades: seq<FeeTrade>, paper: bool, commissionOf: int -> int)
    requires native != []
    ensures
      var front, n := native[..|native| - 1], native[|native| - 1];
      RealsFit(native, trades, paper, commissionOf) <==>
        && RealsFit(front, trades, paper, commissionOf) && OriginFits(n, paper)
        && (IsReal(n) ==> BooksSome(n, trades, commissionOf) && !(n.id.Venue? && Named(front, n.id.id)))
  {
    var front, n := native[..|native| - 1], native[|native| - 1];
    assert forall i :: 0 <= i < |front| ==> front[i] == native[i];
    if IsReal(n) && BooksSome(n, trades, commissionOf) {
      if Named(front, n.id.id) {
        var i :| 0 <= i < |front| && Names(front[i], n.id.id);
        assert native[i].id == n.id;
      } else {
        forall i | 0 <= i < |front| && IsReal(front[i]) ensures front[i].id != n.id {
          assert !Names(front[i], n.id.id);
        }
      }
    }
  }

  lemma {:induction false} SiftIff(native: seq<NativeFill>, trades: seq<FeeTrade>, paper: bool, commissionOf: int -> int)
    requires DistinctRows(trades)
    ensures Sift(native, trades, paper, commissionOf).Some? <==> RealsFit(native, trades, paper, commissionOf)
  {
    if native != [] {
      var front, n := native[..|native| - 1], native[|native| - 1];
      SiftIff(front, trades, paper, commissionOf);
      RealsFitStep(native, trades, paper, commissionOf);
      var before := Sift(front, trades, paper, commissionOf);
      if before.Some? {
        ClaimsIff(front, n, trades, paper, commissionOf, before.value);
      }
    }
  }

  // ---------------------------------------------------------------- the rest

  lemma {:induction false} InferredAre(native: seq<NativeFill>, trades: seq<FeeTrade>, paper: bool,
                                       commissionOf: int -> int, left: Left)
    requires Sift(native, trades, paper, commissionOf) == Some(left)
    ensures forall n :: n in left.inferred <==> n in native && !IsReal(n)
  {
    if native != [] {
      var front := native[..|native| - 1];
      InferredAre(front, trades, paper, commissionOf, Sift(front, trades, paper, commissionOf).value);
      assert native == front + [native[|native| - 1]];
    }
  }

  lemma NotAfterIff(native: seq<NativeFill>, inferred: seq<NativeFill>, t: FeeTrade)
    requires forall n :: n in inferred <==> n in native && !IsReal(n)
    ensures NotAfter(t, inferred) <==> Inferable(native, t)
  {
    if NotAfter(t, inferred) {
      var i :| 0 <= i < |inferred| && t.ms * 1_000_000 <= inferred[i].ns;
      assert inferred[i] in inferred;
      var k :| 0 <= k < |native| && native[k] == inferred[i];
    }
    if Inferable(native, t) {
      var i :| 0 <= i < |native| && !IsReal(native[i]) && 1_000_000 * t.ms <= native[i].ns;
      assert native[i] in inferred;
      var k :| 0 <= k < |inferred| && inferred[k] == native[i];
    }
  }

  lemma TakenIsNamed(native: seq<NativeFill>, id: int)
    ensures Taken(native, id) <==> Named(native, id)
  {
    if Named(native, id) {
      var i :| 0 <= i < |native| && Names(native[i], id);
      assert IsReal(native[i]) && native[i].id == Venue(id);
    }
    if Taken(native, id) {
      var i :| 0 <= i < |native| && IsReal(native[i]) && native[i].id == Venue(id);
      assert Names(native[i], id);
    }
  }

  lemma LeftRows(native: seq<NativeFill>, trades: seq<FeeTrade>, left: Left)
    requires forall t :: t in left.rows <==> t in trades && !Named(native, t.id)
    ensures left.rows == [] <==> forall k :: 0 <= k < |trades| ==> Taken(native, trades[k].id)
    ensures left.rows != [] <==> exists k :: 0 <= k < |trades| && !Taken(native, trades[k].id)
  {
    forall id ensures Taken(native, id) <==> Named(native, id) {
      TakenIsNamed(native, id);
    }
    if left.rows != [] {
      assert left.rows[0] in left.rows;
      var k :| 0 <= k < |trades| && trades[k] == left.rows[0];
      assert !Taken(native, trades[k].id);
    }
    forall k | 0 <= k < |trades| && !Taken(native, trades[k].id) ensures left.rows != [] {
      assert trades[k] in left.rows;
    }
  }

  lemma LateRows(native: seq<NativeFill>, trades: seq<FeeTrade>, left: Left)
    requires forall t :: t in left.rows <==> t in trades && !Named(native, t.id)
    requires forall n :: n in left.inferred <==> n in native && !IsReal(n)
    ensures (forall k :: 0 <= k < |left.rows| ==> NotAfter(left.rows[k], left.inferred))
       <==> (forall k :: 0 <= k < |trades| && !Taken(native, trades[k].id) ==> Inferable(native, trades[k]))
  {
    forall t ensures NotAfter(t, left.inferred) <==> Inferable(native, t) {
      NotAfterIff(native, left.inferred, t);
    }
    forall id ensures Taken(native, id) <==> Named(native, id) {
      TakenIsNamed(native, id);
    }
    if forall k :: 0 <= k < |left.rows| ==> NotAfter(left.rows[k], left.inferred) {
      forall k | 0 <= k < |trades| && !Taken(native, trades[k].id) ensures Inferable(native, trades[k]) {
        assert trades[k] in left.rows;
      }
    }
    if forall k :: 0 <= k < |trades| && !Taken(native, trades[k].id) ==> Inferable(native, trades[k]) {
      forall k | 0 <= k < |left.rows| ensures NotAfter(left.rows[k], left.inferred) {
        assert left.rows[k] in left.rows;
        var j :| 0 <= j < |trades| && trades[j] == left.rows[k];
      }
    }
  }

  lemma CoversIff(native: seq<NativeFill>, trades: seq<FeeTrade>, left: Left)
    requires forall t :: t in left.rows <==> t in trades && !Named(native, t.id)
    requires forall n :: n in left.inferred <==> n in native && !IsReal(n)
    requires NativeQuantity(native) - NativeQuantity(left.inferred) == Quantity(trades) - Quantity(left.rows)
    requires NativeCost(native) - NativeCost(left.inferred) == Cost(trades) - Cost(left.rows)
    ensures Covers(left) <==> RestFits(native, trades)
  {
    LeftRows(native, trades, left);
    AllReal(native, left.inferred);
    LateRows(native, trades, left);
  }

  lemma AllReal(native: seq<NativeFill>, inferred: seq<NativeFill>)
    requires forall n :: n in inferred <==> n in native && !IsReal(n)
    ensures inferred == [] <==> forall i :: 0 <= i < |native| ==> IsReal(native[i])
  {
    if inferred != [] {
      assert inferred[0] in inferred;
    }
    forall i | 0 <= i < |native| && !IsReal(native[i]) ensures inferred != [] {
      assert native[i] in inferred;
    }
  }

  lemma RestIff(native: seq<NativeFill>, trades: seq<FeeTrade>, paper: bool, commissionOf: int -> int, left: Left)
    requires Sift(native, trades, paper, commissionOf) == Some(left) && DistinctRows(trades)
    ensures Covers(left) <==> RestFits(native, trades)
  {
    SiftLeaves(native, trades, paper, commissionOf, left);
    InferredAre(native, trades, paper, commissionOf, left);
    SiftConserves(native, trades, paper, commissionOf, left);
    RowsOfDistinct(trades);
    CoversIff(native, trades, left);
  }

  /** For distinct venue trades the check accepts exactly when the fills account for them. */
  lemma MatchesIff(m: Coverage, commissionOf: int -> int)
    requires DistinctRows(m.trades)
    ensures Matches(m, commissionOf) <==> Accounts(m, commissionOf)
  {
    SiftIff(m.native, m.trades, m.paper, commissionOf);
    var left := Sift(m.native, m.trades, m.paper, commissionOf);
    if left.Some? {
      RestIff(m.native, m.trades, m.paper, commissionOf, left.value);
    }
    if m.native != [] {
      assert OneSide(m.native, m.trades) <==> SameSide(m.native, m.trades);
    }
  }

  /** In an accepted order a fill booked from the venue's own record of a finally priced trade
      carries that fee's currency and commission. */
  lemma CommissionIsBooked(m: Coverage, commissionOf: int -> int, i: nat, t: FeeTrade)
    requires DistinctRows(m.trades) && Matches(m, commissionOf)
    requires i < |m.native| && t in m.trades && t.final.Some?
    requires m.native[i].id == Venue(t.id) && !m.native[i].origin.Inferred? && !m.native[i].origin.TePaper?
    ensures m.native[i].currency == t.final.value.currency
    ensures m.native[i].commission == commissionOf(t.final.value.amount)
  {
    MatchesIff(m, commissionOf);
    assert IsReal(m.native[i]);
    var k :| 0 <= k < |m.trades| && Books(m.native[i], m.trades[k], commissionOf);
    SameTrade(m.trades, m.trades[k], t);
  }
}
