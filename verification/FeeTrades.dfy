/** Fee evidence: observations of venue trades may arrive in any order and any number of times. */
module FeeTrades {
  import opened Rounding

  datatype Fee = Fee(amount: int, currency: int)

  /** Venue trade facts; a missing final fee is pending, not zero. */
  datatype FeeTrade = FeeTrade(id: int, ms: int, quantity: int, price: int, ioc: bool, orderPrice: int,
                               maker: bool, final: Option<Fee>)

  predicate SameExecution(a: FeeTrade, b: FeeTrade) {
    a.(final := None) == b.(final := None)
  }

  /** Two observations that can both be true of one trade. */
  predicate Compatible(a: FeeTrade, b: FeeTrade) {
    a.id == b.id ==> SameExecution(a, b) && (a.final.Some? && b.final.Some? ==> a == b)
  }

  function RowOf(rows: seq<FeeTrade>, id: int): Option<FeeTrade> {
    if rows == [] then None
    else if rows[0].id == id then Some(rows[0])
    else RowOf(rows[1..], id)
  }

  /** The record that replaces `previous`: a repeated pending observation never erases a fee. */
  function Merge(previous: FeeTrade, t: FeeTrade): Option<FeeTrade> {
    if !SameExecution(previous, t) then None
    else if previous.final.Some? && t.final.Some? && previous != t then None
    else if previous.final.Some? then Some(previous)
    else Some(t)
  }

  /** A dictionary by trade ID, in insertion order. */
  function PutRow(rows: seq<FeeTrade>, t: FeeTrade): seq<FeeTrade> {
    if rows == [] then [t]
    else if rows[0].id == t.id then [t] + rows[1..]
    else [rows[0]] + PutRow(rows[1..], t)
  }

  function Observe(rows: seq<FeeTrade>, t: FeeTrade): Option<seq<FeeTrade>> {
    match RowOf(rows, t.id)
    case None => Some(PutRow(rows, t))
    case Some(previous) =>
      var merged := Merge(previous, t);
      if merged == None then None else Some(PutRow(rows, merged.value))
  }

  function ObserveAll(rows: seq<FeeTrade>, seen: seq<FeeTrade>): Option<seq<FeeTrade>> {
    if seen == [] then Some(rows)
    else
      var before := ObserveAll(rows, seen[..|seen| - 1]);
      if before == None then None else Observe(before.value, seen[|seen| - 1])
  }

  lemma {:induction false} PutRowMeans(rows: seq<FeeTrade>, t: FeeTrade, id: int)
    ensures RowOf(PutRow(rows, t), id) == if id == t.id then Some(t) else RowOf(rows, id)
  {
    if rows != [] && rows[0].id != t.id {
      PutRowMeans(rows[1..], t, id);
      assert PutRow(rows, t)[1..] == PutRow(rows[1..], t);
    } else if rows != [] {
      assert PutRow(rows, t)[1..] == rows[1..];
    }
  }

  // ---------------------------------------------------------------- order does not matter

  predicate Consistent(seen: seq<FeeTrade>) {
    forall i, j :: 0 <= i < |seen| && 0 <= j < |seen| ==> Compatible(seen[i], seen[j])
  }

  /** The record of a trade: one of its observations, and a final one if any was final. */
  predicate Represents(r: Option<FeeTrade>, seen: seq<FeeTrade>, id: int) {
    && (r == None ==> forall i :: 0 <= i < |seen| ==> seen[i].id != id)
    && (r.Some? ==> r.value in seen && r.value.id == id)
    && (r.Some? && r.value.final == None ==> forall i :: 0 <= i < |seen| && seen[i].id == id ==> seen[i].final == None)
  }

  ghost predicate RowsRepresent(rows: seq<FeeTrade>, seen: seq<FeeTrade>) {
    forall id :: Represents(RowOf(rows, id), seen, id)
  }

  lemma ConsistentFront(seen: seq<FeeTrade>, t: FeeTrade)
    ensures Consistent(seen + [t]) <==> Consistent(seen) && forall i :: 0 <= i < |seen| ==> Compatible(seen[i], t)
  {
    var all := seen + [t];
    assert forall i :: 0 <= i < |seen| ==> all[i] == seen[i];
    if Consistent(all) {
      assert forall i :: 0 <= i < |seen| ==> Compatible(all[i], all[|seen|]);
    } else if Consistent(seen) && forall i :: 0 <= i < |seen| ==> Compatible(seen[i], t) {
      assert forall i :: 0 <= i < |seen| ==> Compatible(t, seen[i]);
    }
  }

  // A new observation is accepted exactly when it is compatible with every earlier one.
  lemma ObserveIff(rows: seq<FeeTrade>, seen: seq<FeeTrade>, t: FeeTrade)
    requires Consistent(seen) && RowsRepresent(rows, seen)
    ensures Observe(rows, t).Some? <==> forall i :: 0 <= i < |seen| ==> Compatible(seen[i], t)
  {
    var r := RowOf(rows, t.id);
    assert Represents(r, seen, t.id);
    if r.Some? {
      var k :| 0 <= k < |seen| && seen[k] == r.value;
      if Observe(rows, t).Some? {
        forall i | 0 <= i < |seen| ensures Compatible(seen[i], t) {
          assert Compatible(seen[i], seen[k]);
        }
      } else {
        assert !Compatible(seen[k], t);
      }
    }
  }

  lemma ObserveRepresents(rows: seq<FeeTrade>, seen: seq<FeeTrade>, t: FeeTrade)
    requires RowsRepresent(rows, seen) && Observe(rows, t).Some?
    ensures RowsRepresent(Observe(rows, t).value, seen + [t])
  {
    var all := seen + [t];
    forall id ensures Represents(RowOf(Observe(rows, t).value, id), all, id) {
      assert Represents(RowOf(rows, id), seen, id) && Represents(RowOf(rows, t.id), seen, t.id);
      PutRowMeans(rows, t, id);
      if RowOf(rows, t.id).Some? {
        PutRowMeans(rows, Merge(RowOf(rows, t.id).value, t).value, id);
      }
      assert forall i :: 0 <= i < |seen| ==> all[i] == seen[i];
      assert all[|seen|] == t;
    }
  }

  /** A run of observations is accepted exactly when no two of them conflict, and then each trade's
      record is one of its observations, final if any of them was. */
  lemma {:induction false} ObserveAllIff(seen: seq<FeeTrade>)
    ensures ObserveAll([], seen).Some? <==> Consistent(seen)
    ensures ObserveAll([], seen).Some? ==> RowsRepresent(ObserveAll([], seen).value, seen)
  {
    if seen != [] {
      var front, t := seen[..|seen| - 1], seen[|seen| - 1];
      assert seen == front + [t];
      ObserveAllIff(front);
      ConsistentFront(front, t);
      if ObserveAll([], front).Some? {
        ObserveIff(ObserveAll([], front).value, front, t);
        if ObserveAll([], seen).Some? {
          ObserveRepresents(ObserveAll([], front).value, front, t);
        }
      }
    }
  }

  /** The same observations in any order and with any repetitions are accepted alike and leave the
      same record of every trade. */
  lemma OrderDoesNotMatter(seen: seq<FeeTrade>, other: seq<FeeTrade>, id: int)
    requires forall t :: t in seen <==> t in other
    ensures ObserveAll([], seen).Some? <==> ObserveAll([], other).Some?
    ensures ObserveAll([], seen).Some? && ObserveAll([], other).Some? ==>
      RowOf(ObserveAll([], seen).value, id) == RowOf(ObserveAll([], other).value, id)
  {
    ObserveAllIff(seen);
    ObserveAllIff(other);
    if Consistent(seen) {
      ConsistentAlike(seen, other);
    }
    if Consistent(other) {
      ConsistentAlike(other, seen);
    }
    if ObserveAll([], seen).Some? && ObserveAll([], other).Some? {
      var a, b := RowOf(ObserveAll([], seen).value, id), RowOf(ObserveAll([], other).value, id);
      assert Represents(a, seen, id) && Represents(b, other, id);
      SameRecord(a, b, seen, other, id);
    }
  }

  lemma ConsistentAlike(seen: seq<FeeTrade>, other: seq<FeeTrade>)
    requires Consistent(seen) && forall t :: t in other ==> t in seen
    ensures Consistent(other)
  {
    forall i, j | 0 <= i < |other| && 0 <= j < |other| ensures Compatible(other[i], other[j]) {
      assert other[i] in other && other[j] in other;
      var k :| 0 <= k < |seen| && seen[k] == other[i];
      var m :| 0 <= m < |seen| && seen[m] == other[j];
      assert Compatible(seen[k], seen[m]);
    }
  }

  lemma SameRecord(a: Option<FeeTrade>, b: Option<FeeTrade>, seen: seq<FeeTrade>, other: seq<FeeTrade>, id: int)
    requires Consistent(seen) && forall t :: t in seen <==> t in other
    requires Represents(a, seen, id) && Represents(b, other, id)
    ensures a == b
  {
    if a.Some? {
      var k :| 0 <= k < |seen| && seen[k] == a.value;
      assert a.value in other;
      if b.Some? {
        assert b.value in seen;
        var m :| 0 <= m < |seen| && seen[m] == b.value;
        assert Compatible(seen[k], seen[m]);
      }
    }
  }

  /** A final fee, once recorded, stays. */
  lemma FinalFeeStays(rows: seq<FeeTrade>, t: FeeTrade, id: int)
    requires Observe(rows, t).Some? && RowOf(rows, id).Some? && RowOf(rows, id).value.final.Some?
    ensures RowOf(Observe(rows, t).value, id) == RowOf(rows, id)
  {
    PutRowMeans(rows, t, id);
    if RowOf(rows, t.id).Some? {
      PutRowMeans(rows, Merge(RowOf(rows, t.id).value, t).value, id);
    }
  }
}
