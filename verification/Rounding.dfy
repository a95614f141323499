/** Ounce arithmetic.  A quantity is an integer number of units of 1e-8 ounce, the
    eight-decimal grid of the source venue. */
module Rounding {

  const OUNCE := 100_000_000
  const HALF := 50_000_000

  datatype Option<+T> = None | Some(value: T)

  function Abs(x: int): nat {
    if x < 0 then -x else x
  }

  function Min(x: int, y: int): int {
    if x < y then x else y
  }

  function Max(x: int, y: int): int {
    if x < y then y else x
  }

  function FloorOunces(units: int): (ounces: int)
    ensures OUNCE * ounces <= units < OUNCE * (ounces + 1)
  {
    units / OUNCE
  }

  /** The whole-ounce hedge of a combined quantity: nearest integer, ties to even. */
  function HalfEven(units: int): (ounces: int)
    ensures 2 * Abs(units - OUNCE * ounces) <= OUNCE
    ensures 2 * Abs(units - OUNCE * ounces) == OUNCE ==> ounces % 2 == 0
  {
    var down := units / OUNCE;
    var rest := units % OUNCE;
    if rest < HALF then down
    else if HALF < rest then down + 1
    else if down % 2 == 0 then down
    else down + 1
  }

  /** The two clauses of HalfEven admit only one integer. */
  lemma HalfEvenUnique(units: int, ounces: int)
    requires 2 * Abs(units - OUNCE * ounces) <= OUNCE
    requires 2 * Abs(units - OUNCE * ounces) == OUNCE ==> ounces % 2 == 0
    ensures ounces == HalfEven(units)
  {
    var r := HalfEven(units);
    assert OUNCE * Abs(r - ounces) <= OUNCE;
    assert r == ounces || r == ounces + 1 || ounces == r + 1;
  }

  lemma HalfEvenMonotone(x: int, y: int)
    requires x <= y
    ensures HalfEven(x) <= HalfEven(y)
  {
    // Two different integers are nearest to the same quantity only at a tie, and only one is even.
    assert HalfEven(x) <= HalfEven(y) + 1;
  }

  /** Buying and selling round alike, so the two sides of the ledger mirror each other. */
  lemma HalfEvenOdd(x: int)
    ensures HalfEven(-x) == -HalfEven(x)
  {
    HalfEvenUnique(-x, -HalfEven(x));
  }

  /** No obligation arises exactly while the combined quantity is at most half an ounce. */
  lemma HalfEvenZero(x: int)
    ensures HalfEven(x) == 0 <==> Abs(x) <= HALF
    ensures HalfEven(x) > 0 <==> x > HALF
  {
    if Abs(x) <= HALF {
      HalfEvenUnique(x, 0);
    }
  }

  // What a loop that takes numbers out of a set one by one needs.
  lemma SomeElement(s: set<int>)
    ensures s == {} || exists x :: x in s
  {
    if forall x :: x !in s {
      assert s == {};
    }
  }
}
