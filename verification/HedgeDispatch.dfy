/** Which legs may be sent, told on the reported tickets. */
module HedgeDispatch {
  import opened Rounding
  import opened HedgePlan
  import opened Records
  import opened HedgeLane

  // ---------------------------------------------------------------- the check before a leg's order

  predicate Faces(t: Ticket, side: Side) {
    match side
    case Buy => t.isLong && !t.isShort
    case Sell => t.isShort && !t.isLong
  }

  function Opposite(side: Side): Side {
    if side == Buy then Sell else Buy
  }

  predicate OnlyAt(tickets: seq<Ticket>, id: string, k: nat) {
    k < |tickets| && tickets[k].id == id && forall j :: 0 <= j < |tickets| && j != k ==> tickets[j].id != id
  }

  /** A close finds its ticket once, as planned; an open finds every ticket on its own side. */
  ghost predicate LegStands(leg: Leg, tickets: seq<Ticket>) {
    match leg
    case OpenLeg(side, _) => forall k :: 0 <= k < |tickets| ==> Faces(tickets[k], side)
    case CloseLeg(_, _, id, expectedSide, expectedQuantity) =>
      exists k: nat :: OnlyAt(tickets, id, k) && Faces(tickets[k], expectedSide) && tickets[k].quantity == expectedQuantity
  }

  lemma {:induction false} MatchingNone(tickets: seq<Ticket>, id: string)
    ensures Matching(tickets, id) == [] <==> Absent(tickets, id)
  {
    if tickets != [] {
      MatchingNone(tickets[1..], id);
      assert tickets == [tickets[0]] + tickets[1..];
    }
  }

  lemma {:induction false} MatchingAt(tickets: seq<Ticket>, id: string, k: nat)
    requires OnlyAt(tickets, id, k)
    ensures Matching(tickets, id) == [tickets[k]]
  {
    if k == 0 {
      MatchingNone(tickets[1..], id);
    } else {
      MatchingAt(tickets[1..], id, k - 1);
    }
  }

  lemma {:induction false} MatchingFinds(tickets: seq<Ticket>, id: string) returns (k: nat)
    requires |Matching(tickets, id)| == 1
    ensures OnlyAt(tickets, id, k)
  {
    if tickets[0].id == id {
      MatchingNone(tickets[1..], id);
      assert forall j :: 0 < j < |tickets| ==> tickets[j] == tickets[1..][j - 1];
      k := 0;
    } else {
      var m := MatchingFinds(tickets[1..], id);
      k := m + 1;
      forall j | 0 <= j < |tickets| && j != k ensures tickets[j].id != id {
        assert j > 0 ==> tickets[j] == tickets[1..][j - 1];
      }
    }
  }

  lemma LegIsCurrentIff(leg: Leg, tickets: seq<Ticket>)
    ensures LegIsCurrent(leg, tickets) <==> LegStands(leg, tickets)
  {
    if leg.CloseLeg? {
      var id := leg.positionId;
      if |Matching(tickets, id)| == 1 {
        var k := MatchingFinds(tickets, id);
        MatchingAt(tickets, id, k);
      }
      if k :| OnlyAt(tickets, id, k) {
        MatchingAt(tickets, id, k);
      }
    }
  }

  // ---------------------------------------------------------------- the next leg

  /** A refusal stops an obligation that has not completed. */
  function Refusal(i: HedgeIntent): Next {
    Refused(if i.status.Completed? then i else i.(status := Blocked))
  }

  lemma RefusalBlocks(i: HedgeIntent)
    requires WellFormed(i)
    ensures Refused(AfterRefusal(i)) == Refusal(i)
  {
  }

  /** With a bound plan the next leg is handed out exactly when there is one and its ticket, or for
      an open leg every ticket, is still as planned; anything else stops the obligation. */
  lemma BoundLegIff(i: HedgeIntent, tickets: seq<Ticket>)
    requires WellFormed(i) && i.plan != []
    ensures NextLeg(i, tickets) ==
      if i.legIndex < |i.plan| && LegStands(i.plan[i.legIndex], tickets) then Ready(i, i.plan[i.legIndex])
      else Refusal(i)
  {
    RefusalBlocks(i);
    if i.legIndex < |i.plan| {
      LegIsCurrentIff(i.plan[i.legIndex], tickets);
    }
  }

  // ---------------------------------------------------------------- the first leg

  predicate Authentic(tickets: seq<Ticket>) {
    && (forall k :: 0 <= k < |tickets| ==>
          tickets[k].id != "" && tickets[k].isLong != tickets[k].isShort && tickets[k].quantity > 0)
    && (forall j, k :: 0 <= j < |tickets| && 0 <= k < |tickets| && j != k ==> tickets[j].id != tickets[k].id)
  }

  /** The ticket an exit was bound to is unchanged, covers the whole obligation, and no other
      opposing ticket is closed before it. */
  predicate ExitTicket(i: HedgeIntent, tickets: seq<Ticket>, k: nat) {
    && k < |tickets| && Some(tickets[k].id) == i.position && Some(tickets[k].quantity) == i.positionQuantity
    && Faces(tickets[k], Opposite(i.hedgeSide)) && tickets[k].quantity >= i.quantity
    && forall j :: 0 <= j < |tickets| && j != k && Faces(tickets[j], Opposite(i.hedgeSide)) ==>
      IdBefore(tickets[k].id, tickets[j].id)
  }

  lemma {:induction false} OpposingSorted(sorted: seq<Ticket>, side: Side)
    requires AllValid(sorted) && Sorted(sorted)
    ensures Sorted(Opposing(sorted, side))
    ensures forall t :: t in Opposing(sorted, side) <==> t in sorted && SideOf(t) != side
  {
    if sorted != [] {
      OpposingSorted(sorted[1..], side);
      assert sorted == [sorted[0]] + sorted[1..];
      var rest := Opposing(sorted[1..], side);
      forall j | 0 <= j < |rest| ensures IdBefore(sorted[0].id, rest[j].id) {
        assert rest[j] in sorted[1..];
      }
    }
  }

  lemma {:induction false} ClosingTotal(legs: seq<Leg>, opposing: seq<Ticket>, side: Side)
    requires ClosesInOrder(legs, opposing, side)
    ensures Total(legs) >= 0 && (Total(legs) == 0 ==> legs == [])
  {
    if legs != [] && opposing != [] {
      ClosingTotal(legs[1..], opposing[1..], side);
    }
  }

  lemma TicketIndex(tickets: seq<Ticket>, t: Ticket) returns (k: nat)
    requires ValidTickets(tickets) && t in Sort(tickets)
    ensures k < |tickets| && tickets[k] == t
  {
    SortKeeps(tickets);
    assert t in multiset(tickets);
    k :| k < |tickets| && tickets[k] == t;
  }

  lemma Sorts(tickets: seq<Ticket>, side: Side, k: nat)
    requires ValidTickets(tickets) && k < |tickets| && Faces(tickets[k], Opposite(side))
    ensures AllValid(Sort(tickets)) && Sorted(Opposing(Sort(tickets), side)) && tickets[k] in Opposing(Sort(tickets), side)
  {
    SortKeeps(tickets);
    assert tickets[k] in multiset(Sort(tickets));
    OpposingSorted(Sort(tickets), side);
  }

  lemma SortedFirst(opposing: seq<Ticket>, t: Ticket)
    requires Sorted(opposing) && t in opposing
    ensures t == opposing[0] || IdBefore(opposing[0].id, t.id)
  {
  }

  lemma ExitFound(i: HedgeIntent, tickets: seq<Ticket>, plan: seq<Leg>) returns (k: nat)
    requires Plan(tickets, i.hedgeSide, i.quantity) == Success(plan) && BoundExitAgrees(i, plan) && i.position.Some?
    ensures ExitTicket(i, tickets, k)
  {
    var side := i.hedgeSide;
    PlanIsPlanned(tickets, side, i.quantity, plan);
    k := FirstLegIsCurrent(tickets, side, i.quantity, plan);
    PlanClosesInOrder(tickets, side, i.quantity);
    assert plan[1..] == [];
    var opposing := Opposing(Sort(tickets), side);
    forall j: nat | j < |tickets| && j != k && Faces(tickets[j], Opposite(side))
      ensures IdBefore(tickets[k].id, tickets[j].id)
    {
      Sorts(tickets, side, j);
      SortedFirst(opposing, tickets[j]);
    }
  }

  lemma OnlyFirst(i: HedgeIntent, tickets: seq<Ticket>, k: nat, first: Ticket)
    requires ValidTickets(tickets) && ExitTicket(i, tickets, k)
    requires first in Sort(tickets) && HasSide(first) && SideOf(first) != i.hedgeSide
    ensures first == tickets[k] || !IdBefore(first.id, tickets[k].id)
  {
    var j := TicketIndex(tickets, first);
    IdOrder(tickets[k].id, tickets[j].id);
  }

  lemma ExitIsFirst(i: HedgeIntent, tickets: seq<Ticket>, k: nat)
    requires ValidTickets(tickets) && ExitTicket(i, tickets, k)
    ensures AllValid(Sort(tickets)) && Opposing(Sort(tickets), i.hedgeSide) != []
    ensures Opposing(Sort(tickets), i.hedgeSide)[0] == tickets[k]
  {
    Sorts(tickets, i.hedgeSide, k);
    OpposingIsIn(Sort(tickets), i.hedgeSide);
    var opposing := Opposing(Sort(tickets), i.hedgeSide);
    assert opposing[0] in opposing;
    SortedFirst(opposing, tickets[k]);
    OnlyFirst(i, tickets, k, opposing[0]);
  }

  lemma CoveredByFirst(plan: seq<Leg>, opposing: seq<Ticket>, side: Side, quantity: int)
    requires plan != [] && opposing != [] && ClosesInOrder(plan, opposing, side) && Total(plan) == quantity <= opposing[0].quantity
    ensures |plan| == 1
  {
    ClosingTotal(plan[1..], opposing[1..], side);
  }

  lemma ExitPlanned(i: HedgeIntent, tickets: seq<Ticket>, plan: seq<Leg>, k: nat)
    requires Plan(tickets, i.hedgeSide, i.quantity) == Success(plan) && ExitTicket(i, tickets, k)
    ensures BoundExitAgrees(i, plan)
  {
    PlanClosesInOrder(tickets, i.hedgeSide, i.quantity);
    ExitIsFirst(i, tickets, k);
    CoveredByFirst(plan, Opposing(Sort(tickets), i.hedgeSide), i.hedgeSide, i.quantity);
  }

  /** Nothing of the obligation is ordered or filled, and the tickets can carry it. */
  ghost predicate Plannable(i: HedgeIntent, tickets: seq<Ticket>) {
    && i.status == Pending && i.orderId == None && i.filled == 0 && Authentic(tickets)
    && (i.position == None || exists k :: ExitTicket(i, tickets, k))
  }

  lemma PlannableBinds(i: HedgeIntent, tickets: seq<Ticket>, plan: seq<Leg>)
    requires WellFormed(i) && i.plan == [] && i.status.Pending? && i.orderId == None && i.filled == 0
    requires Plan(tickets, i.hedgeSide, i.quantity) == Success(plan) && BoundExitAgrees(i, plan)
    ensures plan != [] && NextLeg(i, tickets) == Ready(i.(plan := plan), plan[0])
  {
    PlanIsAcceptable(i, tickets, plan);
    assert plan[..0] == [];
    PlanIsPlanned(tickets, i.hedgeSide, i.quantity, plan);
    PlannedIsCurrent(tickets, i.hedgeSide, i.quantity, plan);
  }

  /** An unplanned obligation gets its first leg exactly when it is untouched, every ticket is
      authentic, and the ticket an exit was bound to is unchanged, first in line and large enough;
      anything else stops the obligation. */
  lemma FirstLegIff(i: HedgeIntent, tickets: seq<Ticket>, plan: seq<Leg>)
    requires WellFormed(i) && i.plan == []
    requires Authentic(tickets) ==> Plan(tickets, i.hedgeSide, i.quantity) == Success(plan)
    ensures Authentic(tickets) ==> plan != []
    ensures NextLeg(i, tickets) == if Plannable(i, tickets) then Ready(i.(plan := plan), plan[0]) else Refusal(i)
  {
    RefusalBlocks(i);
    if Authentic(tickets) {
      PlanClosesInOrder(tickets, i.hedgeSide, i.quantity);
      if i.status.Pending? && i.orderId == None && i.filled == 0 {
        if i.position.Some? && BoundExitAgrees(i, plan) {
          var k := ExitFound(i, tickets, plan);
        }
        if k :| ExitTicket(i, tickets, k) {
          ExitPlanned(i, tickets, plan, k);
        }
        if BoundExitAgrees(i, plan) {
          PlannableBinds(i, tickets, plan);
        }
      }
    }
  }

  // ---------------------------------------------------------------- defects, in report order

  /** What is wrong with the k-th ticket, given the ones before it. */
  function Defect(tickets: seq<Ticket>, k: nat): Option<PlanError>
    requires k < |tickets|
  {
    var t := tickets[k];
    if t.id == "" || (exists j :: 0 <= j < k && tickets[j].id == t.id) then Some(DuplicatePosition)
    else if t.isLong == t.isShort then Some(InvalidDirection)
    else if t.quantity <= 0 then Some(InvalidPositionQuantity)
    else None
  }

  predicate FirstDefect(tickets: seq<Ticket>, k: nat, error: PlanError) {
    k < |tickets| && Defect(tickets, k) == Some(error) && forall j :: 0 <= j < k ==> Defect(tickets, j) == None
  }

  lemma LastDefect(tickets: seq<Ticket>)
    requires tickets != [] && TicketError(tickets[..|tickets| - 1]).Success?
    ensures
      var defect := Defect(tickets, |tickets| - 1);
      TicketError(tickets) == if defect == None then Success(()) else Failure(defect.value)
  {
    var front, t := tickets[..|tickets| - 1], tickets[|tickets| - 1];
    assert t.id in IdsOf(front) <==> exists j :: 0 <= j < |front| && front[j].id == t.id;
    assert forall j :: 0 <= j < |front| ==> front[j] == tickets[j];
  }

  lemma DefectsOfFront(tickets: seq<Ticket>, m: nat, k: nat)
    requires k < m <= |tickets|
    ensures Defect(tickets[..m], k) == Defect(tickets, k)
  {
    assert forall j :: 0 <= j < m ==> tickets[..m][j] == tickets[j];
  }

  /** Every ticket is checked before any leg is planned, and the first defect is the one raised. */
  lemma {:induction false} TicketErrorIsFirst(tickets: seq<Ticket>) returns (k: nat)
    ensures TicketError(tickets).Success? ==> forall j :: 0 <= j < |tickets| ==> Defect(tickets, j) == None
    ensures TicketError(tickets).Failure? ==> FirstDefect(tickets, k, TicketError(tickets).error)
  {
    k := 0;
    if tickets != [] {
      var m := |tickets| - 1;
      var front := tickets[..m];
      k := TicketErrorIsFirst(front);
      forall j: nat | j < m ensures Defect(front, j) == Defect(tickets, j) {
        DefectsOfFront(tickets, m, j);
      }
      if TicketError(front).Success? {
        LastDefect(tickets);
        k := m;
      }
    }
  }

  /** A plan is refused for a quantity that is not positive, else for the first defect of the tickets. */
  lemma PlanRefusedIff(tickets: seq<Ticket>, side: Side, quantity: int, error: PlanError)
    ensures Plan(tickets, side, quantity) == Failure(error) <==>
      if quantity <= 0 then error == NonPositiveQuantity else exists k: nat :: FirstDefect(tickets, k, error)
  {
    var k := TicketErrorIsFirst(tickets);
    if m: nat :| FirstDefect(tickets, m, error) {
      assert TicketError(tickets).Failure?;
      assert !(m < k) && !(k < m);
    }
  }

  // ---------------------------------------------------------------- the order of identifiers

  /** The first place where two texts differ. */
  predicate DifferAt(a: string, b: string, k: nat) {
    k < |a| && k < |b| && a[..k] == b[..k] && a[k] != b[k]
  }

  lemma {:induction false} TextBeforeAt(a: string, b: string, k: nat)
    requires DifferAt(a, b, k)
    ensures TextBefore(a, b) <==> a[k] < b[k]
  {
    if k > 0 {
      assert a[..k][0] == b[..k][0];
      assert a[..k][1..] == a[1..][..k - 1] && b[..k][1..] == b[1..][..k - 1];
      TextBeforeAt(a[1..], b[1..], k - 1);
    }
  }

  function Power(n: nat): nat {
    if n == 0 then 1 else 10 * Power(n - 1)
  }

  lemma {:induction false} NumeralBelow(a: string)
    requires Digits(a)
    ensures Numeral(a) < Power(|a|)
  {
    if a != "" {
      NumeralBelow(a[..|a| - 1]);
    }
  }

  lemma {:induction false} NumeralAbove(a: string)
    requires Digits(a) && a != "" && a[0] != '0'
    ensures Numeral(a) >= Power(|a| - 1)
  {
    if |a| > 1 {
      NumeralAbove(a[..|a| - 1]);
    }
  }

  lemma {:induction false} PowerGrows(n: nat, m: nat)
    requires n <= m
    ensures Power(n) <= Power(m)
    decreases m
  {
    if n < m {
      PowerGrows(n, m - 1);
    }
  }

  lemma {:induction false} NumeralsDiffer(a: string, b: string, k: nat)
    requires Digits(a) && Digits(b) && |a| == |b| && DifferAt(a, b, k) && a[k] < b[k]
    ensures Numeral(a) < Numeral(b)
  {
    var n := |a| - 1;
    if k < n {
      assert a[..n][..k] == a[..k] && b[..n][..k] == b[..k];
      NumeralsDiffer(a[..n], b[..n], k);
    } else {
      assert a[..n] == b[..n];
    }
  }

  /** Numeric identifiers without leading zeros come in numeric order: the shorter first, then by the
      first digit that differs; they come before any other identifier, and those by text. */
  lemma TicketOrder(a: string, b: string, k: nat)
    ensures IsDecimal(a) && !IsDecimal(b) ==> IdBefore(a, b)
    ensures IsDecimal(a) && IsDecimal(b) && a[0] != '0' && b[0] != '0' && |a| < |b| ==> IdBefore(a, b)
    ensures IsDecimal(a) && IsDecimal(b) && |a| == |b| && DifferAt(a, b, k) && a[k] < b[k] ==> IdBefore(a, b)
    ensures !IsDecimal(a) && !IsDecimal(b) && DifferAt(a, b, k) && a[k] < b[k] ==> IdBefore(a, b)
  {
    if IsDecimal(a) && IsDecimal(b) && a[0] != '0' && b[0] != '0' && |a| < |b| {
      NumeralBelow(a);
      NumeralAbove(b);
      PowerGrows(|a|, |b| - 1);
    }
    if DifferAt(a, b, k) && a[k] < b[k] {
      TextBeforeAt(a, b, k);
      if IsDecimal(a) && IsDecimal(b) && |a| == |b| {
        NumeralsDiffer(a, b, k);
      }
    }
  }
}
