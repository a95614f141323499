/** Translating a signed hedge delta into MT5 ticket closes followed by at most one open. */
module HedgePlan {
  import opened Rounding

  datatype Side = Buy | Sell

  /** A ticket as the venue reports it: its direction flags may be contradictory. */
  datatype Ticket = Ticket(id: string, isLong: bool, isShort: bool, quantity: int)

  datatype Leg =
    | CloseLeg(side: Side, quantity: int, positionId: string, expectedSide: Side, expectedQuantity: int)
    | OpenLeg(side: Side, quantity: int)

  datatype PlanError =
    | NonPositiveQuantity
    | DuplicatePosition
    | InvalidDirection
    | InvalidPositionQuantity

  datatype Result<+T> = Success(value: T) | Failure(error: PlanError)

  predicate HasSide(ticket: Ticket) {
    ticket.isLong != ticket.isShort
  }

  function SideOf(ticket: Ticket): Side
    requires HasSide(ticket)
  {
    if ticket.isLong then Buy else Sell
  }

  // ---------------------------------------------------------------- ticket order

  predicate IsDecimal(id: string) {
    id != "" && Digits(id)
  }

  predicate Digits(id: string) {
    forall i :: 0 <= i < |id| ==> '0' <= id[i] <= '9'
  }

  function Numeral(id: string): nat
    requires Digits(id)
  {
    if id == "" then 0
    else 10 * Numeral(id[..|id| - 1]) + (id[|id| - 1] as int - '0' as int)
  }

  predicate TextBefore(a: string, b: string) {
    if b == "" then false
    else if a == "" then true
    else if a[0] != b[0] then a[0] < b[0]
    else TextBefore(a[1..], b[1..])
  }

  /** Native numeric identifiers come first, in numeric order; ties and the rest by text. */
  predicate IdBefore(a: string, b: string) {
    if IsDecimal(a) && IsDecimal(b) then
      Numeral(a) < Numeral(b) || (Numeral(a) == Numeral(b) && TextBefore(a, b))
    else if IsDecimal(a) || IsDecimal(b) then IsDecimal(a)
    else TextBefore(a, b)
  }

  lemma {:induction false} TextOrder(a: string, b: string)
    ensures a == b ==> !TextBefore(a, b)
    ensures a != b ==> (TextBefore(a, b) <==> !TextBefore(b, a))
  {
    if a != "" && b != "" && a[0] == b[0] {
      TextOrder(a[1..], b[1..]);
      assert a == [a[0]] + a[1..] && b == [b[0]] + b[1..];
    }
  }

  lemma {:induction false} TextTransitive(a: string, b: string, c: string)
    requires TextBefore(a, b) && TextBefore(b, c)
    ensures TextBefore(a, c)
  {
    if a != "" && a[0] == b[0] == c[0] {
      TextTransitive(a[1..], b[1..], c[1..]);
    }
  }

  /** The sort key never ties two different identifiers. */
  lemma IdOrder(a: string, b: string)
    ensures a == b ==> !IdBefore(a, b)
    ensures a != b ==> (IdBefore(a, b) <==> !IdBefore(b, a))
  {
    TextOrder(a, b);
  }

  lemma IdTransitive(a: string, b: string, c: string)
    requires IdBefore(a, b) && IdBefore(b, c)
    ensures IdBefore(a, c)
  {
    if TextBefore(a, b) && TextBefore(b, c) {
      TextTransitive(a, b, c);
    }
  }

  // ---------------------------------------------------------------- tickets

  predicate ValidTicket(ticket: Ticket) {
    ticket.id != "" && HasSide(ticket) && ticket.quantity > 0
  }

  predicate AllValid(tickets: seq<Ticket>) {
    forall i :: 0 <= i < |tickets| ==> ValidTicket(tickets[i])
  }

  predicate ValidTickets(tickets: seq<Ticket>) {
    && AllValid(tickets)
    && (forall i, j :: 0 <= i < j < |tickets| ==> tickets[i].id != tickets[j].id)
  }

  function Insert(ticket: Ticket, tickets: seq<Ticket>): (inserted: seq<Ticket>)
    ensures ValidTicket(ticket) && AllValid(tickets) ==> AllValid(inserted)
  {
    if tickets == [] || IdBefore(ticket.id, tickets[0].id) then [ticket] + tickets
    else [tickets[0]] + Insert(ticket, tickets[1..])
  }

  function Sort(tickets: seq<Ticket>): (sorted: seq<Ticket>)
    ensures AllValid(tickets) ==> AllValid(sorted)
  {
    if tickets == [] then [] else Insert(tickets[0], Sort(tickets[1..]))
  }

  ghost predicate Sorted(tickets: seq<Ticket>) {
    forall i, j :: 0 <= i < j < |tickets| ==> IdBefore(tickets[i].id, tickets[j].id)
  }

  lemma {:induction false} InsertBag(ticket: Ticket, tickets: seq<Ticket>)
    ensures multiset(Insert(ticket, tickets)) == multiset(tickets) + multiset{ticket}
  {
    if tickets != [] && !IdBefore(ticket.id, tickets[0].id) {
      assert tickets == [tickets[0]] + tickets[1..];
      InsertBag(ticket, tickets[1..]);
    }
  }

  ghost predicate AllAfter(id: string, tickets: seq<Ticket>) {
    forall i :: 0 <= i < |tickets| ==> IdBefore(id, tickets[i].id)
  }

  lemma {:induction false} InsertAfter(id: string, ticket: Ticket, tickets: seq<Ticket>)
    requires AllAfter(id, tickets) && IdBefore(id, ticket.id)
    ensures AllAfter(id, Insert(ticket, tickets))
  {
    if tickets != [] {
      InsertAfter(id, ticket, tickets[1..]);
    }
  }

  lemma {:induction false} InsertKeeps(ticket: Ticket, tickets: seq<Ticket>)
    requires Sorted(tickets) && forall i :: 0 <= i < |tickets| ==> tickets[i].id != ticket.id
    ensures Sorted(Insert(ticket, tickets))
  {
    if tickets != [] {
      if IdBefore(ticket.id, tickets[0].id) {
        forall j | 1 <= j < |tickets| ensures IdBefore(ticket.id, tickets[j].id) {
          IdTransitive(ticket.id, tickets[0].id, tickets[j].id);
        }
      } else {
        InsertKeeps(ticket, tickets[1..]);
        IdOrder(ticket.id, tickets[0].id);
        InsertAfter(tickets[0].id, ticket, tickets[1..]);
      }
    }
  }

  ghost predicate Absent(tickets: seq<Ticket>, id: string) {
    forall i :: 0 <= i < |tickets| ==> tickets[i].id != id
  }

  lemma AbsentBag(a: seq<Ticket>, b: seq<Ticket>, id: string)
    requires multiset(a) == multiset(b) && Absent(a, id)
    ensures Absent(b, id)
  {
    forall i | 0 <= i < |b| ensures b[i].id != id {
      assert b[i] in multiset(a);
    }
  }

  lemma {:induction false} SortBag(tickets: seq<Ticket>)
    requires ValidTickets(tickets)
    ensures Sorted(Sort(tickets)) && multiset(Sort(tickets)) == multiset(tickets)
  {
    if tickets != [] {
      var first, rest := tickets[0], tickets[1..];
      SortBag(rest);
      AbsentBag(rest, Sort(rest), first.id);
      InsertKeeps(first, Sort(rest));
      InsertBag(first, Sort(rest));
      assert tickets == [first] + rest;
    }
  }

  lemma SortKeeps(tickets: seq<Ticket>)
    requires ValidTickets(tickets)
    ensures Sorted(Sort(tickets)) && multiset(Sort(tickets)) == multiset(tickets)
    ensures ValidTickets(Sort(tickets))
  {
    SortBag(tickets);
    SortedIsValid(tickets, Sort(tickets));
  }

  lemma SortedIsValid(tickets: seq<Ticket>, sorted: seq<Ticket>)
    requires ValidTickets(tickets) && Sorted(sorted) && multiset(sorted) == multiset(tickets)
    ensures ValidTickets(sorted)
  {
    forall i | 0 <= i < |sorted| ensures ValidTicket(sorted[i]) {
      assert sorted[i] in multiset(tickets);
    }
    forall i, j | 0 <= i < j < |sorted| ensures sorted[i].id != sorted[j].id {
      IdOrder(sorted[i].id, sorted[j].id);
    }
  }

  lemma {:induction false} SortedUnique(a: seq<Ticket>, b: seq<Ticket>)
    requires Sorted(a) && Sorted(b) && multiset(a) == multiset(b)
    ensures a == b
  {
    if a == [] {
      assert |multiset(b)| == 0;
    } else {
      assert |multiset(a)| == |multiset(b)|;
      HeadsAgree(a, b);
      BagOfTail(a);
      BagOfTail(b);
      SortedUnique(a[1..], b[1..]);
      assert a == [a[0]] + a[1..] && b == [b[0]] + b[1..];
    }
  }

  lemma HeadsAgree(a: seq<Ticket>, b: seq<Ticket>)
    requires Sorted(a) && Sorted(b) && multiset(a) == multiset(b) && a != [] && b != []
    ensures a[0] == b[0]
  {
    assert a[0] in multiset(b) && b[0] in multiset(a);
    var i :| 0 <= i < |b| && b[i] == a[0];
    var j :| 0 <= j < |a| && a[j] == b[0];
    IdOrder(a[0].id, b[0].id);
  }

  lemma BagOfTail(a: seq<Ticket>)
    requires a != []
    ensures multiset(a[1..]) == multiset(a) - multiset{a[0]}
  {
    assert a == [a[0]] + a[1..];
  }

  // ---------------------------------------------------------------- planning

  /** Legs over tickets already in order: close opposing tickets, open what is left. */
  function Legs(tickets: seq<Ticket>, side: Side, remaining: nat): (legs: seq<Leg>)
    requires AllValid(tickets)
    ensures remaining > 0 ==> legs != []
  {
    if remaining == 0 then []
    else if tickets == [] then [OpenLeg(side, remaining)]
    else if SideOf(tickets[0]) == side then Legs(tickets[1..], side, remaining)
    else
      var t := tickets[0];
      var close := Min(remaining, t.quantity);
      [CloseLeg(side, close, t.id, SideOf(t), t.quantity)] + Legs(tickets[1..], side, remaining - close)
  }

  function IdsOf(tickets: seq<Ticket>): set<string> {
    set i | 0 <= i < |tickets| :: tickets[i].id
  }

  /** The first defect of the reported tickets, in report order. */
  function TicketError(tickets: seq<Ticket>): (error: Result<()>)
    ensures error.Success? <==> ValidTickets(tickets)
  {
    if tickets == [] then Success(())
    else
      var front, t := tickets[..|tickets| - 1], tickets[|tickets| - 1];
      var earlier := TicketError(front);
      if earlier.Failure? then earlier
      else if t.id == "" || t.id in IdsOf(front) then Failure(DuplicatePosition)
      else if !HasSide(t) then Failure(InvalidDirection)
      else if t.quantity <= 0 then Failure(InvalidPositionQuantity)
      else Success(())
  }

  function Plan(tickets: seq<Ticket>, side: Side, quantity: int): Result<seq<Leg>> {
    if quantity <= 0 then Failure(NonPositiveQuantity)
    else
      var error := TicketError(tickets);
      if error.Failure? then Failure(error.error)
      else Success(Legs(Sort(tickets), side, quantity))
  }

  lemma {:induction false} FirstErrorStays(tickets: seq<Ticket>, i: nat)
    requires i <= |tickets| && TicketError(tickets[..i]).Failure?
    ensures TicketError(tickets) == TicketError(tickets[..i])
    decreases |tickets|
  {
    if i == |tickets| {
      assert tickets[..i] == tickets;
    } else {
      assert tickets[..|tickets| - 1][..i] == tickets[..i];
      FirstErrorStays(tickets[..|tickets| - 1], i);
    }
  }

  /** Every reported ticket is authenticated before the first leg is planned. */
  method CheckTickets(tickets: seq<Ticket>) returns (error: Result<()>)
    ensures error == TicketError(tickets)
  {
    var seenIds: set<string> := {};
    for i := 0 to |tickets|
      invariant TicketError(tickets[..i]).Success?
      invariant seenIds == IdsOf(tickets[..i])
    {
      var t := tickets[i];
      assert tickets[..i + 1][..i] == tickets[..i] && tickets[..i + 1][i] == t;
      if t.id == "" || t.id in seenIds {
        FirstErrorStays(tickets, i + 1);
        return Failure(DuplicatePosition);
      }
      IdsOneMore(tickets, i);
      seenIds := seenIds + {t.id};
      if !HasSide(t) {
        FirstErrorStays(tickets, i + 1);
        return Failure(InvalidDirection);
      }
      if t.quantity <= 0 {
        FirstErrorStays(tickets, i + 1);
        return Failure(InvalidPositionQuantity);
      }
    }
    assert tickets[..|tickets|] == tickets;
    error := Success(());
  }

  lemma IdsOneMore(tickets: seq<Ticket>, i: nat)
    requires i < |tickets|
    ensures IdsOf(tickets[..i + 1]) == IdsOf(tickets[..i]) + {tickets[i].id}
  {
    var front, more := tickets[..i], tickets[..i + 1];
    assert more == front + [tickets[i]];
    forall id | id in IdsOf(front) + {tickets[i].id} ensures id in IdsOf(more) {
      if id == tickets[i].id {
        assert more[i].id == id;
      } else {
        var k :| 0 <= k < |front| && front[k].id == id;
        assert more[k].id == id;
      }
    }
  }

  method PlanOrdered(sorted: seq<Ticket>, side: Side, quantity: nat) returns (legs: seq<Leg>)
    requires AllValid(sorted) && quantity > 0
    ensures legs == Legs(sorted, side, quantity)
  {
    var remaining: nat := quantity;
    legs := [];
    ghost var goal := Legs(sorted, side, quantity);
    ghost var rest := goal;
    assert sorted[0..] == sorted;
    var k := 0;
    while k < |sorted| && remaining > 0
      invariant 0 <= k <= |sorted|
      invariant AllValid(sorted[k..]) && rest == Legs(sorted[k..], side, remaining)
      invariant legs + rest == goal
    {
      var t := sorted[k];
      LegsStep(sorted, k, side, remaining);
      if SideOf(t) != side {
        var close := Min(remaining, t.quantity);
        var leg := CloseLeg(side, close, t.id, SideOf(t), t.quantity);
        TakeFirst(legs, rest, leg);
        legs := legs + [leg];
        remaining := remaining - close;
        rest := rest[1..];
      }
      k := k + 1;
    }
    if remaining > 0 {
      assert sorted[k..] == [];
      legs := legs + [OpenLeg(side, remaining)];
    }
  }

  lemma TakeFirst(legs: seq<Leg>, rest: seq<Leg>, leg: Leg)
    requires rest != [] && rest[0] == leg
    ensures (legs + [leg]) + rest[1..] == legs + rest
  {
  }

  lemma LegsStep(sorted: seq<Ticket>, k: nat, side: Side, remaining: nat)
    requires AllValid(sorted) && k < |sorted| && remaining > 0
    ensures
      var t := sorted[k];
      var close := Min(remaining, t.quantity);
      && AllValid(sorted[k + 1..])
      && Legs(sorted[k..], side, remaining) ==
        if SideOf(t) == side then Legs(sorted[k + 1..], side, remaining)
        else [CloseLeg(side, close, t.id, SideOf(t), t.quantity)] + Legs(sorted[k + 1..], side, remaining - close)
  {
    assert sorted[k..][1..] == sorted[k + 1..];
  }

  method PlanHedgeDelta(tickets: seq<Ticket>, side: Side, quantity: int)
    returns (r: Result<seq<Leg>>)
    ensures r == Plan(tickets, side, quantity)
  {
    if quantity <= 0 {
      return Failure(NonPositiveQuantity);
    }
    var error := CheckTickets(tickets);
    if error.Failure? {
      return Failure(error.error);
    }
    SortKeeps(tickets);
    var legs := PlanOrdered(Sort(tickets), side, quantity);
    r := Success(legs);
  }

  // ---------------------------------------------------------------- what a plan promises

  function Signed(side: Side, quantity: int): int {
    if side == Buy then quantity else -quantity
  }

  function Net(tickets: seq<Ticket>): int
    requires AllValid(tickets)
  {
    if tickets == [] then 0 else Signed(SideOf(tickets[0]), tickets[0].quantity) + Net(tickets[1..])
  }

  function Total(legs: seq<Leg>): int {
    if legs == [] then 0 else legs[0].quantity + Total(legs[1..])
  }

  function Opposing(tickets: seq<Ticket>, side: Side): seq<Ticket>
    requires AllValid(tickets)
  {
    if tickets == [] then []
    else if SideOf(tickets[0]) == side then Opposing(tickets[1..], side)
    else [tickets[0]] + Opposing(tickets[1..], side)
  }

  /** The legs close the opposing tickets from the front, whole tickets and then at most one part
      of a ticket; an open leg comes last and only when every opposing ticket is used up. */
  ghost predicate ClosesInOrder(legs: seq<Leg>, opposing: seq<Ticket>, side: Side) {
    if legs == [] then true
    else if opposing == [] then |legs| == 1 && legs[0].OpenLeg? && legs[0].side == side && legs[0].quantity > 0
    else
      && Closes(legs[0], opposing[0], side)
      && (legs[0].quantity < opposing[0].quantity ==> |legs| == 1)
      && ClosesInOrder(legs[1..], opposing[1..], side)
  }

  predicate Closes(leg: Leg, t: Ticket, side: Side) {
    && leg.CloseLeg? && leg.side == side && leg.positionId == t.id
    && HasSide(t) && leg.expectedSide == SideOf(t) && leg.expectedSide != side
    && leg.expectedQuantity == t.quantity && 0 < leg.quantity <= t.quantity
  }

  lemma {:induction false} LegsCloseInOrder(tickets: seq<Ticket>, side: Side, remaining: nat)
    requires AllValid(tickets)
    ensures ClosesInOrder(Legs(tickets, side, remaining), Opposing(tickets, side), side)
    ensures Total(Legs(tickets, side, remaining)) == remaining
  {
    if remaining > 0 && tickets != [] {
      var t := tickets[0];
      if SideOf(t) == side {
        LegsCloseInOrder(tickets[1..], side, remaining);
      } else {
        var close := Min(remaining, t.quantity);
        LegsCloseInOrder(tickets[1..], side, remaining - close);
        assert Legs(tickets, side, remaining)[1..] == Legs(tickets[1..], side, remaining - close);
        assert Opposing(tickets, side)[1..] == Opposing(tickets[1..], side);
      }
    }
  }

  /** A plan sums to the request and closes only opposing tickets, in identifier order. */
  lemma PlanClosesInOrder(tickets: seq<Ticket>, side: Side, quantity: int)
    requires Plan(tickets, side, quantity).Success?
    ensures
      var legs := Plan(tickets, side, quantity).value;
      && ClosesInOrder(legs, Opposing(Sort(tickets), side), side)
      && Total(legs) == quantity && legs != []
  {
    SortKeeps(tickets);
    LegsCloseInOrder(Sort(tickets), side, quantity);
  }

  /** The plan depends on the tickets, not on the order the venue reports them in. */
  lemma PlanIgnoresReportOrder(tickets: seq<Ticket>, others: seq<Ticket>, side: Side, quantity: int)
    requires multiset(tickets) == multiset(others) && ValidTickets(tickets) && ValidTickets(others)
    ensures Plan(tickets, side, quantity) == Plan(others, side, quantity)
  {
    SortKeeps(tickets);
    SortKeeps(others);
    SortedUnique(Sort(tickets), Sort(others));
  }

  // ---------------------------------------------------------------- executing a plan

  /** What a ticket becomes when so much of ticket `id` is closed: gone, smaller, or itself. */
  function AfterClose(t: Ticket, id: string, quantity: int): Option<Ticket> {
    if t.id != id then Some(t)
    else if t.quantity == quantity then None
    else Some(t.(quantity := t.quantity - quantity))
  }

  function Close(tickets: seq<Ticket>, id: string, quantity: int): seq<Ticket> {
    if tickets == [] then []
    else
      var rest := Close(tickets[1..], id, quantity);
      match AfterClose(tickets[0], id, quantity)
      case None => rest
      case Some(t) => [t] + rest
  }

  /** The venue's effect of one completely filled leg; an open leg gets a ticket of its own. */
  function Apply(tickets: seq<Ticket>, leg: Leg, openId: string): seq<Ticket> {
    match leg
    case CloseLeg(_, quantity, id, _, _) => Close(tickets, id, quantity)
    case OpenLeg(side, quantity) => tickets + [Ticket(openId, side == Buy, side == Sell, quantity)]
  }

  function Execute(tickets: seq<Ticket>, legs: seq<Leg>, openId: string): seq<Ticket>
    decreases |legs|
  {
    if legs == [] then tickets else Execute(Apply(tickets, legs[0], openId), legs[1..], openId)
  }

  function Matching(tickets: seq<Ticket>, id: string): seq<Ticket> {
    if tickets == [] then []
    else if tickets[0].id == id then [tickets[0]] + Matching(tickets[1..], id)
    else Matching(tickets[1..], id)
  }

  /** The check made immediately before a leg's order is sent. */
  predicate LegIsCurrent(leg: Leg, tickets: seq<Ticket>) {
    match leg
    case OpenLeg(side, _) =>
      forall i :: 0 <= i < |tickets| ==> HasSide(tickets[i]) && SideOf(tickets[i]) == side
    case CloseLeg(_, _, id, expectedSide, expectedQuantity) =>
      var targets := Matching(tickets, id);
      && |targets| == 1
      && HasSide(targets[0]) && SideOf(targets[0]) == expectedSide
      && targets[0].quantity == expectedQuantity
  }

  lemma {:induction false} CloseAbsent(tickets: seq<Ticket>, id: string, quantity: int)
    requires Absent(tickets, id)
    ensures Close(tickets, id, quantity) == tickets
  {
    if tickets != [] {
      CloseAbsent(tickets[1..], id, quantity);
    }
  }

  lemma {:induction false} CloseKeepsAbsent(tickets: seq<Ticket>, id: string, quantity: int, other: string)
    requires Absent(tickets, other)
    ensures Absent(Close(tickets, id, quantity), other)
  {
    if tickets != [] {
      CloseKeepsAbsent(tickets[1..], id, quantity, other);
    }
  }

  lemma {:induction false} CloseKeepsAfter(first: string, tickets: seq<Ticket>, id: string, quantity: int)
    requires AllAfter(first, tickets)
    ensures AllAfter(first, Close(tickets, id, quantity))
  {
    if tickets != [] {
      CloseKeepsAfter(first, tickets[1..], id, quantity);
    }
  }

  lemma {:induction false} CloseKeepsValid(tickets: seq<Ticket>, at: nat, quantity: int)
    requires ValidTickets(tickets) && at < |tickets| && 0 < quantity <= tickets[at].quantity
    ensures ValidTickets(Close(tickets, tickets[at].id, quantity))
    ensures Net(Close(tickets, tickets[at].id, quantity))
         == Net(tickets) - Signed(SideOf(tickets[at]), quantity)
  {
    var first, rest, id := tickets[0], tickets[1..], tickets[at].id;
    if at == 0 {
      CloseAbsent(rest, id, quantity);
      if first.quantity != quantity {
        assert Close(tickets, id, quantity)[1..] == rest;
      }
    } else {
      CloseKeepsValid(rest, at - 1, quantity);
      CloseKeepsAbsent(rest, id, quantity, first.id);
      assert Close(tickets, id, quantity)[1..] == Close(rest, id, quantity);
    }
  }

  lemma {:induction false} CloseInsert(t: Ticket, tickets: seq<Ticket>, id: string, quantity: int)
    requires Sorted(tickets) && Absent(tickets, t.id)
    ensures Close(Insert(t, tickets), id, quantity) ==
      match AfterClose(t, id, quantity)
      case None => Close(tickets, id, quantity)
      case Some(left) => Insert(left, Close(tickets, id, quantity))
  {
    if tickets != [] {
      if IdBefore(t.id, tickets[0].id) {
        forall j | 1 <= j < |tickets| ensures IdBefore(t.id, tickets[j].id) {
          IdTransitive(t.id, tickets[0].id, tickets[j].id);
        }
        CloseKeepsAfter(t.id, tickets, id, quantity);
        assert Insert(t, tickets)[1..] == tickets;
      } else {
        CloseInsert(t, tickets[1..], id, quantity);
        assert Insert(t, tickets)[1..] == Insert(t, tickets[1..]);
      }
    }
  }

  lemma {:induction false} SortClose(tickets: seq<Ticket>, id: string, quantity: int)
    requires ValidTickets(tickets)
    ensures Sort(Close(tickets, id, quantity)) == Close(Sort(tickets), id, quantity)
  {
    if tickets != [] {
      var first, rest := tickets[0], tickets[1..];
      SortClose(rest, id, quantity);
      SortKeeps(rest);
      AbsentBag(rest, Sort(rest), first.id);
      CloseInsert(first, Sort(rest), id, quantity);
      SortCloseFirst(first, rest, id, quantity);
      assert tickets == [first] + rest;
    }
  }

  lemma SortCloseFirst(first: Ticket, rest: seq<Ticket>, id: string, quantity: int)
    ensures Sort(Close([first] + rest, id, quantity)) ==
      match AfterClose(first, id, quantity)
      case None => Sort(Close(rest, id, quantity))
      case Some(left) => Insert(left, Sort(Close(rest, id, quantity)))
  {
    assert ([first] + rest)[1..] == rest;
    match AfterClose(first, id, quantity)
    case None =>
    case Some(left) => assert ([left] + Close(rest, id, quantity))[1..] == Close(rest, id, quantity);
  }

  // Carrying out the first close leaves exactly the remaining legs to be planned.
  lemma {:induction false} ReplanAfterClose(tickets: seq<Ticket>, side: Side, remaining: nat)
    requires ValidTickets(tickets) && remaining > 0 && Legs(tickets, side, remaining)[0].CloseLeg?
    ensures
      var legs := Legs(tickets, side, remaining);
      var id, quantity := legs[0].positionId, legs[0].quantity;
      && !Absent(tickets, id) && quantity <= remaining
      && AllValid(Close(tickets, id, quantity))
      && Legs(Close(tickets, id, quantity), side, remaining - quantity) == legs[1..]
  {
    var t := tickets[0];
    var legs := Legs(tickets, side, remaining);
    if SideOf(t) == side {
      ReplanAfterClose(tickets[1..], side, remaining);
      assert Close(tickets, legs[0].positionId, legs[0].quantity)[1..]
          == Close(tickets[1..], legs[0].positionId, legs[0].quantity);
    } else {
      CloseKeepsValid(tickets, 0, legs[0].quantity);
      CloseAbsent(tickets[1..], t.id, legs[0].quantity);
    }
  }

  lemma {:induction false} OpposingIsIn(tickets: seq<Ticket>, side: Side)
    requires AllValid(tickets)
    ensures forall t <- Opposing(tickets, side) :: t in tickets && ValidTicket(t) && SideOf(t) != side
    ensures Opposing(tickets, side) == [] ==> forall t <- tickets :: SideOf(t) == side
  {
    if tickets != [] {
      OpposingIsIn(tickets[1..], side);
    }
  }

  lemma {:induction false} MatchingIsUnique(tickets: seq<Ticket>, at: nat)
    requires ValidTickets(tickets) && at < |tickets|
    ensures Matching(tickets, tickets[at].id) == [tickets[at]]
  {
    if at > 0 {
      MatchingIsUnique(tickets[1..], at - 1);
    } else {
      MatchingAbsent(tickets[1..], tickets[0].id);
    }
  }

  lemma {:induction false} MatchingAbsent(tickets: seq<Ticket>, id: string)
    requires Absent(tickets, id)
    ensures Matching(tickets, id) == []
  {
    if tickets != [] {
      MatchingAbsent(tickets[1..], id);
    }
  }

  ghost predicate Planned(tickets: seq<Ticket>, side: Side, quantity: int, legs: seq<Leg>) {
    quantity > 0 && ValidTickets(tickets) && legs == Legs(Sort(tickets), side, quantity)
  }

  lemma PlanIsPlanned(tickets: seq<Ticket>, side: Side, quantity: int, legs: seq<Leg>)
    ensures Plan(tickets, side, quantity) == Success(legs) <==> Planned(tickets, side, quantity, legs)
  {
  }

  // The first leg of a fresh plan is current, and a close names one of the reported tickets.
  lemma FirstLegIsCurrent(tickets: seq<Ticket>, side: Side, quantity: int, legs: seq<Leg>) returns (at: nat)
    requires Planned(tickets, side, quantity, legs)
    ensures LegIsCurrent(legs[0], tickets) && ClosesInOrder(legs, Opposing(Sort(tickets), side), side)
    ensures legs[0].CloseLeg? ==> at < |tickets| && Closes(legs[0], tickets[at], side)
  {
    SortKeeps(tickets);
    var sorted := Sort(tickets);
    LegsCloseInOrder(sorted, side, quantity);
    OpposingIsIn(sorted, side);
    at := 0;
    if Opposing(sorted, side) == [] {
      forall i | 0 <= i < |tickets| ensures SideOf(tickets[i]) == side {
        assert tickets[i] in multiset(sorted);
      }
    } else {
      var t := Opposing(sorted, side)[0];
      assert t in multiset(tickets);
      at :| 0 <= at < |tickets| && tickets[at] == t;
      MatchingIsUnique(tickets, at);
    }
  }

  // Carrying out the first close leaves a state whose own plan is the rest of the legs.
  lemma PlannedAfterFirst(tickets: seq<Ticket>, side: Side, quantity: int, legs: seq<Leg>)
    requires Planned(tickets, side, quantity, legs) && |legs| > 1
    ensures legs[0].CloseLeg?
    ensures
      var next := Close(tickets, legs[0].positionId, legs[0].quantity);
      && Planned(next, side, quantity - legs[0].quantity, legs[1..])
      && Net(next) == Net(tickets) + Signed(side, legs[0].quantity)
  {
    var at := FirstLegIsCurrent(tickets, side, quantity, legs);
    CloseKeepsValid(tickets, at, legs[0].quantity);
    SortKeeps(tickets);
    SortClose(tickets, legs[0].positionId, legs[0].quantity);
    ReplannedSorted(Sort(tickets), side, quantity, legs, Sort(Close(tickets, legs[0].positionId, legs[0].quantity)));
  }

  lemma ReplannedSorted(sorted: seq<Ticket>, side: Side, quantity: nat, legs: seq<Leg>, closed: seq<Ticket>)
    requires ValidTickets(sorted) && quantity > 0 && legs == Legs(sorted, side, quantity) && |legs| > 1 && legs[0].CloseLeg?
    requires closed == Close(sorted, legs[0].positionId, legs[0].quantity)
    ensures AllValid(closed) && legs[0].quantity < quantity && Legs(closed, side, quantity - legs[0].quantity) == legs[1..]
  {
    ReplanAfterClose(sorted, side, quantity);
  }

  lemma FirstLegStable(tickets: seq<Ticket>, side: Side, quantity: int, front: seq<Leg>, back: seq<Leg>, openId: string,
                       next: seq<Ticket>)
    requires Planned(tickets, side, quantity, front + back) && front != [] && back != []
    requires next == Apply(tickets, front[0], openId)
    ensures Planned(next, side, quantity - front[0].quantity, front[1..] + back)
    ensures Net(next) == Net(tickets) + Signed(side, front[0].quantity)
  {
    PlannedAfterFirst(tickets, side, quantity, front + back);
    TailOfLegs(front, back);
  }

  lemma ExecuteFirst(tickets: seq<Ticket>, front: seq<Leg>, openId: string)
    requires front != []
    ensures Execute(tickets, front, openId) == Execute(Apply(tickets, front[0], openId), front[1..], openId)
    ensures Total(front) == front[0].quantity + Total(front[1..])
  {
  }

  lemma {:induction false} PlannedIsStable(tickets: seq<Ticket>, side: Side, quantity: int, front: seq<Leg>, back: seq<Leg>,
                                           openId: string)
    requires Planned(tickets, side, quantity, front + back) && back != []
    ensures Planned(Execute(tickets, front, openId), side, quantity - Total(front), back)
    ensures Net(Execute(tickets, front, openId)) == Net(tickets) + Signed(side, Total(front))
    decreases |front|
  {
    if front == [] {
      assert front + back == back;
    } else {
      var next := Apply(tickets, front[0], openId);
      FirstLegStable(tickets, side, quantity, front, back, openId, next);
      PlannedIsStable(next, side, quantity - front[0].quantity, front[1..], back, openId);
      ExecuteFirst(tickets, front, openId);
      SignedAdds(side, front[0].quantity, Total(front[1..]));
    }
  }

  lemma TailOfLegs(front: seq<Leg>, back: seq<Leg>)
    requires front != []
    ensures (front + back)[0] == front[0] && (front + back)[1..] == front[1..] + back
  {
  }

  lemma SignedAdds(side: Side, a: int, b: int)
    ensures Signed(side, a + b) == Signed(side, a) + Signed(side, b)
  {
  }

  /** A bound plan is stable under its own execution: when its turn comes every leg is current,
      and planning the remaining quantity anew gives exactly the remaining legs. */
  lemma PlanIsStable(tickets: seq<Ticket>, side: Side, quantity: int, legs: seq<Leg>, k: nat, openId: string)
    requires Plan(tickets, side, quantity) == Success(legs) && k < |legs|
    ensures
      var now := Execute(tickets, legs[..k], openId);
      && LegIsCurrent(legs[k], now)
      && Plan(now, side, quantity - Total(legs[..k])) == Success(legs[k..])
  {
    PlanIsPlanned(tickets, side, quantity, legs);
    assert legs[..k] + legs[k..] == legs && legs[k..][0] == legs[k];
    PlannedStaysCurrent(tickets, side, quantity, legs[..k], legs[k..], openId);
  }

  lemma PlannedStaysCurrent(tickets: seq<Ticket>, side: Side, quantity: int, front: seq<Leg>, back: seq<Leg>, openId: string)
    requires Planned(tickets, side, quantity, front + back) && back != []
    ensures
      var now := Execute(tickets, front, openId);
      LegIsCurrent(back[0], now) && Plan(now, side, quantity - Total(front)) == Success(back)
  {
    PlannedIsStable(tickets, side, quantity, front, back, openId);
    PlannedIsCurrent(Execute(tickets, front, openId), side, quantity - Total(front), back);
  }

  lemma PlannedIsCurrent(now: seq<Ticket>, side: Side, quantity: int, back: seq<Leg>)
    requires Planned(now, side, quantity, back) && back != []
    ensures LegIsCurrent(back[0], now) && Plan(now, side, quantity) == Success(back)
  {
    PlanIsPlanned(now, side, quantity, back);
    var at := FirstLegIsCurrent(now, side, quantity, back);
  }

  // A plan of one leg moves the net position by that leg.
  lemma OneLegReachesDelta(tickets: seq<Ticket>, side: Side, quantity: int, leg: Leg, openId: string)
    requires Planned(tickets, side, quantity, [leg]) && openId != ""
    ensures leg.quantity == quantity && AllValid(Apply(tickets, leg, openId))
    ensures Net(Apply(tickets, leg, openId)) == Net(tickets) + Signed(side, quantity)
  {
    var at := FirstLegIsCurrent(tickets, side, quantity, [leg]);
    LegsCloseInOrder(Sort(tickets), side, quantity);
    assert Total([leg]) == leg.quantity;
    if leg.CloseLeg? {
      CloseKeepsValid(tickets, at, leg.quantity);
    } else {
      NetAppend(tickets, Ticket(openId, side == Buy, side == Sell, leg.quantity));
    }
  }

  /** A completed plan changes the net position by exactly the signed delta. */
  lemma PlanReachesDelta(tickets: seq<Ticket>, side: Side, quantity: int, legs: seq<Leg>, openId: string)
    requires Plan(tickets, side, quantity) == Success(legs) && openId != ""
    ensures
      var after := Execute(tickets, legs, openId);
      && AllValid(tickets) && AllValid(after)
      && Net(after) == Net(tickets) + Signed(side, quantity)
  {
    PlanIsPlanned(tickets, side, quantity, legs);
    var front, last := legs[..|legs| - 1], legs[|legs| - 1];
    assert legs == front + [last];
    LastLegReachesDelta(tickets, side, quantity, front, last, openId);
  }

  lemma LastLegReachesDelta(tickets: seq<Ticket>, side: Side, quantity: int, front: seq<Leg>, last: Leg, openId: string)
    requires Planned(tickets, side, quantity, front + [last]) && openId != ""
    ensures
      var after := Execute(tickets, front + [last], openId);
      && AllValid(after) && Net(after) == Net(tickets) + Signed(side, quantity)
  {
    PlannedIsStable(tickets, side, quantity, front, [last], openId);
    ExecuteAppend(tickets, front, last, openId);
    OneLegReachesDelta(Execute(tickets, front, openId), side, quantity - Total(front), last, openId);
    SignedAdds(side, Total(front), quantity - Total(front));
  }

  lemma {:induction false} ExecuteAppend(tickets: seq<Ticket>, legs: seq<Leg>, last: Leg, openId: string)
    ensures Execute(tickets, legs + [last], openId) == Apply(Execute(tickets, legs, openId), last, openId)
    decreases |legs|
  {
    if legs != [] {
      assert (legs + [last])[1..] == legs[1..] + [last];
      ExecuteAppend(Apply(tickets, legs[0], openId), legs[1..], last, openId);
    }
  }

  lemma {:induction false} NetAppend(tickets: seq<Ticket>, last: Ticket)
    requires AllValid(tickets) && ValidTicket(last)
    ensures AllValid(tickets + [last])
    ensures Net(tickets + [last]) == Net(tickets) + Signed(SideOf(last), last.quantity)
  {
    if tickets != [] {
      assert (tickets + [last])[1..] == tickets[1..] + [last];
      NetAppend(tickets[1..], last);
    }
  }
}
