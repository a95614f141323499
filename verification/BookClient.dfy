/** The book and its client as mutable objects. */
module BookClient {
  import opened Rounding
  import opened Spec = BookFeed

  // ---------------------------------------------------------------- sorting the best levels

  method SortedPrices(side: Side, bids: bool) returns (prices: seq<int>)
    ensures StrictlySorted(prices, bids) && |prices| == |side|
    ensures forall p :: p in prices <==> p in side
  {
    prices := [];
    var rest := side.Keys;
    while rest != {}
      invariant rest <= side.Keys && StrictlySorted(prices, bids) && |prices| + |rest| == |side.Keys|
      invariant forall p :: p in prices <==> p in side && p !in rest
      decreases rest
    {
      SomeElement(rest);
      var p :| p in rest;
      InsertPriceKeeps(p, prices, bids);
      prices := InsertPrice(p, prices, bids);
      rest := rest - {p};
    }
  }

  method BestLevels(side: Side, bids: bool, depth: nat) returns (levels: seq<Level>)
    requires depth <= |side|
    ensures Best(levels, side, bids, depth)
  {
    var prices := SortedPrices(side, bids);
    assert forall i :: 0 <= i < depth ==> prices[i] in prices;
    levels := seq(depth, i requires 0 <= i < depth && prices[i] in side => Level(prices[i], Abs(side[prices[i]])));
    forall p | p in side
      ensures (exists i :: 0 <= i < |levels| && levels[i].price == p)
        || forall i :: 0 <= i < |levels| ==> Better(levels[i].price, p, bids)
    {
      assert p in prices;
      var k :| 0 <= k < |prices| && prices[k] == p;
      if k < depth {
        assert levels[k].price == p;
      }
    }
  }

  lemma CrossingIsAtTheTop(b: Book, bids: seq<Level>, asks: seq<Level>, depth: nat)
    requires depth > 0 && Best(bids, b.bids, true, depth) && Best(asks, b.asks, false, depth)
    ensures Uncrossed(b) <==> bids[0].price < asks[0].price
  {
    if bids[0].price < asks[0].price {
      forall p, q | p in b.bids && q in b.asks ensures p < q {
        assert p <= bids[0].price && asks[0].price <= q;
      }
    }
  }

  // ---------------------------------------------------------------- the book

  class P0Book {
    var bids: Side
    var asks: Side
    var hasSnapshot: bool
    var actionable: bool

    constructor ()
      ensures Current() == EMPTY_BOOK
    {
      bids, asks, hasSnapshot, actionable := map[], map[], false, false;
    }

    function Current(): Book
      reads this
    {
      Book(bids, asks, hasSnapshot, actionable)
    }

    method Clear()
      modifies this
      ensures Current() == EMPTY_BOOK
    {
      bids, asks, hasSnapshot, actionable := map[], map[], false, false;
    }

    /** The rows fill two new dictionaries; the book changes only when all of them are accepted. */
    method ApplySnapshot(rows: seq<Row>) returns (ok: bool)
      modifies this
      ensures ok <==> Spec.ApplySnapshot(rows).Some?
      ensures Current() == if ok then Spec.ApplySnapshot(rows).value else old(Current())
    {
      if |rows| != 2 * DEPTH {
        return false;
      }
      var newBids: Side, newAsks: Side := map[], map[];
      for i := 0 to |rows|
        invariant PlaceAll(rows[..i]) == Some(Sides(newBids, newAsks))
        invariant Current() == old(Current())
      {
        var r := rows[i];
        assert rows[..i + 1][..i] == rows[..i];
        if !RowValid(r) || r.count == 0 || r.price in newBids || r.price in newAsks {
          PlacePrefix(rows, i);
          return false;
        }
        if r.amount > 0 {
          newBids := newBids[r.price := r.amount];
        } else {
          newAsks := newAsks[r.price := r.amount];
        }
      }
      assert rows[..|rows|] == rows;
      if |newBids| != DEPTH || |newAsks| != DEPTH {
        return false;
      }
      bids, asks, hasSnapshot, actionable := newBids, newAsks, true, true;
      return true;
    }

    method ApplyDelta(r: Row) returns (ok: bool)
      modifies this
      ensures ok <==> Spec.ApplyDelta(old(Current()), r).Some?
      ensures Current() == if ok then Spec.ApplyDelta(old(Current()), r).value else old(Current())
    {
      if !hasSnapshot || !RowValid(r) {
        return false;
      }
      if r.count == 0 {
        if r.amount > 0 {
          bids := bids - {r.price};
        } else {
          asks := asks - {r.price};
        }
      } else {
        bids := bids - {r.price};
        asks := asks - {r.price};
        if r.amount > 0 {
          bids := bids[r.price := r.amount];
        } else {
          asks := asks[r.price := r.amount];
        }
      }
      if r.count != 0 && r.amount > 0 {
        assert bids == old(bids)[r.price := r.amount];
      } else if r.count != 0 {
        assert asks == old(asks)[r.price := r.amount];
      }
      actionable := false;
      return true;
    }

    method Verify(matches: Checksum, value: int) returns (ok: bool)
      modifies this`actionable
      ensures ok <==> Spec.Verify(old(Current()), matches, value).Some?
      ensures Current() == if ok then Spec.Verify(old(Current()), matches, value).value else old(Current())
    {
      if !hasSnapshot || |bids| < DEPTH || |asks| < DEPTH {
        return false;
      }
      actionable := matches(bids, asks, value);
      return true;
    }

    /** The published levels: 25 a side, strictly sorted, uncrossed, with positive sizes. */
    method Levels() returns (ok: bool, bidLevels: seq<Level>, askLevels: seq<Level>)
      requires BookKept(Current())
      ensures ok <==> actionable && Uncrossed(Current())
      ensures ok ==> Best(bidLevels, bids, true, DEPTH) && Best(askLevels, asks, false, DEPTH)
      ensures ok ==> bidLevels[0].price < askLevels[0].price
    {
      if !actionable {
        return false, [], [];
      }
      bidLevels := BestLevels(bids, true, DEPTH);
      askLevels := BestLevels(asks, false, DEPTH);
      CrossingIsAtTheTop(Current(), bidLevels, askLevels, DEPTH);
      ok := bidLevels[0].price < askLevels[0].price;
    }
  }

  lemma LevelsAreTop(b: Book, bids: seq<Level>, asks: seq<Level>)
    requires Full(b) && Best(bids, b.bids, true, DEPTH) && Best(asks, b.asks, false, DEPTH)
    ensures bids == TopLevels(b.bids, true, DEPTH) && asks == TopLevels(b.asks, false, DEPTH)
  {
    BestUnique(bids, TopLevels(b.bids, true, DEPTH), b.bids, true, DEPTH);
    BestUnique(asks, TopLevels(b.asks, false, DEPTH), b.asks, false, DEPTH);
  }

  // ---------------------------------------------------------------- the client

  /** The subscriptions around one book. */
  class DataClient {
    const book: P0Book
    const matches: Checksum
    var booking: Sub
    var funding: Sub
    var preAck: set<int>
    var quotes: bool
    var deltas: bool
    var rates: bool

    constructor (matches: Checksum)
      ensures fresh(book) && Current() == CLOSED && this.matches == matches
    {
      book := new P0Book();
      this.matches := matches;
      booking, funding, preAck, quotes, deltas, rates := NO_SUB, NO_SUB, {}, false, false, false;
    }

    function Current(): Feed
      reads this, book
    {
      Feed(book.Current(), booking, funding, preAck, quotes, deltas, rates)
    }

    method FailClosed()
      modifies this, book
      ensures Current() == CLOSED
    {
      booking, funding, preAck := NO_SUB, NO_SUB, {};
      quotes, deltas, rates := false, false, false;
      book.Clear();
    }

    // ---------------------------------------------------------------- frames

    method PublishBook(precise: bool) returns (ok: bool, out: seq<Output>)
      requires BookKept(book.Current())
      ensures
        var o := Publish(Current(), precise);
        (ok <==> o.Some?) && (ok ==> Outcome(Current(), out) == o.value)
    {
      out := [];
      if quotes || deltas {
        var fine, bids, asks := book.Levels();
        if !fine || !precise {
          return false, [];
        }
        LevelsAreTop(book.Current(), bids, asks);
        if quotes {
          out := out + [Quote(bids[0], asks[0])];
        }
        if deltas {
          out := out + [Depth(bids, asks)];
        }
      }
      ok := true;
    }

    method ConsumeBook(p: Payload, precise: bool) returns (ok: bool, out: seq<Output>)
      requires BookKept(book.Current())
      modifies book
      ensures
        var o := Spec.ConsumeBook(old(Current()), p, precise, matches);
        (ok <==> o.Some?) && (ok ==> Outcome(Current(), out) == o.value)
    {
      BookStepsKeep(book.Current(), if p.Rows? then p.rows else [], if p.OneRow? then p.row else Row(0, 0, 0), matches,
                    if p.ChecksumValue? then p.value else 0);
      match p
      case ChecksumValue(value) =>
        ok := book.Verify(matches, value);
        if !ok || !book.actionable {
          return false, [];
        }
        ok, out := PublishBook(precise);
      case Rows(rows) =>
        ok := book.ApplySnapshot(rows);
        if !ok {
          return false, [];
        }
        ok, out := PublishBook(precise);
      case OneRow(r) =>
        ok := book.ApplyDelta(r);
        out := [];
      case _ =>
        ok, out := false, [];
    }

    method ConsumeHeartbeat(channel: int, precise: bool) returns (ok: bool, out: seq<Output>)
      requires BookKept(book.Current())
      modifies this`preAck
      ensures
        var o := Spec.ConsumeHeartbeat(old(Current()), channel, precise);
        (ok <==> o.Some?) && (ok ==> Outcome(Current(), out) == o.value)
    {
      if booking.bound == Some(channel) {
        // A bound channel is FIFO: its heartbeat observes the same book again.
        if quotes && book.actionable {
          var fine, bids, asks := book.Levels();
          if !fine || !precise {
            return false, [];
          }
          LevelsAreTop(book.Current(), bids, asks);
          return true, [Quote(bids[0], asks[0])];
        }
        return true, [];
      }
      if funding.bound == Some(channel) {
        return true, [];
      }
      var pendingAcks := Waiting(booking) + Waiting(funding);
      if pendingAcks > 0 && channel in preAck {
        return true, [];
      }
      if |preAck| < pendingAcks {
        preAck := preAck + {channel};
        return true, [];
      }
      return false, [];
    }

    method ConsumeSubscribed(kind: Channel, agrees: bool, id: int) returns (ok: bool)
      modifies this, book
      ensures
        var o := Spec.ConsumeSubscribed(old(Current()), kind, agrees, id);
        (ok <==> o.Some?) && (ok ==> Current() == o.value)
    {
      var s := if kind.BookChannel? then booking else funding;
      if !s.requested || s.bound.Some? || !agrees || id <= 0 || Has(booking, id) || Has(funding, id) {
        return false;
      }
      var remaining := Waiting(booking) + Waiting(funding) - 1;
      if id !in preAck && |preAck| > remaining {
        return false;
      }
      preAck := preAck - {id};
      if kind.BookChannel? {
        booking := booking.(bound := Some(id));
        book.Clear();
        if booking.unsubOnAck {
          booking := Sub(false, None, Some(id), false);
        }
      } else {
        funding := funding.(bound := Some(id));
        if funding.unsubOnAck {
          funding := Sub(false, None, Some(id), false);
        }
      }
      return true;
    }

    method ConsumeUnsubscribed(acknowledged: bool, id: int) returns (ok: bool)
      modifies this, book
      ensures
        var o := Spec.ConsumeUnsubscribed(old(Current()), acknowledged, id);
        (ok <==> o.Some?) && (ok ==> Current() == o.value)
    {
      if !acknowledged {
        return false;
      }
      if booking.pending == Some(id) {
        booking := booking.(pending := None);
        return true;
      }
      if funding.pending == Some(id) {
        funding := funding.(pending := None);
        return true;
      }
      if booking.bound == Some(id) {
        if booking.requested || quotes || deltas {
          return false;
        }
        booking := booking.(bound := None);
        book.Clear();
        return true;
      }
      if funding.bound == Some(id) {
        if funding.requested || rates {
          return false;
        }
        funding := funding.(bound := None);
        return true;
      }
      return false;
    }

    method ConsumeData(channel: int, p: Payload, precise: bool) returns (ok: bool, out: seq<Output>)
      requires BookKept(book.Current())
      modifies this`preAck, book
      ensures
        var o := Spec.ConsumeData(old(Current()), channel, p, precise, matches);
        (ok <==> o.Some?) && (ok ==> Outcome(Current(), out) == o.value)
    {
      if booking.pending == Some(channel) || funding.pending == Some(channel) {
        return true, [];
      }
      if p.Heartbeat? {
        ok, out := ConsumeHeartbeat(channel, precise);
      } else if booking.bound == Some(channel) {
        ok, out := ConsumeBook(p, precise);
      } else if funding.bound == Some(channel) {
        ok := p.FundingStatus? && p.valid;
        out := if rates then [Rate] else [];
      } else {
        ok, out := false, [];
      }
    }

    /** One frame of the read loop: a frame that raises closes the feed. */
    method Receive(frame: Frame) returns (out: seq<Output>)
      requires BookKept(book.Current())
      modifies this, book
      ensures Outcome(Current(), out) == Step(old(Current()), Received(frame), matches)
    {
      var ok;
      out := [];
      match frame {
        case Data(channel, p, precise) => ok, out := ConsumeData(channel, p, precise);
        case Subscribed(kind, agrees, id) => ok := ConsumeSubscribed(kind, agrees, id);
        case Unsubscribed(acknowledged, id) => ok := ConsumeUnsubscribed(acknowledged, id);
        case OtherControl(fine) => ok := fine;
      }
      if !ok {
        FailClosed();
        out := [];
      }
    }

    // ---------------------------------------------------------------- commands

    method LeaveBookIfUnused()
      modifies this`booking, book
      ensures Current() == Spec.LeaveBookIfUnused(old(Current()))
    {
      if quotes || deltas {
        return;
      }
      book.Clear();
      booking := Leave(booking);
    }

    method Command(c: Command)
      modifies this, book
      ensures Current() == Obey(old(Current()), c)
    {
      match c
      case SubscribeQuotes =>
        quotes := true;
        booking := Ensure(booking);
      case SubscribeDepth =>
        deltas := true;
        booking := Ensure(booking);
      case SubscribeRates =>
        rates := true;
        funding := Ensure(funding);
      case UnsubscribeQuotes =>
        quotes := false;
        LeaveBookIfUnused();
      case UnsubscribeDepth =>
        deltas := false;
        LeaveBookIfUnused();
      case UnsubscribeRates =>
        rates := false;
        funding := Leave(funding);
    }
  }

  lemma {:induction false} PlacePrefix(rows: seq<Row>, i: nat)
    requires i < |rows| && PlaceAll(rows[..i + 1]) == None
    ensures PlaceAll(rows) == None
    decreases |rows|
  {
    if i + 1 < |rows| {
      assert rows[..|rows| - 1][..i + 1] == rows[..i + 1];
      PlacePrefix(rows[..|rows| - 1], i);
    } else {
      assert rows[..i + 1] == rows;
    }
  }
}
