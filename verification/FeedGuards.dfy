/** What a public frame must be to be consumed, and what it leaves. */
module FeedGuards {
  import opened Rounding
  import opened BookFeed

  // ---------------------------------------------------------------- rows

  /** A level row; a deletion carries exactly one unit of either sign. */
  predicate RowFits(r: Row) {
    r.price >= 1 && r.amount != 0 && (r.count >= 1 || (r.count == 0 && (r.amount == OUNCE || r.amount == -OUNCE)))
  }

  function BidRows(rows: seq<Row>): nat {
    if rows == [] then 0 else BidRows(rows[..|rows| - 1]) + if rows[|rows| - 1].amount > 0 then 1 else 0
  }

  /** No deletion, and no price twice. */
  predicate LevelsFit(rows: seq<Row>) {
    && (forall i :: 0 <= i < |rows| ==> rows[i].price >= 1 && rows[i].count >= 1 && rows[i].amount != 0)
    && (forall i, j :: 0 <= i < |rows| && 0 <= j < |rows| && rows[i].price == rows[j].price ==> i == j)
  }

  lemma FrontFits(rows: seq<Row>)
    requires rows != []
    ensures
      var front, r := rows[..|rows| - 1], rows[|rows| - 1];
      LevelsFit(rows) <==>
        && LevelsFit(front) && r.price >= 1 && r.count >= 1 && r.amount != 0
        && forall i :: 0 <= i < |front| ==> front[i].price != r.price
  {
    var front, r := rows[..|rows| - 1], rows[|rows| - 1];
    assert rows == front + [r];
    if LevelsFit(rows) {
      forall i | 0 <= i < |front| ensures front[i].price != r.price {
        assert front[i] == rows[i];
      }
    }
  }

  lemma {:induction false} PlacedIff(rows: seq<Row>)
    ensures PlaceAll(rows).Some? <==> LevelsFit(rows)
    ensures PlaceAll(rows).Some? ==>
      && |PlaceAll(rows).value.bids| == BidRows(rows) && |PlaceAll(rows).value.asks| == |rows| - BidRows(rows)
      && forall p :: p in PlaceAll(rows).value.bids || p in PlaceAll(rows).value.asks <==> HasPrice(rows, p)
  {
    if rows != [] {
      var front, r := rows[..|rows| - 1], rows[|rows| - 1];
      PlacedIff(front);
      FrontFits(rows);
      assert rows == front + [r];
      forall p ensures HasPrice(rows, p) <==> HasPrice(front, p) || r.price == p {
        PriceGrows(rows, p);
      }
      assert HasPrice(front, r.price) <==> exists i :: 0 <= i < |front| && front[i].price == r.price;
      if PlaceAll(rows).Some? {
        NewKeyCounts(PlaceAll(front).value.bids, r.price, r.amount);
        NewKeyCounts(PlaceAll(front).value.asks, r.price, r.amount);
      }
    }
  }

  predicate HasPrice(rows: seq<Row>, price: int) {
    exists i :: 0 <= i < |rows| && rows[i].price == price
  }

  lemma PriceGrows(rows: seq<Row>, price: int)
    requires rows != []
    ensures HasPrice(rows, price) <==> HasPrice(rows[..|rows| - 1], price) || rows[|rows| - 1].price == price
  {
    var front := rows[..|rows| - 1];
    if HasPrice(front, price) {
      var i :| 0 <= i < |front| && front[i].price == price;
      assert rows[i].price == price;
    }
  }

  /** A snapshot is taken exactly when it has 25 levels a side, each a new price. */
  lemma SnapshotTakenIff(rows: seq<Row>)
    ensures ApplySnapshot(rows).Some? <==> |rows| == 50 && BidRows(rows) == 25 && LevelsFit(rows)
    ensures ApplySnapshot(rows).Some? ==>
      ApplySnapshot(rows).value == Book(PlaceAll(rows).value.bids, PlaceAll(rows).value.asks, true, true)
  {
    PlacedIff(rows);
  }

  ghost predicate SameElsewhere(a: Side, b: Side, price: int) {
    forall p :: p != price ==> (p in a <==> p in b) && (p in a ==> a[p] == b[p])
  }

  /** A delta is taken exactly after a snapshot and as a level row.  It changes one price: a deletion
      takes it off the side of its sign, a level goes onto that side and off the other; and the book is
      no longer certified. */
  lemma DeltaTakenIff(b: Book, r: Row)
    ensures ApplyDelta(b, r).Some? <==> b.hasSnapshot && RowFits(r)
    ensures ApplyDelta(b, r).Some? ==>
      var c := ApplyDelta(b, r).value;
      && c.hasSnapshot && !c.actionable && SameElsewhere(b.bids, c.bids, r.price) && SameElsewhere(b.asks, c.asks, r.price)
      && (if r.amount > 0 then
            if r.count == 0 then r.price !in c.bids && c.asks == b.asks
            else r.price in c.bids && c.bids[r.price] == r.amount && r.price !in c.asks
          else
            if r.count == 0 then r.price !in c.asks && c.bids == b.bids
            else r.price in c.asks && c.asks[r.price] == r.amount && r.price !in c.bids)
  {
  }

  /** A checksum is read exactly against a full snapshot, and decides the certificate. */
  lemma ChecksumTakenIff(b: Book, matches: Checksum, value: int)
    ensures Verify(b, matches, value).Some? <==> b.hasSnapshot && |b.bids| >= 25 && |b.asks| >= 25
    ensures Verify(b, matches, value).Some? ==>
      Verify(b, matches, value).value == b.(actionable := matches(b.bids, b.asks, value))
  {
  }

  // ---------------------------------------------------------------- publishing

  /** What the subscribers get of a book: a quote if they asked for quotes, the levels if for levels. */
  ghost predicate Published(f: Feed, out: seq<Output>) {
    && |out| == (if f.quotes then 1 else 0) + (if f.deltas then 1 else 0)
    && (f.quotes ==> Full(f.book) && out[0] == QuoteOf(f.book))
    && (f.deltas ==> Full(f.book) && out[|out| - 1] == DepthOf(f.book))
  }

  /** Something is asked for, and the book is crossed or cannot be represented. */
  ghost predicate Unpublishable(f: Feed, b: Book, precise: bool) {
    (f.quotes || f.deltas) && !(precise && forall p, q :: p in b.bids && q in b.asks ==> p < q)
  }

  /** A book frame on the book's channel: a snapshot or a checksum certifies and is published, a delta
      is not published; a failed checksum, a book that cannot be published and any other frame close
      the feed. */
  lemma BookFrameIff(f: Feed, p: Payload, precise: bool, matches: Checksum)
    ensures ConsumeBook(f, p, precise, matches).Some? <==>
      match p
      case Rows(rows) => ApplySnapshot(rows).Some? && !Unpublishable(f, ApplySnapshot(rows).value, precise)
      case OneRow(r) => f.book.hasSnapshot && RowFits(r)
      case ChecksumValue(value) =>
        && f.book.hasSnapshot && |f.book.bids| >= 25 && |f.book.asks| >= 25
        && matches(f.book.bids, f.book.asks, value) && !Unpublishable(f, f.book, precise)
      case _ => false
    ensures ConsumeBook(f, p, precise, matches).Some? ==>
      var o := ConsumeBook(f, p, precise, matches).value;
      && (p.OneRow? ==> o.out == [] && o.feed == f.(book := ApplyDelta(f.book, p.row).value))
      && (p.Rows? ==> Published(o.feed, o.out) && o.feed == f.(book := ApplySnapshot(p.rows).value))
      && (p.ChecksumValue? ==> Published(o.feed, o.out) && o.feed == f.(book := f.book.(actionable := true)))
  {
  }

  // ---------------------------------------------------------------- which frame goes where

  /** What awaits its acknowledgment. */
  predicate Awaits(s: Sub) {
    s.requested && s.bound == None
  }

  /** A heartbeat is taken on a bound channel, from one that sent before, or, while fewer channels sent
      early than acknowledgments are awaited, from a new one, which is remembered.  On the certified
      book's channel it publishes the quote again. */
  lemma HeartbeatTakenIff(f: Feed, channel: int, precise: bool)
    ensures
      var awaited := (if Awaits(f.booking) then 1 else 0) + (if Awaits(f.funding) then 1 else 0);
      var repeats := f.booking.bound == Some(channel) && f.quotes && f.book.actionable;
      var early := f.booking.bound != Some(channel) && f.funding.bound != Some(channel);
      var known := early && awaited > 0 && channel in f.preAck;
      && (ConsumeHeartbeat(f, channel, precise).Some? <==>
            if early then known || |f.preAck| < awaited
            else repeats ==> precise && Full(f.book) && forall p, q :: p in f.book.bids && q in f.book.asks ==> p < q)
      && (ConsumeHeartbeat(f, channel, precise).Some? ==>
            ConsumeHeartbeat(f, channel, precise).value ==
              Outcome(if early && !known then f.(preAck := f.preAck + {channel}) else f, if repeats then [QuoteOf(f.book)] else []))
  {
  }

  /** A data frame of a channel on its way out is ignored; a heartbeat, a book frame and a funding status
      go to what is bound to their channel; a frame of no channel closes the feed. */
  lemma DataGoes(f: Feed, channel: int, p: Payload, precise: bool, matches: Checksum)
    ensures
      var r := ConsumeData(f, channel, p, precise, matches);
      if channel in Leaving(f) then r == Some(Outcome(f, []))
      else if p == Heartbeat then r == ConsumeHeartbeat(f, channel, precise)
      else if f.booking.bound == Some(channel) then r == ConsumeBook(f, p, precise, matches)
      else if f.funding.bound == Some(channel) && p == FundingStatus(true) then
        r == Some(Outcome(f, if f.rates then [Rate] else []))
      else r == None
  {
  }

  /** Channels that await the acknowledgment of their unsubscribe. */
  function Leaving(f: Feed): set<int> {
    (if f.booking.pending.Some? then {f.booking.pending.value} else {})
    + (if f.funding.pending.Some? then {f.funding.pending.value} else {})
  }

  function Channels(f: Feed): set<int> {
    Leaving(f) + (if f.booking.bound.Some? then {f.booking.bound.value} else {})
    + (if f.funding.bound.Some? then {f.funding.bound.value} else {})
  }

  // ---------------------------------------------------------------- acknowledgments and commands

  /** What an acknowledged subscription becomes: bound, or on its way out if it was left meanwhile. */
  function Bound(s: Sub, id: int): Sub {
    Sub(!s.unsubOnAck, if s.unsubOnAck then None else Some(id), if s.unsubOnAck then Some(id) else s.pending, false)
  }

  lemma BoundIs(s: Sub, id: int)
    requires Awaits(s)
    ensures Acknowledged(s, id) == Bound(s, id)
  {
  }

  /** An acknowledgment is taken exactly for an awaited subscription, as it was asked for, on a positive
      channel that is not in use, unless all the early channels are already others. */
  lemma SubscribedTakenIff(f: Feed, kind: Channel, agrees: bool, id: int)
    ensures
      var awaited := (if Awaits(f.booking) then 1 else 0) + (if Awaits(f.funding) then 1 else 0);
      ConsumeSubscribed(f, kind, agrees, id).Some? <==>
        && Awaits(if kind == BookChannel then f.booking else f.funding) && agrees && id >= 1
        && id !in Channels(f) && (id in f.preAck || |f.preAck| < awaited)
  {
  }

  /** It binds the subscription; a new book channel starts with an empty book. */
  lemma SubscribedLeaves(f: Feed, kind: Channel, agrees: bool, id: int, g: Feed)
    requires ConsumeSubscribed(f, kind, agrees, id) == Some(g)
    ensures g.preAck == f.preAck - {id} && g.quotes == f.quotes && g.deltas == f.deltas && g.rates == f.rates
    ensures kind == BookChannel ==> g.booking == Bound(f.booking, id) && g.funding == f.funding && g.book == EMPTY_BOOK
    ensures kind == FundingChannel ==> g.funding == Bound(f.funding, id) && g.booking == f.booking && g.book == f.book
  {
    BoundIs(if kind == BookChannel then f.booking else f.funding, id);
  }

  /** While channels are kept apart, an unsubscribe acknowledgment is taken exactly for a channel on its
      way out, which it forgets. */
  lemma UnsubscribedTakenIff(f: Feed, ok: bool, id: int)
    requires FeedKept(f)
    ensures
      ConsumeUnsubscribed(f, ok, id) ==
        if !ok || id !in Leaving(f) then None
        else if f.booking.pending == Some(id) then Some(f.(booking := f.booking.(pending := None)))
        else Some(f.(funding := f.funding.(pending := None)))
  {
  }

  /** What a subscription becomes when it is left: nothing if it was not asked for; on its way out once
      acknowledged if it still awaits that; or on its way out now. */
  function Left(s: Sub): Sub {
    if !s.requested then s
    else if s.bound == None then Sub(true, None, s.pending, true)
    else Sub(false, None, s.bound, s.unsubOnAck)
  }

  /** A command turns on or off what its subscriber gets.  The book channel is shared: it is left, and
      its book emptied, only when neither quotes nor levels are asked for any more. */
  lemma CommandLeaves(f: Feed, c: Command)
    ensures
      var quotes := if c == SubscribeQuotes then true else if c == UnsubscribeQuotes then false else f.quotes;
      var deltas := if c == SubscribeDepth then true else if c == UnsubscribeDepth then false else f.deltas;
      var rates := if c == SubscribeRates then true else if c == UnsubscribeRates then false else f.rates;
      var asks := c == SubscribeQuotes || c == SubscribeDepth;
      var leaves := (c == UnsubscribeQuotes || c == UnsubscribeDepth) && !quotes && !deltas;
      var booking := if asks then Sub(true, f.booking.bound, f.booking.pending, false)
                     else if leaves then Left(f.booking) else f.booking;
      var funding := if c == SubscribeRates then Sub(true, f.funding.bound, f.funding.pending, false)
                     else if c == UnsubscribeRates then Left(f.funding) else f.funding;
      Obey(f, c) == Feed(if leaves then EMPTY_BOOK else f.book, booking, funding, f.preAck, quotes, deltas, rates)
  {
  }
}
