/** The public book feed: a checksum-gated book of 25 levels a side, and the channels it and the
    funding status arrive on. */
module BookFeed {
  import opened Rounding

  const DEPTH := 25

  // ---------------------------------------------------------------- the book

  /** A level row: `count` zero deletes.  Amounts are in units, positive for bids. */
  datatype Row = Row(price: int, count: int, amount: int)

  type Side = map<int, int>

  datatype Book = Book(bids: Side, asks: Side, hasSnapshot: bool, actionable: bool)

  const EMPTY_BOOK := Book(map[], map[], false, false)

  predicate RowValid(r: Row) {
    r.price > 0 && r.count >= 0 && r.amount != 0 && (r.count == 0 ==> r.amount == OUNCE || r.amount == -OUNCE)
  }

  datatype Sides = Sides(bids: Side, asks: Side)

  /** Snapshot rows are placed one by one; a repeated price or a deletion is refused. */
  function PlaceAll(rows: seq<Row>): Option<Sides> {
    if rows == [] then Some(Sides(map[], map[]))
    else
      var before, r := PlaceAll(rows[..|rows| - 1]), rows[|rows| - 1];
      if before == None || !RowValid(r) || r.count == 0 || r.price in before.value.bids || r.price in before.value.asks
      then None
      else if r.amount > 0 then Some(before.value.(bids := before.value.bids[r.price := r.amount]))
      else Some(before.value.(asks := before.value.asks[r.price := r.amount]))
  }

  function ApplySnapshot(rows: seq<Row>): Option<Book> {
    var placed := PlaceAll(rows);
    if |rows| != 2 * DEPTH || placed == None || |placed.value.bids| != DEPTH || |placed.value.asks| != DEPTH then None
    else Some(Book(placed.value.bids, placed.value.asks, true, true))
  }

  function ApplyDelta(b: Book, r: Row): Option<Book> {
    if !b.hasSnapshot || !RowValid(r) then None
    else if r.count == 0 then
      if r.amount > 0 then Some(b.(bids := b.bids - {r.price}, actionable := false))
      else Some(b.(asks := b.asks - {r.price}, actionable := false))
    else if r.amount > 0 then
      Some(b.(bids := b.bids[r.price := r.amount], asks := b.asks - {r.price}, actionable := false))
    else Some(b.(asks := b.asks[r.price := r.amount], bids := b.bids - {r.price}, actionable := false))
  }

  /** The venue's checksum over the best levels of the two sides; its arithmetic is not modelled. */
  type Checksum = (Side, Side, int) -> bool

  function Verify(b: Book, matches: Checksum, value: int): Option<Book> {
    if !b.hasSnapshot || |b.bids| < DEPTH || |b.asks| < DEPTH then None
    else Some(b.(actionable := matches(b.bids, b.asks, value)))
  }

  predicate Uncrossed(b: Book) {
    forall p, q :: p in b.bids && q in b.asks ==> p < q
  }

  /** No price on both sides, bids positive, asks negative. */
  predicate SidesKept(bids: Side, asks: Side) {
    && (forall p :: p in bids ==> p !in asks && p > 0 && bids[p] > 0)
    && (forall p :: p in asks ==> p > 0 && asks[p] < 0)
  }

  predicate Full(b: Book) {
    |b.bids| >= DEPTH && |b.asks| >= DEPTH
  }

  /** An actionable book is full. */
  predicate BookKept(b: Book) {
    && SidesKept(b.bids, b.asks)
    && (b.actionable ==> b.hasSnapshot && Full(b))
    && (!b.hasSnapshot ==> b.bids == map[] && b.asks == map[])
  }

  lemma {:induction false} PlaceKeeps(rows: seq<Row>)
    requires PlaceAll(rows).Some?
    ensures SidesKept(PlaceAll(rows).value.bids, PlaceAll(rows).value.asks)
  {
    if rows != [] {
      PlaceKeeps(rows[..|rows| - 1]);
    }
  }

  predicate Placed(r: Row, sides: Sides) {
    if r.amount > 0 then r.price in sides.bids && sides.bids[r.price] == r.amount
    else r.price in sides.asks && sides.asks[r.price] == r.amount
  }

  /** Every row of an accepted snapshot is a level of its side, and there are no others. */
  lemma {:induction false} SnapshotIsItsRows(rows: seq<Row>, i: int)
    requires PlaceAll(rows).Some?
    ensures 0 <= i < |rows| ==> RowValid(rows[i]) && rows[i].count > 0 && Placed(rows[i], PlaceAll(rows).value)
    ensures |PlaceAll(rows).value.bids| + |PlaceAll(rows).value.asks| == |rows|
  {
    if rows != [] {
      var before, r := PlaceAll(rows[..|rows| - 1]).value, rows[|rows| - 1];
      SnapshotIsItsRows(rows[..|rows| - 1], i);
      if r.amount > 0 {
        NewKeyCounts(before.bids, r.price, r.amount);
      } else {
        NewKeyCounts(before.asks, r.price, r.amount);
      }
    }
  }

  lemma NewKeyCounts(side: Side, price: int, amount: int)
    requires price !in side
    ensures |side[price := amount]| == |side| + 1
  {
    assert side[price := amount].Keys == side.Keys + {price};
  }

  lemma BookStepsKeep(b: Book, rows: seq<Row>, r: Row, matches: Checksum, value: int)
    requires BookKept(b)
    ensures ApplySnapshot(rows).Some? ==> BookKept(ApplySnapshot(rows).value)
    ensures ApplyDelta(b, r).Some? ==> BookKept(ApplyDelta(b, r).value)
    ensures Verify(b, matches, value).Some? ==> BookKept(Verify(b, matches, value).value)
  {
    if ApplySnapshot(rows).Some? {
      PlaceKeeps(rows);
    }
  }

  datatype Level = Level(price: int, size: int)

  // ---------------------------------------------------------------- the best levels of a side

  /** `a` is quoted before `b`. */
  predicate Better(a: int, b: int, bids: bool) {
    if bids then a > b else a < b
  }

  predicate StrictlySorted(prices: seq<int>, bids: bool) {
    forall i, j :: 0 <= i < j < |prices| ==> Better(prices[i], prices[j], bids)
  }

  function InsertPrice(p: int, prices: seq<int>, bids: bool): seq<int> {
    if prices == [] || Better(p, prices[0], bids) then [p] + prices
    else [prices[0]] + InsertPrice(p, prices[1..], bids)
  }

  lemma {:induction false} InsertPriceKeeps(p: int, prices: seq<int>, bids: bool)
    requires StrictlySorted(prices, bids) && p !in prices
    ensures StrictlySorted(InsertPrice(p, prices, bids), bids)
    ensures |InsertPrice(p, prices, bids)| == |prices| + 1
    ensures forall q :: q in InsertPrice(p, prices, bids) <==> q in prices || q == p
  {
    if prices != [] && !Better(p, prices[0], bids) {
      var rest := InsertPrice(p, prices[1..], bids);
      InsertPriceKeeps(p, prices[1..], bids);
      assert prices == [prices[0]] + prices[1..];
      forall j | 0 <= j < |rest| ensures Better(prices[0], rest[j], bids) {
        assert rest[j] in rest;
      }
    }
  }

  /** The best levels of a side: strictly sorted, with the side's sizes, and nothing better left out. */
  ghost predicate Best(levels: seq<Level>, side: Side, bids: bool, depth: nat) {
    && |levels| == depth
    && (forall i, j :: 0 <= i < j < |levels| ==> Better(levels[i].price, levels[j].price, bids))
    && (forall i :: 0 <= i < |levels| ==> levels[i].price in side && levels[i].size == Abs(side[levels[i].price]))
    && (forall p :: p in side ==>
      (exists i :: 0 <= i < |levels| && levels[i].price == p)
      || forall i :: 0 <= i < |levels| ==> Better(levels[i].price, p, bids))
  }

  ghost predicate Lists(prices: seq<int>, side: set<int>) {
    |prices| == |side| && forall p :: p in prices <==> p in side
  }

  lemma {:induction false} SortedExists(side: set<int>, bids: bool) returns (prices: seq<int>)
    ensures StrictlySorted(prices, bids) && Lists(prices, side)
    decreases |side|
  {
    SomeElement(side);
    if side == {} {
      prices := [];
    } else {
      var p :| p in side;
      var rest := SortedExists(side - {p}, bids);
      InsertPriceKeeps(p, rest, bids);
      prices := InsertPrice(p, rest, bids);
    }
  }

  function LevelsAt(side: Side, prices: seq<int>): seq<Level>
    requires forall i :: 0 <= i < |prices| ==> prices[i] in side
  {
    seq(|prices|, i requires 0 <= i < |prices| => Level(prices[i], Abs(side[prices[i]])))
  }

  /** The front of the sorted prices are the best levels. */
  lemma FrontIsBest(side: Side, prices: seq<int>, bids: bool, depth: nat)
    requires StrictlySorted(prices, bids) && Lists(prices, side.Keys) && depth <= |prices|
    ensures forall i :: 0 <= i < depth ==> prices[..depth][i] in side
    ensures Best(LevelsAt(side, prices[..depth]), side, bids, depth)
  {
    forall i | 0 <= i < depth ensures prices[..depth][i] in side {
      assert prices[i] in prices;
    }
    var levels := LevelsAt(side, prices[..depth]);
    forall p | p in side
      ensures (exists i :: 0 <= i < |levels| && levels[i].price == p)
        || forall i :: 0 <= i < |levels| ==> Better(levels[i].price, p, bids)
    {
      assert p in prices;
      var k :| 0 <= k < |prices| && prices[k] == p;
      if k < depth {
        assert levels[k].price == p;
      }
    }
  }

  function PricesOf(levels: seq<Level>): set<int> {
    set i | 0 <= i < |levels| :: levels[i].price
  }

  lemma {:induction false} PricesCount(levels: seq<Level>, bids: bool)
    requires forall i, j :: 0 <= i < j < |levels| ==> Better(levels[i].price, levels[j].price, bids)
    ensures |PricesOf(levels)| == |levels|
  {
    if levels != [] {
      var front, last := levels[..|levels| - 1], levels[|levels| - 1];
      PricesCount(front, bids);
      PricesFront(levels, bids);
      assert last.price in PricesOf(levels);
      assert PricesOf(levels) == PricesOf(front) + {last.price};
    }
  }

  // A price left out is worse than every best level.
  lemma LeftOutIsWorse(levels: seq<Level>, side: Side, bids: bool, depth: nat, p: int, q: int)
    requires Best(levels, side, bids, depth) && p in side && p !in PricesOf(levels) && q in PricesOf(levels)
    ensures Better(q, p, bids)
  {
    var j :| 0 <= j < |levels| && levels[j].price == q;
    assert forall i :: 0 <= i < |levels| ==> levels[i].price in PricesOf(levels);
  }

  lemma SomeLeftOut(a: set<int>, b: set<int>, p: int) returns (q: int)
    requires |a| == |b| && p in a && p !in b
    ensures q in b && q !in a
  {
    if forall x :: x in b ==> x in a {
      SubsetSize(b + {p}, a);
      assert false;
    }
    q :| q in b && q !in a;
  }

  // Neither of two best lists can hold a price the other leaves out.
  lemma BestPricesWithin(a: seq<Level>, b: seq<Level>, side: Side, bids: bool, depth: nat)
    requires Best(a, side, bids, depth) && Best(b, side, bids, depth)
    ensures PricesOf(a) <= PricesOf(b)
  {
    PricesCount(a, bids);
    PricesCount(b, bids);
    PricesInSide(a, side, bids, depth);
    PricesInSide(b, side, bids, depth);
    if p :| p in PricesOf(a) && p !in PricesOf(b) {
      var q := SomeLeftOut(PricesOf(a), PricesOf(b), p);
      LeftOutIsWorse(b, side, bids, depth, p, q);
      LeftOutIsWorse(a, side, bids, depth, q, p);
    }
  }

  lemma PricesInSide(levels: seq<Level>, side: Side, bids: bool, depth: nat)
    requires Best(levels, side, bids, depth)
    ensures PricesOf(levels) <= side.Keys
  {
  }

  lemma {:induction false} SubsetSize(a: set<int>, b: set<int>)
    requires a <= b
    ensures |a| <= |b|
  {
    assert b == a + (b - a);
  }

  lemma {:induction false} SortedPricesAgree(a: seq<Level>, b: seq<Level>, bids: bool)
    requires forall i, j :: 0 <= i < j < |a| ==> Better(a[i].price, a[j].price, bids)
    requires forall i, j :: 0 <= i < j < |b| ==> Better(b[i].price, b[j].price, bids)
    requires PricesOf(a) == PricesOf(b) && |a| == |b|
    ensures forall i :: 0 <= i < |a| ==> a[i].price == b[i].price
  {
    if a != [] {
      var n := |a| - 1;
      LastAgrees(a, b, bids);
      PricesFront(a, bids);
      PricesFront(b, bids);
      SortedPricesAgree(a[..n], b[..n], bids);
      assert forall i :: 0 <= i < n ==> a[i] == a[..n][i] && b[i] == b[..n][i];
    }
  }

  lemma PricesFront(a: seq<Level>, bids: bool)
    requires a != [] && forall i, j :: 0 <= i < j < |a| ==> Better(a[i].price, a[j].price, bids)
    ensures PricesOf(a[..|a| - 1]) == PricesOf(a) - {a[|a| - 1].price}
  {
    var n := |a| - 1;
    forall p | p in PricesOf(a) - {a[n].price} ensures p in PricesOf(a[..n]) {
      var i :| 0 <= i < |a| && a[i].price == p;
      assert a[..n][i].price == p;
    }
  }

  lemma LastAgrees(a: seq<Level>, b: seq<Level>, bids: bool)
    requires a != [] && |a| == |b| && PricesOf(a) == PricesOf(b)
    requires forall i, j :: 0 <= i < j < |a| ==> Better(a[i].price, a[j].price, bids)
    requires forall i, j :: 0 <= i < j < |b| ==> Better(b[i].price, b[j].price, bids)
    ensures a[|a| - 1].price == b[|b| - 1].price
  {
    assert a[|a| - 1].price in PricesOf(b);
    var i :| 0 <= i < |b| && b[i].price == a[|a| - 1].price;
    assert b[|b| - 1].price in PricesOf(a);
    var j :| 0 <= j < |a| && a[j].price == b[|b| - 1].price;
  }

  /** A side has only one list of best levels. */
  lemma BestUnique(a: seq<Level>, b: seq<Level>, side: Side, bids: bool, depth: nat)
    requires Best(a, side, bids, depth) && Best(b, side, bids, depth)
    ensures a == b
  {
    BestPricesWithin(a, b, side, bids, depth);
    BestPricesWithin(b, a, side, bids, depth);
    SortedPricesAgree(a, b, bids);
    assert forall i :: 0 <= i < depth ==> a[i] == b[i];
  }

  lemma BestExists(side: Side, bids: bool, depth: nat)
    requires depth <= |side|
    ensures exists levels :: Best(levels, side, bids, depth)
  {
    var prices := SortedExists(side.Keys, bids);
    FrontIsBest(side, prices, bids, depth);
  }

  /** The best levels of a side. */
  ghost function TopLevels(side: Side, bids: bool, depth: nat): (levels: seq<Level>)
    requires depth <= |side|
    ensures Best(levels, side, bids, depth)
  {
    BestExists(side, bids, depth);
    var levels :| Best(levels, side, bids, depth);
    levels
  }

  // ---------------------------------------------------------------- the channels

  datatype Channel = BookChannel | FundingChannel

  /** One of the two subscriptions: bound channel, channel awaiting its unsubscribe ACK, and whether
      the next ACK must be answered by an unsubscribe. */
  datatype Sub = Sub(requested: bool, bound: Option<int>, pending: Option<int>, unsubOnAck: bool)

  const NO_SUB := Sub(false, None, None, false)

  datatype Feed = Feed(book: Book, booking: Sub, funding: Sub, preAck: set<int>,
                       quotes: bool, deltas: bool, rates: bool)

  const CLOSED := Feed(EMPTY_BOOK, NO_SUB, NO_SUB, {}, false, false, false)

  function Waiting(s: Sub): nat {
    if s.requested && s.bound == None then 1 else 0
  }

  function PendingAcks(f: Feed): nat {
    Waiting(f.booking) + Waiting(f.funding)
  }

  predicate Has(s: Sub, id: int) {
    s.bound == Some(id) || s.pending == Some(id)
  }

  predicate Occupied(f: Feed, id: int) {
    Has(f.booking, id) || Has(f.funding, id)
  }

  /** What a frame publishes: the best level of each side, or all published levels. */
  datatype Output = Quote(bid: Level, ask: Level) | Depth(bids: seq<Level>, asks: seq<Level>) | Rate

  datatype Outcome = Outcome(feed: Feed, out: seq<Output>)

  datatype Payload =
    | Heartbeat
    | Rows(rows: seq<Row>)
    | OneRow(row: Row)
    | ChecksumValue(value: int)
    | FundingStatus(valid: bool)
    | Malformed

  /** `precise`: the configured precision represents the published numbers. */
  datatype Frame =
    | Data(channel: int, payload: Payload, precise: bool)
    | Subscribed(kind: Channel, agrees: bool, id: int)
    | Unsubscribed(ok: bool, id: int)
    | OtherControl(ok: bool)

  /** The quote and the snapshot of a full book. */
  ghost function QuoteOf(b: Book): Output
    requires Full(b)
  {
    Quote(TopLevels(b.bids, true, DEPTH)[0], TopLevels(b.asks, false, DEPTH)[0])
  }

  ghost function DepthOf(b: Book): Output
    requires Full(b)
  {
    Depth(TopLevels(b.bids, true, DEPTH), TopLevels(b.asks, false, DEPTH))
  }

  ghost function Publish(f: Feed, precise: bool): Option<Outcome> {
    if !f.quotes && !f.deltas then Some(Outcome(f, []))
    else if !f.book.actionable || !Full(f.book) || !Uncrossed(f.book) || !precise then None
    else Some(Outcome(f, (if f.quotes then [QuoteOf(f.book)] else []) + (if f.deltas then [DepthOf(f.book)] else [])))
  }

  ghost function ConsumeBook(f: Feed, p: Payload, precise: bool, matches: Checksum): Option<Outcome> {
    match p
    case ChecksumValue(value) =>
      (match Verify(f.book, matches, value)
       case None => None
       case Some(b) => if !b.actionable then None else Publish(f.(book := b), precise))
    case Rows(rows) =>
      (match ApplySnapshot(rows)
       case None => None
       case Some(b) => Publish(f.(book := b), precise))
    case OneRow(r) =>
      (match ApplyDelta(f.book, r)
       case None => None
       case Some(b) => Some(Outcome(f.(book := b), [])))
    case _ => None
  }

  ghost function ConsumeHeartbeat(f: Feed, channel: int, precise: bool): Option<Outcome> {
    if f.booking.bound == Some(channel) then
      if f.quotes && f.book.actionable then
        (if Full(f.book) && Uncrossed(f.book) && precise then Some(Outcome(f, [QuoteOf(f.book)])) else None)
      else Some(Outcome(f, []))
    else if f.funding.bound == Some(channel) then Some(Outcome(f, []))
    else if PendingAcks(f) > 0 && channel in f.preAck then Some(Outcome(f, []))
    else if |f.preAck| < PendingAcks(f) then Some(Outcome(f.(preAck := f.preAck + {channel}), []))
    else None
  }

  ghost function ConsumeData(f: Feed, channel: int, p: Payload, precise: bool, matches: Checksum): Option<Outcome> {
    if f.booking.pending == Some(channel) || f.funding.pending == Some(channel) then Some(Outcome(f, []))
    else if p.Heartbeat? then ConsumeHeartbeat(f, channel, precise)
    else if f.booking.bound == Some(channel) then ConsumeBook(f, p, precise, matches)
    else if f.funding.bound == Some(channel) then
      (if p.FundingStatus? && p.valid then Some(Outcome(f, if f.rates then [Rate] else [])) else None)
    else None
  }

  function SubOf(f: Feed, kind: Channel): Sub {
    if kind.BookChannel? then f.booking else f.funding
  }

  /** The acknowledged channel is bound, or at once on its way out again. */
  function Acknowledged(s: Sub, id: int): Sub {
    if s.unsubOnAck then Sub(false, None, Some(id), false) else s.(bound := Some(id))
  }

  function ConsumeSubscribed(f: Feed, kind: Channel, agrees: bool, id: int): Option<Feed> {
    var s := SubOf(f, kind);
    if !s.requested || s.bound.Some? || !agrees || id <= 0 || Occupied(f, id) then None
    else if id !in f.preAck && |f.preAck| > PendingAcks(f) - 1 then None
    else
      var g := f.(preAck := f.preAck - {id});
      if kind.BookChannel? then Some(g.(booking := Acknowledged(s, id), book := EMPTY_BOOK))
      else Some(g.(funding := Acknowledged(s, id)))
  }

  function ConsumeUnsubscribed(f: Feed, ok: bool, id: int): Option<Feed> {
    if !ok then None
    else if f.booking.pending == Some(id) then Some(f.(booking := f.booking.(pending := None)))
    else if f.funding.pending == Some(id) then Some(f.(funding := f.funding.(pending := None)))
    else if f.booking.bound == Some(id) then
      if f.booking.requested || f.quotes || f.deltas then None
      else Some(f.(booking := f.booking.(bound := None), book := EMPTY_BOOK))
    else if f.funding.bound == Some(id) then
      if f.funding.requested || f.rates then None else Some(f.(funding := f.funding.(bound := None)))
    else None
  }

  function AsOutcome(f: Option<Feed>): Option<Outcome> {
    if f == None then None else Some(Outcome(f.value, []))
  }

  ghost function Consume(f: Feed, frame: Frame, matches: Checksum): Option<Outcome> {
    match frame
    case Data(channel, p, precise) => ConsumeData(f, channel, p, precise, matches)
    case Subscribed(kind, agrees, id) => AsOutcome(ConsumeSubscribed(f, kind, agrees, id))
    case Unsubscribed(ok, id) => AsOutcome(ConsumeUnsubscribed(f, ok, id))
    case OtherControl(ok) => if ok then Some(Outcome(f, [])) else None
  }

  // ---------------------------------------------------------------- commands

  function Ensure(s: Sub): Sub {
    if s.requested then s.(unsubOnAck := false) else s.(requested := true, unsubOnAck := false)
  }

  /** Unsubscribe now, or as soon as the subscription is acknowledged. */
  function Leave(s: Sub): Sub {
    if !s.requested then s
    else if s.bound == None then s.(unsubOnAck := true)
    else Sub(false, None, s.bound, s.unsubOnAck)
  }

  function LeaveBookIfUnused(f: Feed): Feed {
    if f.quotes || f.deltas then f else f.(book := EMPTY_BOOK, booking := Leave(f.booking))
  }

  datatype Command = SubscribeQuotes | SubscribeDepth | SubscribeRates | UnsubscribeQuotes | UnsubscribeDepth | UnsubscribeRates

  function Obey(f: Feed, c: Command): Feed {
    match c
    case SubscribeQuotes => f.(quotes := true, booking := Ensure(f.booking))
    case SubscribeDepth => f.(deltas := true, booking := Ensure(f.booking))
    case SubscribeRates => f.(rates := true, funding := Ensure(f.funding))
    case UnsubscribeQuotes => LeaveBookIfUnused(f.(quotes := false))
    case UnsubscribeDepth => LeaveBookIfUnused(f.(deltas := false))
    case UnsubscribeRates => f.(rates := false, funding := Leave(f.funding))
  }

  /** A frame that raises, a failed send and a disconnect all end in the closed state. */
  datatype Event = Received(frame: Frame) | Commanded(command: Command) | Failed

  ghost function Step(f: Feed, e: Event, matches: Checksum): Outcome {
    match e
    case Received(frame) =>
      (match Consume(f, frame, matches)
       case None => Outcome(CLOSED, [])
       case Some(o) => o)
    case Commanded(c) => Outcome(Obey(f, c), [])
    case Failed => Outcome(CLOSED, [])
  }

  // ---------------------------------------------------------------- what every step keeps

  predicate SubKept(s: Sub) {
    && (s.bound.Some? ==> s.requested && !s.unsubOnAck) && (s.unsubOnAck ==> s.requested)
    && (s.bound.Some? && s.pending.Some? ==> s.bound != s.pending)
  }

  /** Bound and pending channels are pairwise distinct; remembered heartbeats come from other
      channels, and there are never more of them than subscriptions awaiting their ACK. */
  ghost predicate ChannelsKept(s: Sub, t: Sub, preAck: set<int>) {
    && SubKept(s) && SubKept(t)
    && (forall id :: Has(s, id) ==> !Has(t, id))
    && (forall id :: id in preAck ==> !Has(s, id) && !Has(t, id))
    && |preAck| <= Waiting(s) + Waiting(t)
  }

  ghost predicate FeedKept(f: Feed) {
    && BookKept(f.book) && (f.book.actionable ==> f.booking.bound.Some?)
    && ChannelsKept(f.booking, f.funding, f.preAck)
  }

  lemma Mirrored(s: Sub, t: Sub, preAck: set<int>)
    requires ChannelsKept(s, t, preAck)
    ensures ChannelsKept(t, s, preAck)
  {
  }

  // A subscription may give up channels and wait for more, never take a channel by itself.
  lemma NarrowedKeeps(s: Sub, s': Sub, t: Sub, preAck: set<int>)
    requires ChannelsKept(s, t, preAck) && SubKept(s')
    requires (forall id :: Has(s', id) ==> Has(s, id)) && Waiting(s') >= Waiting(s)
    ensures ChannelsKept(s', t, preAck)
  {
  }

  lemma AcknowledgedKeeps(s: Sub, t: Sub, preAck: set<int>, id: int)
    requires ChannelsKept(s, t, preAck) && s.requested && s.bound == None && !Has(s, id) && !Has(t, id)
    requires id in preAck || |preAck| <= Waiting(s) + Waiting(t) - 1
    ensures ChannelsKept(Acknowledged(s, id), t, preAck - {id})
  {
    if id !in preAck {
      assert preAck - {id} == preAck;
    }
  }

  lemma LeaveKeeps(s: Sub, t: Sub, preAck: set<int>)
    requires ChannelsKept(s, t, preAck)
    ensures ChannelsKept(Leave(s), t, preAck) && ChannelsKept(Ensure(s), t, preAck)
  {
    NarrowedKeeps(s, Leave(s), t, preAck);
    NarrowedKeeps(s, Ensure(s), t, preAck);
  }

  lemma SubscribedKeeps(f: Feed, kind: Channel, agrees: bool, id: int)
    requires FeedKept(f) && ConsumeSubscribed(f, kind, agrees, id).Some?
    ensures FeedKept(ConsumeSubscribed(f, kind, agrees, id).value)
  {
    Mirrored(f.booking, f.funding, f.preAck);
    if kind.BookChannel? {
      AcknowledgedKeeps(f.booking, f.funding, f.preAck, id);
    } else {
      AcknowledgedKeeps(f.funding, f.booking, f.preAck, id);
      Mirrored(Acknowledged(f.funding, id), f.booking, f.preAck - {id});
    }
  }

  lemma UnsubscribedKeeps(f: Feed, ok: bool, id: int)
    requires FeedKept(f) && ConsumeUnsubscribed(f, ok, id).Some?
    ensures FeedKept(ConsumeUnsubscribed(f, ok, id).value)
    ensures f.booking.pending == Some(id) || f.funding.pending == Some(id)
  {
    Mirrored(f.booking, f.funding, f.preAck);
    if f.booking.pending == Some(id) {
      NarrowedKeeps(f.booking, f.booking.(pending := None), f.funding, f.preAck);
    } else if f.funding.pending == Some(id) {
      NarrowedKeeps(f.funding, f.funding.(pending := None), f.booking, f.preAck);
      Mirrored(f.funding.(pending := None), f.booking, f.preAck);
    }
  }

  lemma ObeyKeeps(f: Feed, c: Command)
    requires FeedKept(f)
    ensures FeedKept(Obey(f, c))
  {
    LeaveKeeps(f.booking, f.funding, f.preAck);
    Mirrored(f.booking, f.funding, f.preAck);
    LeaveKeeps(f.funding, f.booking, f.preAck);
    Mirrored(Leave(f.funding), f.booking, f.preAck);
    Mirrored(Ensure(f.funding), f.booking, f.preAck);
  }

  lemma HeartbeatKeeps(f: Feed, channel: int, precise: bool)
    requires FeedKept(f) && f.booking.pending != Some(channel) && f.funding.pending != Some(channel)
    requires ConsumeHeartbeat(f, channel, precise).Some?
    ensures FeedKept(ConsumeHeartbeat(f, channel, precise).value.feed)
  {
  }

  lemma BookFrameKeeps(f: Feed, p: Payload, precise: bool, matches: Checksum)
    requires FeedKept(f) && f.booking.bound.Some? && ConsumeBook(f, p, precise, matches).Some?
    ensures FeedKept(ConsumeBook(f, p, precise, matches).value.feed)
  {
    BookStepsKeep(f.book, if p.Rows? then p.rows else [], if p.OneRow? then p.row else Row(0, 0, 0), matches,
                  if p.ChecksumValue? then p.value else 0);
  }

  lemma DataKeeps(f: Feed, channel: int, p: Payload, precise: bool, matches: Checksum)
    requires FeedKept(f) && ConsumeData(f, channel, p, precise, matches).Some?
    ensures FeedKept(ConsumeData(f, channel, p, precise, matches).value.feed)
  {
    if f.booking.pending != Some(channel) && f.funding.pending != Some(channel) {
      if p.Heartbeat? {
        HeartbeatKeeps(f, channel, precise);
      } else if f.booking.bound == Some(channel) {
        BookFrameKeeps(f, p, precise, matches);
      }
    }
  }

  lemma StepKeeps(f: Feed, e: Event, matches: Checksum)
    requires FeedKept(f)
    ensures FeedKept(Step(f, e, matches).feed)
  {
    match e
    case Received(frame) =>
      if Consume(f, frame, matches).Some? {
        match frame
        case Data(channel, p, precise) => DataKeeps(f, channel, p, precise, matches);
        case Subscribed(kind, agrees, id) => SubscribedKeeps(f, kind, agrees, id);
        case Unsubscribed(ok, id) => UnsubscribedKeeps(f, ok, id);
        case OtherControl(ok) =>
      }
    case Commanded(c) => ObeyKeeps(f, c);
    case Failed =>
  }

  // ---------------------------------------------------------------- what is published

  /** The levels are the best of a certified, uncrossed book without a price on both sides. */
  ghost predicate SoundFor(b: Book, bids: seq<Level>, asks: seq<Level>, depth: nat) {
    && BookKept(b) && b.actionable && Uncrossed(b)
    && Best(bids, b.bids, true, depth) && Best(asks, b.asks, false, depth)
  }

  /** A quote is the top of the published levels; 25 of them are published on each side. */
  ghost predicate Sound(o: Output, b: Book) {
    match o
    case Rate => true
    case Depth(bids, asks) => SoundFor(b, bids, asks, DEPTH)
    case Quote(bid, ask) => exists bids, asks :: SoundFor(b, bids, asks, DEPTH) && bids[0] == bid && asks[0] == ask
  }

  lemma PublishSound(f: Feed, precise: bool, i: int)
    requires BookKept(f.book) && Publish(f, precise).Some? && 0 <= i < |Publish(f, precise).value.out|
    ensures Sound(Publish(f, precise).value.out[i], f.book)
  {
    var bids, asks := TopLevels(f.book.bids, true, DEPTH), TopLevels(f.book.asks, false, DEPTH);
    assert SoundFor(f.book, bids, asks, DEPTH);
  }

  lemma BookFrameIsSound(f: Feed, p: Payload, precise: bool, matches: Checksum, i: int)
    requires FeedKept(f) && f.booking.bound.Some? && ConsumeBook(f, p, precise, matches).Some?
    requires 0 <= i < |ConsumeBook(f, p, precise, matches).value.out|
    ensures Sound(ConsumeBook(f, p, precise, matches).value.out[i], ConsumeBook(f, p, precise, matches).value.feed.book)
  {
    BookFrameKeeps(f, p, precise, matches);
    PublishSound(ConsumeBook(f, p, precise, matches).value.feed, precise, i);
  }

  lemma HeartbeatIsSound(f: Feed, channel: int, precise: bool, i: int)
    requires FeedKept(f) && ConsumeHeartbeat(f, channel, precise).Some?
    requires 0 <= i < |ConsumeHeartbeat(f, channel, precise).value.out|
    ensures Sound(ConsumeHeartbeat(f, channel, precise).value.out[i], f.book)
    ensures ConsumeHeartbeat(f, channel, precise).value.feed.book == f.book
  {
    var bids, asks := TopLevels(f.book.bids, true, DEPTH), TopLevels(f.book.asks, false, DEPTH);
    assert SoundFor(f.book, bids, asks, DEPTH);
  }

  /** Whatever is published are the best 25 levels a side, or their tops: strictly sorted, uncrossed,
      of a book without a price on both sides, certified and not changed since. */
  lemma PublishedIsSound(f: Feed, e: Event, matches: Checksum, i: int)
    requires FeedKept(f) && 0 <= i < |Step(f, e, matches).out|
    ensures Sound(Step(f, e, matches).out[i], Step(f, e, matches).feed.book)
  {
    if e.Received? && e.frame.Data? && f.booking.bound == Some(e.frame.channel) && !e.frame.payload.Heartbeat?
       && f.booking.pending != Some(e.frame.channel) && f.funding.pending != Some(e.frame.channel) {
      BookFrameIsSound(f, e.frame.payload, e.frame.precise, matches, i);
    }
  }

  /** What an event does to the certificate of the book. */
  datatype Change = Certifies | Spoils | Leaves

  predicate ReachesBook(f: Feed, e: Event) {
    && e.Received? && e.frame.Data? && f.booking.bound == Some(e.frame.channel)
    && f.booking.pending != Some(e.frame.channel) && f.funding.pending != Some(e.frame.channel)
  }

  /** Raising, leaving and a new book subscription empty the book; a delta makes it unverified; a
      snapshot, or a checksum that did not raise, certifies it. */
  ghost function ChangeOf(f: Feed, e: Event, matches: Checksum): Change {
    match e
    case Failed => Spoils
    case Commanded(c) =>
      if (c.UnsubscribeQuotes? && !f.deltas) || (c.UnsubscribeDepth? && !f.quotes) then Spoils else Leaves
    case Received(frame) =>
      if Consume(f, frame, matches) == None then Spoils
      else if frame.Subscribed? && frame.kind.BookChannel? then Spoils
      else if !ReachesBook(f, e) || frame.payload.Heartbeat? then Leaves
      else if frame.payload.OneRow? then Spoils
      else Certifies
  }

  predicate Certificate(change: Change, before: bool) {
    match change
    case Certifies => true
    case Spoils => false
    case Leaves => before
  }

  lemma FrameCertificate(f: Feed, frame: Frame, matches: Checksum)
    requires FeedKept(f) && !frame.Data? && Consume(f, frame, matches).Some?
    ensures Consume(f, frame, matches).value.feed.book.actionable
        <==> Certificate(ChangeOf(f, Received(frame), matches), f.book.actionable)
  {
    if frame.Unsubscribed? {
      UnsubscribedKeeps(f, frame.ok, frame.id);
    }
  }

  lemma BookCertificate(f: Feed, p: Payload, precise: bool, matches: Checksum)
    requires ConsumeBook(f, p, precise, matches).Some?
    ensures ConsumeBook(f, p, precise, matches).value.feed.book.actionable <==> !p.OneRow?
  {
  }

  lemma DataCertificate(f: Feed, channel: int, p: Payload, precise: bool, matches: Checksum)
    requires ConsumeData(f, channel, p, precise, matches).Some?
    ensures ConsumeData(f, channel, p, precise, matches).value.feed.book.actionable
        <==> Certificate(ChangeOf(f, Received(Data(channel, p, precise)), matches), f.book.actionable)
  {
    var e := Received(Data(channel, p, precise));
    if ReachesBook(f, e) && !p.Heartbeat? {
      BookCertificate(f, p, precise, matches);
    } else {
      assert ConsumeData(f, channel, p, precise, matches).value.feed.book == f.book;
    }
  }

  lemma CertificateFollows(f: Feed, e: Event, matches: Checksum)
    requires FeedKept(f)
    ensures Step(f, e, matches).feed.book.actionable <==> Certificate(ChangeOf(f, e, matches), f.book.actionable)
  {
    if e.Received? && Consume(f, e.frame, matches).Some? {
      if e.frame.Data? {
        DataCertificate(f, e.frame.channel, e.frame.payload, e.frame.precise, matches);
      } else {
        FrameCertificate(f, e.frame, matches);
      }
    }
  }

  // ---------------------------------------------------------------- runs

  ghost function Run(events: seq<Event>, matches: Checksum): Feed {
    if events == [] then CLOSED
    else Step(Run(events[..|events| - 1], matches), events[|events| - 1], matches).feed
  }

  lemma {:induction false} EveryRunKeeps(events: seq<Event>, matches: Checksum)
    ensures FeedKept(Run(events, matches))
  {
    if events != [] {
      EveryRunKeeps(events[..|events| - 1], matches);
      StepKeeps(Run(events[..|events| - 1], matches), events[|events| - 1], matches);
    }
  }

  /** What each event of a run did to the certificate. */
  ghost function Changes(events: seq<Event>, matches: Checksum): (changes: seq<Change>)
    ensures |changes| == |events|
  {
    if events == [] then []
    else
      var front := events[..|events| - 1];
      Changes(front, matches) + [ChangeOf(Run(front, matches), events[|events| - 1], matches)]
  }

  /** The last event that mattered to the book certified it. */
  predicate LastCertified(changes: seq<Change>) {
    exists n :: 0 <= n < |changes| && changes[n].Certifies? && forall m :: n < m < |changes| ==> changes[m].Leaves?
  }

  lemma LastCertifiedStep(front: seq<Change>, last: Change)
    ensures LastCertified(front + [last]) <==> Certificate(last, LastCertified(front))
  {
    var all := front + [last];
    if last.Certifies? {
      assert all[|front|].Certifies?;
    } else {
      if LastCertified(all) {
        var n :| 0 <= n < |all| && all[n].Certifies? && forall m :: n < m < |all| ==> all[m].Leaves?;
        assert front[n].Certifies? && all[|front|].Leaves?;
        assert forall m :: n < m < |front| ==> front[m] == all[m];
      }
      if last.Leaves? && LastCertified(front) {
        var n :| 0 <= n < |front| && front[n].Certifies? && forall m :: n < m < |front| ==> front[m].Leaves?;
        assert all[n].Certifies?;
      }
    }
  }

  /** Over every run the book is actionable exactly when a snapshot or a passed checksum was the last
      thing that happened to it, with no delta, clear or failure since. */
  lemma {:induction false} ActionableIffLastCertified(events: seq<Event>, matches: Checksum)
    ensures Run(events, matches).book.actionable <==> LastCertified(Changes(events, matches))
  {
    if events != [] {
      var front, last := events[..|events| - 1], events[|events| - 1];
      EveryRunKeeps(front, matches);
      ActionableIffLastCertified(front, matches);
      CertificateFollows(Run(front, matches), last, matches);
      LastCertifiedStep(Changes(front, matches), ChangeOf(Run(front, matches), last, matches));
    }
  }

  // ---------------------------------------------------------------- unsubscribe acknowledgments

  // An unsubscribe ACK is accepted exactly for a channel remembered as outstanding.
  lemma UnsubscribeAckIff(f: Feed, ok: bool, id: int)
    requires FeedKept(f)
    ensures ConsumeUnsubscribed(f, ok, id).Some? <==> ok && (f.booking.pending == Some(id) || f.funding.pending == Some(id))
  {
  }
}
