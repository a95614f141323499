/** The private execution stream as a state machine: what each frame, command, send outcome and
    deadline does to the orders this process owns.  `None` is a raised stream error. */
module OrderStream {
  import opened Rounding

  // ---------------------------------------------------------------- frames and orders

  datatype Operation = Submit | Modify | Cancel

  datatype Status =
    | Active | PartiallyFilled | Executed | Canceled | IocCanceled
    | PostOnlyCanceled | InsufficientMargin | RsnDust | RsnPause | OtherStatus

  datatype OrderKind = Ioc | Limit | OtherKind

  /** An order frame: `text` is the whole status line, `status` its recognised beginning. */
  datatype OrderState = OrderState(
    venue: int, cid: Option<int>, symbol: string, createdMs: int, remaining: int, original: int,
    kind: OrderKind, hasExpiry: bool, flags: int, postOnlyMeta: Option<bool>,
    status: Status, text: string, price: int)

  /** A trade frame; `fee` is present only on the final update.  `onGrid` says the instrument's
      precision represents the quantity and the price exactly. */
  datatype Trade = Trade(
    id: int, cid: Option<int>, venue: int, symbol: string, ms: int, quantity: int, price: int,
    kind: OrderKind, orderPrice: int, maker: bool, onGrid: bool, fee: Option<int>, feeInUsd: bool)

  datatype OrderOp = On | Ou | Oc

  datatype Notice = Notice(op: OrderOp, venue: Option<int>, cid: Option<int>, success: bool,
                           code: Option<int>, status: string, text: string)

  const POST_ONLY_FLAG := 4096
  const REDUCE_ONLY_FLAG := 1024
  const MAX_BUFFERED := 256

  datatype Config = Config(symbol: string, paper: bool)

  /** What the strategy submitted. */
  datatype Terms = Terms(quantity: int, buy: bool, ioc: bool, postOnly: bool, reduceOnly: bool)

  datatype Rejection = ByStatus(text: string) | ByNotice(status: string, code: Option<int>, text: string)

  datatype Live = Live(
    terms: Terms, cid: int, currentPrice: int, knownPrices: set<int>, unknown: set<Operation>,
    venue: Option<int>, accepted: bool, filled: int, pendingModify: Option<int>, pendingCancel: bool,
    terminal: Option<OrderState>, terminalEmitted: bool, rejection: Option<Rejection>, flagsVerified: bool)

  /** An event published to the trading engine. */
  datatype Emission =
    | Accepted(cid: int)
    | Rejected(cid: int)
    | Filled(cid: int, trade: int, quantity: int)
    | Updated(cid: int, price: int)
    | ModifyRejected(cid: int)
    | CancelRejected(cid: int)
    | CanceledOrder(cid: int)

  type Key = (int, Operation)

  datatype Stream = Stream(
    orders: map<int, Live>, byVenue: map<int, int>,
    seen: map<int, Trade>, interim: map<int, Trade>, buffer: seq<Trade>,
    deadlines: set<Key>, sending: multiset<Key>, open: bool, log: seq<Emission>)

  // ---------------------------------------------------------------- small readers

  function TerminalFilled(state: OrderState): int {
    Abs(state.original) - Abs(state.remaining)
  }

  predicate InitialRejection(status: Status) {
    status.PostOnlyCanceled? || status.InsufficientMargin? || status.RsnDust? || status.RsnPause?
  }

  predicate CancelStatus(status: Status) {
    status.Canceled? || status.IocCanceled? || InitialRejection(status)
  }

  /** A terminal frame is usable: executed in full, or one of the canceled statuses. */
  predicate Disposable(state: OrderState) {
    if state.status.Executed? then TerminalFilled(state) == Abs(state.original)
    else CancelStatus(state.status)
  }

  function Kind(terms: Terms): OrderKind {
    if terms.ioc then Ioc else Limit
  }

  predicate SignAgrees(terms: Terms, quantity: int) {
    if terms.buy then quantity > 0 else quantity < 0
  }

  function EffectiveFlags(state: OrderState): int {
    // The venue's flags already hold the bit, or the metadata restores it.
    if state.postOnlyMeta == Some(true) && (state.flags / POST_ONLY_FLAG) % 2 == 0
    then state.flags + POST_ONLY_FLAG else state.flags
  }

  predicate FlagsMatch(cfg: Config, l: Live, state: OrderState, op: OrderOp) {
    var expected := if l.terms.postOnly then POST_ONLY_FLAG
                    else if l.terms.reduceOnly then REDUCE_ONLY_FLAG else 0;
    EffectiveFlags(state) == expected ||
    (cfg.paper && expected == POST_ONLY_FLAG && !l.terms.ioc
     && EffectiveFlags(state) == 0 && state.postOnlyMeta == None
     && (op.On? || (op.Ou? && l.pendingModify.Some?) || (op.Oc? && l.accepted && l.pendingCancel)
         || (op.Oc? && l.accepted && l.filled == l.terms.quantity
             && TerminalFilled(state) == l.terms.quantity)))
  }

  predicate OrderStateValid(cfg: Config, l: Live, state: OrderState, op: OrderOp) {
    && state.symbol == cfg.symbol
    && state.cid == Some(l.cid)
    && SignAgrees(l.terms, state.original)
    && (state.remaining == 0 || SignAgrees(l.terms, state.remaining))
    && Abs(state.original) == l.terms.quantity
    && Abs(state.remaining) <= l.terms.quantity
    && state.kind == Kind(l.terms)
    && !state.hasExpiry
    && FlagsMatch(cfg, l, state, op)
    && (state.price == l.currentPrice || Some(state.price) == l.pendingModify)
  }

  predicate TradeValid(cfg: Config, l: Live, t: Trade) {
    && t.symbol == cfg.symbol
    && SignAgrees(l.terms, t.quantity)
    && t.price > 0
    && t.kind == Kind(l.terms)
    && (t.orderPrice in l.knownPrices || l.pendingModify == Some(t.orderPrice))
    && t.maker == l.terms.postOnly
    && (t.cid == None || t.cid == Some(l.cid))
    && (t.fee.Some? ==> t.feeInUsd)
  }

  /** A final update agrees with the interim execution it completes. */
  predicate SameExecution(interim: Trade, final: Trade) {
    && interim.(cid := final.cid, fee := final.fee, feeInUsd := final.feeInUsd) == final
    && (interim.cid == None || interim.cid == final.cid)
  }

  // ---------------------------------------------------------------- finding the order

  datatype Found = Conflict | NoOrder | Order(cid: int)

  function Resolve(s: Stream, cid: Option<int>, venue: Option<int>): (found: Found)
    ensures found.Order? ==> found.cid in s.orders
  {
    var byClient := if cid.Some? && cid.value in s.orders then Some(cid.value) else None;
    var byVenue :=
      if venue.Some? && venue.value in s.byVenue && s.byVenue[venue.value] in s.orders
      then Some(s.byVenue[venue.value]) else None;
    if byClient.Some? && byVenue.Some? && byClient != byVenue then Conflict
    else if byClient == None && byVenue == None then NoOrder
    else
      var c := if byClient.Some? then byClient.value else byVenue.value;
      if cid.Some? && cid.value != c then Conflict
      else if venue.Some? && s.orders[c].venue.Some? && venue != s.orders[c].venue then Conflict
      else Order(c)
  }

  // ---------------------------------------------------------------- the steps frames share

  /** One order's part of the state while it is worked on: its record, the operations that wait
      for an acknowledgment, a venue ID to bind, and the events published so far. */
  datatype Local = Local(live: Live, waiting: set<Operation>, bound: Option<int>, out: seq<Emission>)

  function WaitingOn(deadlines: set<Key>, c: int): set<Operation> {
    set op: Operation | (c, op) in deadlines
  }

  function Of(s: Stream, c: int): Local
    requires c in s.orders
  {
    Local(s.orders[c], WaitingOn(s.deadlines, c), None, [])
  }

  function Commit(s: Stream, c: int, x: Local): Stream {
    s.(orders := s.orders[c := x.live],
       deadlines := (set k <- s.deadlines | k.0 != c) + (set op <- x.waiting :: (c, op)),
       byVenue := if x.bound.Some? then s.byVenue[x.bound.value := c] else s.byVenue,
       log := s.log + x.out)
  }

  function CommitIf(s: Stream, c: int, x: Option<Local>): Option<Stream> {
    if x == None then None else Some(Commit(s, c, x.value))
  }

  function Publish(x: Local, e: Emission): Local {
    x.(out := x.out + [e])
  }

  function ResolveMutation(x: Local, op: Operation): Local {
    x.(live := x.live.(unknown := x.live.unknown - {op}), waiting := x.waiting - {op})
  }

  function ResolveAll(x: Local): Local {
    x.(live := x.live.(unknown := {}), waiting := {})
  }

  function Accept(x: Local, venue: int): Option<Local> {
    if x.live.venue.Some? && x.live.venue != Some(venue) then None
    else
      var x1 := ResolveMutation(x.(live := x.live.(venue := Some(venue)), bound := Some(venue)), Submit);
      if x.live.accepted then Some(x1)
      else Some(Publish(x1.(live := x1.live.(accepted := true)), Accepted(x.live.cid)))
  }

  function AckPendingPrice(x: Local, price: int): Option<Local> {
    var l := x.live;
    if l.pendingModify != Some(price) then Some(x)
    else if l.venue == None then None
    else
      var l1 := l.(currentPrice := price, knownPrices := l.knownPrices + {price}, pendingModify := None);
      Some(ResolveMutation(Publish(x.(live := l1), Updated(l.cid, price)), Modify))
  }

  /** Publish the terminal once the observed fills reach the quantity it reports. */
  function FinishTerminal(x: Local): Option<Local> {
    var l := x.live;
    if l.terminal == None then Some(x)
    else
      var state := l.terminal.value;
      if l.filled > TerminalFilled(state) then None
      else if l.terminalEmitted || TerminalFilled(state) > l.filled then Some(x)
      else if !Disposable(state) then None
      else
        var x1 := x.(live := l.(terminalEmitted := true, pendingModify := None));
        if CancelStatus(state.status) && TerminalFilled(state) < Abs(state.original)
        then Some(Publish(x1, CanceledOrder(l.cid))) else Some(x1)
  }

  function ApplyFill(x: Local, t: Trade): Option<Local> {
    var l := x.live;
    var next := l.filled + Abs(t.quantity);
    if l.terms.reduceOnly && !l.flagsVerified then None
    else if next > l.terms.quantity then None
    else if l.terminal.Some? && next > TerminalFilled(l.terminal.value) then None
    else if !t.onGrid then None
    else CompleteFill(x, t, next)
  }

  function CompleteFill(x: Local, t: Trade, next: int): Option<Local> {
    var ready := AcceptAndAck(x, t.venue, t.orderPrice);
    if ready == None then None else FinishTerminal(RecordFill(ready.value, t, next))
  }

  function AcceptAndAck(x: Local, venue: int, price: int): Option<Local> {
    var accepted := Accept(x, venue);
    if accepted == None then None else AckPendingPrice(accepted.value, price)
  }

  function RecordFill(x: Local, t: Trade, next: int): Local {
    var x1 := ResolveMutation(x.(live := x.live.(filled := next)), Submit);
    var x2 := Publish(x1, Filled(x.live.cid, t.id, Abs(t.quantity)));
    if next == x.live.terms.quantity
    then ResolveMutation(x2.(live := x2.live.(pendingCancel := false)), Cancel)
    else x2
  }

  // ---------------------------------------------------------------- buffered interim trades

  function FindBuffered(buffer: seq<Trade>, id: int): Option<Trade> {
    if buffer == [] then None
    else if buffer[0].id == id then Some(buffer[0])
    else FindBuffered(buffer[1..], id)
  }

  function BufferInterim(s: Stream, t: Trade): Option<Stream> {
    if t.id in s.seen then (if SameExecution(t, s.seen[t.id]) then Some(s) else None)
    else if t.id in s.interim then (if s.interim[t.id] == t then Some(s) else None)
    else
      match FindBuffered(s.buffer, t.id)
      case Some(previous) => if previous == t then Some(s) else None
      case None =>
        if |s.buffer| >= MAX_BUFFERED then None else Some(s.(buffer := s.buffer + [t]))
  }

  predicate Staged(l: Live, state: OrderState, op: OrderOp, t: Trade) {
    || (t.cid == None && t.venue == state.venue)
    || (!op.Ou? && (t.cid == Some(l.cid) || t.venue == state.venue))
  }

  predicate Earlier(a: Trade, b: Trade) {
    a.ms < b.ms || (a.ms == b.ms && a.id <= b.id)
  }

  function InsertTrade(t: Trade, ts: seq<Trade>): seq<Trade> {
    if ts == [] || Earlier(t, ts[0]) then [t] + ts else [ts[0]] + InsertTrade(t, ts[1..])
  }

  /** The buffered trades an order frame claims, by time and trade ID. */
  function StagedFor(buffer: seq<Trade>, l: Live, state: OrderState, op: OrderOp): seq<Trade> {
    if buffer == [] then []
    else
      var rest := StagedFor(buffer[1..], l, state, op);
      if Staged(l, state, op, buffer[0]) then InsertTrade(buffer[0], rest) else rest
  }

  predicate StagedTradeValid(cfg: Config, l: Live, state: OrderState, op: OrderOp, t: Trade) {
    && (t.cid.Some? ==> !op.Ou?)
    && (t.cid == None ==> op.On?)
    && l.terms.ioc
    && (t.cid == None || t.cid == Some(l.cid))
    && t.venue == state.venue
    && TradeValid(cfg, l, t)
    && state.createdMs <= t.ms
    && t.onGrid
  }

  function Quantities(ts: seq<Trade>): nat {
    if ts == [] then 0 else Abs(ts[0].quantity) + Quantities(ts[1..])
  }

  predicate StagedValid(cfg: Config, l: Live, state: OrderState, op: OrderOp, staged: seq<Trade>) {
    staged == [] ||
    (&& !op.Ou? && cfg.paper && l.terms.reduceOnly && EffectiveFlags(state) == REDUCE_ONLY_FLAG
     && (forall i :: 0 <= i < |staged| ==> StagedTradeValid(cfg, l, state, op, staged[i]))
     && l.filled + Quantities(staged) <= l.terms.quantity
     && (op.Oc? ==> l.filled + Quantities(staged) <= TerminalFilled(state)))
  }

  function Release(x: Local, staged: seq<Trade>): Option<Local>
    decreases |staged|
  {
    if staged == [] then Some(x)
    else
      var applied := ApplyFill(x, staged[0]);
      if applied == None then None else Release(applied.value, staged[1..])
  }

  function Without(buffer: seq<Trade>, staged: seq<Trade>): seq<Trade> {
    if buffer == [] then []
    else if FindBuffered(staged, buffer[0].id).Some? then Without(buffer[1..], staged)
    else [buffer[0]] + Without(buffer[1..], staged)
  }

  function WithInterims(interim: map<int, Trade>, staged: seq<Trade>): map<int, Trade>
    decreases |staged|
  {
    if staged == [] then interim else WithInterims(interim[staged[0].id := staged[0]], staged[1..])
  }

  // ---------------------------------------------------------------- order frames

  function HandleOrder(cfg: Config, s: Stream, op: OrderOp, state: OrderState): Option<Stream> {
    match Resolve(s, state.cid, Some(state.venue))
    case Conflict => None
    case NoOrder => Some(s)
    case Order(c) =>
      var l := s.orders[c];
      if l.terminal.Some? then
        if op.Oc? && state == l.terminal.value then Some(s) else None
      else if !OrderStateValid(cfg, l, state, op) then None
      else
        var staged := StagedFor(s.buffer, l, state, op);
        var rejection := InitialRejection(state.status) && !l.accepted && TerminalFilled(state) == 0;
        if !StagedValid(cfg, l, state, op, staged) then None
        else if op.Oc? && !Disposable(state) then None
        else if rejection && staged != [] then None
        else
          Advance(s, c, op, state, staged, rejection)
  }

  /** A valid frame verifies the flags, then repeats a rejection, rejects, or is adopted. */
  function Advance(s: Stream, c: int, op: OrderOp, state: OrderState, staged: seq<Trade>, rejection: bool): Option<Stream>
    requires c in s.orders
  {
    var l := s.orders[c];
    var x := Of(s, c).(live := l.(flagsVerified := true));
    if l.rejection.Some? then
      if rejection && l.rejection == Some(ByStatus(state.text)) then Some(Commit(s, c, x)) else None
    else if rejection then Some(Commit(s, c, RejectByStatus(x, state)))
    else AdoptOrder(s, c, x, op, state, staged)
  }

  function RejectByStatus(x: Local, state: OrderState): Local {
    var l := x.live.(terminal := Some(state), terminalEmitted := true, rejection := Some(ByStatus(state.text)));
    ResolveAll(Publish(x.(live := l), Rejected(l.cid)))
  }

  /** The venue's view of the order is adopted and its buffered trades are released. */
  function AdoptOrder(s: Stream, c: int, x: Local, op: OrderOp, state: OrderState, staged: seq<Trade>): Option<Stream> {
    var adopted := Adopt(x, op, state, staged);
    if adopted == None then None
    else Some(Commit(s, c, adopted.value).(interim := WithInterims(s.interim, staged),
                                           buffer := Without(s.buffer, staged)))
  }

  function Adopt(x: Local, op: OrderOp, state: OrderState, staged: seq<Trade>): Option<Local> {
    var ready := AcceptAndAck(x, state.venue, state.price);
    if ready == None then None
    else
      var released := Release(if op.Oc? then TakeTerminal(ready.value, state) else ready.value, staged);
      if released == None then None
      else if op.Oc? then FinishTerminal(released.value) else released
  }

  function TakeTerminal(x: Local, state: OrderState): Local {
    ResolveAll(x.(live := x.live.(pendingCancel := false, terminal := Some(state))))
  }

  // ---------------------------------------------------------------- trade frames

  /** An interim execution (`te`). */
  function HandleInterim(cfg: Config, s: Stream, t: Trade): Option<Stream> {
    match Resolve(s, t.cid, Some(t.venue))
    case Conflict => None
    case NoOrder =>
      if !cfg.paper || t.cid.Some? then Some(s)
      else if t.symbol != cfg.symbol || !t.kind.Ioc? || t.orderPrice <= 0 || t.maker then None
      else BufferInterim(s, t)
    case Order(c) =>
      var l := s.orders[c];
      if l.rejection.Some? || !TradeValid(cfg, l, t) then None
      else if !cfg.paper then Some(s)
      else if AwaitsFlags(l, t) then BufferInterim(s, t)
      else if t.id in s.interim then (if s.interim[t.id] == t then Some(s) else None)
      else if t.id in s.seen then (if SameExecution(t, s.seen[t.id]) then Some(s) else None)
      else ApplyInterim(s, c, t)
  }

  function ApplyInterim(s: Stream, c: int, t: Trade): Option<Stream>
    requires c in s.orders
  {
    var applied := ApplyFill(Of(s, c), t);
    if applied == None then None
    else Some(Commit(s, c, applied.value).(interim := s.interim[t.id := t]))
  }

  predicate AwaitsFlags(l: Live, t: Trade) {
    !l.accepted && !l.flagsVerified && l.terminal == None && l.terms.ioc && l.terms.reduceOnly
    && t.cid == Some(l.cid)
  }

  /** A final trade update (`tu`). */
  function HandleTrade(cfg: Config, s: Stream, t: Trade): Option<Stream> {
    match Resolve(s, t.cid, Some(t.venue))
    case Conflict => None
    case NoOrder => Some(s)
    case Order(c) =>
      var l := s.orders[c];
      if l.rejection.Some? || !TradeValid(cfg, l, t) then None
      else if t.id in s.seen then (if s.seen[t.id] == t then Some(s) else None)
      else if t.id in s.interim && !SameExecution(s.interim[t.id], t) then None
      else
        var applied := if t.id in s.interim then FinishTerminal(Of(s, c)) else ApplyFill(Of(s, c), t);
        if applied == None then None
        else Some(Commit(s, c, applied.value).(seen := s.seen[t.id := t]))
  }

  // ---------------------------------------------------------------- notifications

  function HandleNotice(s: Stream, n: Notice): Option<Stream> {
    if n.success then Some(s)
    else
      match Resolve(s, n.cid, n.venue)
      case Conflict => None
      case NoOrder => Some(s)
      case Order(c) =>
        var key := ByNotice(n.status, n.code, n.text);
        if s.orders[c].rejection.Some?
        then (if n.op.On? && s.orders[c].rejection == Some(key) then Some(s) else None)
        else CommitIf(s, c, NoticeFor(Of(s, c), n.op, key))
  }

  function NoticeFor(x: Local, op: OrderOp, key: Rejection): Option<Local> {
    var l := x.live;
    match op
    case On =>
      if l.accepted then None
      else Some(ResolveAll(Publish(x.(live := l.(terminalEmitted := true, rejection := Some(key))), Rejected(l.cid))))
    case Ou =>
      if l.pendingModify == None && Modify !in l.unknown then None
      else Some(ResolveMutation(Publish(x.(live := l.(pendingModify := None)), ModifyRejected(l.cid)), Modify))
    case Oc =>
      if !l.pendingCancel && Cancel !in l.unknown then None
      else Some(ResolveMutation(Publish(x.(live := l.(pendingCancel := false)), CancelRejected(l.cid)), Cancel))
  }

  // ---------------------------------------------------------------- commands and deadlines

  datatype SendOutcome = Sent | SendRaised

  predicate IsPending(l: Live, op: Operation) {
    match op
    case Submit => !l.accepted && l.rejection == None && !l.terminalEmitted
    case Modify => l.pendingModify.Some?
    case Cancel => l.pendingCancel && l.terminal == None
  }

  /** The wire call has started; the frames that arrive before it returns are separate steps. */
  function BeginSend(s: Stream, c: int, l: Live, op: Operation): Option<Stream> {
    if (c, op) in s.deadlines then None
    else Some(s.(orders := s.orders[c := l], sending := s.sending + multiset{(c, op)}))
  }

  function NewOrder(cid: int, terms: Terms, price: int): Live {
    Live(terms, cid, price, {price}, {}, None, false, 0, None, false, None, false, None, false)
  }

  /** Only IOC takers and resting post-only makers are supported; reduce-only means IOC. */
  predicate Supported(terms: Terms) {
    terms.ioc != terms.postOnly && (terms.reduceOnly ==> terms.ioc)
  }

  /** Any other order is denied before it gets a CID, and the stream never knows it. */
  function SubmitOrder(s: Stream, cid: int, terms: Terms, price: int): Option<Stream> {
    if !Supported(terms) then Some(s)
    else BeginSend(s, cid, NewOrder(cid, terms, price), Submit)
  }

  function ModifyOrder(s: Stream, c: int, price: Option<int>, held: bool): Option<Stream>
    requires c in s.orders
  {
    var l := s.orders[c];
    if held || l.venue == None || !l.accepted || l.terminal.Some? || l.pendingCancel
       || l.pendingModify.Some? || price == None
    then Some(s.(log := s.log + [ModifyRejected(c)]))
    else BeginSend(s, c, l.(pendingModify := price), Modify)
  }

  function CancelOrder(s: Stream, c: int): Option<Stream>
    requires c in s.orders
  {
    var l := s.orders[c];
    if l.venue == None || !l.accepted || l.terminal.Some? || l.pendingCancel
    then Some(s.(log := s.log + [CancelRejected(c)]))
    else BeginSend(s, c, l.(pendingCancel := true), Cancel)
  }

  function MarkUnknown(s: Stream, c: int, op: Operation): Stream
    requires c in s.orders
  {
    s.(orders := s.orders[c := s.orders[c].(unknown := s.orders[c].unknown + {op})])
  }

  function EndSend(s: Stream, c: int, op: Operation, outcome: SendOutcome): Stream
    requires c in s.orders
  {
    var s1 := s.(sending := s.sending - multiset{(c, op)});
    if outcome.SendRaised? || !s.open then MarkUnknown(s1, c, op)
    else if IsPending(s.orders[c], op) then s1.(deadlines := s1.deadlines + {(c, op)})
    else s1
  }

  function ExpireDeadline(s: Stream, c: int, op: Operation): Stream
    requires c in s.orders
  {
    if (c, op) !in s.deadlines then s
    else MarkUnknown(s.(deadlines := s.deadlines - {(c, op)}), c, op)
  }

  /** A paper IOC order that can still end without a frame saying so. */
  predicate CanEndSilently(cfg: Config, l: Live) {
    && cfg.paper && l.terms.ioc && l.terminal == None && l.rejection == None && !l.terminalEmitted
    && l.filled < l.terms.quantity && l.pendingModify == None && Modify !in l.unknown
  }

  function MarkSilent(cfg: Config, l: Live): Live {
    if CanEndSilently(cfg, l) then l.(unknown := l.unknown + {Submit}) else l
  }

  /** Closing the stream: every open deadline becomes an UNKNOWN outcome, and so does the submission
      of every order that may now end unseen. */
  function CloseStream(cfg: Config, s: Stream): Stream {
    s.(open := false, deadlines := {},
       orders := map c <- s.orders ::
         MarkSilent(cfg, s.orders[c].(unknown := s.orders[c].unknown + WaitingOn(s.deadlines, c))))
  }

  // ---------------------------------------------------------------- runs

  datatype Event =
    | OrderFrame(op: OrderOp, state: OrderState)
    | InterimFrame(trade: Trade)
    | TradeFrame(trade: Trade)
    | NoticeFrame(notice: Notice)
    | SubmitCommand(cid: int, terms: Terms, price: int)
    | ModifyCommand(cid: int, newPrice: Option<int>, held: bool)
    | CancelCommand(cid: int)
    | SendReturns(cid: int, op2: Operation, outcome: SendOutcome)
    | DeadlineExpires(cid: int, op2: Operation)
    | Closes

  /** Each CID is submitted once, commands name submitted orders, and only a send that is under
      way can return. */
  predicate CanHappen(s: Stream, e: Event) {
    match e
    case SubmitCommand(cid, terms, price) => cid !in s.orders && terms.quantity > 0
    case ModifyCommand(cid, _, _) => cid in s.orders
    case CancelCommand(cid) => cid in s.orders
    case SendReturns(cid, op, _) => cid in s.orders && (cid, op) in s.sending
    case DeadlineExpires(cid, _) => cid in s.orders
    case _ => true
  }

  function Step(cfg: Config, s: Stream, e: Event): Option<Stream>
    requires CanHappen(s, e)
  {
    match e
    case OrderFrame(op, state) => HandleOrder(cfg, s, op, state)
    case InterimFrame(t) => HandleInterim(cfg, s, t)
    case TradeFrame(t) => HandleTrade(cfg, s, t)
    case NoticeFrame(n) => HandleNotice(s, n)
    case SubmitCommand(cid, terms, price) => SubmitOrder(s, cid, terms, price)
    case ModifyCommand(cid, price, held) => ModifyOrder(s, cid, price, held)
    case CancelCommand(cid) => CancelOrder(s, cid)
    case SendReturns(cid, op, outcome) => Some(EndSend(s, cid, op, outcome))
    case DeadlineExpires(cid, op) => Some(ExpireDeadline(s, cid, op))
    case Closes => Some(CloseStream(cfg, s))
  }

  const EMPTY := Stream(map[], map[], map[], map[], [], {}, multiset{}, true, [])
}
