/** The allocation ledger: every source fill in order, with the whole ounces it was allocated.

    `owed` is in units, so an online ledger allocates multiples of an ounce. */
module AllocationLedger {
  import opened Rounding
  import opened Records
  import HedgePlan

  datatype Allocation = Allocation(key: FillKey, route: Route, signed: int, owed: int)

  type Ledger = seq<Allocation>

  // ---------------------------------------------------------------- balances

  /** The unallocated residual of a route: its fills minus its allocations. */
  function Balance(ledger: Ledger, route: Route): int {
    if ledger == [] then 0
    else
      var front, last := ledger[..|ledger| - 1], ledger[|ledger| - 1];
      Balance(front, route) + if last.route == route then last.signed - last.owed else 0
  }

  /** The whole ounces a fill obliges after the ledger. */
  function Ounces(ledger: Ledger, route: Route, signed: int): int {
    HalfEven(Balance(ledger, route) + signed)
  }

  function Obligation(ledger: Ledger, route: Route, signed: int): int {
    OUNCE * Ounces(ledger, route, signed)
  }

  /** What the allocator appends for a fill. */
  function Allocate(ledger: Ledger, key: FillKey, route: Route, signed: int): Ledger {
    ledger + [Allocation(key, route, signed, Obligation(ledger, route, signed))]
  }

  /** Every entry is what the allocator gives its fill after the entries before it. */
  predicate Online(ledger: Ledger) {
    ledger == [] ||
    (&& Online(ledger[..|ledger| - 1])
     && ledger[|ledger| - 1].owed
        == Obligation(ledger[..|ledger| - 1], ledger[|ledger| - 1].route, ledger[|ledger| - 1].signed))
  }

  datatype Fill = Fill(key: FillKey, route: Route, signed: int)

  function FillsOf(ledger: Ledger): seq<Fill> {
    if ledger == [] then []
    else
      var last := ledger[|ledger| - 1];
      FillsOf(ledger[..|ledger| - 1]) + [Fill(last.key, last.route, last.signed)]
  }

  /** The ledger of successive allocations, starting empty. */
  function Built(fills: seq<Fill>): Ledger {
    if fills == [] then []
    else
      var last := fills[|fills| - 1];
      Allocate(Built(fills[..|fills| - 1]), last.key, last.route, last.signed)
  }

  /** A ledger passes the ordered check exactly when it is the online allocator's. */
  lemma {:induction false} OnlineIsBuilt(ledger: Ledger)
    ensures Online(ledger) <==> ledger == Built(FillsOf(ledger))
  {
    if ledger != [] {
      var front := ledger[..|ledger| - 1];
      OnlineIsBuilt(front);
      assert FillsOf(ledger)[..|FillsOf(ledger)| - 1] == FillsOf(front);
      assert ledger == front + [ledger[|ledger| - 1]];
      BuiltLength(FillsOf(front));
      FillsLength(front);
      if ledger == Built(FillsOf(ledger)) {
        assert front == Built(FillsOf(front));
      }
    }
  }

  lemma {:induction false} BuiltLength(fills: seq<Fill>)
    ensures |Built(fills)| == |fills|
  {
    if fills != [] {
      BuiltLength(fills[..|fills| - 1]);
    }
  }

  lemma {:induction false} FillsLength(ledger: Ledger)
    ensures |FillsOf(ledger)| == |ledger|
  {
    if ledger != [] {
      FillsLength(ledger[..|ledger| - 1]);
    }
  }

  /** Half an ounce is the most a route can keep back, however its fills were split. */
  lemma {:induction false} BalanceWithinHalf(ledger: Ledger, route: Route)
    requires Online(ledger)
    ensures Abs(Balance(ledger, route)) <= HALF
  {
    if ledger != [] {
      BalanceWithinHalf(ledger[..|ledger| - 1], route);
    }
  }

  function FillTotal(ledger: Ledger, route: Route): int {
    if ledger == [] then 0
    else
      FillTotal(ledger[..|ledger| - 1], route)
      + if ledger[|ledger| - 1].route == route then ledger[|ledger| - 1].signed else 0
  }

  function AllocatedTotal(ledger: Ledger, route: Route): int {
    if ledger == [] then 0
    else
      AllocatedTotal(ledger[..|ledger| - 1], route)
      + if ledger[|ledger| - 1].route == route then ledger[|ledger| - 1].owed else 0
  }

  /** Per route, the fills are the allocations plus a balance of at most half an ounce. */
  lemma {:induction false} FillsAreAllocationsPlusBalance(ledger: Ledger, route: Route)
    ensures FillTotal(ledger, route) == AllocatedTotal(ledger, route) + Balance(ledger, route)
    ensures Online(ledger) ==> Abs(FillTotal(ledger, route) - AllocatedTotal(ledger, route)) <= HALF
  {
    if ledger != [] {
      FillsAreAllocationsPlusBalance(ledger[..|ledger| - 1], route);
    }
    if Online(ledger) {
      BalanceWithinHalf(ledger, route);
    }
  }

  // ---------------------------------------------------------------- the running balances

  datatype View = Bid | Ask | Taker

  /** One route's entry in the running dictionary, with the view of its latest fill. */
  datatype Entry = Entry(route: Route, balance: int, view: View)

  /** A dictionary in insertion order: an existing key keeps its place. */
  function Put(entries: seq<Entry>, e: Entry): (r: seq<Entry>) {
    if entries == [] then [e]
    else if entries[0].route == e.route then [e] + entries[1..]
    else [entries[0]] + Put(entries[1..], e)
  }

  function Lookup(entries: seq<Entry>, route: Route): int {
    if entries == [] then 0
    else if entries[0].route == route then entries[0].balance
    else Lookup(entries[1..], route)
  }

  predicate Mentions(entries: seq<Entry>, route: Route) {
    entries != [] && (entries[0].route == route || Mentions(entries[1..], route))
  }

  predicate Distinct(entries: seq<Entry>) {
    entries == [] || (!Mentions(entries[1..], entries[0].route) && Distinct(entries[1..]))
  }

  function Total(entries: seq<Entry>): int {
    if entries == [] then 0 else entries[0].balance + Total(entries[1..])
  }

  function TotalOf(entries: seq<Entry>, view: View): int {
    if entries == [] then 0
    else (if entries[0].view == view then entries[0].balance else 0) + TotalOf(entries[1..], view)
  }

  lemma {:induction false} PutKeeps(entries: seq<Entry>, e: Entry, route: Route)
    ensures Lookup(Put(entries, e), route) == if route == e.route then e.balance else Lookup(entries, route)
    ensures Mentions(Put(entries, e), route) <==> route == e.route || Mentions(entries, route)
  {
    if entries != [] && entries[0].route != e.route {
      PutKeeps(entries[1..], e, route);
    }
  }

  lemma {:induction false} PutDistinct(entries: seq<Entry>, e: Entry)
    requires Distinct(entries)
    ensures Distinct(Put(entries, e))
    ensures Total(Put(entries, e)) == Total(entries) - Lookup(entries, e.route) + e.balance
  {
    if entries == [] {
      assert [e][1..] == [];
    } else if entries[0].route != e.route {
      PutDistinct(entries[1..], e);
      PutKeeps(entries[1..], e, entries[0].route);
      assert Put(entries, e)[1..] == Put(entries[1..], e);
    } else {
      assert ([e] + entries[1..])[1..] == entries[1..];
    }
  }

  /** The running dictionary after the whole ledger; `views` says which view saw each fill. */
  function RouteBalances(views: map<FillKey, View>, ledger: Ledger): (entries: seq<Entry>)
    requires forall i :: 0 <= i < |ledger| ==> ledger[i].key in views
  {
    if ledger == [] then []
    else
      var last := ledger[|ledger| - 1];
      var before := RouteBalances(views, ledger[..|ledger| - 1]);
      Put(before, Entry(last.route, Lookup(before, last.route) + last.signed - last.owed, views[last.key]))
  }

  /** The dictionary holds each route's balance once. */
  lemma {:induction false} RouteBalancesMean(views: map<FillKey, View>, ledger: Ledger)
    requires forall i :: 0 <= i < |ledger| ==> ledger[i].key in views
    ensures Distinct(RouteBalances(views, ledger))
    ensures forall route :: Lookup(RouteBalances(views, ledger), route) == Balance(ledger, route)
  {
    if ledger != [] {
      var front, last := ledger[..|ledger| - 1], ledger[|ledger| - 1];
      RouteBalancesMean(views, front);
      var before := RouteBalances(views, front);
      var e := Entry(last.route, Lookup(before, last.route) + last.signed - last.owed, views[last.key]);
      PutDistinct(before, e);
      forall route ensures Lookup(RouteBalances(views, ledger), route) == Balance(ledger, route) {
        PutKeeps(before, e, route);
      }
    }
  }

  function Surplus(ledger: Ledger): int {
    if ledger == [] then 0
    else Surplus(ledger[..|ledger| - 1]) + ledger[|ledger| - 1].signed - ledger[|ledger| - 1].owed
  }

  lemma {:induction false} ViewsShareTotal(entries: seq<Entry>)
    ensures TotalOf(entries, Bid) + TotalOf(entries, Ask) + TotalOf(entries, Taker) == Total(entries)
  {
    if entries != [] {
      ViewsShareTotal(entries[1..]);
    }
  }

  /** The views' rounding residuals add up to all route balances: every fill less every allocation. */
  lemma {:induction false} ResidualsAddUp(views: map<FillKey, View>, ledger: Ledger)
    requires forall i :: 0 <= i < |ledger| ==> ledger[i].key in views
    ensures
      var entries := RouteBalances(views, ledger);
      TotalOf(entries, Bid) + TotalOf(entries, Ask) + TotalOf(entries, Taker) == Total(entries) == Surplus(ledger)
  {
    ViewsShareTotal(RouteBalances(views, ledger));
    if ledger != [] {
      var front, last := ledger[..|ledger| - 1], ledger[|ledger| - 1];
      ResidualsAddUp(views, front);
      RouteBalancesMean(views, front);
      var before := RouteBalances(views, front);
      PutDistinct(before, Entry(last.route, Lookup(before, last.route) + last.signed - last.owed, views[last.key]));
    }
  }

  method ComputeRouteBalances(views: map<FillKey, View>, ledger: Ledger) returns (entries: seq<Entry>)
    requires forall i :: 0 <= i < |ledger| ==> ledger[i].key in views
    ensures entries == RouteBalances(views, ledger)
    ensures Distinct(entries) && forall route :: Lookup(entries, route) == Balance(ledger, route)
  {
    entries := [];
    for i := 0 to |ledger|
      invariant entries == RouteBalances(views, ledger[..i])
    {
      var item := ledger[i];
      var previous := Lookup(entries, item.route);
      entries := Put(entries, Entry(item.route, previous + item.signed - item.owed, views[item.key]));
      assert ledger[..i + 1][..i] == ledger[..i];
    }
    assert ledger[..|ledger|] == ledger;
    RouteBalancesMean(views, ledger);
  }

  // ---------------------------------------------------------------- what a ledger must agree with

  predicate HasKey(ledger: Ledger, key: FillKey) {
    exists i :: 0 <= i < |ledger| && ledger[i].key == key
  }

  predicate DistinctKeys(ledger: Ledger) {
    forall i, j :: 0 <= i < j < |ledger| ==> ledger[i].key != ledger[j].key
  }

  /** Source fills recorded against an order, whatever their direction. */
  function OrderTotal(ledger: Ledger, cid: int): int {
    if ledger == [] then 0
    else
      OrderTotal(ledger[..|ledger| - 1], cid)
      + if ledger[|ledger| - 1].key.cid == cid then Abs(ledger[|ledger| - 1].signed) else 0
  }

  /** The entry belongs to a known fill of a known order, in its direction and on its route. */
  predicate SourceAgrees(records: map<int, SourceOrder>, seen: set<FillKey>, item: Allocation) {
    && item.key in seen && item.key.cid in records
    && item.signed != 0 && (item.signed > 0 <==> records[item.key.cid].side.Buy?)
    && item.route == RouteOf(records[item.key.cid])
  }

  /** Whole ounces owed own exactly one obligation of that size; nothing owed owns none. */
  predicate IntentAgrees(intents: map<FillKey, HedgeIntent>, item: Allocation) {
    if item.owed == 0 then item.key !in intents
    else
      && item.key in intents
      && intents[item.key].quantity == Abs(item.owed)
      && intents[item.key].sourceFill == Abs(item.signed)
      && (intents[item.key].hedgeSide.Sell? <==> item.owed > 0)
  }

  /** The ledger is the online allocator's history of exactly the recorded fills. */
  ghost predicate LedgerValid(records: map<int, SourceOrder>, seen: set<FillKey>,
                              intents: map<FillKey, HedgeIntent>, ledger: Ledger) {
    && Online(ledger) && DistinctKeys(ledger)
    && (forall i :: 0 <= i < |ledger| ==> SourceAgrees(records, seen, ledger[i]) && IntentAgrees(intents, ledger[i]))
    && (forall key :: key in seen ==> HasKey(ledger, key))
    && (forall key :: key in intents ==> HasKey(ledger, key))
    && (forall cid :: cid in records ==> OrderTotal(ledger, cid) == records[cid].filled)
  }

  /** A ledger that passes is exactly what the online allocator yields from its own fills. */
  lemma PassingLedgerIsBuilt(records: map<int, SourceOrder>, seen: set<FillKey>,
                             intents: map<FillKey, HedgeIntent>, ledger: Ledger, route: Route)
    requires LedgerValid(records, seen, intents, ledger)
    ensures ledger == Built(FillsOf(ledger))
    ensures Abs(FillTotal(ledger, route) - AllocatedTotal(ledger, route)) <= HALF
  {
    OnlineIsBuilt(ledger);
    FillsAreAllocationsPlusBalance(ledger, route);
  }

  // What the check has established after some entries.
  ghost predicate Checked(records: map<int, SourceOrder>, seen: set<FillKey>,
                          intents: map<FillKey, HedgeIntent>, ledger: Ledger) {
    && Online(ledger) && DistinctKeys(ledger)
    && (forall i :: 0 <= i < |ledger| ==> SourceAgrees(records, seen, ledger[i]) && IntentAgrees(intents, ledger[i]))
  }

  lemma CheckedPrefix(records: map<int, SourceOrder>, seen: set<FillKey>,
                      intents: map<FillKey, HedgeIntent>, ledger: Ledger, n: nat)
    requires n <= |ledger| && Checked(records, seen, intents, ledger)
    ensures Checked(records, seen, intents, ledger[..n])
    decreases |ledger|
  {
    if n < |ledger| {
      var front := ledger[..|ledger| - 1];
      assert front[..n] == ledger[..n];
      CheckedPrefix(records, seen, intents, front, n);
    } else {
      assert ledger[..n] == ledger;
    }
  }

  lemma CheckedStep(records: map<int, SourceOrder>, seen: set<FillKey>,
                    intents: map<FillKey, HedgeIntent>, ledger: Ledger, n: nat)
    requires n < |ledger| && Checked(records, seen, intents, ledger[..n])
    ensures Checked(records, seen, intents, ledger[..n + 1]) <==>
      && !HasKey(ledger[..n], ledger[n].key)
      && SourceAgrees(records, seen, ledger[n]) && IntentAgrees(intents, ledger[n])
      && ledger[n].owed == Obligation(ledger[..n], ledger[n].route, ledger[n].signed)
  {
    var front, more := ledger[..n], ledger[..n + 1];
    assert more[..n] == front && more == front + [ledger[n]];
    if Checked(records, seen, intents, more) {
      assert more[n] == ledger[n];
    }
  }

  // A rejected entry spoils the whole ledger.
  lemma StepRefuted(records: map<int, SourceOrder>, seen: set<FillKey>,
                    intents: map<FillKey, HedgeIntent>, ledger: Ledger, n: nat)
    requires n < |ledger| && Checked(records, seen, intents, ledger[..n])
    requires !Checked(records, seen, intents, ledger[..n + 1])
    ensures !LedgerValid(records, seen, intents, ledger)
  {
    if LedgerValid(records, seen, intents, ledger) {
      CheckedPrefix(records, seen, intents, ledger, n + 1);
    }
  }

  function Get<K(==)>(m: map<K, int>, key: K): int {
    if key in m then m[key] else 0
  }

  // The running totals of the check agree with the entries seen so far.
  ghost predicate BalancesAgree(ledger: Ledger, balances: map<Route, int>) {
    forall route :: Get(balances, route) == Balance(ledger, route)
  }

  ghost predicate TotalsAgree(ledger: Ledger, totals: map<int, int>) {
    forall cid :: Get(totals, cid) == OrderTotal(ledger, cid)
  }

  ghost predicate KeysAgree(ledger: Ledger, done: set<FillKey>) {
    forall key :: key in done <==> HasKey(ledger, key)
  }

  lemma HasKeyStep(ledger: Ledger, n: nat, key: FillKey)
    requires n < |ledger|
    ensures HasKey(ledger[..n + 1], key) <==> HasKey(ledger[..n], key) || key == ledger[n].key
  {
    if HasKey(ledger[..n], key) {
      var i :| 0 <= i < n && ledger[..n][i].key == key;
      assert ledger[..n + 1][i].key == key;
    }
    assert ledger[..n + 1][n] == ledger[n];
  }

  lemma RunningStep(ledger: Ledger, n: nat, balances: map<Route, int>, totals: map<int, int>, done: set<FillKey>)
    requires n < |ledger|
    requires BalancesAgree(ledger[..n], balances) && TotalsAgree(ledger[..n], totals) && KeysAgree(ledger[..n], done)
    ensures
      var item := ledger[n];
      && BalancesAgree(ledger[..n + 1], balances[item.route := Get(balances, item.route) + item.signed - item.owed])
      && TotalsAgree(ledger[..n + 1], totals[item.key.cid := Get(totals, item.key.cid) + Abs(item.signed)])
      && KeysAgree(ledger[..n + 1], done + {item.key})
  {
    var more := ledger[..n + 1];
    assert more[..|more| - 1] == ledger[..n] && more[|more| - 1] == ledger[n];
    var item := ledger[n];
    forall route
      ensures Get(balances[item.route := Get(balances, item.route) + item.signed - item.owed], route) == Balance(more, route)
    {
      assert Get(balances, route) == Balance(ledger[..n], route);
    }
    forall cid
      ensures Get(totals[item.key.cid := Get(totals, item.key.cid) + Abs(item.signed)], cid) == OrderTotal(more, cid)
    {
      assert Get(totals, cid) == OrderTotal(ledger[..n], cid);
    }
    forall key ensures HasKey(more, key) <==> HasKey(ledger[..n], key) || key == ledger[n].key {
      HasKeyStep(ledger, n, key);
    }
  }

  predicate Accepts(records: map<int, SourceOrder>, seen: set<FillKey>, item: Allocation, combined: int,
                    done: set<FillKey>, unclaimed: map<FillKey, HedgeIntent>) {
    && item.key !in done && SourceAgrees(records, seen, item)
    && item.owed == OUNCE * HalfEven(combined) && IntentAgrees(unclaimed, item)
  }

  // The check of one entry against the running totals decides the longer prefix.
  lemma AcceptsIff(records: map<int, SourceOrder>, seen: set<FillKey>, intents: map<FillKey, HedgeIntent>,
                   ledger: Ledger, n: nat, combined: int, done: set<FillKey>)
    requires n < |ledger| && Checked(records, seen, intents, ledger[..n]) && KeysAgree(ledger[..n], done)
    requires combined == Balance(ledger[..n], ledger[n].route) + ledger[n].signed
    ensures Accepts(records, seen, ledger[n], combined, done, intents - done)
      <==> Checked(records, seen, intents, ledger[..n + 1])
  {
    CheckedStep(records, seen, intents, ledger, n);
  }

  /** The ordered check of every entry, then of what is left over. */
  method ValidateAllocations(records: map<int, SourceOrder>, seen: set<FillKey>,
                             intents: map<FillKey, HedgeIntent>, ledger: Ledger) returns (ok: bool)
    ensures ok <==> LedgerValid(records, seen, intents, ledger)
  {
    var balances: map<Route, int>, totals: map<int, int> := map[], map[];
    var done: set<FillKey>, unclaimed := {}, intents;
    for n := 0 to |ledger|
      invariant Checked(records, seen, intents, ledger[..n])
      invariant BalancesAgree(ledger[..n], balances) && TotalsAgree(ledger[..n], totals)
      invariant KeysAgree(ledger[..n], done) && unclaimed == intents - done
    {
      var item := ledger[n];
      var combined := Get(balances, item.route) + item.signed;
      AcceptsIff(records, seen, intents, ledger, n, combined, done);
      if !Accepts(records, seen, item, combined, done, unclaimed) {
        StepRefuted(records, seen, intents, ledger, n);
        return false;
      }
      RunningStep(ledger, n, balances, totals, done);
      done := done + {item.key};
      balances := balances[item.route := combined - item.owed];
      totals := totals[item.key.cid := Get(totals, item.key.cid) + Abs(item.signed)];
      unclaimed := unclaimed - {item.key};
    }
    assert ledger[..|ledger|] == ledger;
    ok := done == seen && unclaimed == map[] && forall cid :: cid in records ==> Get(totals, cid) == records[cid].filled;
    NothingLeftIff(records, seen, intents, ledger, done, unclaimed, totals);
  }

  lemma NothingLeftIff(records: map<int, SourceOrder>, seen: set<FillKey>, intents: map<FillKey, HedgeIntent>, ledger: Ledger,
                       done: set<FillKey>, unclaimed: map<FillKey, HedgeIntent>, totals: map<int, int>)
    requires Checked(records, seen, intents, ledger) && TotalsAgree(ledger, totals)
    requires KeysAgree(ledger, done) && unclaimed == intents - done
    ensures LedgerValid(records, seen, intents, ledger) <==>
      && done == seen && unclaimed == map[]
      && forall cid :: cid in records ==> Get(totals, cid) == records[cid].filled
  {
    LeftOver(records, seen, intents, ledger, done, unclaimed);
  }

  lemma LeftOver(records: map<int, SourceOrder>, seen: set<FillKey>, intents: map<FillKey, HedgeIntent>,
                 ledger: Ledger, done: set<FillKey>, unclaimed: map<FillKey, HedgeIntent>)
    requires Checked(records, seen, intents, ledger)
    requires forall key :: key in done <==> HasKey(ledger, key)
    requires forall key :: key in unclaimed <==> key in intents && key !in done
    ensures done == seen <==> forall key :: key in seen ==> HasKey(ledger, key)
    ensures unclaimed == map[] <==> forall key :: key in intents ==> HasKey(ledger, key)
  {
    forall key | key in done ensures key in seen {
      var i :| 0 <= i < |ledger| && ledger[i].key == key;
      assert SourceAgrees(records, seen, ledger[i]);
    }
    if forall key :: key in seen ==> HasKey(ledger, key) {
      assert done == seen;
    }
  }

  // ---------------------------------------------------------------- reserving a fill

  datatype Books = Books(records: map<int, SourceOrder>, seen: set<FillKey>,
                         intents: map<FillKey, HedgeIntent>, ledger: Ledger)

  ghost predicate BooksValid(b: Books) {
    LedgerValid(b.records, b.seen, b.intents, b.ledger)
  }

  function NewIntent(order: SourceOrder, key: FillKey, fill: int, owed: int): HedgeIntent {
    HedgeIntent(key, order.side, fill, if owed > 0 then HedgePlan.Sell else HedgePlan.Buy, Abs(owed),
                order.hedgePosition, order.hedgePositionQuantity, Pending, None, 0, [], 0, 0, [])
  }

  /** Record one actual fill: the order's total, the fill's identity, its allocation and, when
      whole ounces accrue, one obligation.  `status` is the order's next status. */
  function Reserve(b: Books, key: FillKey, fill: int, status: SourceStatus): Books
    requires key.cid in b.records
  {
    var order := b.records[key.cid];
    var signed := HedgePlan.Signed(order.side, fill);
    var owed := Obligation(b.ledger, RouteOf(order), signed);
    Books(b.records[key.cid := order.(filled := order.filled + fill, status := status)], b.seen + {key},
          if owed == 0 then b.intents else b.intents[key := NewIntent(order, key, fill, owed)],
          Allocate(b.ledger, key, RouteOf(order), signed))
  }

  lemma ReserveChecked(b: Books, key: FillKey, fill: int, status: SourceStatus)
    requires BooksValid(b) && key.cid in b.records && key !in b.seen && fill > 0
    ensures var b' := Reserve(b, key, fill, status); Checked(b'.records, b'.seen, b'.intents, b'.ledger)
  {
    var b' := Reserve(b, key, fill, status);
    var n := |b.ledger|;
    assert b'.ledger[..n] == b.ledger;
    forall i | 0 <= i < n ensures b.ledger[i].key != key {
      assert SourceAgrees(b.records, b.seen, b.ledger[i]);
    }
    assert !HasKey(b.ledger, key);
    forall i | 0 <= i < |b'.ledger|
      ensures SourceAgrees(b'.records, b'.seen, b'.ledger[i]) && IntentAgrees(b'.intents, b'.ledger[i])
    {
      if i < n {
        assert SourceAgrees(b.records, b.seen, b.ledger[i]) && IntentAgrees(b.intents, b.ledger[i]);
      }
    }
  }

  /** Every ledger grown by reservations passes the check. */
  lemma ReserveKeepsValid(b: Books, key: FillKey, fill: int, status: SourceStatus)
    requires BooksValid(b) && key.cid in b.records && key !in b.seen && fill > 0
    ensures BooksValid(Reserve(b, key, fill, status))
  {
    var b' := Reserve(b, key, fill, status);
    ReserveChecked(b, key, fill, status);
    var n := |b.ledger|;
    assert b'.ledger[..n] == b.ledger;
    forall k | HasKey(b.ledger, k) || k == key ensures HasKey(b'.ledger, k) {
      if k == key {
        assert b'.ledger[n].key == key;
      } else {
        var i :| 0 <= i < n && b.ledger[i].key == k;
        assert b'.ledger[i].key == k;
      }
    }
  }

  /** Submitting a new order, with no fill yet, keeps the books valid. */
  lemma NewOrderKeepsValid(b: Books, order: SourceOrder)
    requires BooksValid(b) && order.cid !in b.records && order.filled == 0
    ensures BooksValid(b.(records := b.records[order.cid := order]))
  {
    var b' := b.(records := b.records[order.cid := order]);
    forall i | 0 <= i < |b.ledger| ensures SourceAgrees(b'.records, b.seen, b.ledger[i]) && IntentAgrees(b.intents, b.ledger[i]) {
      assert SourceAgrees(b.records, b.seen, b.ledger[i]) && IntentAgrees(b.intents, b.ledger[i]);
    }
    NoFills(b.ledger, order.cid, b.records, b.seen);
  }

  lemma {:induction false} NoFills(ledger: Ledger, cid: int, records: map<int, SourceOrder>, seen: set<FillKey>)
    requires cid !in records && forall i :: 0 <= i < |ledger| ==> SourceAgrees(records, seen, ledger[i])
    ensures OrderTotal(ledger, cid) == 0
  {
    if ledger != [] {
      NoFills(ledger[..|ledger| - 1], cid, records, seen);
      assert SourceAgrees(records, seen, ledger[|ledger| - 1]);
    }
  }
}
