/** Which ledgers a store's facts bear out, entry by entry. */
module LedgerFacts {
  import opened Rounding
  import opened Records
  import opened AllocationLedger
  import HedgePlan

  /** The whole ounces nearest to a sum, the even number of them at a tie. */
  predicate Nearest(sum: int, ounces: int) {
    && -OUNCE <= 2 * (sum - OUNCE * ounces) <= OUNCE
    && (2 * (sum - OUNCE * ounces) == OUNCE || 2 * (sum - OUNCE * ounces) == -OUNCE ==> ounces % 2 == 0)
  }

  /** Fills net only within one pair of accounts and clients, and not at all without both accounts or
      when the order is bound to one hedge ticket. */
  predicate OnRoute(order: SourceOrder, cid: int, route: Route) {
    && route.sourceAccount == order.sourceAccount && route.sourceClient == order.sourceClient
    && route.hedgeAccount == order.hedgeAccount && route.hedgeClient == order.hedgeClient
    && route.isolated ==
       if order.hedgePosition.Some? || order.sourceAccount in {None, Some(0)} || order.hedgeAccount in {None, Some(0)} then Some(cid)
       else None
  }

  /** The entry is a fill of a known order, on its side and route. */
  predicate EntryOf(records: map<int, SourceOrder>, item: Allocation) {
    && item.key.cid in records && OnRoute(records[item.key.cid], records[item.key.cid].cid, item.route)
    && (if records[item.key.cid].side == HedgePlan.Buy then item.signed > 0 else item.signed < 0)
  }

  /** What an entry owes has one obligation, on the opposite side and of that size. */
  predicate Owed(intents: map<FillKey, HedgeIntent>, item: Allocation) {
    if item.owed == 0 then item.key !in intents
    else
      && item.key in intents && intents[item.key].sourceFill == Abs(item.signed)
      && (if item.owed > 0 then intents[item.key].hedgeSide == HedgePlan.Sell && intents[item.key].quantity == item.owed
          else intents[item.key].hedgeSide == HedgePlan.Buy && intents[item.key].quantity == -item.owed)
  }

  ghost predicate EntryAt(ledger: Ledger, n: int, key: FillKey) {
    0 <= n < |ledger| && ledger[n].key == key
  }

  /** The entry was allocated the nearest whole ounces of its route's balance and its own fill. */
  ghost predicate AllocatedAt(ledger: Ledger, n: int)
    requires 0 <= n < |ledger|
  {
    exists ounces :: ledger[n].owed == OUNCE * ounces && Nearest(Balance(ledger[..n], ledger[n].route) + ledger[n].signed, ounces)
  }

  lemma NearestIsHalfEven(sum: int, ounces: int)
    ensures Nearest(sum, ounces) <==> ounces == HalfEven(sum)
  {
    if Nearest(sum, ounces) {
      HalfEvenUnique(sum, ounces);
    }
  }

  lemma {:induction false} OnlineIff(ledger: Ledger)
    ensures Online(ledger) <==> forall n :: 0 <= n < |ledger| ==> AllocatedAt(ledger, n)
  {
    if ledger != [] {
      var m := |ledger| - 1;
      var front := ledger[..m];
      OnlineIff(front);
      forall n | 0 <= n < m ensures AllocatedAt(ledger, n) <==> AllocatedAt(front, n) {
        assert front[..n] == ledger[..n];
      }
      LastAllocated(ledger, m);
    }
  }

  lemma LastAllocated(ledger: Ledger, m: nat)
    requires |ledger| == m + 1
    ensures AllocatedAt(ledger, m) <==> ledger[m].owed == Obligation(ledger[..m], ledger[m].route, ledger[m].signed)
  {
    var sum := Balance(ledger[..m], ledger[m].route) + ledger[m].signed;
    NearestIsHalfEven(sum, HalfEven(sum));
    if ounces :| ledger[m].owed == OUNCE * ounces && Nearest(sum, ounces) {
      NearestIsHalfEven(sum, ounces);
    }
  }

  /** The ordered check passes exactly the ledgers that hold each recorded fill once, as an entry of its
      order, allocated the nearest whole ounces, with one obligation for what it owes; and whose entries
      add up to what each order has filled. */
  lemma LedgerAcceptedIff(records: map<int, SourceOrder>, seen: set<FillKey>, intents: map<FillKey, HedgeIntent>,
                          ledger: Ledger)
    ensures LedgerValid(records, seen, intents, ledger) <==>
      && (forall n, m, key :: EntryAt(ledger, n, key) && EntryAt(ledger, m, key) ==> n == m)
      && (forall key :: key in seen <==> exists n :: EntryAt(ledger, n, key))
      && (forall key :: key in intents ==> exists n :: EntryAt(ledger, n, key))
      && (forall n :: 0 <= n < |ledger| ==>
            EntryOf(records, ledger[n]) && AllocatedAt(ledger, n) && Owed(intents, ledger[n]))
      && (forall cid :: cid in records ==> records[cid].filled == OrderTotal(ledger, cid))
  {
    OnlineIff(ledger);
    KeysIff(ledger);
    SeenIff(seen, ledger);
    forall n | 0 <= n < |ledger|
      ensures SourceAgrees(records, seen, ledger[n]) && IntentAgrees(intents, ledger[n])
        <==> ledger[n].key in seen && EntryOf(records, ledger[n]) && Owed(intents, ledger[n])
    {
      EntryIff(records, seen, intents, ledger[n]);
    }
  }

  lemma EntryIff(records: map<int, SourceOrder>, seen: set<FillKey>, intents: map<FillKey, HedgeIntent>, item: Allocation)
    ensures SourceAgrees(records, seen, item) && IntentAgrees(intents, item)
      <==> item.key in seen && EntryOf(records, item) && Owed(intents, item)
  {
  }

  lemma SeenIff(seen: set<FillKey>, ledger: Ledger)
    ensures (forall key :: key in seen <==> exists n :: EntryAt(ledger, n, key)) <==>
      (forall n :: 0 <= n < |ledger| ==> ledger[n].key in seen) && forall key :: key in seen ==> HasKey(ledger, key)
  {
    KeysIff(ledger);
    forall n | 0 <= n < |ledger| ensures EntryAt(ledger, n, ledger[n].key) {
    }
  }

  lemma KeysIff(ledger: Ledger)
    ensures DistinctKeys(ledger) <==> forall n, m, key :: EntryAt(ledger, n, key) && EntryAt(ledger, m, key) ==> n == m
    ensures forall key :: HasKey(ledger, key) <==> exists n :: EntryAt(ledger, n, key)
  {
    if forall n, m, key :: EntryAt(ledger, n, key) && EntryAt(ledger, m, key) ==> n == m {
      forall i, j | 0 <= i < j < |ledger| ensures ledger[i].key != ledger[j].key {
        assert EntryAt(ledger, i, ledger[i].key) && !EntryAt(ledger, j, ledger[i].key);
      }
    }
    forall key | HasKey(ledger, key) ensures exists n :: EntryAt(ledger, n, key) {
      var i :| 0 <= i < |ledger| && ledger[i].key == key;
      assert EntryAt(ledger, i, key);
    }
  }
}
