/** The durable records: source orders, their routes and fills, and hedge obligations.

    Identifiers are opaque numbers and EMPTY stands for the empty text; only equality and
    emptiness matter.  Quantities are in units of 1e-8 ounce. */
module Records {
  import opened Rounding
  import opened HedgePlan

  const EMPTY := 0

  datatype FillKey = FillKey(cid: int, venue: int, trade: int)

  datatype SourceStatus =
    | Submitting | PartiallyFilled | Filled | Denied | Rejected | Canceled | Expired | Unknown | Working

  datatype SourceOrder = SourceOrder(
    cid: int, side: Side, quantity: int,
    sourceAccount: Option<int>, sourceClient: Option<int>, hedgeAccount: Option<int>, hedgeClient: Option<int>,
    hedgePosition: Option<string>, hedgePositionQuantity: Option<int>,
    filled: int, status: SourceStatus)

  /** Fills of one route share one residual. */
  datatype Route = Route(sourceAccount: Option<int>, sourceClient: Option<int>,
                         hedgeAccount: Option<int>, hedgeClient: Option<int>, isolated: Option<int>)

  predicate Blank(id: Option<int>) {
    id == None || id == Some(EMPTY)
  }

  /** An order without both accounts, or bound to one hedge ticket, nets with no other order. */
  function RouteOf(order: SourceOrder): Route {
    var isolated := Blank(order.sourceAccount) || Blank(order.hedgeAccount) || order.hedgePosition.Some?;
    Route(order.sourceAccount, order.sourceClient, order.hedgeAccount, order.hedgeClient,
          if isolated then Some(order.cid) else None)
  }

  datatype ObligationStatus =
    | Pending | HedgeSubmitting | HedgeSubmitted | HedgeAccepted | Completed | Blocked | HedgeRejected | HedgeUnknown

  datatype HedgeIntent = HedgeIntent(
    key: FillKey, sourceSide: Side, sourceFill: int, hedgeSide: Side, quantity: int,
    position: Option<string>, positionQuantity: Option<int>,
    status: ObligationStatus, orderId: Option<int>, filled: int,
    plan: seq<Leg>, legIndex: nat, legFilled: int, orderIds: seq<int>)
}
