# Bookkeeping of the gold arbitrage runtime, in Dafny

The runtime buys and sells gold on Bitfinex (the source leg) and hedges every actual fill on MT5.
This project models the bookkeeping that has to survive partial fills in any order, repeated and
reordered frames, failed writes and sends whose outcome is unknown, and proves what it keeps.

Quantities are integers in units of 1e-8 ounce, the source venue's grid; one ounce is 100000000
units.

| file | what it models |
|---|---|
| Rounding, CarryBounds, CarryExactness | half-to-even rounding, the carry machine of one route, the closed-form bounds over all its runs, and when they are reached |
| Records, AllocationLedger, LedgerFacts, LedgerLane, HedgedLedger | the allocation ledger, its ordered check, and the ledger with its hedge fills as runs of the carry machine |
| Durability, MakerSpec, CycleEvidence, MakerSafety, MakerLedger, MakerEffects, MakerIdentities, CycleClear, OwnerHedging, MakerStore | the transactional state owner: specification, safety and carry bounds over all runs and write outcomes, what each operation takes and leaves, when a cycle's freezes go, and the mutable class |
| HedgePlan, HedgeLane, HedgeRecord, HedgeDispatch | translating a delta into ticket closes and one open, an obligation driven through its plan, and exactly which changes and legs are taken |
| OrderStream, OrderStreamSafety, OrderStreamRuns, OrderStreamFills, OrderStreamUnique, OrderStreamRaises, OrderStreamPrices, OrderStreamTerminals, OrderStreamGuards, OrderStreamCounterexamples, ExecutionClient | the private execution stream: specification, proofs over all runs and through raises, prices and settlement, exactly which frames are taken, concrete failing runs, and the mutable client |
| OrderPaging, HistoryPaging | the two paging loops over the venue's history |
| TerminalReconciler, ReconcilerRounds, ReconcilerActor | the single-flight reconciler at its await points, what its rounds rest on, and the mutable actor |
| BookFeed, FeedChannels, FeedGuards, BookClient | the checksum-gated book, its published levels and its channels, exactly which frames are consumed, and the mutable book and client |
| FeeTrades, CidStore, FeeEvidence, CidClient, FeeCoverage, FeeMatching | CIDs, fee evidence, its file, and the coverage check |

Each mutable class is proved to do exactly what a specification function says, method by method,
and the properties are then proved of that function over all inputs and all runs. A raised
exception is a `None`, an `ok == false` or a `raised` result. Where a private frame raises, the
original closes the stream; `OrderStreamRaises` follows runs through the raise and the close.

A write (`Durability.WriteOutcome`) ends in one of three ways: written, not written with the file
unchanged, or published but raised.

## Assumptions

- `round_hedge_ounces` goes through `float` (`src/py000_nautilus/economics.py:253-255`). The model
  rounds exactly. On the 8-decimal grid the two agree below 2^27 ounces in size.
- The venue's history is one fixed finite sequence that a page function answers from, in the order
  each paging theorem names.
- The checksum test is an arbitrary predicate on the book and the value; the commission a fee is
  booked at is an arbitrary function of the fee.
- Identifiers and reasons are opaque numbers of which only equality and emptiness matter. An
  obligation's intent ID is a digest of its fill key; the model uses the fill key itself.

## Where the code keeps less than one might expect

These are proved as exact conditions, each with a concrete run.

- A trade ID can be published twice. It happens exactly when an order frame claims a buffered
  execution that is already recorded (`OrderStreamFills.FillsStayUniqueIff`): `ou` arriving before
  `on` leaves the execution in the buffer (`UpdateFirstFillsTwice`), and so does one trade ID under
  two venue orders (`TwoVenuesFillTwice`). With `on` or `oc` first and one venue order per trade ID
  it cannot happen in any run (`OrderStreamUnique.EachTradeFillsOnce`).
- A settled order can keep a modify deadline. It happens exactly when the modify's send returns
  after the order's terminal (`DeadlinesStayPendingIff`, `LateModifyLeavesDeadline`).
- A reconciler root can end in success with a request pending and no root to drain it. It happens
  exactly for requests that come in while a root ends without a drain (`RootEndLeavesPendingIff`,
  `RecoveryCanLeaveARequest`).
- A subscription that sends an unsubscribe while another of its own is unanswered forgets the first,
  whose acknowledgment then closes the feed (`FeedChannels.OutstandingAckIff`,
  `EveryAckAcceptedIff`). It can do so by leaving again (`SecondLeaveForgetsFirst`) or when the
  acknowledgment of a subscription already left comes (`LateAckForgetsFirst`).
- An obligation reported as BLOCKED stops without halting its view, unlike one that is rejected,
  unknown or blocked by planning or a fill (`MakerEffects.BlockedReportDoesNotHalt`,
  `EveryStopHalts`).
- The cumulative SELL and BUY bounds are each exact except in one case, where they count an ounce
  that half-to-even rounding never hedges (`SellBoundIsAttainedIff`, `BuyBoundIsAttainedIff`).
- The exposure and single-intent bounds are each reached exactly under a condition on the start and
  the leaves (`ExposureBoundIsAttainedIff`, `IntentBoundIsAttainedIff`).
- Both paging loops refuse, rather than lose rows, exactly when a full page shares one timestamp.

## Model

| member | source | states |
|---|---|---|
| Rounding.HalfEven | src/py000_nautilus/economics.py:253-255 | The hedge ounces are the nearest integer to the combined quantity, and the even one at a tie |
| Rounding.HalfEvenUnique | src/py000_nautilus/economics.py:253-255 | Those two clauses leave exactly one integer, so they define the rounding |
| Rounding.HalfEvenZero | src/py000_nautilus/economics.py:253-255 | No hedge is owed exactly while the combined quantity is at most half an ounce in size; a positive one exactly above half |
| Rounding.HalfEvenOdd | src/py000_nautilus/economics.py:253-255 | Buying and selling round symmetrically |
| CarryBounds.CarryBoundsHold | src/py000_nautilus/maker_economics.py:203-217 | From any residual of at most half an ounce, for every interleaving and split of fills within the two leaves, with hedges executed in allocation order and stopped anywhere inside an obligation, the unhedged exposure never exceeds the first closed form and the net executed hedge stays within the other two |
| CarryBounds.OneSidedExposureIsAttained | src/py000_nautilus/maker_economics.py:203-217 | With one side working the exposure bound is exact: some run shows it |
| CarryBounds.SellBoundIsAttainedIff | src/py000_nautilus/maker_economics.py:203-217 | Some run executes the cumulative SELL bound in full exactly unless all buying together reaches just half an ounce (where half-to-even sells nothing and the bound counts one ounce) |
| CarryBounds.BuyBoundIsAttainedIff | src/py000_nautilus/maker_economics.py:203-217 | The cumulative BUY bound is exact under the mirrored condition |
| CarryBounds.MirrorRun | src/py000_nautilus/maker_economics.py:203-217 | Swapping the sides of every fill and hedge swaps the sides of the whole run, so buying and selling are bounded alike |
| CarryExactness.WorstExposures | src/py000_nautilus/maker_economics.py:203-217 | The exact worst exposures of all runs, on both sides: none goes beyond, and each is reached |
| CarryExactness.ExposureBoundIsAttainedIff | src/py000_nautilus/maker_economics.py:203-217 | The exposure bound is reached with one side working; with both, exactly if the side with the larger leaves can first be left with half an ounce: it starts there, or the other leaves reach the tie an ounce and a half beyond |
| CarryExactness.LargestObligation | src/py000_nautilus/maker_economics.py:220-227 | The exact largest obligation a buy fill of any run can create |
| CarryExactness.IntentBoundIsAttainedIff | src/py000_nautilus/maker_economics.py:220-227 | Exactly when the single-intent bound of a buying side is reached; always, when the other side does not work |
| CarryBounds.SingleIntentBound | src/py000_nautilus/maker_economics.py:220-227 | In every such run a buy fill never owes a BUY hedge nor a sell fill a SELL hedge, and no single obligation exceeds the single-intent bound of its side |
| CarryBounds.GateIff | src/py000_nautilus/maker_economics.py:181-236 | The gate accepts two cumulative bounds exactly when the buying fits the long capacity and the selling the short one, and at both ends the position is within the maximum or has shrunk and, in only-long mode, neither changes side nor shrinks below the minimum |
| CarryBounds.BetweenAcceptedEnds | src/py000_nautilus/maker_economics.py:181-200 | Two accepted end positions make every position between them admissible: size at most max(before, maximum), and in only-long mode no change of sign and no fall below min(before, minimum) |
| CarryBounds.GateCoversEveryPoint | src/py000_nautilus/maker_economics.py:203-236 | Once the gate accepts the two cumulative bounds, at every point of every run the net hedge bought fits the long capacity, the net hedge sold the short one, and the hedge position is admissible |
| LedgerLane.LedgerIsLane | src/py000_nautilus/maker_store.py:270-276 | Growing the real ledger of many interleaved routes is, per route, a run of the carry machine: same residual, same obligations in the same order, same totals |
| LedgerLane.LedgerWithinCarryBounds | src/py000_nautilus/maker_economics.py:203-217 | Before any hedge, the exposure and obligations that any ledger growth within the leaves leaves behind stay within the closed forms computed from the balance before it |
| LedgerLane.LedgerObligationBound | src/py000_nautilus/maker_economics.py:220-227 | The next obligation of a real ledger opposes its fill and is within the single-intent bound |
| HedgedLedger.StepSimulates | src/py000_nautilus/maker_store.py:217-230 | A source fill, or a hedge fill at the first unfinished obligation of the ledger, is per route one event of the carry machine; everything else is none |
| HedgedLedger.StoreWithinCarryBounds | src/py000_nautilus/maker_economics.py:203-217 | From books with every obligation completed, over any order of source fills on many routes, hedge fills and other changes, and stopped anywhere inside an obligation: per route the exposure and the executed hedge stay within the closed forms computed at the start |
| OwnerHedging.OperationSteps | src/py000_nautilus/maker_store.py:599-625 | Every owner operation steps the books that way, or leaves them |
| OwnerHedging.OwnerWithinCarryBounds | src/py000_nautilus/maker_economics.py:203-217 | The same bounds over every run of the owner's operations and write outcomes, with hedge fills in turn |
| AllocationLedger.OnlineIsBuilt | src/py000_nautilus/maker_store.py:483-497 | A ledger passes the ordered check exactly when it is what the online allocator builds from its own fills |
| AllocationLedger.PassingLedgerIsBuilt | src/py000_nautilus/maker_store.py:473-515 | A ledger that passes validation is the allocator's own history, and per route fills less allocations are at most half an ounce |
| AllocationLedger.ValidateAllocations | src/py000_nautilus/maker_store.py:473-515 | The single pass with running balances, totals and unclaimed obligations accepts exactly the valid ledgers: online, one entry per fill, matching orders and obligations, nothing left over, totals equal to every order's filled quantity |
| LedgerFacts.LedgerAcceptedIff | src/py000_nautilus/maker_store.py:473-515 | The ordered check passes exactly the ledgers that hold each recorded fill once, on its order's side and route, allocated the nearest whole ounces (even at a tie) of the route's balance before it and its own size, with one opposite obligation for what it owes; and whose entries add up to what each order has filled |
| AllocationLedger.BalanceWithinHalf | src/py000_nautilus/maker_store.py:270-276 | However its fills were split, a route keeps back at most half an ounce |
| AllocationLedger.FillsAreAllocationsPlusBalance | src/py000_nautilus/maker_store.py:245-276 | Per route, fills = allocations + balance |
| AllocationLedger.RouteBalancesMean | src/py000_nautilus/maker_store.py:245-253 | The accumulated dictionary holds each route once, with its exact balance |
| AllocationLedger.ComputeRouteBalances | src/py000_nautilus/maker_store.py:245-253 | The loop computes that dictionary |
| AllocationLedger.ResidualsAddUp | src/py000_nautilus/maker_store.py:570-573 | The views' rounding residuals add up to the sum of all route balances, that is every fill less every allocation |
| AllocationLedger.ReserveKeepsValid | src/py000_nautilus/store.py:330-385 | Reserving any new fill of a known order turns valid books into valid books |
| AllocationLedger.NewOrderKeepsValid | src/py000_nautilus/store.py:207-250 | So does submitting a new order |
| MakerLedger.ReservedIsReserve | src/py000_nautilus/maker_store.py:599-625 | The reservation made on the view states is the reservation of the merged books |
| MakerLedger.LedgerIsNeverRefused | src/py000_nautilus/maker_store.py:473-515 | From a sound image no owner operation reaches a ledger the ordered check refuses |
| MakerSafety.EmptyIsValid | src/py000_nautilus/maker_store.py:84-133 | A new owner's empty image passes every check |
| MakerSafety.StepSettles | src/py000_nautilus/maker_store.py:286-311 | After every operation and every write outcome, memory = committed image = file, and it passes every check |
| MakerSafety.EveryRunSettles | src/py000_nautilus/maker_store.py:286-311 | The same over every run from an empty owner |
| MakerSafety.ReservationIsAtomic | src/py000_nautilus/maker_store.py:599-625 | After a reservation the fill, its allocation, its obligation (exactly when whole ounces accrue) and a freeze on every view are all present or memory is unchanged; a change that raises is one that was published |
| MakerSafety.FreezeTakesPermission | src/py000_nautilus/maker_store.py:159-171 | An external freeze takes the freeze-only permission away, whichever way its write ends |
| MakerSafety.HoldSurvives | src/py000_nautilus/maker_store.py:173-185 | Only a clear that succeeds on complete evidence ends a hold |
| MakerSafety.HoldSurvivesRun | src/py000_nautilus/maker_store.py:173-185 | Over every later run the permission stays off until a clear succeeds |
| MakerSafety.FreezesStay | src/py000_nautilus/maker_store.py:278-284 | A freeze is changed or removed only by a clear that reaches the file, when the cycle is over and every frozen view has one reason |
| CycleClear.ThawNeedsEvidence | src/py000_nautilus/maker_store.py:173-185 | A step that changes or removes any freeze is a clear, and before it no view was halted or had an active order, every order was terminal, every obligation completed with its whole quantity filled, every residual admissible, and one reason on every frozen view |
| CycleClear.CycleOverIsHedged | src/py000_nautilus/store.py:143-154 | By then the executed hedge of every route is exactly what was allocated, and the exposure left is a bounded residual of the carrying route or nothing |
| CycleClear.EvidenceThaws | src/py000_nautilus/maker_store.py:173-185 | The converse: on that evidence a clear goes through, and changes nothing but the freezes and the permission |
| CycleClear.EveryThawIsEarned | src/py000_nautilus/maker_store.py:173-185 | In every run from an empty owner a freeze is removed only at the end of such a fully hedged cycle |
| MakerEffects.EveryOutcome | src/py000_nautilus/maker_store.py:286-311 | A change is published only if its image passes every check and the write succeeds; refused or not written, memory is back as it was; published but raised, the change stays and the permission is revoked; a failed external freeze revokes too |
| MakerEffects.PermissionOpensIff | src/py000_nautilus/maker_store.py:599-612 | The permission comes up exactly with a fill that is published while no view is halted or frozen and no publication has failed |
| MakerEffects.PermissionClosesIff | src/py000_nautilus/maker_store.py:159-185 | It goes exactly with an external freeze, however that ends, with a clear that is published, or with a publication that raises |
| MakerEffects.BeginLeaves | src/py000_nautilus/store.py:207-250 | An order is begun exactly in a view that is not halted, frozen or active and has hedged every obligation in full, with admissible residuals; it becomes the active one |
| MakerEffects.ReserveLeaves | src/py000_nautilus/store.py:330-385 | A recorded fill is in its order (FILLED exactly when the quantity is reached), its view (freed of the order and of its halt exactly when that was the active one and is filled), the ledger, and one opposite obligation of the owed size; every other view changes only by the freeze |
| MakerEffects.EveryStopHalts | src/py000_nautilus/store.py:446-611 | In every run in which no obligation is reported as BLOCKED, a view with a blocked, rejected or unknown obligation is halted for a reason that no confirmation or fill takes back |
| MakerEffects.BlockedReportDoesNotHalt | src/py000_nautilus/store.py:461-488 | A reported BLOCKED stops an obligation and halts nothing |
| MakerIdentities.ImageAcceptedIff | src/py000_nautilus/maker_store.py:390-471 | An image passes exactly when it has the owner's views, a permission only over one common freeze, each order, fill, obligation, hedge order and account trade in one place, and a ledger its facts bear out |
| MakerIdentities.EveryRunIdentifies | src/py000_nautilus/maker_store.py:390-471 | In every run each order, fill, obligation, hedge order and account trade is one thing |
| MakerSafety.FailureIsFinal | src/py000_nautilus/maker_store.py:297-311 | After a failed publication the permission stays off, no later write publishes it as true, and no freeze is cleared |
| MakerSafety.FailedPublicationRevokes | src/py000_nautilus/maker_store.py:297-311 | Every publication that raises, and every freeze whose write fails, ends the permission |
| MakerSafety.RevokedForLife | src/py000_nautilus/maker_store.py:297-311 | A permission revoked by a failed publication never returns in any run |
| MakerSafety.PermissionIsCommon | src/py000_nautilus/maker_store.py:397-401 | In every run, whenever the permission is on, all views carry one common freeze reason |
| MakerSafety.ProvenanceIsNeverRefused | src/py000_nautilus/maker_store.py:397-401 | No operation from a settled owner proposes an image that the provenance check refuses |
| MakerStore.MakerStateStore.constructor | src/py000_nautilus/maker_store.py:84-133 | A new owner starts empty, with every view of its configuration |
| MakerStore.MakerStateStore.Validate | src/py000_nautilus/maker_store.py:390-471 | Accepts exactly the images whose freezes, identities and ledger agree |
| MakerStore.MakerStateStore.Persist | src/py000_nautilus/maker_store.py:297-311 | The three write outcomes: committed and written; restored with the file unchanged; committed and written but raised, with the permission dropped |
| MakerStore.MakerStateStore.SetFreezes | src/py000_nautilus/maker_store.py:278-284 | Only views without a freeze take the new one; reports whether anything changed |
| MakerStore.MakerStateStore.Freeze | src/py000_nautilus/maker_store.py:159-171 | An external freeze is the specified step, for each write outcome |
| MakerStore.MakerStateStore.SourceBalanceIsAdmissible | src/py000_nautilus/maker_store.py:201-205 | True exactly when no route but the carrying one has a balance and that one is within its limit |
| MakerStore.MakerStateStore.CanClear | src/py000_nautilus/maker_store.py:173-185 | True exactly when no publication failed, residuals are admissible, no view is halted or active, every order is terminal, every obligation is completed in full, and every frozen view has one reason |
| MakerStore.MakerStateStore.ClearSourceFreezes | src/py000_nautilus/maker_store.py:173-185 | Clears all views, and says so exactly when that evidence was complete and the write did not raise |
| MakerStore.MakerStateStore.BeginSource | src/py000_nautilus/store.py:207-250 | A submission is the specified step, for each write outcome |
| MakerStore.MakerStateStore.UpdateSourceStatus | src/py000_nautilus/store.py:264-278 | So is a source status change |
| MakerStore.MakerStateStore.ConfirmSourceReconciled | src/py000_nautilus/store.py:280-296 | So is the confirmation of a canceled or expired order |
| MakerStore.MakerStateStore.MarkSourceUnknown | src/py000_nautilus/store.py:298-304 | So is a doubt about a source order |
| MakerStore.MakerStateStore.ChangeHedge | src/py000_nautilus/store.py:395-512 | So is every hedge operation: plan, bind, block, status, fill |
| MakerStore.MakerStateStore.AllocateFill | src/py000_nautilus/maker_store.py:270-276 | Appends the one allocation that carries the route's rounded sum |
| MakerStore.MakerStateStore.ReserveSourceFill | src/py000_nautilus/maker_store.py:599-625 | A reservation freezes all views, records and allocates the fill, and publishes all of it or nothing |
| MakerStore.MakerStateStore.FirstUnfinishedHedge | src/py000_nautilus/maker_store.py:217-230 | The earliest allocation, in ledger order, whose obligation is unfinished, or none when there is none |
| MakerStore.MakerStateStore.HedgeDispatchReady | src/py000_nautilus/maker_store.py:575-580 | In a shared owner exactly the first unfinished obligation is ready, for the view it is in |
| MakerStore.MakerStateStore.RoundingResidual | src/py000_nautilus/maker_store.py:570-573 | The view's share of the route balances |
| HedgePlan.PlanHedgeDelta | src/py000_nautilus/hedge.py:36-95 | The validating and planning loops return the plan, or the first defect in report order |
| HedgePlan.CheckTickets | src/py000_nautilus/hedge.py:56-69 | Every reported ticket is authenticated first; success exactly when all are valid and distinct |
| HedgePlan.PlanOrdered | src/py000_nautilus/hedge.py:71-95 | The loop over ordered tickets builds exactly the specified legs |
| HedgePlan.PlanClosesInOrder | src/py000_nautilus/hedge.py:36-95 | A plan sums to the request; closes only opposing tickets in order, never beyond their size, whole ones and then at most one part; opens last, once, and only when every opposing ticket is used up |
| HedgePlan.PlanReachesDelta | src/py000_nautilus/hedge.py:36-95 | A completed plan changes the net position by exactly the signed delta |
| HedgePlan.PlanIgnoresReportOrder | src/py000_nautilus/hedge.py:36-95 | The plan does not depend on the order of the reported positions |
| HedgePlan.IdOrder | src/py000_nautilus/hedge.py:130-134 | The ticket sort key never ties two different identifiers |
| HedgeDispatch.TicketOrder | src/py000_nautilus/hedge.py:130-134 | Numeric identifiers without leading zeros come in numeric order, by length and then by the first digit that differs; they come before all others, and those by text |
| HedgeDispatch.PlanRefusedIff | src/py000_nautilus/hedge.py:36-69 | A plan is refused for a quantity that is not positive, else for the first defect in report order: an empty or repeated ID, a contradictory direction, a quantity that is not positive |
| HedgeDispatch.BoundLegIff | src/py000_nautilus/hedge.py:98-119 | With a bound plan the next leg is handed out exactly when there is one and a close finds exactly one ticket of its ID, of the expected side and quantity, or an open finds every ticket on its own side; anything else blocks an obligation that has not completed |
| HedgeDispatch.FirstLegIff | src/py000_nautilus/hedge.py:168-217 | An unplanned obligation gets its first leg exactly when it is untouched, every ticket is authentic and distinct, and the ticket an exit was bound to is unchanged, first in line and covers it; anything else blocks it |
| HedgePlan.PlanIsStable | src/py000_nautilus/hedge.py:98-119 | After the first k legs the next leg passes its validation, and replanning the remaining quantity on the changed tickets gives exactly the remaining legs |
| HedgeRecord.RecordMadeIff | src/py000_nautilus/models.py:183-268 | A record can be made exactly when its numbers are in step: legs of its side that add up to it, the filled quantity that of the legs behind it and part of the next, order IDs distinct |
| HedgeRecord.PlanBoundIff | src/py000_nautilus/store.py:416-444 | A plan is bound once, before anything was ordered or filled, on the obligation's side and for exactly its quantity |
| HedgeRecord.OrderBoundIff | src/py000_nautilus/store.py:395-414 | An order is bound exactly to a pending obligation that has none, under an ID never used |
| HedgeRecord.FillRecordedIs | src/py000_nautilus/store.py:514-611 | Every positive fill is recorded: exactly the rest of the current leg moves on or completes, an unplanned obligation completes when the quantity is reached, and any other fill, or one after a stop, blocks |
| HedgeLane.BindPlanKeeps | src/py000_nautilus/store.py:416-444 | Binding a plan to an obligation keeps its record sound |
| HedgeLane.ExactFillKeeps | src/py000_nautilus/store.py:514-611 | A fill of the current leg in full moves to the next leg, or completes the obligation |
| HedgeLane.StepKeeps | src/py000_nautilus/models.py:183-268 | Through any operations in any order a running planned obligation has filled exactly its first legs, one full leg per fill |
| HedgeLane.CompletedExactly | src/py000_nautilus/models.py:183-268 | A planned obligation completes only by filling its legs in plan order, each once and in full, so it hedges exactly its quantity |
| HedgeLane.EndsAreFinal | src/py000_nautilus/store.py:395-611 | Nothing changes a completed planned obligation, restarts a stopped one, or replaces a bound plan |
| HedgeLane.RoundAdvances | src/py000_nautilus/hedge.py:168-217 | One round of the coordinator (next leg, validate, bind, fill) advances the obligation and the tickets by exactly one leg |
| HedgeLane.DrivenToCompletion | src/py000_nautilus/hedge.py:168-217 | Driving a planned obligation round by round completes it, with its order IDs in order, and moves the net position by exactly its signed quantity |
| OrderStreamRuns.EveryRunPublishesConsistently | src/py000_nautilus/bitfinex_v1_execution.py:1392-1447 | In every run that raises nothing: published fills sum to the filled quantity, at most the order's; acceptance precedes the first fill; rejection excludes fills; a cancel is published at most once, after all fills, and the fills then sum to the terminal's filled amount |
| OrderStreamSafety.HistoryMeans | src/py000_nautilus/bitfinex_v1_execution.py:1804-1859 | What the observing automaton accepts is exactly that order of acceptance, fills, rejection and cancel |
| OrderStreamRuns.EveryOrderIsSupported | src/py000_nautilus/bitfinex_v1_execution.py:2105-2129 | No run holds an order that is not an IOC taker or a resting post-only maker, reduce-only only with IOC |
| OrderStreamPrices.EveryPriceIsTold | src/py000_nautilus/bitfinex_v1_execution.py:1968-1987 | In every run, also through raises: an order's current price is the last one published for it, or the submitted one if none was; exactly these are known; and every price published or still asked for was asked for by a command |
| OrderStreamPrices.PendingPriceEnds | src/py000_nautilus/bitfinex_v1_execution.py:1968-1987 | A step that ends an asked change publishes exactly that price once and makes it current beside the known ones, or a failure notice or the terminal gives it up and nothing is published; a frame or fill at the asked price always acknowledges it |
| OrderStreamTerminals.SettledIff | src/py000_nautilus/bitfinex_v1_execution.py:1942-1966 | In every run, also through raises, an order that was not rejected is settled exactly when its fills add up to what its terminal reports; a cancel is published exactly if it then ended short; and nothing more is asked of its price |
| OrderStreamGuards.ResolveIff | src/py000_nautilus/bitfinex_v1_execution.py:1989-2024 | A message is about an order exactly when its client ID names it, or is absent and its venue ID does, and neither disagrees; about none exactly when both are unknown |
| OrderStreamGuards.OrderFrameRaisesIff | src/py000_nautilus/bitfinex_v1_execution.py:1392-1447 | A frame about an order raises exactly when it differs from the terminal already held; does not fit the submitted order, its flags, a known price or the executions it claims; does not repeat a definitive rejection; or reports less executed than was filled |
| OrderStreamGuards.OrderFrameAdopts | src/py000_nautilus/bitfinex_v1_execution.py:1416-1447 | An adopted frame accepts the order under its venue ID, fills it by exactly the executions it claims, remembers these instead of keeping them waiting, and if it ends the order is its terminal, with nothing asked of it, in doubt or awaited any more |
| OrderStreamGuards.OrderFrameRejects | src/py000_nautilus/bitfinex_v1_execution.py:1416-1447 | An initial rejection is published at once, settles the order and leaves nothing pending |
| OrderStreamGuards.StagedAreClaimed | src/py000_nautilus/bitfinex_v1_execution.py:1586-1665 | A frame takes exactly the buffered executions it claims, in order of time and trade ID |
| OrderStreamGuards.TradeFrameRaisesIff | src/py000_nautilus/bitfinex_v1_execution.py:1686-1721 | `tu` raises exactly for a rejected order, a trade that does not fit it, facts that differ from those seen or interim, or news the order cannot take |
| OrderStreamGuards.TradeFrameLeaves | src/py000_nautilus/bitfinex_v1_execution.py:1686-1721 | It is remembered, and fills the order by its quantity exactly when it is the first news of its execution |
| OrderStreamGuards.InterimFrameRaisesIff | src/py000_nautilus/bitfinex_v1_execution.py:1494-1584 | `te` raises exactly for a rejected order or a trade that does not fit it and, on paper, when it cannot wait for the flags, differs from what is known of it, or is news the order cannot take |
| OrderStreamGuards.InterimFrameLeaves | src/py000_nautilus/bitfinex_v1_execution.py:1494-1584 | On paper it waits, repeats what is known, or is remembered and fills the order by its quantity; off paper it leaves nothing |
| OrderStreamGuards.StrayInterimRaisesIff | src/py000_nautilus/bitfinex_v1_execution.py:1546-1584 | Of an execution of no known order only a paper one without a client ID is kept; it raises exactly when malformed or without room |
| OrderStreamGuards.NoticeRaisesIff | src/py000_nautilus/bitfinex_v1_execution.py:1861-1922 | A failure notice raises exactly when it fails what is neither pending nor in doubt, or contradicts the definitive rejection |
| OrderStreamGuards.NoticeLeaves | src/py000_nautilus/bitfinex_v1_execution.py:1861-1922 | After it the operation is neither pending, in doubt nor awaited, and exactly one rejection is published |
| OrderStreamGuards.ModifySentIff | src/py000_nautilus/bitfinex_v1_execution.py:1177-1211 | In every reachable state a change is sent exactly for an accepted order without a terminal and with nothing else asked of it; otherwise its refusal is published; it never raises |
| OrderStreamGuards.CancelSentIff | src/py000_nautilus/bitfinex_v1_execution.py:1213-1231 | So is a cancel, for an accepted order without a terminal that is not being canceled |
| OrderStreamRaises.OrderRaisesIff | src/py000_nautilus/bitfinex_v1_execution.py:1392-1447 | An order frame that passed its checks raises exactly if it contradicts a definitive rejection, or its terminal reports less than was already filled |
| OrderStreamRaises.AdoptRaisesIff | src/py000_nautilus/bitfinex_v1_execution.py:1586-1684 | Adoption and the release of checked executions never raise before the last check |
| OrderStreamRaises.FillRaisesIff | src/py000_nautilus/bitfinex_v1_execution.py:1804-1832 | On a sound stream a fill raises exactly at its own checks, before it changes anything |
| OrderStreamRaises.RaisesForgetNothing | src/py000_nautilus/bitfinex_v1_execution.py:833-849 | Over every run that goes through a raise, its partial work and the close: a pending operation of an order without a terminal keeps a deadline or an UNKNOWN mark |
| OrderStreamRaises.RaisesPublishConsistently | src/py000_nautilus/bitfinex_v1_execution.py:833-849 | Over the same runs everything published stays consistent |
| OrderStreamRuns.EveryRunRemembersMutations | src/py000_nautilus/bitfinex_v1_execution.py:1239-1308 | No mutation is forgotten: outside its own send a pending operation of an order without a terminal has a deadline or an UNKNOWN mark; a deadline belongs to a pending operation, or to a modify behind a terminal |
| OrderStreamRuns.DeadlinesStayPendingIff | src/py000_nautilus/bitfinex_v1_execution.py:1239-1278 | A step leaves a deadline for nothing pending, or behind a terminal, exactly when a modify's send returns after its order's terminal |
| OrderStreamRuns.DeadlinesPendingInRun | src/py000_nautilus/bitfinex_v1_execution.py:1239-1308 | Without such late sends every deadline of every run belongs to a pending operation |
| OrderStreamCounterexamples.LateModifyLeavesDeadline | src/py000_nautilus/bitfinex_v1_execution.py:1942-1966 | A concrete run in which a settled order keeps a modify deadline |
| OrderStreamRuns.CloseTurnsDeadlinesUnknown | src/py000_nautilus/bitfinex_v1_execution.py:1368-1390 | Closing leaves no deadline and turns each into an UNKNOWN outcome, as it does the submission of every order that may now end unseen |
| OrderStreamSafety.CommandsKeep | src/py000_nautilus/bitfinex_v1_execution.py:1177-1231 | Modify and cancel commands never hit the already-pending guard of the wire call, and keep every invariant |
| OrderStreamFills.FillsStayUniqueIff | src/py000_nautilus/bitfinex_v1_execution.py:1494-1721 | A step publishes a trade ID a second time exactly when an order frame claims a buffered execution already recorded as interim or final |
| OrderStreamUnique.EachTradeFillsOnce | src/py000_nautilus/bitfinex_v1_execution.py:1494-1721 | With one venue order per trade ID and `on` or `oc` first, every run publishes each trade ID at most once, and the published IDs are the recorded ones |
| OrderStreamCounterexamples.UpdateFirstFillsTwice | src/py000_nautilus/bitfinex_v1_execution.py:1586-1665 | A concrete run, with `ou` as first order frame, that fills one trade ID twice |
| OrderStreamCounterexamples.TwoVenuesFillTwice | src/py000_nautilus/bitfinex_v1_execution.py:1560-1584 | A concrete run, with one trade ID under two venue orders, that fills it twice |
| ExecutionClient.Client.HandleOrder | src/py000_nautilus/bitfinex_v1_execution.py:1392-1447 | `on`/`ou`/`oc`: raises exactly when the specification refuses the frame and then leaves exactly the specified partial work; otherwise the whole client state is the specified one |
| ExecutionClient.Client.Advance | src/py000_nautilus/bitfinex_v1_execution.py:1416-1447 | A verified frame repeats a rejection, rejects, or is adopted |
| ExecutionClient.Client.AdoptOrder | src/py000_nautilus/bitfinex_v1_execution.py:1434-1447 | Acceptance, price acknowledgment, terminal, buffered fills and settlement happen in that order, on the whole state |
| ExecutionClient.StagedAccepted | src/py000_nautilus/bitfinex_v1_execution.py:1603-1665 | The running check of the claimed executions decides exactly: identity, validity, time, and quantities against the order and the terminal |
| ExecutionClient.Client.BufferInterim | src/py000_nautilus/bitfinex_v1_execution.py:1560-1584 | Duplicates are ignored, changed facts and a full buffer refused |
| ExecutionClient.Client.ReleaseStaged | src/py000_nautilus/bitfinex_v1_execution.py:1667-1684 | Each claimed execution is applied, remembered and taken out of the buffer |
| ExecutionClient.Client.HandleInterim | src/py000_nautilus/bitfinex_v1_execution.py:1494-1558 | `te`: buffered, ignored, applied or refused as specified; a refusal changes nothing |
| ExecutionClient.Client.HandleTrade | src/py000_nautilus/bitfinex_v1_execution.py:1686-1721 | `tu`: a repeat is ignored, an interim completed without a second fill, a new trade applied; a refusal changes nothing |
| ExecutionClient.Client.ApplyFill | src/py000_nautilus/bitfinex_v1_execution.py:1804-1859 | Overfills of the order or of the terminal are refused; otherwise accept, acknowledge the price, add the fill, resolve and settle |
| ExecutionClient.Client.HandleNotice | src/py000_nautilus/bitfinex_v1_execution.py:1861-1922 | Submit, modify and cancel failures reject exactly what is pending or unknown, and repeat safely; a refusal changes nothing |
| ExecutionClient.Client.Accept | src/py000_nautilus/bitfinex_v1_execution.py:1924-1940 | Binds the venue ID, resolves the submission, publishes acceptance once |
| ExecutionClient.Client.AckPendingPrice | src/py000_nautilus/bitfinex_v1_execution.py:1968-1987 | Exactly the asked price is published and becomes current, beside the known ones; any other price changes nothing |
| ExecutionClient.Client.FinishTerminal | src/py000_nautilus/bitfinex_v1_execution.py:1942-1966 | The terminal settles when the fills reach it, once |
| ExecutionClient.Client.SubmitOrder | src/py000_nautilus/bitfinex_v1_execution.py:1128-1171 | An unsupported order is denied and leaves no trace; any other waits for its submission to return |
| ExecutionClient.Client.ModifyOrder | src/py000_nautilus/bitfinex_v1_execution.py:1177-1211 | Refused while unaccepted, terminal, being cancelled or already modified |
| ExecutionClient.Client.CancelOrder | src/py000_nautilus/bitfinex_v1_execution.py:1213-1231 | Refused while unaccepted, terminal or already being cancelled |
| ExecutionClient.Client.EndSend | src/py000_nautilus/bitfinex_v1_execution.py:1251-1278 | A returned send starts a deadline exactly for a pending operation; a failed or late one is UNKNOWN |
| ExecutionClient.Client.ExpireDeadline | src/py000_nautilus/bitfinex_v1_execution.py:1300-1308 | An expired deadline is removed and its operation UNKNOWN |
| ExecutionClient.Client.CloseStream | src/py000_nautilus/bitfinex_v1_execution.py:1368-1390 | The loops over deadlines and orders reach the specified closed state |
| OrderPaging.OrderHistoryRows | src/py000_nautilus/bitfinex_v1_execution.py:3016-3058 | Bisection terminates; against a venue filtering on one fixed timestamp axis it succeeds exactly when no instant holds a full page, and then returns exactly the window's orders, none lost or doubled |
| HistoryPaging.TradeHistoryRows | src/py000_nautilus/bitfinex_v1_execution.py:3060-3100 | Forward paging terminates; against a venue answering in order it succeeds exactly when no full page holds a single millisecond, and then returns every trade of the window once, in order |
| HistoryPaging.AbsorbPage | src/py000_nautilus/bitfinex_v1_execution.py:3070-3096 | One page is merged with overlaps skipped, and refused when out of window, out of order or changed |
| CidStore.EveryRunKeepsCids | src/py000_nautilus/bitfinex_v1_cids.py:173-232 | Over every run with failing writes: issued CIDs strictly increase and stay within 2^45-1, client IDs and CIDs stay in bijection, and every binding ever published, even by a write that raised, is still remembered; durable fees mean file = memory |
| CidStore.BindingsAreDistinct | src/py000_nautilus/bitfinex_v1_cids.py:173-232 | No two bindings ever published or remembered share a CID or a client ID |
| CidStore.StepKeeps | src/py000_nautilus/bitfinex_v1_cids.py:111-198 | Every operation and write outcome keeps that state |
| CidStore.EvidenceStays | src/py000_nautilus/bitfinex_v1_cids.py:111-171 | A conflict stays marked, and a final fee stays recorded, through every operation and outcome |
| CidClient.CidFile.Allocate | src/py000_nautilus/bitfinex_v1_cids.py:173-193 | A CID is larger than every earlier one, unused, within range and bound to its client; the whole store is the specified one |
| CidClient.CidFile.Persist | src/py000_nautilus/bitfinex_v1_cids.py:200-232 | File and durability flag after each write outcome |
| CidClient.CidFile.MarkAccountingConflict | src/py000_nautilus/bitfinex_v1_cids.py:111-117 | Marked in memory first, then written; a second mark writes only if the first did not last |
| CidClient.CidFile.RecordVenueTrade | src/py000_nautilus/bitfinex_v1_cids.py:133-151 | A venue trade is merged, refused as a conflict, or found recorded, and the file follows |
| CidClient.CidFile.RecordNativeFill | src/py000_nautilus/bitfinex_v1_cids.py:119-131 | A native fill is recorded once; a changed one is a conflict |
| FeeEvidence.AllocationLeaves | src/py000_nautilus/bitfinex_v1_cids.py:173-193 | A named, unbound client at a valid time gets the larger of the clock and the next number while that fits 45 bits; the binding is remembered unless the write surely failed |
| FeeEvidence.ObservedIff | src/py000_nautilus/bitfinex_v1_cids.py:133-151 | Observations are accepted exactly when no two of one trade differ in a fact or in their final fees |
| FeeEvidence.ObservationLeaves | src/py000_nautilus/bitfinex_v1_cids.py:133-151 | One observation is refused exactly for such a conflict with its record; it replaces it unless that would lose a final fee, and touches no other |
| FeeEvidence.VenueTradeLeaves | src/py000_nautilus/bitfinex_v1_cids.py:133-151 | A venue trade is refused exactly for an unbound or changed scope, another order's venue ID, or a conflict; otherwise memory has it whatever the write does, durable only when written |
| FeeEvidence.NativeFillLeaves | src/py000_nautilus/bitfinex_v1_cids.py:119-131 | A native fill is added once under its trade ID; the same again changes no row, another is refused |
| FeeTrades.ObserveAllIff | src/py000_nautilus/bitfinex_v1_cids.py:133-151 | A run of observations is accepted exactly when no two conflict, and then each record is one of its observations, final if any was |
| FeeTrades.OrderDoesNotMatter | src/py000_nautilus/bitfinex_v1_cids.py:133-151 | The same observations in any order and repetition leave the same record of every trade |
| FeeTrades.FinalFeeStays | src/py000_nautilus/bitfinex_v1_cids.py:133-151 | A final fee, once recorded, stays |
| FeeCoverage.FeeCoverageMatches | src/py000_nautilus/bitfinex_v1_reports.py:142-184 | The popping loop decides exactly the declared matching |
| FeeMatching.MatchesIff | src/py000_nautilus/bitfinex_v1_reports.py:142-184 | For distinct venue trades the check accepts exactly when all are on one side; each real fill is a trade of the order at its booked commission and no two are the same; and without an inferred fill every trade is taken, with one some are left, none later than the inferred fills, and quantity and cost agree over the whole order |
| FeeMatching.CommissionIsBooked | src/py000_nautilus/bitfinex_v1_reports.py:164-168 | In an accepted order a fill booked from the venue's own record of a finally priced trade carries that fee's currency and commission |
| FeeCoverage.MatchConserves | src/py000_nautilus/bitfinex_v1_reports.py:142-184 | Accepted lists conserve total signed quantity and total quantity times price |
| FeeCoverage.MatchAccountsOnce | src/py000_nautilus/bitfinex_v1_reports.py:142-184 | Every venue trade is accounted for exactly once: by the one real fill that names and equals it, or within the inferred group |
| FeeCoverage.SiftNamesOnce | src/py000_nautilus/bitfinex_v1_reports.py:142-184 | No two real fills name one trade, and each equals the trade it names |
| FeeCoverage.SiftLeaves | src/py000_nautilus/bitfinex_v1_reports.py:142-184 | What is left are exactly the trades no real fill names |
| TerminalReconciler.EveryRegistrationHasOnePlace | src/py000_nautilus/live_runtime.py:281-302 | In every interleaving of an active reconciler each registration is in exactly one place of one of the two maps, which share no key, until it has returned True |
| TerminalReconciler.EveryRunIsBounded | src/py000_nautilus/live_runtime.py:359-425 | A registration that returned True is never called again, a root makes at most two rounds, and the gate is closed exactly while a root lives |
| TerminalReconciler.RoundsBelongToOneRoot | src/py000_nautilus/live_runtime.py:321-348 | A root starts only when none lives, and only a new root starts the count again |
| ReconcilerRounds.EveryCallFollowsExactness | src/py000_nautilus/live_runtime.py:394-425 | Over every interleaving each callback is called only after an exact native reconciliation, since the last round began, that left the adapter nothing to require |
| ReconcilerRounds.SuccessFollowsExactness | src/py000_nautilus/live_runtime.py:359-425 | A root that ends with no failure recorded had one in its last round, or ended on an unchanged working-order check; the startup hold is released only after one |
| ReconcilerRounds.RoundFailsIff | src/py000_nautilus/live_runtime.py:359-454 | A round fails exactly on the named answers; a failed first round with connected clients backs off with its requests, any other failure ends the root and keeps every request for a retry |
| ReconcilerRounds.SecondRoundBegins | src/py000_nautilus/live_runtime.py:359-385 | From its backoff a root with connected clients begins a second round |
| ReconcilerRounds.ObservationLeadsOnIff | src/py000_nautilus/live_runtime.py:394-403 | An observation leads on to the reconciliation exactly when it found a change, the adapter requires it, or it was asked for meanwhile |
| ReconcilerRounds.ExactLeadsOn | src/py000_nautilus/live_runtime.py:404-431 | After an exact reconciliation the pending requests are reported one by one; then the startup recovery runs if due, or the root ends |
| ReconcilerRounds.QueryLeaves | src/py000_nautilus/live_runtime.py:281-302 | A query joins a failed request without trying it again; any other becomes pending, once, and gets the whole reconciliation |
| TerminalReconciler.RootEndLeavesPendingIff | src/py000_nautilus/live_runtime.py:342-348 | When a root ends, requests stay pending without one exactly when they came in while it ended without a drain |
| TerminalReconciler.RecoveryCanLeaveARequest | src/py000_nautilus/live_runtime.py:394-425 | A concrete run that ends in success, idle, with a request still pending |
| ReconcilerActor.Actor.QuerySourceTerminal | src/py000_nautilus/live_runtime.py:281-302 | A callback joins a pending or failed key, or opens one, and a root is ensured |
| ReconcilerActor.Actor.EnsureRoot | src/py000_nautilus/live_runtime.py:321-340 | At most one root; failed requests are brought back only for a retry |
| ReconcilerActor.Actor.OnStop | src/py000_nautilus/live_runtime.py:243-250 | Stopping empties the maps and cancels the root |
| ReconcilerActor.Actor.RetainPending | src/py000_nautilus/live_runtime.py:350-357 | All pending requests move to the failed map, none lost |
| ReconcilerActor.Actor.DrainNext | src/py000_nautilus/live_runtime.py:427-431 | The next pending key is drained, or the drain is over |
| ReconcilerActor.Actor.CallNext | src/py000_nautilus/live_runtime.py:432-454 | A callback is called and looked at; True removes it, False or a raise retains it |
| ReconcilerActor.Actor.Resume | src/py000_nautilus/live_runtime.py:359-454 | Each segment between two awaits is the specified step |
| BookFeed.EveryRunKeeps | src/py000_nautilus/bitfinex_v1_data.py:477-532 | In every reachable feed state bound and pending channel IDs are distinct, remembered pre-ACK heartbeats are disjoint from them and never more than the subscriptions awaiting ACK, and no price is on both sides of the book |
| BookFeed.StepKeeps | src/py000_nautilus/bitfinex_v1_data.py:477-701 | Every frame and command keeps that state |
| BookFeed.PublishedIsSound | src/py000_nautilus/bitfinex_v1_data.py:160-178 | Whatever is published are the best 25 levels a side, or their tops: strictly sorted, with the side's sizes, uncrossed, of a certified book without a price on both sides |
| BookFeed.BestUnique | src/py000_nautilus/bitfinex_v1_data.py:166-178 | A side has only one list of best levels, so the published levels are determined by the book |
| BookFeed.ActionableIffLastCertified | src/py000_nautilus/bitfinex_v1_data.py:108-158 | Over every run the book is actionable exactly when a snapshot or passed checksum was the last thing that happened to it |
| BookFeed.SnapshotIsItsRows | src/py000_nautilus/bitfinex_v1_data.py:117-133 | Every row of an accepted snapshot is a level of its side, and there are no other levels |
| FeedGuards.SnapshotTakenIff | src/py000_nautilus/bitfinex_v1_data.py:117-133 | A snapshot is taken exactly when it has 25 levels a side, no deletion and no price twice |
| FeedGuards.DeltaTakenIff | src/py000_nautilus/bitfinex_v1_data.py:135-146 | A delta is taken exactly after a snapshot and as a level row; it changes the one price, on both sides, and removes the certificate |
| FeedGuards.BookFrameIff | src/py000_nautilus/bitfinex_v1_data.py:534-557 | A book frame is consumed exactly when its snapshot, row or matching checksum is good and, if anything is asked for, the certified book is uncrossed and representable; and then exactly what is asked for is published |
| FeedGuards.HeartbeatTakenIff | src/py000_nautilus/bitfinex_v1_data.py:477-532 | A heartbeat is taken on a bound channel, from one that sent before, or from a new one while fewer sent early than acknowledgments are awaited |
| FeedGuards.SubscribedTakenIff | src/py000_nautilus/bitfinex_v1_data.py:612-676 | An acknowledgment is taken exactly for an awaited subscription, as asked for, on a positive channel not in use, unless the early channels are all others |
| FeedGuards.UnsubscribedTakenIff | src/py000_nautilus/bitfinex_v1_data.py:680-701 | In every reachable state an unsubscribe acknowledgment is taken exactly for a channel on its way out, which it forgets |
| FeedChannels.OutstandingGoesIff | src/py000_nautilus/bitfinex_v1_data.py:680-701 | Without a close, an outstanding unsubscribe goes exactly when its ACK comes or the same subscription sends another: at once, or because a subscription ACK finds it already left |
| FeedChannels.PendingIsRemembered | src/py000_nautilus/bitfinex_v1_data.py:419-441 | Over every run the client remembers exactly the unsubscribes sent, unanswered and not forgotten |
| FeedChannels.OutstandingAckIff | src/py000_nautilus/bitfinex_v1_data.py:680-701 | Over every run the ACK of an unsubscribe sent and unanswered is accepted exactly when no event has forgotten it since |
| FeedChannels.EveryAckAcceptedIff | src/py000_nautilus/bitfinex_v1_data.py:680-701 | With a venue that numbers channels anew, all such ACKs are accepted exactly when no subscription has sent an unsubscribe while another of its own was outstanding |
| FeedChannels.SecondLeaveForgetsFirst | src/py000_nautilus/bitfinex_v1_data.py:419-441 | A concrete run in which leaving twice forgets the first unsubscribe, whose ACK then closes the feed |
| FeedChannels.LateAckForgetsFirst | src/py000_nautilus/bitfinex_v1_data.py:653-676 | A concrete run in which the ACK of a subscription already left does the same |
| BookClient.P0Book.ApplySnapshot | src/py000_nautilus/bitfinex_v1_data.py:117-133 | All rows or none: the book changes only when the whole snapshot is accepted |
| BookClient.P0Book.ApplyDelta | src/py000_nautilus/bitfinex_v1_data.py:135-146 | A row replaces, adds or deletes one level and removes the certificate; a bad row changes nothing |
| BookClient.P0Book.Verify | src/py000_nautilus/bitfinex_v1_data.py:148-158 | A matching checksum certifies; anything else is refused |
| BookClient.P0Book.Levels | src/py000_nautilus/bitfinex_v1_data.py:166-178 | Exactly when certified and uncrossed: the 25 best levels a side, strictly sorted, with the side's sizes, nothing better left out, best bid below best ask |
| BookClient.BestLevels | src/py000_nautilus/bitfinex_v1_data.py:166-178 | The best levels of a side, strictly sorted, with nothing better left out |
| BookClient.CrossingIsAtTheTop | src/py000_nautilus/bitfinex_v1_data.py:166-178 | Comparing the best two prices decides whether the whole book is crossed |
| BookClient.DataClient.Receive | src/py000_nautilus/bitfinex_v1_data.py:443-475 | A frame is consumed as specified, or closes the feed |
| BookClient.DataClient.FailClosed | src/py000_nautilus/bitfinex_v1_data.py:454-475 | Closing clears the book and every channel |
| BookClient.DataClient.ConsumeHeartbeat | src/py000_nautilus/bitfinex_v1_data.py:477-532 | Heartbeats before an ACK are remembered within the number of awaited ACKs |
| BookClient.DataClient.ConsumeBook | src/py000_nautilus/bitfinex_v1_data.py:534-557 | Snapshot, delta, checksum or heartbeat, and what is published after it |
| BookClient.DataClient.ConsumeSubscribed | src/py000_nautilus/bitfinex_v1_data.py:612-678 | A subscription ACK binds an awaited channel to an unused ID, or is refused |
| BookClient.DataClient.ConsumeUnsubscribed | src/py000_nautilus/bitfinex_v1_data.py:680-701 | The answered subscription forgets its channel |
| BookClient.DataClient.Command | src/py000_nautilus/bitfinex_v1_data.py:319-441 | Subscribe and unsubscribe commands change only what they name |

## Left out

- CarryExactness.IntentBoundIsAttainedIff: for a buying side; the selling side mirrors it by `CarryBounds.MirrorRun` and is not stated again.
- MakerSafety.ReservationIsAtomic: the reservation of one fill; the projections that replay several recorded fills in one call are not modelled.
- MakerEffects.EveryStopHalts: for doubts whose reason is not the text that a confirmation takes back; the original does not tell such texts apart.
- FeeMatching.MatchesIff: for distinct trade IDs, as the recorded rows always have; of a repeated ID the original keeps the last row.
- HedgeLane.CompletedExactly: for planned obligations; an unplanned one is finished by a single order and has no legs to count. Rejected hedge attempts that are archived are not modelled.
- OrderStreamRuns.EveryRunRemembersMutations: orders this process submitted; orders rehydrated after a restart are not part of this model.
- ExecutionClient.Client.HandleTrade: a `tu` without a CID is resolved by its venue order alone; the original first looks the CID up in the recorded fee metadata, which is not part of the stream's state here.
- ExecutionClient.Client.SubmitOrder: a denied order leaves no trace; the denial it publishes to the strategy, and the other reasons for one, are not modelled.
- OrderStreamUnique.EachTradeFillsOnce: for the stream's own records; the check against trades already in the engine's cache is not part of this model.
- BookFeed.PublishedIsSound: the levels that are published; the library's own quote and delta records made of them are not modelled.
- OwnerHedging.OwnerWithinCarryBounds: while hedge fills come at the first unfinished obligation and agree with it; a fill that contradicts its plan blocks the obligation and may exceed it, and no bound covers that.
- TerminalReconciler.EveryRunIsBounded: one life of the actor; a restart after stop is not modelled. Pending requests are drained in any order, where the original takes the oldest first.
- Loading, migrating and checkpointing of the maker's file, the older per-direction files, and the text form of fill keys.
- Not-a-number and infinite decimals, which every entry point refuses.
- In the maker's owner: recovery at start, which puts an unfinished view in doubt.
- In the execution client: fee recording as a side effect of frames and the accounting errors it raises, order snapshots, wallet and margin frames, account budget, holds that deny a submission, silent-terminal recovery and its timer, REST reconciliation, and reconnecting. `_LiveOrder` is a record replaced in the client's map, so two names for one live order are not modelled.
- A send is two steps, its start and its return, with any other steps between; the time an acknowledgment timer takes is not modelled, only that it may expire.
- In the CID store: loading the file, the calendar date's text form, and the totals of the fee summary.
- In the reconciler: when the timer observes working orders, and how long a round may take; an observation is an event that may happen at any point.
- In the book feed: connecting, the checksum configuration handshake, the fields of a funding frame, and CRC-32 with its number formatting.
- Passive quotes, Taker returns, margin and swap formulas, admission, canaries, the MT5 adapter and the EA protocol: formulas and orchestration that would only add easy members, or code on the other side of an interface.
