# Shop protocol: a Dafny model

The repository is a web shop on MongoDB. Its difficult part is a small concurrent protocol: stock is put on hold when an
order is placed, and the hold is shipped, released or expired by whichever of many services gets there first: payment
webhooks, reconciliation, browser verification, cancellation, expiry jobs, a sweeper and the compensation of an outbox
event. This project models that protocol and proves what every interleaving of its steps keeps, together with four
smaller protocols of the same code base: the outbox leases, the retrying checkout, keyset pagination and refresh-token
rotation. A circuit breaker completes it.

The database is a value. One MongoDB transaction, or one single-document update outside a transaction, is one step;
a run is any sequence of steps, so a theorem about all runs is a theorem about all interleavings. Requests that stop
between two of their writes are part of the state (`cancelling` and `handling` in `Shop.Db`, `claims` in `Outbox.Box`,
`calls` in `Auth.State`), and can be dropped there, which is what a crash is.

The services themselves are classes that update their collections in place. Their contracts give the new contents as the
step, or the run of steps, that the method stands for, so the theorems about runs apply to them.

| file | what it holds |
|---|---|
| `Domain.dfy` | ids, stock rows, reservations |
| `Ledger.dfy` | stock and reservations as a state machine: conservation, bounds, balance |
| `Reservations.dfy` | the reservation service and inventory repository on stored collections |
| `Cart.dfy` | pricing of a cart against catalog and stock |
| `Shop.dfy` | the whole order and payment protocol as a state machine |
| `ShopInvariants.dfy` | the table of order and reservation statuses, the cancellation gap, stock bounds |
| `PaymentTheorems.dfy` | money, one order per idempotency key, webhook redelivery, line totals |
| `CheckoutTheorems.dfy` | when a checkout is accepted and what it writes, in terms of cart, catalog and stock |
| `Settlement.dfy` | what each path of a payment does, in full |
| `ShopStore.dfy` | order, payment and job services on stored collections, and the invariant checker |
| `Retry.dfy` | the retrying transaction wrapper, around any unit of work |
| `CheckoutRetry.dfy` | checkout under that wrapper |
| `Outbox.dfy` | outbox leases, retries and termination |
| `OutboxBatch.dfy` | one worker's poll on stored rows |
| `Keyset.dfy`, `Listing.dfy`, `OrderListing.dfy` | keyset walks in general, and the product and order listings |
| `Auth.dfy`, `AuthStore.dfy` | refresh-token families and access-token versions |
| `Breaker.dfy` | the circuit breaker and its event log |

How the main results hang together: `ShopInvariants.StepIsChange` reduces the thirteen kinds of shop step to six kinds of
change, and every theorem about shop runs is an induction with one case per change. `ShopInvariants.RunRefinesLedger`
turns a shop run into a run of the stock ledger, which carries the ledger's theorems over.

## Where the code and its promises differ

- The design, and the first rule of the invariant checker, promise `0 <= reserved <= onHand` for every product. An
  admin's restock sets `onHand` without looking at `reserved`
  (`src/modules/inventory/inventory.repository.ts:34-38`), so the bound holds along a run if and only if
  each accepted restock covers the holds of its moment (`Ledger.NoOversell`, `ShopInvariants.ShopNeverOversells`);
  `Ledger.RestockCanBreakBounds` gives the failing run.
- PAID implies COMMITTED always. COMMITTED implies PAID fails: browser verification commits the reservation without
  checking that its order update matched (`src/modules/payments/payments.service.ts:373-383`), which strands the stock
  of an order that is CANCELLED but not yet released. `ShopInvariants.CommittedIsPaidUnlessGap` gives the exact
  condition, `PaymentTheorems.GapFromFreshShop` the run from an empty shop.
- A QUANTITY_REDUCED line is charged for fewer units than it reserves and orders. Such a checkout can be accepted if
  stock comes back between pricing and reserving; `PaymentTheorems.ChargedPerUnitIffCovered` gives the exact condition,
  `PaymentTheorems.ReducedLineIsUndercharged` such a checkout.
- A refresh in flight survives the revocation of its family (`src/modules/auth/auth.service.ts:89-116`), and so may one
  that wins a token while the revocation, an update of many documents, is still running. `Auth.ReuseKillsFamily` says
  exactly when a family is dead, `Auth.UndisturbedReuseKillsFamily` what is left of that if nothing interferes.
- The outbox writes outcomes by row id only (`src/modules/jobs/outbox.processor.ts:206`), so two workers can share a row.
  `Outbox.LeaseExclusion` says exactly when they do not, row by row; a steal needs a holder that outlived its lease
  (`Outbox.StealNeedsOverrun`), and `Outbox.LateWorkerReopensRow` shows what a late outcome does.
- A claimed row is to be decided in the end. One that is polled often enough is, if and only if no worker was lost on its last
  attempt (`Outbox.PolledRowEnds`); the lease recovers every earlier crash.
- The outbox file comment says that FAILED rows are claimed again; the code claims PENDING and PROCESSING rows only. The
  model follows the code.
- The comment of reconciliation lists a fourth path, late payments of expired orders, and the summary has a counter for
  it; no code implements it. An order that is still pending when its reservation has expired can no longer be paid by
  any path (`ShopInvariants.LatePaymentIsNotTaken`).

## Model

| member | source | states |
|---|---|---|
| Ledger.StepConserves | src/modules/inventory/reservation.service.ts:26-293 | no transaction of the reservation service or restock breaks: `reserved` of each product is the sum over ACTIVE reservations |
| Ledger.LedgerConserved | src/modules/inventory/reservation.service.ts:26-293 | in every reachable state, for every product, `reserved` is the sum of its quantities on ACTIVE reservations, duplicate lines counted, hence never negative |
| Ledger.FreshStoreConserved | src/modules/inventory/inventory.repository.ts:34-38 | stock without holds is a balanced start |
| Ledger.StepInBounds | src/modules/inventory/reservation.service.ts:45-53 | one step keeps `0 <= reserved <= onHand` if and only if it is not a restock below what is on hold |
| Ledger.NoOversell | src/modules/inventory/reservation.service.ts:14-59 | no product is oversold at any moment of a run if and only if every restock covers the holds of its moment |
| Ledger.RestockCanBreakBounds | src/modules/inventory/inventory.repository.ts:29-40 | a restock below an ACTIVE reservation followed by its commit leaves a negative count |
| Ledger.StockBalance | src/modules/inventory/reservation.service.ts:109-127 | on hand plus COMMITTED units equals the initial amount plus what restocks brought, over every run |
| Ledger.SoldWithinSupply | src/modules/inventory/reservation.service.ts:109-127 | the units a run sells never exceed the supply, less what is still on hold |
| Ledger.PostAllKeepsClosed | src/modules/inventory/reservation.service.ts:109-113 | a reservation that left ACTIVE never changes again, and its lines never change at all |
| Ledger.ClosedAtMostOnce | src/modules/inventory/reservation.service.ts:196-293 | under races of commit, release, sweep and single expiry the stock of a reservation is shipped or returned at most once |
| Ledger.StepExpires | src/modules/inventory/reservation.service.ts:217-225 | a step expires an ACTIVE reservation if and only if it is an expiry of it that is due: past its time for the sweeper, at or past it for a job of its own |
| Ledger.ExpiredOnlyWhenDue | src/modules/inventory/reservation.service.ts:264-272 | along every run, a reservation that ends EXPIRED was expired by a step that came when it was due |
| Reservations.QtyOfPermutation | src/modules/inventory/reservation.service.ts:35-38 | what is requested of a product is the same in whatever order the lines are processed |
| Reservations.ReserveOrderFree | src/modules/inventory/reservation.service.ts:35-59 | neither the success of a reservation nor the stock it leaves depends on the order of its lines |
| Reservations.FailureMeansUnfit | src/modules/inventory/reservation.service.ts:55-58 | a line that fails its conditional increment proves that the total requested of its product exceeds what is available, and it is on the least such product |
| Reservations.NoFailureMeansFit | src/modules/inventory/reservation.service.ts:40-59 | if no conditional increment fails, every product has enough available for all of its lines together |
| Reservations.InventoryStore.ReserveStockInSession | src/modules/inventory/reservation.service.ts:26-77 | the loop of conditional increments succeeds exactly when all lines together fit and the order has no reservation, and then holds exactly the requested units; on failure it names the least product short of stock |
| Reservations.InventoryStore.ReserveStock | src/modules/inventory/reservation.service.ts:83-100 | all lines are reserved, or the store is unchanged |
| Reservations.InventoryStore.ShiftStock | src/modules/inventory/reservation.service.ts:119-127 | the unordered decrements of a reservation end in the same stock in whatever order they are done |
| Reservations.InventoryStore.CommitReservationInSession | src/modules/inventory/reservation.service.ts:105-128 | commits exactly an ACTIVE reservation, and ships its units |
| Reservations.InventoryStore.ReleaseReservationInSession | src/modules/inventory/reservation.service.ts:151-175 | releases an ACTIVE reservation and returns its units; does nothing otherwise |
| Reservations.InventoryStore.ExpireSingleReservation | src/modules/inventory/reservation.service.ts:256-293 | expires the reservation exactly if it is ACTIVE and its expiry is no later than now, and reports exactly that; otherwise nothing changes |
| Reservations.InventoryStore.SweepExpiredReservations | src/modules/inventory/reservation.service.ts:202-249 | undisturbed, a sweep expires distinct overdue reservations, as many as there are up to the batch size, and returns their number |
| Reservations.SweepReturnsHolds | src/modules/inventory/reservation.service.ts:229-237 | a sweep puts back exactly what the swept reservations held, and touches nothing else |
| Reservations.InventoryStore.UpsertInventory | src/modules/inventory/inventory.repository.ts:29-40 | sets the count and keeps the hold; a negative count is refused |
| Reservations.InventoryStore.GetInventoryForProducts | src/modules/inventory/inventory.repository.ts:11-27 | for the products that have a stock row: counts, and what is available on top of what is reserved, never negative |
| Cart.GetLiveCart | src/modules/cart/cart.service.ts:36-130 | the pricing loop returns the live cart: lines, subtotal, currency of the last sellable line, count and warnings |
| Cart.PriceCartItem | src/modules/cart/cart.service.ts:65-120 | a line is charged for what is asked for as far as the stock goes, for nothing if it cannot be bought, at the catalog's price, with the one warning that fits |
| Cart.LiveCartMeans | src/modules/cart/cart.service.ts:65-129 | the live cart has a line so priced for each item, their cost and their units in all, and the warnings of its lines |
| Cart.LiveCartCurrency | src/modules/cart/cart.service.ts:61-91 | its currency is that of the last product on sale, or the default |
| Cart.ChargedInFull | src/modules/cart/cart.service.ts:91-106 | a purchasable line is charged for its full quantity exactly when its stock covered it, or it is free |
| ShopInvariants.StepIsChange | src/modules/payments/payments.service.ts:121-196 | each step of each service places an order, pays one, fails one, cancels one, moves stock only, or does nothing to orders and stock; its guard is the compare-and-set of the code |
| ShopInvariants.RunRefinesLedger | src/modules/inventory/reservation.service.ts:26-293 | the stock side of every shop run is a run of the ledger |
| ShopInvariants.TableKept | src/modules/orders/orders.service.ts:35-48 | in every run: each order has a reservation; PENDING_PAYMENT goes with ACTIVE or EXPIRED only, PAID with COMMITTED only, PAYMENT_FAILED and EXPIRED orders with RELEASED or EXPIRED only |
| ShopInvariants.DecidedForGood | src/modules/orders/orders.repository.ts:88-114 | no order ever leaves a status other than PENDING_PAYMENT, and its terms never change |
| ShopInvariants.CommittedIsPaidUnlessGap | src/modules/payments/payments.service.ts:373-383 | at the end of a run every COMMITTED reservation belongs to a PAID order if and only if no verification committed inside a cancellation |
| ShopInvariants.GapIsReachable | src/modules/payments/payments.service.ts:373-383 | a pending order with a live hold: cancel, verify, release end CANCELLED with the stock shipped |
| ShopInvariants.CheckoutReachesGap | src/modules/payments/payments.service.ts:350-387 | any accepted checkout, followed by the three, ends so |
| PaymentTheorems.GapFromFreshShop | src/modules/orders/orders.service.ts:35-48 | a concrete run from an empty shop ends so |
| ShopInvariants.LatePaymentIsNotTaken | src/modules/inventory/reservation.service.ts:115-117 | an order whose reservation has expired never becomes PAID |
| ShopInvariants.HoldsLastTheirTerm | src/modules/inventory/reservation.service.ts:202-293 | whatever services are at work, a hold that ends EXPIRED was expired by the sweeper past its time or by its own job no sooner than on time |
| ShopInvariants.CompensationDecides | src/modules/jobs/outbox.processor.ts:108-134 | after the compensation the order is not pending; if it was, it is PAYMENT_FAILED and its hold ended in the same step |
| ShopInvariants.ShopNeverOversells | src/modules/jobs/invariant-checker.ts:29-56 | over every run of all services the ledger stays balanced, and the stock bounds hold throughout if and only if restocks cover the holds |
| PaymentTheorems.MoneyKept | src/modules/orders/orders.service.ts:152-219 | along every run each order has one payment, for exactly its total, which is the sum of its lines, and a reservation of exactly its lines |
| PaymentTheorems.PaidNowIsReported | src/modules/payments/payments.service.ts:276-297 | only the three paying paths make an order PAID, each with a success report that matches the payment |
| PaymentTheorems.PaidByMatchingReport | src/modules/payments/payments.service.ts:92-145 | every order that a run made PAID turned PAID at one step of that run, and that step carried a gateway report whose amount and currency are those of the payment, of the order and of its lines' sum |
| PaymentTheorems.FreshShopHolds | src/modules/orders/orders.service.ts:165-245 | a shop without orders and holds satisfies every invariant that the run theorems start from |
| PaymentTheorems.OneOrderPerKey | src/modules/orders/orders.service.ts:166-178 | however checkouts with one key race, at most one places an order, with one initiation and one cart clearing, and one did exactly if the key went from no order to an order |
| PaymentTheorems.RedeliveryIsIgnored | src/modules/payments/payments.service.ts:45-73 | a run ends in the same database as the run without repeated deliveries of an event, also when the first delivery aborted |
| PaymentTheorems.DecidedOrderIgnoresWebhooks | src/modules/payments/payments.service.ts:120-196 | once an order left PENDING_PAYMENT no webhook about it changes any order or any stock |
| PaymentTheorems.ChargedPerUnitIffCovered | src/modules/orders/orders.service.ts:147-159 | an accepted checkout has `totalMinor = unitPriceMinor * qty` on every line if and only if each line's stock covered it at pricing time, or it is free |
| PaymentTheorems.ReducedLineIsUndercharged | src/modules/cart/cart.service.ts:98-106 | an accepted checkout that reserves two units and charges for one, stock having come back after pricing |
| PaymentTheorems.NoRiseChargesPerUnit | src/modules/cart/cart.service.ts:94-106 | if no available stock rose between pricing and reserving, every line of an accepted checkout is charged per unit |
| CheckoutTheorems.CartRefusals | src/modules/orders/orders.service.ts:111-140 | a checkout is refused for its cart exactly if that is empty, holds something that cannot be bought, or costs something other than the total the customer confirmed, in this order |
| CheckoutTheorems.TransactionRefusals | src/modules/orders/orders.service.ts:166-245 | once the cart stands: the order of a taken key is found, else stock short of the whole cart fails it, else an id in use |
| CheckoutTheorems.AcceptedIff | src/modules/orders/orders.service.ts:111-245 | it is accepted if and only if the cart can be bought at the confirmed total, the key is free, the stock not on hold covers all of the cart, and its ids are new |
| CheckoutTheorems.AcceptedAddsAsConfirmed | src/modules/orders/orders.service.ts:180-244 | it then adds one pending order of the items asked for at catalog prices and at the confirmed total, its payment for that total, and the two outbox events with its reference, amount and currency; no other order, payment or event changes |
| CheckoutTheorems.PlacedAsConfirmed | src/modules/orders/orders.service.ts:127-202 | every order that a run places is, and stays, what some checkout of that run asked for, at the total its customer confirmed |
| CheckoutTheorems.PaymentsAreInitiated | src/modules/orders/orders.service.ts:221-244 | along every run the outbox holds, for each order, the initiation of its payment with that payment's reference, amount and currency |
| Settlement.SuccessEventMeans | src/modules/payments/payments.service.ts:92-157 | a success event of another amount or currency is flagged and changes nothing else; a true one pays a pending order, commits its reservation and takes its units, is rolled back without an ACTIVE hold, and only marks the payment of a decided order |
| Settlement.OtherEventsMean | src/modules/payments/payments.service.ts:75-192 | a failure event marks the payment and fails a pending order, releasing its hold; events of another kind or of an unknown payment are ignored |
| Settlement.ReportMeans | src/modules/payments/payments.service.ts:275-335 | reconciliation pays on a true success, fails on a failure, expires an order past its term without an answer, and otherwise changes nothing |
| Settlement.VerifyMeans | src/modules/payments/payments.service.ts:365-387 | verification acts on a true success while the hold is ACTIVE, and on nothing else; it commits the hold even of a decided order |
| Settlement.CompensationMeans | src/modules/jobs/outbox.processor.ts:108-130 | compensation fails a pending order and frees its hold, and fails its payment exactly if that is still INITIATED |
| ShopStore.ReachableStatesRaiseNoAlarm | src/modules/jobs/invariant-checker.ts:29-91 | if restocks cover the holds, the checker's first two rules find nothing in any reachable state |
| ShopStore.StockAlarmIff | src/modules/jobs/invariant-checker.ts:30-36 | the first rule reports a product exactly outside `0 <= reserved <= onHand` |
| ShopStore.Store.PriceCart | src/modules/orders/orders.service.ts:111-140 | refuses an empty cart, something that cannot be bought, and any cost other than the confirmed total, in this order, and nothing else |
| ShopStore.Store.CheckoutTransaction | src/modules/orders/orders.service.ts:111-245 | writes nothing, or the order as the customer confirmed it, with reservation, payment and both outbox events together |
| ShopStore.Store.TransitionOrderStatus | src/modules/orders/orders.repository.ts:92-114 | compare-and-set from any of the given statuses: one order changes, in its status and in the payment reference if one is given, and nothing otherwise |
| ShopStore.Store.MarkOrderCancelled | src/modules/orders/orders.service.ts:39-42 | the first write of a cancellation succeeds exactly on a pending order |
| ShopStore.Store.ReleaseCancelled | src/modules/orders/orders.service.ts:44-45 | the second write returns the hold if it is still ACTIVE |
| ShopStore.Store.CancelOrder | src/modules/orders/orders.service.ts:35-48 | a foreign or missing order is not found; a pending one ends CANCELLED without an ACTIVE hold; any other stays as it is |
| ShopStore.Store.PayInTransaction | src/modules/payments/payments.service.ts:124-150 | pays a pending order and commits its hold together; aborts exactly when the order is pending without an ACTIVE hold |
| ShopStore.Store.FailInTransaction | src/modules/payments/payments.service.ts:158-179 | fails a pending order, marks its payment and releases its hold together |
| ShopStore.Store.RecordEvent | src/modules/payments/payments.service.ts:45-73 | records an event exactly once per provider and event id |
| ShopStore.Store.SettleEventInStore | src/modules/payments/payments.service.ts:75-196 | an event is ignored, flagged, aborted or processed exactly by its reference, its amount and currency against the payment, and the state of order and hold; an abort changes nothing |
| ShopStore.Store.ProcessWebhook | src/modules/payments/payments.service.ts:28-223 | a duplicate is reported and changes nothing; a new event is recorded, settled and answered by what it came to |
| ShopStore.Store.VerifyOrderPayment | src/modules/payments/payments.service.ts:350-395 | undisturbed, confirms exactly when a matching success report meets an ACTIVE hold, and then the order is PAID and its reservation COMMITTED; only the user's own pending order is acted on |
| ShopStore.Store.VerifyInTransaction | src/modules/payments/payments.service.ts:370-387 | commits the hold whether or not the order was pending, and aborts without an ACTIVE hold |
| ShopStore.Store.ReconcileOrder | src/modules/payments/payments.service.ts:275-335 | the gateway's answer pays, fails or expires the order or leaves it; the outcome reported is the change of its status; no other order changes |
| ShopStore.Store.ReconcileWithGateway | src/modules/payments/payments.service.ts:263-342 | one reconciliation step if the gateway answers for a payment of the order, and no change at all otherwise |
| ShopStore.Store.FindPendingOrders | src/modules/payments/payments.service.ts:257-261 | a hundred of the pending orders created before the threshold, or all of them if they are fewer |
| ShopStore.Store.ReconcilePendingOrders | src/modules/payments/payments.service.ts:245-345 | each order of the page is reconciled exactly once if the gateway answers for a payment of it, and no other order changes; the counters are the numbers of orders checked, and of those now paid, failed and expired |
| ShopStore.Store.CompensateInitiatePayment | src/modules/jobs/outbox.processor.ts:108-134 | the order is decided, its hold returned if it moved, and an INITIATED payment of it, if there is one, fails |
| ShopStore.Store.CheckStockBounds | src/modules/jobs/invariant-checker.ts:29-56 | reports exactly the products out of bounds |
| ShopStore.Store.CheckPaidOrders | src/modules/jobs/invariant-checker.ts:58-91 | reports exactly the PAID orders of the last day whose reservation is not COMMITTED |
| ShopStore.Store.CheckStaleOrders | src/modules/jobs/invariant-checker.ts:93-118 | reports stale orders only, fifty at most, and all of them if they are no more than that |
| ShopStore.Store.RunInvariantChecks | src/modules/jobs/invariant-checker.ts:26-124 | passes exactly without violations; the first two rules are complete, and passing means no stale order |
| Retry.WithRetryableTransaction | src/common/utils/transaction.ts:22-79 | around any unit of work: the state it ends in is that of its attempts in order; all attempts but the last failed with an error to be retried, the last one decides the result, and it gives up on such an error only when its attempts are used up |
| Retry.RetriedErrors | src/common/utils/transaction.ts:48-93 | the errors to be retried are the transient ones, commits of unknown outcome, write conflicts and lost transactions, and no others |
| Retry.StateInvariant | src/common/utils/transaction.ts:34-76 | what every attempt keeps holds whatever number of attempts is made |
| Retry.CounterMoved | src/common/utils/transaction.ts:34-76 | what only certain attempts count has been counted exactly if there was such an attempt |
| CheckoutRetry.RunKeepsShopInv | src/modules/orders/orders.service.ts:165-267 | in every run the status table, the money, one order per key and the outbox hold together, and a key never loses its order |
| CheckoutRetry.RunClosure | src/modules/orders/orders.service.ts:161-245 | an attempt notes down the order of its key or its own draw, and if it ends well what it noted is the order of the key |
| CheckoutRetry.ReachedByTrace | src/modules/orders/orders.service.ts:166-245 | the database after any attempts is where their exact history leads: before each what the others did, and then the checkout if it committed and was accepted |
| CheckoutRetry.OwnCheckoutOnce | src/modules/orders/orders.service.ts:166-178 | for every sequence of outcomes and any other steps in between, the request itself checks out at most once, and does so exactly if some attempt commits that met a state in which it was accepted; then its key has an order, and otherwise the attempts left nothing at all |
| CheckoutRetry.OwnOrderStands | src/modules/orders/orders.service.ts:180-244 | once the request has checked out, its key names the order it drew, after all further attempts |
| CheckoutRetry.SuccessNames | src/modules/orders/orders.service.ts:171-178 | an attempt that ends well has noted down the order of the key and its payment reference, whatever failed or lost attempts came before |
| CheckoutRetry.AfterFailure | src/modules/orders/orders.service.ts:246-267 | an error is turned into a confirmation exactly if it is a duplicate key and the key has an order; any other error is passed on |
| CheckoutRetry.PlaceOrder | src/modules/orders/orders.service.ts:111-267 | a refused cart touches nothing; any other request leaves exactly what its attempts lead to, its last attempt decides the answer, and a confirmation names the user's order for the key and its payment reference |
| CheckoutRetry.FirstFailureDecides | src/common/utils/transaction.ts:45-61 | a failed first attempt is followed by another exactly if its error is to be retried; any other error but a duplicate key is thrown |
| CheckoutRetry.LostAcknowledgementIsRecovered | src/common/utils/transaction.ts:85-89 | a commit whose acknowledgement is lost is tried again, and the next acknowledged attempt confirms the order; the request has checked out once |
| CheckoutRetry.CheckoutOnce | src/modules/orders/orders.service.ts:83-313 | a recorded reply is replayed for the same payload, and the key refused for another, with nothing changed; otherwise as above, and a confirmation is recorded unless someone was first; recorded replies keep naming the key's order |
| CheckoutRetry.RunKeepsNames | src/modules/orders/orders.service.ts:172-176 | an order and payment reference returned for a key stay right for ever |
| CheckoutRetry.RunKeepsReplies | src/modules/orders/orders.service.ts:292-307 | every recorded reply stays right for ever |
| CheckoutRetry.OneOfEach | src/modules/orders/orders.service.ts:180-244 | an order has exactly one payment, one reservation of its lines and one initiation, and is alone with its user and key |
| Outbox.LeaseExclusion | src/modules/jobs/outbox.processor.ts:169-194 | no two workers have a row at once, at any moment of a run, if and only if no worker of the run claims it while another still has it; other rows play no part |
| Outbox.StealNeedsOverrun | src/modules/jobs/outbox.processor.ts:177-190 | a row can be claimed from under a worker only when the lease of that worker has run out, however stale the claimant's captured time |
| Outbox.TimelyNeverSteals | src/modules/jobs/outbox.processor.ts:169-194 | handlers that finish inside their leases are enough for that |
| Outbox.TerminalForGoodIffUnheld | src/modules/jobs/outbox.processor.ts:200-280 | a COMPLETED or FAILED row stays as it is in every continuation if and only if no worker still has it |
| Outbox.TerminalIsAbsorbing | src/modules/jobs/outbox.processor.ts:200-280 | once a run without steals of the row has decided it, nothing that follows changes it |
| Outbox.LateWorkerReopensRow | src/modules/jobs/outbox.processor.ts:253-264 | a worker that outlives its lease shares the row, and its late failure reopens what another completed |
| Outbox.AttemptsAreBounded | src/modules/jobs/outbox.processor.ts:177-194 | in any run, crashes and late workers included, attempts count the claims of a row and never pass its limit |
| Outbox.WaitingRowIsClaimable | src/modules/jobs/outbox.processor.ts:177-190 | an undecided row with attempts left that nobody has, a crashed worker's row included, is taken by any poll once it is due and its lease has run out |
| Outbox.LostOnlyOnLastAttempt | src/modules/jobs/outbox.processor.ts:177-280 | a row can still be recovered at the end of a run if and only if no worker of it was lost on its last attempt |
| Outbox.PolledRowEnds | src/modules/jobs/outbox.processor.ts:169-281 | a row polled when due more often than it has attempts left ends COMPLETED or FAILED if and only if no worker of it was lost on its last attempt |
| Outbox.CrashOnLastAttemptSticks | src/modules/jobs/outbox.processor.ts:177-184 | a worker lost on the last attempt leaves a PROCESSING row that nothing ever changes |
| Outbox.BackoffGrows | src/modules/jobs/outbox.processor.ts:248-253 | retry delays never shrink and stay between one second and five minutes |
| Outbox.BackoffDoubles | src/modules/jobs/outbox.processor.ts:248-253 | the first delay is a second, and each further one twice the one before, up to five minutes |
| Outbox.RetryWaitsForBackoff | src/modules/jobs/outbox.processor.ts:249-264 | after a failed attempt that is not the last, in whatever run, the row is not claimed again before the backoff of that attempt is over |
| Outbox.DelayIsBounded | src/modules/jobs/outbox.processor.ts:248-265 | the delays asked for add up to at most 1000 * (2^k - 1) ms after k ended attempts, crashed ones counted |
| OutboxBatch.OutboxStore.ClaimBatch | src/modules/jobs/outbox.processor.ts:169-192 | claims distinct open rows that are due, unlocked and with attempts left, up to the batch size; each gets one more attempt and a lease of thirty seconds, the others stay, and nothing claimable is left if the batch is short |
| OutboxBatch.OutboxStore.Settle | src/modules/jobs/outbox.processor.ts:200-280 | the row is COMPLETED, or FAILED on the last attempt, or put off by the backoff of its attempt, and unlocked; compensation is due exactly for a payment initiation that failed for good |
| OutboxBatch.EndsSettled | src/modules/jobs/outbox.processor.ts:200-280 | which is what the state machine does when a handler ends at that time |
| OutboxBatch.OutboxStore.SettleAll | src/modules/jobs/outbox.processor.ts:200-281 | each claimed row is settled by its own handler's outcome at its own time, no other row changes, and all of it is a run of handlers ending |
| OutboxBatch.OrderOfEnding | src/modules/jobs/outbox.processor.ts:200-281 | the claims of the batch, in the order in which their handlers end |
| OutboxBatch.OutboxStore.ProcessBatch | src/modules/jobs/outbox.processor.ts:169-281 | one tick is a run of claims and then of endings in the order of time; each claimed row was claimable and ends completed, failed for good, or put off by its backoff; the rest is untouched, and a short batch leaves nothing claimable |
| Keyset.PageAfterIsPage | src/modules/products/products.repository.ts:88-117 | a page is the least items after the cursor, in order, up to the limit; it has a next cursor exactly when something is left |
| Keyset.CutPage | src/modules/products/products.repository.ts:88-97 | the least matching items in order, up to the limit; more are announced exactly if more match, and an item to continue after is given exactly then |
| Keyset.WalkAscends | src/modules/orders/orders.repository.ts:40-86 | however the collection changes between pages, ranks only go up: nothing whose key stays is returned twice |
| Keyset.WalkMissesNothing | src/modules/orders/orders.repository.ts:40-86 | a finished walk has returned every rank that was present at each fetch |
| Keyset.WalkReturnsOnce | src/modules/orders/orders.repository.ts:40-86 | and has returned it exactly once |
| Keyset.WalkFindsOnlyFetched | src/modules/orders/orders.repository.ts:40-86 | a walk returns nothing that was not there at some fetch |
| Keyset.FixedWalk | src/modules/products/products.repository.ts:88-117 | on a fixed collection the pages join up to the sorted list, in ceil(n / limit) pages |
| Listing.CursorRoundTrip | src/modules/products/products.repository.ts:97-111 | the cursor handed out with a page, sent back with the same sort, continues exactly after its last product |
| Listing.PastCursorIsAfter | src/modules/products/products.repository.ts:72-84 | the keyset filter, in each direction, selects exactly what comes after the cursor in the sort order |
| Listing.FindProductsPaginated | src/modules/products/products.repository.ts:26-118 | a page holds what the query asks for and is left after the cursor, cheapest, dearest or newest first with ties by id in the same direction, up to the limit; there is more exactly if something is left out, and all of that comes later; the cursor is the last product's field, value and id |
| Listing.ProductPageMeans | src/modules/products/products.repository.ts:43-117 | which is what the page of the keyset walk is, in prices, dates and ids |
| Listing.ProductWalkIsWalk | src/modules/products/products.repository.ts:64-111 | a client that follows the cursors with a fixed sort walks the keyset |
| Listing.ProductWalkUnderChange | src/modules/products/products.repository.ts:43-117 | whatever happens between pages, no product returns twice with the same key, and one that stays listed returns exactly once |
| Listing.ProductWalkInOrder | src/modules/products/products.repository.ts:43-117 | whatever happens between pages, the walk lists products in the order asked for, each as some catalog had it and as the query wants it |
| Listing.ProductWalkOnFixedCatalog | src/modules/products/products.repository.ts:43-117 | on a fixed catalog the pages are the sorted listing, in ceil(n / limit) pages |
| Listing.FixedWalkListsAllWanted | src/modules/products/products.repository.ts:29-41 | on a fixed catalog it lists exactly what the query asks for |
| OrderListing.PastOrderCursorIsAfter | src/modules/orders/orders.repository.ts:58-61 | the keyset filter selects exactly what comes after the cursor, newest first |
| OrderListing.ListOrdersForUser | src/modules/orders/orders.repository.ts:40-86 | a page holds the user's orders of the status asked for that are older than the cursor, newest first with ties by descending id, up to the limit; there is more exactly if something is left out, and all of that is older; the cursor is the last order's time and id |
| OrderListing.OrderPageMeans | src/modules/orders/orders.repository.ts:44-72 | which is what the page of the keyset walk is, in times and ids |
| OrderListing.PageShowsOwnOrders | src/modules/orders/orders.repository.ts:44-50 | a page shows the user's own orders only, with the status asked for |
| OrderListing.OrderCursorContinues | src/modules/orders/orders.repository.ts:74-83 | the cursor handed out with a page continues exactly after its last order |
| OrderListing.OrderWalkIsWalk | src/modules/orders/orders.repository.ts:52-83 | a client that follows the cursors walks the keyset |
| OrderListing.OrderWalkUnderChange | src/modules/orders/orders.repository.ts:40-86 | with orders placed and decided between pages, no order is returned twice, and one that stays visible, whatever its status becomes, is returned exactly once |
| OrderListing.OrderWalkInOrder | src/modules/orders/orders.repository.ts:40-86 | whatever happens between pages, the walk lists the user's own orders newest first, each as some fetch had it |
| OrderListing.FixedOrderWalkListsAll | src/modules/orders/orders.repository.ts:44-50 | on fixed orders it lists exactly those asked for |
| OrderListing.OrderWalkOnFixedOrders | src/modules/orders/orders.repository.ts:40-86 | on fixed orders the pages are the user's listing, in ceil(n / limit) pages |
| Auth.FreshIsInv | src/modules/auth/auth.repository.ts:15-27 | users without tokens satisfy the invariant that the run theorems start from |
| Auth.InvKept | src/modules/auth/auth.service.ts:51-140 | in every interleaving a family has one user and at most one life, and no token is signed above its user's version |
| Auth.RotationIsExclusive | src/modules/auth/auth.service.ts:85-125 | in every interleaving the unrevoked tokens of a family and its refreshes between consume and create are at most one together |
| Auth.ConsumedAtMostOnce | src/modules/auth/auth.repository.ts:53-64 | each token is consumed successfully at most once, and never after it was revoked |
| Auth.ExpiredNeverRefreshes | src/modules/auth/auth.repository.ts:58-64 | in every interleaving a token starts refreshes only before its expiry, which never changes |
| Auth.DeadStaysDead | src/modules/auth/auth.repository.ts:70-78 | a family without unrevoked token and without refresh in flight stays dead, and none of its tokens ever refreshes |
| Auth.LiveFamilyCanRefresh | src/modules/auth/auth.repository.ts:58-64 | some token of a family can still refresh if and only if it has an unrevoked token or a refresh in flight |
| Auth.ReuseKillsFamily | src/modules/auth/auth.service.ts:91-101 | after the tokens of a family were revoked one by one, whatever went on meanwhile, the family can still refresh if and only if one of its refreshes is in flight then or completed behind the revocation |
| Auth.SurvivalNeedsRefresh | src/modules/auth/auth.service.ts:89-116 | it is dead for good if no refresh of it was in flight at the start and none won a token meanwhile |
| Auth.UndisturbedReuseKillsFamily | src/modules/auth/auth.repository.ts:70-73 | with nothing in between, it can still refresh if and only if one of its refreshes was in flight |
| Auth.SurvivorRevives | src/modules/auth/auth.service.ts:104-116 | the run in which a refresh in flight revives a revoked family |
| Auth.LogoutAllKillsFamilies | src/modules/auth/auth.repository.ts:75-78 | the same of revoking all tokens of a user one by one, for each family of that user |
| Auth.GlobalLogout | src/modules/auth/auth.service.ts:135-140 | no access token handed out before the version increment, or then about to be signed, is ever accepted after it |
| Auth.AcceptedUntilLogout | src/common/middleware/authenticate.ts:42-51 | until then it stays accepted: nothing but an increment for its user takes it away |
| AuthStore.TokenStore.ConsumeRefreshToken | src/modules/auth/auth.repository.ts:58-64 | consumes exactly a stored token that is unrevoked and expires later than now, revokes it and returns what it was |
| AuthStore.TokenStore.RevokeRefreshToken | src/modules/auth/auth.repository.ts:66-68 | revokes the one token, if it is there |
| AuthStore.TokenStore.RevokeFamilyTokens | src/modules/auth/auth.repository.ts:70-73 | undisturbed, every token of the family ends revoked, one by one, and all others stay |
| AuthStore.TokenStore.RevokeAllUserRefreshTokens | src/modules/auth/auth.repository.ts:75-78 | undisturbed, every token of the user ends revoked, one by one, and all others stay |
| AuthStore.TokenStore.IncrementTokenVersion | src/modules/auth/auth.repository.ts:29-31 | the version of the one user goes up by one |
| AuthStore.TokenStore.Login | src/modules/auth/auth.service.ts:51-81 | fails exactly for an unknown user or a wrong password; otherwise a new family with one usable token and an accepted access token |
| AuthStore.TokenStore.Refresh | src/modules/auth/auth.service.ts:85-125 | rotates exactly an unrevoked, unexpired token of an existing user; an unknown or expired one is invalid and changes nothing; a revoked one takes its family down; that of a deleted user is used up |
| AuthStore.TokenStore.LogoutAll | src/modules/auth/auth.service.ts:135-140 | the increment and the revocation, after which all tokens of the user are revoked |
| AuthStore.TokenStore.Authenticate | src/common/middleware/authenticate.ts:42-51 | accepts exactly tokens of the user's current version |
| Breaker.BreakerExplainsLog | src/common/utils/circuit-breaker.ts:44-116 | for every log of calls starting and ending in any order: CLOSED holds exactly below the failure threshold and then counts the failures in a row; OPEN lasts the timeout from the last failure; HALF_OPEN counts the successes since its probe, with no failure in between |
| Breaker.ClosingNeedsSuccesses | src/common/utils/circuit-breaker.ts:77-89 | without a reset, closing needs a probe no sooner than the timeout and the required successes with no failure in between |
| Breaker.SuccessesClose | src/common/utils/circuit-breaker.ts:77-89 | from a probe of an OPEN breaker on, with no failure or reset, it is HALF_OPEN until the required number of successes and CLOSED from then on |
| Breaker.TripsOnThreshold | src/common/utils/circuit-breaker.ts:91-116 | a CLOSED breaker opens exactly on the failure that completes the threshold in a row |
| Breaker.CircuitBreaker.constructor | src/common/utils/circuit-breaker.ts:26-42 | starts CLOSED with an empty log |
| Breaker.CircuitBreaker.GetState | src/common/utils/circuit-breaker.ts:44-51 | leaves OPEN exactly when the timeout after the last failure of its log is over |
| Breaker.CircuitBreaker.StartCall | src/common/utils/circuit-breaker.ts:53-66 | a call is refused exactly while OPEN; the wait returned is the least number of whole seconds, one or more, that reaches the next attempt |
| Breaker.CircuitBreaker.OnSuccess | src/common/utils/circuit-breaker.ts:77-89 | a success clears the count of a CLOSED breaker and does not close an OPEN one |
| Breaker.CircuitBreaker.OnFailure | src/common/utils/circuit-breaker.ts:91-116 | a failure outside CLOSED opens for the full timeout; in CLOSED it opens exactly at the threshold |
| Breaker.CircuitBreaker.Reset | src/common/utils/circuit-breaker.ts:118-124 | an operator's reset closes whatever came before |

## Left out

Assumed of the platform:

- MongoDB: transactions are atomic and roll back whole, single-document updates are atomic (an update of many documents is
  one step per document), and unique indexes hold
  (`src/modules/orders/models/order.model.ts:164` for user and key). Retries that the driver makes inside one
  `withTransaction` call count as further attempts; an unknown commit result may or may not have been committed.
- Random ids, hashes, signatures, JWTs and password checks are abstract values; ids that must be new are
  drawn unlike those in use, except in checkout, whose duplicate-id branch is modelled.
- Ids are numbers, and product ids are numbered in the order in which the code sorts their text. Currency codes are compared
  after upper-casing, so a currency is modelled by its upper-cased code. Amounts are unbounded integers.
- Cursor text is a payload or something that does not decode; JSON, base64 and dates that decode to nonsense are not
  modelled. A text search is the set of matching product ids.

Not modelled:

- `markOrderPaid`, `markOrderPaymentFailed` and `expireOrder` of the order service: two-step variants that nothing calls. The
  first can leave a PAID order with an uncommitted reservation.
- Generic idempotency middleware: it records after the response, so concurrent duplicates can both run.
- The payment's own status as a state machine: a late failure event overwrites SUCCESS without a guard, so nothing is claimed of it.
- The currency of a line against the currency of the request: checkout does not compare them.
- Deletion by age of webhook events, idempotency keys and carts. After a webhook event has been purged (90 days) a redelivery counts as
  new, and the order's own status guard takes over. Idempotency keys gone or added are covered by `CheckoutRetry.CheckoutOnce`
  taking what is recorded at its end as an input.
- Scheduling of expiry jobs, of the sweeper, of reconciliation and of polls; queue and worker lifecycle; retry delays of the
  transaction wrapper, which are random.
- The gateway calls of `handleInitiatePayment`, the authorization URL it stores, and clearing the cart itself: a handler succeeds or fails.
- Routes, controllers, schemas, caching, logging, audit log, configuration, product and cart editing: plumbing or easy
  members next to the ones above.

Stated with a limit:

- ShopStore.Store.ReconcilePendingOrders: the counters are stated for a job that nothing interferes with and whose
  transaction callbacks run once; the effect on the database under interference is that of `Reconcile` steps in `Shop.Run`.
- Reservations.InventoryStore.SweepExpiredReservations: the count is stated under the same two conditions; under
  races `Ledger.ClosedAtMostOnce` holds.
- ShopStore.Store.VerifyOrderPayment: stated for a call that nothing interferes with; the gap between its read and its
  transaction is in the `Verify` step, which does not look at the order's status.
- ShopStore.Store.SettleEventInStore: reads the payment when it settles the event, not just after recording it; the
  fields it compares never change, so this makes no difference.
- CheckoutRetry.RunClosure: the order found for a key is the one with the least id, should there be several; there are not,
  see `CheckoutRetry.OneOfEach`.
- ShopStore.Store.TransitionOrderStatus: the extra updates it takes are the payment reference, the only one that any call passes.
- OutboxBatch.OutboxStore.ProcessBatch: whether each handler succeeds is an input; compensation is reported as due, and what
  it does when it commits is `ShopInvariants.CompensationDecides`. If it fails, the row is FAILED all the same.
- Auth.GlobalLogout: covers tokens signed from a user record read before the increment; a login or refresh that reads the
  user afterwards gets a valid token, which is intended.
