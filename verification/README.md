# Verified model of the farm shop's order, stock and payment core

The shop sells farm produce: customers order and pay through Stripe, staff prepare and sell, and stock is kept in dated
lots. This project models the parts of the API (and of the two front ends) where several programs write the same rows,
and proves what every run of them keeps. A Prisma transaction holds row locks, so it is one step; a run is any sequence
of steps, hence any interleaving.

| module | what it covers |
|---|---|
| `Orders` | order rows, status table, history, the gate every release goes through |
| `Lots`, `Ledger`, `Requests`, `Capacity`, `Transactions`, `Draws`, `Runs` | stock, lots, reservations, sales, production, adjustments, losses; conservation over every run |
| `Shop` | the same transactions as methods that update tables in place |
| `Gateway`, `Checkout`, `CheckoutSteps`, `CheckoutRuns`, `Deliveries`, `Payments` | checkouts, Stripe sessions, the abandoned-order cleanup, staff and webhook deliveries, in any interleaving |
| `Projection` | both machines in one run: what checkouts, cleanups and webhooks write is transactions on orders and stock |
| `Webhooks` | a webhook delivery and its transactions as methods over tables |
| `Reconciliation` | the queue of sessions to reconcile: leases, fencing, backoff, reopening |
| `Numerals`, `RefundKeys`, `Refunds`, `RefundRuns` | refunds: keys, reservation, calls, synchronisation, the cap |
| `Allocation`, `Production`, `BackOffice`, `Agreement` | production needs, in the service and recomputed in the back office, and when both agree |
| `Calendar`, `Pickup` | pickup dates: what the shop offers and what the service accepts |
| `SaleTotals`, `RateLimiter` | totals of a sale with rounding; the limiter in front of the checkout |

`dafny verify dfyconfig.toml` checks everything.

How to read it. Every transaction is a function from rows to rows (`Ledger`, `Transactions`, `Checkout`, `Refunds`, ...).
Where the program updates rows in place, a class (`Shop.Tables`, `Webhooks.Tables`, `Reconciliation.Queue`,
`Refunds.RefundService`, `RateLimiter.Limiter`) has one method per transaction whose postcondition equates the new tables
with that function of the old ones; the theorems are about the functions. Database identifiers are positions in a
sequence. Clocks, days, Stripe's answers and what other claims have locked are parameters of the steps. Fields named as
history variables (`State.taken`, `Row.version`, `Claim.version`, `World.staffCancelled`, `World.confirmed`,
`World.calls`) record the past for the theorems and are never read by a step. `StripeSession.offered` says that the
checkout returned the payment address, without which a customer cannot pay.
Predicates such as `Sound`, `Balanced`, `Fit`, `RowsFit` or `Advances` state a fact about all values equal to their argument;
that is the same fact, kept folded so that proofs unfold it only where they name it.

What the proofs found in the code:

- A paid order is cancelled exactly when staff cancelled it (`CheckoutRuns.PaidOrdersSurvive`, with a run that shows the
  exception). No checkout failure can do it: the payment address leaves the service only after the session id was saved.
  Such an order keeps the stock it took until then (`Projection.PaidOrdersKeepTheirStock`).
- The refund cap holds along a run exactly as long as every report of Stripe finds room on its order
  (`RefundRuns.RunIsCappedExactly`). Nothing checks that: a refund that had failed may be revived after its amount was
  given to another request (`RefundRuns.RevivedRefundExceedsTotal`), and a refund made by hand at Stripe is imported on
  top of what is reserved (`RefundRuns.ImportedRefundExceedsTotal`).
- A call tells Stripe the reason its row records, except when a request is repeated under its id with another reason:
  then the key is the old one and the reason the new one (`RefundRuns.ReasonIsKeptExactly`,
  `RefundRuns.RetryMayChangeTheReason`).
- An article without recipe publishes a capacity of 0 and yet accepts every production (`Capacity.CapacityIsExact`).
- `getNextPickupDates` does not end for a point without a usable weekday; `Pickup.DatesExistExactly` gives the condition.
- The back office sorts by day, the service by instant. Whatever the stock they find the same needs exactly when, for
  every visible line, as much open quantity is ahead of it by days as by instants (`Agreement.NeedsAgreeForEveryStock`).
  Lines nobody sees yet may change places; to owe every open line the same, days have to keep the whole order
  (`Agreement.DaysOweAlikeExactly`). Due dates at UTC midnight do, and the service writes no others
  (`toStoredPickupDate`, apps/api/src/commandes/pickup-slots.ts:180-187, called at
  apps/api/src/commandes/commandes.service.ts:335-337 and 407-409); two hours of one day would not
  (`Agreement.HoursOfOneDayMatter`).
- A session that Stripe creates without an address is neither expired nor filed when its order is cancelled: among failed
  checkouts the queue knows exactly the open sessions that have one (`Payments.FailedCheckoutsAreFiled`).

## Model

| member | source | states |
|---|---|---|
| Orders.TransitionStaysFaithful | apps/api/src/commandes/commandes.service.ts:915-1003 | a staff transition succeeds exactly along the table, extends the history by a legal step to the new status and never rewrites the confirmation date |
| Orders.ConfirmPaidStaysFaithful | apps/api/src/commandes/commandes.service.ts:1084-1113 | a webhook confirmation keeps the history a legal path that tells the confirmation date |
| Orders.CancelStaysFaithful | apps/api/src/commandes/commandes.service.ts:1827-1856 | a release keeps the history a legal path that tells the confirmation date |
| Orders.EligibleVisitsNouvelle | apps/api/src/commandes/commande-status-transitions.ts:12-21 | no path reaches preparee or traitee without nouvelle |
| Orders.AtMostThreeChanges | apps/api/src/commandes/commande-status-transitions.ts:12-21 | a legal history has at most three changes and none after a terminal status |
| Orders.TableIsExact | apps/api/src/commandes/commande-status-transitions.ts:12-21 | the status table, pair by pair |
| Orders.ReleasesExactly | apps/api/src/commandes/commandes.service.ts:1784-1818 | an abandoned order is released exactly when it waits for its payment, is older than the cutoff and is still on that session; an unpaid one exactly when it waits; staff cancel all but handed-over and cancelled ones |
| Orders.TransitionIsExact | apps/api/src/commandes/commandes.service.ts:915-1003 | what a staff transition writes: status, history entry, and the confirmation date when there was none |
| Orders.ConfirmPaidIsExact | apps/api/src/commandes/commandes.service.ts:1084-1113 | what a payment writes: nouvelle, the session, the confirmation date, one history entry |
| Lots.FefoDrainsInOrder | apps/api/src/mouvements-stock/mouvements-stock.service.ts:504-589 | consumption takes exactly min(quantity, unexpired total) and touches a lot only once all lots before it in the drawing order are empty; `Lots.FirstExpiredFirstOut` says what that order is |
| Lots.FirstExpiredFirstOut | apps/api/src/mouvements-stock/mouvements-stock.service.ts:562-589 | of two usable lots, the one that is dated when the other is not, or expires first, or on equal dates is older or has the smaller identifier, is empty before the other loses anything |
| Lots.OthersAreLeftAlone | apps/api/src/mouvements-stock/mouvements-stock.service.ts:549-589 | expired lots, empty ones and those of other items keep all they have |
| Lots.FefoIsDrawn | apps/api/src/mouvements-stock/mouvements-stock.service.ts:504-589 | the lots after a consumption, field by field: only usable lots lose, first expired first, never more than asked, and less only when every usable lot is empty |
| Lots.TakesStayWithin | apps/api/src/mouvements-stock/mouvements-stock.service.ts:516-545 | a lot is never drawn below zero, so the conditional update never fails |
| Lots.SellableCovers | apps/api/src/mouvements-stock/mouvements-stock.service.ts:690-730 | a positive quantity is sellable exactly when stock covers it plus everything expired |
| Lots.ComputeSellable | apps/api/src/mouvements-stock/mouvements-stock.service.ts:711-729 | the loop over expired lots computes the sellable stock |
| Requests.AggregateGathers | apps/api/src/commandes/commande-preparation.service.ts:60-76 | aggregation leaves one line per requested article with exactly the quantity requested |
| Requests.AggregateLines | apps/api/src/commandes/commande-preparation.service.ts:60-76 | the loop computes that aggregation |
| Ledger.ReserveKeepsAccounts | apps/api/src/commandes/commande-stock-reservation.service.ts:32-102 | reserving line by line keeps stock, lots, movements and allocations in balance, with exactly the reserved lines outstanding |
| Ledger.ReserveLineSplits | apps/api/src/commandes/commande-stock-reservation.service.ts:68-100 | allocations plus pre-order quantity of the reserved line equal its ordered quantity |
| Ledger.ReleaseKeepsAccounts | apps/api/src/commandes/commandes.service.ts:1895-1990 | restoring line by line keeps the balance, whatever happened to the lots in between |
| Ledger.WriteOffKeepsAccounts | apps/api/src/mouvements-stock/mouvements-stock.service.ts:72-208 | passing a lot to loss keeps the balance even while orders still hold allocations on it |
| Ledger.WithdrawKeepsAccounts | apps/api/src/mouvements-stock/mouvements-stock.service.ts:465-502 | a sale, production or downward adjustment keeps the balance |
| Ledger.DepositKeepsAccounts | apps/api/src/mouvements-stock/mouvements-stock.service.ts:465-502 | a production, reception or upward adjustment keeps the balance |
| Ledger.ReservationIsExact | apps/api/src/commandes/commande-stock-reservation.service.ts:32-102 | every line of a new order draws on its article's lots, first expired first, for what the sellable stock allows, is pre-ordered for the rest, and lowers the stock by its whole quantity |
| Transactions.CancelClosesAccount | apps/api/src/commandes/commandes.service.ts:1811-1856 | recording the cancellation after the restitution leaves nothing outstanding |
| Transactions.AbandonedIsReleasedExactly | apps/api/src/commandes/commandes.service.ts:1761-1877 | the release of an abandoned order cancels it exactly under those three conditions on its row, and changes nothing otherwise |
| Transactions.OthersAreReleasedExactly | apps/api/src/commandes/commandes.service.ts:1761-1877 | the same for staff cancellations and unpaid orders |
| Transactions.PlacementIsAcceptedExactly | apps/api/src/commandes/commandes.service.ts:323-381 | an order is placed exactly when it has lines, all of positive quantities and known articles |
| Transactions.PlacementIsExact | apps/api/src/commandes/commandes.service.ts:323-381 | the order it leaves, one line per article asked for, each served by its reservation |
| Transactions.AdjustIsExact | apps/api/src/mouvements-stock/mouvements-stock.service.ts:341-463 | an adjustment is accepted exactly when it is not zero, leaves no negative stock and is whole for an article; what it writes to stock, lots and movements |
| Transactions.LossIsExact | apps/api/src/mouvements-stock/mouvements-stock.service.ts:72-208 | a lot is passed to loss exactly when it is dated, expired and not empty, holds a whole number of an article or no more than the stock of a raw material; all of it goes |
| Transactions.StepIsSound | apps/api/src/commandes/commandes.service.ts:1761-1937 | every transaction, from any sound state, leaves a sound state |
| Runs.StockIsAccounted | apps/api/src/commandes/commandes.service.ts:1761-1937 | in every run stock is the sum of its movements, and own movements minus the quantities of all orders not cancelled |
| Runs.OrdersAreGivenBackOnce | apps/api/src/commandes/commandes.service.ts:1879-1937 | in every run a cancelled order's movements sum to zero and all its allocations are restored; a live order has taken exactly its lines |
| Runs.LotsAreConserved | apps/api/src/commandes/commandes.service.ts:1940-1990 | in every run remaining + unrestored allocations + taken for good = initial, and 0 <= remaining <= initial |
| Runs.LotsNeverGoBack | apps/api/src/mouvements-stock/mouvements-stock.service.ts:465-547 | along a run a lot keeps its item, expiry and initial quantity, and what was taken for good never shrinks |
| Runs.ReservationsAreSplit | apps/api/src/commandes/commande-stock-reservation.service.ts:68-100 | in every run allocations plus pre-order quantity of each line equal the ordered quantity |
| Runs.ReleasePathsMeet | apps/api/src/commandes/commandes.service.ts:1784-1818 | whichever of two release paths comes first, the second changes nothing and the rows end up the same |
| Runs.HistoriesAreFaithful | apps/api/src/commandes/commandes.service.ts:1820-1893 | in every run each history is legal and ends at the current status, confirmedAt is set exactly when it met nouvelle, a release row exists exactly for cancelled orders |
| Runs.ConfirmationIsNeverRewritten | apps/api/src/commandes/commandes.service.ts:941-950 | along a run histories only grow and a confirmation date stays what it was |
| Projection.StepShows | apps/api/src/commandes/commandes.service.ts:383-884 | every step of the Stripe machine is, on orders and stock, one transaction or none |
| Projection.BothRun | apps/api/src/commandes/commandes.service.ts:383-884 | a run of both machines, stock transactions in between, is a run of each, with the same orders up to their lines |
| Projection.PaidOrdersKeepTheirStock | apps/api/src/commandes/commandes.service.ts:1761-1937 | in every such run a paid order has taken exactly its lines, until staff cancel it: then all is given back, once |
| Transactions.SellLeavesOthers | apps/api/src/ventes/ventes.service.ts:130-139 | a sale leaves the stock of every article it does not mention alone |
| Runs.SaleLeavesExpiredCovered | apps/api/src/ventes/ventes.service.ts:62-186 | an accepted sale takes exactly what was asked and leaves stock covering every expired lot |
| Runs.SaleIsAcceptedExactly | apps/api/src/ventes/ventes.service.ts:232-307 | a sale is accepted exactly when, for every article, stock covers what is asked in all on top of everything expired |
| Runs.SaleIsWellFormedExactly | apps/api/src/ventes/ventes.service.ts:62-186 | all conditions of an accepted sale, form included |
| Draws.SaleDrawsExactly | apps/api/src/ventes/ventes.service.ts:130-186 | an accepted sale draws on the lots of each article for what is asked of it in all, and writes one movement for each |
| Runs.ProductionIsExact | apps/api/src/articles/articles.service.ts:259-357 | produce(n) is accepted exactly up to the published capacity, draws n times the recipe and leaves each raw material covering its expired lots |
| Runs.ProductionIsAcceptedExactly | apps/api/src/articles/articles.service.ts:259-337 | all conditions of an accepted production, on recipe, stock and expired lots |
| Draws.ProductionDrawsExactly | apps/api/src/articles/articles.service.ts:259-400 | an accepted production draws on the lots of each raw material and adds the dated lot of what is produced, with all movements |
| Capacity.CapacityIsExact | apps/api/src/articles/articles.service.ts:204-257 | published capacity against acceptance, with the exact exception of an empty recipe |
| Capacity.PublishedIsTheMinimum | apps/api/src/articles/articles.service.ts:236-256 | the published capacity is the minimum over the ingredients |
| Capacity.CoveredPassesUpdates | apps/api/src/articles/articles.service.ts:296-337 | once the check passed, no conditional update of a raw material can fail |
| Shop.Tables.ConsumeLots | apps/api/src/mouvements-stock/mouvements-stock.service.ts:504-547 | the consuming loop gives the plan and the lots after it; these are drawn first expired first out, stated on the lots' own fields |
| Shop.Tables.RecordMovement | apps/api/src/mouvements-stock/mouvements-stock.service.ts:255-339 | what a movement writes to lots and movements |
| Shop.Tables.ReserveCommandeStock | apps/api/src/commandes/commande-stock-reservation.service.ts:32-102 | the reservation loop refines the reservation of all lines |
| Shop.Tables.PlaceCommande | apps/api/src/commandes/commandes.service.ts:323-381 | placing an order refines its transaction |
| Shop.Tables.RestoreReservedStock | apps/api/src/commandes/commandes.service.ts:1895-1990 | the restitution loops refine the release of all lines |
| Shop.Tables.ReleaseOrderReservation | apps/api/src/commandes/commandes.service.ts:1761-1877 | the guarded release refines its transaction; with a cutoff it releases exactly an order that waits for its payment, was created before the cutoff and is on that session, and the order ends cancelled exactly then |
| Shop.Tables.CancelCommande | apps/api/src/commandes/commandes.service.ts:886-913 | staff cancellation with its conflict answers |
| Shop.Tables.TransitionCommandeStatus | apps/api/src/commandes/commandes.service.ts:915-1003 | staff transition with its refusals |
| Shop.Tables.CreateVente | apps/api/src/ventes/ventes.service.ts:62-186 | check, decrements and movements of a sale refine its transaction; a refused sale changes nothing |
| Shop.Tables.AjusterStock | apps/api/src/mouvements-stock/mouvements-stock.service.ts:341-463 | an adjustment refines its transaction |
| Shop.Tables.ProduceArticle | apps/api/src/articles/articles.service.ts:259-400 | a production refines its transaction, with rollback when a conditional update fails |
| Shop.Tables.MarkLotAsLoss | apps/api/src/mouvements-stock/mouvements-stock.service.ts:72-208 | passing a lot to loss refines its transaction |
| CheckoutRuns.EveryRunIsSound | apps/api/src/commandes/commandes.service.ts:383-548 | the invariant of orders, sessions, checkouts, cleanups and deliveries, over every interleaving |
| CheckoutRuns.PaidOrdersSurvive | apps/api/src/commandes/commandes.service.ts:383-548 | in every run an order whose session is paid is cancelled exactly when staff cancelled it |
| Payments.NoPaymentIsCancelledSilently | apps/api/src/commandes/commandes.service.ts:1005-1127 | once the completed event of a paid session is processed, its order is cancelled exactly when staff did so; and the delivery that finished it confirmed an order attached to the session, the session's own if the event names it, or filed a review row that stays until staff resolve it |
| Payments.FailedCheckoutsAreFiled | apps/api/src/commandes/commandes.service.ts:475-546 | in every run a checkout that ended without handing out its session leaves it unpaid and its order confirmed by somebody or cancelled; while the session of a cancelled one is open, it is filed for expiration exactly when it has an address |
| Payments.CancelFiles | apps/api/src/commandes/commandes.service.ts:1145-1212 | a checkout undone while the order waits cancels it, and leaves an unresolved expiration row unless Stripe reported the session expired |
| CheckoutRuns.StaffMayCancelAPaidOrder | apps/api/src/commandes/commandes.service.ts:886-913 | a run in which staff cancel an order whose saved session was paid |
| CheckoutRuns.CleanupEndsIsSound | apps/api/src/commandes/commandes.service.ts:686-884 | the end of a cleanup, whatever happened since its preflight, cancels only waiting orders whose own session has lapsed, and writes no other |
| CheckoutRuns.CleanupReleasesExactly | apps/api/src/commandes/commandes.service.ts:686-736 | once the session is neutralised, a cleanup cancels its order exactly when it still waits for its payment, is still older than the cutoff and still on that session |
| CheckoutSteps.PreflightIsExact | apps/api/src/commandes/commandes.service.ts:686-786 | which orders a cleanup takes up, and which one it files because it has no session |
| CheckoutSteps.BlockedCleanupIsExact | apps/api/src/commandes/commandes.service.ts:788-884 | a cleanup that is blocked files the operation its report asks for, or writes nothing, and holds no order |
| CheckoutSteps.CreationIsExact | apps/api/src/commandes/commandes.service.ts:399-475 | the answer to a session creation: an open session, or the order given up |
| CheckoutSteps.CreatedIsExact | apps/api/src/commandes/commandes.service.ts:475-546 | a session without an address gives its order up; one with an address is saved and offered, or kept back |
| CheckoutSteps.AnswersAreTruthful | apps/api/src/commandes/stripe-checkout.gateway.ts:175-245 | what an expiration can answer on each state of a session, and the state it leaves |
| Deliveries.BlockedCleanupIsFiled | apps/api/src/commandes/commandes.service.ts:788-884 | a cleanup whose session may still be paid cancels nothing; it leaves an unresolved row with the operation the report asks for, unless the order was confirmed or changed session |
| CheckoutRuns.ApplyEventIsSound | apps/api/src/commandes/commandes.service.ts:1129-1143 | a delivery, however late, cancels an order only on the expiry event of its own lapsed session |
| CheckoutRuns.ResolvedSessionIsSound | apps/api/src/commandes/commandes.service.ts:1214-1320 | a session is resolved only to the one order it is attached to |
| CheckoutSteps.ResolutionIsExact | apps/api/src/commandes/commandes.service.ts:1214-1320 | a session resolves to an order exactly when that is the only one attached to it by session, metadata or reference |
| CheckoutSteps.UnmatchedIsExact | apps/api/src/commandes/commandes.service.ts:1214-1320 | a session attached to no order files exactly one review, and nothing else changes |
| Deliveries.ConfirmSessionSettles | apps/api/src/commandes/commandes.service.ts:1005-1127 | after a completed event is applied, its order is nouvelle, attached to the session and the only one the event names, or the step filed an unresolved review row |
| Checkout.Anomaly | apps/api/src/commandes/commandes.service.ts:1346-1449 | a payment is accepted exactly when it is paid, in euros, of the order's total, and neither the session nor its references contradict a waiting or confirmed order |
| CheckoutRuns.AnomaliesAreExact | apps/api/src/commandes/commandes.service.ts:1346-1449 | which review each payment asks for: a mismatch, an attachment conflict, a cancelled order, or none |
| CheckoutSteps.ConfirmationIsExact | apps/api/src/commandes/commandes.service.ts:1005-1127 | what a completed event writes: the review it asks for, the confirmation of a waiting order, or nothing |
| CheckoutSteps.DeliveryIsExact | apps/api/src/commandes/commandes.service.ts:577-610 | an expiry event gives up its order if it waits, a completed one confirms it, and the delivery goes on to its mark |
| Deliveries.ResolveSessionEvolves | apps/api/src/commandes/commandes.service.ts:1214-1320 | a session resolved to no order files an unresolved review row |
| Deliveries.ConfirmSessionEvolves | apps/api/src/commandes/commandes.service.ts:1346-1449 | every anomaly files an unresolved review row, and the queue stays sound |
| Deliveries.ProcessedPaymentsAreNotLost | apps/api/src/commandes/commandes.service.ts:577-610 | in every run a processed completed event, whatever it carries, had a delivery whose finishing step left an order attached to its session confirmed or filed a review row; that order has nouvelle in its history and that row is only ever resolved by staff |
| Deliveries.HandledPaymentsLast | apps/api/src/commandes/commandes.service.ts:1005-1127 | whatever follows such a step, that same order has nouvelle in its history, or the row it filed is still there and only staff have resolved it |
| Deliveries.EveryRunIsFit | apps/api/src/commandes/commandes.service.ts:550-627 | in every run claims carry distinct tokens no later than their event's, orders are confirmed once, deliveries act on orders attached to their session and the queue stays sound |
| Deliveries.OneHolderPerEvent | apps/api/src/commandes/commandes.service.ts:1522-1655 | in every state such a run reaches at most one delivery can mark an event; one that was taken over cannot |
| Deliveries.ProcessedIsForGood | apps/api/src/commandes/commandes.service.ts:1565-1567 | processed is absorbing and no later delivery is let in |
| Deliveries.UnprocessedIsClaimable | apps/api/src/commandes/commandes.service.ts:1569-1612 | an unprocessed event is let in exactly after a failure or past the timeout |
| CheckoutSteps.ClaimIsExact | apps/api/src/commandes/commandes.service.ts:1522-1612 | an event is let in when it is new, failed, or held longer than the timeout; the row and the token it leaves |
| CheckoutSteps.MarkIsExact | apps/api/src/commandes/commandes.service.ts:1614-1655 | a mark is written exactly when the event is in progress since the delivery's own claim |
| CheckoutSteps.EndsAreExact | apps/api/src/commandes/commandes.service.ts:577-627 | a delivery that is done with its event marks it processed; any other is not marked so |
| Deliveries.EachOrderIsConfirmedOnce | apps/api/src/commandes/commandes.service.ts:577-590 | over any deliveries and takeovers each order is confirmed, and so e-mailed, at most once |
| Webhooks.Tables.ClaimStripeWebhookEvent | apps/api/src/commandes/commandes.service.ts:1522-1612 | a processed event is a duplicate, one in progress is refused, any other is claimed; and the row it leaves |
| Webhooks.Tables.MarkStripeWebhookEvent | apps/api/src/commandes/commandes.service.ts:1614-1655 | a mark is written exactly when the token is still the claim's |
| Webhooks.Tables.ResolveCommandeForCheckoutSession | apps/api/src/commandes/commandes.service.ts:1214-1320 | the matching loop refines the resolution step |
| Webhooks.Tables.ConfirmPaidCommande | apps/api/src/commandes/commandes.service.ts:1005-1127 | the transaction refines the confirmation step |
| Webhooks.Tables.ExpirePendingCommande | apps/api/src/commandes/commandes.service.ts:1129-1143 | resolution and release of an expired session refine the handling of its event |
| Webhooks.Tables.HandleStripeWebhook | apps/api/src/commandes/commandes.service.ts:577-627 | a whole delivery changes nothing unless it claims the event; then the event ends up processed, a completed one with its order confirmed or an unresolved review row filed, as the four steps of a run leave it |
| Webhooks.DeliveryHandles | apps/api/src/commandes/commandes.service.ts:577-610 | claim, resolution, application and mark in a row handle an event exactly when the claim lets it in |
| Webhooks.DeliveredByFourSteps | apps/api/src/commandes/commandes.service.ts:577-610 | such a delivery is four steps of the runs |
| Reconciliation.UpsertIsSound | apps/api/src/commandes/commandes.service.ts:1475-1519 | a report leaves one unresolved row for its session and operation, due at once, without claim or lease, its attempts added up, and every other row as it was |
| Reconciliation.OldestAreSelected | apps/api/src/stripe-reconciliation/stripe-reconciliation.service.ts:179-215 | a batch takes the oldest due rows, and all of them when it is not full |
| Reconciliation.BatchIsExact | apps/api/src/stripe-reconciliation/stripe-reconciliation.service.ts:179-215 | a batch holds only waiting, unlocked rows; one that is left out is later than all of a full batch |
| Reconciliation.LeaseIsExact | apps/api/src/stripe-reconciliation/stripe-reconciliation.service.ts:179-215 | what a claim writes to the rows of its batch, and no other |
| Reconciliation.BackoffIsCapped | apps/api/src/stripe-reconciliation/stripe-reconciliation.service.ts:527-532 | delays never shrink, stay within the cap and reach it |
| Reconciliation.AutomaticOutcomes | apps/api/src/stripe-reconciliation/stripe-reconciliation.service.ts:395-476 | only an expired session resolves a row by itself; a retry is due later, within the cap, and only below the maximum of attempts; `Reconciliation.OutcomesAreExact` gives each outcome |
| Reconciliation.OutcomesAreExact | apps/api/src/stripe-reconciliation/stripe-reconciliation.service.ts:395-476 | a retryable failure or a crash leaves the row pending exactly while attempts are left, due after base * 2^(attempt - 1) or the cap, and failed otherwise; a neutralised session resolves it; every other answer asks for a human |
| Reconciliation.ReviewsWaitForStaff | apps/api/src/stripe-reconciliation/stripe-reconciliation.service.ts:256-294 | along a run a row that asks for a review is resolved only by staff |
| Reconciliation.LeasesGoWithPendingRows | apps/api/src/stripe-reconciliation/stripe-reconciliation.service.ts:179-294 | in every run claimed implies pending, a lease goes with a claim, and a session has at most one unresolved row per operation |
| Reconciliation.RowsNeverGoBack | apps/api/src/stripe-reconciliation/stripe-reconciliation.service.ts:491-525 | along a run a row keeps its session and operation, attempts never decrease and a resolved row never changes |
| Reconciliation.FinalisationIsFenced | apps/api/src/stripe-reconciliation/stripe-reconciliation.service.ts:491-525 | in every run a worker finalises exactly when nobody wrote the row since its claim and the lease still runs |
| Reconciliation.OneLeaseAtMost | apps/api/src/stripe-reconciliation/stripe-reconciliation.worker.ts:41-58 | in every run at most one claim in hand on a row is still good |
| Reconciliation.Queue.ClaimDueReconciliations | apps/api/src/stripe-reconciliation/stripe-reconciliation.service.ts:179-215 | the claim refines selection and lease |
| Reconciliation.Queue.FinalizeClaimed | apps/api/src/stripe-reconciliation/stripe-reconciliation.service.ts:491-525 | a row is finalised exactly by the owner of a running lease, which it then loses; no other row changes |
| Reconciliation.Queue.RetryReconciliation | apps/api/src/stripe-reconciliation/stripe-reconciliation.service.ts:217-254 | any unresolved row becomes due, with its attempts; no other row changes |
| Reconciliation.Queue.ResolveManually | apps/api/src/stripe-reconciliation/stripe-reconciliation.service.ts:256-294 | exactly a row under manual review or failed is resolved and unclaimed; no other row changes |
| RefundKeys.TextsAreDistinct | apps/api/src/commandes/commande-refunds.service.ts:746-770 | two keys with the same text stand for the same order, requester and request |
| Refunds.SummaryAddsUp | apps/api/src/commandes/commande-refunds.service.ts:648-685 | refunded + pending + refundable = total exactly when no more than the total is reserved |
| Refunds.FindLocal | apps/api/src/commandes/commande-refunds.service.ts:520-555 | a report is about the oldest candidate on the same payment or Stripe id, else about the oldest candidate |
| Refunds.LocalIsExact | apps/api/src/commandes/commande-refunds.service.ts:520-555 | which row a report is about, or that there is none, on the rows' own fields |
| Refunds.ReportIsRecordedExactly | apps/api/src/commandes/commande-refunds.service.ts:410-479 | what a report writes to its row and order; it is refused exactly when another row holds its Stripe id |
| Refunds.ReportIsImportedExactly | apps/api/src/commandes/commande-refunds.service.ts:481-515 | a refund made elsewhere is taken over exactly when an order has its payment and no row its key |
| Refunds.LookupIsExact | apps/api/src/commandes/commande-refunds.service.ts:575-616 | which payment look-ups are good, and the error of each other |
| Refunds.RefundService.PrepareRefundRequest | apps/api/src/commandes/commande-refunds.service.ts:205-377 | the transaction refines the preparation, whose answers and amounts the rows on requests below give; a refusal changes nothing |
| Refunds.RefundService.SyncStripeRefund | apps/api/src/commandes/commande-refunds.service.ts:410-518 | the transaction refines the synchronisation; a refused write changes nothing |
| Refunds.RefundService.CreateStripeRefund | apps/api/src/commandes/commande-refunds.service.ts:379-408 | the call's answer is recorded, or the row is marked failed |
| Refunds.RefundService.CreateRefund | apps/api/src/commandes/commande-refunds.service.ts:142-178 | the two-round loop refines one look-up and one call, and never reaches its final throw |
| RefundRuns.PreparedRequest | apps/api/src/commandes/commande-refunds.service.ts:263-375 | a call is made only for a new row or one that failed without a Stripe id, carries what that row says, and the row belongs to the order |
| RefundRuns.NewRequestIsAcceptedExactly | apps/api/src/commandes/commande-refunds.service.ts:287-377 | a request that repeats no row is accepted exactly when its amount is positive and at most total minus reserved, where the amount is the given one or else exactly total minus reserved; the call and the new row carry it |
| RefundRuns.RepeatedIdIsServedExactly | apps/api/src/commandes/commande-refunds.service.ts:263-332 | a request that repeats an id is answered from its row, or retries it with the row's own amount while there is room |
| RefundRuns.RepeatedContentIsServedExactly | apps/api/src/commandes/commande-refunds.service.ts:263-375 | the same without an id, by content |
| RefundRuns.OthersAreTurnedAway | apps/api/src/commandes/commande-refunds.service.ts:205-262 | unknown, unpaid and unresolved orders |
| RefundRuns.OneMoreRefund | apps/api/src/commandes/commande-refunds.service.ts:648-685 | what each row adds to refunded, pending and reserved, by its status |
| RefundRuns.AcceptedStaysWithinTotal | apps/api/src/commandes/commande-refunds.service.ts:287-317 | an accepted request never raises reserved refunds above the total and touches no other order |
| RefundRuns.OneKeyOneRefund | apps/api/src/commandes/commande-refunds.service.ts:379-400 | in every run calls whose keys read the same are attempts of one row with the same amount, currency and payment intent, and without a request id with the same reason |
| RefundRuns.OneRequestOneRow | apps/api/src/commandes/commande-refunds.service.ts:263-285 | in every run all attempts with one order, requester and request id share one row |
| RefundRuns.RefundsStayWithinTotal | apps/api/src/commandes/commande-refunds.service.ts:410-518 | in every run with benign reports reserved <= total and the three amounts add up to the total |
| RefundRuns.SyncKeepsCapExactly | apps/api/src/commandes/commande-refunds.service.ts:459-515 | whatever is reported, on a row or on a refund made elsewhere, the cap survives exactly when the order has room for it |
| RefundRuns.RunIsCappedExactly | apps/api/src/commandes/commande-refunds.service.ts:410-518 | a run keeps every order within its total throughout exactly when every report in it found room |
| RefundRuns.RevivedRefundExceedsTotal | apps/api/src/commandes/commande-refunds.service.ts:459-479 | a run in which a revived refund breaks the cap |
| RefundRuns.ImportedRefundExceedsTotal | apps/api/src/commandes/commande-refunds.service.ts:481-515 | a run in which an imported refund breaks the cap, though none was revived |
| RefundRuns.ReasonIsKeptExactly | apps/api/src/commandes/commande-refunds.service.ts:263-375 | a call carries the reason of its row exactly unless it repeats a request id with a reason other than the recorded one |
| RefundRuns.RetryMayChangeTheReason | apps/api/src/commandes/commande-refunds.service.ts:334-375 | a run with two calls under one key and different reasons |
| Allocation.TotalToProduce | apps/api/src/commandes/commande-production-needs.service.ts:150-200 | per article, total to produce = min(open quantity, max(0, -stock)) |
| Allocation.CoveredLinesAreAPrefix | apps/api/src/commandes/commande-production-needs.service.ts:178-198 | covered lines form a prefix in due order with at most one partly covered |
| Allocation.NoHandOutDoesBetter | apps/api/src/commandes/commande-production-needs.service.ts:178-198 | for every k no other hand-out of the available units covers more of the first k lines |
| Allocation.AlongDueOrder | apps/api/src/commandes/commande-production-needs.service.ts:160-198 | the order-free quantity of a line is what the loop along the due order leaves it |
| Allocation.SortedIsInDueOrder | apps/api/src/commandes/commande-production-needs.service.ts:160-176 | the comparison sorts lines of distinct orders strictly |
| Allocation.DueFirstIsServedFirst | apps/api/src/commandes/commande-production-needs.service.ts:160-198 | of two lines, the dated one before the undated one, then the one due earlier, then that of the older order, is covered in full before the other gets anything |
| Production.AllocateArticle | apps/api/src/commandes/commande-production-needs.service.ts:150-200 | the loop gives every line of an article what is owed to it, and touches no other article |
| Production.AllocateProductionQuantities | apps/api/src/commandes/commande-production-needs.service.ts:116-204 | the map holds exactly what the allocation owes every open line |
| Production.ServiceOwesExactly | apps/api/src/commandes/commande-production-needs.service.ts:116-204 | what the map owes a line, from the open orders themselves: its quantity less what stock leaves after all lines served before it, and nothing for an order that waits for its payment |
| Production.FetchOrderIsIrrelevant | apps/api/src/commandes/commande-production-needs.service.ts:61-91 | maps computed from the same orders in any order give each order the same of each article |
| BackOffice.GetExplicitProductionNeeds | apps/web/src/lib/production-needs.ts:205-261 | the loops aggregate the annotated lines; for every article and day, what is to produce is the sum of what the lines are owed and of the split by order, what is ordered the sum of the quantities of the lines that add something, the stock that of the article, and the entry exists exactly when some line adds something |
| BackOffice.GetProductionNeeds | apps/web/src/lib/production-needs.ts:46-177 | the same of the recomputed allocation, each article once |
| BackOffice.AnnotatedNeedsSay | apps/web/src/lib/production-needs.ts:205-261 | those sums for the annotated lines |
| BackOffice.RecomputedNeedsSay | apps/web/src/lib/production-needs.ts:46-177 | those sums for the recomputed allocation |
| BackOffice.LeastStockIsKept | apps/web/src/lib/production-needs.ts:125-165 | an entry keeps the least of the stocks it was given |
| BackOffice.AggregateOfPermutation | apps/web/src/lib/production-needs.ts:125-165 | needs do not depend on the order in which lines are added |
| Agreement.NeedsAgreeForEveryStock | apps/web/src/lib/production-needs.ts:31-177 | whatever the stock both ways give the same needs for every article, day and order exactly when, for every visible line, the open quantity ahead of it by days is the one ahead of it by instants |
| Agreement.NeedsAgreeExactly | apps/web/src/lib/production-needs.ts:31-177 | on one stock they do exactly when they owe every visible line the same |
| Agreement.AllocationExists | apps/api/src/commandes/commande-production-needs.service.ts:116-204 | for any stock there is an allocation, so that the two statements speak of something |
| Agreement.DaysOweAlikeExactly | apps/web/src/lib/production-needs.ts:77-125 | service and back office owe every open line of an article the same, whatever the stock, exactly when days keep the order of the lines |
| Agreement.BothWaysAgree | apps/web/src/lib/production-needs.ts:31-177 | with pickup dates as they are stored both ways give the same needs |
| Agreement.NeedsBothWays | apps/web/src/lib/production-needs.ts:31-177 | the two programs one after the other, with both results |
| Agreement.HoursOfOneDayMatter | apps/web/src/lib/production-needs.ts:267-281 | two orders due at different hours of one day for which the needs differ |
| Calendar.NextDayIsOneLater | apps/api/src/commandes/pickup-slots.ts:288-290 | the next day has the next day number |
| Calendar.DatesAreGregorian | apps/api/src/commandes/pickup-slots.ts:222-290 | which days exist, and which one comes next |
| Calendar.EarlierHasSmallerNumber | apps/api/src/commandes/pickup-slots.ts:288-290 | day numbers are in the order of dates and identify them |
| Calendar.TextsReadBack | apps/api/src/commandes/pickup-slots.ts:222-244 | both formats read back as the date up to the year 9999, and not after |
| Calendar.ReadIsWritten | apps/api/src/commandes/pickup-slots.ts:222-244 | a text is read as a date exactly when it starts with that date as the service writes it |
| Pickup.GetNextPickupDates | apps/shop/src/lib/pickup-points.ts:142-163 | the loop ends with exactly the first allowed dates |
| Pickup.OfferedAreAllowed | apps/shop/src/lib/pickup-points.ts:77-97 | offered dates are allowed, not before the earliest one, and strictly increasing |
| Pickup.EarliestIsExact | apps/api/src/commandes/pickup-slots.ts:158-178 | the earliest date is tomorrow before 14 hours and the day after from then on |
| Pickup.NoneIsSkipped | apps/shop/src/lib/pickup-points.ts:142-163 | no allowed date is left out before the last one offered |
| Pickup.DatesExistExactly | apps/shop/src/lib/pickup-points.ts:77-97 | the exact condition for a point to have dates at all |
| Pickup.AcceptanceCondition | apps/api/src/commandes/pickup-slots.ts:111-156 | what the service accepts for a point, as one condition |
| Pickup.RefusalsAreExact | apps/api/src/commandes/pickup-slots.ts:111-178 | the answer to every date for a known point, in the order of the checks |
| Pickup.OfferedAreAccepted | apps/api/src/commandes/pickup-slots.ts:111-156 | of the offered dates the service accepts exactly those up to the year 9999 |
| Pickup.AcceptedAreOffered | apps/api/src/commandes/pickup-slots.ts:111-156 | any accepted date is offered or later than all offered ones |
| SaleTotals.TotalsAddUp | apps/api/src/ventes/ventes.service.ts:109-128 | 0 <= HT <= TTC, tax >= 0 and HT + tax = TTC |
| SaleTotals.NoDiscountIsExact | apps/api/src/ventes/ventes.service.ts:111-127 | without discount HT is the sum of the line HT |
| SaleTotals.PaidIsExact | apps/api/src/ventes/ventes.service.ts:109-128 | the price paid is the lines' total less the discount and never below zero; HT is the lines' HT in the same proportion, rounded half up |
| SaleTotals.DiscountLowers | apps/api/src/ventes/ventes.service.ts:109-127 | HT is monotone in the discount |
| SaleTotals.RoundingIsBounded | apps/api/src/ventes/ventes.service.ts:86-128 | HT is within 1/2 + n * r / 2 of the exact discounted HT |
| SaleTotals.LineIsBounded | apps/api/src/money.ts:16-18 | the HT of a line lies between 0 and its TTC |
| RateLimiter.Limiter.Handle | apps/api/src/rate-limit/checkout-rate-limit.middleware.ts:68-102 | a request is refused exactly when its window still runs and is full, with a delay that covers the rest of it; other keys are untouched |
| RateLimiter.WindowsAreCapped | apps/api/src/rate-limit/checkout-rate-limit.middleware.ts:73-101 | an entry counts the admissions of its window, at most the maximum |
| RateLimiter.TwiceTheMaximum | apps/api/src/rate-limit/checkout-rate-limit.middleware.ts:73-101 | any interval as long as a window holds at most twice the maximum per key |
| RateLimiter.KeysAreIndependent | apps/api/src/rate-limit/checkout-rate-limit.middleware.ts:70-71 | a key is served as if its requests were alone |
| RateLimiter.RetryAfterIsEnough | apps/api/src/rate-limit/checkout-rate-limit.middleware.ts:82-90 | a client that waits the announced delay is admitted; a whole second less is not enough |

## Left out

- Lots, stock and orders: movement rows keep their delta only, since the before and after values of a reservation are
  read before its transaction; the row locks themselves and their order; prices, order totals and customer data; creation,
  edition and archiving of articles and raw materials beyond a first row; sale and reservation lines are taken in request
  order.
- Shop.Tables.RecordMovement: records any movement; the program refuses a loss that does not lower the stock
  (apps/api/src/mouvements-stock/mouvements-stock.service.ts:656-682), but no caller records a loss through it.
- Shop.Tables.PlaceCommande: takes the pickup date as valid (`Pickup` models its validation), every known article as on
  sale, and computes no total.
- Shop.Tables.ReleaseOrderReservation: writes no queue row; the one a failed checkout asks for in the same transaction is
  in `Checkout.CancelUnpersisted`.
- Shop.Tables.CreateVente: writes stock, lots and movements; the sale row and its totals are in `SaleTotals`.
- Quantities of raw material are exact reals; the program stores floating-point numbers.
- The four release paths are the options their callers pass; `AbandonedRelease` and the others are the only ones.
- Stripe's side: a session goes from open to lapsed or to paid, both final; reports about it are truthful, a failed
  expiration may still have expired it; a session whose address was not returned cannot be paid, which also covers a
  creation whose answer was lost; an expiry event is genuine, a completed event may carry anything.
- The retrieval and the expiration that follow each other in `expireCheckoutSession` are one step, and the error texts it
  matches are not modelled.
- A failure to save the session id leaves the order row as it was; a write that succeeded although it was reported as
  failed is not modelled.
- When several orders match a session the first one is put on the queue row; the program takes whichever the database
  returns first.
- Webhooks.Tables.HandleStripeWebhook: a delivery that nobody interrupts and that does not fail; interruptions, failures
  and takeovers are the runs of `Deliveries`. The stock an expired order gives back is in `Projection`.
- Agreement.NeedsAgreeForEveryStock: asks, like `DaysOweAlikeExactly`, for positive quantities, which is what order lines have.
- Webhook claims read the clock once; error texts, attempts counters, analytics, the e-mail itself and event types other
  than the two checkout ones are left out (refund events are the webhook steps of `RefundRuns`).
- Queue rows: error texts, review reasons, listing and the local order state the worker reads for its logs.
- Refunds: notes are kept only as the hash in the key; failure texts, listing, the aggregate label and the retryable or
  not distinction of Stripe's errors. Keys are records; `RefundKeys.TextsAreDistinct` justifies it for requesters and
  reasons without a colon, which is what user identifiers and the four reasons are.
- The currency of a report is taken in lower case.
- Production needs: article names, due date texts, urgency and the final sorting for display; the split by order is the
  `byOrder` map. An order has one line per article, which is how `Requests` creates them.
- The Paris offset of an instant is any function between zero and a day.
- Pickup: time zones and labels; the Paris date and hour are parameters.
- Pickup.OfferedAreAccepted: asks for a clock in the year 1000 or later, because the shop does not pad the year it writes.
- SaleTotals.SaleTotals: discounts are whole cents, although the request type also admits fractions, which the integer
  column then refuses; floating-point division is exact.
- Rate limiter: how a key is derived from an address, headers and messages.
- Roles, categories, opening hours, uploads, exports, cash totals, preparation sheets and the user interfaces: no state
  shared with the above, or simple sums.
