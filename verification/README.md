# Verified models of Saleor's stateful cores

Saleor is a commerce backend. This project models, in Dafny, the parts of it whose correctness spans many calls, many
rows or many threads, and proves what they promise for all inputs and all runs.

- **Fulfillment ledger** (`Ledger*.dfy`): units of an order line move between fulfillments when goods are fulfilled,
  approved, cancelled, refunded, returned or replaced. `LedgerBooks` says what each action does to the rows,
  `Ledger.OrderLedger` is the class whose loops do it in place. `LedgerEffects`, `LedgerReturns` and `LedgerFulfilling`
  say what whole actions do, in terms of their requests; the others prove conservation, refunds and replacements over
  runs.
- **Block strings** (`TextLines`, `Block*`, `SchemaDescription`): the schema printer decides whether a description
  can be a GraphQL block string, prints and re-indents it. `BlockReader` is written from section 2.9.4 of the GraphQL
  specification (October 2021) and knows nothing of the printer.
- **Checkout prices** (`DiscountPropagation`, `CheckoutTotals`, `VoucherOrPromotion`): a discount is spread over lines
  with rounding.
- **Checkout completion** (`CheckoutStore`, `CheckoutCompletion`, `VoucherAccounting`, `VoucherFlags`): any number of threads
  interleave between locked transactions; a thread may stop for good anywhere.
- **Login throttle** (`LoginThrottle`, `LoginReplies`), **batched tasks** (`PromotionToggle`, `VoucherRelease`), **compressed
  responses** (`GzipResponse`, `AcceptEncoding`), **attribute values** (`Attribute*`), **delivery method**
  (`DeliveryMethod`) and **payment status** (`PaymentStatus`).

Code that updates rows or fields is a class whose methods are proved against a specification function or state their
meaning directly; the properties are lemmas about those functions and about runs of them. Money is in minor units,
times are in seconds, and each database transaction is one step.

`dafny verify dfyconfig.toml` checks everything.

## Where the code does less than it says

- The docstring of the discount generator promises that the line discounts sum to the discount amount. They do exactly
  under the condition of `DiscountsExact`; `ClippedLast` is an input where they do not. The last line can also cost more
  than its base price (`RaisedLast`), exactly under the condition of `LastRaisedExactly`.
- The voucher counter is not protected against two attempts on one checkout: a failing second attempt releases the
  usage that the first relies on (`UncoveredOrder`). With one attempt at a time the counter is never too low
  (`UsageNeverBelow`), and too high after the inactive-payment branch, which passes no code to the handler.
- Cancelling a fulfillment of refunded or replaced goods lets a refund count its units again, and no other cancellation
  does (`CancelReopensExactly`, `CountedAgainAfterCancel`).
- Cancelling a fulfillment with several lines of one order line gives back only the line that the query returns first
  (`CancelBalancedExactly`, `CancelBalancedInEveryOrder`). The cancel mutation accepts such fulfillments, so
  `RunStaysSound` bounds every accepted run and `RunStaysBalanced` names the restriction under which the sum is exact.
- An end date that falls between a task's query and its update never gets its notice (`EndMissedWhileStarting`).
- The chain that releases voucher usages stops at a batch whose ids are all missing (`CompleteExactly`).
- A description with a line break that only Python knows, such as U+2028, can lose its leading indent
  (`IndentLostAtLineSeparator`).
- The comment that completion is triggered only once holds exactly under the condition of `SignalledOnceExactly`, for
  instance while amounts grow, and fails for an authorization that is withdrawn and given again
  (`WithdrawnAndGivenAgain`). A status query before the update suppresses the fully-paid event
  (`AnnouncementMissed`, and the exact condition in `SignalledExactly`).
- The gzip wrapper drops messages of any other type (`OthersVanish`), sends gzip to a client that refuses it by weight
  zero and withholds it from one that accepts it by `*` or in capitals (`AcceptsExactly`, `AcceptsPlain`), and its loop
  over `Vary` changes nothing.

The direct total and the total built from lines rely on vouchers and order promotions excluding each other
(`TotalsWithoutSpread`); the code keeps them apart (`RunKeepsApart`, `ReachableTotals`).

## Model

| member | source | states |
|---|---|---|
| `LedgerRuns.RunStaysSound` | saleor/order/actions.py:813-1963 | over every run of create, approve, cancel-waiting, cancel, refund, return and replace actions that the mutations accept, cancellations with several lines of one order line included, each order line's `quantity_fulfilled` stays within 0..quantity and is at least the sum of its live fulfillment lines |
| `LedgerSound.FreshIsBalanced` | saleor/order/actions.py:1249-1370 | an order with nothing fulfilled is balanced, so runs can start there |
| `LedgerRuns.RunBalance` | saleor/order/actions.py:813-1963 | over every such run, `quantity_fulfilled` exceeds that sum by exactly the units that cancellations stranded |
| `LedgerRuns.RunBalancedExactly` | saleor/order/actions.py:776-841 | from a balanced ledger, the sum is exact at the end of a run if and only if no cancellation found units of the order line behind the first of its lines that the query returned |
| `LedgerSingle.RunStaysBalanced` | saleor/order/actions.py:813-1963 | conservation in full, restricted to runs whose parcels name each order line once (checked by the fulfill mutation) and whose cancellations of refunded, returned or replaced goods find one line per order line (not checked by any mutation) |
| `LedgerSingle.OpenCancelStrandsNothing` | saleor/order/actions.py:813-841 | where open fulfillments have one line per order line, as they keep in the runs of `RunStaysBalanced`, cancelling a fulfilled or waiting fulfillment strands nothing, in whatever order its lines are returned |
| `LedgerTotals.MoveConserves` | saleor/order/actions.py:1465-1517 | for every order line and stock, a move between fulfillments keeps the total over all fulfillments, however lines merge, split, repeat or are deleted |
| `LedgerTotals.MoveLinesUnits` | saleor/order/actions.py:1465-1517 | for every set of fulfillments, a move changes the units there by exactly what its requests bring in or take out |
| `LedgerCounts.MoveLinesCount` | saleor/order/actions.py:1465-1517 | a move of checked requests changes the units in every class of statuses by the net flow into that class |
| `LedgerCounts.AddOrderLinesCount` | saleor/order/actions.py:1409-1462 | what `quantity_fulfilled` gains arrives in the target fulfillment unit for unit, with over-asked and repeated requests included |
| `LedgerSound.RefundCreatedSound` | saleor/order/actions.py:1532-1596 | refunding keeps the bounds, the shape of every table and the balance of every order line unit for unit, deleted empty fulfillments included |
| `LedgerSound.ReturnCreatedSound` | saleor/order/actions.py:1872-1963 | returning and replacing together keep the bounds, the shape of every table and the balance of every order line unit for unit |
| `LedgerCreateCancel.CreatedSound` | saleor/order/actions.py:1249-1370 | creating one fulfillment per warehouse keeps the balance of every order line, whatever repeats in the parcels, and never exceeds the ordered quantity, or rolls back |
| `LedgerCreateCancel.WaitingCanceledSound` | saleor/order/actions.py:813-841 | cancelling a waiting fulfillment keeps the bounds; the balance shifts by the stranded units, for every order of its lines |
| `LedgerCreateCancel.CancelBalancedExactly` | saleor/order/actions.py:776-810 | for a given order of the lines, cancelling with restocking keeps the balance of an order line if and only if all its units in the fulfillment are on the first of its lines |
| `LedgerCreateCancel.CancelBalancedInEveryOrder` | saleor/order/utils.py:662-674 | the query promises no order: the balance is kept in every order if and only if the fulfillment has at most one line of the order line, or none of its units |
| `LedgerCreateCancel.CancelWithoutRestock` | saleor/order/actions.py:776-810 | cancelling without a warehouse keeps the balance of an order line if and only if the fulfillment holds none of its units |
| `LedgerRefunds.TakeIntoSettles` | saleor/order/actions.py:1532-1596 | checked requests raise the refunded or replaced units of an order line by exactly the requested units that were not refunded before |
| `LedgerRefunds.ReturnCreatedSettles` | saleor/order/actions.py:1774-1825 | a return settles exactly the replaced units and, with a refund, the returned units that the refund counts |
| `LedgerRuns.RunSettles` | saleor/order/actions.py:1872-1996 | the account over every run: units in REFUNDED, REFUNDED_AND_RETURNED or REPLACED at the end, plus those that cancellations reopened, equal those at the start plus the units counted into automatic refunds plus those settled without being counted |
| `LedgerRuns.RefundedOnce` | saleor/order/actions.py:1872-1996 | no unit is refunded twice: over every run whose cancellations reopen no settled units of the order line, the counted units and those settled before are at most the settled ones at the end and so at most the quantity; the price follows |
| `LedgerRuns.CountedAgainAfterCancel` | saleor/order/actions.py:776-810 | refund, cancel that refunded fulfillment, refund again passes every check and counts the same units twice, for every ledger, order line and number of open units |
| `LedgerReopen.CancelReopensExactly` | saleor/order/actions.py:776-810 | the exact condition for every accepted cancellation: some checked refund after it counts more units than any could before if and only if the fulfillment was settled and units are subtracted; with one line of the order line, these are all units it holds |
| `LedgerReopen.RefundableAfterStep` | saleor/order/actions.py:1872-1996 | for every accepted action, the units that a refund can still count change by exactly the reopened less the counted, otherwise settled and stranded ones |
| `LedgerReopen.CanCountExactly` | saleor/order/actions.py:1966-1996 | the most units that a checked refund can count are the open ones and those in FULFILLED, WAITING_FOR_APPROVAL or RETURNED, and that many are reached |
| `LedgerMoney.RunPays` | saleor/order/actions.py:1966-1996 | over every run, the product amounts that automatic refunds compute sum to exactly the price of the units they count |
| `LedgerMoney.PaidAtMostOrder` | saleor/order/actions.py:1966-1996 | over every run that reopens nothing, the product amounts that automatic refunds compute sum to at most quantity times price over all order lines |
| `LedgerAmounts.RefundMapIsCounted` | saleor/order/actions.py:1966-1996 | per order line, the map of refunded lines holds exactly the units that the refund counts |
| `LedgerAmounts.RefundAgreesExactly` | saleor/order/actions.py:1966-1996 | the computed product refund equals the sum over the map of quantity times unit price if and only if no priced order line is requested twice, which checked requests never do |
| `LedgerAmounts.RefundPaid` | saleor/order/actions.py:2000-2059 | for checked requests without a given amount, what is paid is the price of the reported lines and the shipping, or what was captured if that is less |
| `LedgerAmounts.DraftMatchesReplaced` | saleor/order/actions.py:1627-1690 | the draft order's quantity per original line equals the units moved to the REPLACED fulfillment |
| `LedgerAmounts.DraftMatchesReturn` | saleor/order/actions.py:1872-1963 | the same at the end of a whole return with replacements, after the returned goods have moved too |
| `LedgerLazy.LazyMoveIsMove` | saleor/order/actions.py:1465-1517 | the loop that defers creation and deletion of lines takes the same step as an immediate move, up to lines still to be deleted |
| `LedgerLazy.FulfillAllInTwoPasses` | saleor/order/actions.py:1132-1246 | collecting the fulfillment lines first and raising the order lines afterwards equals doing both line by line |
| `Ledger.OrderLedger.MoveOrderLines` | saleor/order/actions.py:1409-1462 | the in-place loop with one bulk creation at the end refines the line-by-line specification |
| `Ledger.OrderLedger.MoveFulfillmentLines` | saleor/order/actions.py:1465-1517 | the in-place loop with its create, update and delete lists refines the line-by-line specification |
| `Ledger.OrderLedger.FindExistingLine` | saleor/order/actions.py:1373-1406 | finds the first listed line for the same order line and stock, and none only if there is none |
| `Ledger.OrderLedger.CalculateRefund` | saleor/order/actions.py:1966-1996 | amount and line map as specified, for any requests on existing rows |
| `Ledger.OrderLedger.ProcessRefund` | saleor/order/actions.py:2000-2059 | never more than was captured; a given amount is paid as it is; a computed one covers the products and the shipping |
| `Ledger.OrderLedger.ReplacementOrder` | saleor/order/actions.py:1627-1690 | quantities of the draft order, order-line requests before fulfillment-line requests |
| `Ledger.OrderLedger.CreateRefundFulfillment` | saleor/order/actions.py:1532-1596 | one REFUNDED fulfillment with the paid amount takes the requested units, and for checked requests every row loses exactly those asked of it; empty open fulfillments go, balance kept |
| `Ledger.OrderLedger.MoveToReturn` | saleor/order/actions.py:1693-1749 | lines of refunded fulfillments go to a REFUNDED_AND_RETURNED fulfillment, all others to the given one |
| `Ledger.OrderLedger.CreateReturnFulfillments` | saleor/order/actions.py:1872-1963 | replacement first, then return. For checked requests every fulfillment line loses exactly the units asked of it, every order line becomes fulfilled by those asked of it, a REPLACED fulfillment holds exactly what was asked for with `replace`, and the next one the rest, apart from it what was refunded before if nothing is refunded now; the draft order has the replaced units; balance kept |
| `Ledger.OrderLedger.CreateFulfillmentLines` | saleor/order/actions.py:1132-1246 | fails exactly if a stock is unknown, or stocks are decreased, something is taken and they hold too little, unless exceeding is allowed, with no order line changed; else lines for one warehouse |
| `Ledger.OrderLedger.IncreaseOrderLineQuantity` | saleor/order/actions.py:1045-1052 | `quantity_fulfilled` of each order line grows by the sum of all requests for it |
| `Ledger.OrderLedger.CreateFulfillments` | saleor/order/actions.py:1249-1370 | fails exactly if some order line would be fulfilled beyond its quantity, some stock is unknown or, without approval to wait for, some warehouse holds too little, with the tables as before; else one fulfillment per warehouse |
| `Ledger.OrderLedger.ApproveFulfillment` | saleor/order/actions.py:844-917 | fails exactly if exceeding is not allowed and a line has no stock or the stocks hold too little, with nothing changed; else the status becomes FULFILLED and nothing else changes |
| `Ledger.OrderLedger.CancelWaitingFulfillment` | saleor/order/actions.py:813-841 | of several lines of one order line only the first that the query returned is written back; the fulfillment goes with its lines |
| `Ledger.OrderLedger.CancelFulfillment` | saleor/order/actions.py:776-810 | the status becomes CANCELED, its lines and amount and all other fulfillments stay, order lines change only with a warehouse |
| `LedgerReturns.WholeReturn` | saleor/order/actions.py:1872-1963 | over a whole return, per row, per order line and per new fulfillment: what each loses and takes is the sum over the requests as they were made, with and without `replace` |
| `LedgerReturns.AmountStored` | saleor/order/actions.py:1905-1924 | the amount stored with a return is the given one, or the price of the goods that come back for money with the shipping, within what was captured |
| `LedgerReturns.WholeDraft` | saleor/order/actions.py:1627-1690 | the draft order has, per original line, exactly the units asked for with `replace` |
| `LedgerEffects.LineSidesKeepAll` | saleor/order/actions.py:1905-1906 | the requests with and without `replace` together are all requests, each as often as it was made |
| `LedgerEffects.OrderSidesKeepAll` | saleor/order/actions.py:1905-1926 | the same for requests on order lines |
| `LedgerEffects.TakenFromOpen` | saleor/order/actions.py:1409-1462 | a request on an order line takes the smaller of what is asked and what is open, into a new line without stock |
| `LedgerEffects.WholeRefund` | saleor/order/actions.py:1532-1596 | over a whole refund every row and order line gives exactly what is asked of it, and one REFUNDED fulfillment with the amount takes it all |
| `LedgerEffects.MergedInto` | saleor/order/actions.py:1373-1406 | the first listed line for some goods takes all units of those goods that are asked for |
| `LedgerEffects.RowsCreated` | saleor/order/actions.py:1498-1508 | a move creates exactly one line per request for something that no listed line takes up |
| `LedgerFulfilling.CreatedExactly` | saleor/order/actions.py:1249-1370 | when a quantity does not fit or a stock is missing nothing changes; else each parcel has a fulfillment of its own, FULFILLED or WAITING_FOR_APPROVAL, with lines of some units, and nothing from before changes |
| `LedgerFulfilling.CreatedHolds` | saleor/order/actions.py:1132-1246 | the k-th new fulfillment holds exactly the goods of the k-th parcel by order line and stock, and each order line is fulfilled by what all parcels ask of it |
| `BlockScanner.IsPrintableAsBlockString` | saleor/graphql/schema_printer.py:368-402 | the one-pass four-flag loop accepts exactly the empty string and the strings without characters up to U+000F other than tab and newline, with non-blank first and last lines, and with a single line or some non-blank line without indent |
| `BlockScanner.CleanCharsAre` | saleor/graphql/schema_printer.py:380-396 | the characters let through are the newline, the tab and everything from U+0010 on |
| `BlockRoundTrip.BlockStringRoundTrip` | saleor/graphql/schema_printer.py:405-456 | for every printable value, both settings of `minimize`, every blank re-indentation and whatever follows: reading by section 2.9.4 of the GraphQL specification (October 2021) ends at the printed closing quotes and gives back exactly the value, if and only if the value has source characters only and its leading indent survives |
| `BlockRoundTrip.OrdinaryTextKeepsIndent` | saleor/graphql/schema_printer.py:418-453 | the indent survives in every text whose only line break is the line feed |
| `BlockRoundTrip.IndentLostAtLineSeparator` | saleor/graphql/schema_printer.py:418-426 | a printable text with U+2028 after a leading space does not read back |
| `BlockFeeds.FeedsExactly` | saleor/graphql/schema_printer.py:418-453 | for every text without carriage returns and both settings of `minimize`, exactly when each of the two newlines is printed, said of the characters of the text: breaks inside, more than 70 characters, quotes or a backslash at the end, blanks after breaks |
| `BlockFeeds.ThreeLinesExactly` | saleor/graphql/schema_printer.py:428-453 | one line without a blank in front and without a quote or backslash at the end is printed on three lines if and only if it has more than 70 characters, and on one line when minimized |
| `BlockFeeds.EscapedEnd` | saleor/graphql/schema_printer.py:428-434 | the escaped text ends in an escaped triple quote if and only if the quotes at its end go by threes |
| `BlockLayout.ValueOfLayout` | saleor/graphql/schema_printer.py:445-456 | the layout with optional line feeds, re-indented, has the printed text as its BlockStringValue() exactly when no indent is lost |
| `BlockEscapes.ScanEscape` | saleor/graphql/schema_printer.py:415-415 | un-escaping undoes the escaping of triple quotes, and no closing delimiter is seen inside |
| `BlockEscapes.TrailingTestIsExact` | saleor/graphql/schema_printer.py:428-434 | a trailing newline is forced if and only if the text would leave a quote or backslash that joins the closing quotes |
| `BlockEscapes.EscapeReindent` | saleor/graphql/schema_printer.py:487-489 | re-indenting and escaping commute |
| `SchemaDescription.PrintDescription` | saleor/graphql/schema_printer.py:459-489 | nothing for a missing description; else an empty line in front unless first in its block or at the margin, the indentation, the re-indented literal and a newline. The block string stands on lines of its own exactly if the text breaks, is longer than 70 characters, or ends in a quote or backslash; only a single line that starts with a blank has no newline in front |
| `SchemaDescription.DescriptionReadsBack` | saleor/graphql/schema_printer.py:459-489 | past a blank prefix, the printed description reads back as the cleaned description and leaves the final newline, for every blank indentation, if and only if it has source characters only and is not a single indented line with a foreign line break |
| `SchemaDescription.CleanedIsWhatPrecedesTheMark` | saleor/graphql/schema_printer.py:472-480 | the cleaned description is what precedes the first deprecation mark, less trailing white space |
| `DiscountPropagation.PropagateDiscount` | saleor/checkout/base_calculations.py:263-326 | the generator's loop yields the specified prices for every quantization |
| `DiscountPropagation.PropagationBounds` | saleor/checkout/base_calculations.py:263-326 | prices are not negative, sum to T - D + max(0, R - l_n), lie between max(0, T - D) and (n - 1)/2 units more; only the last may exceed its base price, by at most (n - 1)/2 units |
| `DiscountPropagation.DiscountsExact` | saleor/checkout/base_calculations.py:263-326 | for every number of lines and total, the line discounts sum to the discount amount if and only if D <= T and, with two lines or more and T > 0, the rest R fits into the last line |
| `DiscountPropagation.RemainingBounds` | saleor/checkout/base_calculations.py:300-326 | the rest for the last line misses its exact share by at most (n - 1)/2 units to either side |
| `DiscountPropagation.ProportionalPrice` | saleor/checkout/base_calculations.py:300-326 | every line but the last pays its exact share of T - D to half a unit |
| `DiscountPropagation.ClippedLast` | saleor/checkout/base_calculations.py:263-326 | with half-even rounding, which is within half a unit, four lines of 1 with discount 2 lose one unit of discount |
| `DiscountPropagation.RaisedLast` | saleor/checkout/base_calculations.py:263-326 | with half-even rounding, five lines of 1 with discount 3: the discounts sum to 3, and the last line costs 2 |
| `DiscountPropagation.LastRaisedExactly` | saleor/checkout/base_calculations.py:300-326 | the last line costs more than its base price if and only if there are two lines or more, something to pay, and the lines before it took more than the whole discount |
| `CheckoutTotals.LineTotalPrice` | saleor/checkout/base_calculations.py:226-260 | the price of one line, found by running the generator through |
| `CheckoutTotals.Checkout.SetBasePrices` | saleor/checkout/calculations.py:735-772 | line prices, subtotal as their sum, shipping and total; a shipping voucher takes the smaller of discount and delivery price off the delivery and nothing off the lines, any other leaves the delivery as it is |
| `CheckoutTotals.TwoTotalsAgree` | saleor/checkout/calculations.py:735-772 | for an order-level voucher or order promotion the total built line by line is at least max(0, subtotal - discount) + shipping, at most (n - 1)/2 units more, and equal exactly when the spread is exact |
| `CheckoutTotals.TotalsWithoutSpread` | saleor/checkout/base_calculations.py:198-223 | where the discount is not spread the totals agree as long as an order promotion does not meet a voucher of another kind, and would differ then by exactly the discount that fits the subtotal |
| `CheckoutTotals.DiscountTakenOnce` | saleor/checkout/base_calculations.py:198-260 | the discount is taken once at most: off the lines for the whole order, up to (n - 1) half units of rounding, or off the delivery, and never more than it is |
| `VoucherOrPromotion.ReachableTotals` | saleor/discount/utils/checkout.py:189-235 | on every checkout that adding and removing vouchers, expiring codes and refreshing order promotions can reach, the totals agree where nothing is spread and are within the bound elsewhere |
| `VoucherOrPromotion.RunKeepsApart` | saleor/checkout/utils.py:844-892 | over every such run a voucher code and an order promotion never stand together |
| `VoucherOrPromotion.Discounts.AddVoucherToCheckout` | saleor/checkout/utils.py:844-892 | the voucher is set and discounts of order promotions are deleted |
| `VoucherOrPromotion.Discounts.RefreshOrderPromotions` | saleor/discount/utils/checkout.py:189-235 | a promotion is looked for only without a voucher code, and cleared otherwise |
| `VoucherOrPromotion.Discounts.RemoveVoucherFromCheckout` | saleor/checkout/utils.py:935-950 | code, voucher and amount go; promotions stay as they are |
| `CheckoutCompletion.AtMostOneOrder` | saleor/checkout/complete_checkout.py:1598-1644 | under every interleaving of any number of threads through the payment flow and the transaction flow, checkout row and order for its token never coexist, no token has two orders, and all threads that return an order return the same one |
| `CheckoutCompletion.RunStaysConsistent` | saleor/checkout/complete_checkout.py:1800-1929 | every run keeps that consistency and never removes an order |
| `CheckoutCompletion.GoneMeansOrdered` | saleor/checkout/complete_checkout.py:1819-1929 | a thread that finds its checkout gone returns the order that took its place, in each locked transaction |
| `VoucherAccounting.VoucherAccount` | saleor/checkout/complete_checkout.py:137-176 | over every run and interleaving: counter = base + flagged checkouts + voucher orders + leaks - uncovered orders |
| `VoucherFlags.FlagFollows` | saleor/checkout/complete_checkout.py:1130-1207 | over every run a live checkout carries the flag if and only if the last step that counted or gave up its usage counted it: failing taxes, an inactive payment, missing stock and a required action leave it unflagged |
| `VoucherFlags.NothingHeld` | saleor/checkout/complete_checkout.py:1130-1207 | from a shop without flags, the counter has moved by the voucher orders and leaks of the run less its uncovered orders if and only if the usage of every live checkout was given up last |
| `VoucherFlags.AttemptUndone` | saleor/checkout/complete_checkout.py:1130-1207 | an attempt on an unflagged checkout that ends on taxes, out of stock or in a required action leaves checkouts, orders and counter as they were |
| `VoucherFlags.PaidAttempt` | saleor/checkout/complete_checkout.py:1800-1929 | an undisturbed attempt places one order with its voucher, counted once, removes the checkout and returns the order |
| `VoucherFlags.TransactionAttempt` | saleor/checkout/complete_checkout.py:1598-1644 | the same for the transaction flow, with the voucher if its code is found |
| `VoucherAccounting.UsageNeverBelow` | saleor/checkout/complete_checkout.py:1965-2002 | with one attempt at a time per checkout, any retries, failures and crashes, the counter is never below base + flagged + orders, and equal if and only if no step leaked: an inactive payment, or a transaction-flow order whose code is gone |
| `VoucherAccounting.CoveredExactly` | saleor/checkout/complete_checkout.py:137-176 | with any number of concurrent attempts the counter covers flags and orders exactly when leaks make up for uncovered orders |
| `VoucherAccounting.UncoveredOrder` | saleor/checkout/complete_checkout.py:1084-1127 | two concurrent attempts on one checkout place an order with nothing counted |
| `VoucherAccounting.EmptyIsKnown` | saleor/checkout/complete_checkout.py:137-176 | an empty shop meets what the run theorems start from |
| `CheckoutStore.Store.PrePaymentTransaction` | saleor/checkout/complete_checkout.py:1819-1843 | rejected: nothing changes; taxes fail: flag cleared and the usage not counted; ready: flag set with the voucher, and the usage counted unless it was |
| `CheckoutStore.Store.PaymentTransaction` | saleor/checkout/complete_checkout.py:1851-1889 | second locked transaction; the inactive-payment branch clears the flag without giving the usage back |
| `CheckoutStore.Store.PostPaymentTransaction` | saleor/checkout/complete_checkout.py:1130-1207 | a required action, or stock out with the voucher: flag cleared, usage taken back if it was counted, orders unchanged; a refund under way: nothing changes; placed: the checkout is gone and its order is there with the voucher |
| `CheckoutStore.Store.CreateOrderFromCheckout` | saleor/checkout/complete_checkout.py:1564-1660 | transaction flow that deletes the checkout: looks up the order if the row is gone |
| `CheckoutStore.Store.CountUsageBeforeOrder` | saleor/checkout/complete_checkout.py:1221-1231 | transaction flow, first part: the flag is read from an earlier copy of the row, so a stale copy counts again |
| `CheckoutStore.Store.GetByCheckoutToken` | saleor/order/models.py:51-53 | finds an order for the token if there is one |
| `CheckoutStore.Store.IncreaseVoucherUsage` | saleor/checkout/complete_checkout.py:137-151 | the flag guards the counter |
| `CheckoutStore.Store.ReleaseVoucherUsage` | saleor/checkout/complete_checkout.py:155-176 | the flag is cleared; the counter falls only with a code passed on |
| `LoginThrottle.FailuresPerLife` | saleor/account/throttling.py:95-128 | over every run, with or without logins from the address: within one 7200-second life of a counter there are at most 11 failures for one existing user and at most 95 from the address, and the counter is exactly their number |
| `LoginThrottle.HundredNeverReached` | saleor/account/throttling.py:112-118 | over every run, with or without logins and for every clock, an address counter never passes 95, so the branch for 100 attempts is never reached |
| `LoginThrottle.FailureRate` | saleor/account/throttling.py:21-75 | over a whole run, for every 7200 seconds begun, at most 11 failures on a user who does not log in from the address, though others may, and at most 95 from an address from which nobody does |
| `LoginThrottle.WindowRate` | saleor/account/throttling.py:21-75 | in such a run every window of 7200 seconds, wherever it lies, holds at most twice as many, since it meets at most two lives of the counter |
| `LoginThrottle.CapReached` | saleor/account/throttling.py:95-128 | both caps are attained by some run |
| `LoginThrottle.Cache.AuthenticateWithThrottling` | saleor/account/throttling.py:21-75 | without an address unknown; delayed exactly if the block of the address is live; otherwise logged in exactly if the user exists and the password is right, and then exactly the two counters and the block are gone; else refused, and blocked for the delay |
| `LoginReplies.AttemptExactly` | saleor/account/throttling.py:21-61 | the same of the specification that the run theorems use |
| `LoginReplies.RefusalExactly` | saleor/account/throttling.py:62-75 | after a refusal the live counters of the address and of the user are one higher, dead ones start at one for two hours, the address is blocked for the delay of those counts, and nothing else changes |
| `LoginReplies.DelaysInFull` | saleor/account/throttling.py:95-128 | the delays in numbers: for an address one second for ten failures and doubled every ten up to an hour from the hundredth, for a user doubled every failure up to an hour from the tenth |
| `LoginReplies.FreshAfterLogin` | saleor/account/throttling.py:57-61 | after a login, whatever others do, the next failure of that user or address is the first of a new life of the counter, and the address is not blocked |
| `LoginThrottle.Cache.ClearCache` | saleor/account/throttling.py:90-92 | exactly the given keys go |
| `LoginThrottle.Cache.IncrementAttempt` | saleor/account/throttling.py:141-145 | a live counter grows and keeps its end, a dead one starts at 1 |
| `LoginThrottle.Cache.Add` | saleor/account/throttling.py:136-138 | the block is set only if none is live |
| `PromotionToggle.HandledAreFirstDue` | saleor/discount/tasks.py:57-67 | slicing the two queries and then their union gives the first promotions of all that are due, for every batch size |
| `PromotionToggle.NoticesExact` | saleor/discount/tasks.py:49-131 | of the handled promotions exactly the start-due ones get a start notice and exactly the end-due ones an end notice |
| `PromotionToggle.DueDrops` | saleor/discount/tasks.py:49-131 | each task handles min(batch, due) promotions and just those stop being due |
| `PromotionToggle.SentOrMissedOnce` | saleor/discount/tasks.py:134-171 | over every run with a growing clock, an awaited notice is still awaited at the end, or was sent exactly once, or was missed once and never sent |
| `PromotionToggle.SentAtMostOnce` | saleor/discount/tasks.py:134-171 | over every run with a growing clock, each notice is sent at most once |
| `PromotionToggle.EndMissedWhileStarting` | saleor/discount/tasks.py:49-131 | an end date between the query and the update loses its end notice |
| `PromotionToggle.Promotions.HandlePromotionToggle` | saleor/discount/tasks.py:49-131 | of the first hundred promotions due, those whose start has come without a notice since get a start notice, those whose end has come an end notice; exactly the hundred are marked |
| `PromotionToggle.DueExactly` | saleor/discount/tasks.py:134-171 | due is what has started, or ended, without a notice since |
| `VoucherRelease.ChainIsSinglePass` | saleor/discount/tasks.py:235-255 | for every order of the remaining ids, with fewer than 1000 missing ids the chain of batches equals one pass: each code handled once, a usage-limited one left at max(used - occurrences, 0) |
| `VoucherRelease.CompleteExactly` | saleor/discount/tasks.py:235-255 | the chain is complete for every order of the ids if and only if there is nothing to release or fewer than a batch of ids is missing |
| `VoucherRelease.MissingBatchStopsChain` | saleor/discount/tasks.py:235-255 | a batch without any existing row ends the chain |
| `VoucherRelease.StallingOrder` | saleor/discount/tasks.py:235-255 | every set with a whole batch of missing ids has an order that ends the chain at once |
| `VoucherRelease.Released` | saleor/discount/tasks.py:243-251 | a usage-limited code ends at max(used - occurrences, 0), a single-use one becomes active |
| `VoucherRelease.OccurrencesCount` | saleor/discount/tasks.py:235-255 | the usages given back to a code are as many as the list of codes names it |
| `VoucherRelease.Codes.DecreaseUsage` | saleor/discount/tasks.py:235-255 | one task: which rows change and whether another task follows |
| `VoucherRelease.Codes.RunChain` | saleor/discount/tasks.py:235-255 | the whole chain of tasks, and that it ends |
| `GzipResponse.Transparent` | saleor/asgi/gzip_compression.py:41-143 | for every lawful streaming compressor, every minimum size and every well-formed response, the client that undoes the gzip coding (section 8.4 of RFC 9110) receives the status, fields, codings and content that the application sent |
| `GzipResponse.CopyingIsLawful` | saleor/asgi/gzip_compression.py:36-39 | the law asked of the compressor can be met |
| `GzipResponse.RunKeepsShape` | saleor/asgi/gzip_compression.py:45-70 | over every sequence of messages, well formed or not, one start is sent and then bodies only |
| `GzipResponse.RunKeepsFlags` | saleor/asgi/gzip_compression.py:53-139 | every body message is answered by one body with the same `more_body` |
| `GzipResponse.LengthsHonest` | saleor/asgi/gzip_compression.py:76-95 | Content-Length denotes the bytes sent exactly if the response was compressed or the application's own was right |
| `AcceptEncoding.AcceptsExactly` | saleor/asgi/gzip_compression.py:24-32 | against section 12.5.3 of RFC 9110, for every list with any weights and white space: gzip goes to a client that refuses it if and only if some coding holds the word and gzip is listed with weight zero only, or neither listed nor covered by `*`; it is withheld from one that accepts it if and only if no coding holds the word and gzip is listed in another spelling, or covered by `*` only |
| `AcceptEncoding.AcceptsPlain` | saleor/asgi/gzip_compression.py:24-32 | with registered codings in lower case: refused yet sent if and only if gzip is listed with weight zero only; accepted yet withheld if and only if only `*` covers it |
| `GzipResponse.UntouchedExactly` | saleor/asgi/gzip_compression.py:53-69 | the response passes unchanged exactly if it is encoded already or is a single body below the minimum size |
| `GzipResponse.LabelledAsCompressed` | saleor/asgi/gzip_compression.py:71-121 | a compressed response has the other header fields as they were, then its coding and, if sent whole, the length of its body |
| `GzipResponse.CompressesExactly` | saleor/asgi/gzip_compression.py:46-69 | compressed is what is long or arrives in pieces, unless a Content-Encoding of the application has a value |
| `GzipResponse.OthersVanish` | saleor/asgi/gzip_compression.py:41-53 | messages of other types are dropped and change nothing else |
| `GzipResponse.LengthReadsBack` | saleor/asgi/gzip_compression.py:84-89 | a written Content-Length denotes its number |
| `GzipResponse.Wrapper.SendCompressed` | saleor/asgi/gzip_compression.py:41-139 | one message: new state, what is sent, and when it raises |
| `AttributeOwnership.ValidateAttributeOwnsValues` | saleor/attribute/utils.py:53-83 | fails exactly if a wanted slug is not among its attribute's values; else gives the rows in the wanted order |
| `AttributeOwnership.ResolvedUnique` | saleor/attribute/utils.py:59-83 | the rows found are the only possible answer |
| `AttributeAssignment.AttributeTables.AssociateAttributeValues` | saleor/attribute/utils.py:37-50 | nothing changes on failure; else exactly the listed values per listed attribute, `sort_order` the list index, all other rows as before |
| `AttributeAssignment.AttributeTables.OverwriteValues` | saleor/attribute/utils.py:163-220 | after the first pass the right rows are there, and the order map has every list under its attribute |
| `AttributeAssignment.AttributeTables.OrderAssigned` | saleor/attribute/utils.py:223-248 | neither the dictionary look-up nor `.index` can fail, and every row gets its index |
| `AttributeAssignment.VariantTables.Associate` | saleor/attribute/utils.py:86-131 | for a variant: fails exactly if an attribute with values is not linked to the product type; else exactly the listed values under its assignments |
| `AttributeAssignment.VariantTables.GetOrCreateAssignments` | saleor/attribute/utils.py:134-160 | one assignment for each link; existing ones are used again |
| `AttributeAssignment.VariantTables.OverwriteValues` | saleor/attribute/utils.py:163-220 | after the first pass for a variant the right rows are there, with the order map under assignment ids |
| `AttributeAssignment.VariantTables.OrderAssigned` | saleor/attribute/utils.py:251-261 | every row of the variant gets its index, and no look-up fails |
| `AttributeAssignment.CollectRows` | saleor/attribute/utils.py:198-215 | the nested loops collect exactly the missing rows and append every value under its key in order |
| `AttributeLists.ReadsBack` | saleor/attribute/utils.py:223-248 | the rows of an attribute, read by `sort_order`, are the distinct list that was given |
| `AttributeLists.VariantReadsBack` | saleor/attribute/utils.py:251-261 | the same for a variant |
| `AttributeLists.LastCallWins` | saleor/attribute/utils.py:37-50 | a later call on the same attributes erases every trace of an earlier one |
| `AttributeLists.CallsCommute` | saleor/attribute/utils.py:163-187 | calls for other instances or other attributes do not see each other |
| `DeliveryMethod.RunKeepsOneMode` | saleor/checkout/utils.py:1128-1258 | over every sequence of assign and remove calls at most one delivery mode is set; with identifiers that are not empty or zero, a method name stands only with its method |
| `DeliveryMethod.RunEndsInOneMode` | saleor/checkout/utils.py:1178-1258 | the same after any assignment or full removal, from every start |
| `DeliveryMethod.SavedExactly` | saleor/checkout/utils.py:1023-1046 | saving a list of fields brings the stored row up to date if and only if the list covers the changes |
| `DeliveryMethod.Checkout.ClearDeliveryMethod` | saleor/checkout/utils.py:1023-1046 | after a saving call the stored row is the row in memory, if it was so before |
| `DeliveryMethod.ChoiceTwice` | saleor/checkout/utils.py:1178-1258 | repeating a call changes nothing more |
| `DeliveryMethod.Checkout.RemoveDeliveryMethod` | saleor/checkout/utils.py:1178-1184 | every mode, the name and the price go, a collection point takes its address along, and the reported fields cover every change |
| `DeliveryMethod.Checkout.AssignExternal` | saleor/checkout/utils.py:1200-1221 | only the external method is left, with its name and price, and the reported fields cover every change |
| `DeliveryMethod.Checkout.AssignBuiltIn` | saleor/checkout/utils.py:1224-1240 | only the built-in method is left, with its name and price, and the reported fields cover every change |
| `DeliveryMethod.Checkout.AssignCollectionPoint` | saleor/checkout/utils.py:1243-1258 | only the collection point is left, its address is copied unless the checkout has it already, and the reported fields cover every change |
| `DeliveryMethod.Checkout.RemoveExternal` | saleor/checkout/utils.py:1135-1151 | `last_change` is reported exactly if the call saves, and then the stored row is the row in memory |
| `PaymentStatus.GetPaymentAmounts` | saleor/checkout/payment_utils.py:68-79 | confirmed and pending amounts summed over all transactions |
| `PaymentStatus.Checkout.UpdatePaymentStatuses` | saleor/checkout/payment_utils.py:82-119 | both statuses have their documented meaning for the summed amounts |
| `PaymentStatus.PaidIsAuthorized` | saleor/checkout/payment_utils.py:16-65 | with no negative authorization, charge FULL or OVERCHARGED implies authorize FULL |
| `PaymentStatus.SignalAccount` | saleor/checkout/actions.py:203-260 | over every run: signals given + silent gains - losses = change of the status, for the fully-paid event and for completion |
| `PaymentStatus.SignalledAtMostOnce` | saleor/checkout/actions.py:240-260 | each signal is given at most once where amounts that are enough stay enough, whatever the statuses at the start |
| `PaymentStatus.SignalledOnceExactly` | saleor/checkout/actions.py:240-260 | over every run, a signal is given at most once if and only if the amounts do not become enough at a signalling update, get lost, and become enough again at a later one |
| `PaymentStatus.GrowingStays` | saleor/checkout/actions.py:240-260 | with fixed total and lines and growing amounts, enough stays enough |
| `PaymentStatus.SignalledExactly` | saleor/checkout/actions.py:240-260 | where enough stays enough, the signal is given exactly as often as the status is gained if and only if the amounts do not become enough at a refresh or an update with completion off |
| `PaymentStatus.AnnouncementMissed` | saleor/checkout/calculations.py:805-813 | a refresh before the update lets the status be reached without any announcement |
| `PaymentStatus.SignalledTwice` | saleor/checkout/actions.py:248-260 | amounts that fall below the total and rise again give the signal twice, for every two sets of transactions of that kind |
| `PaymentStatus.WithdrawnAndGivenAgain` | saleor/checkout/actions.py:248-260 | one authorization of 10, withdrawn and given again, schedules completion twice |
| `PaymentStatus.Checkout.TransactionAmountsUpdated` | saleor/checkout/actions.py:203-260 | event and scheduling decided by the change of status; latest modification kept; a right refundable flag stays right |

## Left out

- Webhooks, plugins, notifications and events: they do not touch the modelled rows.
- Payment gateways and tax apps: their results are inputs of the transactions.
- Stock levels, allocations, reservations and gift cards: a fulfillment line only names its stock, and whether the stocks hold what is taken from them is an input.
- `automatically_fulfill_digital_lines`: nothing bounds the quantity it adds when it is called again.
- Order completion that keeps the checkout (`delete_checkout=False`): it does not look for an existing order.
- Ledger rows: one object per row is assumed, as the mutations load distinct nodes; only the cancellations, which read an order line anew for each line, are modelled with separate copies.
- Ledger requests: what the mutations check before the actions (saleor/graphql/order/mutations/fulfillment_refund_and_return_product_base.py, saleor/graphql/order/mutations/order_fulfill.py, saleor/order/utils.py:1345-1368) appears as `Checked` and `Allowed`; runs whose requests exceed their sources are covered by the bounds and the balance only.
- LedgerRuns.RefundedOnce: speaks of automatically computed amounts; an amount given by staff is unrelated to units.
- Ledger.OrderLedger.CancelFulfillment: the restocked quantities themselves are not modelled.
- LedgerMoney.RunPays: computed product amounts only; the cap by the captured amount and the shipping are in `RefundPaid`.
- DiscountPropagation.PropagationBounds: uses only that quantizing errs by at most half a unit, since a 28-digit decimal quotient may round a tie either way; line totals are not negative.
- CheckoutTotals: how line base prices arise from channel prices and line-level vouchers is an input.
- CheckoutCompletion: order contents, users, addresses and metadata are not modelled.
- VoucherAccounting: one usage-limited code, fixed per checkout; usage per customer and deactivation of single-use codes are not counted.
- AcceptEncoding.AcceptsExactly: one Accept-Encoding field; a second one, which the wrapper ignores, is not read either.
- VoucherOrPromotion: gift promotions and the choice of the best promotion are not modelled; what a refresh finds is an input.
- LoginThrottle.Cache.AuthenticateWithThrottling: one attempt is one atomic step on the cache; attempts that overlap inside the function are not modelled.
- PromotionToggle: the table is given in the order of the model (name, pk); the ordering by text is not computed, and promotions are neither added nor edited during a run.
- VoucherRelease: rows do not change between the tasks of a chain other than by the chain.
- SchemaDescription.PrintDescription: the printer of ordinary string literals is a parameter; the rest of the schema printer only concatenates.
- GzipResponse: the compressor is any function of the data written so far that some decoder undoes; the deflate format is not modelled. Header names and values have one character per byte.
- AttributeAssignment.VariantTables.Associate: after an error nothing is said of the value rows, since the surrounding transaction discards them.
- AttributeAssignment: a table is a map by owner and value, which are unique together, so primary keys are not modelled.
- DeliveryMethod: shipping prices are already quantized; the check which methods are available is not modelled.
- PaymentStatus: currencies, and the recalculation of the total, are inputs.
- Account, app, token, CSV, menu, page, invoice and settings modules, model declarations, error codes, search vectors, address forms and beat schedules: thin wrappers, constants or library code.
