# Repair-shop inventory and cost ledger, in Dafny

This project models the bookkeeping core of a phone repair shop's back office: its items, purchase
batches, IMEI-tracked serials, sales, repair cases, payments and customers, kept in one store
(`Store.Db`, a class whose fields are the tables and whose methods are the writes the handlers make).

- **Stock consumption (FIFO).** Confirming a draft sale, or adding a stock part to a repair, first takes
  available serials in the order of their batch's purchase date, one unit each. It then takes
  `min(remaining, total − sold)` from each aggregate batch in ascending purchase date. Every take writes
  a consumption record and adds its cost to the cost of goods sold. `Fifo` states the rule as functions;
  `Consume` holds the loops, proved equal to those functions.
- **Reversal.** A refund, cancellation or deletion of a sale, cancelling a repair or removing one of
  its parts subtracts the owner's records from their batches, frees its serials and deletes its records.
  Consuming and then reversing restores the batch counters and serial states.
- **Store invariant.** Every handler keeps `Db.Valid()`:
  - sold counts stay within what was bought for aggregate draws;
  - records point at existing batches;
  - IMEIs, customer phones and the names of categories, conditions and qualities are unique;
  - ids are fresh.
- **Handlers.**
  - sales (totals, discounts and tax, status changes, payments, the daily report);
  - repairs (case numbers, workflow states, parts, payments);
  - allocated payments split over several sales and repairs;
  - customers (phone uniqueness, the deletion guard, the ledger with its running balance);
  - batches (stock metrics and guarded edits);
  - items (low-stock listing and paging, defaults, guarded deletion, manual stock adjustment);
  - categories (the parent checks);
  - serials (IMEI uniqueness);
  - barcodes (label text and scan lookup, with the `ITEM-<id>` round trip).
- **Maintenance scripts.**
  - the inventory import (get-or-create caches, IMEI de-duplication, one batch per record);
  - the script that reprices items from their latest batch;
  - the two Python cleaning scripts, which turn spreadsheets into import records and normalise
    accessory rows.

Money is `real` and dates are integer timestamps. The clock, the current year and the random numbers
are parameters. Ids come from one counter in the store. A handler's HTTP error is a
`Result.Err(code)` with the status code it answers. Where a database constraint would refuse a write
(a unique index, a foreign key), the model answers the code the error handler maps it to, and changes
exactly what the source would already have written.

## Model

| member | source | states |
|---|---|---|
| Fifo.Link | server-ts/src/controllers/sale.controller.ts:256-263 | the consumed serial is sold and linked to the consuming line; its IMEI, item and batch stay |
| Fifo.Unlink | server-ts/src/controllers/sale.controller.ts:398-402 | the returned serial is available and no longer linked to the line |
| Fifo.UnlinkLink | server-ts/src/controllers/sale.controller.ts:256-263 | returning a serial that was available and unlinked before it was consumed gives back the same serial |
| Fifo.Shift | server-ts/src/controllers/sale.controller.ts:391-396 | moving sold counts by the recorded units keeps every batch id and every unit cost |
| Fifo.ShiftBack | server-ts/src/controllers/sale.controller.ts:391-396 | taking records' units back off the batches undoes adding them |
| Fifo.ShiftOne | server-ts/src/controllers/sale.controller.ts:265-271 | a record of q units adds q to its own batch's sold count and changes no other batch |
| Fifo.Moved | server-ts/src/controllers/sale.controller.ts:308-312 | only the named batch's sold count moves, by exactly q |
| Fifo.TakeSerial | server-ts/src/controllers/sale.controller.ts:256-286 | taking one serial keeps the table keys and keeps every serial and record pointing at an existing batch |
| Fifo.TakeBatch | server-ts/src/controllers/sale.controller.ts:302-325 | taking from a batch leaves the serials alone and keeps the batch keys |
| Fifo.SerialLoop | server-ts/src/controllers/sale.controller.ts:252-287 | the serial pass keeps the table keys, only appends records, and never drives the units still needed below zero |
| Fifo.BatchLoop | server-ts/src/controllers/sale.controller.ts:294-326 | the batch pass leaves serials and batches outside its order untouched, only appends records, and never drives the units still needed below zero |
| Fifo.TakeSerialAccounts | server-ts/src/controllers/sale.controller.ts:256-286 | one serial take appends one record for the line, moves its batch by that record, adds its cost to the cost of goods and lowers the units still needed by one |
| Fifo.TakeBatchAccounts | server-ts/src/controllers/sale.controller.ts:305-325 | one batch take appends one record for the line whose units go onto the batch, into the cost of goods and off the units still needed |
| Fifo.SerialLoopAccounts | server-ts/src/controllers/sale.controller.ts:252-287 | the whole serial pass keeps records, batch counts, cost of goods and units still needed in step |
| Fifo.BatchLoopAccounts | server-ts/src/controllers/sale.controller.ts:302-326 | the whole batch pass keeps records, batch counts, cost of goods and units still needed in step |
| Fifo.AccountsTrans | server-ts/src/controllers/sale.controller.ts:252-326 | the serial pass followed by the batch pass keeps the same bookkeeping |
| Fifo.SerialLoopMarks | server-ts/src/controllers/sale.controller.ts:253-263 | the serial pass changes only serials of its order, each of them marked sold to the line |
| Fifo.SerialLoopPrefix | server-ts/src/controllers/sale.controller.ts:253-287 | the serial pass takes exactly the first min(needed, number of serials) serials of its order, one unit each, and leaves the rest as they were |
| Fifo.BatchLoopFifo | server-ts/src/controllers/sale.controller.ts:294-326 | the FIFO rule: a batch is drawn from only when every older batch in the order is used up, and units are still missing only when all of them are used up |
| Fifo.BatchLoopPositive | server-ts/src/controllers/sale.controller.ts:305-321 | every record the batch pass writes over open batches has a positive quantity |
| Fifo.BatchLoopBound | server-ts/src/controllers/sale.controller.ts:305-312 | the batch pass never pushes a batch's sold count past its total |
| Fifo.SerialLoopUnits | server-ts/src/controllers/sale.controller.ts:273-280 | every record the serial pass writes is for exactly one unit |
| Fifo.SerialPassCanOverrun | server-ts/src/controllers/sale.controller.ts:265-271 | the serial pass does not look at the batch total: a one-unit batch holding two available serials ends with two sold |
| Fifo.Owned | server-ts/src/controllers/sale.controller.ts:387-389 | only the line's own records are found, each drawn from the table |
| Fifo.Disowned | server-ts/src/controllers/sale.controller.ts:414-416 | what is left after the delete holds none of the line's records and nothing that was not in the table |
| Fifo.FilterAppend | server-ts/src/controllers/sale.controller.ts:387-416 | finding and deleting a line's records distribute over a table split in two |
| Fifo.FilterNone | server-ts/src/controllers/sale.controller.ts:387-416 | with no record of the line, none is found and the delete keeps every record |
| Fifo.FilterAll | server-ts/src/controllers/sale.controller.ts:387-416 | with only records of the line, all are found and the delete removes all |
| Fifo.RecordedOnSplit | server-ts/src/controllers/sale.controller.ts:387-396 | each batch's recorded units split exactly into the line's records and the others |
| Fifo.Release | server-ts/src/controllers/sale.controller.ts:398-402 | every serial is kept and none stays linked to the line |
| Fifo.ReleaseIdle | server-ts/src/controllers/sale.controller.ts:398-402 | releasing a line no serial is linked to changes no serial |
| Fifo.UndoSound | server-ts/src/controllers/sale.controller.ts:384-417 | returning a line's stock keeps the tables sound (every link grounded, every batch covering its records, positive records, consistent serial links) and leaves nothing of the line behind |
| Fifo.UndoIdle | server-ts/src/controllers/sale.controller.ts:410-416 | returning the stock of a line that holds nothing changes nothing |
| Fifo.UndoTwice | server-ts/src/controllers/sale.controller.ts:410-416 | returning a line's stock twice is the same as returning it once, because its records are deleted |
| Fifo.Unlinked | server-ts/src/controllers/sale.controller.ts:486-489 | a serial whose line is deleted loses the link and keeps its status |
| Fifo.RecordedOnNonNegative | server-ts/src/controllers/batch.controller.ts:240-243 | with positive records every batch has a non-negative recorded count |
| Fifo.RecordedOnNone | server-ts/src/controllers/batch.controller.ts:240-243 | a batch no record names has nothing recorded on it |
| Fifo.RecordedOnZero | server-ts/src/controllers/batch.controller.ts:240-243 | with positive records a batch with nothing recorded on it is named by no record |
| Fifo.DetachSound | server-ts/src/controllers/sale.controller.ts:486-489 | deleting a line row (its records go with it and serials lose the link) keeps the tables sound, leaves nothing of the line and changes no batch |
| Fifo.DetachIdle | server-ts/src/controllers/sale.controller.ts:486-489 | deleting a line that consumed nothing leaves the tables as they were |
| Fifo.DrawSound | server-ts/src/controllers/sale.controller.ts:253-326 | consumption keeps the tables sound when the serials it marks were available |
| Fifo.UndoRecords | server-ts/src/controllers/sale.controller.ts:387-416 | after a consumption by a line that held nothing, the line's records are exactly the appended ones and the delete gives back the old table |
| Fifo.UndoSerials | server-ts/src/controllers/sale.controller.ts:398-402 | releasing the serials a pass marked gives back the serial table as it was |
| Fifo.UndoRestores | server-ts/src/controllers/sale.controller.ts:384-417 | one consumption pass followed by the return of stock gives back the tables exactly |
| Fifo.ConsumeThenUndo | server-ts/src/controllers/sale.controller.ts:241-417 | the whole consumption of a line (serial pass, then batch pass) followed by the return of stock gives back the batch, serial and record tables exactly |
| Consume.SerialOrder | server-ts/src/controllers/sale.controller.ts:244-250 | the order lists exactly the item's available serials, each once, by nondecreasing purchase date of their batch |
| Consume.BatchOrder | server-ts/src/controllers/sale.controller.ts:294-300 | the order lists exactly the item's batches with units left, each once, oldest first |
| Consume.SellSerial | server-ts/src/controllers/sale.controller.ts:256-286 | one loop step on the tables equals the specification step that takes one serial |
| Consume.TakeFromBatch | server-ts/src/controllers/sale.controller.ts:305-325 | one loop step on the tables equals the specification step that takes min(needed, total − sold) from a batch |
| Consume.DrawSerials | server-ts/src/controllers/sale.controller.ts:252-287 | the serial loop computes the serial pass of the specification |
| Consume.DrawBatches | server-ts/src/controllers/sale.controller.ts:302-326 | the batch loop computes the batch pass of the specification |
| Consume.MarksKeep | server-ts/src/controllers/sale.controller.ts:256-263 | marking serials sold keeps IMEIs unique and every link pointing at an existing row |
| Consume.SerialPassValid | server-ts/src/controllers/sale.controller.ts:252-287 | the serial pass over available serials keeps the store's invariant |
| Consume.BatchPassValid | server-ts/src/controllers/sale.controller.ts:302-326 | the batch pass over open batches keeps the store's invariant |
| Consume.ConsumptionAccounts | server-ts/src/controllers/sale.controller.ts:241-326 | a line's consumption appends records for that line only, whose units are on their batches, whose cost is the cost of goods and whose quantities add up to the units found |
| Consume.RecordedAtMost | server-ts/src/controllers/sale.controller.ts:241-326 | a consumption records between zero and the requested number of units |
| Consume.ConsumeTables | server-ts/src/controllers/sale.controller.ts:241-326 | the consumption of one line on the tables keeps the store's invariant and does what the specification says: serials first in date order, then batches oldest first, the batch pass running only when the serials fell short |
| Consume.ConsumeLine | server-ts/src/controllers/repair.controller.ts:597-672 | consuming a line's units on the store keeps its invariant and matches the specification |
| Consume.ReturnUnits | server-ts/src/controllers/sale.controller.ts:391-396 | one record's units come off its own batch only |
| Consume.UndoTables | server-ts/src/controllers/sale.controller.ts:384-417 | the return loop computes the reversal of the specification and reports the line's records it reversed |
| Consume.Restore | server-ts/src/controllers/sale.controller.ts:384-417 | returning a line's stock on the store keeps its invariant, leaves nothing of the line and reports the reversed records |
| Consume.UndoValid | server-ts/src/controllers/sale.controller.ts:384-417 | the reversal keeps the store's consumption tables valid |
| Consume.DetachValid | server-ts/src/controllers/repair.controller.ts:810-812 | deleting a line row keeps the store's consumption tables valid |
| Batches.Remaining | server-ts/src/controllers/batch.controller.ts:25-28 | the remaining stock is never negative, is zero exactly when the lot is out of stock, and otherwise is total − sold |
| Batches.PercentageScaled | server-ts/src/controllers/batch.controller.ts:29-32 | for a non-empty lot the percentage times the total is 100 times the unsold units |
| Batches.PercentageBounds | server-ts/src/controllers/batch.controller.ts:29-38 | a lot of no units reports 0 percent and is never low; a lot whose sold count is within its total reports between 0 and 100 percent |
| Batches.LowStockExact | server-ts/src/controllers/batch.controller.ts:33-38 | the low-stock flag holds exactly when the lot is non-empty and 5·(total − sold) < total |
| Batches.OutOfStockIsLow | server-ts/src/controllers/batch.controller.ts:33-39 | a non-empty lot that is out of stock is also flagged low |
| Batches.Create | server-ts/src/controllers/batch.controller.ts:88-129 | missing batch number, quantity, costs or supplier is a 400; success exactly when all are given and the supplier exists; the new lot gets a fresh id, the purchase date defaults to now, nothing is sold and it names no item; a refusal changes nothing |
| Batches.Patched | server-ts/src/controllers/batch.controller.ts:188-200 | every supplied field is replaced and every other field, the sold count and the item among them, is kept |
| Batches.PatchedNothing | server-ts/src/controllers/batch.controller.ts:188-200 | an update that supplies nothing changes nothing |
| Batches.PatchedKeepsBound | server-ts/src/controllers/batch.controller.ts:176-185 | the quantity guard keeps sold ≤ total, so the remaining stock is then exactly total − sold |
| Batches.Update | server-ts/src/controllers/batch.controller.ts:157-202 | an unknown lot is a 404; a total below the sold count is a 400; success exactly when the guards pass and a supplied supplier exists, and then only that lot changes, as patched |
| Batches.Delete | server-ts/src/controllers/batch.controller.ts:230-256 | an unknown lot is a 404; a lot with units sold or serials is a 400; otherwise exactly that lot is removed |
| Batches.DeletedLeavesNoTrace | server-ts/src/controllers/batch.controller.ts:240-251 | a lot that passes the delete guards is named by no consumption record and no serial |
| Billing.ClassifyMonotone | server-ts/src/controllers/payment.controller.ts:89-94 | paying more never moves a status back from paid to partial or from partial to pending |
| Billing.SettlingPayment | server-ts/src/controllers/repair.controller.ts:152-157 | a payment that brings what was paid to within the tolerance of what is owed makes the status paid |
| Billing.ClassifyTolerance | server-ts/src/controllers/sale.controller.ts:536-542 | a wider tolerance never turns a paid status into an unpaid one, so the sale path's zero tolerance is the strictest |
| Billing.PaidToSnoc | server-ts/src/controllers/repair.controller.ts:140-144 | a new payment adds its amount to its own target's total and to no other |
| Billing.AllocatedToSnoc | server-ts/src/controllers/payment.controller.ts:80-87 | a new allocation adds its amount to its own target's total and to no other |
| Billing.PartsCostSnoc | server-ts/src/controllers/repair.controller.ts:146-150 | a new repair line adds its total to its own repair's cost and to no other |
| Billing.WithoutPayments | server-ts/src/controllers/sale.controller.ts:486-489 | the payments kept after deleting a sale are exactly the payments of the table that are not made to it |
| Billing.WithoutPaymentsAppend | server-ts/src/controllers/sale.controller.ts:486-489 | deleting the sale's payments from a table split in two deletes them from each part in turn, so the payments kept stay in table order |
| Billing.WithoutAllocations | server-ts/src/controllers/sale.controller.ts:486-489 | the allocations kept after deleting a sale are exactly the allocations of the table that are not made to it |
| Billing.WithoutAllocationsAppend | server-ts/src/controllers/sale.controller.ts:486-489 | deleting the sale's allocations from a table split in two deletes them from each part in turn, so the allocations kept stay in table order |
| Billing.WithoutPaymentsPaid | server-ts/src/controllers/sale.controller.ts:486-489 | after the delete nothing is paid to the deleted sale, and every other target keeps its paid total |
| Billing.WithoutAllocationsAllocated | server-ts/src/controllers/sale.controller.ts:486-489 | after the delete nothing is allocated to the deleted sale, and every other target keeps its allocated total |
| Billing.PaymentAdvancesStatus | server-ts/src/controllers/repair.controller.ts:139-157 | a positive payment to a target raises its paid total by the amount and never moves its status back |
| Categories.Create | server-ts/src/controllers/category.controller.ts:42-69 | a missing name is a 400; a given parent that names no category is a 404; a name another category has is a 400 (the unique index); success exactly when the name is given and new and any parent exists; the new category gets a fresh id; no category becomes its own parent and every parent id still names a category |
| Categories.Patched | server-ts/src/controllers/category.controller.ts:93-99 | every supplied field is replaced and a supplied null clears the description or the parent |
| Categories.Update | server-ts/src/controllers/category.controller.ts:76-103 | an unknown category is a 404; naming itself as parent is a 400, and so is a name another category has (the unique index); success exactly when the guards pass, and then only that category changes; existing parents stay existing |
| Categories.Delete | server-ts/src/controllers/category.controller.ts:108-134 | an unknown category is a 404; one with items or subcategories is a 400; after a delete no item and no category refers to it and every parent id still names a category |
| Categories.TwoStepCycleAccepted | server-ts/src/controllers/category.controller.ts:88-91 | the self-parent guard looks one link deep only: re-parenting 1 under its own child 2 is accepted and leaves the cycle 1 → 2 → 1 |
| Serials.Create | server-ts/src/controllers/serial.controller.ts:24-43 | a missing IMEI, item or batch is a 400; a known IMEI is a 409; success exactly when all are given, the IMEI is new and item and batch exist; the unit starts available and unlinked under a fresh id |
| Serials.Patched | server-ts/src/controllers/serial.controller.ts:66-74 | every supplied field is replaced; status and links are kept |
| Serials.Update | server-ts/src/controllers/serial.controller.ts:48-74 | an unknown serial is a 404; a new IMEI another serial has is a 409; success exactly when the guards and the foreign keys pass, and then only that serial changes |
| Serials.Delete | server-ts/src/controllers/serial.controller.ts:79-89 | success exactly when the serial exists, and then only it is removed; otherwise a 404 that changes nothing |
| Barcodes.ItemCode | server-ts/src/controllers/barcode.controller.ts:21-22 | the label starts with ITEM- and its tail is all digits exactly when the id is non-negative |
| Barcodes.ParseItemCode | server-ts/src/controllers/barcode.controller.ts:135-137 | a code is read as an item id exactly when it is ITEM- followed by one or more digits |
| Barcodes.ItemCodeRoundTrip | server-ts/src/controllers/barcode.controller.ts:134-137 | scanning an item's printed label gives back the item's id |
| Barcodes.ItemCodeInjective | server-ts/src/controllers/barcode.controller.ts:20-22 | distinct items get distinct labels |
| Barcodes.GenerateForItem | server-ts/src/controllers/barcode.controller.ts:8-22 | an unknown item is a 404; an item without serials gets ITEM-id; otherwise the IMEI of its first serial |
| Barcodes.GenerateForSerial | server-ts/src/controllers/barcode.controller.ts:50-65 | an unknown serial is a 404; otherwise the label is the serial's IMEI |
| Barcodes.Scan | server-ts/src/controllers/barcode.controller.ts:91-173 | an empty code is a 400 and only it; a known IMEI always resolves to its serial and item; otherwise an ITEM-digits code naming an item resolves to that item; anything else is reported unknown with the code echoed |
| Prices.LatestBatch | server-ts/scripts/update-prices-from-batches.ts:10-19 | none exactly when the item has no batch; otherwise a batch of the item with the latest purchase date |
| Prices.CountedStep | server-ts/scripts/update-prices-from-batches.ts:26-48 | visiting one more item bumps the updated counter when it has a batch and the skipped counter otherwise |
| Prices.RepriceOne | server-ts/scripts/update-prices-from-batches.ts:26-43 | one item is skipped when it has no batch and otherwise gets the latest batch's unit cost as selling price; no other item changes |
| Prices.WalkStep | server-ts/scripts/update-prices-from-batches.ts:26-49 | one visit keeps the walk's invariant: visited items repriced, the others untouched, counters matching the visited items |
| Prices.RepricedStep | server-ts/scripts/update-prices-from-batches.ts:36-43 | earlier visited items stay repriced when the next item is visited |
| Prices.WalkDone | server-ts/scripts/update-prices-from-batches.ts:26-49 | when every item has been visited, every item is repriced and the counters are complete |
| Prices.Reprice | server-ts/scripts/update-prices-from-batches.ts:26-49 | every item with a batch gets its latest batch's unit cost as selling price and no other change; every other item is unchanged; updated counts the items with a batch and updated + skipped the items |
| Prices.UpdatePricesFromBatches | server-ts/scripts/update-prices-from-batches.ts:5-49 | the script changes only the items' selling prices, as Reprice says, and keeps the store's invariant |
| Ordering.InsertBy | server-ts/src/controllers/sale.controller.ts:244-250 | inserting keeps the multiset of elements plus the new one |
| Ordering.InsertBySorted | server-ts/src/controllers/sale.controller.ts:244-250 | inserting into a list ordered by key keeps it ordered |
| Ordering.SortBy | server-ts/src/controllers/sale.controller.ts:244-250 | sorting keeps exactly the elements it was given |
| Ordering.SortBySorted | server-ts/src/controllers/sale.controller.ts:244-250 | the sorted list is in nondecreasing key order |
| Ordering.SortedIds | server-ts/src/controllers/sale.controller.ts:294-300 | the listing holds exactly the ids of the set, each once, by nondecreasing key |
| Ordering.LeastOf | server-ts/src/controllers/barcode.controller.ts:20-22 | none exactly for the empty set; otherwise the least id of the set |
| Sales.DiscountAmount | server-ts/src/controllers/sale.controller.ts:134-140 | no discount without a (non-zero) value or with a type other than percentage or fixed; a fixed discount is its value; a percentage discount is that percentage of the subtotal |
| Sales.PercentWithinSubtotal | server-ts/src/controllers/sale.controller.ts:136-137 | a percentage discount between 0 and 100 of a non-negative subtotal lies between zero and the subtotal |
| Sales.PercentageTotalBounds | server-ts/src/controllers/sale.controller.ts:134-144 | with a percentage of at most 100 and a tax rate that is not negative, the total of a subtotal that is not negative lies between 0 and the subtotal with tax |
| Sales.SaleNumberDistinct | server-ts/src/controllers/sale.controller.ts:99-103 | different sale counts in the same year give different sale numbers, and the counter part reads back as the count plus one |
| Sales.RejectionNone | server-ts/src/controllers/sale.controller.ts:109-120 | no line is refused exactly when every line names an existing item with enough stock |
| Sales.RejectionFrom | server-ts/src/controllers/sale.controller.ts:109-120 | lines already accepted do not decide which error the request gets |
| Sales.BuildLines | server-ts/src/controllers/sale.controller.ts:106-132 | fails exactly when some line is refused, with the first refused line's code (404 unknown item, 400 short stock); otherwise one row per requested line, in order, and the subtotal is the sum of their totals |
| Sales.Create | server-ts/src/controllers/sale.controller.ts:91-172 | no lines is a 400; the first refused line decides the error; success exactly when every line is accepted and the customer exists; the new draft has the next sale number, pending payment, the built lines, the subtotal, discount, tax and total as computed, no cost of goods and no profit; a refusal changes nothing |
| Sales.TransitionsFireOnce | server-ts/src/controllers/sale.controller.ts:229-230 | confirming and returning stock each fire once: a confirmed sale is no longer a draft and a refunded or cancelled one no longer holds stock; no change of status does both |
| Sales.PaidSaleIsFrozen | server-ts/src/controllers/sale.controller.ts:509-514 | a sale that received a payment is "Confirmed" with a capital C, from which neither confirmation nor refund or cancellation moves any stock |
| Sales.ConfirmedStock | server-ts/src/controllers/sale.controller.ts:336-355 | when the serials covered the quantity the stock count becomes the larger of 0 and the available serials less the quantity; otherwise it drops by exactly the quantity |
| Sales.Restocked | server-ts/src/controllers/sale.controller.ts:337-355 | only the one item's stock count changes, to the given value |
| Sales.ConfirmLine | server-ts/src/controllers/sale.controller.ts:233-366 | one line's confirmation consumes its units as the FIFO rule says, keeps the store's consumption tables valid, sets the item's stock as ConfirmedStock says and logs a usage row with the average unit cost and the reason "Sale <number>" |
| Sales.RecordsSplit | server-ts/src/controllers/sale.controller.ts:233-326 | records appended by two consecutive lines are the first line's followed by the second's |
| Sales.CogsStep | server-ts/src/controllers/sale.controller.ts:282-284 | one more line's consumption appends records for that line alone, keeps unit costs, and adds its cost of goods to the cost of everything recorded so far |
| Sales.ReturnLine | server-ts/src/controllers/sale.controller.ts:404-408 | returning a line adds its quantity to its item's stock count and changes nothing else about any item |
| Sales.Returned | server-ts/src/controllers/sale.controller.ts:385-408 | returning every line adds to each item the total quantity of the lines naming it and changes nothing else about any item |
| Sales.UntouchedKept | server-ts/src/controllers/sale.controller.ts:385-417 | reversing one line leaves alone another line that holds nothing |
| Sales.UndoLinesClears | server-ts/src/controllers/sale.controller.ts:385-417 | reversing every line of a sale keeps the tables sound and leaves none of its lines with a record or a linked serial |
| Sales.UntouchedAfterLast | server-ts/src/controllers/sale.controller.ts:385-417 | reversing the last line after the others leaves none of them holding anything |
| Sales.ConfirmingStep | server-ts/src/controllers/sale.controller.ts:233-377 | confirming one more line keeps the loop's invariant and adds that line's cost of goods |
| Sales.ConfirmNext | server-ts/src/controllers/sale.controller.ts:233-366 | confirming line i on top of the earlier lines keeps the loop's invariant and logs that line's usage row |
| Sales.TraceStep | server-ts/src/controllers/sale.controller.ts:231-366 | a trace of confirmed lines extended by one line confirmed on the tables the trace ended with is a trace of one more line, whose cost of goods adds that line's |
| Sales.TraceLines | server-ts/src/controllers/sale.controller.ts:231-366 | in a trace every line i is consumed by the FIFO rule on the tables left by lines 0 to i − 1, with its stock count and usage row as ConfirmLine says |
| Sales.ConfirmLines | server-ts/src/controllers/sale.controller.ts:231-377 | confirming every line keeps the consumption tables valid and the unit costs; each line is consumed by the FIFO rule on the tables the earlier lines left, its item's stock set as ConfirmedStock says and its usage row priced at its cost of goods per unit; the records written belong to the sale's lines; the cost of goods is the sum of the lines' costs and the cost of exactly the records written |
| Sales.ReverseLines | server-ts/src/controllers/sale.controller.ts:385-417 | the return loop computes the reversal of every line and gives each line's quantity back to its item, keeping the consumption tables valid |
| Sales.UndoLinesStep | server-ts/src/controllers/sale.controller.ts:385-417 | reversing one more line comes after the earlier lines' reversals, for the tables and for the stock counts |
| Sales.DetachKept | server-ts/src/controllers/sale.controller.ts:486-489 | deleting one line leaves alone another line that holds nothing |
| Sales.DetachLinesValid | server-ts/src/controllers/sale.controller.ts:486-489 | the delete cascade keeps the consumption tables valid and leaves no record or link of any line |
| Sales.DetachLinesIdle | server-ts/src/controllers/sale.controller.ts:486-489 | the cascade changes nothing once no line has a record or a link |
| Sales.Delete | server-ts/src/controllers/sale.controller.ts:441-489 | an unknown sale is a 404 and changes nothing; a sale holding stock has every line reversed and its quantities returned; any other sale only loses its lines' records and links; then the sale, its payments and its allocations are removed, and other targets keep their payments |
| Sales.ReleaseLines | server-ts/src/controllers/sale.controller.ts:453-489 | the stock side of the delete: reversal for a sale holding stock, the cascade otherwise; afterwards no line owns a record |
| Sales.CreatePayment | server-ts/src/controllers/sale.controller.ts:496-550 | a missing method or amount is a 400, an unknown sale a 404, neither changing anything; success exactly when the method exists; the sale is marked "Confirmed" before the payment is written, so an unknown method leaves that change behind; on success the payment is appended and the payment status follows the total paid against the sale total with no tolerance |
| Sales.RecordPayment | server-ts/src/controllers/sale.controller.ts:515-548 | the payment is appended with a fresh id and the sale's payment status is classified from everything paid to it |
| Sales.PaymentsTo | server-ts/src/controllers/sale.controller.ts:573-577 | exactly the payments made to the sale are listed, none twice beyond the table |
| Sales.PaymentsToAppend | server-ts/src/controllers/sale.controller.ts:573-577 | listing a table split in two is listing each part in turn: the table's order is kept |
| Sales.TallyByMethod | server-ts/src/controllers/sale.controller.ts:587-596 | the breakdown has an entry exactly for the method names some payment used, and each entry is the total paid through methods of that name |
| Sales.DailyReport | server-ts/src/controllers/sale.controller.ts:556-596 | the report lists each non-cancelled sale dated in the day once; the order count is their number, the total is the sum of their totals and the breakdown is the per-method tally of their payments |
| Sales.ConfirmSale | server-ts/src/controllers/sale.controller.ts:229-377 | confirming a draft confirms its lines in order as ConfirmLines says (FIFO consumption per line, stock counts, usage rows priced per unit), appends their usage rows to the log, and sets the status, the cost of goods (the sum of the lines' costs, the cost of the records written) and the profit (total − cost of goods) |
| Sales.ConfirmOnTables | server-ts/src/controllers/sale.controller.ts:229-377 | the tables after confirming a draft, as values: every line traced as ConfirmLines says, the usage rows appended, and only that sale changed, to the new status, cost of goods and profit |
| Sales.ReverseSale | server-ts/src/controllers/sale.controller.ts:378-417 | refunding or cancelling reverses every line, returns each quantity to stock, leaves no line holding anything and sets the status |
| Sales.UpdateStatus | server-ts/src/controllers/sale.controller.ts:210-436 | a missing status is a 400 and an unknown sale a 404, changing nothing; confirming a draft consumes stock line by line as ConfirmSale says; refunding or cancelling a sale holding stock returns it as ReverseSale says; any other change only writes the status |
| Repairs.RepairNumberDistinct | server-ts/src/controllers/repair.controller.ts:205-207 | different repair counts give different case numbers; the counter reads back as the count plus one and is four digits wide up to the 9999th repair |
| Repairs.PartRows | server-ts/src/controllers/repair.controller.ts:248-257 | one line per requested line, in order, with the request's fields, under the ids after the repair's own |
| Repairs.Create | server-ts/src/controllers/repair.controller.ts:169-271 | a missing customer, brand, model or problem description is a 400; no state called "Received" is a 500; success exactly when all are given, the state exists and the customer exists; the repair gets the next case number, the first "Received" state, priority "normal" unless given, no completion date, pending payment, and its lines are created with it; a refusal changes nothing |
| Repairs.ReplayLastDelivery | server-ts/src/controllers/repair.controller.ts:380-382 | after any run of state moves the completion date is the time of the last move to "Delivered", or the date it started with when there was none |
| Repairs.UpdateState | server-ts/src/controllers/repair.controller.ts:356-399 | a missing state is a 400; an unknown repair or state a 404; success exactly when both exist, and then only that repair changes: its state, and its completion date set to now exactly when the state is "Delivered" |
| Repairs.RestockRecords | server-ts/src/controllers/repair.controller.ts:491-501 | returning records to stock keeps the item ids |
| Repairs.RestockRecordsCount | server-ts/src/controllers/repair.controller.ts:491-501 | each item's stock rises by exactly the units recorded on batches of that item, and nothing else about the item changes |
| Repairs.ReturnStock | server-ts/src/controllers/repair.controller.ts:491-501 | the stock-return loop computes RestockRecords |
| Repairs.ReturnPartsValid | server-ts/src/controllers/repair.controller.ts:469-507 | returning every line of a repair keeps the consumption tables valid and every item |
| Repairs.ReturnPartsClears | server-ts/src/controllers/repair.controller.ts:469-507 | after the return none of the repair's lines has a record or a linked serial |
| Repairs.ReturnPartsIdle | server-ts/src/controllers/repair.controller.ts:469-507 | returning lines that hold no stock changes nothing, so cancelling twice returns stock once |
| Repairs.ReturnLine | server-ts/src/controllers/repair.controller.ts:471-506 | one line's return on the tables computes the specification's return of that line |
| Repairs.ReturnLines | server-ts/src/controllers/repair.controller.ts:469-507 | the loop over the repair's lines computes the return of every line and keeps the tables valid and the item ids |
| Repairs.Cancel | server-ts/src/controllers/repair.controller.ts:469-507 | every line of the repair is returned: batch counts, serials, records and item stock as the specification says |
| Repairs.UpdateStatus | server-ts/src/controllers/repair.controller.ts:419-507 | a missing status is a 400; an unknown repair or no state matching the name ignoring case a 404, changing nothing; otherwise the repair enters a matching state with the completion date rule, and its lines are returned to stock exactly when the state's name is "cancelled" in any case |
| Repairs.MoveTo | server-ts/src/controllers/repair.controller.ts:445-507 | the repair enters the state with the completion date rule; a cancelling state returns the lines' stock; any other state leaves stock and consumption tables unchanged |
| Repairs.ConsumedAccounts | server-ts/src/controllers/repair.controller.ts:597-671 | a consumed part's records extend the old ones and belong to it alone, the batches carry exactly their units, the cost of goods is their cost, and reversing a part that held nothing gives the tables back exactly |
| Repairs.ListedAvailable | server-ts/src/controllers/repair.controller.ts:602-607 | a listing of an item's available serials names available serials only |
| Repairs.FreshUntouched | server-ts/src/controllers/repair.controller.ts:585-595 | a just-created line holds nothing yet |
| Repairs.ConsumePart | server-ts/src/controllers/repair.controller.ts:597-689 | a part's quantity is consumed by the FIFO rule, taken off the item's stock, and logged with the cost of goods per unit and the reason "Used in repair #<number>" |
| Repairs.DrawPart | server-ts/src/controllers/repair.controller.ts:583-692 | the new part's quantity is consumed by the FIFO rule; its records extend the old ones and belong to it alone, their cost is the cost of goods, reversing it gives the tables back exactly, the stock drops by the quantity and the usage row is priced at the cost of goods per unit |
| Repairs.StockPartRow | server-ts/src/controllers/repair.controller.ts:569-594 | the line takes the item's name, the given description or else the item's, the given unit price or else the selling price, the given total or else price × quantity, and is not labour |
| Repairs.CommitPart | server-ts/src/controllers/repair.controller.ts:583-692 | the part is appended under a fresh id and drawn as DrawPart says, and one usage row priced at its cost of goods per unit is logged |
| Repairs.AddStockPart | server-ts/src/controllers/repair.controller.ts:552-697 | an unknown item is a 404 and too little stock a 400, changing nothing; otherwise the line row is appended, the quantity is drawn for it by the FIFO rule as DrawPart says (stock, records, exact reversal) and one usage row priced at the cost of goods per unit is logged |
| Repairs.AddItem | server-ts/src/controllers/repair.controller.ts:528-715 | an unknown repair is a 404; with an item id the stock path decides exactly as AddStockPart says (line row, FIFO draw, stock count, usage row, nothing else changed); without one a plain line with the given fields is appended and no stock moves |
| Repairs.DeleteItem | server-ts/src/controllers/repair.controller.ts:759-812 | an unknown line is a 400 and changes nothing; otherwise its stock is returned as the specification says, nothing of it is left in the consumption tables and exactly that line is removed |
| Repairs.AddThenDelete | server-ts/src/controllers/repair.controller.ts:759-807 | deleting a stock part after adding it gives the item back the units recorded on its own batches, all of the quantity when every unit came from a batch of that item |
| Repairs.CreatePayment | server-ts/src/controllers/repair.controller.ts:109-162 | a missing method or amount is a 400 and an unknown repair a 404; success exactly when the method exists; the payment is appended and the repair's status classified from its direct payments against service charge plus line totals with a tolerance of 0.01; a refusal changes nothing |
| Customers.Create | server-ts/src/controllers/customer.controller.ts:137-174 | a missing name or phone is a 400; a phone in use is a 409; success exactly when both are given and the phone is new; the customer gets a fresh id and the party type "customer" unless one is given; a refusal changes nothing |
| Customers.Patched | server-ts/src/controllers/customer.controller.ts:221-231 | every supplied field is replaced; the tax number is kept |
| Customers.Update | server-ts/src/controllers/customer.controller.ts:198-232 | an unknown customer is a 404; a new non-empty phone another customer has is a 409; a 400 comes only from an empty phone the unique index refuses; success exactly when the customer exists and no other customer has the supplied phone, and then only that customer changes |
| Customers.OtherPhoneConflicts | server-ts/src/controllers/customer.controller.ts:211-219 | with unique phones, a non-empty phone another customer has differs from the customer's own and is taken, so the conflict check catches it |
| Customers.Delete | server-ts/src/controllers/customer.controller.ts:251-279 | an unknown customer is a 404; one with repairs or sales a 400, and so is one that supplied a batch (the foreign key refuses the delete); otherwise exactly that customer is removed and the payments that named it name no customer |
| Customers.RepairDebit | server-ts/src/controllers/customer.controller.ts:310-318 | a repair charges its final cost when set, otherwise its service charge (0 when unset) plus its lines' totals |
| Customers.RepairEntries | server-ts/src/controllers/customer.controller.ts:308-330 | exactly one debit entry for each listed repair of the customer, dated at the repair's creation, charging RepairDebit |
| Customers.SaleEntries | server-ts/src/controllers/customer.controller.ts:332-346 | exactly one debit entry for each listed sale of the customer that is neither draft nor cancelled, dated at the sale, charging its total |
| Customers.PaymentEntries | server-ts/src/controllers/customer.controller.ts:348-360 | every payment of the customer (made directly, to one of its sales or to one of its repairs) has a credit entry dated at the payment and crediting its amount; every entry comes from such a payment; there are no more entries than payments |
| Customers.PaymentEntriesAppend | server-ts/src/controllers/customer.controller.ts:348-360 | the credit entries of a payment table split in two are those of each part in turn, so they keep table order |
| Customers.InsertByDate | server-ts/src/controllers/customer.controller.ts:362-365 | inserting keeps every entry and adds the new one |
| Customers.SortByDate | server-ts/src/controllers/customer.controller.ts:362-365 | sorting keeps exactly the entries it was given |
| Customers.InsertByDateSorted | server-ts/src/controllers/customer.controller.ts:362-365 | inserting into a date-ordered ledger keeps it in date order |
| Customers.SortByDateSorted | server-ts/src/controllers/customer.controller.ts:362-365 | the sorted ledger is in date order |
| Customers.NetTotals | server-ts/src/controllers/customer.controller.ts:367-372 | the final balance is the total charged less the total paid |
| Customers.TotalsAppend | server-ts/src/controllers/customer.controller.ts:389-393 | debit and credit totals add up over a ledger split in two |
| Customers.InsertByDateTotals | server-ts/src/controllers/customer.controller.ts:362-365 | inserting an entry adds its debit and credit to the totals |
| Customers.SortByDateTotals | server-ts/src/controllers/customer.controller.ts:362-365 | sorting neither adds nor drops an amount |
| Customers.RunningBalance | server-ts/src/controllers/customer.controller.ts:367-372 | each row carries the balance of the ledger up to and including it, and the final balance is the net of all entries |
| Customers.Window | server-ts/src/controllers/customer.controller.ts:374-385 | exactly the rows dated within the optional bounds are kept, in order |
| Customers.WindowKeepsBalances | server-ts/src/controllers/customer.controller.ts:374-385 | filtering by date never changes a balance: each row shown carries the running balance of the whole ledger up to that row |
| Customers.GetLedger | server-ts/src/controllers/customer.controller.ts:281-394 | the rows within the date bounds with their running balances over the date-sorted transactions, totals over all transactions, the final balance their difference; nothing changes |
| Items.LowStock | server-ts/src/controllers/item.controller.ts:56-58 | the report holds exactly the listed items whose stock count is at or below their reorder level, and nothing else |
| Items.LowStockAppend | server-ts/src/controllers/item.controller.ts:56-58 | filtering a listing split in two is filtering each part in turn: the listing's order is kept |
| Items.LowStockSorted | server-ts/src/controllers/item.controller.ts:126-138 | filtering a listing ordered by stock count keeps it ordered by stock count |
| Items.SliceIndex | server-ts/src/controllers/item.controller.ts:60 | a slice bound always lands inside the sequence |
| Items.Slice | server-ts/src/controllers/item.controller.ts:60 | a slice is never longer than the sequence it is cut from |
| Items.SliceWindow | server-ts/src/controllers/item.controller.ts:60 | with non-negative bounds a slice is the run of elements from `start`, of length min(end, n) − min(start, n) and at most end − start |
| Items.PageContents | server-ts/src/controllers/item.controller.ts:32-60 | for page ≥ 1 a page holds at most `limit` items, each a low-stock item of the listing, and the total counts every low-stock item |
| Items.LowStockWindow | server-ts/src/controllers/item.controller.ts:59-60 | a window of `limit` filtered items holds at most `limit` items, all low-stock items of the listing |
| Items.PagesPrefix | server-ts/src/controllers/item.controller.ts:32-60 | the first k pages together are exactly the first k·limit filtered items: paging loses and repeats nothing |
| Items.PagesExtend | server-ts/src/controllers/item.controller.ts:32-60 | page k continues exactly where the first k − 1 pages stop |
| Items.SliceAfterPrefix | server-ts/src/controllers/item.controller.ts:60 | the slice after a prefix extends that prefix to the next bound |
| Items.NegativePageCountsFromEnd | server-ts/src/controllers/item.controller.ts:32-60 | a page number below 1 is not refused: with 20 low-stock items and 5 per page, page −1 shows items 10 to 14 |
| Items.Create | server-ts/src/controllers/item.controller.ts:163-220 | a missing name, category, condition, quality or price is a 400; otherwise the new item gets a fresh id, type "other", stock 0 and reorder level 5 when those are not given, and nothing else changes |
| Items.Delete | server-ts/src/controllers/item.controller.ts:248-276 | an unknown item is a 404; an item with sale lines or stock movements is refused with 400, and so is one that serials or barcodes still name (the foreign key refuses the delete); otherwise exactly that item is removed and the batches that named it name no item |
| Items.Adjusted | server-ts/src/controllers/item.controller.ts:295-299 | an adjustment succeeds exactly when the new count is not negative, and then changes the count by exactly the quantity |
| Items.AdjustedUndo | server-ts/src/controllers/item.controller.ts:295-305 | an adjustment is undone by the opposite adjustment |
| Items.AdjustedCompose | server-ts/src/controllers/item.controller.ts:295-305 | two successful adjustments equal one adjustment by their sum |
| Items.AdjustStock | server-ts/src/controllers/item.controller.ts:279-327 | no quantity is a 400, an unknown item a 404, a negative result a 400 with nothing changed; otherwise only that item's count changes, and a movement of cost 0 is logged exactly when a reason is given |
| Payments.SumMatchesWithin | server-ts/src/controllers/payment.controller.ts:25-36 | the sum check passes exactly when there are no shares or they add up to the payment within one cent |
| Payments.Records | server-ts/src/controllers/payment.controller.ts:56-65 | one allocation row per share, in order, each pointing at the new payment and carrying the share's sale, repair and amount |
| Payments.RecordsSnoc | server-ts/src/controllers/payment.controller.ts:56-65 | recording one more share appends exactly its row |
| Payments.RecordsAllocated | server-ts/src/controllers/payment.controller.ts:80-83 | recording the shares adds to each sale's or repair's allocated total exactly the shares that name it |
| Payments.SharesToNonNegative | server-ts/src/controllers/payment.controller.ts:80-87 | non-negative shares never lower what a target is allocated |
| Payments.SettledSales | server-ts/src/controllers/payment.controller.ts:67-101 | the same sales come out, with their lines untouched |
| Payments.SettledRepairs | server-ts/src/controllers/payment.controller.ts:103-143 | the same repairs come out |
| Payments.SettledNothing | server-ts/src/controllers/payment.controller.ts:55 | with no shares no sale or repair is re-classified |
| Payments.AllocationAdvancesSale | server-ts/src/controllers/payment.controller.ts:75-94 | allocating non-negative shares never moves a sale's computed status back (pending, partial, paid) |
| Payments.AllocationAdvancesRepair | server-ts/src/controllers/payment.controller.ts:111-136 | allocating non-negative shares never moves a repair's computed status back |
| Payments.SettledSalesStep | server-ts/src/controllers/payment.controller.ts:67-101 | one more share re-classifies only the sale it names, when that id is given and the sale exists, counting the new allocation |
| Payments.SettledRepairsStep | server-ts/src/controllers/payment.controller.ts:103-143 | one more share re-classifies only the repair it names, when that id is given and the repair exists, counting the new allocation |
| Payments.SaleReclassified | server-ts/src/controllers/payment.controller.ts:68-100 | re-classifying after one share keeps the same sales |
| Payments.RepairReclassified | server-ts/src/controllers/payment.controller.ts:104-142 | re-classifying after one share keeps the same repairs |
| Payments.AppliedStep | server-ts/src/controllers/payment.controller.ts:56-144 | recording share i and re-classifying its targets keeps the loop's invariant |
| Payments.ApplyShares | server-ts/src/controllers/payment.controller.ts:55-145 | the loop appends exactly the shares' rows, and the sales and repairs end as their statuses recomputed from the final tables, the others untouched |
| Payments.Allocate | server-ts/src/controllers/payment.controller.ts:7-153 | a missing customer, method or amount is a 400, as are shares not adding up to the amount; the payment is accepted exactly when those hold and everything referred to exists; a refusal changes nothing |
| Payments.Book | server-ts/src/controllers/payment.controller.ts:38-148 | a completed payment with a fresh id is appended, its shares recorded, and the named sales and repairs re-classified |
| InventoryImport.Caches.constructor | server-ts/prisma/import_inventory.ts:23-26 | the four name-to-id caches start empty |
| InventoryImport.CategoryId | server-ts/prisma/import_inventory.ts:28-37 | the id returned names a category of that name and is cached; a cached name keeps its id; a new category is created only when neither the cache nor the table knows the name |
| InventoryImport.ConditionId | server-ts/prisma/import_inventory.ts:39-48 | the same get-or-create for conditions |
| InventoryImport.QualityId | server-ts/prisma/import_inventory.ts:50-59 | the same get-or-create for quality grades |
| InventoryImport.SupplierId | server-ts/prisma/import_inventory.ts:61-109 | a cached key (the name, or "Unknown") keeps its id; else a customer holding a usable phone (longer than five characters) is taken; else the first supplier of that name; else a supplier is created with the safe phone, or, when that phone is taken, the first customer holding it |
| InventoryImport.ReceiveItem | server-ts/prisma/import_inventory.ts:131-166 | the first item with the record's name and category has brand, model, price and description rewritten, otherwise a new item with stock 0 and reorder level 1 is created; either way its stock then grows by the record's quantity |
| InventoryImport.AddToStock | server-ts/prisma/import_inventory.ts:192-195 | exactly that item's stock grows by the quantity |
| InventoryImport.AddSerials | server-ts/prisma/import_inventory.ts:198-214 | every IMEI of the record ends up registered; existing serials are untouched; each new serial is an available unit of the record's item and batch with an IMEI of the record that was unknown before |
| InventoryImport.SerialAdded | server-ts/prisma/import_inventory.ts:201-210 | registering an unknown IMEI keeps the serial loop's invariant |
| InventoryImport.SerialKnown | server-ts/prisma/import_inventory.ts:211-213 | skipping an IMEI already registered keeps the serial loop's invariant |
| InventoryImport.ImportLot | server-ts/prisma/import_inventory.ts:131-232 | the record's item is found or created and its stock grows by exactly the record's quantity; a new batch with that quantity, nothing sold and cost unit cost × quantity is added; the IMEIs become serials of it, or the barcode is registered |
| InventoryImport.RegisterCodes | server-ts/prisma/import_inventory.ts:197-232 | with IMEIs they become serials; without, the barcode is registered only for an "other" item whose barcode is new |
| InventoryImport.ImportOne | server-ts/prisma/import_inventory.ts:114-235 | a record succeeds exactly when it has a supplier; a failing one writes no item, batch, serial, customer or barcode, though its category, condition and grade may have been created; a successful one adds its batch, grows its item's stock and registers its IMEIs |
| InventoryImport.ImportSupplied | server-ts/prisma/import_inventory.ts:119-232 | with a supplier the lot is written under the resolved supplier, and the item lands in the record's category |
| InventoryImport.ResolveRefs | server-ts/prisma/import_inventory.ts:116-118 | the ids returned name the record's category, condition and quality grade |
| InventoryImport.ImportAll | server-ts/prisma/import_inventory.ts:113-236 | every record is tried in order and a failure does not stop the rest; a record is imported exactly when it has a supplier; every IMEI of an imported record ends up registered and no existing serial changes |
| InventoryImport.OutcomesStep | server-ts/prisma/import_inventory.ts:113-114 | one more record's outcome extends the list of outcomes |
| InventoryImport.RegisteredStep | server-ts/prisma/import_inventory.ts:113-236 | importing the next record keeps the earlier records' IMEIs registered and, when it has a supplier, registers its own |
| Cleaning.ExtractImeis | data/clean_data.py:17-21 | every IMEI extracted is non-empty and holds no whitespace |
| Cleaning.ExtractImeisKeepsVisible | data/clean_data.py:17-21 | extraction loses only whitespace: the IMEIs together spell the cell's visible characters |
| Cleaning.ExtractImeisOfJoin | data/clean_data.py:17-21 | a cell of IMEIs separated by single spaces reads back as exactly those IMEIs |
| Cleaning.ExtractImeisOf | data/clean_data.py:20-21 | a stripped cell whose whitespace runs split into non-empty IMEIs yields exactly them |
| Cleaning.Without | data/clean_data.py:11 | dropping a character leaves no occurrence of it and never lengthens the text |
| Cleaning.WithoutAbsent | data/clean_data.py:11 | dropping a character the text lacks changes nothing |
| Cleaning.IndexOf | data/clean_data.py:13 | the index found is the first occurrence of the character, or the length when there is none |
| Cleaning.ReadNumber | data/clean_data.py:12-15 | a numeral read is never negative |
| Cleaning.Numeral | data/clean_data.py:13 | a numeral's value is never negative |
| Cleaning.CleanPrice | data/clean_data.py:7-15 | a cleaned price is never negative; an empty or unreadable cell costs 0.0 |
| Cleaning.CleanPriceOfDollars | data/clean_data.py:7-15 | `$<n>` reads back as n dollars |
| Cleaning.CleanPriceOfCents | data/clean_data.py:7-15 | `$<n>.<cc>` reads back as n dollars and cc cents |
| Cleaning.CleanPriceOfPoint | data/clean_data.py:7-15 | `$`, digits, a point and two digits read as dollars plus hundredths |
| Cleaning.DollarText | data/clean_data.py:11-13 | a leading dollar sign before a numeral is ignored |
| Cleaning.DropDollar | data/clean_data.py:11 | removing dollar signs from `$` + text without one leaves the text |
| Cleaning.ReadDigits | data/clean_data.py:13 | a plain digit string reads as its value |
| Cleaning.CentsDigits | data/clean_data.py:13 | zero-padded cents are two digits worth the cents |
| Cleaning.ReadPoint | data/clean_data.py:13 | digits, a point and digits read as the whole part plus the fraction |
| Cleaning.NumeralOf | data/clean_data.py:13 | a numeral is worth its whole digits plus its fraction digits shifted by their count |
| Cleaning.DescribeEmpty | data/clean_data.py:43-46 | the description is empty exactly when every labelled part is empty |
| Cleaning.Labelled | data/clean_data.py:43-45 | only non-empty parts are labelled, so none are left exactly when every part is empty |
| Cleaning.Parse | data/clean_data.py:36-41 | a row's brand, IMEIs and price come from the sheet's own columns, stripped and cleaned: IMEIs without whitespace and a price that is not negative |
| Cleaning.Build | data/clean_data.py:43-69 | each record is one phone in category Phone, new or used by sheet, grade Original, from MobileZone, sold at 1.5 times its cost, named brand and model, labelled with its first IMEI |
| Cleaning.FilledRows | data/clean_data.py:34 | only rows with a non-blank cell and the six columns read are kept |
| Cleaning.Records | data/clean_data.py:33-71 | one record per filled row |
| Cleaning.RecordOf | data/clean_data.py:34-71 | a row gives one record exactly when it is filled |
| Cleaning.RecordsShaped | data/clean_data.py:48-70 | every record of a sheet has the common shape |
| Cleaning.RecordOfShaped | data/clean_data.py:48-70 | the record of a filled row has the common shape |
| Cleaning.RecordsOfOne | data/clean_data.py:34-71 | a single row gives its record when filled and nothing otherwise |
| Cleaning.FilledRowsCount | data/clean_data.py:34 | every row gives a record exactly when every row is filled |
| Cleaning.FilledRowsAppend | data/clean_data.py:33-34 | rows are filtered one by one, wherever they stand |
| Cleaning.RecordsAppend | data/clean_data.py:33-71 | rows contribute their records independently and in order |
| Cleaning.RecordsSnoc | data/clean_data.py:33-70 | one more row appends its own record, if any |
| Cleaning.RecordsStep | data/clean_data.py:33-70 | the records of i + 1 rows are those of i rows followed by row i's |
| Cleaning.Body | data/clean_data.py:32 | the header row, if there is one, is skipped |
| Cleaning.ProcessSheet | data/clean_data.py:30-71 | the loop yields exactly the records of the rows below the header |
| Cleaning.ProcessFiles | data/clean_data.py:23-125 | the new-stock records come first, then the used-phone records, and a missing file contributes none; every record is a single unit from a supplier |
| Cleaning.SingleLots | data/clean_data.py:60-67 | records of the common shape are single units from a supplier |
| Cleaning.RowSerialsRoundTrip | data/clean_data.py:36-68 | a row listing IMEIs separated by spaces yields exactly those serials, labelled with the first one |
| FixAccs.StripValues | data/fix_accs.py:8-10 | stripping keeps every column of the row |
| FixAccs.Words | data/fix_accs.py:24 | every word of a split is non-empty and holds no whitespace |
| FixAccs.FirstWith | data/fix_accs.py:25-28 | the index found is the first part containing the text, or past the end when no part does |
| FixAccs.FindFirst | data/fix_accs.py:25-28 | the loop stops at the first part containing the text |
| FixAccs.Rules | data/fix_accs.py:17-49 | a row with a description always ends with a model |
| FixAccs.StripStep | data/fix_accs.py:8-10 | stripping one more value keeps the stripping loop's invariant |
| FixAccs.StrippedAll | data/fix_accs.py:8-10 | once every key is visited the row is the stripped row |
| FixAccs.AccessoryRow.constructor | data/fix_accs.py:75-78 | the row holds the reader's cells |
| FixAccs.AccessoryRow.StripAll | data/fix_accs.py:8-10 | every non-empty value is replaced by its stripped text, and nothing else changes |
| FixAccs.AccessoryRow.Fix | data/fix_accs.py:4-56 | the row becomes its fixed form: stripped, the rules applied, Brand, Model and Category written back |
| FixAccs.ApplyMoxom | data/fix_accs.py:17-32 | the MOXOM block computes the MOXOM rules |
| FixAccs.ApplyRules | data/fix_accs.py:17-49 | the rule blocks in order compute the rules |
| FixAccs.RulesOf | data/fix_accs.py:34-49 | the rules are the MOXOM block, then the Green Lion block, then the fallback to the description |
| FixAccs.FixedRows | data/fix_accs.py:78-80 | one fixed row per row read |
| FixAccs.FixedRowsStep | data/fix_accs.py:78-80 | fixing one more row appends its fixed form |
| FixAccs.FixedRowsAppend | data/fix_accs.py:78-80 | the rows fixed so far followed by the next row's fixed form |
| FixAccs.FixSheet | data/fix_accs.py:58-92 | a missing file or a sheet without rows writes nothing; otherwise every row is written fixed, in order |
| FixAccs.FixRow | data/fix_accs.py:79 | one pass of the loop yields the row's fixed form |
| FixAccs.FixedTouchesThree | data/fix_accs.py:4-56 | only Brand, Model and Category are written; every other value is only stripped and no column is lost |
| FixAccs.MoxomBrand | data/fix_accs.py:18-20 | a MOXOM description turns an empty or "china" brand into MOXOM |
| FixAccs.MoxomModel | data/fix_accs.py:22-28 | a MOXOM description gives an item without a model its first word containing "MX-" |
| FixAccs.HolderCategory | data/fix_accs.py:31-32 | the category changes exactly when it was empty and the MOXOM description mentions "MX-VS", and then to "holder" |
| FixAccs.GreenLion | data/fix_accs.py:36-44 | a brand mentioning "green lion" in any case becomes "Green Lion"; with no model, the model becomes the description less a leading "GL " |
| FixAccs.RulesOtherwise | data/fix_accs.py:17-49 | without MOXOM or Green Lion, brand and category stay and only an empty model is replaced by the description |
| FixAccs.NotGreenLion | data/fix_accs.py:36-39 | only a brand mentioning "green lion" can be "Green Lion" |
| FixAccs.FixIdempotent | data/fix_accs.py:4-56 | fixing a fixed row changes nothing |
| FixAccs.Settled | data/fix_accs.py:4-56 | a row needing no stripping whose fields the rules leave alone is a fixed point |
| FixAccs.WriteRead | data/fix_accs.py:12-54 | writing fields back leaves the description, reads back as written, and is idempotent |
| FixAccs.WriteTrimmed | data/fix_accs.py:52-54 | trimmed fields written into a trimmed row leave it trimmed |
| FixAccs.GetTrimmed | data/fix_accs.py:12-15 | a value read from a trimmed row is trimmed |
| FixAccs.StrippedValues | data/fix_accs.py:8-10 | every value of the stripped row is trimmed |
| FixAccs.TrimmedRow | data/fix_accs.py:8-10 | stripping a trimmed row changes nothing |
| FixAccs.RulesTrimmed | data/fix_accs.py:17-49 | the rules keep values trimmed |
| FixAccs.RulesIdempotent | data/fix_accs.py:17-49 | applying the rules to their own result changes nothing |
| Text.TrimStart | data/clean_data.py:11 | only leading whitespace is removed, and all of it |
| Text.TrimEnd | data/clean_data.py:11 | only trailing whitespace is removed, and all of it |
| Text.Strip | data/clean_data.py:11 | the stripped text neither starts nor ends with whitespace |
| Text.StripKeepsVisible | data/clean_data.py:11 | stripping removes whitespace only |
| Text.StripOfTrimmed | data/fix_accs.py:8-10 | a text without surrounding whitespace is its own strip |
| Text.Word | data/clean_data.py:20 | the first word is the longest prefix without whitespace |
| Text.SplitRuns | data/clean_data.py:20 | splitting on whitespace runs gives at least one piece, none holding whitespace |
| Text.NonEmpty | data/clean_data.py:21 | the kept pieces are the non-empty ones, and together they spell the same text |
| Text.SplitRunsKeepsVisible | data/clean_data.py:20 | splitting on whitespace runs loses only the whitespace |
| Text.SplitRunsOfJoin | data/clean_data.py:20 | words joined by single spaces split back into the words |
| Text.UpperChar | data/fix_accs.py:18 | ASCII lower-case letters map to upper case and every other character is kept |
| Text.LowerChar | data/fix_accs.py:36 | ASCII upper-case letters map to lower case and every other character is kept |
| Text.Upper | data/fix_accs.py:18 | each character is upper-cased in place |
| Text.Lower | data/fix_accs.py:19-36 | each character is lower-cased in place |
| Text.Decimal | server-ts/src/controllers/sale.controller.ts:101 | a number prints as a non-empty string of digits |
| Text.DecimalRoundTrip | server-ts/src/controllers/barcode.controller.ts:135-137 | a printed number reads back as the number |
| Text.LeadingZerosValue | server-ts/src/controllers/repair.controller.ts:207 | leading zeros do not change a number's value |
| Text.PadStart | server-ts/src/controllers/repair.controller.ts:207 | padding yields the longer of the text and the width |
| Text.CounterReadsBack | server-ts/src/controllers/repair.controller.ts:207 | a zero-padded counter reads back as its number, is at least four characters, and exactly four below 10000 |
| Text.DecimalWidth | server-ts/src/controllers/repair.controller.ts:207 | a number below 10^k prints with at most k digits |
| Text.NumberedReadsBack | server-ts/src/controllers/sale.controller.ts:101-103 | the counter after a prefix reads back as its number |
| Text.NumberedInjective | server-ts/src/controllers/sale.controller.ts:101-103 | distinct counters after the same prefix give distinct numbers |
| Store.PartsOf | server-ts/src/controllers/payment.controller.ts:105-114 | exactly the lines of the table that belong to that repair are returned |
| Store.PartsOfAppend | server-ts/src/controllers/payment.controller.ts:105-114 | listing a table split in two is listing each part in turn: the table's order is kept |

## Left out

- Reading and writing files (the JSON import file, the CSV sheets, the output files), console output
  and the HTTP layer are left out. The scripts take and return the rows as values.
- The authentication, backup and reference-data controllers are not part of this model. Nor are the
  seed script or the IMEI migration script, which is raw SQL with a random fallback batch.
- The read-only handlers that only shape queries are not modelled: `getAll` and `getById` of every
  controller, item `search` and batch `getForItem`. Item `getAll` without the low-stock flag pages
  in the database and is left out. With the flag, its filtering and paging are modelled.
- The sale monthly report is not modelled. It applies the daily report's filter and sums to month
  bounds, and the calendar arithmetic that computes those bounds is left out.
- The handlers that are not part of the modelled core are not modelled: sale `update`, and repair
  `update`, `delete`, `updateItem` and `updateServiceCharge`.
- The repair status-history entry, written inside a try/catch that ignores its failure, is left out.
- Transactions are modelled as all-or-nothing where the source uses one. A handler that writes before
  it fails outside a transaction keeps that write in the model too (sale `createPayment`, the import's
  reference lookups).
- Floating-point arithmetic is modelled with exact reals. This affects the 0.01 tolerances, the 1.5
  markup, the percentage discounts and the division of COGS by quantity. For a zero-quantity
  line the usage's unit cost divides by zero in the source (NaN); the model records 0.0.
- Cleaning.ReadNumber: reads only unsigned decimal numerals (digits with at most one point). Python's
  `float` also accepts signs, exponents, underscores, `inf` and `nan`; the model reads those as no
  number, so their price is 0.0.
- Text.Upper: maps ASCII letters only. Python's and JavaScript's case mapping also changes other
  letters, and `upper` can change a string's length.
- Text.Lower: maps ASCII letters only, like `Text.Upper`.
- Ids and numbers in a request arrive already parsed as integers. The way `parseInt` reads text
  (stopping at the first non-digit) is not modelled.
- Ordering.SortedIds: rows with equal purchase dates may come in any order. The model promises
  only the order by date, which is all the database promises.
- Serials and rows that a query returns "first" are taken to be the ones with the least id.
- FixAccs.StripValues: columns are always present with a text value. The `None` values a CSV reader
  gives for a short row, and the extra keys it collects under `None`, are left out.
- Repairs.UpdateStatus: the "Cancelled" state is matched case-insensitively by name, as in the source.
  The seed data does not create such a state, and the model does not assume one exists.
- Returning a repair's stock skips records whose batch has no item, as the source does. Their quantity
  is not added back to any item.
- A price the repair line does not supply counts as 0.0.
- The database schema is not part of this model, so its referential actions are taken to be the
  defaults of the ORM. A required relation refuses the delete of the row it names: an item still named
  by serials or barcodes, and a customer still named as a batch's supplier, are answered with 400.
  An optional relation is cleared: deleting an item leaves its batches with no item, and deleting a
  customer leaves its payments with no customer. Deleting a sale removes its lines, payments,
  allocations and consumption records with it, and deleting a repair line removes its records, as the
  comment at server-ts/src/controllers/sale.controller.ts:486 expects of the schema.
