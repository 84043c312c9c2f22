# Hardware shop point of sale: turning a cart into a sale

This project is a Dafny model of the core of a hardware shop's point-of-sale
application. The core is the part that turns a cart into a stored sale:

- **Line pricing.** A `CartItem` derives its discount, tax and net values
  from price, quantity, discount percent and tax rate.
  `RetailSaleLineItem.CalculateTotals` computes the same three values and
  stores them (`Models`, `RetailSaleModel`).
- **The transaction wrapper.** `DatabaseService.ExecuteTransactionAsync`
  commits when its action returns true. It rolls back when the action returns
  false or throws, and rethrows the exception (`Database`). The database is an
  immutable state with five tables:
  - stores;
  - item_store_stock;
  - sales_retail;
  - sales_retail_items;
  - inventory_transactions, which is the stock ledger.

  A write that throws is a parameter: the index of the failing write call.
- **Two commit paths.**
  - `RetailSaleServiceExtended.CreateRetailSaleAsync` (`RetailSale`) validates
    the request, prices the lines and mints a `{store}-SINV-NNNNNN` number. It
    then inserts the header and the lines. For every line whose stock row
    exists, it also writes a stock level clamped at zero and a ledger row.
  - `SalesService.CreateSaleAsync` (`SalesService`) is the billing panel's
    path. It mints a `{prefix}-{yyyyMM}-NNNN` number, stamps and totals the
    sale, and writes a line, an unclamped stock decrement and a ledger row for
    every cart line.
  - Both paths share the stock ledger (`Ledger`) and the number minting
    (`Numbering`).
- **Panel rules.**
  - `Billing`: the billing panel's cart. This covers add and merge, remove,
    the totals, the Complete button and its payment status.
  - `RetailPanel`: the retail sales panel's editable cart. This covers the
    delete button, recalculating nets and totals, and the Save and Clear
    buttons.
  - `Inventory`: the inventory panel's stock status column and low-stock
    counter, and the item edit form's validation and defaults.
  - `Reports`: the reports panel's summary cards, its daily grid and its CSV
    export.
- **The receipt formatter** (`Printer`): centring and padding, the receipt's
  line structure, and the guard in `PrintReceipt`.

The things the code reads from outside are parameters of the model:

- the clock;
- fresh Guids and the id that `RETURNING id` yields;
- the session's store, user and invoice prefix;
- the query results;
- the parsed text boxes;
- whether a write or a print job throws;
- the culture-dependent renderings of amounts and dates, grouped in `Formats`.

Money and quantities are exact `real`. Guids are naturals, and 0 stands for
`Guid.Empty`. C#'s unchecked `int` addition in the invoice counters is modelled
explicitly as a 32-bit wrap-around (`Text.Wrap32`).

Where the code differs from what its own comments and documentation describe,
the model follows the code:

- **Retail validation.** It demands `UnitPrice > 0`, not `>= 0`, and never
  checks the range of a discount.
- **Retail payment status.** The retail path always stores payment status
  "paid", whatever the payment method.
- **Missing stock row, retail path.** The retail path skips a line whose
  (item, store) stock row does not exist. It does not create the row, and it
  writes no ledger row for that line.
- **Missing stock row, sales-service path.** The sales-service path does not
  clamp. For a line with no stock row, it still writes a ledger row, although
  the UPDATE changes nothing (`SalesService.SalesLedgerWithoutStockRow`).
- **Retail panel Save.** The retail sales panel's Save button stores nothing.
  It announces the item count and clears the cart.
- **"Failed to complete sale".** The billing panel's "Failed to complete sale"
  branch cannot be reached. The sales service either returns the sale or
  throws, because the transaction's action never returns false
  (`Billing.CompleteOutcome`).
- **Sales-service numbering.** The sales service reads the previous month
  sequence from the third '-' piece of the newest number, whatever the
  prefix. The model mints numbers the same way (`Numbering.NextMonthlyNumber`),
  so with a prefix containing '-' it repeats numbers as the code does
  (`SalesService.SalesHyphenatedPrefixRepeats`; see "## Findings").
- **Auto-print after a sale.** With the printer enabled and auto-print on,
  the billing panel reads the stored sale back before it clears the cart.
  If that read throws, the error is shown after the success message, and the
  cart is kept although the sale is already stored (`Billing.CompleteOutcome`).

## Model

| member | source | states |
|---|---|---|
| `Models.CartTotals` | Forms/BillingPanel.cs:298-303 | The displayed subtotal, discount and tax are the sums of line gross, DiscountValue and TaxValue. The displayed total equals the sum of the line NetValues. |
| `Models.NetValueFactored` | Models/Models.cs:108-111 | NetValue is the discounted gross times (1 + TaxRate/100). |
| `Models.ZeroRates` | Models/Models.cs:108-111 | A zero discount percent gives no discount. A zero tax rate gives no tax, and the net is then gross minus discount. |
| `Models.PricingBounds` | Models/Models.cs:108-111 | Take price ≥ 0, quantity > 0, a percent in [0, 100] and a rate ≥ 0. Then the discount lies between 0 and the gross, the tax is non-negative, and net ≥ gross − discount ≥ 0. |
| `Models.FullDiscount` | Models/Models.cs:108-111 | A 100% discount equals the gross. It leaves zero tax and zero net, whatever the tax rate. |
| `RetailSaleModel.CalculateTotals` | Models/RetailSaleModel.cs:64-70 | Only the three derived fields change; id, code, name, quantity, price and percent stay as they were. Tax is (gross − discount)·rate/100. Net is gross − discount + tax. |
| `RetailSaleModel.CalculateTotalsAgreesWithCartItem` | Models/RetailSaleModel.cs:64-70 | For equal inputs, discount, tax and net equal CartItem's derived DiscountValue, TaxValue and NetValue. |
| `RetailSaleModel.CalculateTotalsIdempotent` | Models/RetailSaleModel.cs:64-70 | A second call with the same rate changes nothing. |
| `RetailSaleModel.CalculateTotalsDefaultRate` | Models/RetailSaleModel.cs:64-69 | At the default rate 0 there is no tax. The discount is gross·percent/100, and the net is gross − discount. |
| `Database.Apply` | Services/SalesService.cs:81-86 | No statement adds or removes a store or a stock row. An UPDATE whose WHERE matches nothing leaves the table as it was. |
| `Database.ExecuteTransaction` | Services/DatabaseService.cs:64-86 | It commits exactly when the action returns true, and then shows the action's state and returns true. A false result rolls back and returns false. A throw rolls back and rethrows the same message. A rollback shows the state from before. |
| `Database.TransactionAllOrNothing` | Services/DatabaseService.cs:64-86 | Afterwards the visible state is either everything the action wrote, with result true, or exactly the state from before. |
| `Ledger.ClampedDeduct` | Services/RetailSaleService.cs:314 | The new level is never negative and never below level − quantity. It is either 0 or level − quantity. |
| `Ledger.ClampAll` | Services/RetailSaleService.cs:301-327 | No stock row is created or removed. Rows that no request names keep their level. |
| `Ledger.ClampAllNonNegative` | Services/RetailSaleService.cs:312-327 | Every row a request names ends non-negative. A non-negative stock stays non-negative. |
| `Ledger.ClampAllIsClampFold` | Services/RetailSaleService.cs:301-349 | Each row ends where replaying its requested deltas from the old level ends, clamping at zero after each delta. |
| `Ledger.DeductAll` | Services/SalesService.cs:81-86 | No stock row is created or removed by the unclamped decrements. |
| `Ledger.DeductAllIsSum` | Services/SalesService.cs:81-99 | Without clamping, each row moves by exactly the sum of the deltas requested for it. |
| `Ledger.DeductAllCanGoNegative` | Services/SalesService.cs:81-84 | Taking 5 from a level of 2 leaves −3. |
| `Numbering.LastMatching` | Services/RetailSaleService.cs:394-404 | The answer, when there is one, starts with the pattern's prefix. There is no answer exactly when no stored number starts with it. |
| `Numbering.LastMatchingAppend` | Services/RetailSaleService.cs:394-398 | The newest sale is the answer when it matches. Otherwise the answer is what it was before that sale. |
| `Numbering.ParseOrThrow` | Services/RetailSaleService.cs:409 | `int.Parse` succeeds exactly on a non-empty digit string whose value is at most int.MaxValue, and returns that value. |
| `Numbering.NextRetailNumber` | Services/RetailSaleService.cs:400-410 | Every minted number starts with `{code}-SINV-`. With no earlier number, the result is number 1. |
| `Numbering.RetailFirstNumber` | Services/RetailSaleService.cs:406-407 | Number 1 of a store is `{code}-SINV-000001`. |
| `Numbering.RetailNumberRoundTrip` | Services/RetailSaleService.cs:409-410 | Parsing the last '-' piece of the number minted for n gives back n, for every n from 0 to int.MaxValue. |
| `Numbering.RetailNumberSuccessor` | Services/RetailSaleService.cs:406-410 | After `{code}-SINV-{n:D6}`, the next number is `{code}-SINV-{n+1:D6}`. |
| `Numbering.RetailNumberWidth` | Services/RetailSaleService.cs:410 | Numbers 1 to 999999 are exactly six digits after the pattern. |
| `Numbering.RetailNumberInjective` | Services/RetailSaleService.cs:410 | Distinct non-negative sequence values give distinct numbers. |
| `Numbering.RetailNumberNonNumericThrows` | Services/RetailSaleService.cs:409 | A non-numeric last piece makes minting throw. |
| `Numbering.RetailNumberAfterMaxFails` | Services/RetailSaleService.cs:409-410 | After int.MaxValue, the unchecked `+ 1` mints the int.MinValue number. The number after that one throws. |
| `Numbering.RetailNextAfterAppend` | Services/RetailSaleService.cs:394-410 | Once number n + 1 is the newest of its store, the next minted number is n + 2. |
| `Numbering.MonthlySequenceAsWritten` | Services/SalesService.cs:22-27 | As written: the sequence is 1 without a previous number. Otherwise it is at least 1, or int.MinValue after a wrap. |
| `Numbering.MonthlySequence` | Services/SalesService.cs:22-27 | Corrected: the sequence is 1 without a previous number. Otherwise it is at least 1, or int.MinValue after a wrap. |
| `Numbering.NextMonthlyNumber` | Services/SalesService.cs:19-30 | The number always starts with `{prefix}-{yyyy}{MM}-`, and with no previous number of the month it is `{prefix}-{yyyy}{MM}-0001`. The sequence is the code's third-piece reading, whose behaviour the `MonthlyAsWritten…` lemmas state. |
| `Numbering.MonthlySuccessor` | Services/SalesService.cs:22-30 | For any prefix, the corrected sequence after the number with sequence n is n + 1. |
| `Numbering.AsWrittenThreePieces` | Services/SalesService.cs:25-27 | As written, a number with three '-' pieces and a numeric third piece is followed by that piece plus one. |
| `Numbering.MonthlyAsWrittenAgrees` | Services/SalesService.cs:25-27 | With a prefix free of '-', the code as written and the corrected sequence both give n + 1 after n. |
| `Numbering.MonthlyAsWrittenRestarts` | Services/SalesService.cs:22-27 | As written, a previous number with fewer than three pieces, or with a non-numeric third piece, silently restarts the sequence at 1. |
| `Numbering.MonthlyAsWrittenReadsMonth` | Services/SalesService.cs:25-27 | As written, with a prefix `a-b` the third piece is yyyyMM. So the sequence after any number of the month is yyyyMM + 1. |
| `Numbering.MonthlyAsWrittenRepeats` | Services/SalesService.cs:19-30 | As written, with such a prefix, the number with sequence yyyyMM + 1 is minted again right after itself. |
| `Numbering.MonthlyAsWrittenExample` | Services/SalesService.cs:19-30 | With prefix "HW-INV" in October 2026, HW-INV-202610-0001 is followed by sequence 202611, and 202611 is followed by 202611 again. The corrected sequence gives 2. |
| `Text.FormatD` | Services/RetailSaleService.cs:410 | "D" formatting gives at least `width` digits for a non-negative value, and a leading '-' for a negative one. |
| `Text.ParseInt32` | Services/SalesService.cs:26 | Parsing succeeds exactly on a non-empty digit string whose value is at most int.MaxValue. |
| `Text.Wrap32` | Services/RetailSaleService.cs:410 | The result is always an int. Values already in range are unchanged. |
| `Text.FormatDParse` | Services/RetailSaleService.cs:409-410 | Formatting with "D" and then parsing gives back every non-negative int. |
| `Text.Split` | Services/SalesService.cs:25 | There is at least one piece, and no piece contains the separator. |
| `Text.Trim` | Forms/InventoryPanel.cs:332-338 | The result is the input minus its leading and trailing white space, where white space is the full `Char.IsWhiteSpace` set, including U+0085, U+1680, U+2000 to U+200A, U+2028, U+2029, U+202F, U+205F and U+3000. A non-empty result has no white space at either edge. |
| `RetailSale.ValidationError` | Services/RetailSaleService.cs:181-192 | There is no error exactly when the store is set, the list is present and non-empty, and every item has an id, quantity > 0 and price > 0. It names the first failing check, in the order the service checks them. |
| `RetailSale.PriceLine` | Services/RetailSaleService.cs:207-227 | Id, quantity, price and batch are copied. The percent defaults to 0. An explicit discount value wins. Net + discount = price·quantity. |
| `RetailSale.PriceLines` | Services/RetailSaleService.cs:207-227 | There is one priced line per requested line, in order. |
| `RetailSale.PriceLineAgreesWithCartItem` | Services/RetailSaleService.cs:209-212 | Without an explicit discount value, a retail line's discount and net equal a cart line's at the same percent and tax rate 0. |
| `RetailSale.RetailTotals` | Services/RetailSaleService.cs:202-243 | The subtotal and discount are sums over the lines. Tax is 0, and total = subtotal − discount. |
| `RetailSale.RetailTotalIsSumOfNets` | Services/RetailSaleService.cs:209-243 | The header total equals the sum of the line nets. |
| `RetailSale.RetailTotalsBounded` | Services/RetailSaleService.cs:207-243 | Take valid lines whose discounts lie within their gross. Then 0 ≤ total ≤ subtotal. |
| `RetailSale.SaleItemRows` | Services/RetailSaleService.cs:282-298 | There is one stored line per priced line, in order, with tax 0. |
| `RetailSale.InsertItems` | Services/RetailSaleService.cs:282-298 | The inserts either all run, appending exactly those rows and nothing else, or one throws the database error. |
| `RetailSale.SaleMovements` | Services/RetailSaleService.cs:336-349 | There is at most one ledger row per line. Each is of type "sale", for the store, referencing the sale as "sales_retail", and only for stock rows that exist. |
| `RetailSale.DeductStock` | Services/RetailSaleService.cs:301-354 | The loop makes two writes per line whose stock row exists. On success the stock is clamp-deducted and exactly those lines' ledger rows are appended; nothing else changes. |
| `RetailSale.Header` | Services/RetailSaleService.cs:255-273 | The header carries the fresh id, the minted number and the store. Payment status is "paid", the method defaults to "cash", tax is 0, total = subtotal − discount, and the sale is active. |
| `RetailSale.StoreCode` | Services/RetailSaleService.cs:230-237 | A code is found exactly when the store exists with a non-empty code, and it is that code. |
| `RetailSale.Writes` | Services/RetailSaleService.cs:246-354 | The try block succeeds exactly when none of its writes throws, and then leaves the committed state. |
| `RetailSale.CreateRetailSale` | Services/RetailSaleService.cs:172-385 | Success happens exactly when validation passes, the store code is found, minting succeeds and no write throws. On success the result is the fresh id and the committed state. Any failure leaves the database unchanged and returns `Guid.Empty`. Validation and lookup failures report their own message. |
| `RetailSale.SaleMovementDeltas` | Services/RetailSaleService.cs:312-349 | For an existing stock row, the ledger records every line's full −quantity, in order, even when the level was clamped. A missing row gets nothing. |
| `RetailSale.RetailStockNonNegative` | Services/RetailSaleService.cs:312-327 | After a committed sale, every row it touched is ≥ 0. A non-negative stock stays non-negative. |
| `RetailSale.RetailLedgerHonest` | Services/RetailSaleService.cs:301-354 | After a commit, each stock row stands where replaying the sale's new ledger rows for it from its old level ends, clamping at zero. |
| `RetailSale.RetailConsecutiveNumbers` | Services/RetailSaleService.cs:389-411 | After a store's sale number n, a committed sale is numbered n + 1, and the next one would get n + 2. |
| `RetailSale.RetailFirstSale` | Services/RetailSaleService.cs:406-407 | A store's first committed retail sale is `{code}-SINV-000001`. |
| `RetailSale.RetailFaultRollsBack` | Services/RetailSaleService.cs:374-381 | A throwing write anywhere in the run leaves the database as before and returns (false, the error, Guid.Empty). |
| `SalesService.InvoiceNumber` | Services/SalesService.cs:9-31 | The number always starts with the month's `{prefix}-{yyyy}{MM}-` pattern. Its sequence is read from the newest number of the month as the code reads it. |
| `SalesService.Stamp` | Services/SalesService.cs:39-48 | The sale gets the returned id, the minted number, the session store (or `Guid.Empty`) and the session user. It keeps the caller's customer, method and status. Its subtotal, discount and tax are the cart sums, and total = subtotal − discount + tax. |
| `SalesService.StampTotalIsSumOfNets` | Services/SalesService.cs:45-48 | The stored total equals the sum of the cart's NetValues. |
| `SalesService.ItemRows` | Services/SalesService.cs:60-79 | There is one stored line per cart line, in order, with the cart line's derived values. |
| `SalesService.ItemMovements` | Services/SalesService.cs:88-99 | There is one ledger row per cart line, in order, recording −quantity. |
| `SalesService.WriteLine` | Services/SalesService.cs:62-99 | A cart line makes three writes: its line row, the decrement of an existing stock row, and its ledger row. |
| `SalesService.WriteItems` | Services/SalesService.cs:60-100 | The loop either makes all 3·n writes, appending exactly the line and ledger rows and decrementing stock, or throws the database error. |
| `SalesService.SaleAction` | Services/SalesService.cs:37-102 | The action returns true with the committed state exactly when none of its 1 + 3·n writes throws. Otherwise it throws the database error. The header carries the number the code mints. |
| `SalesService.CreateSale` | Services/SalesService.cs:33-104 | An empty cart returns null and writes nothing, and only an empty cart returns null. A sale is returned exactly when the cart is non-empty and no write throws, and then it is the stamped sale with the committed state. A throw leaves the database unchanged. |
| `SalesService.SalesFaultRollsBack` | Services/SalesService.cs:37-102 | For a non-empty cart, any write that throws makes the call throw the database error with the database unchanged. |
| `SalesService.ItemMovementDeltas` | Services/SalesService.cs:88-99 | For every stock key, the ledger records each of its cart lines' −quantity, in order. |
| `SalesService.SalesLedgerReconciles` | Services/SalesService.cs:81-99 | After a commit, each existing stock row has moved by exactly the sum of the new ledger rows for it. |
| `SalesService.SalesLedgerWithoutStockRow` | Services/SalesService.cs:81-99 | A cart line with no stock row still gets its ledger row, while no stock row appears. |
| `SalesService.SalesStockCanGoNegative` | Services/SalesService.cs:81-86 | Selling 5 with 2 in stock stores −3. |
| `SalesService.SalesConsecutiveNumbers` | Services/SalesService.cs:15-30 | For a prefix without '-', after the month's sale number n, a committed sale is numbered n + 1, and the next one would get n + 2. |
| `SalesService.SalesHyphenatedPrefixRepeats` | Services/SalesService.cs:15-30 | For a prefix `a-b`, a committed sale is numbered with sequence yyyyMM + 1, and the next sale of the month would get that same number again. |
| `Billing.IndexOf` | Forms/BillingPanel.cs:260 | The result is the first line with the item's id, and there is none exactly when no line has it. |
| `Billing.NewLine` | Forms/BillingPanel.cs:264-273 | A new line takes the item's id, retail price, tax rate and stock, the quantity entered, and no discount. |
| `Billing.Merge` | Forms/BillingPanel.cs:260-273 | A known item keeps the line count. An unknown one is appended as a new last line. Existing lines keep their item ids. |
| `Billing.MergeQuantities` | Forms/BillingPanel.cs:260-273 | The item's total quantity rises by exactly qty and no other item's changes. One line per item is preserved. |
| `Billing.MergeSubtotal` | Forms/BillingPanel.cs:260-300 | The subtotal rises by qty times the price of the item's line: the existing line's price, or the retail price for a new line. |
| `Billing.AddItemToCart` | Forms/BillingPanel.cs:237-285 | A code that trims to nothing, with no selection, does nothing; white space is the full `Char.IsWhiteSpace` set. A bad quantity shows "Invalid quantity". An unknown code shows "Item not found". A lookup exception shows its message. Only a found item with a positive quantity changes the cart, by merging. |
| `Billing.UnicodeSpaceCodeIgnored` | Forms/BillingPanel.cs:239-240 | A code of an em space, a no-break space and a medium mathematical space, with no selection, leaves the cart and shows nothing. |
| `Billing.AddKeepsUniqueIds` | Forms/BillingPanel.cs:237-285 | Whatever is scanned or picked, the cart keeps at most one line per item. |
| `Billing.RemoveItem` | Forms/BillingPanel.cs:311-318 | An index in range removes exactly that line and keeps the order of the rest. Any other index changes nothing. |
| `Billing.RemoveTotals` | Forms/BillingPanel.cs:298-318 | Removing a line takes exactly its gross, discount, tax and net off the four totals. |
| `Billing.PaymentStatusFor` | Forms/BillingPanel.cs:350 | The status is "unpaid" exactly for "Credit", and "paid" otherwise. |
| `Billing.NewSale` | Forms/BillingPanel.cs:346-351 | The submitted sale has the chosen customer, the method and that method's status. |
| `Billing.Complete` | Forms/BillingPanel.cs:330-376 | An empty cart shows "Cart is empty". A declined confirmation does nothing. The cart is either kept or cleared. If the database changed but the cart is kept, then auto-printing was on and the sale lookup threw. A receipt is printed only when auto-printing finds the sale, and it is `Printer.PrintReceipt` of the sale found. |
| `Billing.CompleteOutcome` | Forms/BillingPanel.cs:353-375 | A confirmed, non-empty cart ends in exactly one of two ways: `Billing.SaleCommitted` or `Billing.SaleRolledBack`. "Failed to complete sale" is never shown. |
| `Billing.CompleteCommitted` | Forms/BillingPanel.cs:353-370 | When no write throws, one sale is appended, with status "unpaid" exactly for Credit, and its success message comes first. If the auto-print lookup throws, its error follows and the cart is kept; otherwise the cart is cleared. A receipt is printed exactly when auto-printing finds the sale. |
| `Billing.CompleteRolledBack` | Forms/BillingPanel.cs:353-375 | When a write throws, the cart and database are as before and "Error: " with the database error is shown. |
| `RetailPanel.MirrorCells` | Forms/RetailSalesPanel.cs:225-232 | There is one grid row per cart line, showing its quantity and discount percent. |
| `RetailPanel.CellClick` | Forms/RetailSalesPanel.cs:215-223 | A click in column 6 on row r < count removes exactly line r. Other columns and header rows change nothing. A row past the end throws. |
| `RetailPanel.UpdateTotals` | Forms/RetailSalesPanel.cs:234-257 | A row whose two cells parse takes the new quantity and percent and net = lineTotal − lineTotal·dis/100. Other rows are unchanged. The totals are Σ price·qty and Σ price·qty·dis/100, and net = total − discount. |
| `RetailPanel.RecalculatedNetMatches` | Forms/RetailSalesPanel.cs:244-245 | A recomputed Net column agrees with its line's price, quantity and discount. |
| `RetailPanel.UpdatedNetsMatch` | Forms/RetailSalesPanel.cs:236-248 | After an update, every Net column agrees with its line, as long as rows that do not parse already agreed. |
| `RetailPanel.NetTotalIsSumOfNets` | Forms/RetailSalesPanel.cs:250-252 | When every Net column agrees, the Net Total label is the sum of the Net column. |
| `RetailPanel.Save` | Forms/RetailSalesPanel.cs:259-278 | An empty cart shows "Add items to cart" and no store shows "Please select a store", and in both cases the cart is kept. Otherwise "Saved n items!" is shown with n the line count, and the cart is cleared. |
| `RetailPanel.Clear` | Forms/RetailSalesPanel.cs:204 | The cart empties and all three totals show 0. |
| `Inventory.StatusOf` | Forms/InventoryPanel.cs:154-157 | Out exactly when stock ≤ 0. Low exactly when 0 < stock ≤ reorder level. OK exactly when stock is above both. |
| `Inventory.LoadItems` | Forms/InventoryPanel.cs:137-174 | On success there is one row per item, in order, each with its status. The total is the item count and the low count is the number of Out or Low items. A query exception shows "Error: …" and keeps the grid. |
| `Inventory.LowAndOkPartition` | Forms/InventoryPanel.cs:150-157 | Every item is counted as low or as OK, never both. |
| `Inventory.FormItem` | Forms/InventoryPanel.cs:329-340 | Code, name and barcode are trimmed. Cost defaults to 0, the reorder level defaults to 10, and the wholesale price is the retail price. |
| `Inventory.SaveItem` | Forms/InventoryPanel.cs:313-354 | A code or name made only of `Char.IsWhiteSpace` characters, then a bad or negative retail price, is refused with its message. A request is made exactly when both checks pass, and it is an update with the existing id exactly in edit mode. The dialog closes exactly when the service call does not throw. |
| `Inventory.UnicodeSpaceCodeRefused` | Forms/InventoryPanel.cs:315-319 | A code of an em space and an ideographic space is refused as blank, and no request is made. |
| `Inventory.SavedItemWellFormed` | Forms/InventoryPanel.cs:315-340 | Every item handed to the service has a non-empty code and name with no white space at the edges, the typed values trimmed, and a non-negative retail price equal to its wholesale price. |
| `Reports.Summarize` | Forms/ReportsPanel.cs:112-114 | Revenue is Σ TotalAmount and orders is the sale count. average·orders = revenue when there are orders, and everything is 0 otherwise. |
| `Reports.Days` | Forms/ReportsPanel.cs:122 | The days are strictly newest first, and a day is listed exactly when some sale falls on it. |
| `Reports.DayList` | Forms/ReportsPanel.cs:122-126 | A day's group holds exactly the sales of that day, and its length is the number of that day's sales. |
| `Reports.DayRow` | Forms/ReportsPanel.cs:126-136 | A row's invoice count is the number of that day's sales. Its total, cash and card are taken over that day's group. |
| `Reports.DailyRows` | Forms/ReportsPanel.cs:122-137 | The rows are strictly newest first. There is a row for day d exactly when some sale falls on d, and each row describes its day. |
| `Reports.RowsAddUp` | Forms/ReportsPanel.cs:122-136 | Rows for distinct days that cover every sale add up to the revenue. |
| `Reports.DailyTotalsAddUp` | Forms/ReportsPanel.cs:112-136 | The day totals of the grid add up to the revenue card. |
| `Reports.DailyInvoicesAddUp` | Forms/ReportsPanel.cs:112-136 | The day invoice counts of the grid add up to the order-count card, so no sale is dropped or counted twice. |
| `Reports.NotCashAndCard` | Forms/ReportsPanel.cs:127-128 | No sale counts as both cash and card. |
| `Reports.PaymentSplit` | Forms/ReportsPanel.cs:127-128 | Cash, card and the other methods partition the total of any group of sales. |
| `Reports.RowPaymentSplit` | Forms/ReportsPanel.cs:126-136 | A row's cash and card columns plus its other sales add up to the row's total. |
| `Reports.RowCells` | Forms/ReportsPanel.cs:130-136 | There are five cells, matching the headers, and the invoice cell reads back as the row's count. |
| `Reports.LoadReport` | Forms/ReportsPanel.cs:105-143 | On success there are three cards: the revenue; the order count, which reads back as the number of sales; and the average per sale. There is one grid row per sale day, each showing that day's row cells, newest first. A query exception shows "Error: …" and keeps the view. |
| `Reports.QuoteAll` | Forms/ReportsPanel.cs:154-159 | Each cell is wrapped in double quotes, in order. |
| `Reports.Export` | Forms/ReportsPanel.cs:152-161 | The header line comes first, then one CSV line per grid row, in order. |
| `Reports.CsvRoundTrip` | Forms/ReportsPanel.cs:154-160 | A row whose cells contain no double quote is read back exactly from its CSV line. |
| `Reports.QuotesNotEscaped` | Forms/ReportsPanel.cs:159 | Quotes are not escaped: a one-cell row `a","b` gives the same line as the two-cell row a, b, and it is not read back. |
| `Printer.Rule` | Services/PrinterService.cs:42 | A rule exists exactly for width ≥ 0, and it is `width` copies of the character. |
| `Printer.CenterText` | Services/PrinterService.cs:101-106 | Text at least as wide as the width is returned unchanged. Otherwise the result is `width` wide, with the text after ⌊slack/2⌋ spaces and spaces after it, and the right margin is at most one wider than the left. |
| `Printer.FormatItemLine` | Services/PrinterService.cs:108-113 | The line is formatted exactly when width ≥ 28. When the fields fit, it is `width` wide, with the item left-aligned and qty, price and total right-aligned in 5, 10 and 10 columns behind single spaces. |
| `Printer.FormatTotalLine` | Services/PrinterService.cs:115-119 | The line is formatted exactly when the amount fits the width, and it ends with the amount. When the caption fits too, the line is `width` wide and starts with the caption. |
| `Printer.ItemLines` | Services/PrinterService.cs:51-58 | There are two lines per item, in order: its name (or ""), then its figures line. |
| `Printer.OptionalTotal` | Services/PrinterService.cs:62-65 | An optional total is absent when not shown. Otherwise it is the one formatted total line. |
| `Printer.ReceiptHead` | Services/PrinterService.cs:39-49 | The head has eight lines. |
| `Printer.ReceiptTotals` | Services/PrinterService.cs:60-65 | There are two lines, plus one for a discount > 0 and one for a tax > 0. |
| `Printer.ReceiptTail` | Services/PrinterService.cs:67-73 | The tail has seven lines. |
| `Printer.ReceiptLines` | Services/PrinterService.cs:36-76 | A receipt exists exactly when width ≥ 28 and every total fits. It has 17 + 2·items + [discount > 0] + [tax > 0] lines. |
| `Printer.ReceiptLayout` | Services/PrinterService.cs:41-70 | The top line is the upper-cased store name, centred. Then come the invoice and cashier lines and each item's name above its figures. The discount line follows the subtotal and ends with −discount. The payment method is fourth from the end. |
| `Printer.PrintReceipt` | Services/PrinterService.cs:13-34 | A disabled printer or an empty printer name returns false and sends nothing. Lines are sent exactly when the guard passes and the receipt can be laid out. It returns true exactly when the job then completes. |

## Left out

- **Audit log.** The audit-log insert at the end of the retail sale is left out. Its failure would roll back like any other write.
- **SQL read queries.** The read queries are left out: sale listings, sale details, today's totals, customers, and the item service. Their answers enter the model as parameters.
- **LIKE wildcards.** The `LIKE` lookup is modelled as a prefix match. A `%` or `_` inside a store code or invoice prefix would act as a wildcard in SQL.
- **Concurrent minting.** The model mints numbers sequentially. Concurrent sales can mint the same number, and no uniqueness across concurrent commits is claimed.
- **Numbering connection.** `SalesService.GenerateInvoiceNumberAsync` opens its own connection outside the transaction. The model reads the state the transaction starts from.
- **Unique-key failures.** The database's unique constraints are not modelled. A repeated invoice number counts as an ordinary row.
- **Decimal precision.** .NET `decimal` rounding and overflow are not modelled; money is exact.
- **Lenient parsing.** `int.Parse` and `int.TryParse` leniency for white space, signs and culture is not modelled. Only digit strings are parsed, and the suffixes the code reads never contain '-'.
- **Exception texts.** The messages of .NET's FormatException, OverflowException and ArgumentOutOfRangeException depend on the runtime version. The model uses the stand-ins `Numbering.FormatError`, `Numbering.OverflowError` and `Printer.OutOfRange`; where they reach a returned message, only the kind of failure is faithful, not the wording.
- **Culture-aware case mapping.** `ToUpper` and `ToLower` map only ASCII letters.
- **Formatting and UI.** Culture-dependent formatting (`FormatCurrency`, "N0", "N2", dates) enters as opaque functions in `Formats`. Message boxes, focus, layout, timers and `PrintPage` pagination are not modelled.
- **Category-name column.** The inventory grid's category-name column is not modelled.
- **Throwing reads.** The reads inside both sale paths are assumed not to throw: the store-code and stock-level SELECTs and the last-invoice lookup of the retail sale, and the sales service's numbering query. Only writes are fault points. A throw at such a read would roll back like a throw at the next write. The retail path would return (false, message, Guid.Empty), and the sales service would rethrow.
- Printer.CenterText: lengths count characters (Unicode scalar values), not .NET's UTF-16 code units. A text with characters outside the Basic Multilingual Plane, as an emoji in a store name, is padded as if each such character were one unit wide. .NET counts it as two, so .NET pads with less slack than the model: the model's centred line, and the receipt's top line built from it, has more padding than .NET's.
- **Print errors.** `PrintDocument` and the debug message of a print error are not modelled. The only model of a failing print job is a false result.
- **Date-range filter.** `GetSalesAsync`'s date range and store filter are outside the model. The reports panel receives the query's answer.
- Numbering.MonthlySequenceAsWritten: the contract bounds the sequence but does not state its exact value for well-formed numbers. The successor lemmas in the "## Model" table state it.
- SalesService.SalesConsecutiveNumbers: stated only for a prefix without '-'. With a '-' in the prefix, the code repeats numbers instead (`SalesService.SalesHyphenatedPrefixRepeats`).
- Numbering.MonthlySequence: the contract bounds the sequence but does not state its exact value for well-formed numbers. `Numbering.MonthlySuccessor` states it.

## Findings

| source | as written | input that shows it | evidently intended | confidence | as-written member | corrected member |
|---|---|---|---|---|---|---|
| Services/SalesService.cs:25-27 | The next sequence is read from `parts[2]`, the third '-' piece of the last number. | Invoice prefix "HW-INV": after HW-INV-202610-0001 the third piece is "202610", so every later number of the month is HW-INV-202610-202611. | The sequence is read from the last piece, as the retail path does, so that the numbers run 0001, 0002, … whatever the prefix. | not executed | `Numbering.MonthlyAsWrittenRepeats` | `Numbering.MonthlySuccessor` |

The model's sales-service path (`SalesService.InvoiceNumber`) mints numbers
as the code does, so `SalesService.SalesHyphenatedPrefixRepeats` shows the
repeat at the level of committed sales. The corrected
`Numbering.MonthlySequence` is the evidently intended reading.
`Numbering.MonthlyAsWrittenAgrees` shows that both versions agree for prefixes
without '-', such as the default.
