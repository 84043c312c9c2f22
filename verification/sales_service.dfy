/** `SalesService.CreateSaleAsync` (the billing panel's path): mint a
    `{prefix}-{yyyyMM}-NNNN` number, stamp and total the sale, then inside
    `ExecuteTransactionAsync` insert the header and, per cart line, a sale
    line, an unclamped stock decrement and a ledger movement. The session
    globals, the clock, the id the database returns and the failing write are
    parameters. */
module SalesService {
  import opened Wrappers
  import opened Seqs
  import opened Text
  import opened Models
  import opened Database
  import opened Ledger
  import opened Numbering

  /** The global session fields the service reads. */
  datatype AppSession = AppSession(invoicePrefix: string, currentStoreId: Option<Guid>, currentUserId: Option<Guid>)

  /** The outside world of one call: the clock, the session, the id that
      `RETURNING id` yields, and which write call (if any) throws. */
  datatype SalesEnv = SalesEnv(clock: Clock, app: AppSession, saleId: Guid, fault: Option<nat>)

  /** The state afterwards and what the call returns: `Success(None)` is a
      null sale, `Failure` an exception that propagates to the caller. */
  datatype SaleCommit = SaleCommit(state: DbState, result: Result<Option<SalesRetail>>)

  /** `GenerateInvoiceNumberAsync`, reading the committed sales. */
  function InvoiceNumber(st: DbState, env: SalesEnv): (n: string)
    ensures MonthlyPattern(env.app.invoicePrefix, env.clock.year, env.clock.month) <= n
  {
    var pattern := MonthlyPattern(env.app.invoicePrefix, env.clock.year, env.clock.month);
    NextMonthlyNumber(env.app.invoicePrefix, env.clock, LastMatching(st.sales, pattern))
  }

  /** The sale as stamped inside the transaction: number, dates, the session's
      store (or `Guid.Empty`) and user, the totals of the cart, and the id the
      insert returns. Customer, payment and description come from the caller. */
  function Stamp(sale: SalesRetail, items: seq<CartItem>, env: SalesEnv, invoice: string): (h: SalesRetail)
    ensures h.id == env.saleId && h.invoiceNumber == invoice
    ensures h.storeId == env.app.currentStoreId.GetOr(EmptyGuid) && h.employeeId == env.app.currentUserId
    ensures h.customerId == sale.customerId && h.paymentMethod == sale.paymentMethod && h.paymentStatus == sale.paymentStatus
    ensures h.subtotal == Sum(items, GrossOf) && h.discount == Sum(items, DiscountOf) && h.tax == Sum(items, TaxOf)
    ensures h.totalAmount == h.subtotal - h.discount + h.tax
  {
    var t := CartTotals(items);
    sale.(id := env.saleId, invoiceNumber := invoice, invoiceDate := env.clock.now, saleDate := env.clock.today,
          storeId := env.app.currentStoreId.GetOr(EmptyGuid), employeeId := env.app.currentUserId,
          subtotal := t.subtotal, discount := t.discount, tax := t.tax, totalAmount := t.subtotal - t.discount + t.tax)
  }

  /** The stored total is the sum of the cart's net values. */
  lemma StampTotalIsSumOfNets(sale: SalesRetail, items: seq<CartItem>, env: SalesEnv, invoice: string)
    ensures Stamp(sale, items, env, invoice).totalAmount == Sum(items, NetOf)
  {
    SumLinear(items, GrossOf, DiscountOf, TaxOf, NetOf);
  }

  function ItemRow(saleId: Guid, c: CartItem): SalesRetailItem {
    SalesRetailItem(saleId, c.itemId, None, c.quantity, c.unitPrice, c.discountPercent, c.DiscountValue(), c.TaxValue(), c.NetValue())
  }

  function ItemMovement(storeId: Guid, saleId: Guid, userId: Option<Guid>, c: CartItem): InventoryTransaction {
    InventoryTransaction(c.itemId, storeId, "sale", -c.quantity, None, saleId, "sales_retail", None, userId)
  }

  function ItemRows(saleId: Guid, items: seq<CartItem>): (rows: seq<SalesRetailItem>)
    ensures |rows| == |items|
    ensures forall i | 0 <= i < |items| :: rows[i] == ItemRow(saleId, items[i])
    decreases |items|
  {
    if |items| == 0 then [] else [ItemRow(saleId, items[0])] + ItemRows(saleId, items[1..])
  }

  function ItemMovements(storeId: Guid, saleId: Guid, userId: Option<Guid>, items: seq<CartItem>): (ms: seq<InventoryTransaction>)
    ensures |ms| == |items|
    ensures forall i | 0 <= i < |items| :: ms[i] == ItemMovement(storeId, saleId, userId, items[i])
    decreases |items|
  {
    if |items| == 0 then [] else [ItemMovement(storeId, saleId, userId, items[0])] + ItemMovements(storeId, saleId, userId, items[1..])
  }

  function CartItemId(c: CartItem): Guid { c.itemId }

  function CartQuantity(c: CartItem): real { c.quantity }

  /** `quantity_on_hand - quantity` on the row, when the row exists. */
  function DecrementedStock(stock: map<StockKey, real>, k: StockKey, q: real): map<StockKey, real> {
    if k in stock then stock[k := stock[k] - q] else stock
  }

  /** The three writes for one cart line. */
  function WriteLine(s: Session, storeId: Guid, saleId: Guid, userId: Option<Guid>, c: CartItem): (r: Result<Session>)
    ensures r.Success? <==> FaultFree(s.fault, s.calls, 3)
    ensures r.Failure? ==> r.message == DbError
    ensures r.Success? ==> r.value == Session(
      s.state.(saleItems := s.state.saleItems + [ItemRow(saleId, c)],
               stock := DecrementedStock(s.state.stock, StockKey(c.itemId, storeId), c.quantity),
               movements := s.state.movements + [ItemMovement(storeId, saleId, userId, c)]),
      s.calls + 3, s.fault)
  {
    var s1 :- Write(s, InsertSaleItem(ItemRow(saleId, c)));
    var s2 :- Write(s1, DecrementStock(StockKey(c.itemId, storeId), c.quantity));
    Write(s2, InsertMovement(ItemMovement(storeId, saleId, userId, c)))
  }

  /** The loop over the cart: per line an INSERT, an UPDATE by `- quantity`
      and a ledger INSERT, whether or not the stock row exists. */
  function WriteItems(s: Session, storeId: Guid, saleId: Guid, userId: Option<Guid>, items: seq<CartItem>): (r: Result<Session>)
    ensures r.Success? <==> FaultFree(s.fault, s.calls, 3 * |items|)
    ensures r.Failure? ==> r.message == DbError
    ensures r.Success? ==> r.value == Session(
      s.state.(saleItems := s.state.saleItems + ItemRows(saleId, items),
               stock := DeductAll(s.state.stock, Requests(storeId, items, CartItemId, CartQuantity)),
               movements := s.state.movements + ItemMovements(storeId, saleId, userId, items)),
      s.calls + 3 * |items|, s.fault)
    decreases |items|
  {
    if |items| == 0 then
      assert s.state.saleItems + [] == s.state.saleItems;
      assert s.state.movements + [] == s.state.movements;
      Success(s)
    else
      var c := items[0];
      var s1 :- WriteLine(s, storeId, saleId, userId, c);
      var r := WriteItems(s1, storeId, saleId, userId, items[1..]);
      WriteItemsStep(s.state, storeId, saleId, userId, items);
      r
  }

  /** How the rows, the ledger rows and the stock of the cart split into the
      first line and the rest. */
  lemma WriteItemsStep(st: DbState, storeId: Guid, saleId: Guid, userId: Option<Guid>, items: seq<CartItem>)
    requires |items| > 0
    ensures st.saleItems + [ItemRow(saleId, items[0])] + ItemRows(saleId, items[1..]) == st.saleItems + ItemRows(saleId, items)
    ensures st.movements + [ItemMovement(storeId, saleId, userId, items[0])] + ItemMovements(storeId, saleId, userId, items[1..])
      == st.movements + ItemMovements(storeId, saleId, userId, items)
    ensures DeductAll(DecrementedStock(st.stock, StockKey(items[0].itemId, storeId), items[0].quantity), Requests(storeId, items[1..], CartItemId, CartQuantity))
      == DeductAll(st.stock, Requests(storeId, items, CartItemId, CartQuantity))
  {
    AppendAssoc(st.saleItems, [ItemRow(saleId, items[0])], ItemRows(saleId, items[1..]));
    AppendAssoc(st.movements, [ItemMovement(storeId, saleId, userId, items[0])], ItemMovements(storeId, saleId, userId, items[1..]));
    DeductStep(st.stock, storeId, items);
  }

  lemma AppendAssoc<T>(a: seq<T>, b: seq<T>, c: seq<T>)
    ensures a + b + c == a + (b + c)
  {
  }

  lemma DeductStep(stock: map<StockKey, real>, storeId: Guid, items: seq<CartItem>)
    requires |items| > 0
    ensures DeductAll(DecrementedStock(stock, StockKey(items[0].itemId, storeId), items[0].quantity), Requests(storeId, items[1..], CartItemId, CartQuantity))
      == DeductAll(stock, Requests(storeId, items, CartItemId, CartQuantity))
  {
    var reqs := Requests(storeId, items, CartItemId, CartQuantity);
    assert reqs[1..] == Requests(storeId, items[1..], CartItemId, CartQuantity);
    assert reqs[0] == Deduction(StockKey(items[0].itemId, storeId), items[0].quantity);
  }

  /** The state a full run leaves. */
  function CommittedState(pre: DbState, sale: SalesRetail, items: seq<CartItem>, env: SalesEnv): DbState {
    var h := Stamp(sale, items, env, InvoiceNumber(pre, env));
    DbState(
      pre.stores,
      DeductAll(pre.stock, Requests(h.storeId, items, CartItemId, CartQuantity)),
      pre.sales + [h],
      pre.saleItems + ItemRows(env.saleId, items),
      pre.movements + ItemMovements(h.storeId, env.saleId, env.app.currentUserId, items))
  }

  /** The lambda handed to `ExecuteTransactionAsync`: it returns true
      unless a write throws. */
  function SaleAction(sale: SalesRetail, items: seq<CartItem>, env: SalesEnv, st: DbState): (r: Result<(DbState, bool)>)
    ensures r.Success? <==> FaultFree(env.fault, 0, 1 + 3 * |items|)
    ensures r.Success? ==> r.value == (CommittedState(st, sale, items, env), true)
    ensures r.Failure? ==> r.message == DbError
  {
    var h := Stamp(sale, items, env, InvoiceNumber(st, env));
    var s1 :- Write(Session(st, 0, env.fault), InsertSale(h));
    var s2 :- WriteItems(s1, h.storeId, env.saleId, env.app.currentUserId, items);
    Success((s2.state, true))
  }

  /** `CreateSaleAsync(sale, items)`. */
  function CreateSale(pre: DbState, sale: SalesRetail, items: seq<CartItem>, env: SalesEnv): (r: SaleCommit)
    ensures |items| == 0 ==> r == SaleCommit(pre, Success(None))
    ensures r.result.Failure? ==> r.state == pre && r.result.message == DbError
    ensures r.result.Success? && r.result.value.None? ==> |items| == 0 && r.state == pre
    ensures r.result.Success? && r.result.value.Some? <==> |items| > 0 && FaultFree(env.fault, 0, 1 + 3 * |items|)
    ensures r.result.Success? && r.result.value.Some? ==>
      r.result.value.value == Stamp(sale, items, env, InvoiceNumber(pre, env)) && r.state == CommittedState(pre, sale, items, env)
  {
    if |items| == 0 then SaleCommit(pre, Success(None))
    else
      var tx := ExecuteTransaction(pre, st => SaleAction(sale, items, env, st));
      var h := Stamp(sale, items, env, InvoiceNumber(pre, env));
      match tx.result
      case Failure(e) => SaleCommit(tx.state, Failure(e))
      case Success(ok) => SaleCommit(tx.state, Success(if ok then Some(h) else None))
  }

  // ------------------------------------------------------------ properties

  /** For a non-empty cart the call never returns null: a write that throws
      makes the whole call throw the database error, with the database as it
      was before. */
  lemma SalesFaultRollsBack(pre: DbState, sale: SalesRetail, items: seq<CartItem>, env: SalesEnv)
    requires |items| > 0 && !FaultFree(env.fault, 0, 1 + 3 * |items|)
    ensures CreateSale(pre, sale, items, env) == SaleCommit(pre, Failure(DbError))
  {
  }

  /** Every cart line's movement is logged against (item, store), whether or
      not that stock row exists: the ledger records each line's -quantity. */
  lemma {:induction false} ItemMovementDeltas(storeId: Guid, saleId: Guid, userId: Option<Guid>, items: seq<CartItem>, k: StockKey)
    ensures LedgerDeltas(k, ItemMovements(storeId, saleId, userId, items)) == KeyDeltas(k, Requests(storeId, items, CartItemId, CartQuantity))
    decreases |items|
  {
    if |items| > 0 {
      var ms := ItemMovements(storeId, saleId, userId, items);
      var reqs := Requests(storeId, items, CartItemId, CartQuantity);
      ItemMovementDeltas(storeId, saleId, userId, items[1..], k);
      assert ms[1..] == ItemMovements(storeId, saleId, userId, items[1..]);
      assert reqs[1..] == Requests(storeId, items[1..], CartItemId, CartQuantity);
    }
  }

  /** Ledger reconciliation: after a committed sale each existing stock row
      has moved by exactly the sum of the ledger rows the sale wrote for it. */
  lemma SalesLedgerReconciles(pre: DbState, sale: SalesRetail, items: seq<CartItem>, env: SalesEnv, k: StockKey)
    requires k in pre.stock
    ensures var r := CreateSale(pre, sale, items, env);
      r.result.Success? && r.result.value.Some? ==>
        (k in r.state.stock && |r.state.movements| >= |pre.movements|
         && r.state.stock[k] == pre.stock[k] + SumReals(LedgerDeltas(k, r.state.movements[|pre.movements|..])))
  {
    var r := CreateSale(pre, sale, items, env);
    if r.result.Success? && r.result.value.Some? {
      var storeId := env.app.currentStoreId.GetOr(EmptyGuid);
      var ms := ItemMovements(storeId, env.saleId, env.app.currentUserId, items);
      assert r.state.movements[|pre.movements|..] == ms;
      ItemMovementDeltas(storeId, env.saleId, env.app.currentUserId, items, k);
      DeductAllIsSum(pre.stock, Requests(storeId, items, CartItemId, CartQuantity), k);
    }
  }

  /** A cart line whose stock row does not exist still gets a ledger row,
      while no stock row appears: the ledger and the stock table disagree. */
  lemma SalesLedgerWithoutStockRow(pre: DbState, sale: SalesRetail, items: seq<CartItem>, env: SalesEnv, i: nat)
    requires i < |items| && env.fault.None?
    requires StockKey(items[i].itemId, env.app.currentStoreId.GetOr(EmptyGuid)) !in pre.stock
    ensures var r := CreateSale(pre, sale, items, env);
      var k := StockKey(items[i].itemId, env.app.currentStoreId.GetOr(EmptyGuid));
      k !in r.state.stock && |r.state.movements| == |pre.movements| + |items|
        && r.state.movements[|pre.movements| + i] == ItemMovement(k.store, env.saleId, env.app.currentUserId, items[i])
  {
    assert FaultFree(env.fault, 0, 1 + 3 * |items|);
    CommittedMovements(pre, sale, items, env, i);
  }

  lemma CommittedMovements(pre: DbState, sale: SalesRetail, items: seq<CartItem>, env: SalesEnv, i: nat)
    requires i < |items|
    ensures var post := CommittedState(pre, sale, items, env);
      post.stock.Keys == pre.stock.Keys && |post.movements| == |pre.movements| + |items|
      && post.movements[|pre.movements| + i] == ItemMovement(env.app.currentStoreId.GetOr(EmptyGuid), env.saleId, env.app.currentUserId, items[i])
  {
    var storeId := env.app.currentStoreId.GetOr(EmptyGuid);
    var h := Stamp(sale, items, env, InvoiceNumber(pre, env));
    assert h.storeId == storeId;
    var ms := ItemMovements(storeId, env.saleId, env.app.currentUserId, items);
    var post := CommittedState(pre, sale, items, env);
    assert post.stock == DeductAll(pre.stock, Requests(storeId, items, CartItemId, CartQuantity));
    assert post.movements == pre.movements + ms;
    assert post.movements[|pre.movements| + i] == ms[i];
  }

  /** Unlike the retail path, this one does not clamp: selling 5 of an item
      with 2 in stock leaves -3. */
  lemma SalesStockCanGoNegative(pre: DbState, sale: SalesRetail, c: CartItem, env: SalesEnv)
    requires env.fault.None? && c.quantity == 5.0
    requires pre.stock == map[StockKey(c.itemId, env.app.currentStoreId.GetOr(EmptyGuid)) := 2.0]
    ensures CreateSale(pre, sale, [c], env).state.stock[StockKey(c.itemId, env.app.currentStoreId.GetOr(EmptyGuid))] == -3.0
  {
    var k := StockKey(c.itemId, env.app.currentStoreId.GetOr(EmptyGuid));
    var reqs := Requests(env.app.currentStoreId.GetOr(EmptyGuid), [c], CartItemId, CartQuantity);
    assert reqs == [Deduction(k, 5.0)];
    DeductAllCanGoNegative(k);
  }

  /** For a prefix without '-', as the default "INV", the month's numbers run
      0001, 0002, ...: after a committed sale numbered n the next sale of the
      month gets n + 1. */
  lemma SalesConsecutiveNumbers(pre: DbState, sale: SalesRetail, items: seq<CartItem>, env: SalesEnv, n: int)
    requires '-' !in env.app.invoicePrefix
    requires LastMatching(pre.sales, MonthlyPattern(env.app.invoicePrefix, env.clock.year, env.clock.month))
      == Some(MonthlyNumber(env.app.invoicePrefix, env.clock.year, env.clock.month, n))
    requires 0 <= n < MaxInt32 - 1
    ensures var r := CreateSale(pre, sale, items, env);
      r.result.Success? && r.result.value.Some? ==>
        (r.result.value.value.invoiceNumber == MonthlyNumber(env.app.invoicePrefix, env.clock.year, env.clock.month, n + 1)
         && InvoiceNumber(r.state, env) == MonthlyNumber(env.app.invoicePrefix, env.clock.year, env.clock.month, n + 2))
  {
    var r := CreateSale(pre, sale, items, env);
    var prefix, y, m := env.app.invoicePrefix, env.clock.year, env.clock.month;
    MonthlyAsWrittenAgrees(prefix, y, m, n);
    if r.result.Success? && r.result.value.Some? {
      var h := r.result.value.value;
      assert r.state.sales == pre.sales + [h];
      LastMatchingAppend(pre.sales, h, MonthlyPattern(prefix, y, m));
      MonthlyNumberHasPattern(prefix, y, m, n + 1);
      MonthlyAsWrittenAgrees(prefix, y, m, n + 1);
    }
  }

  /** With a prefix containing one '-', as "HW-INV", the month's numbers do
      not advance: once a sale numbered yyyyMM + 1 is committed, the next
      sale of the month is minted the very same number. */
  lemma SalesHyphenatedPrefixRepeats(pre: DbState, sale: SalesRetail, items: seq<CartItem>, env: SalesEnv, a: string, b: string, n: int)
    requires env.app.invoicePrefix == a + "-" + b && '-' !in a && '-' !in b
    requires env.clock.month < 100 && env.clock.year * 100 + env.clock.month < MaxInt32
    requires 0 <= n
    requires LastMatching(pre.sales, MonthlyPattern(env.app.invoicePrefix, env.clock.year, env.clock.month))
      == Some(MonthlyNumber(env.app.invoicePrefix, env.clock.year, env.clock.month, n))
    ensures var r := CreateSale(pre, sale, items, env);
      var repeated := MonthlyNumber(env.app.invoicePrefix, env.clock.year, env.clock.month, env.clock.year * 100 + env.clock.month + 1);
      r.result.Success? && r.result.value.Some? ==>
        (r.result.value.value.invoiceNumber == repeated && InvoiceNumber(r.state, env) == repeated)
  {
    var r := CreateSale(pre, sale, items, env);
    var prefix, y, m := env.app.invoicePrefix, env.clock.year, env.clock.month;
    var k := y * 100 + m + 1;
    MonthlyAsWrittenReadsMonth(a, b, y, m, n);
    if r.result.Success? && r.result.value.Some? {
      var h := r.result.value.value;
      assert r.state.sales == pre.sales + [h];
      LastMatchingAppend(pre.sales, h, MonthlyPattern(prefix, y, m));
      MonthlyNumberHasPattern(prefix, y, m, k);
      MonthlyAsWrittenReadsMonth(a, b, y, m, k);
    }
  }
}
