/** The database the sale-commit paths write to, as an immutable state, and
    `DatabaseService.ExecuteTransactionAsync` as a snapshot/apply/restore
    combinator. Persistence failures are a parameter: `fault == Some(k)` makes
    the k-th write call of a transaction throw. */
module Database {
  import opened Wrappers
  import opened Models

  /** Key of table item_store_stock: one row per (item, store). */
  datatype StockKey = StockKey(item: Guid, store: Guid)

  /** A row of table inventory_transactions (the stock ledger). */
  datatype InventoryTransaction = InventoryTransaction(
    itemId: Guid,
    storeId: Guid,
    transactionType: string,
    quantity: real,
    batchNo: Option<string>,
    referenceId: Guid,
    referenceType: string,
    notes: Option<string>,
    createdBy: Option<Guid>)

  /** Tables stores (id to code), item_store_stock, sales_retail,
      sales_retail_items and inventory_transactions; the sequences are in
      creation order. */
  datatype DbState = DbState(
    stores: map<Guid, string>,
    stock: map<StockKey, real>,
    sales: seq<SalesRetail>,
    saleItems: seq<SalesRetailItem>,
    movements: seq<InventoryTransaction>)

  /** The statements the sale-commit paths issue. */
  datatype WriteOp =
    | InsertSale(sale: SalesRetail)
    | InsertSaleItem(line: SalesRetailItem)
    | SetStock(key: StockKey, quantity: real)        // SET quantity_on_hand = @NewQuantity
    | DecrementStock(key: StockKey, amount: real)      // SET quantity_on_hand = quantity_on_hand - @Quantity
    | InsertMovement(movement: InventoryTransaction)

  /** Effect of one statement; an UPDATE whose WHERE matches no row changes nothing. */
  function Apply(st: DbState, op: WriteOp): (r: DbState)
    ensures r.stores == st.stores && r.stock.Keys == st.stock.Keys
  {
    match op
    case InsertSale(h) => st.(sales := st.sales + [h])
    case InsertSaleItem(l) => st.(saleItems := st.saleItems + [l])
    case SetStock(k, q) => if k in st.stock then st.(stock := st.stock[k := q]) else st
    case DecrementStock(k, d) => if k in st.stock then st.(stock := st.stock[k := st.stock[k] - d]) else st
    case InsertMovement(m) => st.(movements := st.movements + [m])
  }

  /** The working state of an open transaction: what it has written so far,
      how many write calls it has made and which call (if any) will throw. */
  datatype Session = Session(state: DbState, calls: nat, fault: Option<nat>)

  /** None of the `n` write calls numbered from `from` is the failing one. */
  predicate FaultFree(fault: Option<nat>, from: nat, n: nat) {
    fault.None? || fault.value < from || from + n <= fault.value
  }

  /** The message of the exception a failing write throws. */
  const DbError := "database error"

  /** One write call inside the transaction: it throws when it is the faulty call. */
  function Write(s: Session, op: WriteOp): (r: Result<Session>)
    ensures r.Success? <==> FaultFree(s.fault, s.calls, 1)
    ensures r.Failure? ==> r.message == DbError
    ensures r.Success? ==> r.value == Session(Apply(s.state, op), s.calls + 1, s.fault)
  {
    if s.fault == Some(s.calls) then Failure(DbError) else Success(Session(Apply(s.state, op), s.calls + 1, s.fault))
  }

  datatype Decision = Committed | RolledBack

  /** What a transaction leaves visible, whether it committed, and what the
      wrapper returns (`Failure` = the exception it rethrows). */
  datatype TxOutcome = TxOutcome(state: DbState, decision: Decision, result: Result<bool>)

  /** `ExecuteTransactionAsync(action)`: runs the action against the state;
      commits exactly when it returns true; rolls back when it returns false
      or throws, rethrowing the exception. */
  function ExecuteTransaction(pre: DbState, action: DbState -> Result<(DbState, bool)>): (r: TxOutcome)
    ensures r.decision == Committed <==> action(pre).Success? && action(pre).value.1
    ensures r.decision == Committed ==> r.state == action(pre).value.0 && r.result == Success(true)
    ensures r.decision == RolledBack ==> r.state == pre
    ensures action(pre).Success? && !action(pre).value.1 ==> r.result == Success(false)
    ensures action(pre).Failure? ==> r.result == Failure(action(pre).message)
  {
    match action(pre)
    case Success((post, true)) => TxOutcome(post, Committed, Success(true))
    case Success((_, false)) => TxOutcome(pre, RolledBack, Success(false))
    case Failure(e) => TxOutcome(pre, RolledBack, Failure(e))
  }

  /** All or nothing: afterwards the visible state is either everything the
      action wrote, with a `true` result, or exactly the state before. */
  lemma TransactionAllOrNothing(pre: DbState, action: DbState -> Result<(DbState, bool)>)
    ensures var r := ExecuteTransaction(pre, action);
      (r.result == Success(true) && r.state == action(pre).value.0) || (r.result != Success(true) && r.state == pre)
  {
  }
}
