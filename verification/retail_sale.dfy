/** `RetailSaleServiceExtended.CreateRetailSaleAsync`: validate the request,
    price the lines, look up the store code, mint the next `{code}-SINV-`
    number, then insert the header, the lines, and for every line whose stock
    row exists a clamped stock update and a ledger movement, all in one
    transaction. The fresh sale id, the clock and the failing write (if any)
    are parameters. */
module RetailSale {
  import opened Wrappers
  import opened Seqs
  import opened Text
  import opened Models
  import opened Database
  import opened Ledger
  import opened Numbering

  /** A requested line as the caller sends it. */
  datatype RetailSaleItemDto = RetailSaleItemDto(
    itemId: Guid,
    quantity: real,
    unitPrice: real,
    discountPercent: Option<real>,
    discountValue: Option<real>,
    batchNo: Option<string>)

  /** A priced line, ready to be inserted. */
  datatype ValidatedLineItem = ValidatedLineItem(
    itemId: Guid,
    quantity: real,
    unitPrice: real,
    discountPercent: real,
    discountValue: real,
    netValue: real,
    batchNo: Option<string>)

  /** The arguments of `CreateRetailSaleAsync`; `items == None` is a null list. */
  datatype RetailSaleRequest = RetailSaleRequest(
    storeId: Guid,
    customerId: Option<Guid>,
    employeeId: Option<Guid>,
    paymentMethod: Option<string>,
    description: Option<string>,
    items: Option<seq<RetailSaleItemDto>>)

  /** The outside world of one call: the clock, the id `Guid.NewGuid()` gives
      the sale, and which write call (if any) throws. */
  datatype Env = Env(clock: Clock, saleId: Guid, fault: Option<nat>)

  /** The returned `(Success, Message, SaleId)` tuple. */
  datatype RetailSaleOutcome = RetailSaleOutcome(success: bool, message: string, saleId: Guid)

  const StoreRequired := "Store ID is required"
  const ItemsRequired := "At least one item is required"
  const ItemInvalid := "All items must have: ItemId, Quantity > 0, UnitPrice > 0"
  const StoreNotFound := "Store not found"
  const Created := "Sale created successfully"

  predicate ValidItem(d: RetailSaleItemDto) {
    d.itemId != EmptyGuid && d.quantity > 0.0 && d.unitPrice > 0.0
  }

  /** The checks made before any database access, in the order the service checks them. */
  function ValidationError(req: RetailSaleRequest): (e: Option<string>)
    ensures e.None? <==> (req.storeId != EmptyGuid && req.items.Some? && |req.items.value| > 0
                          && forall i | 0 <= i < |req.items.value| :: ValidItem(req.items.value[i]))
    ensures req.storeId == EmptyGuid ==> e == Some(StoreRequired)
    ensures req.storeId != EmptyGuid && (req.items.None? || |req.items.value| == 0) ==> e == Some(ItemsRequired)
    ensures e.Some? ==> e.value in {StoreRequired, ItemsRequired, ItemInvalid}
  {
    if req.storeId == EmptyGuid then Some(StoreRequired)
    else if req.items.None? || |req.items.value| == 0 then Some(ItemsRequired)
    else if forall i | 0 <= i < |req.items.value| :: ValidItem(req.items.value[i]) then None
    else Some(ItemInvalid)
  }

  /** Prices one line: the percent defaults to 0, an explicit discount value
      overrides the one derived from the percent, and the net is the gross
      less the discount (no tax on this path). */
  function PriceLine(d: RetailSaleItemDto): (v: ValidatedLineItem)
    ensures v.itemId == d.itemId && v.quantity == d.quantity && v.unitPrice == d.unitPrice && v.batchNo == d.batchNo
    ensures v.discountPercent == d.discountPercent.GetOr(0.0)
    ensures v.netValue + v.discountValue == d.unitPrice * d.quantity
    ensures d.discountValue.Some? ==> v.discountValue == d.discountValue.value
  {
    var discountPercent := d.discountPercent.GetOr(0.0);
    var lineTotal := d.unitPrice * d.quantity;
    var discountValue := if d.discountValue.Some? then d.discountValue.value else lineTotal * discountPercent / 100.0;
    ValidatedLineItem(d.itemId, d.quantity, d.unitPrice, discountPercent, discountValue, lineTotal - discountValue, d.batchNo)
  }

  function PriceLines(ds: seq<RetailSaleItemDto>): (vs: seq<ValidatedLineItem>)
    ensures |vs| == |ds|
    ensures forall i | 0 <= i < |ds| :: vs[i] == PriceLine(ds[i])
  {
    seq(|ds|, i requires 0 <= i < |ds| => PriceLine(ds[i]))
  }

  /** The cart line a request line corresponds to, at tax rate 0. */
  function AsCartItem(d: RetailSaleItemDto): CartItem {
    CartItem(d.itemId, "", "", d.unitPrice, d.quantity, d.discountPercent.GetOr(0.0), 0.0, 0.0)
  }

  /** Without an explicit discount value, a retail line is priced exactly as
      a cart line with the same percent and no tax. */
  lemma PriceLineAgreesWithCartItem(d: RetailSaleItemDto)
    requires d.discountValue.None?
    ensures PriceLine(d).discountValue == AsCartItem(d).DiscountValue()
    ensures PriceLine(d).netValue == AsCartItem(d).NetValue()
  {
  }

  function GrossOfLine(v: ValidatedLineItem): real { v.unitPrice * v.quantity }
  function DiscountOfLine(v: ValidatedLineItem): real { v.discountValue }
  function NetOfLine(v: ValidatedLineItem): real { v.netValue }
  function Zero(v: ValidatedLineItem): real { 0.0 }

  /** The header totals: subtotal and discount summed over the lines, tax 0,
      total = subtotal - discount. */
  function RetailTotals(lines: seq<ValidatedLineItem>): (t: Totals)
    ensures t.subtotal == Sum(lines, GrossOfLine) && t.discount == Sum(lines, DiscountOfLine)
    ensures t.tax == 0.0
    ensures t.total == t.subtotal - t.discount + t.tax
  {
    var subtotal := Sum(lines, GrossOfLine);
    var discount := Sum(lines, DiscountOfLine);
    Totals(subtotal, discount, 0.0, subtotal - discount + 0.0)
  }

  /** The header total is the sum of the line nets. */
  lemma RetailTotalIsSumOfNets(ds: seq<RetailSaleItemDto>)
    ensures RetailTotals(PriceLines(ds)).total == Sum(PriceLines(ds), NetOfLine)
  {
    var lines := PriceLines(ds);
    SumLinear(lines, GrossOfLine, DiscountOfLine, Zero, NetOfLine);
    SumZero(lines, Zero);
  }

  /** With valid lines and discounts between 0 and the gross, nothing in the
      totals is negative and the total never exceeds the subtotal. */
  lemma RetailTotalsBounded(ds: seq<RetailSaleItemDto>)
    requires forall i | 0 <= i < |ds| :: ValidItem(ds[i])
    requires forall i | 0 <= i < |ds| :: 0.0 <= PriceLine(ds[i]).discountValue <= ds[i].unitPrice * ds[i].quantity
    ensures var t := RetailTotals(PriceLines(ds)); 0.0 <= t.total <= t.subtotal
  {
    var lines := PriceLines(ds);
    RetailTotalIsSumOfNets(ds);
    SumNonNegative(lines, NetOfLine);
    SumNonNegative(lines, DiscountOfLine);
  }

  // ------------------------------------------------------------ the writes

  function SaleItemRow(saleId: Guid, v: ValidatedLineItem): SalesRetailItem {
    SalesRetailItem(saleId, v.itemId, v.batchNo, v.quantity, v.unitPrice, v.discountPercent, v.discountValue, 0.0, v.netValue)
  }

  function SaleItemRows(saleId: Guid, lines: seq<ValidatedLineItem>): (rows: seq<SalesRetailItem>)
    ensures |rows| == |lines|
    ensures forall i | 0 <= i < |lines| :: rows[i] == SaleItemRow(saleId, lines[i])
    decreases |lines|
  {
    if |lines| == 0 then [] else [SaleItemRow(saleId, lines[0])] + SaleItemRows(saleId, lines[1..])
  }

  /** One INSERT into sales_retail_items per line, in order. */
  function InsertItems(s: Session, saleId: Guid, lines: seq<ValidatedLineItem>): (r: Result<Session>)
    ensures r.Success? <==> FaultFree(s.fault, s.calls, |lines|)
    ensures r.Failure? ==> r.message == DbError
    ensures r.Success? ==> r.value == Session(s.state.(saleItems := s.state.saleItems + SaleItemRows(saleId, lines)), s.calls + |lines|, s.fault)
    decreases |lines|
  {
    if |lines| == 0 then
      assert s.state.saleItems + [] == s.state.saleItems;
      Success(s)
    else
      var s1 :- Write(s, InsertSaleItem(SaleItemRow(saleId, lines[0])));
      var r := InsertItems(s1, saleId, lines[1..]);
      assert r.Success? ==> r.value.state.saleItems == s.state.saleItems + SaleItemRows(saleId, lines) by {
        assert s.state.saleItems + [SaleItemRow(saleId, lines[0])] + SaleItemRows(saleId, lines[1..])
          == s.state.saleItems + SaleItemRows(saleId, lines);
      }
      r
  }

  function LineItemId(v: ValidatedLineItem): Guid { v.itemId }

  function LineQuantity(v: ValidatedLineItem): real { v.quantity }

  /** The ledger row written for a line: the full requested quantity, negated. */
  function SaleMovement(storeId: Guid, saleId: Guid, invoice: string, employeeId: Option<Guid>, v: ValidatedLineItem): InventoryTransaction {
    InventoryTransaction(v.itemId, storeId, "sale", -v.quantity, v.batchNo, saleId, "sales_retail", Some("Sale: " + invoice), employeeId)
  }

  /** The ledger rows written: one per line whose stock row exists. */
  function SaleMovements(keys: set<StockKey>, storeId: Guid, saleId: Guid, invoice: string, employeeId: Option<Guid>,
                         lines: seq<ValidatedLineItem>): (ms: seq<InventoryTransaction>)
    ensures |ms| <= |lines|
    ensures forall j | 0 <= j < |ms| ::
              ms[j].storeId == storeId && ms[j].transactionType == "sale"
              && ms[j].referenceId == saleId && ms[j].referenceType == "sales_retail"
    ensures forall j | 0 <= j < |ms| :: StockKey(ms[j].itemId, storeId) in keys
    decreases |lines|
  {
    if |lines| == 0 then []
    else
      var rest := SaleMovements(keys, storeId, saleId, invoice, employeeId, lines[1..]);
      if StockKey(lines[0].itemId, storeId) in keys then [SaleMovement(storeId, saleId, invoice, employeeId, lines[0])] + rest else rest
  }

  /** Number of lines whose stock row exists. */
  function Hits(keys: set<StockKey>, storeId: Guid, lines: seq<ValidatedLineItem>): (n: nat)
    ensures n <= |lines|
    decreases |lines|
  {
    if |lines| == 0 then 0
    else (if StockKey(lines[0].itemId, storeId) in keys then 1 else 0) + Hits(keys, storeId, lines[1..])
  }

  /** Per line: read the stock row; when it exists, set it to
      max(0, level - quantity) and write the ledger movement. */
  function DeductStock(s: Session, storeId: Guid, saleId: Guid, invoice: string, employeeId: Option<Guid>,
                       lines: seq<ValidatedLineItem>): (r: Result<Session>)
    ensures r.Success? <==> FaultFree(s.fault, s.calls, 2 * Hits(s.state.stock.Keys, storeId, lines))
    ensures r.Failure? ==> r.message == DbError
    ensures r.Success? ==> r.value.fault == s.fault && r.value.calls == s.calls + 2 * Hits(s.state.stock.Keys, storeId, lines)
    ensures r.Success? ==> r.value.state == s.state.(
      stock := ClampAll(s.state.stock, Requests(storeId, lines, LineItemId, LineQuantity)),
      movements := s.state.movements + SaleMovements(s.state.stock.Keys, storeId, saleId, invoice, employeeId, lines))
    decreases |lines|
  {
    if |lines| == 0 then
      assert s.state.movements + [] == s.state.movements;
      Success(s)
    else
      var v := lines[0];
      var k := StockKey(v.itemId, storeId);
      var keys := s.state.stock.Keys;
      var rest := SaleMovements(keys, storeId, saleId, invoice, employeeId, lines[1..]);
      if k in s.state.stock then
        var s1 :- Write(s, SetStock(k, ClampedDeduct(s.state.stock[k], v.quantity)));
        var m := SaleMovement(storeId, saleId, invoice, employeeId, v);
        var s2 :- Write(s1, InsertMovement(m));
        assert s2.state.stock.Keys == keys;
        var r := DeductStock(s2, storeId, saleId, invoice, employeeId, lines[1..]);
        assert r.Success? ==> r.value.state.movements == s.state.movements + SaleMovements(keys, storeId, saleId, invoice, employeeId, lines) by {
          assert s.state.movements + [m] + rest == s.state.movements + ([m] + rest);
        }
        r
      else
        DeductStock(s, storeId, saleId, invoice, employeeId, lines[1..])
  }

  // ------------------------------------------------------------ the commit

  /** The header row the sale inserts. */
  function Header(req: RetailSaleRequest, env: Env, invoice: string, lines: seq<ValidatedLineItem>): (h: SalesRetail)
    ensures h.id == env.saleId && h.invoiceNumber == invoice && h.storeId == req.storeId
    ensures h.paymentStatus == "paid" && h.paymentMethod == Some(req.paymentMethod.GetOr("cash"))
    ensures h.tax == 0.0 && h.totalAmount == h.subtotal - h.discount && h.isActive
  {
    var t := RetailTotals(lines);
    SalesRetail(env.saleId, invoice, env.clock.now, env.clock.today, req.customerId, req.storeId, req.employeeId,
      Some(req.paymentMethod.GetOr("cash")), "paid", t.subtotal, t.discount, t.tax, t.total, req.description, true)
  }

  /** The store's code, when the store exists and has a non-empty code. */
  function StoreCode(st: DbState, storeId: Guid): (c: Option<string>)
    ensures c.Some? <==> storeId in st.stores && st.stores[storeId] != ""
    ensures c.Some? ==> c.value == st.stores[storeId]
  {
    if storeId in st.stores && st.stores[storeId] != "" then Some(st.stores[storeId]) else None
  }

  /** The number the sale gets in state `st`. */
  function InvoiceFor(st: DbState, code: string): Result<string> {
    NextRetailNumber(code, LastMatching(st.sales, RetailPattern(code)))
  }

  /** The state a full run leaves, for a request that passed every check. */
  function CommittedState(pre: DbState, req: RetailSaleRequest, env: Env, invoice: string): DbState
    requires req.items.Some?
  {
    var lines := PriceLines(req.items.value);
    DbState(
      pre.stores,
      ClampAll(pre.stock, Requests(req.storeId, lines, LineItemId, LineQuantity)),
      pre.sales + [Header(req, env, invoice, lines)],
      pre.saleItems + SaleItemRows(env.saleId, lines),
      pre.movements + SaleMovements(pre.stock.Keys, req.storeId, env.saleId, invoice, req.employeeId, lines))
  }

  /** The number of write calls a full run makes. */
  function WriteCount(pre: DbState, req: RetailSaleRequest): nat
    requires req.items.Some?
  {
    var lines := PriceLines(req.items.value);
    1 + |lines| + 2 * Hits(pre.stock.Keys, req.storeId, lines)
  }

  /** Everything inside the try block, from the first write on. */
  function Writes(pre: DbState, req: RetailSaleRequest, env: Env, invoice: string): (r: Result<Session>)
    requires req.items.Some?
    ensures r.Success? <==> FaultFree(env.fault, 0, WriteCount(pre, req))
    ensures r.Failure? ==> r.message == DbError
    ensures r.Success? ==> r.value.state == CommittedState(pre, req, env, invoice)
  {
    var lines := PriceLines(req.items.value);
    var s0 := Session(pre, 0, env.fault);
    var s1 :- Write(s0, InsertSale(Header(req, env, invoice, lines)));
    var s2 :- InsertItems(s1, env.saleId, lines);
    DeductStock(s2, req.storeId, env.saleId, invoice, req.employeeId, lines)
  }

  /** `CreateRetailSaleAsync`: the state afterwards and the returned tuple. */
  function CreateRetailSale(pre: DbState, req: RetailSaleRequest, env: Env): (r: (DbState, RetailSaleOutcome))
    ensures !r.1.success ==> r.0 == pre && r.1.saleId == EmptyGuid
    ensures r.1.success <==> (ValidationError(req).None? && StoreCode(pre, req.storeId).Some?
                              && InvoiceFor(pre, StoreCode(pre, req.storeId).value).Success?
                              && FaultFree(env.fault, 0, WriteCount(pre, req)))
    ensures r.1.success ==> (r.1 == RetailSaleOutcome(true, Created, env.saleId)
                             && r.0 == CommittedState(pre, req, env, InvoiceFor(pre, StoreCode(pre, req.storeId).value).value))
    ensures ValidationError(req).Some? ==> r.1.message == ValidationError(req).value
    ensures ValidationError(req).None? && StoreCode(pre, req.storeId).None? ==> r.1.message == StoreNotFound
  {
    match ValidationError(req)
    case Some(e) => (pre, RetailSaleOutcome(false, e, EmptyGuid))
    case None =>
      match StoreCode(pre, req.storeId)
      case None => (pre, RetailSaleOutcome(false, StoreNotFound, EmptyGuid))
      case Some(code) =>
        match InvoiceFor(pre, code)
        case Failure(e) => (pre, RetailSaleOutcome(false, e, EmptyGuid))
        case Success(invoice) =>
          match Writes(pre, req, env, invoice)
          case Failure(e) => (pre, RetailSaleOutcome(false, e, EmptyGuid))
          case Success(s) => (s.state, RetailSaleOutcome(true, Created, env.saleId))
  }

  // ------------------------------------------------------------ properties

  /** The ledger rows for one stock row record the full requested deltas
      of the lines on that row, in order, whether or not the level was
      clamped; rows that do not exist get no ledger rows. */
  lemma {:induction false} SaleMovementDeltas(keys: set<StockKey>, storeId: Guid, saleId: Guid, invoice: string,
                                               employeeId: Option<Guid>, lines: seq<ValidatedLineItem>, k: StockKey)
    ensures LedgerDeltas(k, SaleMovements(keys, storeId, saleId, invoice, employeeId, lines))
      == if k in keys then KeyDeltas(k, Requests(storeId, lines, LineItemId, LineQuantity)) else []
    decreases |lines|
  {
    if |lines| > 0 {
      var ms := SaleMovements(keys, storeId, saleId, invoice, employeeId, lines);
      var rest := SaleMovements(keys, storeId, saleId, invoice, employeeId, lines[1..]);
      var reqs := Requests(storeId, lines, LineItemId, LineQuantity);
      SaleMovementDeltas(keys, storeId, saleId, invoice, employeeId, lines[1..], k);
      assert reqs[1..] == Requests(storeId, lines[1..], LineItemId, LineQuantity);
      var j := StockKey(lines[0].itemId, storeId);
      if j in keys {
        var m := SaleMovement(storeId, saleId, invoice, employeeId, lines[0]);
        assert ms == [m] + rest;
        LedgerDeltasAppend(k, [m], rest);
        assert ms[1..] == rest;
      }
    }
  }

  /** A committed retail sale never leaves a negative level on a row it
      touched, and keeps a non-negative stock non-negative. */
  lemma RetailStockNonNegative(pre: DbState, req: RetailSaleRequest, env: Env)
    ensures var (post, out) := CreateRetailSale(pre, req, env);
      out.success ==> forall k | k in pre.stock && k.store == req.storeId && |KeyDeltas(k, Requests(req.storeId, PriceLines(req.items.value), LineItemId, LineQuantity))| > 0 :: post.stock[k] >= 0.0
    ensures var (post, out) := CreateRetailSale(pre, req, env);
      NonNegative(pre.stock) ==> NonNegative(post.stock)
  {
    var (post, out) := CreateRetailSale(pre, req, env);
    if out.success {
      ClampAllNonNegative(pre.stock, Requests(req.storeId, PriceLines(req.items.value), LineItemId, LineQuantity));
    }
  }

  /** Ledger honesty: after a committed sale, every stock row stands where
      replaying the sale's ledger rows for it, clamping at zero after each,
      takes its old level; rows the sale does not mention are unchanged. */
  lemma RetailLedgerHonest(pre: DbState, req: RetailSaleRequest, env: Env, k: StockKey)
    requires k in pre.stock
    ensures var (post, out) := CreateRetailSale(pre, req, env);
      out.success ==> (k in post.stock && |post.movements| >= |pre.movements|
                       && post.stock[k] == ClampFold(pre.stock[k], LedgerDeltas(k, post.movements[|pre.movements|..])))
  {
    var (post, out) := CreateRetailSale(pre, req, env);
    if out.success {
      var lines := PriceLines(req.items.value);
      var invoice := InvoiceFor(pre, StoreCode(pre, req.storeId).value).value;
      var ms := SaleMovements(pre.stock.Keys, req.storeId, env.saleId, invoice, req.employeeId, lines);
      assert post.movements[|pre.movements|..] == ms;
      SaleMovementDeltas(pre.stock.Keys, req.storeId, env.saleId, invoice, req.employeeId, lines, k);
      ClampAllIsClampFold(pre.stock, Requests(req.storeId, lines, LineItemId, LineQuantity), k);
    }
  }

  /** The first retail sale of a store is `{code}-SINV-000001`; after a sale
      numbered n the next committed sale of that store is numbered n + 1 and
      becomes the newest match, so two commits in a row get n + 1 and n + 2. */
  lemma RetailConsecutiveNumbers(pre: DbState, req: RetailSaleRequest, env: Env, code: string, n: int)
    requires StoreCode(pre, req.storeId) == Some(code)
    requires LastMatching(pre.sales, RetailPattern(code)) == Some(RetailNumber(code, n)) && 0 <= n < MaxInt32 - 1
    ensures var (post, out) := CreateRetailSale(pre, req, env);
      out.success ==> (post.sales[|post.sales| - 1].invoiceNumber == RetailNumber(code, n + 1)
                       && InvoiceFor(post, code) == Success(RetailNumber(code, n + 2)))
  {
    var (post, out) := CreateRetailSale(pre, req, env);
    RetailNumberSuccessor(code, n);
    if out.success {
      var lines := PriceLines(req.items.value);
      var h := Header(req, env, RetailNumber(code, n + 1), lines);
      assert post.sales == pre.sales + [h];
      RetailNextAfterAppend(pre.sales, h, code, n);
    }
  }

  /** A store with no earlier retail sale starts at `{code}-SINV-000001`. */
  lemma RetailFirstSale(pre: DbState, req: RetailSaleRequest, env: Env, code: string)
    requires StoreCode(pre, req.storeId) == Some(code)
    requires LastMatching(pre.sales, RetailPattern(code)).None?
    ensures var (post, out) := CreateRetailSale(pre, req, env);
      out.success ==> post.sales[|post.sales| - 1].invoiceNumber == code + "-SINV-000001"
  {
    RetailFirstNumber(code);
  }

  /** Once the request passes its checks and the number is minted, a write
      that throws anywhere in the run, for instance while the lines are
      inserted, rolls everything back and reports the exception. */
  lemma RetailFaultRollsBack(pre: DbState, req: RetailSaleRequest, env: Env, k: nat)
    requires ValidationError(req).None? && StoreCode(pre, req.storeId).Some?
    requires InvoiceFor(pre, StoreCode(pre, req.storeId).value).Success?
    requires env.fault == Some(k) && k < WriteCount(pre, req)
    ensures CreateRetailSale(pre, req, env) == (pre, RetailSaleOutcome(false, DbError, EmptyGuid))
  {
  }
}
