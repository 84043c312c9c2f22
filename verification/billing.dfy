/** The billing panel's cart: adding a scanned or selected item (merging
    lines of the same item), removing a line, the displayed totals, and
    completing the sale through the sales service. Parsed text-box contents,
    the item lookup, the confirmation answer and the selected payment method
    are parameters. */
module Billing {
  import opened Wrappers
  import opened Seqs
  import opened Text
  import opened Models
  import opened Database
  import SalesService
  import Printer

  /** The message box an action ends with, if any. */
  datatype Notice = Silent | ShowError(text: string) | ShowInfo(text: string)

  /** No two lines of the cart are for the same item. */
  predicate UniqueIds(cart: seq<CartItem>) {
    forall i, j | 0 <= i < j < |cart| :: cart[i].itemId != cart[j].itemId
  }

  /** `cart.FirstOrDefault(c => c.ItemId == id)`, as an index. */
  function IndexOf(cart: seq<CartItem>, id: Guid): (r: Option<nat>)
    ensures r.Some? ==> r.value < |cart| && cart[r.value].itemId == id
    ensures r.Some? ==> forall j | 0 <= j < r.value :: cart[j].itemId != id
    ensures r.None? <==> forall j | 0 <= j < |cart| :: cart[j].itemId != id
    decreases |cart|
  {
    if |cart| == 0 then None
    else if cart[0].itemId == id then Some(0)
    else
      match IndexOf(cart[1..], id)
      case None => None
      case Some(k) => Some(k + 1)
  }

  /** The line a new item starts: its retail price, tax rate and stock, no discount. */
  function NewLine(item: Item, qty: real): (c: CartItem)
    ensures c.itemId == item.id && c.quantity == qty && c.unitPrice == item.retailPrice
    ensures c.taxRate == item.taxRate && c.discountPercent == 0.0 && c.availableStock == item.stockQuantity
  {
    CartItem(item.id, item.code, item.name, item.retailPrice, qty, 0.0, item.taxRate, item.stockQuantity)
  }

  /** Adds `qty` of `item`: to the existing line of that item, or as a new last line. */
  function Merge(cart: seq<CartItem>, item: Item, qty: real): (r: seq<CartItem>)
    ensures IndexOf(cart, item.id).Some? ==> |r| == |cart|
    ensures IndexOf(cart, item.id).None? ==> |r| == |cart| + 1 && r[..|cart|] == cart && r[|cart|] == NewLine(item, qty)
    ensures forall i | 0 <= i < |cart| :: r[i].itemId == cart[i].itemId
  {
    match IndexOf(cart, item.id)
    case Some(k) => cart[k := cart[k].(quantity := cart[k].quantity + qty)]
    case None => cart + [NewLine(item, qty)]
  }

  /** Total quantity of an item over all lines of the cart. */
  function QuantityOf(cart: seq<CartItem>, id: Guid): real
    decreases |cart|
  {
    if |cart| == 0 then 0.0 else (if cart[0].itemId == id then cart[0].quantity else 0.0) + QuantityOf(cart[1..], id)
  }

  lemma {:induction false} QuantityOfUpdate(cart: seq<CartItem>, k: nat, delta: real, id: Guid)
    requires k < |cart|
    ensures QuantityOf(cart[k := cart[k].(quantity := cart[k].quantity + delta)], id)
      == QuantityOf(cart, id) + (if cart[k].itemId == id then delta else 0.0)
    decreases |cart|
  {
    var c := cart[k := cart[k].(quantity := cart[k].quantity + delta)];
    if k > 0 {
      assert c[1..] == cart[1..][k - 1 := cart[1..][k - 1].(quantity := cart[1..][k - 1].quantity + delta)];
      QuantityOfUpdate(cart[1..], k - 1, delta, id);
    } else {
      assert c[1..] == cart[1..];
    }
  }

  lemma {:induction false} QuantityOfAppend(cart: seq<CartItem>, c: CartItem, id: Guid)
    ensures QuantityOf(cart + [c], id) == QuantityOf(cart, id) + (if c.itemId == id then c.quantity else 0.0)
    decreases |cart|
  {
    if |cart| == 0 {
      assert (cart + [c])[1..] == [];
    } else {
      assert (cart + [c])[1..] == cart[1..] + [c];
      QuantityOfAppend(cart[1..], c, id);
    }
  }

  /** Adding raises the item's total quantity by `qty` and leaves every other
      item's quantity alone; a cart with one line per item keeps that shape. */
  lemma MergeQuantities(cart: seq<CartItem>, item: Item, qty: real, id: Guid)
    ensures QuantityOf(Merge(cart, item, qty), id) == QuantityOf(cart, id) + (if id == item.id then qty else 0.0)
    ensures UniqueIds(cart) ==> UniqueIds(Merge(cart, item, qty))
  {
    match IndexOf(cart, item.id)
    case Some(k) => QuantityOfUpdate(cart, k, qty, id);
    case None => QuantityOfAppend(cart, NewLine(item, qty), id);
  }

  /** Adding changes the displayed subtotal by qty times the price of the
      line that received it (the existing line's price, or the item's). */
  lemma MergeSubtotal(cart: seq<CartItem>, item: Item, qty: real)
    ensures IndexOf(cart, item.id).Some? ==>
      Sum(Merge(cart, item, qty), GrossOf) == Sum(cart, GrossOf) + cart[IndexOf(cart, item.id).value].unitPrice * qty
    ensures IndexOf(cart, item.id).None? ==>
      Sum(Merge(cart, item, qty), GrossOf) == Sum(cart, GrossOf) + item.retailPrice * qty
  {
    var m := Merge(cart, item, qty);
    var ix := IndexOf(cart, item.id);
    if ix.Some? {
      var k := ix.value;
      assert m == cart[k := cart[k].(quantity := cart[k].quantity + qty)];
      RaiseSubtotal(cart, k, qty);
    } else {
      assert m == cart + [NewLine(item, qty)];
      AppendSubtotal(cart, NewLine(item, qty));
    }
  }

  lemma RaiseSubtotal(cart: seq<CartItem>, k: nat, qty: real)
    requires k < |cart|
    ensures Sum(cart[k := cart[k].(quantity := cart[k].quantity + qty)], GrossOf)
      == Sum(cart, GrossOf) + cart[k].unitPrice * qty
  {
    SumUpdate(cart, k, cart[k].(quantity := cart[k].quantity + qty), GrossOf);
    GrossGrows(cart[k].unitPrice, cart[k].quantity, qty);
  }

  lemma AppendSubtotal(cart: seq<CartItem>, c: CartItem)
    ensures Sum(cart + [c], GrossOf) == Sum(cart, GrossOf) + c.unitPrice * c.quantity
  {
    SumAppend(cart, [c], GrossOf);
    SumSingle(c, GrossOf);
  }

  lemma GrossGrows(p: real, q: real, d: real)
    ensures p * (q + d) == p * q + p * d
  {
  }

  /** `AddItemToCart(item)`: `barcode` is the code box's text, `selected` the
      item picked from the search list, `qty` the parsed quantity box, and
      `lookup` the catalogue query by code (which may throw). */
  function AddItemToCart(cart: seq<CartItem>, barcode: string, selected: Option<Item>, qty: Option<real>,
                         lookup: string -> Result<Option<Item>>): (r: (seq<CartItem>, Notice))
    ensures Trim(barcode) == "" && selected.None? ==> r == (cart, Silent)
    ensures (Trim(barcode) != "" || selected.Some?) && (qty.None? || qty.value <= 0.0) ==> r == (cart, ShowError("Invalid quantity"))
    ensures r.0 != cart ==> qty.Some? && qty.value > 0.0
    ensures r.0 == cart || r.1 == Silent
    ensures selected.Some? && qty.Some? && qty.value > 0.0 ==> r == (Merge(cart, selected.value, qty.value), Silent)
    ensures selected.None? && Trim(barcode) != "" && qty.Some? && qty.value > 0.0 ==>
      r == match lookup(Trim(barcode))
           case Failure(e) => (cart, ShowError("Error: " + e))
           case Success(None) => (cart, ShowError("Item not found: " + Trim(barcode)))
           case Success(Some(item)) => (Merge(cart, item, qty.value), Silent)
  {
    var code := Trim(barcode);
    if code == "" && selected.None? then (cart, Silent)
    else if qty.None? || qty.value <= 0.0 then (cart, ShowError("Invalid quantity"))
    else
      var found: Result<Option<Item>> := if selected.Some? then Success(selected) else lookup(code);
      match found
      case Failure(e) => (cart, ShowError("Error: " + e))
      case Success(None) => (cart, ShowError("Item not found: " + code))
      case Success(Some(item)) => (Merge(cart, item, qty.value), Silent)
  }

  /** A scanned code of Unicode spaces only, with nothing picked, trims to
      nothing: the cart is kept and nothing is shown. */
  lemma UnicodeSpaceCodeIgnored(cart: seq<CartItem>, qty: Option<real>, lookup: string -> Result<Option<Item>>)
    ensures AddItemToCart(cart, "\U{2003}\U{00A0}\U{205F}", None, qty, lookup) == (cart, Silent)
  {
    var s := "\U{2003}\U{00A0}\U{205F}";
    assert IsWhite(s[0]) && IsWhite(s[1]) && IsWhite(s[2]);
    BlankIffTrimEmpty(s);
  }

  /** Whatever is scanned or picked, the cart keeps at most one line per item. */
  lemma AddKeepsUniqueIds(cart: seq<CartItem>, barcode: string, selected: Option<Item>, qty: Option<real>,
                          lookup: string -> Result<Option<Item>>)
    requires UniqueIds(cart)
    ensures UniqueIds(AddItemToCart(cart, barcode, selected, qty, lookup).0)
  {
    var code := Trim(barcode);
    if (code != "" || selected.Some?) && qty.Some? && qty.value > 0.0 {
      var found: Result<Option<Item>> := if selected.Some? then Success(selected) else lookup(code);
      if found.Success? && found.value.Some? {
        MergeQuantities(cart, found.value.value, qty.value, found.value.value.id);
      }
    }
  }

  /** `RemoveItem(index)`. */
  function RemoveItem(cart: seq<CartItem>, index: int): (r: seq<CartItem>)
    ensures 0 <= index < |cart| ==> (|r| == |cart| - 1
                                     && (forall j | 0 <= j < index :: r[j] == cart[j])
                                     && (forall j | index <= j < |r| :: r[j] == cart[j + 1]))
    ensures !(0 <= index < |cart|) ==> r == cart
  {
    if 0 <= index < |cart| then cart[..index] + cart[index + 1..] else cart
  }

  /** Removing a line takes exactly its values off every displayed total, and
      a cart with one line per item keeps that shape. */
  lemma RemoveTotals(cart: seq<CartItem>, index: int)
    requires 0 <= index < |cart|
    ensures var t, t' := CartTotals(cart), CartTotals(RemoveItem(cart, index));
      t'.subtotal == t.subtotal - cart[index].Gross() && t'.discount == t.discount - cart[index].DiscountValue()
      && t'.tax == t.tax - cart[index].TaxValue() && t'.total == t.total - cart[index].NetValue()
    ensures UniqueIds(cart) ==> UniqueIds(RemoveItem(cart, index))
  {
    var a, b := cart[..index], cart[index + 1..];
    assert cart == a + [cart[index]] + b;
    assert RemoveItem(cart, index) == a + b;
    SumSplit(a, cart[index], b, GrossOf);
    SumSplit(a, cart[index], b, DiscountOf);
    SumSplit(a, cart[index], b, TaxOf);
    SumSplit(a, cart[index], b, NetOf);
  }

  lemma SumSplit(a: seq<CartItem>, x: CartItem, b: seq<CartItem>, f: CartItem -> real)
    ensures Sum(a + [x] + b, f) == Sum(a + b, f) + f(x)
  {
    SumAppend(a + [x], b, f);
    SumAppend(a, [x], f);
    SumSingle(x, f);
    SumAppend(a, b, f);
  }

  // ------------------------------------------------------------ complete

  /** "unpaid" exactly for the Credit method. */
  function PaymentStatusFor(payment: string): (s: string)
    ensures s == "unpaid" <==> payment == "Credit"
    ensures s == "paid" <==> payment != "Credit"
  {
    if payment == "Credit" then "unpaid" else "paid"
  }

  /** The new, otherwise default, sale object the panel submits. */
  function NewSale(customerId: Option<Guid>, payment: string): (s: SalesRetail)
    ensures s.customerId == customerId && s.paymentMethod == Some(payment) && s.paymentStatus == PaymentStatusFor(payment)
  {
    SalesRetail(EmptyGuid, "", 0, 0, customerId, EmptyGuid, None, Some(payment), PaymentStatusFor(payment),
      0.0, 0.0, 0.0, 0.0, None, true)
  }

  /** What completing leaves: the database, the cart, the message boxes shown
      in order, and the receipt print outcome, if one was attempted. */
  datatype CompleteResult = CompleteResult(state: DbState, cart: seq<CartItem>, notices: seq<Notice>,
                                           receipt: Option<Printer.PrintOutcome>)

  /** The message shown once the sale is stored. */
  function CompletedNotice(sale: SalesRetail, formats: Formats): Notice {
    ShowInfo("Sale completed!\n\nInvoice: " + sale.invoiceNumber + "\nTotal: " + formats.currency(sale.totalAmount))
  }

  /** `BtnComplete_Click`: `confirmed` is the answer to the confirmation box,
      `payment` the selected method (None: nothing selected). After a commit,
      when the printer is enabled and `autoPrint` is set, the sale is read
      back: `lookup` is what `GetSaleByIdAsync` returns or throws, and
      `jobCompletes` whether the print job returns. A throwing lookup lands
      in the same catch as a failed sale, so the cart is kept although the
      sale is stored. */
  function Complete(pre: DbState, cart: seq<CartItem>, confirmed: bool, customerId: Option<Guid>, payment: Option<string>,
                    env: SalesService.SalesEnv, formats: Formats,
                    autoPrint: bool, settings: Printer.PrinterSettings, lookup: Result<Option<Printer.ReceiptSale>>,
                    jobCompletes: bool): (r: CompleteResult)
    ensures |cart| == 0 ==> r == CompleteResult(pre, cart, [ShowError("Cart is empty")], None)
    ensures |cart| > 0 && !confirmed ==> r == CompleteResult(pre, cart, [], None)
    ensures r.cart == cart || r.cart == []
    ensures r.state != pre && r.cart == cart ==> settings.enabled && autoPrint && lookup.Failure?
    ensures r.receipt.Some? ==>
      settings.enabled && autoPrint && lookup.Success? && lookup.value.Some?
      && r.receipt.value == Printer.PrintReceipt(lookup.value.value, settings, formats, jobCompletes)
  {
    if |cart| == 0 then CompleteResult(pre, cart, [ShowError("Cart is empty")], None)
    else if !confirmed then CompleteResult(pre, cart, [], None)
    else
      var pm := payment.GetOr("Cash");
      var c := SalesService.CreateSale(pre, NewSale(customerId, pm), cart, env);
      match c.result
      case Failure(e) => CompleteResult(c.state, cart, [ShowError("Error: " + e)], None)
      case Success(None) => CompleteResult(c.state, cart, [ShowError("Failed to complete sale")], None)
      case Success(Some(sale)) =>
        var info := CompletedNotice(sale, formats);
        if !(settings.enabled && autoPrint) then CompleteResult(c.state, [], [info], None)
        else
          match lookup
          case Failure(e) => CompleteResult(c.state, cart, [info, ShowError("Error: " + e)], None)
          case Success(None) => CompleteResult(c.state, [], [info], None)
          case Success(Some(full)) =>
            CompleteResult(c.state, [], [info], Some(Printer.PrintReceipt(full, settings, formats, jobCompletes)))
  }

  /** A committed sale as the panel leaves it: one sale appended, "unpaid"
      exactly when the method is Credit, and announced first; the cart is then
      cleared unless the auto-print lookup throws, in which case its error
      follows the announcement and the cart stays; a receipt is printed
      exactly when auto-printing finds the sale. */
  predicate SaleCommitted(pre: DbState, cart: seq<CartItem>, payment: Option<string>, formats: Formats, printing: bool,
                          lookup: Result<Option<Printer.ReceiptSale>>, r: CompleteResult)
  {
    && r.state == pre.(sales := r.state.sales, stock := r.state.stock, saleItems := r.state.saleItems, movements := r.state.movements)
    && |r.state.sales| == |pre.sales| + 1
    && (r.state.sales[|pre.sales|].paymentStatus == "unpaid" <==> payment.GetOr("Cash") == "Credit")
    && |r.notices| > 0 && r.notices[0] == CompletedNotice(r.state.sales[|pre.sales|], formats)
    && (printing && lookup.Failure? ==> r.cart == cart && r.notices[1..] == [ShowError("Error: " + lookup.message)])
    && (!(printing && lookup.Failure?) ==> r.cart == [] && |r.notices| == 1)
    && (r.receipt.Some? <==> printing && lookup.Success? && lookup.value.Some?)
  }

  /** A failed sale as the panel leaves it: cart and database as before, and
      the database error shown. */
  predicate SaleRolledBack(pre: DbState, cart: seq<CartItem>, r: CompleteResult) {
    r.cart == cart && r.state == pre && r.notices == [ShowError("Error: " + DbError)] && r.receipt.None?
  }

  /** A confirmed, non-empty cart is either committed or rolled back, and the
      panel's "Failed to complete sale" branch cannot be reached. */
  lemma CompleteOutcome(pre: DbState, cart: seq<CartItem>, customerId: Option<Guid>, payment: Option<string>,
                        env: SalesService.SalesEnv, formats: Formats,
                        autoPrint: bool, settings: Printer.PrinterSettings, lookup: Result<Option<Printer.ReceiptSale>>,
                        jobCompletes: bool)
    requires |cart| > 0
    ensures var r := Complete(pre, cart, true, customerId, payment, env, formats, autoPrint, settings, lookup, jobCompletes);
      SaleCommitted(pre, cart, payment, formats, settings.enabled && autoPrint, lookup, r) || SaleRolledBack(pre, cart, r)
    ensures ShowError("Failed to complete sale")
      !in Complete(pre, cart, true, customerId, payment, env, formats, autoPrint, settings, lookup, jobCompletes).notices
  {
    var r := Complete(pre, cart, true, customerId, payment, env, formats, autoPrint, settings, lookup, jobCompletes);
    if FaultFree(env.fault, 0, 1 + 3 * |cart|) {
      CompleteCommitted(pre, cart, customerId, payment, env, formats, autoPrint, settings, lookup, jobCompletes);
      if settings.enabled && autoPrint && lookup.Failure? {
        NotFailedToComplete(lookup.message);
        assert r.notices == [r.notices[0]] + r.notices[1..];
      } else {
        assert r.notices == [r.notices[0]];
      }
    } else {
      CompleteRolledBack(pre, cart, customerId, payment, env, formats, autoPrint, settings, lookup, jobCompletes);
      NotFailedToComplete(DbError);
    }
  }

  lemma CompleteCommitted(pre: DbState, cart: seq<CartItem>, customerId: Option<Guid>, payment: Option<string>,
                          env: SalesService.SalesEnv, formats: Formats,
                          autoPrint: bool, settings: Printer.PrinterSettings, lookup: Result<Option<Printer.ReceiptSale>>,
                          jobCompletes: bool)
    requires |cart| > 0 && FaultFree(env.fault, 0, 1 + 3 * |cart|)
    ensures SaleCommitted(pre, cart, payment, formats, settings.enabled && autoPrint, lookup,
                          Complete(pre, cart, true, customerId, payment, env, formats, autoPrint, settings, lookup, jobCompletes))
  {
    var pm := payment.GetOr("Cash");
    var c := SalesService.CreateSale(pre, NewSale(customerId, pm), cart, env);
    var r := Complete(pre, cart, true, customerId, payment, env, formats, autoPrint, settings, lookup, jobCompletes);
    var sale := c.result.value.value;
    assert c.state == SalesService.CommittedState(pre, NewSale(customerId, pm), cart, env);
    assert c.state.sales == pre.sales + [sale];
    assert r.state == c.state && r.notices[0] == CompletedNotice(sale, formats);
  }

  lemma CompleteRolledBack(pre: DbState, cart: seq<CartItem>, customerId: Option<Guid>, payment: Option<string>,
                           env: SalesService.SalesEnv, formats: Formats,
                           autoPrint: bool, settings: Printer.PrinterSettings, lookup: Result<Option<Printer.ReceiptSale>>,
                           jobCompletes: bool)
    requires |cart| > 0 && !FaultFree(env.fault, 0, 1 + 3 * |cart|)
    ensures SaleRolledBack(pre, cart,
                           Complete(pre, cart, true, customerId, payment, env, formats, autoPrint, settings, lookup, jobCompletes))
  {
  }

  /** An "Error: ..." box is never the "Failed to complete sale" box. */
  lemma NotFailedToComplete(e: string)
    ensures ShowError("Error: " + e) != ShowError("Failed to complete sale")
  {
    assert ("Error: " + e)[0] == 'E' != "Failed to complete sale"[0];
  }
}
