/** The entities of Models/Models.cs: catalogue items, cart lines with their
    derived discount, tax and net values, and the persisted sale header and
    sale line. */
module Models {
  import opened Wrappers
  import opened Seqs

  /** A Guid; `EmptyGuid` is `Guid.Empty`. */
  type Guid = nat

  const EmptyGuid: Guid := 0

  /** What the services read from `DateTime.Now`: the instant, the day (as a
      day number), and the calendar year and month. */
  datatype Clock = Clock(now: int, today: int, year: nat, month: nat)

  /** The culture-dependent renderings the application leaves to .NET and the
      settings: `FormatCurrency`, "N0", "N2", "dd/MM/yyyy HH:mm" and "dd/MM/yyyy". */
  datatype Formats = Formats(
    currency: real -> string,
    n0: real -> string,
    n2: real -> string,
    dateTime: int -> string,
    date: int -> string)

  /** A catalogue item together with its stock at the session's store. */
  datatype Item = Item(
    id: Guid,
    code: string,
    name: string,
    categoryId: Option<Guid>,
    costPrice: real,
    retailPrice: real,
    wholesalePrice: real,
    barcode: string,
    reorderLevel: int,
    taxRate: real,
    stockQuantity: real)

  /** One line of the billing cart. Discount, tax and net are never stored:
      they are derived from price, quantity, discount percent and tax rate. */
  datatype CartItem = CartItem(
    itemId: Guid,
    itemCode: string,
    itemName: string,
    unitPrice: real,
    quantity: real,
    discountPercent: real,
    taxRate: real,
    availableStock: real)
  {
    function Gross(): real {
      unitPrice * quantity
    }

    function DiscountValue(): real {
      unitPrice * quantity * discountPercent / 100.0
    }

    function TaxValue(): real {
      (unitPrice * quantity - DiscountValue()) * taxRate / 100.0
    }

    function NetValue(): real {
      unitPrice * quantity - DiscountValue() + TaxValue()
    }
  }

  function GrossOf(c: CartItem): real { c.Gross() }
  function DiscountOf(c: CartItem): real { c.DiscountValue() }
  function TaxOf(c: CartItem): real { c.TaxValue() }
  function NetOf(c: CartItem): real { c.NetValue() }

  /** Net value is the discounted gross scaled by (1 + rate/100). */
  lemma NetValueFactored(c: CartItem)
    ensures c.NetValue() == (c.Gross() - c.DiscountValue()) * (1.0 + c.taxRate / 100.0)
  {
  }

  /** No discount percent means no discount; no tax rate means no tax and a
      net equal to the discounted gross. */
  lemma ZeroRates(c: CartItem)
    ensures c.discountPercent == 0.0 ==> c.DiscountValue() == 0.0
    ensures c.taxRate == 0.0 ==> c.TaxValue() == 0.0 && c.NetValue() == c.Gross() - c.DiscountValue()
  {
  }

  /** For sane inputs the discount lies within the gross and nothing is negative. */
  lemma PricingBounds(c: CartItem)
    requires c.unitPrice >= 0.0 && c.quantity > 0.0
    requires 0.0 <= c.discountPercent <= 100.0 && c.taxRate >= 0.0
    ensures 0.0 <= c.DiscountValue() <= c.Gross()
    ensures c.TaxValue() >= 0.0
    ensures c.NetValue() >= c.Gross() - c.DiscountValue() >= 0.0
  {
    var g := c.Gross();
    assert g >= 0.0;
    assert c.DiscountValue() == g * (c.discountPercent / 100.0);
    assert 0.0 <= c.discountPercent / 100.0 <= 1.0;
    assert g * (c.discountPercent / 100.0) <= g * 1.0;
    assert c.TaxValue() == (g - c.DiscountValue()) * (c.taxRate / 100.0);
  }

  /** A 100% discount leaves nothing to pay, whatever the tax rate. */
  lemma FullDiscount(c: CartItem)
    requires c.discountPercent == 100.0
    ensures c.DiscountValue() == c.Gross()
    ensures c.TaxValue() == 0.0 && c.NetValue() == 0.0
  {
  }

  /** Subtotal, discount, tax and total of a set of cart lines, as the billing
      panel displays them and the sales service stores them. */
  datatype Totals = Totals(subtotal: real, discount: real, tax: real, total: real)

  function CartTotals(items: seq<CartItem>): (t: Totals)
    ensures t.subtotal == Sum(items, GrossOf)
    ensures t.discount == Sum(items, DiscountOf)
    ensures t.tax == Sum(items, TaxOf)
    ensures t.total == Sum(items, NetOf)
  {
    var subtotal := Sum(items, GrossOf);
    var discount := Sum(items, DiscountOf);
    var tax := Sum(items, TaxOf);
    SumLinear(items, GrossOf, DiscountOf, TaxOf, NetOf);
    Totals(subtotal, discount, tax, subtotal - discount + tax)
  }

  /** The persisted invoice header (table sales_retail). */
  datatype SalesRetail = SalesRetail(
    id: Guid,
    invoiceNumber: string,
    invoiceDate: int,
    saleDate: int,
    customerId: Option<Guid>,
    storeId: Guid,
    employeeId: Option<Guid>,
    paymentMethod: Option<string>,
    paymentStatus: string,
    subtotal: real,
    discount: real,
    tax: real,
    totalAmount: real,
    description: Option<string>,
    isActive: bool)

  /** A persisted invoice line (table sales_retail_items). */
  datatype SalesRetailItem = SalesRetailItem(
    salesRetailId: Guid,
    itemId: Guid,
    batchNo: Option<string>,
    quantity: real,
    unitPrice: real,
    discountPercent: real,
    discountValue: real,
    taxValue: real,
    netValue: real)
}
