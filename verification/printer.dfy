/** The receipt printer's text layout: centring, the fixed-width item and
    total lines, the lines of a whole receipt, and the guard of
    `PrintReceipt`. The settings, the amount and date renderings and the
    outcome of the print job are parameters. A .NET call that throws
    (`new string(c, n)` or `PadRight` with a negative width) is a `Failure`. */
module Printer {
  import opened Wrappers
  import opened Text
  import opened Models

  /** A sold line as the receipt shows it. */
  datatype ReceiptItem = ReceiptItem(itemName: Option<string>, quantity: real, unitPrice: real, netValue: real)

  /** A sale with the employee name and lines the receipt reads. */
  datatype ReceiptSale = ReceiptSale(sale: SalesRetail, employeeName: Option<string>, items: seq<ReceiptItem>)

  /** The application settings the printer reads. */
  datatype PrinterSettings = PrinterSettings(receiptWidth: int, storeName: string, currentUserName: Option<string>,
                                             enabled: bool, printerName: string)

  /** Stand-in for the text of the ArgumentOutOfRangeException that
      `new string(c, n)` and `PadRight` throw. */
  const OutOfRange := "argument out of range"

  const QtyWidth: nat := 5
  const PriceWidth: nat := 10
  const TotalWidth: nat := 10

  /** The width a line needs besides its item column: three figure columns
      and three separating spaces. */
  const FigureColumns: nat := QtyWidth + PriceWidth + TotalWidth + 3

  /** `new string(c, width)`. */
  function Rule(c: char, width: int): (r: Result<string>)
    ensures r.Success? <==> width >= 0
    ensures r.Success? ==> |r.value| == width && forall i | 0 <= i < width :: r.value[i] == c
  {
    if width < 0 then Failure(OutOfRange) else Success(Repeat(c, width))
  }

  /** `CenterText`: a text as wide as the line or wider is returned as it is;
      otherwise it sits between runs of spaces, the left one half the slack
      rounded down, and the line is exactly `width` wide. */
  function CenterText(text: string, width: int): (r: string)
    ensures |text| >= width ==> r == text
    ensures |text| < width ==>
      var left := (width - |text|) / 2;
      |r| == width && r[left..left + |text|] == text
      && (forall i | 0 <= i < left :: r[i] == ' ')
      && (forall i | left + |text| <= i < width :: r[i] == ' ')
      && left <= width - |text| - left <= left + 1
  {
    if |text| >= width then text
    else
      var padding := (width - |text|) / 2;
      PadRight(PadLeft(text, padding + |text|, ' '), width, ' ')
  }

  /** `FormatItemLine`: the item column left-aligned in what the three figure
      columns leave of the width, then quantity, price and total
      right-aligned in 5, 10 and 10 characters, separated by spaces. A width
      below 28 makes the item column negative and `PadRight` throw. */
  function FormatItemLine(item: string, qty: string, price: string, total: string, width: int): (r: Result<string>)
    ensures r.Success? <==> width >= FigureColumns
    ensures r.Success? && |item| <= width - FigureColumns && |qty| <= QtyWidth && |price| <= PriceWidth
            && |total| <= TotalWidth ==>
      |r.value| == width
      && r.value[..|item|] == item
      && (forall i | |item| <= i < width - FigureColumns :: r.value[i] == ' ')
      && r.value[width - 28] == ' ' && r.value[width - 22] == ' ' && r.value[width - 11] == ' '
      && r.value[width - 22 - |qty|..width - 22] == qty
      && r.value[width - 11 - |price|..width - 11] == price
      && r.value[width - |total|..] == total
  {
    var itemWidth := width - QtyWidth - PriceWidth - TotalWidth - 3;
    if itemWidth < 0 then Failure(OutOfRange)
    else
      var a, b, c, d := PadRight(item, itemWidth, ' '), PadLeft(qty, QtyWidth, ' '), PadLeft(price, PriceWidth, ' '),
                        PadLeft(total, TotalWidth, ' ');
      var line := a + " " + b + " " + c + " " + d;
      assert line == a + ([' '] + b) + ([' '] + c) + ([' '] + d);
      Success(line)
  }

  /** `FormatTotalLine`: the caption padded so that the rendered amount ends
      the line; an amount wider than the line makes `PadRight` throw. */
  function FormatTotalLine(caption: string, amount: real, width: int, formats: Formats): (r: Result<string>)
    ensures var a := formats.currency(amount);
      (r.Success? <==> width >= |a|)
      && (r.Success? ==> |r.value| >= |a| && r.value[|r.value| - |a|..] == a)
      && (r.Success? && |caption| <= width - |a| ==> |r.value| == width && r.value[..|caption|] == caption)
      && (r.Success? && |caption| > width - |a| ==> r.value == caption + a)
  {
    var a := formats.currency(amount);
    if width - |a| < 0 then Failure(OutOfRange)
    else
      var line := PadRight(caption, width - |a|, ' ') + a;
      assert line[|line| - |a|..] == a;
      Success(line)
  }

  /** The two lines of each sold item: its name, then its figures. */
  function ItemLines(items: seq<ReceiptItem>, width: int, formats: Formats): (r: Result<seq<string>>)
    ensures r.Success? <==> |items| == 0 || width >= FigureColumns
    ensures r.Success? ==> |r.value| == 2 * |items|
    ensures r.Success? ==> forall i | 0 <= i < |items| ::
      r.value[2 * i] == items[i].itemName.GetOr("")
      && r.value[2 * i + 1] == FormatItemLine("", formats.n0(items[i].quantity), formats.n2(items[i].unitPrice),
                                              formats.n2(items[i].netValue), width).value
    decreases |items|
  {
    if |items| == 0 then Success([])
    else if width < FigureColumns then Failure(OutOfRange)
    else
      var it := items[0];
      var figures := FormatItemLine("", formats.n0(it.quantity), formats.n2(it.unitPrice), formats.n2(it.netValue), width);
      var rest := ItemLines(items[1..], width, formats);
      Success([it.itemName.GetOr(""), figures.value] + rest.value)
  }

  /** A total line that appears only when `shown`. */
  function OptionalTotal(shown: bool, caption: string, amount: real, width: int, formats: Formats): (r: Result<seq<string>>)
    ensures !shown ==> r == Success([])
    ensures shown ==> (r.Success? <==> FormatTotalLine(caption, amount, width, formats).Success?)
    ensures shown && r.Success? ==> r.value == [FormatTotalLine(caption, amount, width, formats).value]
  {
    if !shown then Success([])
    else
      var line :- FormatTotalLine(caption, amount, width, formats);
      Success([line])
  }

  /** Every total line the receipt needs fits its amount. */
  predicate TotalsFit(s: SalesRetail, width: int, formats: Formats) {
    && width >= |formats.currency(s.subtotal)|
    && (s.discount > 0.0 ==> width >= |formats.currency(-s.discount)|)
    && (s.tax > 0.0 ==> width >= |formats.currency(s.tax)|)
    && width >= |formats.currency(s.totalAmount)|
  }

  /** The eight lines above the items: store name, rule, invoice, date,
      cashier, rule, column titles, rule. */
  function ReceiptHead(r: ReceiptSale, settings: PrinterSettings, formats: Formats): (head: seq<string>)
    requires settings.receiptWidth >= FigureColumns
    ensures |head| == 8
  {
    var w := settings.receiptWidth;
    var dash := Repeat('-', w);
    [CenterText(ToUpper(settings.storeName), w), dash, "Invoice: " + r.sale.invoiceNumber,
     "Date: " + formats.dateTime(r.sale.invoiceDate),
     "Cashier: " + r.employeeName.GetOr(settings.currentUserName.GetOr("")), dash,
     FormatItemLine("Item", "Qty", "Price", "Total", w).value, dash]
  }

  /** The rule and subtotal below the items, then the discount and tax lines
      when there is a discount or tax. */
  function ReceiptTotals(s: SalesRetail, width: int, formats: Formats): (totals: seq<string>)
    requires width >= FigureColumns && TotalsFit(s, width, formats)
    ensures |totals| == 2 + (if s.discount > 0.0 then 1 else 0) + (if s.tax > 0.0 then 1 else 0)
  {
    [Repeat('-', width), FormatTotalLine("Subtotal:", s.subtotal, width, formats).value]
    + OptionalTotal(s.discount > 0.0, "Discount:", -s.discount, width, formats).value
    + OptionalTotal(s.tax > 0.0, "Tax:", s.tax, width, formats).value
  }

  /** The seven closing lines: the total between double rules, the payment
      method, and the centred thanks between blank lines. */
  function ReceiptTail(s: SalesRetail, width: int, formats: Formats): (tail: seq<string>)
    requires width >= FigureColumns && TotalsFit(s, width, formats)
    ensures |tail| == 7
  {
    var double := Repeat('=', width);
    [double, FormatTotalLine("TOTAL:", s.totalAmount, width, formats).value, double,
     "Payment: " + s.paymentMethod.GetOr("Cash"), "", CenterText("Thank you for your purchase!", width), ""]
  }

  /** `GenerateReceiptLines`: 17 fixed lines, two per item, and one each for
      a discount and a tax; any rule, column or total that does not fit the
      width throws. */
  function ReceiptLines(r: ReceiptSale, settings: PrinterSettings, formats: Formats): (lines: Result<seq<string>>)
    ensures lines.Success? <==> settings.receiptWidth >= FigureColumns && TotalsFit(r.sale, settings.receiptWidth, formats)
    ensures lines.Success? ==>
      |lines.value| == 17 + 2 * |r.items| + (if r.sale.discount > 0.0 then 1 else 0) + (if r.sale.tax > 0.0 then 1 else 0)
  {
    var w := settings.receiptWidth;
    if w < FigureColumns || !TotalsFit(r.sale, w, formats) then Failure(OutOfRange)
    else
      Success(ReceiptHead(r, settings, formats) + ItemLines(r.items, w, formats).value
              + ReceiptTotals(r.sale, w, formats) + ReceiptTail(r.sale, w, formats))
  }

  /** What stands where on a receipt: the upper-cased store name centred on
      top, the invoice and cashier lines, each item's name above its figures,
      the discount line (shown as a negative amount ending the line) right
      after the subtotal, and the payment method fourth from the end. */
  lemma ReceiptLayout(r: ReceiptSale, settings: PrinterSettings, formats: Formats)
    requires ReceiptLines(r, settings, formats).Success?
    ensures var lines := ReceiptLines(r, settings, formats).value;
      lines[0] == CenterText(ToUpper(settings.storeName), settings.receiptWidth)
      && lines[2] == "Invoice: " + r.sale.invoiceNumber
      && lines[4] == "Cashier: " + r.employeeName.GetOr(settings.currentUserName.GetOr(""))
      && (forall i | 0 <= i < |r.items| :: lines[8 + 2 * i] == r.items[i].itemName.GetOr(""))
      && lines[|lines| - 4] == "Payment: " + r.sale.paymentMethod.GetOr("Cash")
    ensures var lines := ReceiptLines(r, settings, formats).value;
      var a := formats.currency(-r.sale.discount);
      r.sale.discount > 0.0 ==>
        (lines[10 + 2 * |r.items|] == FormatTotalLine("Discount:", -r.sale.discount, settings.receiptWidth, formats).value
         && |lines[10 + 2 * |r.items|]| >= |a|
         && lines[10 + 2 * |r.items|][|lines[10 + 2 * |r.items|]| - |a|..] == a)
  {
    var w := settings.receiptWidth;
    var head, body := ReceiptHead(r, settings, formats), ItemLines(r.items, w, formats).value;
    var totals, tail := ReceiptTotals(r.sale, w, formats), ReceiptTail(r.sale, w, formats);
    Assembled(head, body, totals, tail);
    if r.sale.discount > 0.0 {
      assert totals[2] == FormatTotalLine("Discount:", -r.sale.discount, w, formats).value;
    }
  }

  /** Where the parts of a receipt land in the assembled list. */
  lemma Assembled(head: seq<string>, body: seq<string>, totals: seq<string>, tail: seq<string>)
    requires |head| == 8 && |tail| == 7 && |totals| >= 2
    ensures var all := head + body + totals + tail;
      |all| == 15 + |body| + |totals|
      && (forall i | 0 <= i < 8 :: all[i] == head[i])
      && (forall i | 0 <= i < |body| :: all[8 + i] == body[i])
      && (forall i | 0 <= i < |totals| :: all[8 + |body| + i] == totals[i])
      && all[|all| - 4] == tail[3]
  {
  }

  /** What `PrintReceipt` returns, and the lines it handed to the printer. */
  datatype PrintOutcome = PrintOutcome(printed: bool, sent: Option<seq<string>>)

  /** `PrintReceipt`: `jobCompletes` is whether `PrintDocument.Print` returns
      rather than throwing. */
  function PrintReceipt(r: ReceiptSale, settings: PrinterSettings, formats: Formats, jobCompletes: bool): (o: PrintOutcome)
    ensures !settings.enabled || settings.printerName == "" ==> o == PrintOutcome(false, None)
    ensures o.printed <==> settings.enabled && settings.printerName != ""
                           && ReceiptLines(r, settings, formats).Success? && jobCompletes
    ensures o.sent.Some? <==> settings.enabled && settings.printerName != "" && ReceiptLines(r, settings, formats).Success?
  {
    if !settings.enabled || settings.printerName == "" then PrintOutcome(false, None)
    else
      match ReceiptLines(r, settings, formats)
      case Failure(_) => PrintOutcome(false, None)
      case Success(lines) => PrintOutcome(jobCompletes, Some(lines))
  }
}
