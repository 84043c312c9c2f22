/** The reports panel: the three summary cards and the daily rows of
    `LoadReport`, and the CSV lines `BtnExport_Click` writes. The sales query,
    the calendar day of a stored sale date and the amount and date renderings
    are parameters. */
module Reports {
  import opened Wrappers
  import opened Seqs
  import opened Text
  import opened Models

  function TotalOf(s: SalesRetail): real { s.totalAmount }

  /** The revenue, orders and average-order cards. */
  datatype Summary = Summary(revenue: real, orders: nat, average: real)

  function Summarize(sales: seq<SalesRetail>): (r: Summary)
    ensures r.revenue == Sum(sales, TotalOf) && r.orders == |sales|
    ensures r.orders > 0 ==> r.average * r.orders as real == r.revenue
    ensures r.orders == 0 ==> r.average == 0.0 && r.revenue == 0.0
  {
    var revenue := Sum(sales, TotalOf);
    var orders := |sales|;
    Summary(revenue, orders, if orders > 0 then revenue / orders as real else 0.0)
  }

  // ------------------------------------------------------------ days

  /** Strictly decreasing: newest day first, no day twice. */
  predicate Descending(ds: seq<int>) {
    forall i, j | 0 <= i < j < |ds| :: ds[i] > ds[j]
  }

  /** Adds a day to a newest-first list of distinct days. */
  function Insert(d: int, ds: seq<int>): (r: seq<int>)
    requires Descending(ds)
    ensures Descending(r)
    ensures forall x :: x in r <==> x == d || x in ds
    decreases |ds|
  {
    if |ds| == 0 then [d]
    else if d == ds[0] then ds
    else if d > ds[0] then [d] + ds
    else
      var t := Insert(d, ds[1..]);
      ConsDescending(ds[0], t);
      [ds[0]] + t
  }

  /** A day newer than every day of a newest-first list can head it. */
  lemma ConsDescending(x: int, t: seq<int>)
    requires Descending(t)
    requires forall y | y in t :: y < x
    ensures Descending([x] + t)
  {
    var r := [x] + t;
    forall i, j | 0 <= i < j < |r|
      ensures r[i] > r[j]
    {
      assert r[j] == t[j - 1] && r[j] in t;
      if i > 0 {
        assert r[i] == t[i - 1];
      }
    }
  }

  /** The keys of `GroupBy(s => s.SaleDate.Date).OrderByDescending(g => g.Key)`. */
  function Days(sales: seq<SalesRetail>, dayOf: int -> int): (r: seq<int>)
    ensures Descending(r)
    ensures forall d :: d in r <==> exists s | s in sales :: dayOf(s.saleDate) == d
    decreases |sales|
  {
    if |sales| == 0 then []
    else
      var r := Insert(dayOf(sales[0].saleDate), Days(sales[1..], dayOf));
      assert forall s | s in sales :: s == sales[0] || s in sales[1..];
      r
  }

  /** The sales of day `d`, in query order: one group of the `GroupBy`. */
  function DayList(sales: seq<SalesRetail>, dayOf: int -> int, d: int): (r: seq<SalesRetail>)
    ensures forall s :: s in r <==> s in sales && dayOf(s.saleDate) == d
    ensures |r| == Count(sales, (s: SalesRetail) => dayOf(s.saleDate) == d)
    decreases |sales|
  {
    if |sales| == 0 then []
    else
      var r := (if dayOf(sales[0].saleDate) == d then [sales[0]] else []) + DayList(sales[1..], dayOf, d);
      assert forall s | s in sales :: s == sales[0] || s in sales[1..];
      r
  }

  /** `s.PaymentMethod?.ToLower() == "cash"`. */
  predicate IsCash(s: SalesRetail) {
    s.paymentMethod.Some? && ToLower(s.paymentMethod.value) == "cash"
  }

  predicate IsCard(s: SalesRetail) {
    s.paymentMethod.Some? && ToLower(s.paymentMethod.value) == "card"
  }

  function CashOf(s: SalesRetail): real { if IsCash(s) then s.totalAmount else 0.0 }
  function CardOf(s: SalesRetail): real { if IsCard(s) then s.totalAmount else 0.0 }

  /** The part of a sale that is neither cash nor card. */
  function OtherOf(s: SalesRetail): real { if !IsCash(s) && !IsCard(s) then s.totalAmount else 0.0 }

  /** One row of the daily grid, before formatting. */
  datatype DailyRow = DailyRow(day: int, invoices: nat, total: real, cash: real, card: real)

  function RowTotal(r: DailyRow): real { r.total }

  /** The row of day `d`: its invoice count, total, and cash and card parts. */
  function DayRow(sales: seq<SalesRetail>, dayOf: int -> int, d: int): (r: DailyRow)
    ensures r.day == d && r.invoices == |DayList(sales, dayOf, d)|
    ensures r.invoices == Count(sales, (s: SalesRetail) => dayOf(s.saleDate) == d)
    ensures r.total == Sum(DayList(sales, dayOf, d), TotalOf)
    ensures r.cash == Sum(DayList(sales, dayOf, d), CashOf) && r.card == Sum(DayList(sales, dayOf, d), CardOf)
  {
    var group := DayList(sales, dayOf, d);
    DailyRow(d, |group|, Sum(group, TotalOf), Sum(group, CashOf), Sum(group, CardOf))
  }

  function Rows(sales: seq<SalesRetail>, dayOf: int -> int, ds: seq<int>): (r: seq<DailyRow>)
    ensures |r| == |ds|
    ensures forall i | 0 <= i < |ds| :: r[i] == DayRow(sales, dayOf, ds[i])
    decreases |ds|
  {
    if |ds| == 0 then [] else [DayRow(sales, dayOf, ds[0])] + Rows(sales, dayOf, ds[1..])
  }

  /** The daily grid: one row per distinct sale day, newest first, and a row
      for a day exactly when some sale was made that day. */
  function DailyRows(sales: seq<SalesRetail>, dayOf: int -> int): (r: seq<DailyRow>)
    ensures forall i, j | 0 <= i < j < |r| :: r[i].day > r[j].day
    ensures forall d :: HasRow(r, d) <==> (exists s | s in sales :: dayOf(s.saleDate) == d)
    ensures forall i | 0 <= i < |r| :: r[i] == DayRow(sales, dayOf, r[i].day)
  {
    var ds := Days(sales, dayOf);
    var r := Rows(sales, dayOf, ds);
    forall d
      ensures HasRow(r, d) <==> d in ds
    {
      if d in ds {
        var i :| 0 <= i < |ds| && ds[i] == d;
        assert r[i].day == d;
      }
    }
    r
  }

  /** Some row of the grid is for day `d`. */
  predicate HasRow(r: seq<DailyRow>, d: int) {
    exists i | 0 <= i < |r| :: r[i].day == d
  }

  // ------------------------------------------------------------ day totals

  /** The row measure `m` is the sale measure `f` summed over the day's
      group, as the total is for `TotalOf` and the invoice count for `OneOf`. */
  ghost predicate MeasuresGroups(dayOf: int -> int, m: DailyRow -> real, f: SalesRetail -> real) {
    forall xs: seq<SalesRetail>, d: int :: m(DayRow(xs, dayOf, d)) == Sum(DayList(xs, dayOf, d), f)
  }

  lemma {:induction false} MeasureOfNoSales(dayOf: int -> int, m: DailyRow -> real, f: SalesRetail -> real, ds: seq<int>)
    requires MeasuresGroups(dayOf, m, f)
    ensures Sum(Rows([], dayOf, ds), m) == 0.0
    decreases |ds|
  {
    if |ds| > 0 {
      var r := Rows([], dayOf, ds);
      assert r[1..] == Rows([], dayOf, ds[1..]);
      assert m(r[0]) == Sum(DayList([], dayOf, ds[0]), f);
      MeasureOfNoSales(dayOf, m, f, ds[1..]);
    }
  }

  /** One more sale adds its measure to the group of its day only. */
  lemma GroupOfSale(s: SalesRetail, rest: seq<SalesRetail>, dayOf: int -> int, d: int, f: SalesRetail -> real)
    ensures Sum(DayList([s] + rest, dayOf, d), f)
      == Sum(DayList(rest, dayOf, d), f) + (if dayOf(s.saleDate) == d then f(s) else 0.0)
  {
    var head: seq<SalesRetail> := if dayOf(s.saleDate) == d then [s] else [];
    assert ([s] + rest)[1..] == rest;
    assert DayList([s] + rest, dayOf, d) == head + DayList(rest, dayOf, d);
    SumAppend(head, DayList(rest, dayOf, d), f);
    if dayOf(s.saleDate) == d {
      SumSingle(s, f);
    }
  }

  lemma {:induction false} MeasureOfSale(s: SalesRetail, rest: seq<SalesRetail>, dayOf: int -> int,
                                         m: DailyRow -> real, f: SalesRetail -> real, ds: seq<int>)
    requires Descending(ds) && MeasuresGroups(dayOf, m, f)
    ensures Sum(Rows([s] + rest, dayOf, ds), m)
      == Sum(Rows(rest, dayOf, ds), m) + (if dayOf(s.saleDate) in ds then f(s) else 0.0)
    decreases |ds|
  {
    if |ds| > 0 {
      var a, b := Rows([s] + rest, dayOf, ds), Rows(rest, dayOf, ds);
      assert a[1..] == Rows([s] + rest, dayOf, ds[1..]);
      assert b[1..] == Rows(rest, dayOf, ds[1..]);
      MeasureOfSale(s, rest, dayOf, m, f, ds[1..]);
      GroupOfSale(s, rest, dayOf, ds[0], f);
      assert m(a[0]) == Sum(DayList([s] + rest, dayOf, ds[0]), f);
      assert m(b[0]) == Sum(DayList(rest, dayOf, ds[0]), f);
      assert dayOf(s.saleDate) == ds[0] ==> dayOf(s.saleDate) !in ds[1..];
      assert dayOf(s.saleDate) in ds <==> dayOf(s.saleDate) == ds[0] || dayOf(s.saleDate) in ds[1..];
    }
  }

  /** Over rows for distinct days that cover every sale, a group measure adds
      up to the measure of all the sales. */
  lemma {:induction false} MeasureAddsUp(sales: seq<SalesRetail>, dayOf: int -> int, m: DailyRow -> real,
                                         f: SalesRetail -> real, ds: seq<int>)
    requires Descending(ds) && MeasuresGroups(dayOf, m, f)
    requires forall s | s in sales :: dayOf(s.saleDate) in ds
    ensures Sum(Rows(sales, dayOf, ds), m) == Sum(sales, f)
    decreases |sales|
  {
    if |sales| == 0 {
      MeasureOfNoSales(dayOf, m, f, ds);
    } else {
      assert sales == [sales[0]] + sales[1..];
      MeasureAddsUp(sales[1..], dayOf, m, f, ds);
      MeasureOfSale(sales[0], sales[1..], dayOf, m, f, ds);
    }
  }

  /** Rows for a list of distinct days covering every sale add up to the revenue. */
  lemma RowsAddUp(sales: seq<SalesRetail>, dayOf: int -> int, ds: seq<int>)
    requires Descending(ds)
    requires forall s | s in sales :: dayOf(s.saleDate) in ds
    ensures Sum(Rows(sales, dayOf, ds), RowTotal) == Sum(sales, TotalOf)
  {
    forall xs: seq<SalesRetail>, d: int
      ensures RowTotal(DayRow(xs, dayOf, d)) == Sum(DayList(xs, dayOf, d), TotalOf)
    {
    }
    MeasureAddsUp(sales, dayOf, RowTotal, TotalOf, ds);
  }

  /** The day totals of the grid add up to the revenue card. */
  lemma DailyTotalsAddUp(sales: seq<SalesRetail>, dayOf: int -> int)
    ensures Sum(DailyRows(sales, dayOf), RowTotal) == Summarize(sales).revenue
  {
    var ds := Days(sales, dayOf);
    RowsAddUp(sales, dayOf, ds);
  }

  function OneOf(s: SalesRetail): real { 1.0 }

  function RowInvoices(r: DailyRow): real { r.invoices as real }

  lemma {:induction false} SumOfOnes(xs: seq<SalesRetail>)
    ensures Sum(xs, OneOf) == |xs| as real
    decreases |xs|
  {
    if |xs| > 0 {
      SumOfOnes(xs[1..]);
    }
  }

  /** The grid's invoice counts add up to the order-count card: every sale
      is counted in exactly one day's row. */
  lemma DailyInvoicesAddUp(sales: seq<SalesRetail>, dayOf: int -> int)
    ensures Sum(DailyRows(sales, dayOf), RowInvoices) == Summarize(sales).orders as real
  {
    forall xs: seq<SalesRetail>, d: int
      ensures RowInvoices(DayRow(xs, dayOf, d)) == Sum(DayList(xs, dayOf, d), OneOf)
    {
      SumOfOnes(DayList(xs, dayOf, d));
    }
    var ds := Days(sales, dayOf);
    MeasureAddsUp(sales, dayOf, RowInvoices, OneOf, ds);
    SumOfOnes(sales);
  }

  /** No method lower-cases to both "cash" and "card". */
  lemma NotCashAndCard(s: SalesRetail)
    ensures !(IsCash(s) && IsCard(s))
  {
  }

  /** Within any group of sales, cash, card and the rest partition the total. */
  lemma {:induction false} PaymentSplit(sales: seq<SalesRetail>)
    ensures Sum(sales, CashOf) + Sum(sales, CardOf) + Sum(sales, OtherOf) == Sum(sales, TotalOf)
    decreases |sales|
  {
    if |sales| > 0 {
      NotCashAndCard(sales[0]);
      PaymentSplit(sales[1..]);
    }
  }

  /** Every row's cash and card columns and the sales paid otherwise add up
      to the row's total. */
  lemma RowPaymentSplit(sales: seq<SalesRetail>, dayOf: int -> int, d: int)
    ensures var r := DayRow(sales, dayOf, d);
      r.cash + r.card + Sum(DayList(sales, dayOf, d), OtherOf) == r.total
  {
    PaymentSplit(DayList(sales, dayOf, d));
  }

  // ------------------------------------------------------------ screen

  /** The cells of one grid row as displayed. */
  function RowCells(r: DailyRow, formats: Formats): (cells: seq<string>)
    ensures |cells| == |Headers|
    ensures AllDigits(cells[1]) && Value(cells[1]) == r.invoices
  {
    ValueOfDigits(r.invoices);
    [formats.date(r.day), Digits(r.invoices), formats.currency(r.total), formats.currency(r.cash), formats.currency(r.card)]
  }

  /** The cards' texts, the grid's rows, and the error shown, if any. */
  datatype ReportView = ReportView(cards: seq<string>, grid: seq<seq<string>>, error: Option<string>)

  /** `LoadReport`: `fetched` is the sales query's answer for the chosen dates. */
  function LoadReport(fetched: Result<seq<SalesRetail>>, shown: ReportView, dayOf: int -> int, formats: Formats): (v: ReportView)
    ensures fetched.Failure? ==> v == shown.(error := Some("Error: " + fetched.message))
    ensures fetched.Success? ==>
      (v.error.None? && |v.cards| == 3 && |v.grid| == |DailyRows(fetched.value, dayOf)|
       && v.cards[0] == formats.currency(Sum(fetched.value, TotalOf))
       && AllDigits(v.cards[1]) && Value(v.cards[1]) == |fetched.value|
       && v.cards[2] == formats.currency(Summarize(fetched.value).average)
       && forall i | 0 <= i < |v.grid| :: v.grid[i] == RowCells(DailyRows(fetched.value, dayOf)[i], formats))
  {
    match fetched
    case Failure(e) => shown.(error := Some("Error: " + e))
    case Success(sales) =>
      var sum := Summarize(sales);
      var rows := DailyRows(sales, dayOf);
      ValueOfDigits(sum.orders);
      ReportView([formats.currency(sum.revenue), Digits(sum.orders), formats.currency(sum.average)],
                 seq(|rows|, i requires 0 <= i < |rows| => RowCells(rows[i], formats)), None)
  }

  // ------------------------------------------------------------ CSV

  const Headers: seq<string> := ["Date", "Invoices", "Total Sales", "Cash", "Card"]

  /** `$"\"{c}\""`: the cell between double quotes, nothing escaped. */
  function Quote(c: string): string {
    ['"'] + c + ['"']
  }

  function QuoteAll(cells: seq<string>): (r: seq<string>)
    ensures |r| == |cells|
    ensures forall i | 0 <= i < |cells| :: r[i] == Quote(cells[i])
  {
    seq(|cells|, i requires 0 <= i < |cells| => Quote(cells[i]))
  }

  /** One CSV line: the quoted cells joined by ",". */
  function CsvLine(cells: seq<string>): string {
    Join(QuoteAll(cells), ",")
  }

  /** The file `BtnExport_Click` writes: the header line, then one line per grid row. */
  function Export(grid: seq<seq<string>>): (lines: seq<string>)
    ensures |lines| == |grid| + 1
    ensures lines[0] == CsvLine(Headers)
    ensures forall i | 0 <= i < |grid| :: lines[i + 1] == CsvLine(grid[i])
  {
    [CsvLine(Headers)] + seq(|grid|, i requires 0 <= i < |grid| => CsvLine(grid[i]))
  }

  /** The first double quote of `t`, if any. */
  function FirstQuote(t: string): (r: Option<nat>)
    ensures r.Some? ==> r.value < |t| && t[r.value] == '"' && '"' !in t[..r.value]
    ensures r.None? ==> '"' !in t
    decreases |t|
  {
    if |t| == 0 then None
    else if t[0] == '"' then Some(0)
    else
      match FirstQuote(t[1..])
      case None => None
      case Some(k) =>
        assert t[..k + 1] == [t[0]] + t[1..][..k];
        Some(k + 1)
  }

  /** A reader of such lines: quoted cells separated by ",", a cell ending at
      its first closing quote. */
  function ParseCsvLine(s: string): Option<seq<string>>
    decreases |s|
  {
    if |s| == 0 || s[0] != '"' then None
    else
      match FirstQuote(s[1..])
      case None => None
      case Some(k) =>
        var cell := s[1..k + 1];
        if k + 2 == |s| then Some([cell])
        else if s[k + 2] != ',' then None
        else
          match ParseCsvLine(s[k + 3..])
          case None => None
          case Some(rest) => Some([cell] + rest)
  }

  lemma QuotedHead(c: string, tail: string)
    requires '"' !in c
    ensures FirstQuote(c + ['"'] + tail) == Some(|c|)
  {
    var t := c + ['"'] + tail;
    assert t[|c|] == '"';
    assert forall i | 0 <= i < |c| :: t[i] == c[i];
  }

  /** Cells without double quotes are read back from their line. */
  lemma {:induction false} CsvRoundTrip(cells: seq<string>)
    requires |cells| >= 1
    requires forall i | 0 <= i < |cells| :: '"' !in cells[i]
    ensures ParseCsvLine(CsvLine(cells)) == Some(cells)
    decreases |cells|
  {
    var c := cells[0];
    var q := QuoteAll(cells);
    if |cells| == 1 {
      var s := ['"'] + (c + ['"'] + []);
      assert CsvLine(cells) == q[0] == s;
      assert s[1..] == c + ['"'] + [];
      QuotedHead(c, []);
      assert s[1..|c| + 1] == c;
      assert [c] == cells;
    } else {
      var rest := CsvLine(cells[1..]);
      assert q[1..] == QuoteAll(cells[1..]);
      assert CsvLine(cells) == q[0] + "," + rest;
      var s := ['"'] + (c + ['"'] + ([','] + rest));
      assert CsvLine(cells) == s;
      assert s[1..] == c + ['"'] + ([','] + rest);
      QuotedHead(c, [','] + rest);
      assert s[1..|c| + 1] == c;
      assert s[|c| + 2] == ',';
      assert s[|c| + 3..] == rest;
      CsvRoundTrip(cells[1..]);
      assert [c] + cells[1..] == cells;
    }
  }

  /** Quotes inside a cell are not escaped: a row with one cell holding
      `a","b` is written as the same line as the row of two cells `a` and `b`. */
  lemma QuotesNotEscaped()
    ensures CsvLine(["a\",\"b"]) == CsvLine(["a", "b"])
    ensures ParseCsvLine(CsvLine(["a\",\"b"])) != Some(["a\",\"b"])
  {
    var one, two := QuoteAll(["a\",\"b"]), QuoteAll(["a", "b"]);
    assert one == [Quote("a\",\"b")];
    assert two == [Quote("a"), Quote("b")];
    assert two[1..] == [Quote("b")];
    assert CsvLine(["a\",\"b"]) == Quote("a\",\"b") == "\"a\",\"b\"";
    assert CsvLine(["a", "b"]) == Quote("a") + "," + Quote("b") == "\"a\",\"b\"";
    CsvRoundTrip(["a", "b"]);
  }
}
