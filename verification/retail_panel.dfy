/** The retail sales panel's demonstration cart: the grid's delete button,
    the recalculation of line nets and totals from the edited Qty and Dis%
    cells, the Save guards and the Clear button. The grid's cells arrive as
    already parsed values (`None`: the cell's text is not a decimal). */
module RetailPanel {
  import opened Wrappers
  import opened Seqs
  import opened Text
  import opened Models

  /** The panel's own cart line (a private class of the panel, distinct from
      the billing cart's line). */
  datatype PanelLine = PanelLine(code: string, name: string, price: real, quantity: real,
                                 discountPercent: real, netValue: real)

  /** The parsed Qty (column 3) and Dis% (column 4) cells of one grid row. */
  datatype Cells = Cells(qty: Option<real>, dis: Option<real>)

  /** The three labels under the grid. */
  datatype PanelTotals = PanelTotals(total: real, discount: real, net: real)

  /** Index of the grid's "Delete" button column. */
  const DeleteColumn: int := 6

  function LineTotal(l: PanelLine): real { l.price * l.quantity }
  function LineDiscount(l: PanelLine): real { l.price * l.quantity * (l.discountPercent / 100.0) }
  function LineNet(l: PanelLine): real { l.netValue }

  /** The Net column agrees with the line's price, quantity and discount. */
  predicate NetMatches(l: PanelLine) {
    l.netValue == LineTotal(l) - LineDiscount(l)
  }

  predicate AllNetsMatch(cart: seq<PanelLine>) {
    forall i | 0 <= i < |cart| :: NetMatches(cart[i])
  }

  /** Both cells of row `i` hold decimals. */
  predicate Parses(cells: seq<Cells>, i: nat) {
    i < |cells| && cells[i].qty.Some? && cells[i].dis.Some?
  }

  /** The grid rows mirror the cart, as `RefreshGrid` fills them. */
  function MirrorCells(cart: seq<PanelLine>): (cells: seq<Cells>)
    ensures |cells| == |cart|
    ensures forall i | 0 <= i < |cart| :: cells[i] == Cells(Some(cart[i].quantity), Some(cart[i].discountPercent))
  {
    seq(|cart|, i requires 0 <= i < |cart| => Cells(Some(cart[i].quantity), Some(cart[i].discountPercent)))
  }

  /** `DgvCart_CellClick`: a click on the delete column of a row removes that
      cart line; `RemoveAt` past the end throws. */
  function CellClick(cart: seq<PanelLine>, column: int, row: int): (r: Result<seq<PanelLine>>)
    ensures column != DeleteColumn || row < 0 ==> r == Success(cart)
    ensures column == DeleteColumn && 0 <= row < |cart| ==>
      (r.Success? && |r.value| == |cart| - 1
       && (forall j | 0 <= j < row :: r.value[j] == cart[j])
       && (forall j | row <= j < |r.value| :: r.value[j] == cart[j + 1]))
    ensures r.Failure? <==> column == DeleteColumn && row >= |cart|
  {
    if column == DeleteColumn && row >= 0 then
      if row < |cart| then Success(cart[..row] + cart[row + 1..])
      else Failure("Index was out of range")
    else Success(cart)
  }

  /** A row after its edited cells are read back: the new quantity and
      discount percent, and Net recomputed as `lineTotal - lineTotal * dis / 100`. */
  function Recalc(l: PanelLine, qty: real, dis: real): PanelLine {
    var lineTotal := l.price * qty;
    l.(quantity := qty, discountPercent := dis, netValue := lineTotal - lineTotal * dis / 100.0)
  }

  /** `UpdateTotals`: every row whose two cells parse takes the new quantity
      and discount percent and a recomputed net; the others are left as
      they are; then the three totals are summed over the cart. */
  method UpdateTotals(cart: seq<PanelLine>, cells: seq<Cells>) returns (r: seq<PanelLine>, t: PanelTotals)
    ensures |r| == |cart|
    ensures forall i | 0 <= i < |cart| && Parses(cells, i) ::
      r[i] == Recalc(cart[i], cells[i].qty.value, cells[i].dis.value)
    ensures forall i | 0 <= i < |cart| && !Parses(cells, i) :: r[i] == cart[i]
    ensures t.total == Sum(r, LineTotal) && t.discount == Sum(r, LineDiscount)
    ensures t.net == t.total - t.discount
  {
    r := cart;
    var i := 0;
    while i < |cells| && i < |cart|
      invariant 0 <= i <= |cart|
      invariant |r| == |cart|
      invariant forall j | 0 <= j < i && Parses(cells, j) ::
        r[j] == Recalc(cart[j], cells[j].qty.value, cells[j].dis.value)
      invariant forall j | 0 <= j < |cart| && (j >= i || !Parses(cells, j)) :: r[j] == cart[j]
    {
      if cells[i].qty.Some? && cells[i].dis.Some? {
        r := r[i := Recalc(r[i], cells[i].qty.value, cells[i].dis.value)];
      }
      i := i + 1;
    }
    var total, discount := 0.0, 0.0;
    var k := 0;
    while k < |r|
      invariant 0 <= k <= |r|
      invariant total == Sum(r[..k], LineTotal) && discount == Sum(r[..k], LineDiscount)
    {
      assert r[..k + 1] == r[..k] + [r[k]];
      SumAppend(r[..k], [r[k]], LineTotal);
      SumAppend(r[..k], [r[k]], LineDiscount);
      SumSingle(r[k], LineTotal);
      SumSingle(r[k], LineDiscount);
      total := total + LineTotal(r[k]);
      discount := discount + LineDiscount(r[k]);
      k := k + 1;
    }
    assert r[..k] == r;
    t := PanelTotals(total, discount, total - discount);
  }

  /** A recomputed line's Net column agrees with its quantity and discount. */
  lemma RecalculatedNetMatches(l: PanelLine, qty: real, dis: real)
    ensures NetMatches(Recalc(l, qty, dis))
  {
  }

  /** After an edit in which every row parses, every Net column agrees with
      its line; rows that do not parse keep a Net that already agreed. */
  lemma UpdatedNetsMatch(cart: seq<PanelLine>, cells: seq<Cells>, r: seq<PanelLine>)
    requires |r| == |cart|
    requires forall i | 0 <= i < |cart| && Parses(cells, i) ::
      r[i] == Recalc(cart[i], cells[i].qty.value, cells[i].dis.value)
    requires forall i | 0 <= i < |cart| && !Parses(cells, i) :: r[i] == cart[i]
    requires forall i | 0 <= i < |cart| :: Parses(cells, i) || NetMatches(cart[i])
    ensures AllNetsMatch(r)
  {
    forall i | 0 <= i < |cart|
      ensures NetMatches(r[i])
    {
      if Parses(cells, i) {
        RecalculatedNetMatches(cart[i], cells[i].qty.value, cells[i].dis.value);
      }
    }
  }

  /** When every Net column agrees with its line, the Net Total label is the
      sum of the Net column. */
  lemma {:induction false} NetTotalIsSumOfNets(cart: seq<PanelLine>)
    requires AllNetsMatch(cart)
    ensures Sum(cart, LineTotal) - Sum(cart, LineDiscount) == Sum(cart, LineNet)
  {
    SumLinear(cart, LineTotal, LineDiscount, Zero, LineNet);
    SumZero(cart, Zero);
  }

  function Zero(l: PanelLine): real { 0.0 }

  /** The cart and message after `BtnSave_Click`; nothing is stored. */
  datatype SaveResult = SaveResult(cart: seq<PanelLine>, message: string)

  /** `BtnSave_Click`: an empty cart or no selected store is refused with the
      cart kept; otherwise the item count is announced and the cart cleared. */
  function Save(cart: seq<PanelLine>, storeId: Guid): (r: SaveResult)
    ensures |cart| == 0 ==> r == SaveResult(cart, "Add items to cart")
    ensures |cart| > 0 && storeId == EmptyGuid ==> r == SaveResult(cart, "Please select a store")
    ensures r.cart == [] <==> |cart| == 0 || storeId != EmptyGuid
    ensures |cart| > 0 && storeId != EmptyGuid ==>
      (exists n :: r.message == "Saved " + n + " items!" && AllDigits(n) && Value(n) == |cart|)
  {
    if |cart| == 0 then SaveResult(cart, "Add items to cart")
    else if storeId == EmptyGuid then SaveResult(cart, "Please select a store")
    else
      ValueOfDigits(|cart|);
      SaveResult([], "Saved " + Digits(|cart|) + " items!")
  }

  /** The Clear button: the cart is emptied and every total shows zero. */
  function Clear(cart: seq<PanelLine>): (r: (seq<PanelLine>, PanelTotals))
    ensures r.0 == []
    ensures r.1 == PanelTotals(0.0, 0.0, 0.0)
  {
    ([], PanelTotals(Sum([], LineTotal), Sum([], LineDiscount), Sum([], LineTotal) - Sum([], LineDiscount)))
  }
}
