/** `RetailSaleLineItem` of Models/RetailSaleModel.cs and its `CalculateTotals`,
    modelled as a function from the line before the call to the line after it. */
module RetailSaleModel {
  import opened Models

  datatype RetailSaleLineItem = RetailSaleLineItem(
    itemId: Guid,
    itemCode: string,
    itemName: string,
    quantity: real,
    unitPrice: real,
    discountPercent: real,
    discountValue: real,
    taxValue: real,
    netValue: real)

  /** A new line item: DiscountPercent defaults to 0, derived fields start at 0. */
  function NewLineItem(itemId: Guid, code: string, name: string, quantity: real, unitPrice: real): RetailSaleLineItem {
    RetailSaleLineItem(itemId, code, name, quantity, unitPrice, 0.0, 0.0, 0.0, 0.0)
  }

  /** `CalculateTotals(taxRate)`: recomputes the three derived fields from
      price, quantity, discount percent and the tax rate. */
  function CalculateTotals(l: RetailSaleLineItem, taxRate: real): (r: RetailSaleLineItem)
    ensures r.itemId == l.itemId && r.itemCode == l.itemCode && r.itemName == l.itemName
    ensures r.quantity == l.quantity && r.unitPrice == l.unitPrice && r.discountPercent == l.discountPercent
    ensures r.netValue == r.unitPrice * r.quantity - r.discountValue + r.taxValue
    ensures r.taxValue == (r.unitPrice * r.quantity - r.discountValue) * taxRate / 100.0
  {
    var discountValue := l.unitPrice * l.quantity * l.discountPercent / 100.0;
    var subtotal := l.unitPrice * l.quantity - discountValue;
    var taxValue := subtotal * taxRate / 100.0;
    l.(discountValue := discountValue, taxValue := taxValue, netValue := subtotal + taxValue)
  }

  /** The cart line with the same price, quantity, discount percent and tax rate. */
  function AsCartItem(l: RetailSaleLineItem, taxRate: real): CartItem {
    CartItem(l.itemId, l.itemCode, l.itemName, l.unitPrice, l.quantity, l.discountPercent, taxRate, 0.0)
  }

  /** `CalculateTotals` agrees with the derived values of `CartItem`. */
  lemma CalculateTotalsAgreesWithCartItem(l: RetailSaleLineItem, taxRate: real)
    ensures var r := CalculateTotals(l, taxRate);
      var c := AsCartItem(l, taxRate);
      r.discountValue == c.DiscountValue() && r.taxValue == c.TaxValue() && r.netValue == c.NetValue()
  {
  }

  /** Calling `CalculateTotals` twice with the same rate changes nothing more. */
  lemma CalculateTotalsIdempotent(l: RetailSaleLineItem, taxRate: real)
    ensures CalculateTotals(CalculateTotals(l, taxRate), taxRate) == CalculateTotals(l, taxRate)
  {
  }

  /** With the default rate 0 there is no tax and the net is the discounted gross. */
  lemma CalculateTotalsDefaultRate(l: RetailSaleLineItem)
    ensures var r := CalculateTotals(l, 0.0);
      r.taxValue == 0.0 && r.netValue == l.unitPrice * l.quantity - r.discountValue
      && r.discountValue == l.unitPrice * l.quantity * l.discountPercent / 100.0
  {
  }
}
