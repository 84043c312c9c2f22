/** The inventory panel: the stock-status column and the two counters of
    `LoadItems`, and the validation and defaults of the item edit form's
    Save button. The item query, the parsed text boxes and the item service
    call are parameters. */
module Inventory {
  import opened Wrappers
  import opened Seqs
  import opened Text
  import opened Models

  datatype StockStatus = Out | Low | OK

  /** The status column: out of stock at zero or below, low at or below the
      reorder level, fine above it. */
  function StatusOf(item: Item): (s: StockStatus)
    ensures s == Out <==> item.stockQuantity <= 0.0
    ensures s == Low <==> 0.0 < item.stockQuantity <= item.reorderLevel as real
    ensures s == OK <==> item.stockQuantity > 0.0 && item.stockQuantity > item.reorderLevel as real
  {
    if item.stockQuantity <= 0.0 then Out
    else if item.stockQuantity <= item.reorderLevel as real then Low
    else OK
  }

  /** The items the "Low Stock" counter counts. */
  predicate NeedsStock(item: Item) {
    StatusOf(item) != OK
  }

  predicate StockedWell(item: Item) {
    StatusOf(item) == OK
  }

  /** One row of the items grid (the category-name column is not modelled). */
  datatype InventoryRow = InventoryRow(code: string, name: string, cost: string, retail: string,
                                       stock: string, status: StockStatus)

  /** What `LoadItems` leaves on screen. */
  datatype InventoryView = InventoryView(rows: seq<InventoryRow>, total: nat, lowStock: nat, error: Option<string>)

  /** `LoadItems`: `fetched` is the item query's answer (a failure is the
      exception it threw); `shown` is the view before the call. */
  method LoadItems(fetched: Result<seq<Item>>, shown: InventoryView, formats: Formats) returns (v: InventoryView)
    ensures fetched.Failure? ==> v == shown.(error := Some("Error: " + fetched.message))
    ensures fetched.Success? ==>
      (v.error.None? && |v.rows| == |fetched.value| && v.total == |fetched.value|
       && v.lowStock == Count(fetched.value, NeedsStock))
    ensures fetched.Success? ==> forall i | 0 <= i < |v.rows| ::
      (v.rows[i].code == fetched.value[i].code && v.rows[i].name == fetched.value[i].name
       && v.rows[i].status == StatusOf(fetched.value[i]))
  {
    if fetched.Failure? {
      return shown.(error := Some("Error: " + fetched.message));
    }
    var items := fetched.value;
    var rows: seq<InventoryRow> := [];
    var lowCount := 0;
    var i := 0;
    while i < |items|
      invariant 0 <= i <= |items|
      invariant |rows| == i
      invariant lowCount == Count(items[..i], NeedsStock)
      invariant forall j | 0 <= j < i ::
        rows[j].code == items[j].code && rows[j].name == items[j].name && rows[j].status == StatusOf(items[j])
    {
      var item := items[i];
      var status: StockStatus;
      if item.stockQuantity <= 0.0 {
        status := Out;
        lowCount := lowCount + 1;
      } else if item.stockQuantity <= item.reorderLevel as real {
        status := Low;
        lowCount := lowCount + 1;
      } else {
        status := OK;
      }
      assert items[..i + 1] == items[..i] + [item];
      CountAppend(items[..i], [item], NeedsStock);
      assert Count([item], NeedsStock) == (if NeedsStock(item) then 1 else 0) by {
        assert [item][1..] == [];
      }
      rows := rows + [InventoryRow(item.code, item.name, formats.currency(item.costPrice),
                                   formats.currency(item.retailPrice), formats.n0(item.stockQuantity), status)];
      i := i + 1;
    }
    assert items[..i] == items;
    v := InventoryView(rows, |items|, lowCount, None);
  }

  /** Every listed item is counted as low stock or as well stocked, never both. */
  lemma {:induction false} LowAndOkPartition(items: seq<Item>)
    ensures Count(items, NeedsStock) + Count(items, StockedWell) == |items|
    decreases |items|
  {
    if |items| > 0 {
      LowAndOkPartition(items[1..]);
    }
  }

  // ------------------------------------------------------------ item form

  /** The edit form's fields: texts as typed, numbers as parsed (None: the
      text does not parse), the category as selected. */
  datatype ItemForm = ItemForm(code: string, name: string, categoryId: Option<Guid>, costPrice: Option<real>,
                               retailPrice: Option<real>, barcode: string, reorderLevel: Option<int>)

  /** The item service call the form makes. */
  datatype ItemRequest = CreateItem(item: Item) | UpdateItem(item: Item)

  /** The request made (if any), the error shown (if any), and whether the
      dialog closed with OK. */
  datatype ItemSaveResult = ItemSaveResult(request: Option<ItemRequest>, error: Option<string>, closed: bool)

  const CodeNameRequired := "Code and Name are required"
  const InvalidRetailPrice := "Invalid retail price"

  /** The item the form builds from its fields. */
  function FormItem(f: ItemForm, retailPrice: real, id: Guid): (item: Item)
    ensures item.id == id && item.code == Trim(f.code) && item.name == Trim(f.name) && item.barcode == Trim(f.barcode)
    ensures item.categoryId == f.categoryId && item.retailPrice == retailPrice && item.wholesalePrice == retailPrice
    ensures item.costPrice == f.costPrice.GetOr(0.0) && item.reorderLevel == f.reorderLevel.GetOr(10)
    ensures item.taxRate == 0.0
  {
    Item(id, Trim(f.code), Trim(f.name), f.categoryId, f.costPrice.GetOr(0.0), retailPrice, retailPrice,
         Trim(f.barcode), f.reorderLevel.GetOr(10), 0.0, 0.0)
  }

  /** `ItemEditForm.BtnSave_Click`: `existing` is the item loaded in edit mode,
      `service` the item service's answer to a request (Some: the message of
      the exception it threw). */
  function SaveItem(f: ItemForm, isEdit: bool, existing: Option<Item>, service: ItemRequest -> Option<string>): (r: ItemSaveResult)
    ensures IsBlank(f.code) || IsBlank(f.name) ==> r == ItemSaveResult(None, Some(CodeNameRequired), false)
    ensures !IsBlank(f.code) && !IsBlank(f.name) && (f.retailPrice.None? || f.retailPrice.value < 0.0) ==>
      r == ItemSaveResult(None, Some(InvalidRetailPrice), false)
    ensures r.request.Some? <==> !IsBlank(f.code) && !IsBlank(f.name) && f.retailPrice.Some? && f.retailPrice.value >= 0.0
    ensures r.request.Some? ==>
      (r.request.value.item.retailPrice == f.retailPrice.value
       && (r.request.value.UpdateItem? <==> isEdit && existing.Some?)
       && (r.request.value.UpdateItem? ==> r.request.value.item.id == existing.value.id))
    ensures r.closed <==> r.request.Some? && service(r.request.value).None?
    ensures r.request.Some? && !r.closed ==> r.error == Some("Error: " + service(r.request.value).value)
  {
    if IsBlank(f.code) || IsBlank(f.name) then ItemSaveResult(None, Some(CodeNameRequired), false)
    else if f.retailPrice.None? || f.retailPrice.value < 0.0 then ItemSaveResult(None, Some(InvalidRetailPrice), false)
    else
      var request :=
        if isEdit && existing.Some? then UpdateItem(FormItem(f, f.retailPrice.value, existing.value.id))
        else CreateItem(FormItem(f, f.retailPrice.value, EmptyGuid));
      match service(request)
      case None => ItemSaveResult(Some(request), None, true)
      case Some(e) => ItemSaveResult(Some(request), Some("Error: " + e), false)
  }

  /** Every item the form hands to the service has a non-empty code and name
      with no surrounding white space, a non-negative retail and wholesale
      price, and a code and name that are the typed ones trimmed. */
  lemma SavedItemWellFormed(f: ItemForm, isEdit: bool, existing: Option<Item>, service: ItemRequest -> Option<string>)
    requires SaveItem(f, isEdit, existing, service).request.Some?
    ensures WellFormed(SaveItem(f, isEdit, existing, service).request.value.item, f)
  {
    var id := if isEdit && existing.Some? then existing.value.id else EmptyGuid;
    SavedItemIsFormItem(f, isEdit, existing, service);
    FormItemWellFormed(f, f.retailPrice.value, id);
  }

  lemma SavedItemIsFormItem(f: ItemForm, isEdit: bool, existing: Option<Item>, service: ItemRequest -> Option<string>)
    requires SaveItem(f, isEdit, existing, service).request.Some?
    ensures !IsBlank(f.code) && !IsBlank(f.name) && f.retailPrice.Some? && f.retailPrice.value >= 0.0
    ensures SaveItem(f, isEdit, existing, service).request.value.item
      == FormItem(f, f.retailPrice.value, if isEdit && existing.Some? then existing.value.id else EmptyGuid)
  {
  }

  /** A code of Unicode spaces only, as an em space U+2003, counts as blank:
      the form refuses it and makes no request. */
  lemma UnicodeSpaceCodeRefused(f: ItemForm, isEdit: bool, existing: Option<Item>, service: ItemRequest -> Option<string>)
    requires f.code == "\U{2003}\U{3000}"
    ensures SaveItem(f, isEdit, existing, service) == ItemSaveResult(None, Some(CodeNameRequired), false)
  {
    assert IsWhite(f.code[0]) && IsWhite(f.code[1]);
  }

  predicate WellFormed(item: Item, f: ItemForm) {
    && |item.code| > 0 && |item.name| > 0
    && !IsWhite(item.code[0]) && !IsWhite(item.code[|item.code| - 1])
    && !IsWhite(item.name[0]) && !IsWhite(item.name[|item.name| - 1])
    && item.retailPrice >= 0.0 && item.wholesalePrice == item.retailPrice
    && item.code == Trim(f.code) && item.name == Trim(f.name)
  }

  lemma FormItemWellFormed(f: ItemForm, retailPrice: real, id: Guid)
    requires !IsBlank(f.code) && !IsBlank(f.name) && retailPrice >= 0.0
    ensures WellFormed(FormItem(f, retailPrice, id), f)
  {
    TrimmedEdges(f.code);
    TrimmedEdges(f.name);
  }

  /** Trimming a non-blank text leaves a non-empty text without white edges. */
  lemma TrimmedEdges(s: string)
    requires !IsBlank(s)
    ensures var t := Trim(s); |t| > 0 && !IsWhite(t[0]) && !IsWhite(t[|t| - 1])
  {
    BlankIffTrimEmpty(s);
  }
}
