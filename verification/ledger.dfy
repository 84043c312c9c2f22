/** The stock ledger: deducting requested quantities from item_store_stock,
    clamped at zero (the retail path) or not (the sales-service path), and
    what the movement ledger says about the resulting levels. */
module Ledger {
  import opened Models
  import opened Database

  /** `Math.Max(0, level - quantity)`. */
  function ClampedDeduct(level: real, quantity: real): (r: real)
    ensures r >= 0.0
    ensures r >= level - quantity
    ensures r == 0.0 || r == level - quantity
  {
    if level - quantity > 0.0 then level - quantity else 0.0
  }

  /** Replays signed deltas on a level, clamping at zero after each one. */
  function ClampFold(level: real, deltas: seq<real>): real
    decreases |deltas|
  {
    if |deltas| == 0 then level else ClampFold(ClampedDeduct(level, -deltas[0]), deltas[1..])
  }

  lemma {:induction false} ClampFoldAppend(level: real, a: seq<real>, b: seq<real>)
    ensures ClampFold(level, a + b) == ClampFold(ClampFold(level, a), b)
    decreases |a|
  {
    if |a| == 0 {
      assert a + b == b;
    } else {
      assert (a + b)[1..] == a[1..] + b;
      ClampFoldAppend(ClampedDeduct(level, -a[0]), a[1..], b);
    }
  }

  /** A deduction request: take `quantity` of `key` out of stock. */
  datatype Deduction = Deduction(key: StockKey, quantity: real)

  /** The requests of sold lines at one store, in line order: per line, the
      (item, store) row of its item and its quantity. `item` and `qty` read
      those two fields from whichever line type the caller sells. */
  function Requests<T>(storeId: Guid, lines: seq<T>, item: T -> Guid, qty: T -> real): (reqs: seq<Deduction>)
    ensures |reqs| == |lines|
    ensures forall i | 0 <= i < |lines| :: reqs[i] == Deduction(StockKey(item(lines[i]), storeId), qty(lines[i]))
    decreases |lines|
  {
    if |lines| == 0 then [] else [Deduction(StockKey(item(lines[0]), storeId), qty(lines[0]))] + Requests(storeId, lines[1..], item, qty)
  }

  /** Signed deltas that the requests make to one key, in order. */
  function KeyDeltas(k: StockKey, reqs: seq<Deduction>): (ds: seq<real>)
    ensures |ds| <= |reqs|
    decreases |reqs|
  {
    if |reqs| == 0 then []
    else (if reqs[0].key == k then [-reqs[0].quantity] else []) + KeyDeltas(k, reqs[1..])
  }

  /** Signed deltas the ledger records for one key, in order. */
  function LedgerDeltas(k: StockKey, ms: seq<InventoryTransaction>): seq<real>
    decreases |ms|
  {
    if |ms| == 0 then []
    else (if StockKey(ms[0].itemId, ms[0].storeId) == k then [ms[0].quantity] else []) + LedgerDeltas(k, ms[1..])
  }

  lemma {:induction false} LedgerDeltasAppend(k: StockKey, a: seq<InventoryTransaction>, b: seq<InventoryTransaction>)
    ensures LedgerDeltas(k, a + b) == LedgerDeltas(k, a) + LedgerDeltas(k, b)
    decreases |a|
  {
    if |a| == 0 {
      assert a + b == b;
    } else {
      assert (a + b)[1..] == a[1..] + b;
      LedgerDeltasAppend(k, a[1..], b);
    }
  }

  predicate NonNegative(stock: map<StockKey, real>) {
    forall k | k in stock :: stock[k] >= 0.0
  }

  /** The retail path: each request on an existing row sets it to
      max(0, level - quantity); requests on missing rows change nothing. */
  function ClampAll(stock: map<StockKey, real>, reqs: seq<Deduction>): (r: map<StockKey, real>)
    ensures r.Keys == stock.Keys
    ensures forall k | k in stock && |KeyDeltas(k, reqs)| == 0 :: r[k] == stock[k]
    decreases |reqs|
  {
    if |reqs| == 0 then stock
    else
      var k := reqs[0].key;
      var next := if k in stock then stock[k := ClampedDeduct(stock[k], reqs[0].quantity)] else stock;
      ClampAll(next, reqs[1..])
  }

  /** Every level a clamped deduction writes is non-negative; a stock that was
      non-negative stays so. */
  lemma {:induction false} ClampAllNonNegative(stock: map<StockKey, real>, reqs: seq<Deduction>)
    ensures forall k | k in stock && |KeyDeltas(k, reqs)| > 0 :: ClampAll(stock, reqs)[k] >= 0.0
    ensures NonNegative(stock) ==> NonNegative(ClampAll(stock, reqs))
    decreases |reqs|
  {
    if |reqs| > 0 {
      var k := reqs[0].key;
      var next := if k in stock then stock[k := ClampedDeduct(stock[k], reqs[0].quantity)] else stock;
      ClampAllNonNegative(next, reqs[1..]);
      forall j | j in stock && |KeyDeltas(j, reqs)| > 0
        ensures ClampAll(stock, reqs)[j] >= 0.0
      {
        if |KeyDeltas(j, reqs[1..])| == 0 {
          assert j == k;
        }
      }
    }
  }

  /** Ledger honesty for the clamped path: each level ends where replaying its
      requested deltas with clamping from the old level ends. */
  lemma {:induction false} ClampAllIsClampFold(stock: map<StockKey, real>, reqs: seq<Deduction>, k: StockKey)
    requires k in stock
    ensures ClampAll(stock, reqs)[k] == ClampFold(stock[k], KeyDeltas(k, reqs))
    decreases |reqs|
  {
    if |reqs| > 0 {
      var j := reqs[0].key;
      var next := if j in stock then stock[j := ClampedDeduct(stock[j], reqs[0].quantity)] else stock;
      ClampAllIsClampFold(next, reqs[1..], k);
      var ds := KeyDeltas(k, reqs);
      if j == k {
        assert ds == [-reqs[0].quantity] + KeyDeltas(k, reqs[1..]);
        assert ds[1..] == KeyDeltas(k, reqs[1..]);
        assert ClampFold(stock[k], ds) == ClampFold(ClampedDeduct(stock[k], reqs[0].quantity), ds[1..]);
      } else {
        assert ds == KeyDeltas(k, reqs[1..]);
      }
    }
  }

  /** The sales-service path: each request subtracts its quantity from an
      existing row, without clamping. */
  function DeductAll(stock: map<StockKey, real>, reqs: seq<Deduction>): (r: map<StockKey, real>)
    ensures r.Keys == stock.Keys
    decreases |reqs|
  {
    if |reqs| == 0 then stock
    else
      var k := reqs[0].key;
      var next := if k in stock then stock[k := stock[k] - reqs[0].quantity] else stock;
      DeductAll(next, reqs[1..])
  }

  function SumReals(ds: seq<real>): real
    decreases |ds|
  {
    if |ds| == 0 then 0.0 else ds[0] + SumReals(ds[1..])
  }

  /** Unclamped deduction: each level moves by exactly the sum of its deltas. */
  lemma {:induction false} DeductAllIsSum(stock: map<StockKey, real>, reqs: seq<Deduction>, k: StockKey)
    requires k in stock
    ensures DeductAll(stock, reqs)[k] == stock[k] + SumReals(KeyDeltas(k, reqs))
    decreases |reqs|
  {
    if |reqs| > 0 {
      var j := reqs[0].key;
      var next := if j in stock then stock[j := stock[j] - reqs[0].quantity] else stock;
      DeductAllIsSum(next, reqs[1..], k);
      var ds := KeyDeltas(k, reqs);
      if j == k {
        assert ds == [-reqs[0].quantity] + KeyDeltas(k, reqs[1..]);
        assert ds[1..] == KeyDeltas(k, reqs[1..]);
      } else {
        assert ds == KeyDeltas(k, reqs[1..]);
      }
    }
  }

  /** Unclamped deduction can drive a level below zero. */
  lemma DeductAllCanGoNegative(k: StockKey)
    ensures DeductAll(map[k := 2.0], [Deduction(k, 5.0)])[k] == -3.0
  {
    assert DeductAll(map[k := 2.0], [Deduction(k, 5.0)]) == DeductAll(map[k := -3.0], []);
  }
}
