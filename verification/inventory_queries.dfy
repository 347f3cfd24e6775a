/** The inventory manager's queries over the stock records. */
module InventoryQueries {
  import opened Seqs
  import opened Catalog

  /** `filter_by_product(product_id)`: the stock records of one product, in table order. */
  function FilterByProduct(invs: seq<Inventory>, productId: int): (r: seq<Inventory>)
    ensures IsSubsequence(r, invs)
    ensures forall inv :: inv in r <==> inv in invs && inv.productId == productId
  {
    Filter(invs, (inv: Inventory) => inv.productId == productId)
  }

  /** `find_low_stock(threshold)`: the stock records at or below the threshold
      (the lookup is `__lte`, so the bound is inclusive). */
  function FindLowStock(invs: seq<Inventory>, threshold: int): (r: seq<Inventory>)
    ensures IsSubsequence(r, invs)
    ensures forall inv :: inv in r <==> inv in invs && inv.currentStock <= threshold
  {
    Filter(invs, (inv: Inventory) => inv.currentStock <= threshold)
  }

  /** Stock is never negative, so a negative threshold finds nothing. */
  lemma NegativeThresholdFindsNothing(invs: seq<Inventory>, threshold: int)
    requires threshold < 0
    ensures FindLowStock(invs, threshold) == []
  {
    FilterNone(invs, (inv: Inventory) => inv.currentStock <= threshold);
  }

  /** The `current_stock` column of some stock records. */
  function Stocks(invs: seq<Inventory>): (r: seq<int>)
    ensures |r| == |invs|
    ensures forall i :: 0 <= i < |invs| ==> r[i] == invs[i].currentStock
  {
    seq(|invs|, i requires 0 <= i < |invs| => invs[i].currentStock)
  }

  /** A column of stocks sums to at least each of its entries. */
  lemma {:induction false} StockAtMostSum(invs: seq<Inventory>, inv: Inventory)
    requires inv in invs
    ensures inv.currentStock <= Sum(Stocks(invs))
    ensures Sum(Stocks(invs)) >= 0
  {
    assert Stocks(invs)[1..] == Stocks(invs[1..]);
    if invs[0] != inv {
      StockAtMostSum(invs[1..], inv);
    } else if |invs| > 1 {
      StockAtMostSum(invs[1..], invs[1]);
    }
  }
}
