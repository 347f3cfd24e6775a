/** The two pieces of the product admin with logic of their own: the `stock`
    column and the purchase-price filter applied to its query set. */
module Admin {
  import opened Wrappers
  import opened Seqs
  import opened Catalog
  import opened InventoryQueries
  import opened ProductQueries

  /** The product's stock record with the lowest id: `.first()` on a query set
      without an ordering orders by primary key. */
  function FirstInventory(invs: seq<Inventory>, productId: int): (r: Option<Inventory>)
    ensures r.None? <==> forall inv :: inv in invs ==> inv.productId != productId
    ensures r.Some? ==> r.value in invs && r.value.productId == productId
    ensures r.Some? ==> forall inv :: inv in invs && inv.productId == productId ==> r.value.id <= inv.id
  {
    if |invs| == 0 then None
    else
      var rest := FirstInventory(invs[1..], productId);
      if invs[0].productId != productId then rest
      else if rest.None? || invs[0].id <= rest.value.id then Some(invs[0])
      else rest
  }

  /** `ProductAdmin.stock`: the `current_stock` of the product's first stock record,
      or 0 when it has none; never NULL. */
  function StockColumn(invs: seq<Inventory>, productId: int): (r: nat)
    ensures (forall inv :: inv in invs ==> inv.productId != productId) ==> r == 0
    ensures KeysDistinct(invs, InventoryKey) ==>
              forall inv :: inv in invs && inv.productId == productId
                            && (forall other :: other in invs && other.productId == productId ==> inv.id <= other.id)
                            ==> r == inv.currentStock
  {
    var first := FirstInventory(invs, productId);
    assert KeysDistinct(invs, InventoryKey) ==>
             forall inv :: inv in invs && inv.productId == productId
                           && (forall other :: other in invs && other.productId == productId ==> inv.id <= other.id)
                           ==> inv == first.value by {
      if KeysDistinct(invs, InventoryKey) {
        forall inv | inv in invs && inv.productId == productId
                     && (forall other :: other in invs && other.productId == productId ==> inv.id <= other.id)
          ensures inv == first.value
        {
          SameKeySameElement(invs, InventoryKey, inv, first.value);
        }
      }
    }
    match first
    case None => 0
    case Some(inv) => inv.currentStock
  }

  /** The first record's stock never exceeds the summed stock of all records. */
  lemma StockColumnAtMostSummed(invs: seq<Inventory>, productId: int)
    ensures StockColumn(invs, productId) <= SummedStock(invs, productId).GetOr(0)
  {
    SummedStockMatchesFilter(invs, productId);
    var first := FirstInventory(invs, productId);
    if first.Some? {
      StockAtMostSum(FilterByProduct(invs, productId), first.value);
    }
  }

  /** With stock records of 5 and 3 units (in id order) the column shows 5 while
      the annotation sums 8: the two are different operations. */
  lemma FirstAndSummedDiffer()
    ensures var invs := [Inventory(1, 7, 5, true), Inventory(2, 7, 3, true)];
            StockColumn(invs, 7) == 5 && SummedStock(invs, 7) == Some(8)
  {
    var invs := [Inventory(1, 7, 5, true), Inventory(2, 7, 3, true)];
    assert invs[1..][1..] == [];
    SummedStockMatchesFilter(invs, 7);
    var mine := FilterByProduct(invs, 7);
    assert mine == invs by {
      assert invs[1..] == [Inventory(2, 7, 3, true)];
    }
    assert Stocks(mine) == [5, 3];
    assert Sum([5, 3]) == 8 by {
      assert [5, 3][1..] == [3];
      assert [3][1..] == [];
    }
  }

  /** A `min_price` or `max_price` query parameter: absent, present but empty, or a
      non-empty value (read as cents). */
  datatype PriceParam = Absent | Blank | Given(cents: int)

  /** `ProductAdmin.get_queryset`: when both parameters are truthy (present and
      non-empty; the string "0" is truthy) the products are filtered to
      `min <= purchase_price <= max`; otherwise the query set is unchanged. */
  function AdminProducts(products: seq<Product>, minPrice: PriceParam, maxPrice: PriceParam): (r: seq<Product>)
    ensures !(minPrice.Given? && maxPrice.Given?) ==> r == products
    ensures minPrice.Given? && maxPrice.Given? ==> IsSubsequence(r, products)
    ensures minPrice.Given? && maxPrice.Given? ==>
              forall p :: p in r <==> p in products && minPrice.cents <= p.purchasePrice <= maxPrice.cents
  {
    if minPrice.Given? && maxPrice.Given? then
      Filter(products, (p: Product) => minPrice.cents <= p.purchasePrice <= maxPrice.cents)
    else
      products
  }

  /** The admin filter reads the purchase price where the manager's range reads the
      sale price: a product bought at 5.00 and sold at 15.00 is inside 10.00..20.00
      for one and outside it for the other. */
  lemma AdminFilterIsNotSaleRange()
    ensures var p := Product(1, 1, None, "P", 500, 1500);
            && p in ProductsInPriceRange([p], 1000, 2000)
            && p !in AdminProducts([p], Given(1000), Given(2000))
  {
  }
}
