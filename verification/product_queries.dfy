/** The product manager's queries: stock annotations, filters and the sales summary.
    Every query is a free function over the product, stock and variation tables. */
module ProductQueries {
  import opened Wrappers
  import opened Seqs
  import opened Sql
  import opened Catalog
  import opened InventoryQueries

  /** A product annotated with `stock = Sum('inventories__current_stock')`:
      NULL when the product has no stock record. */
  datatype StockedProduct = StockedProduct(product: Product, stock: Option<int>)

  /** A product with the variations prefetched for it. */
  datatype ProductVariations = ProductVariations(product: Product, variations: seq<Variation>)

  /** Totals returned by `sales_summary`. */
  datatype Summary = Summary(totalSales: int, totalGains: int)

  /** The stock column of some stock records, as the database cells it sums. */
  function StockCells(invs: seq<Inventory>): (r: seq<Option<int>>)
    ensures |r| == |invs|
    ensures forall i :: 0 <= i < |invs| ==> r[i] == Some(invs[i].currentStock)
  {
    seq(|invs|, i requires 0 <= i < |invs| => Some(invs[i].currentStock))
  }

  /** The summed stock of one product across all its stock records, as SQL computes
      it over the product's joined rows: NULL when it has none. */
  function SummedStock(invs: seq<Inventory>, productId: int): (r: Option<int>)
    ensures r.None? <==> forall inv :: inv in invs ==> inv.productId != productId
    ensures r.Some? ==> r.value >= 0
  {
    var mine := FilterByProduct(invs, productId);
    assert |mine| > 0 ==> mine[0] in mine;
    SqlSumNonNegative(StockCells(mine));
    SqlSum(StockCells(mine))
  }

  /** The annotation agrees with summing the `current_stock` of
      `filter_by_product(product)`, for a product that has stock records. */
  lemma SummedStockMatchesFilter(invs: seq<Inventory>, productId: int)
    ensures SummedStock(invs, productId).GetOr(0) == Sum(Stocks(FilterByProduct(invs, productId)))
  {
    var mine := FilterByProduct(invs, productId);
    SqlSumIgnoresNulls(StockCells(mine));
    assert NullAsZero(StockCells(mine)) == Stocks(mine);
  }

  /** `get_products_with_stock()`: every product, in order, with its summed stock. */
  function ProductsWithStock(products: seq<Product>, invs: seq<Inventory>): (r: seq<StockedProduct>)
    ensures |r| == |products|
    ensures forall i :: 0 <= i < |r| ==> r[i].product == products[i]
    ensures forall i :: 0 <= i < |r| ==>
              (r[i].stock.None? <==> forall inv :: inv in invs ==> inv.productId != products[i].id)
    ensures forall i :: 0 <= i < |r| ==> r[i].stock.GetOr(0) == Sum(Stocks(FilterByProduct(invs, products[i].id)))
  {
    var r := seq(|products|, i requires 0 <= i < |products| => StockedProduct(products[i], SummedStock(invs, products[i].id)));
    assert forall i :: 0 <= i < |r| ==> r[i].stock.GetOr(0) == Sum(Stocks(FilterByProduct(invs, products[i].id))) by {
      forall i | 0 <= i < |r|
        ensures r[i].stock.GetOr(0) == Sum(Stocks(FilterByProduct(invs, products[i].id)))
      {
        SummedStockMatchesFilter(invs, products[i].id);
      }
    }
    r
  }

  /** The low-stock condition: a summed stock that exists and is at most the threshold. */
  predicate StockAtMost(sp: StockedProduct, threshold: int)
  {
    sp.stock.Some? && sp.stock.value <= threshold
  }

  /** `get_products_with_low_stock(threshold)`: the products whose summed stock is at
      most the threshold.  `NULL <= threshold` is not true, so a product without
      stock records is never returned. */
  function ProductsWithLowStock(products: seq<Product>, invs: seq<Inventory>, threshold: int): (r: seq<StockedProduct>)
    ensures IsSubsequence(r, ProductsWithStock(products, invs))
    ensures forall sp :: sp in r <==>
              && sp.product in products
              && sp.stock == SummedStock(invs, sp.product.id)
              && sp.stock.Some? && sp.stock.value <= threshold
  {
    var all := ProductsWithStock(products, invs);
    var r := Filter(all, (sp: StockedProduct) => StockAtMost(sp, threshold));
    assert forall sp :: sp in all <==> sp.product in products && sp.stock == SummedStock(invs, sp.product.id) by {
      forall sp
        ensures sp in all <==> sp.product in products && sp.stock == SummedStock(invs, sp.product.id)
      {
        if sp.product in products {
          var i :| 0 <= i < |products| && products[i] == sp.product;
          assert all[i] == StockedProduct(products[i], SummedStock(invs, products[i].id));
        }
      }
    }
    r
  }

  /** A product without stock records is never reported as low on stock, whatever
      the threshold. */
  lemma WithoutInventoryNeverLow(products: seq<Product>, invs: seq<Inventory>, threshold: int, p: Product)
    requires forall inv :: inv in invs ==> inv.productId != p.id
    ensures forall sp :: sp in ProductsWithLowStock(products, invs, threshold) ==> sp.product != p
  {
  }

  /** `get_products_in_price_range(min_price, max_price)`: the `__range` lookup is
      inclusive at both ends and reads the sale price. */
  function ProductsInPriceRange(products: seq<Product>, minPrice: int, maxPrice: int): (r: seq<Product>)
    ensures IsSubsequence(r, products)
    ensures forall p :: p in r <==> p in products && minPrice <= p.salePrice <= maxPrice
  {
    Filter(products, (p: Product) => minPrice <= p.salePrice <= maxPrice)
  }

  /** `get_products_by_category(category_id)`. */
  function ProductsByCategory(products: seq<Product>, categoryId: int): (r: seq<Product>)
    ensures IsSubsequence(r, products)
    ensures forall p :: p in r <==> p in products && p.categoryId == categoryId
  {
    Filter(products, (p: Product) => p.categoryId == categoryId)
  }

  /** `get_products_by_supplier(supplier_id)`; a NULL argument selects the products
      without a supplier, as an exact lookup on `None` does. */
  function ProductsBySupplier(products: seq<Product>, supplierId: Option<int>): (r: seq<Product>)
    ensures IsSubsequence(r, products)
    ensures forall p :: p in r <==> p in products && p.supplierId == supplierId
  {
    Filter(products, (p: Product) => p.supplierId == supplierId)
  }

  /** `get_products_by_variation(variation_id)`: a prefetch, not a filter.  Every
      product comes back, carrying only its variation with that id, if any. */
  function ProductsByVariation(products: seq<Product>, variations: seq<Variation>, variationId: int): (r: seq<ProductVariations>)
    ensures |r| == |products|
    ensures forall i :: 0 <= i < |r| ==> r[i].product == products[i]
    ensures forall i :: 0 <= i < |r| ==> IsSubsequence(r[i].variations, variations)
    ensures forall i, v :: 0 <= i < |r| ==>
              (v in r[i].variations <==> v in variations && v.productId == products[i].id && v.id == variationId)
  {
    seq(|products|, i requires 0 <= i < |products| =>
      ProductVariations(products[i], Filter(variations, (v: Variation) => v.productId == products[i].id && v.id == variationId)))
  }

  /** With distinct variation ids, the variations a product carries keep distinct
      ids; as they all carry `variationId`, there is at most one. */
  lemma ByVariationAtMostOne(products: seq<Product>, variations: seq<Variation>, variationId: int, i: int)
    requires KeysDistinct(variations, VariationKey)
    requires 0 <= i < |products|
    ensures KeysDistinct(ProductsByVariation(products, variations, variationId)[i].variations, VariationKey)
    ensures forall v :: v in ProductsByVariation(products, variations, variationId)[i].variations ==>
              VariationKey(v) == variationId
  {
    var vs := ProductsByVariation(products, variations, variationId)[i].variations;
    SubsequenceKeysDistinct(vs, variations, VariationKey);
  }

  /** What a product adds to total sales: nothing when its stock is NULL. */
  function SaleValue(sp: StockedProduct): int
  {
    match sp.stock
    case None => 0
    case Some(n) => sp.product.salePrice * n
  }

  /** What a product adds to total gains: nothing when its stock is NULL. */
  function GainValue(sp: StockedProduct): int
  {
    match sp.stock
    case None => 0
    case Some(n) => (sp.product.salePrice - sp.product.purchasePrice) * n
  }

  function SaleValues(sps: seq<StockedProduct>): (r: seq<int>)
    ensures |r| == |sps|
    ensures forall i :: 0 <= i < |sps| ==> r[i] == SaleValue(sps[i])
  {
    seq(|sps|, i requires 0 <= i < |sps| => SaleValue(sps[i]))
  }

  function GainValues(sps: seq<StockedProduct>): (r: seq<int>)
    ensures |r| == |sps|
    ensures forall i :: 0 <= i < |sps| ==> r[i] == GainValue(sps[i])
  {
    seq(|sps|, i requires 0 <= i < |sps| => GainValue(sps[i]))
  }

  /** The database cell `F('sale_price') * F('stock')`: NULL when the stock is. */
  function SalesCell(sp: StockedProduct): Option<int>
  {
    match sp.stock
    case None => None
    case Some(n) => Some(sp.product.salePrice * n)
  }

  /** The database cell `F('sale_price') * F('stock') - F('purchase_price') * F('stock')`. */
  function GainsCell(sp: StockedProduct): Option<int>
  {
    match sp.stock
    case None => None
    case Some(n) => Some(sp.product.salePrice * n - sp.product.purchasePrice * n)
  }

  function SalesColumn(sps: seq<StockedProduct>): (r: seq<Option<int>>)
    ensures |r| == |sps|
    ensures forall i :: 0 <= i < |sps| ==> r[i] == SalesCell(sps[i])
  {
    seq(|sps|, i requires 0 <= i < |sps| => SalesCell(sps[i]))
  }

  function GainsColumn(sps: seq<StockedProduct>): (r: seq<Option<int>>)
    ensures |r| == |sps|
    ensures forall i :: 0 <= i < |sps| ==> r[i] == GainsCell(sps[i])
  {
    seq(|sps|, i requires 0 <= i < |sps| => GainsCell(sps[i]))
  }

  /** Python's `x or 0` applied to an aggregate: NULL becomes 0. */
  function OrZero(x: Option<int>): int
  {
    x.GetOr(0)
  }

  /** `sales_summary()` over the stock-annotated products: total sales and gains,
      each the sum of the per-product contributions, 0 (never NULL) when no
      product has stock. */
  function SalesSummary(sps: seq<StockedProduct>): (r: Summary)
    ensures r.totalSales == Sum(SaleValues(sps))
    ensures r.totalGains == Sum(GainValues(sps))
  {
    var r := Summary(OrZero(SqlSum(SalesColumn(sps))), OrZero(SqlSum(GainsColumn(sps))));
    SqlSumIgnoresNulls(SalesColumn(sps));
    SqlSumIgnoresNulls(GainsColumn(sps));
    assert NullAsZero(SalesColumn(sps)) == SaleValues(sps);
    assert NullAsZero(GainsColumn(sps)) == GainValues(sps) by {
      forall i | 0 <= i < |sps|
        ensures NullAsZero(GainsColumn(sps))[i] == GainValues(sps)[i]
      {
        if sps[i].stock.Some? {
          MulSubDistributes(sps[i].product.salePrice, sps[i].product.purchasePrice, sps[i].stock.value);
        }
      }
    }
    r
  }

  /** With no products both totals are 0. */
  lemma SummaryOfNoProducts()
    ensures SalesSummary([]) == Summary(0, 0)
  {
  }

  /** Products that pass the price rule never make a loss: with non-negative stock
      every contribution to the gains, and so their sum, is non-negative. */
  lemma GainsNonNegative(sps: seq<StockedProduct>)
    requires forall i :: 0 <= i < |sps| ==> PriceRuleHolds(sps[i].product)
    requires forall i :: 0 <= i < |sps| ==> sps[i].stock.GetOr(0) >= 0
    ensures Sum(GainValues(sps)) >= 0
  {
    forall i | 0 <= i < |sps|
      ensures GainValues(sps)[i] >= 0
    {
      if sps[i].stock.Some? {
        NonNegativeProduct(sps[i].product.salePrice - sps[i].product.purchasePrice, sps[i].stock.value);
      }
    }
    SumNonNegative(GainValues(sps));
  }

  /** With non-negative purchase prices and stock, each product gains at most what
      it sells for, so the gains total is at most the sales total. */
  lemma GainsAtMostSales(sps: seq<StockedProduct>)
    requires forall i :: 0 <= i < |sps| ==> sps[i].product.purchasePrice >= 0
    requires forall i :: 0 <= i < |sps| ==> sps[i].stock.GetOr(0) >= 0
    ensures Sum(GainValues(sps)) <= Sum(SaleValues(sps))
  {
    forall i | 0 <= i < |sps|
      ensures GainValues(sps)[i] <= SaleValues(sps)[i]
    {
      if sps[i].stock.Some? {
        var n := sps[i].stock.value;
        MulSubDistributes(sps[i].product.salePrice, sps[i].product.purchasePrice, n);
        NonNegativeProduct(sps[i].product.purchasePrice, n);
      }
    }
    SumMonotone(GainValues(sps), SaleValues(sps));
  }

  /** The summary over saved products reports no loss. */
  lemma SummaryOfSavedProductsHasNoLoss(products: seq<Product>, invs: seq<Inventory>)
    requires forall p :: p in products ==> PriceRuleHolds(p)
    ensures SalesSummary(ProductsWithStock(products, invs)).totalGains >= 0
  {
    var sps := ProductsWithStock(products, invs);
    assert forall i :: 0 <= i < |sps| ==> sps[i].product in products;
    GainsNonNegative(sps);
  }

  /** The summary's gains never exceed its sales when purchase prices are not
      negative. */
  lemma SummaryGainsAtMostSales(products: seq<Product>, invs: seq<Inventory>)
    requires forall p :: p in products ==> p.purchasePrice >= 0
    ensures SalesSummary(ProductsWithStock(products, invs)).totalGains
            <= SalesSummary(ProductsWithStock(products, invs)).totalSales
  {
    var sps := ProductsWithStock(products, invs);
    assert forall i :: 0 <= i < |sps| ==> sps[i].product in products;
    GainsAtMostSales(sps);
  }

  /** A product bought at 10.00 and sold at 15.00 with 4 units in stock adds 60.00
      to sales and 20.00 to gains. */
  lemma SummaryExample()
    ensures SalesSummary([StockedProduct(Product(1, 1, None, "P", 1000, 1500), Some(4))]) == Summary(6000, 2000)
  {
    var sps := [StockedProduct(Product(1, 1, None, "P", 1000, 1500), Some(4))];
    assert SaleValues(sps)[1..] == [] && GainValues(sps)[1..] == [];
  }
}
