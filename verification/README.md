# Inventory and purchasing back-office, modelled in Dafny

This project models the core of a Django back-office for a shop's inventory
and purchasing, written as pure functions over an immutable snapshot of the
database. The snapshot holds these tables:

- categories, as a forest with a stored depth;
- suppliers, products, variations, stock records and product issues;
- purchases and purchase lines.

Money is held in integer cents, because the source stores two-decimal
`DecimalField`s. Each table is a sequence of rows with unique integer ids. The
category forest is a map from id to a record with the parent and the stored
depth (`level`).

The modules follow the source's structure:

| module | file | models |
|---|---|---|
| `Catalog` | `catalog.dfy` | the record types, their enumerated codes and defaults, and the price rule of `Product.save` |
| `CategoryTree` | `category_tree.dfy` | the category forest and `CategoryManager`: by level, name search, moving a category, sibling order by name, subtree removal |
| `InventoryQueries` | `inventory_queries.dfy` | `InventoryManager` |
| `ProductQueries` | `product_queries.dfy` | `ProductManager`: the summed-stock annotation, the filters, the sales summary |
| `VariationQueries` | `variation_queries.dfy` | `VariationManager`, including the count per variation category |
| `Purchasing` | `purchasing.dfy` | purchase states, line subtotals and purchase totals |
| `Admin` | `admin.dfy` | the admin's `stock` column and its purchase-price filter |
| `ProductForm` | `product_form.dfy` | the image checks of `clean_image` |
| `Store` | `store.dfy` | the writes: saving a product or an issue, and deleting with CASCADE, RESTRICT and PROTECT |

Shared pieces live in three modules:

- `Wrappers`: `Option` and `Result`.
- `Seqs`: sums, subsequences, filtering, unique keys and the insert-or-update of a save.
- `Sql`: SQL's `SUM`, which is NULL over a group with no non-NULL value.

Every write in `Store` that can be refused returns a `Result`. A failure writes
nothing, so the caller keeps its snapshot unchanged. `DeleteProduct` and
`DeletePurchase` cannot be refused and return the new snapshot. Every
successful write preserves `Store.Valid`, which requires all of the following:

- the category forest is consistent: parents exist, roots have level 0, and a child is one level below its parent;
- every primary key is unique;
- one issue at most per product;
- every foreign key resolves;
- every stored product satisfies the price rule.

Where the code and its own docstrings disagree, the model follows the code. Two
docstrings of `ProductManager` disagree with their code:

- `get_products_with_low_stock` calls its threshold "the minimum stock level" and promises stock "below" it. The code uses the threshold as an inclusive maximum (`<=`), and so does the model.
- `get_products_by_variation` promises products "filtered by" the variation id. The code only prefetches the matching variation and returns every product, and `ProductQueries.ProductsByVariation` keeps every product too.

`Purchase.total` adds `tax` to the sum of the subtotals. `tax` is nullable and
has no default, so on a purchase without a tax this raises instead of returning
a number. `Purchasing.Total` models that as `Failure(NullTax)`. Reading a missing
tax as 0.00 is the evident intent of an optional tax field, and is recorded
under Findings as `Purchasing.TotalWithOptionalTax`.

For a purchase of 10.00 × 2 and 5.00 × 3 with 2.50 tax, the code gives 37.50.
With the first price raised to 12.00 it gives 41.50 (24.00 + 15.00 + 2.50).
`Purchasing.TotalExample` proves both figures.

## Model

| member | source | states |
|---|---|---|
| Catalog.ParseVariationCategory | inventory_management/models.py:99-102 | only the codes "talla" and "color" name a variation category, and a parsed category is stored under exactly the code it was read from |
| Catalog.ParseVariationState | inventory_management/models.py:104-108 | only "disponible", "no disponible" and "eliminado" name a state, and a parsed state's code is the input |
| Catalog.ParseIssueType | inventory_management/models.py:154-157 | only "por defecto" and "dañado" name an issue type, and a parsed type's code is the input |
| Catalog.CodesRoundTrip | inventory_management/models.py:99-161 | every variation category, variation state and issue type reads back as itself from its stored code |
| Catalog.NewVariation | inventory_management/models.py:110-116 | a variation created without category or state is stored as "talla" and "disponible" |
| Catalog.NewInventory | inventory_management/models.py:132-136 | a new stock record has stock 0 and is active |
| Catalog.NewIssue | inventory_management/models.py:159-163 | a new issue is of type "por defecto" with no notes |
| Catalog.NewProduct | inventory_management/models.py:65-69 | a product created without prices has purchase and sale price 0.00 |
| Store.SaveProduct | inventory_management/models.py:78-81 | succeeds exactly when the sale price exceeds the purchase price and the category and supplier exist; the price check comes first and fails with a validation error; on success the product table holds the saved row in place of any row with its id, nothing else changes, and the database stays valid |
| Store.DefaultProductNeverSaved | inventory_management/models.py:65-79 | a product left at its default prices of 0.00 is always refused by the price check |
| Store.SaveIssue | inventory_management/models.py:159 | an issue is saved exactly when its product exists and no other issue belongs to that product; a save keeps the database valid |
| Store.AtMostOneIssue | inventory_management/models.py:159 | in a valid database two issues of the same product are the same issue |
| Store.DeleteProduct | inventory_management/models.py:110-159 | deleting a product removes exactly it and the variations, stock records, issue and purchase lines that refer to it (the purchase-line CASCADE is declared at purchasing_management/models.py:35); the other tables are unchanged and validity is kept |
| Store.DeleteCategory | inventory_management/models.py:57 | a category delete fails with a restrict error exactly when some product refers to a category of its subtree; otherwise exactly that subtree is removed, other categories are unchanged and validity is kept |
| Store.ReferencedCategoryIsRestricted | inventory_management/models.py:57 | a category a product refers to cannot be deleted |
| Store.DeleteCategoryRemovesDescendants | inventory_management/models.py:12 | after a successful delete no descendant of the deleted category remains |
| Store.WithoutSupplier | purchasing_management/models.py:12-34 | removing a supplier removes exactly its row, its purchases, and the lines of those purchases |
| Store.WithoutSupplierValid | purchasing_management/models.py:12-34 | removing a supplier no product refers to keeps the database valid |
| Store.DeleteSupplier | inventory_management/models.py:60 | a supplier delete fails with a protect error exactly when a product refers to the supplier; otherwise it cascades to its purchases and their lines and keeps validity |
| Store.DeletePurchase | purchasing_management/models.py:34 | deleting a purchase removes exactly it and its lines and keeps validity |
| Store.ValidLinesResolve | purchasing_management/models.py:35-41 | in a valid database every line's product can be found, so subtotals are defined |
| Store.RepricingMovesLines | purchasing_management/models.py:38-41 | re-saving a product moves a purchase's line sum by the price change times the units of that product ordered |
| Store.RepricingMovesTotals | purchasing_management/models.py:18-41 | re-saving a product at a new purchase price moves any purchase's corrected total (NULL tax as 0.00) by the price change times the units of that product it orders |
| CategoryTree.SubtreeLevelBound | inventory_management/models.py:8-12 | a descendant is deeper than its ancestor unless it is the ancestor itself |
| CategoryTree.NoCycles | inventory_management/models.py:12 | a category's parent is never in the category's own subtree |
| CategoryTree.AncestorChain | inventory_management/models.py:8-12 | the chain of ancestors from a category is as long as its level and ends at a root |
| CategoryTree.CategoriesByLevel | inventory_management/handlers/category_managers.py:5-6 | exactly the categories at the given level, with their records unchanged |
| CategoryTree.LevelIsDepth | inventory_management/handlers/category_managers.py:5-6 | a category is at level l exactly when it has l ancestors |
| CategoryTree.Contains | inventory_management/handlers/category_managers.py:9 | the needle occurs at some position of the haystack |
| CategoryTree.FilterByName | inventory_management/handlers/category_managers.py:8-9 | exactly the categories whose lower-cased name contains the lower-cased search string, records unchanged |
| CategoryTree.FilterByEmptyNameKeepsAll | inventory_management/handlers/category_managers.py:9 | searching for the empty string keeps every category |
| CategoryTree.FilterByNameIgnoresCase | inventory_management/handlers/category_managers.py:9 | the case of the search string does not matter |
| CategoryTree.NameLeReflexive | inventory_management/models.py:14-16 | the name order is reflexive |
| CategoryTree.NameLeTotal | inventory_management/models.py:14-16 | any two names are ordered one way or the other |
| CategoryTree.NameLeAntisymmetric | inventory_management/models.py:14-16 | names ordered both ways are equal |
| CategoryTree.NameLeTransitive | inventory_management/models.py:14-16 | the name order is transitive |
| CategoryTree.SiblingLeTotal | inventory_management/models.py:14-16 | any two categories are comparable in the sibling order: by name, and among equal names by id, the model's stand-in for tree position |
| CategoryTree.SiblingLeTransitive | inventory_management/models.py:14-16 | the sibling order (name, with id standing in for tree position among equal names) is transitive |
| CategoryTree.SortSiblings | inventory_management/models.py:14-16 | a set of categories listed once each, in non-decreasing name order, with equal names ordered by id in place of tree position |
| CategoryTree.Children | inventory_management/models.py:12-16 | exactly the children of a parent (or the roots), each once, in name order |
| CategoryTree.Reparent | inventory_management/handlers/category_managers.py:13-14 | re-parenting outside its own subtree keeps the forest consistent; only the moved category's parent changes; its level becomes the new parent's plus one (0 at the root); its descendants shift by the same amount and every other level is unchanged |
| CategoryTree.ReparentConsistent | inventory_management/handlers/category_managers.py:11-14 | the re-parented forest is consistent |
| CategoryTree.MoveCategory | inventory_management/handlers/category_managers.py:11-14 | when the caller's old and new parents are equal nothing changes; otherwise a missing new parent and a new parent inside the category's subtree are errors, and any other move re-parents the category as above |
| CategoryTree.MoveToCurrentParentIsNoop | inventory_management/handlers/category_managers.py:12 | moving a category to its current parent leaves the forest as it was |
| CategoryTree.Subtree | inventory_management/models.py:12 | exactly the category and its descendants |
| CategoryTree.RemoveSubtree | inventory_management/models.py:12 | removing a subtree removes exactly its categories and leaves a consistent forest |
| InventoryQueries.FilterByProduct | inventory_management/handlers/inventory_managers.py:5-6 | exactly the stock records of the product, as a subsequence of the table |
| InventoryQueries.FindLowStock | inventory_management/handlers/inventory_managers.py:8-9 | exactly the stock records with stock at most the threshold, inclusive |
| InventoryQueries.NegativeThresholdFindsNothing | inventory_management/handlers/inventory_managers.py:9 | a negative threshold finds no stock record |
| InventoryQueries.StockAtMostSum | inventory_management/models.py:134 | each record's stock is at most the column's sum, and the sum is not negative |
| Sql.SqlSum | inventory_management/handlers/product_managers.py:33 | `SUM` is NULL exactly when every cell is NULL |
| Sql.SqlSumIgnoresNulls | inventory_management/handlers/product_managers.py:103 | `SUM ... or 0` equals the sum with NULL cells counted as 0 |
| Sql.SqlSumNonNegative | inventory_management/handlers/product_managers.py:103-104 | a sum of non-negative cells is not negative |
| Sql.SqlSumMonotone | inventory_management/handlers/product_managers.py:103-104 | cell-wise smaller columns sum to no more |
| ProductQueries.SummedStock | inventory_management/handlers/product_managers.py:33 | a product's stock annotation is NULL exactly when it has no stock record, and otherwise not negative |
| ProductQueries.SummedStockMatchesFilter | inventory_management/handlers/product_managers.py:26-33 | the annotation equals the stock summed over the inventory filter for the product |
| ProductQueries.ProductsWithStock | inventory_management/handlers/product_managers.py:26-33 | every product, in order, with its summed stock |
| ProductQueries.ProductsWithLowStock | inventory_management/handlers/product_managers.py:71-81 | exactly the products whose summed stock is non-NULL and at most the threshold |
| ProductQueries.WithoutInventoryNeverLow | inventory_management/handlers/product_managers.py:81 | a product without stock records is never reported as low |
| ProductQueries.ProductsInPriceRange | inventory_management/handlers/product_managers.py:83-94 | exactly the products whose sale price lies in the inclusive range |
| ProductQueries.ProductsByCategory | inventory_management/handlers/product_managers.py:47-57 | exactly the products of the category, as a subsequence |
| ProductQueries.ProductsBySupplier | inventory_management/handlers/product_managers.py:59-69 | exactly the products of the supplier (or of none), as a subsequence |
| ProductQueries.ProductsByVariation | inventory_management/handlers/product_managers.py:35-45 | every product is kept, each carrying only its variations with the given id |
| ProductQueries.ByVariationAtMostOne | inventory_management/handlers/product_managers.py:45 | with unique variation ids each product carries at most that one variation |
| ProductQueries.SalesSummary | inventory_management/handlers/product_managers.py:96-105 | the totals are the sums over products of sale price × stock and (sale − purchase price) × stock, with NULL stock contributing nothing |
| ProductQueries.SummaryOfNoProducts | inventory_management/handlers/product_managers.py:103-104 | with no products both totals are 0, not NULL |
| ProductQueries.GainsNonNegative | inventory_management/handlers/product_managers.py:104 | when every product passes the price rule and no stock is negative, the per-product gains, and so their sum, are not negative |
| ProductQueries.SummaryOfSavedProductsHasNoLoss | inventory_management/handlers/product_managers.py:96-105 | over products that pass the price rule, the summary's total gains are not negative |
| ProductQueries.GainsAtMostSales | inventory_management/handlers/product_managers.py:103-104 | with non-negative purchase prices and stock, the summed gains never exceed the summed sales |
| ProductQueries.SummaryGainsAtMostSales | inventory_management/handlers/product_managers.py:96-105 | with non-negative purchase prices, the summary's gains never exceed its sales |
| ProductQueries.SummaryExample | inventory_management/handlers/product_managers.py:103-105 | 4 units bought at 10.00 and sold at 15.00 give sales 60.00 and gains 20.00 |
| VariationQueries.VariationsByProduct | inventory_management/handlers/variation_managers.py:5-6 | exactly the product's variations, as a subsequence |
| VariationQueries.FilterByState | inventory_management/handlers/variation_managers.py:8-9 | exactly the variations in the state, as a subsequence |
| VariationQueries.Bump | inventory_management/handlers/variation_managers.py:12 | counting one more variation adds one to its category's group, or adds a group of one |
| VariationQueries.GroupByCategory | inventory_management/handlers/variation_managers.py:11-12 | one group per occurring category, none for the others, no duplicates, each counting its category's variations (at least one), counts summing to the number of variations |
| VariationQueries.GroupOrderExample | inventory_management/handlers/variation_managers.py:11-12 | a size followed by a colour groups as colour first, then size: groups come in order of last occurrence |
| VariationQueries.GroupCounts | inventory_management/handlers/variation_managers.py:12 | each group's count is the number of variations of its category |
| VariationQueries.CategoriesCoverAll | inventory_management/models.py:99-102 | sizes and colours together count every variation, and no other category is grouped |
| Purchasing.ParsePurchaseState | purchasing_management/models.py:7-11 | only "cancelada", "finalizada" and "pendiente" name a state, and a parsed state's code is the input |
| Purchasing.PurchaseStateRoundTrip | purchasing_management/models.py:7-14 | every state reads back as itself from its code |
| Purchasing.NewPurchase | purchasing_management/models.py:12-14 | a new purchase is "finalizada" with a NULL tax |
| Purchasing.NewPurchaseItem | purchasing_management/models.py:34-36 | a new line orders one unit |
| Purchasing.SetState | purchasing_management/models.py:14 | any state can be set from any state, and nothing else changes |
| Purchasing.FindProduct | purchasing_management/models.py:41 | the product with the id, none exactly when absent, and with unique ids the only such product |
| Purchasing.Subtotal | purchasing_management/models.py:38-41 | a line's subtotal is its product's current purchase price times its quantity |
| Purchasing.Total | purchasing_management/models.py:18-21 | the total fails exactly when the tax is NULL; otherwise it exceeds the lines' sum by the tax |
| Purchasing.NoLinesTotalIsTax | purchasing_management/models.py:21 | a purchase without lines totals its tax |
| Purchasing.NoLinesSumToZero | purchasing_management/models.py:21 | the lines of a purchase without lines sum to 0 |
| Purchasing.LinesTotalFollowsPrice | purchasing_management/models.py:38-41 | changing one product's purchase price moves the lines' sum by the change times the units ordered |
| Purchasing.TotalExample | purchasing_management/models.py:18-21 | 10.00 × 2 and 5.00 × 3 with 2.50 tax total 37.50, and 41.50 once the first price is 12.00 |
| Purchasing.DefaultPurchaseHasNoTotal | purchasing_management/models.py:13-21 | a purchase created with its default NULL tax has no total |
| Purchasing.TotalWithOptionalTax | purchasing_management/models.py:18-21 | the corrected total agrees with `Total` whenever a tax is set, and is the lines' sum when it is NULL |
| Purchasing.DefaultPurchaseTotalsZero | purchasing_management/models.py:13-21 | with the correction a fresh purchase without lines totals 0.00 |
| Admin.FirstInventory | inventory_management/admin.py:61 | the product's stock record with the lowest id, none exactly when it has none |
| Admin.StockColumn | inventory_management/admin.py:59-62 | 0 when the product has no stock record; otherwise, with unique ids, the stock of its lowest-id record |
| Admin.StockColumnAtMostSummed | inventory_management/admin.py:61-62 | the column never shows more than the summed stock annotation |
| Admin.FirstAndSummedDiffer | inventory_management/admin.py:61 | with records of 5 and 3 units the column shows 5 while the annotation sums 8 |
| Admin.AdminProducts | inventory_management/admin.py:48-57 | unless both price parameters are non-empty the products are unchanged; with both, exactly the products whose purchase price lies in the inclusive range |
| Admin.AdminFilterIsNotSaleRange | inventory_management/admin.py:55 | the admin filter reads the purchase price: a product can lie in the manager's sale-price range and outside the admin's |
| ProductForm.CleanImage | inventory_management/forms.py:9-18 | an image is accepted exactly when present and within 1 MB, 800 wide and 600 high, and then returned unchanged; a missing image is refused, and size is checked before dimensions |
| ProductForm.BoundsAreInclusive | inventory_management/forms.py:12-15 | exactly 1048576 bytes at 800 × 600 passes; one byte or pixel more is refused with the matching error |
| ProductForm.SmallerImageStaysAccepted | inventory_management/forms.py:12-16 | shrinking an accepted image in size or dimensions keeps it accepted |

## Left out

- The Django ORM mechanics are not modelled, since they are plumbing with no effect on results: `select_related`/`prefetch_related`, query-set laziness, SQL generation, indexes and table names.
- `get_all_products` is not modelled. It only adds prefetching, so it returns every product.
- The nested-set fields `lft`/`rght`/`tree_id` of the tree library are not modelled. The tree is a parent map with the stored `level`, and the library's own refusal of a move into the category's own subtree becomes the `InvalidMove` error.
- Sibling order is only defined, as the ghost `CategoryTree.Children`: by name, by code point. No write keeps a stored order. Database collation is not modelled.
- CategoryTree.SortSiblings: orders equal-named siblings by id. The source declares only `order_insertion_by = ['name']` (inventory_management/models.py:16): the tree library places an inserted or moved category before the first sibling whose name is strictly greater, so equal-named siblings keep the order in which they were inserted or moved. A snapshot does not record that order, and the id tie-break stands in for it. `CategoryTree.Children` promises name order only.
- `CategoryTree.FilterByName` lower-cases ASCII letters only. Unicode case folding, which a database `icontains` may apply, is not modelled.
- Slugs, `AutoSlugField`, and the `auto_now`/`auto_now_add` timestamps are left out. They are library behaviour and the clock. `Product.Meta.ordering = ['registration_date', 'category']` (inventory_management/models.py:89) is left out with them, so query results keep table order. A save appends the saved row (`Seqs.Upsert`), so an updated product moves to the end of the table and of every query over it; in the source an update that keeps the product's category keeps its place.
- The admin UI is left out: list displays, inlines, search, `add_view` messages, and the import/export resources.
- Image storage and decoding are left out. Only a present flag (a non-empty name), the size and the dimensions of the image are modelled.
- The `__str__` methods are left out. They are presentation only, and three of them refer to a `product.name` that does not exist: `Inventory.__str__` (inventory_management/models.py:142), `ProductIssue.__str__` (inventory_management/models.py:167) and `PurchaseItem.__str__` (purchasing_management/models.py:45).
- Decimal rounding and `max_digits` overflow are left out, since money is integer cents.
- The model trusts stored enumeration values. A stored string outside the declared choices cannot be represented; the parse functions return `None` for such strings.
- VariationQueries.FilterByState: takes a declared state, while `filter_by_state` accepts any string. A display label such as "Disponible", or any other string that is not a stored code, matches no variation; the model does not represent that call.
- Admin.AdminProducts: takes its price parameters already converted to cents. A value that does not parse as a decimal is not modelled.
- The unique constraint on supplier names is not modelled, because no supplier save is modelled.
- Product writes that bypass `save()`, such as query-set `update()` or bulk creation, are not modelled.
- Concurrency and transactions are not modelled; the source has none of its own.
- The rows of `VariationQueries.GroupByCategory` come in order of last occurrence, the category seen latest first (`VariationQueries.GroupOrderExample`). The database's row order for `GROUP BY` is not modelled.
- ProductQueries.SalesSummary: takes the stock-annotated product list. `sales_summary` as written (inventory_management/handlers/product_managers.py:103-104) reads `F('stock')` on the manager's own query set, which carries no `stock` annotation, and `Product` has no `stock` field, so the call raises `FieldError`. In addition, none of `Category`, `Product`, `Inventory` and `Variation` declares `objects = …` (inventory_management/models.py), so `CategoryManager`, `ProductManager`, `InventoryManager` and `VariationManager` are all unreachable through the models' `objects`; every manager operation is modelled as what its body computes. The model states what the method computes over an annotated list.
- Store.SaveProduct: takes both prices as integers. `sale_price` is `blank=True` without `null=True` (inventory_management/models.py:68), so a form that leaves it empty sets it to `None`, and the comparison at line 79 then raises `TypeError`, not a validation error. That error path is not modelled.
- ProductForm.CleanImage: takes the image's width and height as given. For a new upload, `cleaned_data['image']` is the uploaded file that `forms.ImageField` returns, which has no `width` or `height`; so for every new upload of 1 MB or less, line 14 of inventory_management/forms.py raises `AttributeError`. Only a stored image file (an edit that keeps the current image) has dimensions. The model describes the check as if the dimensions were always available.

## Findings

| source | as written | input that shows it | evidently intended | confidence | as-written member | corrected member |
|---|---|---|---|---|---|---|
| purchasing_management/models.py:13-21 | `total` adds `tax` to the sum of subtotals without checking for NULL, although `tax` is nullable and defaults to NULL | a purchase created with only its supplier (tax NULL): reading `total` raises instead of returning the lines' sum | a missing tax counts as 0.00 | high (not executed) | Purchasing.DefaultPurchaseHasNoTotal | Purchasing.TotalWithOptionalTax |
