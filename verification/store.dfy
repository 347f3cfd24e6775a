/** The whole database as one immutable snapshot, and the writes the models
    declare: saving a product (with its price rule), saving an issue (one per
    product), and the deletes with their `on_delete` behaviour: CASCADE,
    RESTRICT and PROTECT.  Every write either fails, leaving the caller's snapshot
    as it was, or yields a snapshot that keeps the database's constraints. */
module Store {
  import opened Wrappers
  import opened Seqs
  import opened Catalog
  import opened CategoryTree
  import opened Purchasing

  /** Every table of the two applications. */
  datatype Snapshot = Snapshot(
    categories: Categories,
    suppliers: seq<Supplier>,
    products: seq<Product>,
    variations: seq<Variation>,
    inventories: seq<Inventory>,
    issues: seq<ProductIssue>,
    purchases: seq<Purchase>,
    items: seq<PurchaseItem>)

  /** Why a write is refused. */
  datatype WriteError =
    | ValidationError   // `Product.save`: the sale price is not above the purchase price
    | IntegrityError    // a foreign key names no row, or a unique column would repeat
    | RestrictedError   // a RESTRICT reference blocks the delete
    | ProtectedError    // a PROTECT reference blocks the delete

  /** Primary keys are unique in every table, and `ProductIssue.product` is
      one-to-one. */
  predicate KeysUnique(db: Snapshot)
  {
    && KeysDistinct(db.suppliers, SupplierKey)
    && KeysDistinct(db.products, ProductKey)
    && KeysDistinct(db.variations, VariationKey)
    && KeysDistinct(db.inventories, InventoryKey)
    && KeysDistinct(db.issues, IssueKey)
    && KeysDistinct(db.issues, IssueProductKey)
    && KeysDistinct(db.purchases, PurchaseKey)
    && KeysDistinct(db.items, ItemKey)
  }

  /** The product's category exists, and so does its supplier when it has one. */
  predicate ProductRefsOk(db: Snapshot, p: Product)
  {
    p.categoryId in db.categories
    && (p.supplierId.Some? ==> p.supplierId.value in Ids(db.suppliers, SupplierKey))
  }

  /** Every foreign key names an existing row. */
  predicate RefsOk(db: Snapshot)
  {
    && (forall p :: p in db.products ==> ProductRefsOk(db, p))
    && (forall v :: v in db.variations ==> v.productId in Ids(db.products, ProductKey))
    && (forall inv :: inv in db.inventories ==> inv.productId in Ids(db.products, ProductKey))
    && (forall i :: i in db.issues ==> i.productId in Ids(db.products, ProductKey))
    && (forall pu :: pu in db.purchases ==> pu.supplierId in Ids(db.suppliers, SupplierKey))
    && (forall it :: it in db.items ==> it.purchaseId in Ids(db.purchases, PurchaseKey))
    && (forall it :: it in db.items ==> it.productId in Ids(db.products, ProductKey))
  }

  /** The constraints of a database written only through the modelled operations:
      a consistent category forest, unique keys, resolving foreign keys, and the
      price rule on every stored product. */
  predicate Valid(db: Snapshot)
  {
    && Consistent(db.categories)
    && KeysUnique(db)
    && RefsOk(db)
    && (forall p :: p in db.products ==> PriceRuleHolds(p))
  }

  /** A save adds exactly the saved row's key to the table's keys. */
  lemma UpsertIds<T(!new)>(s: seq<T>, x: T, key: T -> int)
    ensures Ids(Upsert(s, x, key), key) == Ids(s, key) + {key(x)}
  {
    var r := Upsert(s, x, key);
    forall k | k in Ids(s, key)
      ensures k in Ids(r, key)
    {
      var y :| y in s && key(y) == k;
      if key(y) != key(x) {
        assert y in r;
      } else {
        assert x in r;
      }
    }
    assert x in r;
  }

  /** `Product.save`: the price rule is checked before anything is written, then
      the database's foreign keys; the row is then inserted, or updated in place
      of the row with the same id. */
  function SaveProduct(db: Snapshot, p: Product): (r: Result<Snapshot, WriteError>)
    ensures r.Success? <==> PriceRuleHolds(p) && ProductRefsOk(db, p)
    ensures !PriceRuleHolds(p) ==> r == Failure(ValidationError)
    ensures PriceRuleHolds(p) && !ProductRefsOk(db, p) ==> r == Failure(IntegrityError)
    ensures r.Success? ==> r.value == db.(products := r.value.products)
    ensures r.Success? ==> forall q :: q in r.value.products <==> q == p || (q in db.products && q.id != p.id)
    ensures r.Success? && Valid(db) ==> Valid(r.value)
  {
    if !PriceRuleHolds(p) then
      Failure(ValidationError)
    else if !ProductRefsOk(db, p) then
      Failure(IntegrityError)
    else
      var db' := db.(products := Upsert(db.products, p, ProductKey));
      assert Valid(db) ==> Valid(db') by {
        if Valid(db) {
          UpsertKeysDistinct(db.products, p, ProductKey, ProductKey);
          UpsertIds(db.products, p, ProductKey);
        }
      }
      Success(db')
  }

  /** A product left at its default prices of 0.00 is never saved. */
  lemma DefaultProductNeverSaved(db: Snapshot, id: int, categoryId: int, supplierId: Option<int>, description: string)
    ensures SaveProduct(db, NewProduct(id, categoryId, supplierId, description)) == Failure(ValidationError)
  {
  }

  /** `ProductIssue.save`: the product must exist and must not already have an
      issue under another id (the one-to-one column is unique). */
  function SaveIssue(db: Snapshot, issue: ProductIssue): (r: Result<Snapshot, WriteError>)
    ensures r.Success? <==>
              issue.productId in Ids(db.products, ProductKey)
              && forall j :: j in db.issues && j.id != issue.id ==> j.productId != issue.productId
    ensures r.Failure? ==> r.error == IntegrityError
    ensures r.Success? ==> r.value == db.(issues := r.value.issues)
    ensures r.Success? ==> forall j :: j in r.value.issues <==> j == issue || (j in db.issues && j.id != issue.id)
    ensures r.Success? && Valid(db) ==> Valid(r.value)
  {
    if issue.productId !in Ids(db.products, ProductKey) then
      Failure(IntegrityError)
    else if exists j :: j in db.issues && j.id != issue.id && j.productId == issue.productId then
      Failure(IntegrityError)
    else
      var db' := db.(issues := Upsert(db.issues, issue, IssueKey));
      assert Valid(db) ==> Valid(db') by {
        if Valid(db) {
          UpsertKeysDistinct(db.issues, issue, IssueKey, IssueKey);
          UpsertKeysDistinct(db.issues, issue, IssueKey, IssueProductKey);
        }
      }
      Success(db')
  }

  /** In a valid database a product has at most one issue. */
  lemma AtMostOneIssue(db: Snapshot, a: ProductIssue, b: ProductIssue)
    requires Valid(db)
    requires a in db.issues && b in db.issues && a.productId == b.productId
    ensures a == b
  {
    SameKeySameElement(db.issues, IssueProductKey, a, b);
  }

  /** Deleting a product deletes, by CASCADE, its variations, its stock records,
      its issue and the purchase lines that order it.  Nothing references a
      product with RESTRICT or PROTECT, so the delete always succeeds. */
  function DeleteProduct(db: Snapshot, id: int): (r: Snapshot)
    ensures forall q :: q in r.products <==> q in db.products && q.id != id
    ensures forall v :: v in r.variations <==> v in db.variations && v.productId != id
    ensures forall inv :: inv in r.inventories <==> inv in db.inventories && inv.productId != id
    ensures forall i :: i in r.issues <==> i in db.issues && i.productId != id
    ensures forall it :: it in r.items <==> it in db.items && it.productId != id
    ensures r.categories == db.categories && r.suppliers == db.suppliers && r.purchases == db.purchases
    ensures Valid(db) ==> Valid(r)
  {
    var r := db.(
      products := Filter(db.products, (q: Product) => q.id != id),
      variations := Filter(db.variations, (v: Variation) => v.productId != id),
      inventories := Filter(db.inventories, (inv: Inventory) => inv.productId != id),
      issues := Filter(db.issues, (i: ProductIssue) => i.productId != id),
      items := Filter(db.items, (it: PurchaseItem) => it.productId != id));
    assert Valid(db) ==> Valid(r) by {
      if Valid(db) {
        SubsequenceKeysDistinct(r.products, db.products, ProductKey);
        SubsequenceKeysDistinct(r.variations, db.variations, VariationKey);
        SubsequenceKeysDistinct(r.inventories, db.inventories, InventoryKey);
        SubsequenceKeysDistinct(r.issues, db.issues, IssueKey);
        SubsequenceKeysDistinct(r.issues, db.issues, IssueProductKey);
        SubsequenceKeysDistinct(r.items, db.items, ItemKey);
        assert forall k :: k in Ids(db.products, ProductKey) && k != id ==> k in Ids(r.products, ProductKey) by {
          forall k | k in Ids(db.products, ProductKey) && k != id
            ensures k in Ids(r.products, ProductKey)
          {
            var q :| q in db.products && q.id == k;
            assert q in r.products;
          }
        }
      }
    }
    r
  }

  /** Deleting a category also deletes its whole subtree (CASCADE on `parent`),
      and is refused while any product refers to a category of that subtree
      (RESTRICT on `Product.category`).  An unknown id deletes nothing. */
  function DeleteCategory(db: Snapshot, c: int): (r: Result<Snapshot, WriteError>)
    requires Consistent(db.categories)
    ensures r.Failure? <==> exists p :: p in db.products && p.categoryId in Subtree(db.categories, c)
    ensures r.Failure? ==> r.error == RestrictedError
    ensures r.Success? ==> r.value == db.(categories := r.value.categories)
    ensures r.Success? ==> r.value.categories.Keys == db.categories.Keys - Subtree(db.categories, c)
    ensures r.Success? ==> forall x :: x in r.value.categories ==> r.value.categories[x] == db.categories[x]
    ensures r.Success? && Valid(db) ==> Valid(r.value)
  {
    var gone := Subtree(db.categories, c);
    if exists p :: p in db.products && p.categoryId in gone then
      Failure(RestrictedError)
    else
      Success(db.(categories := RemoveSubtree(db.categories, c)))
  }

  /** A category a product refers to directly cannot be deleted. */
  lemma ReferencedCategoryIsRestricted(db: Snapshot, p: Product)
    requires Consistent(db.categories)
    requires p in db.products && p.categoryId in db.categories
    ensures DeleteCategory(db, p.categoryId) == Failure(RestrictedError)
  {
    assert p.categoryId in Subtree(db.categories, p.categoryId);
  }

  /** A successful category delete leaves no descendant of the deleted category. */
  lemma DeleteCategoryRemovesDescendants(db: Snapshot, c: int, x: int)
    requires Consistent(db.categories)
    requires DeleteCategory(db, c).Success?
    requires x in db.categories && InSubtree(db.categories, c, x)
    ensures x !in DeleteCategory(db, c).value.categories
  {
  }

  /** The purchase ids of a supplier. */
  function PurchasesOf(purchases: seq<Purchase>, s: int): (r: set<int>)
    ensures forall k :: k in r <==> exists pu :: pu in purchases && pu.supplierId == s && pu.id == k
  {
    set pu | pu in purchases && pu.supplierId == s :: pu.id
  }

  /** The snapshot without supplier `s`, its purchases and their lines. */
  function WithoutSupplier(db: Snapshot, s: int): (r: Snapshot)
    ensures forall q :: q in r.suppliers <==> q in db.suppliers && q.id != s
    ensures forall pu :: pu in r.purchases <==> pu in db.purchases && pu.supplierId != s
    ensures forall it :: it in r.items <==>
              it in db.items && forall pu :: pu in db.purchases && pu.id == it.purchaseId ==> pu.supplierId != s
    ensures r == db.(suppliers := r.suppliers, purchases := r.purchases, items := r.items)
    ensures IsSubsequence(r.suppliers, db.suppliers)
    ensures IsSubsequence(r.purchases, db.purchases)
    ensures IsSubsequence(r.items, db.items)
  {
    var gone := PurchasesOf(db.purchases, s);
    db.(
      suppliers := Filter(db.suppliers, (q: Supplier) => q.id != s),
      purchases := Filter(db.purchases, (pu: Purchase) => pu.supplierId != s),
      items := Filter(db.items, (it: PurchaseItem) => it.purchaseId !in gone))
  }

  /** Removing a supplier nobody's product refers to keeps the database valid. */
  lemma WithoutSupplierValid(db: Snapshot, s: int)
    requires Valid(db)
    requires forall p :: p in db.products ==> p.supplierId != Some(s)
    ensures Valid(WithoutSupplier(db, s))
  {
    var r := WithoutSupplier(db, s);
    SubsequenceKeysDistinct(r.suppliers, db.suppliers, SupplierKey);
    SubsequenceKeysDistinct(r.purchases, db.purchases, PurchaseKey);
    SubsequenceKeysDistinct(r.items, db.items, ItemKey);
    forall k | k in Ids(db.suppliers, SupplierKey) && k != s
      ensures k in Ids(r.suppliers, SupplierKey)
    {
      var q :| q in db.suppliers && q.id == k;
      assert q in r.suppliers;
    }
    forall it | it in r.items
      ensures it.purchaseId in Ids(r.purchases, PurchaseKey)
    {
      var pu :| pu in db.purchases && pu.id == it.purchaseId;
      assert pu in r.purchases;
    }
  }

  /** Deleting a supplier is refused while any product refers to it (PROTECT);
      otherwise its purchases go with it (CASCADE), and their lines with them. */
  function DeleteSupplier(db: Snapshot, s: int): (r: Result<Snapshot, WriteError>)
    ensures r.Failure? <==> exists p :: p in db.products && p.supplierId == Some(s)
    ensures r.Failure? ==> r.error == ProtectedError
    ensures r.Success? ==> r.value == WithoutSupplier(db, s)
    ensures r.Success? && Valid(db) ==> Valid(r.value)
  {
    if exists p :: p in db.products && p.supplierId == Some(s) then
      Failure(ProtectedError)
    else
      assert Valid(db) ==> Valid(WithoutSupplier(db, s)) by {
        if Valid(db) {
          WithoutSupplierValid(db, s);
        }
      }
      Success(WithoutSupplier(db, s))
  }

  /** Deleting a purchase deletes its lines (CASCADE). */
  function DeletePurchase(db: Snapshot, id: int): (r: Snapshot)
    ensures forall pu :: pu in r.purchases <==> pu in db.purchases && pu.id != id
    ensures forall it :: it in r.items <==> it in db.items && it.purchaseId != id
    ensures r == db.(purchases := r.purchases, items := r.items)
    ensures Valid(db) ==> Valid(r)
  {
    var r := db.(
      purchases := Filter(db.purchases, (pu: Purchase) => pu.id != id),
      items := Filter(db.items, (it: PurchaseItem) => it.purchaseId != id));
    assert Valid(db) ==> Valid(r) by {
      if Valid(db) {
        SubsequenceKeysDistinct(r.purchases, db.purchases, PurchaseKey);
        SubsequenceKeysDistinct(r.items, db.items, ItemKey);
        forall it | it in r.items
          ensures it.purchaseId in Ids(r.purchases, PurchaseKey)
        {
          var pu :| pu in db.purchases && pu.id == it.purchaseId;
          assert pu in r.purchases;
        }
      }
    }
    r
  }

  /** In a valid database every purchase's lines name stored products, so its
      total is defined whenever its tax is. */
  lemma ValidLinesResolve(db: Snapshot, purchaseId: int)
    requires Valid(db)
    ensures LinesResolve(purchaseId, db.items, db.products)
  {
    forall it | it in db.items && it.purchaseId == purchaseId
      ensures FindProduct(db.products, it.productId).Some?
    {
      var q :| q in db.products && q.id == it.productId;
    }
  }

  /** After a save, looking a product up finds the saved row under its id and
      the same row as before under every other id. */
  lemma FindAfterUpsert(products: seq<Product>, p: Product)
    requires KeysDistinct(products, ProductKey)
    ensures FindProduct(Upsert(products, p, ProductKey), p.id) == Some(p)
    ensures forall id :: id != p.id ==> FindProduct(Upsert(products, p, ProductKey), id) == FindProduct(products, id)
  {
    var saved := Upsert(products, p, ProductKey);
    UpsertKeysDistinct(products, p, ProductKey, ProductKey);
    assert p in saved;
    forall id | id != p.id
      ensures FindProduct(saved, id) == FindProduct(products, id)
    {
      var a := FindProduct(products, id);
      if a.Some? {
        assert a.value in saved;
      }
    }
  }

  /** Re-saving a product moves the sum of a purchase's lines by the change in
      its purchase price times the units of it the purchase orders. */
  lemma RepricingMovesLines(products: seq<Product>, items: seq<PurchaseItem>, before: Product, p: Product, purchaseId: int)
    requires KeysDistinct(products, ProductKey)
    requires before in products && p.id == before.id
    requires LinesResolve(purchaseId, items, products)
    ensures LinesResolve(purchaseId, items, Upsert(products, p, ProductKey))
    ensures LinesTotal(purchaseId, items, Upsert(products, p, ProductKey))
            == LinesTotal(purchaseId, items, products)
               + (p.purchasePrice - before.purchasePrice) * QuantityOf(purchaseId, p.id, items)
  {
    FindAfterUpsert(products, p);
    assert FindProduct(products, p.id) == Some(before);
    LinesTotalFollowsPrice(purchaseId, items, products, Upsert(products, p, ProductKey), p.id);
  }

  /** Re-saving a product at a new purchase price moves every stored purchase's
      total (a NULL tax counted as 0.00) by the price change times the units of
      that product it orders. */
  lemma RepricingMovesTotals(db: Snapshot, before: Product, p: Product, purchase: Purchase)
    requires Valid(db)
    requires before in db.products && p.id == before.id
    requires SaveProduct(db, p).Success?
    ensures LinesResolve(purchase.id, db.items, db.products)
    ensures LinesResolve(purchase.id, db.items, SaveProduct(db, p).value.products)
    ensures TotalWithOptionalTax(purchase, db.items, SaveProduct(db, p).value.products)
            == TotalWithOptionalTax(purchase, db.items, db.products)
               + (p.purchasePrice - before.purchasePrice) * QuantityOf(purchase.id, p.id, db.items)
  {
    ValidLinesResolve(db, purchase.id);
    assert KeysDistinct(db.products, ProductKey);
    RepricingMovesLines(db.products, db.items, before, p, purchase.id);
    assert SaveProduct(db, p).value.products == Upsert(db.products, p, ProductKey);
  }
}
