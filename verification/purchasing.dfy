/** Purchase orders and their line items.  A line's subtotal is computed on every
    read from the product's current purchase price, and a purchase's total is the
    sum of its lines' subtotals plus its tax. */
module Purchasing {
  import opened Wrappers
  import opened Seqs
  import opened Catalog

  /** The three purchase states (`STATE`). */
  datatype PurchaseState = Cancelada | Finalizada | Pendiente

  /** A purchase order from a supplier; `tax` is nullable. */
  datatype Purchase = Purchase(id: int, supplierId: int, tax: Option<int>, state: PurchaseState)

  /** A line of a purchase.  `quantity` is a `PositiveIntegerField`, which admits 0. */
  datatype PurchaseItem = PurchaseItem(id: int, purchaseId: int, productId: int, quantity: nat)

  /** The primary key of a purchase row. */
  function PurchaseKey(p: Purchase): int
  {
    p.id
  }

  /** The primary key of a line row. */
  function ItemKey(it: PurchaseItem): int
  {
    it.id
  }

  /** Why reading `Purchase.total` fails. */
  datatype TotalError =
    | NullTax   // `tax` is NULL and Python cannot add `None` to a number

  function PurchaseStateCode(st: PurchaseState): string
  {
    match st
    case Cancelada => "cancelada"
    case Finalizada => "finalizada"
    case Pendiente => "pendiente"
  }

  /** Reads a stored `state` value back; only the declared choices are accepted. */
  function ParsePurchaseState(s: string): (r: Option<PurchaseState>)
    ensures r.Some? <==> s == "cancelada" || s == "finalizada" || s == "pendiente"
    ensures r.Some? ==> PurchaseStateCode(r.value) == s
  {
    if s == "cancelada" then Some(Cancelada)
    else if s == "finalizada" then Some(Finalizada)
    else if s == "pendiente" then Some(Pendiente)
    else None
  }

  /** Every state is stored under its own code and reads back as itself. */
  lemma PurchaseStateRoundTrip(st: PurchaseState)
    ensures ParsePurchaseState(PurchaseStateCode(st)) == Some(st)
  {
  }

  /** A purchase created with only its supplier. */
  function NewPurchase(id: int, supplierId: int): (p: Purchase)
    ensures PurchaseStateCode(p.state) == "finalizada"
    ensures p.tax.None?
    ensures p.id == id && p.supplierId == supplierId
  {
    Purchase(id, supplierId, None, Finalizada)
  }

  /** A purchase line created with only its purchase and product. */
  function NewPurchaseItem(id: int, purchaseId: int, productId: int): (it: PurchaseItem)
    ensures it.quantity == 1
    ensures it.id == id && it.purchaseId == purchaseId && it.productId == productId
  {
    PurchaseItem(id, purchaseId, productId, 1)
  }

  /** Assigning a state: no transition is refused, whatever the current state. */
  function SetState(p: Purchase, st: PurchaseState): (r: Purchase)
    ensures r.state == st
    ensures r.id == p.id && r.supplierId == p.supplierId && r.tax == p.tax
  {
    p.(state := st)
  }

  /** The stored product with the given id (the first, should ids repeat). */
  function FindProduct(products: seq<Product>, id: int): (r: Option<Product>)
    ensures r.None? <==> forall q :: q in products ==> q.id != id
    ensures r.Some? ==> r.value in products && r.value.id == id
    ensures KeysDistinct(products, ProductKey) ==>
              forall q :: q in products && q.id == id ==> r == Some(q)
  {
    if |products| == 0 then None
    else if products[0].id == id then Some(products[0])
    else
      var r := FindProduct(products[1..], id);
      assert KeysDistinct(products, ProductKey) ==> KeysDistinct(products[1..], ProductKey);
      r
  }

  /** `PurchaseItem.subtotal`: the line's quantity at its product's current
      purchase price. */
  function Subtotal(item: PurchaseItem, products: seq<Product>): (r: int)
    requires FindProduct(products, item.productId).Some?
    ensures KeysDistinct(products, ProductKey) ==>
              forall q :: q in products && q.id == item.productId ==> r == q.purchasePrice * item.quantity
  {
    FindProduct(products, item.productId).value.purchasePrice * item.quantity
  }

  /** Every line of the purchase names a stored product. */
  predicate LinesResolve(purchaseId: int, items: seq<PurchaseItem>, products: seq<Product>)
  {
    forall it :: it in items && it.purchaseId == purchaseId ==> FindProduct(products, it.productId).Some?
  }

  /** The sum of the subtotals of the purchase's lines (`self.items.all()`). */
  function LinesTotal(purchaseId: int, items: seq<PurchaseItem>, products: seq<Product>): int
    requires LinesResolve(purchaseId, items, products)
  {
    if |items| == 0 then 0
    else
      assert items[0] in items;
      var rest := LinesTotal(purchaseId, items[1..], products);
      if items[0].purchaseId == purchaseId then Subtotal(items[0], products) + rest else rest
  }

  /** How many units of `productId` the purchase's lines order. */
  function QuantityOf(purchaseId: int, productId: int, items: seq<PurchaseItem>): nat
  {
    if |items| == 0 then 0
    else
      var rest := QuantityOf(purchaseId, productId, items[1..]);
      if items[0].purchaseId == purchaseId && items[0].productId == productId then items[0].quantity + rest else rest
  }

  /** `Purchase.total`: the lines' subtotals plus the tax.  With a NULL tax the
      addition raises, so there is no total. */
  function Total(purchase: Purchase, items: seq<PurchaseItem>, products: seq<Product>): (r: Result<int, TotalError>)
    requires LinesResolve(purchase.id, items, products)
    ensures r.Failure? <==> purchase.tax.None?
    ensures r.Success? ==> r.value - purchase.tax.value == LinesTotal(purchase.id, items, products)
  {
    match purchase.tax
    case None => Failure(NullTax)
    case Some(t) => Success(LinesTotal(purchase.id, items, products) + t)
  }

  /** A purchase without lines totals its tax. */
  lemma {:induction false} NoLinesTotalIsTax(purchase: Purchase, items: seq<PurchaseItem>, products: seq<Product>)
    requires purchase.tax.Some?
    requires forall it :: it in items ==> it.purchaseId != purchase.id
    ensures LinesResolve(purchase.id, items, products)
    ensures Total(purchase, items, products) == Success(purchase.tax.value)
  {
    NoLinesSumToZero(purchase.id, items, products);
  }

  lemma {:induction false} NoLinesSumToZero(purchaseId: int, items: seq<PurchaseItem>, products: seq<Product>)
    requires forall it :: it in items ==> it.purchaseId != purchaseId
    ensures LinesResolve(purchaseId, items, products)
    ensures LinesTotal(purchaseId, items, products) == 0
  {
    if |items| > 0 {
      assert items[0] in items;
      NoLinesSumToZero(purchaseId, items[1..], products);
    }
  }

  /** Subtotals are read live: when one product's purchase price moves from `x` to
      `y` and every other product is unchanged, the lines' sum moves by `y - x` for
      each unit of that product the purchase orders. */
  lemma {:induction false} LinesTotalFollowsPrice(
    purchaseId: int, items: seq<PurchaseItem>, products: seq<Product>, products': seq<Product>, a: int)
    requires LinesResolve(purchaseId, items, products)
    requires FindProduct(products, a).Some? && FindProduct(products', a).Some?
    requires forall id :: id != a ==> FindProduct(products', id) == FindProduct(products, id)
    ensures LinesResolve(purchaseId, items, products')
    ensures LinesTotal(purchaseId, items, products') == LinesTotal(purchaseId, items, products)
              + (FindProduct(products', a).value.purchasePrice - FindProduct(products, a).value.purchasePrice)
                * QuantityOf(purchaseId, a, items)
  {
    if |items| > 0 {
      var it := items[0];
      assert it in items;
      LinesTotalFollowsPrice(purchaseId, items[1..], products, products', a);
      var x := FindProduct(products, a).value.purchasePrice;
      var y := FindProduct(products', a).value.purchasePrice;
      var rest := LinesTotal(purchaseId, items[1..], products);
      var rest' := LinesTotal(purchaseId, items[1..], products');
      var qRest := QuantityOf(purchaseId, a, items[1..]);
      assert rest' == rest + (y - x) * qRest;
      if it.purchaseId == purchaseId {
        if it.productId == a {
          assert Subtotal(it, products') - Subtotal(it, products) == (y - x) * it.quantity by {
            assert Subtotal(it, products') == y * it.quantity;
            assert Subtotal(it, products) == x * it.quantity;
            MulSubDistributes(y, x, it.quantity);
          }
          assert QuantityOf(purchaseId, a, items) == it.quantity + qRest;
          MulAddDistributes(y - x, it.quantity, qRest);
        } else {
          assert FindProduct(products', it.productId) == FindProduct(products, it.productId);
        }
      }
    }
  }

  /** As written, a purchase created with its defaults has no total at all: its
      tax defaults to NULL, and `total` adds the tax without a check. */
  lemma DefaultPurchaseHasNoTotal(id: int, supplierId: int, items: seq<PurchaseItem>, products: seq<Product>)
    requires LinesResolve(id, items, products)
    ensures Total(NewPurchase(id, supplierId), items, products) == Failure(NullTax)
  {
  }

  /** `total` with a NULL tax counted as 0.00, which the field being optional
      evidently intends; it agrees with `Total` whenever a tax is set. */
  function TotalWithOptionalTax(purchase: Purchase, items: seq<PurchaseItem>, products: seq<Product>): (r: int)
    requires LinesResolve(purchase.id, items, products)
    ensures purchase.tax.Some? ==> Total(purchase, items, products) == Success(r)
    ensures purchase.tax.None? ==> r == LinesTotal(purchase.id, items, products)
  {
    LinesTotal(purchase.id, items, products) + purchase.tax.GetOr(0)
  }

  /** With the correction a fresh purchase without lines totals 0.00. */
  lemma {:induction false} DefaultPurchaseTotalsZero(id: int, supplierId: int, items: seq<PurchaseItem>, products: seq<Product>)
    requires forall it :: it in items ==> it.purchaseId != id
    ensures LinesResolve(id, items, products)
    ensures TotalWithOptionalTax(NewPurchase(id, supplierId), items, products) == 0
  {
    NoLinesSumToZero(id, items, products);
  }

  /** Two lines, 10.00 x 2 and 5.00 x 3, with 2.50 tax total 37.50; once the first
      product costs 12.00 the same purchase totals 41.50. */
  lemma TotalExample(a: Product, b: Product, purchase: Purchase, items: seq<PurchaseItem>)
    requires a == Product(1, 1, None, "A", 1000, 1500) && b == Product(2, 1, None, "B", 500, 900)
    requires purchase == Purchase(1, 1, Some(250), Finalizada)
    requires items == [PurchaseItem(1, 1, 1, 2), PurchaseItem(2, 1, 2, 3)]
    ensures LinesResolve(1, items, [a, b])
    ensures Total(purchase, items, [a, b]) == Success(3750)
    ensures LinesResolve(1, items, [a.(purchasePrice := 1200), b])
    ensures Total(purchase, items, [a.(purchasePrice := 1200), b]) == Success(4150)
  {
    var a' := a.(purchasePrice := 1200);
    assert items[1..][1..] == [];
    assert [a, b][1..] == [b] && [a', b][1..] == [b];
    assert FindProduct([a, b], 1) == Some(a) && FindProduct([a, b], 2) == Some(b);
    assert FindProduct([a', b], 1) == Some(a') && FindProduct([a', b], 2) == Some(b);
    assert LinesTotal(1, items[1..], [a, b]) == 1500;
    assert LinesTotal(1, items, [a, b]) == 3500;
    assert LinesTotal(1, items[1..], [a', b]) == 1500;
    assert LinesTotal(1, items, [a', b]) == 3900;
  }
}
