/** The inventory records of the catalog: suppliers, products, variations, stock
    records and product issues, with their field defaults, their enumerated
    domains and the price rule a product must satisfy to be saved.
    Money is held in integer cents (the source's two-decimal `DecimalField`s). */
module Catalog {
  import opened Wrappers

  /** A supplier; its name is unique across suppliers. */
  datatype Supplier = Supplier(
    id: int,
    name: string,
    url: Option<string>,
    supplierType: Option<string>,
    description: Option<string>)

  /** The primary key of a supplier row. */
  function SupplierKey(s: Supplier): int
  {
    s.id
  }

  /** A product.  `categoryId` is required; `supplierId` is nullable. */
  datatype Product = Product(
    id: int,
    categoryId: int,
    supplierId: Option<int>,
    description: string,
    purchasePrice: int,
    salePrice: int)

  /** The primary key of a product row. */
  function ProductKey(p: Product): int
  {
    p.id
  }

  /** The two kinds of variation (`VAR_CATEGORIES`). */
  datatype VariationCategory = Talla | Color

  /** The three variation states (`STATE`). */
  datatype VariationState = Disponible | NoDisponible | Eliminado

  /** A variation of a product: a size or a colour with an availability state. */
  datatype Variation = Variation(
    id: int,
    productId: int,
    category: VariationCategory,
    name: string,
    state: VariationState)

  /** The primary key of a variation row. */
  function VariationKey(v: Variation): int
  {
    v.id
  }

  /** A stock record.  `currentStock` is a `PositiveIntegerField`, which admits 0. */
  datatype Inventory = Inventory(
    id: int,
    productId: int,
    currentStock: nat,
    active: bool)

  /** The primary key of a stock record. */
  function InventoryKey(inv: Inventory): int
  {
    inv.id
  }

  /** The two issue kinds (`PRODUCT_ISSUE_TYPES`). */
  datatype IssueType = PorDefecto | Danado

  /** A problem recorded against a product; at most one per product. */
  datatype ProductIssue = ProductIssue(
    id: int,
    productId: int,
    issueType: IssueType,
    notes: Option<string>)

  /** The primary key of an issue row. */
  function IssueKey(i: ProductIssue): int
  {
    i.id
  }

  /** The one-to-one `product` column of an issue, unique across issues. */
  function IssueProductKey(i: ProductIssue): int
  {
    i.productId
  }

  /** The value stored in the `category` column for each variation kind. */
  function VariationCategoryCode(c: VariationCategory): string
  {
    match c
    case Talla => "talla"
    case Color => "color"
  }

  /** Reads a stored `category` value back; only the declared choices are accepted. */
  function ParseVariationCategory(s: string): (r: Option<VariationCategory>)
    ensures r.Some? <==> s == "talla" || s == "color"
    ensures r.Some? ==> VariationCategoryCode(r.value) == s
  {
    if s == "talla" then Some(Talla)
    else if s == "color" then Some(Color)
    else None
  }

  /** The value stored in the `state` column for each variation state. */
  function VariationStateCode(st: VariationState): string
  {
    match st
    case Disponible => "disponible"
    case NoDisponible => "no disponible"
    case Eliminado => "eliminado"
  }

  /** Reads a stored `state` value back; only the declared choices are accepted. */
  function ParseVariationState(s: string): (r: Option<VariationState>)
    ensures r.Some? <==> s == "disponible" || s == "no disponible" || s == "eliminado"
    ensures r.Some? ==> VariationStateCode(r.value) == s
  {
    if s == "disponible" then Some(Disponible)
    else if s == "no disponible" then Some(NoDisponible)
    else if s == "eliminado" then Some(Eliminado)
    else None
  }

  /** The value stored in the `issue_type` column for each issue kind. */
  function IssueTypeCode(t: IssueType): string
  {
    match t
    case PorDefecto => "por defecto"
    case Danado => "dañado"
  }

  /** Reads a stored `issue_type` value back; only the declared choices are accepted. */
  function ParseIssueType(s: string): (r: Option<IssueType>)
    ensures r.Some? <==> s == "por defecto" || s == "dañado"
    ensures r.Some? ==> IssueTypeCode(r.value) == s
  {
    if s == "por defecto" then Some(PorDefecto)
    else if s == "dañado" then Some(Danado)
    else None
  }

  /** Every enumerated value is stored under a distinct code and reads back as itself. */
  lemma CodesRoundTrip(c: VariationCategory, st: VariationState, t: IssueType)
    ensures ParseVariationCategory(VariationCategoryCode(c)) == Some(c)
    ensures ParseVariationState(VariationStateCode(st)) == Some(st)
    ensures ParseIssueType(IssueTypeCode(t)) == Some(t)
  {
  }

  /** A variation created with only its product and name. */
  function NewVariation(id: int, productId: int, name: string): (v: Variation)
    ensures VariationCategoryCode(v.category) == "talla"
    ensures VariationStateCode(v.state) == "disponible"
    ensures v.id == id && v.productId == productId && v.name == name
  {
    Variation(id, productId, Talla, name, Disponible)
  }

  /** A stock record created with only its product. */
  function NewInventory(id: int, productId: int): (inv: Inventory)
    ensures inv.currentStock == 0 && inv.active
    ensures inv.id == id && inv.productId == productId
  {
    Inventory(id, productId, 0, true)
  }

  /** An issue created with only its product. */
  function NewIssue(id: int, productId: int): (i: ProductIssue)
    ensures IssueTypeCode(i.issueType) == "por defecto"
    ensures i.notes.None?
    ensures i.id == id && i.productId == productId
  {
    ProductIssue(id, productId, PorDefecto, None)
  }

  /** A product created without prices: both prices default to 0.00. */
  function NewProduct(id: int, categoryId: int, supplierId: Option<int>, description: string): (p: Product)
    ensures p.purchasePrice == 0 && p.salePrice == 0
    ensures p.id == id && p.categoryId == categoryId && p.supplierId == supplierId
    ensures p.description == description
  {
    Product(id, categoryId, supplierId, description, 0, 0)
  }

  /** The rule `Product.save` checks before writing: the sale price must exceed the
      purchase price. */
  predicate PriceRuleHolds(p: Product)
  {
    p.salePrice > p.purchasePrice
  }
}
