/** Entities and field rules of the warehouse app, in the schema that the
    views and serializers use: one Stock row per (product, branch) and IN/OUT
    movements that name a single branch. */
module WarehouseModels {
  import opened Wrappers

  /** Quantities are decimals with three places; the model counts thousandths
      of a unit, so 1.250 kg is 1250. */
  const QuantityScale: int := 1000

  /** max_digits=14 with decimal_places=3: a stored quantity has at most 11
      digits before the point, that is, fewer than 10^11 units or 10^14
      thousandths in absolute value. */
  const QuantityLimit: int := 100_000_000_000 * QuantityScale

  /** A new Stock row holds quantity 0 unless one is given. */
  const DefaultStockQuantity: int := 0

  /** The value fits the numeric(14, 3) column of Stock.quantity and
      StockMovement.quantity. */
  predicate FitsQuantityColumn(q: int)
  {
    -QuantityLimit < q < QuantityLimit
  }

  datatype MovementType = In | Out

  /** The stored code of a movement type. */
  function MovementTypeCode(t: MovementType): (code: string)
    ensures ParseMovementType(code) == Some(t)
  {
    match t
    case In => "in"
    case Out => "out"
  }

  /** The choice field accepts exactly the two codes "in" and "out". */
  function ParseMovementType(code: string): (r: Option<MovementType>)
    ensures r.Some? <==> code == "in" || code == "out"
    ensures r.Some? ==> code == (if r.value == In then "in" else "out")
  {
    if code == "in" then Some(In)
    else if code == "out" then Some(Out)
    else None
  }

  datatype ProductStatus = Active | Inactive

  /** A product as the ledger sees it: its key and the store that owns it.
      Neither changes after creation (no serializer writes `store`). */
  datatype ProductRef = ProductRef(id: nat, store: nat)

  /** A branch of a store. */
  datatype BranchRef = BranchRef(id: nat, store: nat)

  /** A place stock can sit: a branch or, since the expanded schema, a
      warehouse. Two locations are equal only with the same kind and id. */
  datatype Location = Branch(id: nat) | Warehouse(id: nat)

  /** The key of a Stock row. */
  datatype StockKey = StockKey(product: ProductRef, location: Location)

  /** The Stock table: one quantity per key, so a key has at most one row. */
  type StockTable = map<StockKey, int>

  /** A StockMovement row. */
  datatype Movement = Movement(
    product: ProductRef,
    branch: BranchRef,
    kind: MovementType,
    quantity: int,
    note: string,
    worker: Option<nat>)

  /** The Stock row a movement or a manual stock entry refers to. */
  function StockKeyOf(product: ProductRef, branch: BranchRef): (k: StockKey)
    ensures k.product == product && k.location.Branch? && k.location.id == branch.id
  {
    StockKey(product, Branch(branch.id))
  }

  datatype Category = Category(store: nat, name: string, description: string, status: ProductStatus)

  datatype Product = Product(
    ref: ProductRef,
    name: string,
    category: Option<nat>,
    barcode: Option<string>,
    status: ProductStatus)

  /** unique_together (store, name) on Category, over the table by primary key. */
  predicate CategoryNamesUnique(cats: map<nat, Category>)
  {
    forall a, b | a in cats && b in cats && a != b ::
      cats[a].store != cats[b].store || cats[a].name != cats[b].name
  }

  /** No two products of one store share a (non-null) barcode. */
  predicate BarcodesUnique(products: map<nat, Product>)
  {
    forall a, b | a in products && b in products && a != b ::
      products[a].ref.store != products[b].ref.store
      || products[a].barcode.None?
      || products[a].barcode != products[b].barcode
  }

  /** The quantity on hand for a key: a missing row counts as zero. */
  function Balance(s: StockTable, k: StockKey): (q: int)
    ensures k !in s ==> q == 0
    ensures k in s ==> q == s[k]
  {
    if k in s then s[k] else 0
  }

  /** No Stock row holds a negative quantity. */
  predicate NonNegative(s: StockTable)
  {
    forall k | k in s :: s[k] >= 0
  }
}
