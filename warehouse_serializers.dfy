/** The validators of the warehouse serializers. Each one only reads the
    tables it is given and either rejects the input or returns the value to
    store. The store context is `Some(id)` for a worker with a store and
    `None` otherwise; with `None` the tenant checks are skipped, as the
    source's `if store:` guards do. */
module WarehouseSerializers {
  import opened Wrappers
  import opened WarehouseModels

  datatype WarehouseError =
    | QuantityOutOfRange          // more digits than numeric(14, 3) holds
    | NonPositiveQuantity
    | ForeignProduct
    | ForeignBranch
    | ForeignCategory
    | NullCategory                // `value.store` on None: an AttributeError, not a 400
    | NoStockRow
    | InsufficientStock(available: int)
    | DuplicateStock
    | DuplicateCategoryName
    | DuplicateBarcode

  /** The fields of a POST to the movement endpoint. */
  datatype MovementRequest = MovementRequest(
    product: ProductRef,
    branch: BranchRef,
    kind: MovementType,
    quantity: int,
    note: string)

  /** Both the product and the branch belong to the caller's store, or there
      is no store to compare with. */
  predicate InTenant(store: Option<nat>, product: ProductRef, branch: BranchRef)
  {
    store.None? || (product.store == store.value && branch.store == store.value)
  }

  /** The quantity field: the column's digit bound, then `validate_quantity`. */
  function ValidateQuantity(q: int): (r: Result<int, WarehouseError>)
    ensures r.Ok? <==> FitsQuantityColumn(q) && q > 0
    ensures r.Ok? ==> r.value == q
    ensures r == Err(NonPositiveQuantity) <==> FitsQuantityColumn(q) && q <= 0
  {
    if !FitsQuantityColumn(q) then Err(QuantityOutOfRange)
    else if q <= 0 then Err(NonPositiveQuantity)
    else Ok(q)
  }

  /** What an accepted movement satisfies, stated without the order in which
      the checks run. */
  predicate MovementAdmissible(store: Option<nat>, req: MovementRequest, stock: StockTable)
  {
    && FitsQuantityColumn(req.quantity)
    && req.quantity > 0
    && InTenant(store, req.product, req.branch)
    && (req.kind == Out ==>
          StockKeyOf(req.product, req.branch) in stock
          && stock[StockKeyOf(req.product, req.branch)] >= req.quantity)
  }

  /** MovementCreateSerializer: the field checks run first; `validate` then
      checks the tenant and, for an OUT, the existing Stock row. */
  function ValidateMovement(store: Option<nat>, req: MovementRequest, stock: StockTable): (r: Result<MovementRequest, WarehouseError>)
    ensures r.Ok? <==> MovementAdmissible(store, req, stock)
    ensures r.Ok? ==> r.value == req
    ensures (r == Err(ForeignProduct) || r == Err(ForeignBranch)) ==> store.Some?
    ensures req.kind == In ==> r != Err(NoStockRow) && !(r.Err? && r.error.InsufficientStock?)
    ensures r == Err(NoStockRow) ==> req.kind == Out && StockKeyOf(req.product, req.branch) !in stock
    ensures r.Err? && r.error.InsufficientStock? ==>
              && req.kind == Out
              && StockKeyOf(req.product, req.branch) in stock
              && r.error.available == stock[StockKeyOf(req.product, req.branch)] < req.quantity
  {
    match ValidateQuantity(req.quantity)
    case Err(e) => Err(e)
    case Ok(_) =>
      if store.Some? && req.product.store != store.value then Err(ForeignProduct)
      else if store.Some? && req.branch.store != store.value then Err(ForeignBranch)
      else if req.kind == Out then
        var key := StockKeyOf(req.product, req.branch);
        if key !in stock then Err(NoStockRow)
        else if stock[key] < req.quantity then Err(InsufficientStock(stock[key]))
        else Ok(req)
      else Ok(req)
  }

  /** With no store context any product and branch pass: the caller's tenant
      is not checked at all. */
  lemma NoStoreSkipsTenantCheck(req: MovementRequest, stock: StockTable)
    requires req.kind == In && FitsQuantityColumn(req.quantity) && req.quantity > 0
    ensures ValidateMovement(None, req, stock) == Ok(req)
  {
  }

  /** StockCreateSerializer: the quantity (default 0) only has to fit the
      column. The unique (product, branch) pair of the model gives the
      serializer a unique-together validator, which runs before `validate`,
      so a duplicate is reported before the tenant checks and the
      duplicate test in `validate` itself is never the one that fails. The
      result is the quantity the new row will hold. */
  function ValidateStockCreate(store: Option<nat>, product: ProductRef, branch: BranchRef, quantity: Option<int>, stock: StockTable): (r: Result<int, WarehouseError>)
    ensures r.Ok? <==>
              && (quantity.Some? ==> FitsQuantityColumn(quantity.value))
              && InTenant(store, product, branch)
              && StockKeyOf(product, branch) !in stock
    ensures r.Ok? ==> r.value == (if quantity.Some? then quantity.value else DefaultStockQuantity)
    ensures r == Err(DuplicateStock) <==>
              (quantity.Some? ==> FitsQuantityColumn(quantity.value)) && StockKeyOf(product, branch) in stock
    ensures r == Err(QuantityOutOfRange) <==> quantity.Some? && !FitsQuantityColumn(quantity.value)
  {
    if quantity.Some? && !FitsQuantityColumn(quantity.value) then Err(QuantityOutOfRange)
    else if StockKeyOf(product, branch) in stock then Err(DuplicateStock)
    else if store.Some? && product.store != store.value then Err(ForeignProduct)
    else if store.Some? && branch.store != store.value then Err(ForeignBranch)
    else Ok(if quantity.Some? then quantity.value else DefaultStockQuantity)
  }

  /** StockUpdateSerializer: a partial update of `quantity` alone, bounded
      only by the column, so a negative quantity is accepted. */
  function ValidateStockUpdate(quantity: Option<int>): (r: Result<Option<int>, WarehouseError>)
    ensures r.Ok? <==> (quantity.Some? ==> FitsQuantityColumn(quantity.value))
    ensures r.Ok? ==> r.value == quantity
  {
    if quantity.Some? && !FitsQuantityColumn(quantity.value) then Err(QuantityOutOfRange)
    else Ok(quantity)
  }

  /** CategoryCreateSerializer.validate_name. */
  function ValidateCategoryNameOnCreate(store: Option<nat>, name: string, cats: map<nat, Category>): (r: Result<string, WarehouseError>)
    ensures r.Ok? ==> r.value == name
    ensures r.Ok? && store.Some? ==>
              forall id | id in cats :: cats[id].store != store.value || cats[id].name != name
    ensures r.Err? ==>
              store.Some? && exists id | id in cats :: cats[id].store == store.value && cats[id].name == name
  {
    if store.Some? && exists id | id in cats :: cats[id].store == store.value && cats[id].name == name
    then Err(DuplicateCategoryName)
    else Ok(name)
  }

  /** CategoryUpdateSerializer.validate_name: the instance's own row does not
      count as a clash. */
  function ValidateCategoryNameOnUpdate(instance: nat, name: string, cats: map<nat, Category>): (r: Result<string, WarehouseError>)
    requires instance in cats
    ensures r.Ok? ==> r.value == name
    ensures r.Ok? <==>
              forall id | id in cats && id != instance ::
                cats[id].store != cats[instance].store || cats[id].name != name
  {
    if exists id | id in cats && id != instance :: cats[id].store == cats[instance].store && cats[id].name == name
    then Err(DuplicateCategoryName)
    else Ok(name)
  }

  /** A category created with a validated name in the caller's store keeps
      names unique per store. */
  lemma CategoryCreateKeepsNamesUnique(store: nat, name: string, description: string, cats: map<nat, Category>, id: nat)
    requires CategoryNamesUnique(cats) && id !in cats
    requires ValidateCategoryNameOnCreate(Some(store), name, cats).Ok?
    ensures CategoryNamesUnique(cats[id := Category(store, name, description, Active)])
  {
    var cats' := cats[id := Category(store, name, description, Active)];
    forall a, b | a in cats' && b in cats' && a != b
      ensures cats'[a].store != cats'[b].store || cats'[a].name != cats'[b].name
    {
      if a != id && b != id {
        assert cats'[a] == cats[a] && cats'[b] == cats[b];
      }
    }
  }

  /** Renaming a category with a validated name keeps names unique per store,
      whatever the renamed category's status. */
  lemma CategoryRenameKeepsNamesUnique(instance: nat, name: string, cats: map<nat, Category>)
    requires CategoryNamesUnique(cats) && instance in cats
    requires ValidateCategoryNameOnUpdate(instance, name, cats).Ok?
    ensures CategoryNamesUnique(cats[instance := cats[instance].(name := name)])
  {
    var cats' := cats[instance := cats[instance].(name := name)];
    forall a, b | a in cats' && b in cats' && a != b
      ensures cats'[a].store != cats'[b].store || cats'[a].name != cats'[b].name
    {
      if a != instance && b != instance {
        assert cats'[a] == cats[a] && cats'[b] == cats[b];
      }
    }
  }

  /** ProductCreateSerializer.validate_barcode: an empty or null barcode
      becomes None and is not checked; otherwise it must be new in the
      caller's store. */
  function ValidateBarcodeOnCreate(store: Option<nat>, barcode: Option<string>, products: map<nat, Product>): (r: Result<Option<string>, WarehouseError>)
    ensures (barcode.None? || barcode == Some("")) ==> r == Ok(None)
    ensures r.Ok? && r.value.Some? ==> r.value == barcode && barcode.value != ""
    ensures barcode.Some? && barcode.value != "" && r.Ok? ==> r.value == barcode
    ensures r.Ok? && r.value.Some? && store.Some? ==>
              forall id | id in products :: products[id].ref.store != store.value || products[id].barcode != barcode
    ensures r.Err? ==>
              store.Some? && exists id | id in products :: products[id].ref.store == store.value && products[id].barcode == barcode
  {
    if barcode.None? || barcode.value == "" then Ok(None)
    else if store.Some? && exists id | id in products :: products[id].ref.store == store.value && products[id].barcode == barcode
    then Err(DuplicateBarcode)
    else Ok(barcode)
  }

  /** ProductUpdateSerializer.validate_barcode: as on create, against the
      instance's store and leaving the instance out. */
  function ValidateBarcodeOnUpdate(instance: nat, barcode: Option<string>, products: map<nat, Product>): (r: Result<Option<string>, WarehouseError>)
    requires instance in products
    ensures (barcode.None? || barcode == Some("")) ==> r == Ok(None)
    ensures r.Ok? && r.value.Some? ==> r.value == barcode && barcode.value != ""
    ensures barcode.Some? && barcode.value != "" && r.Ok? ==> r.value == barcode
    ensures r.Ok? && r.value.Some? ==>
              forall id | id in products && id != instance ::
                products[id].ref.store != products[instance].ref.store || products[id].barcode != barcode
    ensures r.Err? ==>
              exists id | id in products && id != instance ::
                products[id].ref.store == products[instance].ref.store && products[id].barcode == barcode
  {
    if barcode.None? || barcode.value == "" then Ok(None)
    else if exists id | id in products && id != instance ::
              products[id].ref.store == products[instance].ref.store && products[id].barcode == barcode
    then Err(DuplicateBarcode)
    else Ok(barcode)
  }

  /** A product created in the caller's store with a validated barcode keeps
      barcodes unique per store. */
  lemma ProductCreateKeepsBarcodesUnique(store: nat, barcode: Option<string>, products: map<nat, Product>, p: Product)
    requires BarcodesUnique(products) && p.ref.id !in products && p.ref.store == store
    requires ValidateBarcodeOnCreate(Some(store), barcode, products).Ok?
    requires p.barcode == ValidateBarcodeOnCreate(Some(store), barcode, products).value
    ensures BarcodesUnique(products[p.ref.id := p])
  {
    var ps := products[p.ref.id := p];
    forall a, b | a in ps && b in ps && a != b
      ensures ps[a].ref.store != ps[b].ref.store || ps[a].barcode.None? || ps[a].barcode != ps[b].barcode
    {
      if a != p.ref.id && b != p.ref.id {
        assert ps[a] == products[a] && ps[b] == products[b];
      }
    }
  }

  /** Changing a product's barcode to a validated one keeps barcodes unique
      per store. */
  lemma ProductRebarcodeKeepsBarcodesUnique(instance: nat, barcode: Option<string>, products: map<nat, Product>)
    requires BarcodesUnique(products) && instance in products
    requires ValidateBarcodeOnUpdate(instance, barcode, products).Ok?
    ensures BarcodesUnique(products[instance := products[instance].(barcode := ValidateBarcodeOnUpdate(instance, barcode, products).value)])
  {
    var ps := products[instance := products[instance].(barcode := ValidateBarcodeOnUpdate(instance, barcode, products).value)];
    forall a, b | a in ps && b in ps && a != b
      ensures ps[a].ref.store != ps[b].ref.store || ps[a].barcode.None? || ps[a].barcode != ps[b].barcode
    {
      if a != instance && b != instance {
        assert ps[a] == products[a] && ps[b] == products[b];
      }
    }
  }

  /** An optional field of a request body: left out, sent as JSON null, or
      given. DRF runs a field's validator only on a value that was sent. */
  datatype FieldInput<T> = Omitted | Null | Given(value: T)

  /** ProductCreateSerializer.validate_category: the category is optional, so
      leaving it out saves the product without one and runs no check. A sent
      category must, with a store context, be that store's; a sent null there
      fails on `value.store` instead of being rejected cleanly. */
  function ValidateCategoryOnCreate(store: Option<nat>, category: FieldInput<Category>): (r: Result<Option<Category>, WarehouseError>)
    ensures category.Omitted? ==> r == Ok(None)
    ensures r.Ok? <==>
              category.Omitted? || store.None? || (category.Given? && category.value.store == store.value)
    ensures r.Ok? && category.Given? ==> r.value == Some(category.value)
    ensures r.Ok? && !category.Given? ==> r.value == None
    ensures r == Err(NullCategory) <==> store.Some? && category.Null?
    ensures r == Err(ForeignCategory) <==> store.Some? && category.Given? && category.value.store != store.value
  {
    match category
    case Omitted => Ok(None)
    case Null => if store.None? then Ok(None) else Err(NullCategory)
    case Given(c) =>
      if store.Some? && c.store != store.value then Err(ForeignCategory)
      else Ok(Some(c))
  }

  /** ProductUpdateSerializer.validate_category: null is allowed; a category
      must belong to the product's own store. */
  function ValidateCategoryOnUpdate(productStore: nat, category: Option<Category>): (r: Result<Option<Category>, WarehouseError>)
    ensures r.Ok? <==> category.None? || category.value.store == productStore
    ensures r.Ok? ==> r.value == category
  {
    if category.Some? && category.value.store != productStore then Err(ForeignCategory)
    else Ok(category)
  }
}
