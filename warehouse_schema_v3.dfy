/** The expanded warehouse schema: stand-alone warehouses, Stock rows that
    sit at exactly one of a branch or a warehouse, and movements with four
    optional endpoints and a third type, `transfer`. No view or serializer
    of the warehouse app applies a movement in this schema; this module states the schema's
    rules and what the migration does to existing rows. */
module WarehouseSchemaV3 {
  import opened Wrappers
  import opened WarehouseModels

  /** A Warehouse row. */
  datatype WarehouseRec = WarehouseRec(store: nat, name: string, address: string, status: ProductStatus)

  /** unique_together (store, name) on Warehouse. */
  predicate WarehouseNamesUnique(ws: map<nat, WarehouseRec>)
  {
    forall a, b | a in ws && b in ws && a != b :: ws[a].store != ws[b].store || ws[a].name != ws[b].name
  }

  /** A new warehouse keeps names unique exactly when no warehouse of its
      store already has its name. */
  lemma AddWarehouseUniqueIff(ws: map<nat, WarehouseRec>, id: nat, w: WarehouseRec)
    requires WarehouseNamesUnique(ws) && id !in ws
    ensures WarehouseNamesUnique(ws[id := w]) <==>
              forall a | a in ws :: ws[a].store != w.store || ws[a].name != w.name
  {
    var ws' := ws[id := w];
    if forall a | a in ws :: ws[a].store != w.store || ws[a].name != w.name {
      forall a, b | a in ws' && b in ws' && a != b
        ensures ws'[a].store != ws'[b].store || ws'[a].name != ws'[b].name
      {
        if a != id && b != id {
          assert ws'[a] == ws[a] && ws'[b] == ws[b];
        }
      }
    } else {
      var a :| a in ws && ws[a].store == w.store && ws[a].name == w.name;
      assert ws'[a] == ws[a] && ws'[id] == w && a != id;
    }
  }

  /** The movement types after the migration. */
  datatype MovementTypeV3 = InV3 | OutV3 | Transfer

  /** The choice field accepts exactly "in", "out" and "transfer". */
  function ParseMovementTypeV3(code: string): (r: Option<MovementTypeV3>)
    ensures r.Some? <==> code == "in" || code == "out" || code == "transfer"
    ensures r == Some(Transfer) <==> code == "transfer"
  {
    if code == "in" then Some(InV3)
    else if code == "out" then Some(OutV3)
    else if code == "transfer" then Some(Transfer)
    else None
  }

  /** An old movement type read in the new schema. */
  function Widen(t: MovementType): (w: MovementTypeV3)
    ensures ParseMovementTypeV3(MovementTypeCode(t)) == Some(w)
    ensures w != Transfer
  {
    match t
    case In => InV3
    case Out => OutV3
  }

  /** Every stored code stays valid, and keeps its meaning, after the
      choices are extended. */
  lemma OldCodesStillParse(code: string)
    requires ParseMovementType(code).Some?
    ensures ParseMovementTypeV3(code) == Some(Widen(ParseMovementType(code).value))
  {
  }

  /** A StockMovement row after the migration: the single branch is gone
      and four nullable endpoints take its place. */
  datatype MovementV3 = MovementV3(
    product: ProductRef,
    kind: MovementTypeV3,
    quantity: int,
    note: string,
    worker: Option<nat>,
    fromBranch: Option<nat>,
    toBranch: Option<nat>,
    fromWarehouse: Option<nat>,
    toWarehouse: Option<nat>)

  /** What the migration leaves of an existing movement: the `branch`
      column is dropped and the new columns start out null. */
  function MigrateMovement(m: Movement): (r: MovementV3)
    ensures r.fromBranch.None? && r.toBranch.None? && r.fromWarehouse.None? && r.toWarehouse.None?
    ensures r.product == m.product && r.kind == Widen(m.kind) && r.quantity == m.quantity
    ensures r.note == m.note && r.worker == m.worker
  {
    MovementV3(m.product, Widen(m.kind), m.quantity, m.note, m.worker, None, None, None, None)
  }

  /** The migration loses where existing movements happened: two movements
      that differ only in their branch become the same row. */
  lemma MigrationForgetsBranch(m: Movement, other: BranchRef)
    ensures MigrateMovement(m) == MigrateMovement(m.(branch := other))
  {
  }

  /** A Stock row after the migration: both location columns are nullable. */
  datatype StockRowV3 = StockRowV3(product: ProductRef, branch: Option<nat>, warehouse: Option<nat>, quantity: int)

  /** The check constraint stock_exactly_one_location. */
  predicate ExactlyOneLocation(r: StockRowV3)
  {
    (r.branch.Some? && r.warehouse.None?) || (r.branch.None? && r.warehouse.Some?)
  }

  /** The location a row names, when it names exactly one. */
  function LocationOf(r: StockRowV3): (l: Option<Location>)
    ensures l.Some? <==> ExactlyOneLocation(r)
    ensures l.Some? && l.value.Branch? ==> r.branch == Some(l.value.id) && r.warehouse.None?
    ensures l.Some? && l.value.Warehouse? ==> r.warehouse == Some(l.value.id) && r.branch.None?
  {
    if r.branch.Some? && r.warehouse.None? then Some(Branch(r.branch.value))
    else if r.branch.None? && r.warehouse.Some? then Some(Warehouse(r.warehouse.value))
    else None
  }

  /** The row that stores a quantity at a location. */
  function RowAt(product: ProductRef, l: Location, quantity: int): (r: StockRowV3)
    ensures ExactlyOneLocation(r)
    ensures LocationOf(r) == Some(l)
    ensures r.product == product && r.quantity == quantity
  {
    match l
    case Branch(id) => StockRowV3(product, Some(id), None, quantity)
    case Warehouse(id) => StockRowV3(product, None, Some(id), quantity)
  }

  /** Rows that satisfy the check constraint are exactly the rows built from
      a location, so a valid row and its (product, location) key determine
      each other. */
  lemma RowAtLocationOf(r: StockRowV3)
    requires ExactlyOneLocation(r)
    ensures RowAt(r.product, LocationOf(r).value, r.quantity) == r
  {
  }

  /** The key of a row that satisfies the check constraint. */
  function KeyOfRow(r: StockRowV3): (k: StockKey)
    requires ExactlyOneLocation(r)
    ensures k.product == r.product && Some(k.location) == LocationOf(r)
  {
    StockKey(r.product, LocationOf(r).value)
  }

  /** unique_together {(product, branch), (product, warehouse)}: a null
      column never collides, so each pair only binds rows of its own kind. */
  predicate UniquePerLocation(rows: seq<StockRowV3>)
  {
    forall i, j | 0 <= i < j < |rows| && rows[i].product == rows[j].product ::
      && (rows[i].branch.None? || rows[i].branch != rows[j].branch)
      && (rows[i].warehouse.None? || rows[i].warehouse != rows[j].warehouse)
  }

  predicate AllExactlyOne(rows: seq<StockRowV3>)
  {
    forall i | 0 <= i < |rows| :: ExactlyOneLocation(rows[i])
  }

  /** Under the check constraint, the two unique pairs together say exactly
      that no two rows share a (product, location) key: a table keyed by
      StockKey is a faithful picture of the Stock table. */
  lemma UniquePerLocationIffKeysDistinct(rows: seq<StockRowV3>)
    requires AllExactlyOne(rows)
    ensures UniquePerLocation(rows) <==>
              forall i, j | 0 <= i < j < |rows| :: KeyOfRow(rows[i]) != KeyOfRow(rows[j])
  {
    if UniquePerLocation(rows) {
      forall i, j | 0 <= i < j < |rows|
        ensures KeyOfRow(rows[i]) != KeyOfRow(rows[j])
      {
        assert ExactlyOneLocation(rows[i]) && ExactlyOneLocation(rows[j]);
      }
    } else {
      var i, j :| 0 <= i < j < |rows| && rows[i].product == rows[j].product &&
        !((rows[i].branch.None? || rows[i].branch != rows[j].branch)
          && (rows[i].warehouse.None? || rows[i].warehouse != rows[j].warehouse));
      assert ExactlyOneLocation(rows[i]) && ExactlyOneLocation(rows[j]);
      assert KeyOfRow(rows[i]) == KeyOfRow(rows[j]);
    }
  }

  /** Without the check constraint the unique pairs would not stop two rows
      of one product with no location at all. */
  lemma UniqueAloneAdmitsLocationlessRows(p: ProductRef)
    ensures UniquePerLocation([StockRowV3(p, None, None, 1), StockRowV3(p, None, None, 2)])
    ensures !ExactlyOneLocation(StockRowV3(p, None, None, 1))
  {
  }

  /** An existing Stock row keeps its branch when the column becomes
      nullable. */
  function MigrateStockRow(k: StockKey, quantity: int): (r: StockRowV3)
    requires k.location.Branch?
    ensures ExactlyOneLocation(r) && KeyOfRow(r) == k && r.quantity == quantity
  {
    RowAt(k.product, k.location, quantity)
  }
}
