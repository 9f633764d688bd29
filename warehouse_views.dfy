/** The warehouse viewsets: the stock ledger (movements applied to Stock
    rows), the manual Stock endpoints, tenant-scoped listings and the soft or
    hard deletes. Requests are handled one at a time; nothing here speaks
    about concurrent requests. */
module WarehouseViews {
  import opened Wrappers
  import opened WarehouseModels
  import opened WarehouseSerializers

  /** The authenticated user as the viewsets see it: either without a worker
      profile, or a worker with its id and (possibly missing) store. */
  datatype Caller = NoWorker | Staff(id: nat, store: Option<nat>)

  /** The `store` entry of the serializer context: the worker's store, and
      nothing without a worker. */
  function ContextStore(c: Caller): (store: Option<nat>)
    ensures store.Some? ==> c.Staff? && c.store == store
  {
    if c.Staff? then c.store else None
  }

  /** The `worker` saved on a movement: the caller's worker, if any. */
  function WorkerOf(c: Caller): (w: Option<nat>)
    ensures w.Some? <==> c.Staff?
  {
    if c.Staff? then Some(c.id) else None
  }

  /** get_queryset: a row is visible when its product's store is the
      worker's store; no worker or no store sees nothing. */
  predicate Visible(c: Caller, productStore: nat)
  {
    c.Staff? && c.store == Some(productStore)
  }

  datatype ViewError = NotFound | Invalid(error: WarehouseError)

  /** The signed change a movement makes to its row. */
  function Delta(m: Movement): (d: int)
    ensures m.quantity > 0 ==> (d > 0 <==> m.kind == In)
  {
    if m.kind == In then m.quantity else -m.quantity
  }

  /** The Stock row a movement writes. */
  function KeyOf(m: Movement): StockKey
  {
    StockKeyOf(m.product, m.branch)
  }

  /** The table after one movement: the movement's row, created at 0 when
      missing, moves by the movement's quantity; no other row changes. */
  function ApplyTo(s: StockTable, m: Movement): (s': StockTable)
    ensures s'.Keys == s.Keys + {KeyOf(m)}
    ensures Balance(s', KeyOf(m)) == Balance(s, KeyOf(m)) + Delta(m)
    ensures forall k | k in s && k != KeyOf(m) :: s'[k] == s[k]
  {
    s[KeyOf(m) := Balance(s, KeyOf(m)) + Delta(m)]
  }

  /** The table that the movement log alone produces, starting from no rows:
      the movements applied in the order they were recorded. */
  function Replay(log: seq<Movement>): StockTable
  {
    if log == [] then map[] else ApplyTo(Replay(log[..|log| - 1]), log[|log| - 1])
  }

  /** The IN quantity a movement contributes to a key. */
  function InPart(m: Movement, k: StockKey): nat
  {
    if KeyOf(m) == k && m.kind == In && m.quantity > 0 then m.quantity else 0
  }

  /** The OUT quantity a movement contributes to a key. */
  function OutPart(m: Movement, k: StockKey): nat
  {
    if KeyOf(m) == k && m.kind == Out && m.quantity > 0 then m.quantity else 0
  }

  /** The sum of the log's IN quantities for a key. */
  function InTotal(log: seq<Movement>, k: StockKey): nat
  {
    if log == [] then 0 else InPart(log[0], k) + InTotal(log[1..], k)
  }

  /** The sum of the log's OUT quantities for a key. */
  function OutTotal(log: seq<Movement>, k: StockKey): nat
  {
    if log == [] then 0 else OutPart(log[0], k) + OutTotal(log[1..], k)
  }

  /** Every movement in the log has a positive quantity. */
  predicate PositiveQuantities(log: seq<Movement>)
  {
    forall i | 0 <= i < |log| :: log[i].quantity > 0
  }

  lemma {:induction false} InTotalSnoc(log: seq<Movement>, m: Movement, k: StockKey)
    ensures InTotal(log + [m], k) == InTotal(log, k) + InPart(m, k)
    decreases |log|
  {
    if log == [] {
      assert [m][1..] == [];
    } else {
      assert (log + [m])[1..] == log[1..] + [m];
      InTotalSnoc(log[1..], m, k);
    }
  }

  lemma {:induction false} OutTotalSnoc(log: seq<Movement>, m: Movement, k: StockKey)
    ensures OutTotal(log + [m], k) == OutTotal(log, k) + OutPart(m, k)
    decreases |log|
  {
    if log == [] {
      assert [m][1..] == [];
    } else {
      assert (log + [m])[1..] == log[1..] + [m];
      OutTotalSnoc(log[1..], m, k);
    }
  }

  /** A balance produced by movements alone is the sum of that key's INs
      minus the sum of its OUTs. */
  lemma {:induction false} BalanceIsInsMinusOuts(log: seq<Movement>, k: StockKey)
    requires PositiveQuantities(log)
    ensures Balance(Replay(log), k) == InTotal(log, k) - OutTotal(log, k)
    decreases |log|
  {
    if log != [] {
      var init, last := log[..|log| - 1], log[|log| - 1];
      assert log == init + [last];
      BalanceIsInsMinusOuts(init, k);
      InTotalSnoc(init, last, k);
      OutTotalSnoc(init, last, k);
    }
  }

  /** A row exists in the replayed table exactly for the keys some movement
      of the log wrote. */
  lemma {:induction false} ReplayKeys(log: seq<Movement>)
    ensures Replay(log).Keys == set m | m in log :: KeyOf(m)
    decreases |log|
  {
    if log != [] {
      var init, last := log[..|log| - 1], log[|log| - 1];
      assert log == init + [last];
      ReplayKeys(init);
    }
  }

  /** The check `validate` makes, applied to a movement and the table it is
      about to change. */
  predicate Sufficient(m: Movement, s: StockTable)
  {
    m.quantity > 0 && (m.kind == Out ==> KeyOf(m) in s && s[KeyOf(m)] >= m.quantity)
  }

  /** Every movement of the log passed the check against the table its
      predecessors had produced. */
  predicate CheckedLog(log: seq<Movement>)
  {
    log == [] || (CheckedLog(log[..|log| - 1]) && Sufficient(log[|log| - 1], Replay(log[..|log| - 1])))
  }

  /** One checked movement keeps every row non-negative. */
  lemma SufficientKeepsNonNegative(s: StockTable, m: Movement)
    requires NonNegative(s) && Sufficient(m, s)
    ensures NonNegative(ApplyTo(s, m))
  {
    var s' := ApplyTo(s, m);
    forall k | k in s' ensures s'[k] >= 0 {
      if k == KeyOf(m) {
        assert s'[k] == Balance(s, k) + Delta(m);
      }
    }
  }

  /** A log whose movements were each checked in turn replays to a table with
      no negative row. */
  lemma {:induction false} CheckedLogNonNegative(log: seq<Movement>)
    requires CheckedLog(log)
    ensures NonNegative(Replay(log))
    ensures PositiveQuantities(log)
    decreases |log|
  {
    if log != [] {
      var init, last := log[..|log| - 1], log[|log| - 1];
      CheckedLogNonNegative(init);
      SufficientKeepsNonNegative(Replay(init), last);
      assert log == init + [last];
    }
  }

  /** The movement row `perform_create` saves for a validated request. */
  function MovementOf(req: MovementRequest, worker: Option<nat>): (m: Movement)
    ensures KeyOf(m) == StockKeyOf(req.product, req.branch)
    ensures m.kind == req.kind && m.quantity == req.quantity && m.worker == worker
  {
    Movement(req.product, req.branch, req.kind, req.quantity, req.note, worker)
  }

  /** A request accepted by the serializer passes the check on the movement
      it becomes. */
  lemma AdmissibleIsSufficient(store: Option<nat>, req: MovementRequest, s: StockTable, worker: Option<nat>)
    requires ValidateMovement(store, req, s).Ok?
    ensures Sufficient(MovementOf(req, worker), s)
  {
  }

  /** A request submitted by a caller. */
  datatype Submission = Submission(caller: Caller, req: MovementRequest)

  /** The table after a sequence of submissions is handled one after
      another: each is validated against the table its predecessors left and
      applied only when accepted. */
  function ProcessAll(s: StockTable, subs: seq<Submission>): StockTable
    decreases |subs|
  {
    if subs == [] then s
    else
      var sub := subs[0];
      var next :=
        if ValidateMovement(ContextStore(sub.caller), sub.req, s).Ok?
        then ApplyTo(s, MovementOf(sub.req, WorkerOf(sub.caller)))
        else s;
      ProcessAll(next, subs[1..])
  }

  /** Handled one at a time, movements never drive a row below zero. */
  lemma {:induction false} ProcessAllKeepsNonNegative(s: StockTable, subs: seq<Submission>)
    requires NonNegative(s)
    ensures NonNegative(ProcessAll(s, subs))
    decreases |subs|
  {
    if subs != [] {
      var sub := subs[0];
      if ValidateMovement(ContextStore(sub.caller), sub.req, s).Ok? {
        AdmissibleIsSufficient(ContextStore(sub.caller), sub.req, s, WorkerOf(sub.caller));
        SufficientKeepsNonNegative(s, MovementOf(sub.req, WorkerOf(sub.caller)));
      }
      ProcessAllKeepsNonNegative(
        if ValidateMovement(ContextStore(sub.caller), sub.req, s).Ok?
        then ApplyTo(s, MovementOf(sub.req, WorkerOf(sub.caller)))
        else s,
        subs[1..]);
    }
  }

  /** Two OUTs both validated against the same table and then both applied
      overdraw the row: the guarantee above needs each validation to see the
      previous movement's effect. */
  lemma StaleValidationOverdraws(k: StockKey, req: MovementRequest)
    requires req.kind == Out && req.quantity == 5
    requires StockKeyOf(req.product, req.branch) == k
    ensures ValidateMovement(None, req, map[k := 5]).Ok?
    ensures Balance(ApplyTo(ApplyTo(map[k := 5], MovementOf(req, None)), MovementOf(req, None)), k) == -5
  {
  }

  /** A validated IN is not bounded above, so the new balance can exceed the
      numeric(14, 3) column that has to store it. */
  lemma ValidatedInCanOverflowColumn(k: StockKey, req: MovementRequest)
    requires req.kind == In && req.quantity == 1
    requires StockKeyOf(req.product, req.branch) == k
    ensures ValidateMovement(None, req, map[k := QuantityLimit - 1]).Ok?
    ensures !FitsQuantityColumn(Balance(ApplyTo(map[k := QuantityLimit - 1], MovementOf(req, None)), k))
  {
  }

  /** After a manual quantity that differs from the movements' net total,
      the balance no longer equals INs minus OUTs. */
  lemma ManualSetBreaksLedger(log: seq<Movement>, k: StockKey, q: int)
    requires CheckedLog(log)
    requires q < 0
    ensures FitsQuantityColumn(q) ==> ValidateStockUpdate(Some(q)) == Ok(Some(q))
    ensures !NonNegative(Replay(log)[k := q])
    ensures Balance(Replay(log)[k := q], k) != InTotal(log, k) - OutTotal(log, k)
  {
    CheckedLogNonNegative(log);
    BalanceIsInsMinusOuts(log, k);
    assert Replay(log)[k := q][k] == q;
  }

  /** Deleting a row that holds stock loses it: later reads see 0 where the
      movements say otherwise. */
  lemma ManualDeleteBreaksLedger(log: seq<Movement>, k: StockKey)
    requires CheckedLog(log)
    requires k in Replay(log) && Replay(log)[k] != 0
    ensures Balance(Replay(log) - {k}, k) != InTotal(log, k) - OutTotal(log, k)
  {
    CheckedLogNonNegative(log);
    BalanceIsInsMinusOuts(log, k);
  }

  /** The movement listing: the caller's rows, newest first. */
  function MovementListing(c: Caller, log: seq<Movement>): (r: seq<Movement>)
    ensures forall m | m in r :: m in log && Visible(c, m.product.store)
    ensures forall m | m in log && Visible(c, m.product.store) :: m in r
    ensures |r| <= |log|
    decreases |log|
  {
    if log == [] then []
    else
      var rest := MovementListing(c, log[1..]);
      if Visible(c, log[0].product.store) then rest + [log[0]] else rest
  }

  /** A movement just recorded for the caller's store heads the listing; one
      of another store does not change it. */
  lemma {:induction false} MovementListingNewestFirst(c: Caller, log: seq<Movement>, m: Movement)
    ensures MovementListing(c, log + [m]) ==
              (if Visible(c, m.product.store) then [m] else []) + MovementListing(c, log)
    decreases |log|
  {
    var head := if Visible(c, m.product.store) then [m] else [];
    if log == [] {
      assert [m][1..] == [];
    } else {
      var whole := log + [m];
      assert whole[0] == log[0];
      assert whole[1..] == log[1..] + [m];
      MovementListingNewestFirst(c, log[1..], m);
      var rest := MovementListing(c, log[1..]);
      assert MovementListing(c, whole[1..]) == head + rest;
      if Visible(c, log[0].product.store) {
        assert MovementListing(c, whole) == (head + rest) + [log[0]];
        assert MovementListing(c, log) == rest + [log[0]];
      } else {
        assert MovementListing(c, whole) == head + rest;
        assert MovementListing(c, log) == rest;
      }
    }
  }

  /** The stock listing: the caller's rows with their quantities. */
  function StockListing(c: Caller, s: StockTable): (rows: StockTable)
    ensures forall k :: k in rows <==> k in s && Visible(c, k.product.store)
    ensures forall k | k in rows :: rows[k] == s[k]
    ensures !(c.Staff? && c.store.Some?) ==> rows == map[]
  {
    map k | k in s && Visible(c, k.product.store) :: s[k]
  }

  /** The Stock table and the movement log. The movement endpoint answers
      only GET and POST, so the one change to the log is the append of
      `CreateMovement`; every other method leaves the log as it was. */
  class Ledger {
    var stock: StockTable
    var log: seq<Movement>

    /** The table is what the log replays to, and each logged movement was
        checked against the table before it. */
    ghost predicate Valid()
      reads this
    {
      stock == Replay(log) && CheckedLog(log)
    }

    constructor ()
      ensures stock == map[] && log == []
      ensures Valid()
    {
      stock := map[];
      log := [];
    }

    /** perform_create: save the movement, fetch or create its Stock row at
        quantity 0, then add an IN or subtract anything else. */
    method RecordMovement(m: Movement)
      modifies this
      ensures log == old(log) + [m]
      ensures stock == ApplyTo(old(stock), m)
      ensures KeyOf(m) in stock
      ensures stock[KeyOf(m)] == Balance(old(stock), KeyOf(m)) + (if m.kind == In then m.quantity else -m.quantity)
      ensures forall k | k != KeyOf(m) :: (k in stock <==> k in old(stock)) && (k in stock ==> stock[k] == old(stock)[k])
      ensures old(stock) == Replay(old(log)) ==> stock == Replay(log)
    {
      log := log + [m];
      var key := StockKeyOf(m.product, m.branch);
      if key !in stock {
        stock := stock[key := 0];
      }
      var quantity := stock[key];
      if m.kind == In {
        quantity := quantity + m.quantity;
      } else {
        quantity := quantity - m.quantity;
      }
      stock := stock[key := quantity];
      assert log[..|log| - 1] == old(log);
    }

    /** POST to the movement endpoint: validate, then record. A rejected
        request changes nothing. */
    method CreateMovement(c: Caller, req: MovementRequest) returns (r: Result<Movement, WarehouseError>)
      modifies this
      ensures r.Ok? <==> MovementAdmissible(ContextStore(c), req, old(stock))
      ensures r.Err? ==> stock == old(stock) && log == old(log)
      ensures r.Err? ==> r.error == ValidateMovement(ContextStore(c), req, old(stock)).error
      ensures r.Ok? ==> r.value == MovementOf(req, WorkerOf(c))
      ensures r.Ok? ==> log == old(log) + [r.value] && stock == ApplyTo(old(stock), r.value)
      ensures NonNegative(old(stock)) ==> NonNegative(stock)
      ensures old(Valid()) ==> Valid()
    {
      var v := ValidateMovement(ContextStore(c), req, stock);
      if v.Err? {
        return Err(v.error);
      }
      var m := MovementOf(req, WorkerOf(c));
      AdmissibleIsSufficient(ContextStore(c), req, stock, WorkerOf(c));
      if NonNegative(stock) {
        SufficientKeepsNonNegative(stock, m);
      }
      RecordMovement(m);
      assert log[..|log| - 1] == old(log);
      r := Ok(m);
    }

    /** POST to the stock endpoint: a row for a new key with any quantity the
        column holds, negative ones included. */
    method CreateStock(c: Caller, product: ProductRef, branch: BranchRef, quantity: Option<int>) returns (r: Result<int, WarehouseError>)
      modifies this
      ensures r == ValidateStockCreate(ContextStore(c), product, branch, quantity, old(stock))
      ensures r.Ok? ==> stock == old(stock)[StockKeyOf(product, branch) := r.value]
      ensures r.Err? ==> stock == old(stock)
      ensures log == old(log)
    {
      r := ValidateStockCreate(ContextStore(c), product, branch, quantity, stock);
      if r.Ok? {
        stock := stock[StockKeyOf(product, branch) := r.value];
      }
    }

    /** PATCH to the stock endpoint: a visible row takes the given quantity,
        bounded only by the column. */
    method UpdateStock(c: Caller, key: StockKey, quantity: Option<int>) returns (r: Result<int, ViewError>)
      modifies this
      ensures r == Err(NotFound) <==> !(key in old(stock) && Visible(c, key.product.store))
      ensures r.Err? && r.error.Invalid? ==> r.error.error == QuantityOutOfRange
      ensures r.Ok? ==> stock == old(stock)[key := r.value]
      ensures r.Ok? ==> r.value == (if quantity.Some? then quantity.value else old(stock)[key])
      ensures r.Err? ==> stock == old(stock)
      ensures log == old(log)
    {
      if !(key in stock && Visible(c, key.product.store)) {
        return Err(NotFound);
      }
      var v := ValidateStockUpdate(quantity);
      if v.Err? {
        return Err(Invalid(v.error));
      }
      if quantity.Some? {
        stock := stock[key := quantity.value];
      }
      r := Ok(stock[key]);
    }

    /** DELETE to the stock endpoint: the visible row is removed for good. */
    method DeleteStock(c: Caller, key: StockKey) returns (r: Result<int, ViewError>)
      modifies this
      ensures r.Err? <==> !(key in old(stock) && Visible(c, key.product.store))
      ensures r.Err? ==> r.error == NotFound && stock == old(stock)
      ensures r.Ok? ==> r.value == old(stock)[key] && stock == old(stock) - {key} && key !in stock
      ensures log == old(log)
    {
      if !(key in stock && Visible(c, key.product.store)) {
        return Err(NotFound);
      }
      r := Ok(stock[key]);
      stock := stock - {key};
    }
  }

  /** The category and product tables. */
  class Catalog {
    var categories: map<nat, Category>
    var products: map<nat, Product>

    /** DELETE to the category endpoint: a visible category is only marked
        inactive and stays in the table. */
    method DestroyCategory(c: Caller, id: nat) returns (r: Result<nat, ViewError>)
      modifies this
      ensures r.Err? <==> !(id in old(categories) && Visible(c, old(categories)[id].store))
      ensures r.Err? ==> r.error == NotFound && categories == old(categories)
      ensures r.Ok? ==> r.value == id && categories == old(categories)[id := old(categories)[id].(status := Inactive)]
      ensures id in old(categories) ==> id in categories
      ensures products == old(products)
    {
      if !(id in categories && Visible(c, categories[id].store)) {
        return Err(NotFound);
      }
      categories := categories[id := categories[id].(status := Inactive)];
      r := Ok(id);
    }

    /** DELETE to the product endpoint: a visible product is only marked
        inactive and stays in the table. */
    method DestroyProduct(c: Caller, id: nat) returns (r: Result<nat, ViewError>)
      modifies this
      ensures r.Err? <==> !(id in old(products) && Visible(c, old(products)[id].ref.store))
      ensures r.Err? ==> r.error == NotFound && products == old(products)
      ensures r.Ok? ==> r.value == id && products == old(products)[id := old(products)[id].(status := Inactive)]
      ensures id in old(products) ==> id in products
      ensures categories == old(categories)
    {
      if !(id in products && Visible(c, products[id].ref.store)) {
        return Err(NotFound);
      }
      products := products[id := products[id].(status := Inactive)];
      r := Ok(id);
    }
  }

  /** A soft-deleted category keeps its name reserved in its store: creating
      another category with that name is still rejected. */
  lemma SoftDeletedNameStillTaken(cats: map<nat, Category>, id: nat)
    requires id in cats
    ensures ValidateCategoryNameOnCreate(Some(cats[id].store), cats[id].name, cats[id := cats[id].(status := Inactive)]).Err?
  {
    var cats' := cats[id := cats[id].(status := Inactive)];
    assert cats'[id].store == cats[id].store && cats'[id].name == cats[id].name;
  }

  /** Soft deletion keeps category names unique per store. */
  lemma SoftDeleteKeepsNamesUnique(cats: map<nat, Category>, id: nat)
    requires CategoryNamesUnique(cats) && id in cats
    ensures CategoryNamesUnique(cats[id := cats[id].(status := Inactive)])
  {
    var cats' := cats[id := cats[id].(status := Inactive)];
    forall a, b | a in cats' && b in cats' && a != b
      ensures cats'[a].store != cats'[b].store || cats'[a].name != cats'[b].name
    {
      assert cats'[a].store == cats[a].store && cats'[a].name == cats[a].name;
      assert cats'[b].store == cats[b].store && cats'[b].name == cats[b].name;
    }
  }
}
