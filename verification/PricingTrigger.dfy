/** Migrations b61ff75713c0 and 6ac7f95b69c6: the delete trigger that keeps a pricing option on every product.
    A delete statement visits its rows one after the other; the trigger sees the rows already deleted, and an
    exception undoes the whole statement. */
module PricingTrigger {

  datatype Product = Product(tenantId: string, productId: string)

  datatype PricingOption = PricingOption(id: int, product: Product)

  datatype Db = Db(products: set<Product>, options: set<PricingOption>)

  datatype Result<+T> = Ok(value: T) | Raises

  /** Primary key of the options, and the foreign key to products. */
  predicate Sound(db: Db) {
    && (forall a, b | a in db.options && b in db.options && a.id == b.id :: a == b)
    && (forall o | o in db.options :: o.product in db.products)
  }

  predicate HasOption(db: Db, p: Product) {
    exists o | o in db.options :: o.product == p
  }

  predicate EveryProductPriced(db: Db) {
    forall p | p in db.products :: HasOption(db, p)
  }

  /** The orphan query of b61ff75713c0: a left join whose right side is missing. */
  function Orphans(db: Db): set<Product> {
    set p | p in db.products && !HasOption(db, p)
  }

  /** The migration may install the trigger if and only if every product is priced. */
  lemma OrphanCheckExactly(db: Db)
    ensures Orphans(db) == {} <==> EveryProductPriced(db)
  {
    hide HasOption;
    if EveryProductPriced(db) {
      assert forall p :: p !in Orphans(db);
    }
    forall p | p in db.products && !HasOption(db, p) ensures Orphans(db) != {} {
      assert p in Orphans(db);
    }
  }

  // ------------------------------------------------------------------ the triggers

  datatype Trigger = Original | Fixed

  /** The rows counted as `remaining_count`. */
  function Remaining(db: Db, old_: PricingOption): set<PricingOption> {
    set o | o in db.options && o.product == old_.product && o.id != old_.id
  }

  /** Whether the trigger returns OLD instead of raising. */
  predicate Allows(t: Trigger, db: Db, row: PricingOption) {
    if t == Fixed && row.product !in db.products then true
    else Remaining(db, row) != {}
  }

  /** A DELETE over the given rows, in the order in which the database visits them. */
  function DeleteEach(t: Trigger, db: Db, rows: seq<PricingOption>): Result<Db>
    decreases |rows|
  {
    if rows == [] then Ok(db)
    else if !Allows(t, db, rows[0]) then Raises
    else DeleteEach(t, db.(options := db.options - {rows[0]}), rows[1..])
  }

  /** The rows of a statement: distinct rows of the table. */
  predicate Visits(db: Db, rows: seq<PricingOption>) {
    && (forall i | 0 <= i < |rows| :: rows[i] in db.options)
    && (forall i, j | 0 <= i < j < |rows| :: rows[i] != rows[j])
  }

  /** `ON DELETE CASCADE`: the product goes first, then its options, in some order. */
  predicate VisitsProduct(db: Db, p: Product, rows: seq<PricingOption>) {
    && Visits(db, rows) && (forall i | 0 <= i < |rows| :: rows[i].product == p)
    && forall o | o in db.options && o.product == p :: o in rows
  }

  function DeleteProduct(t: Trigger, db: Db, p: Product, rows: seq<PricingOption>): Result<Db> {
    DeleteEach(t, db.(products := db.products - {p}), rows)
  }

  // ------------------------------------------------------------------ which deletes go through

  /** The products that the statement would leave without options. */
  predicate Empties(db: Db, rows: seq<PricingOption>, p: Product) {
    && (exists i | 0 <= i < |rows| :: rows[i].product == p)
    && (forall o | o in db.options && o.product == p :: o in rows)
  }

  lemma VisitsTail(db: Db, rows: seq<PricingOption>)
    requires Visits(db, rows) && rows != []
    ensures Visits(db.(options := db.options - {rows[0]}), rows[1..]) && rows[0] !in rows[1..]
  {
    var rest := rows[1..];
    assert forall i | 0 <= i < |rest| :: rest[i] == rows[i + 1];
  }

  lemma RemainingExactly(db: Db, row: PricingOption)
    requires Sound(db) && row in db.options
    ensures Remaining(db, row) == {} <==> forall o | o in db.options && o.product == row.product :: o == row
  {
    if Remaining(db, row) == {} {
      forall o | o in db.options && o.product == row.product ensures o == row {
        assert o !in Remaining(db, row);
      }
    }
  }

  lemma EmptiesTail(db: Db, rows: seq<PricingOption>, p: Product)
    requires Visits(db, rows) && rows != [] && Empties(db, rows, p)
    ensures Empties(db.(options := db.options - {rows[0]}), rows[1..], p)
         || (rows[0].product == p && forall o | o in db.options && o.product == p :: o == rows[0])
  {
    var next := db.(options := db.options - {rows[0]});
    assert rows == [rows[0]] + rows[1..];
    if !(rows[0].product == p && forall o | o in db.options && o.product == p :: o == rows[0]) {
      var o :| o in rows && o.product == p && o != rows[0];
      assert o in rows[1..];
      var i :| 0 <= i < |rows[1..]| && rows[1..][i] == o;
      assert Empties(next, rows[1..], p);
    }
  }

  lemma TailEmpties(db: Db, rows: seq<PricingOption>, p: Product)
    requires Visits(db, rows) && rows != []
    requires Empties(db.(options := db.options - {rows[0]}), rows[1..], p)
    ensures Empties(db, rows, p)
  {
    assert rows == [rows[0]] + rows[1..];
    var i :| 0 <= i < |rows[1..]| && rows[1..][i].product == p;
    assert rows[i + 1].product == p;
  }

  /** A statement over options whose products exist goes through, under either trigger and in any order, if and
      only if it leaves an option to every product that it touches; then exactly its rows are gone. */
  lemma {:induction false} DeleteExactly(t: Trigger, db: Db, rows: seq<PricingOption>)
    requires Sound(db) && Visits(db, rows)
    ensures DeleteEach(t, db, rows).Ok? <==> forall p :: !Empties(db, rows, p)
    ensures DeleteEach(t, db, rows).Ok? ==> DeleteEach(t, db, rows).value == db.(options := db.options - Members(rows))
    decreases |rows|
  {
    hide Empties, Visits, Sound, Remaining;
    if rows == [] {
      NothingEmptied(db);
    } else {
      var next := db.(options := db.options - {rows[0]});
      FirstRow(db, rows);
      VisitsTail(db, rows);
      DeleteExactly(t, next, rows[1..]);
      MembersCons(rows);
      RemainingExactly(db, rows[0]);
      if Remaining(db, rows[0]) == {} {
        LastOneEmptied(db, rows);
      } else {
        forall p ensures Empties(db, rows, p) <==> Empties(next, rows[1..], p) {
          if Empties(db, rows, p) {
            EmptiesTail(db, rows, p);
          }
          if Empties(next, rows[1..], p) {
            TailEmpties(db, rows, p);
          }
        }
      }
    }
  }

  function Members(rows: seq<PricingOption>): (r: set<PricingOption>)
    ensures forall o :: o in r <==> o in rows
  {
    if rows == [] then {} else {rows[0]} + Members(rows[1..])
  }

  lemma MembersCons(rows: seq<PricingOption>)
    requires rows != []
    ensures Members(rows) == {rows[0]} + Members(rows[1..])
  {
  }

  lemma NothingEmptied(db: Db)
    ensures forall p :: !Empties(db, [], p)
  {
  }

  lemma FirstRow(db: Db, rows: seq<PricingOption>)
    requires Sound(db) && Visits(db, rows) && rows != []
    ensures rows[0] in db.options && rows[0].product in db.products
    ensures Sound(db.(options := db.options - {rows[0]}))
  {
  }

  lemma LastOneEmptied(db: Db, rows: seq<PricingOption>)
    requires rows != [] && forall o | o in db.options && o.product == rows[0].product :: o == rows[0]
    ensures Empties(db, rows, rows[0].product)
  {
  }

  // ------------------------------------------------------------------ products

  lemma {:induction false} CascadeUnderFixed(db: Db, rows: seq<PricingOption>)
    requires forall i | 0 <= i < |rows| :: rows[i].product !in db.products
    ensures DeleteEach(Fixed, db, rows) == Ok(db.(options := db.options - Members(rows)))
    decreases |rows|
  {
    hide Remaining;
    if rows == [] {
      assert db.options - Members(rows) == db.options;
    } else {
      MembersCons(rows);
      assert forall i | 0 <= i < |rows[1..]| :: rows[1..][i] == rows[i + 1];
      CascadeUnderFixed(db.(options := db.options - {rows[0]}), rows[1..]);
      assert db.options - {rows[0]} - Members(rows[1..]) == db.options - Members(rows);
    }
  }

  /** With the fixed trigger a product delete always succeeds and takes exactly its own options with it. */
  lemma FixedDeletesProducts(db: Db, p: Product, rows: seq<PricingOption>)
    requires VisitsProduct(db, p, rows)
    ensures DeleteProduct(Fixed, db, p, rows)
            == Ok(Db(db.products - {p}, set o | o in db.options && o.product != p))
  {
    var next := db.(products := db.products - {p});
    forall i | 0 <= i < |rows| ensures rows[i].product !in next.products {
      assert rows[i] in rows;
    }
    CascadeUnderFixed(next, rows);
    assert db.options - Members(rows) == set o | o in db.options && o.product != p;
  }

  lemma {:induction false} CascadeUnderOriginal(db: Db, p: Product, rows: seq<PricingOption>)
    requires VisitsProduct(db, p, rows) && rows != []
    ensures DeleteEach(Original, db, rows).Raises?
    decreases |rows|
  {
    assert rows[0] in rows;
    if |rows| == 1 {
      forall o | o in db.options && o.product == p ensures o == rows[0] {
        assert o in rows;
      }
      assert Remaining(db, rows[0]) == {};
    } else {
      VisitsTail(db, rows);
      var next := db.(options := db.options - {rows[0]});
      forall o ensures o in rows[1..] <==> (o in next.options && o.product == p) {
        assert o in rows <==> o == rows[0] || o in rows[1..];
      }
      CascadeUnderOriginal(next, p, rows[1..]);
    }
  }

  lemma RowsMeanOptions(db: Db, p: Product, rows: seq<PricingOption>)
    requires VisitsProduct(db, p, rows)
    ensures rows == [] || HasOption(db, p)
  {
    if rows != [] {
      assert rows[0] in db.options && rows[0].product == p;
    }
  }

  /** With the original trigger a product can be deleted if and only if it has no options. */
  lemma OriginalBlocksProducts(db: Db, p: Product, rows: seq<PricingOption>)
    requires VisitsProduct(db, p, rows)
    ensures DeleteProduct(Original, db, p, rows).Ok? <==> !HasOption(db, p)
  {
    var next := db.(products := db.products - {p});
    if HasOption(db, p) {
      var o :| o in db.options && o.product == p;
      assert o in rows;
      assert VisitsProduct(next, p, rows);
      CascadeUnderOriginal(next, p, rows);
    } else {
      RowsMeanOptions(db, p, rows);
    }
  }

  // ------------------------------------------------------------------ whole runs

  /** What may happen to the tables under the trigger. */
  datatype Statement =
    | DeleteOptions(rows: seq<PricingOption>)
    | DropProduct(product: Product, cascade: seq<PricingOption>)
    | AddOption(option: PricingOption)

  /** The statement can be issued in this state: its rows are there, in some order of visit. */
  predicate Issuable(db: Db, s: Statement) {
    match s
    case DeleteOptions(rows) => Visits(db, rows)
    case DropProduct(p, rows) => VisitsProduct(db, p, rows)
    case AddOption(o) => o.product in db.products && forall other | other in db.options :: other.id != o.id
  }

  /** A statement that raises leaves the tables as they were. */
  function After(t: Trigger, db: Db, s: Statement): Db {
    match s
    case DeleteOptions(rows) => (match DeleteEach(t, db, rows) case Raises => db case Ok(next) => next)
    case DropProduct(p, rows) => (match DeleteProduct(t, db, p, rows) case Raises => db case Ok(next) => next)
    case AddOption(o) => db.(options := db.options + {o})
  }

  predicate RunOk(t: Trigger, db: Db, run: seq<Statement>)
    decreases |run|
  {
    run == [] || (Issuable(db, run[0]) && RunOk(t, After(t, db, run[0]), run[1..]))
  }

  function AfterAll(t: Trigger, db: Db, run: seq<Statement>): Db
    decreases |run|
  {
    if run == [] then db else AfterAll(t, After(t, db, run[0]), run[1..])
  }

  lemma DeleteKeepsPriced(t: Trigger, db: Db, rows: seq<PricingOption>)
    requires Sound(db) && EveryProductPriced(db) && Visits(db, rows) && DeleteEach(t, db, rows).Ok?
    ensures var next := DeleteEach(t, db, rows).value; Sound(next) && EveryProductPriced(next)
  {
    hide DeleteEach, Visits;
    DeleteExactly(t, db, rows);
    var next := DeleteEach(t, db, rows).value;
    forall p | p in next.products ensures HasOption(next, p) {
      assert HasOption(db, p) && !Empties(db, rows, p);
      var o :| o in db.options && o.product == p;
      if o in rows {
        var i :| 0 <= i < |rows| && rows[i] == o;
        var other :| other in db.options && other.product == p && other !in rows;
        assert other in next.options;
      } else {
        assert o in next.options;
      }
    }
  }

  lemma ProductDeleteKeepsPriced(t: Trigger, db: Db, p: Product, rows: seq<PricingOption>)
    requires Sound(db) && EveryProductPriced(db) && VisitsProduct(db, p, rows) && DeleteProduct(t, db, p, rows).Ok?
    ensures var next := DeleteProduct(t, db, p, rows).value; Sound(next) && EveryProductPriced(next)
  {
    hide DeleteEach, VisitsProduct;
    if t == Original {
      OriginalBlocksProducts(db, p, rows);
      NoRowsToDelete(db, p, rows);
    } else {
      FixedDeletesProducts(db, p, rows);
    }
    var next := DeleteProduct(t, db, p, rows).value;
    assert next.products == db.products - {p};
    assert next.options == set o | o in db.options && o.product != p;
    forall q | q in next.products ensures HasOption(next, q) {
      assert HasOption(db, q);
      var o :| o in db.options && o.product == q;
      assert o in next.options;
    }
  }

  lemma NoRowsToDelete(db: Db, p: Product, rows: seq<PricingOption>)
    requires VisitsProduct(db, p, rows) && !HasOption(db, p)
    ensures DeleteProduct(Original, db, p, rows) == Ok(Db(db.products - {p}, db.options))
    ensures db.options == set o | o in db.options && o.product != p
  {
    RowsMeanOptions(db, p, rows);
  }

  lemma StatementKeepsPriced(t: Trigger, db: Db, s: Statement)
    requires Sound(db) && EveryProductPriced(db) && Issuable(db, s)
    ensures Sound(After(t, db, s)) && EveryProductPriced(After(t, db, s))
  {
    hide DeleteEach, DeleteProduct, Visits, VisitsProduct;
    match s
    case DeleteOptions(rows) =>
      if DeleteEach(t, db, rows).Ok? {
        DeleteKeepsPriced(t, db, rows);
      }
    case DropProduct(p, rows) =>
      if DeleteProduct(t, db, p, rows).Ok? {
        ProductDeleteKeepsPriced(t, db, p, rows);
      }
    case AddOption(o) =>
      var next := After(t, db, s);
      forall p | p in next.products ensures HasOption(next, p) {
        assert HasOption(db, p);
        var some :| some in db.options && some.product == p;
        assert some in next.options;
      }
  }

  /** Once the orphan check has passed, no sequence of option deletes, of one row or many, product deletes and
      new options leaves an existing product without an option, under either trigger. */
  lemma {:induction false} EveryProductStaysPriced(t: Trigger, db: Db, run: seq<Statement>)
    requires Sound(db) && Orphans(db) == {} && RunOk(t, db, run)
    ensures Orphans(AfterAll(t, db, run)) == {}
    decreases |run|
  {
    hide Orphans, After, Issuable, Sound, EveryProductPriced;
    OrphanCheckExactly(db);
    if run != [] {
      StatementKeepsPriced(t, db, run[0]);
      OrphanCheckExactly(After(t, db, run[0]));
      EveryProductStaysPriced(t, After(t, db, run[0]), run[1..]);
    }
  }

  // ------------------------------------------------------------------ the tables

  class Catalog {
    var products: set<Product>
    var options: set<PricingOption>
    const trigger: Trigger

    constructor (products: set<Product>, options: set<PricingOption>, trigger: Trigger)
      requires Sound(Db(products, options)) && Orphans(Db(products, options)) == {}
      ensures Valid() && State() == Db(products, options) && this.trigger == trigger
    {
      this.products, this.options, this.trigger := products, options, trigger;
      new;
      OrphanCheckExactly(Db(products, options));
    }

    function State(): Db
      reads this
    {
      Db(products, options)
    }

    ghost predicate Valid()
      reads this
    {
      Sound(State()) && EveryProductPriced(State())
    }

    /** The trigger function with its variables. */
    method FireTrigger(row: PricingOption) returns (allowed: bool)
      ensures allowed <==> Allows(trigger, State(), row)
    {
      var productExists := row.product in products;
      if trigger == Fixed && !productExists {
        return true;
      }
      var remaining := set o | o in options && o.product == row.product && o.id != row.id;
      allowed := |remaining| != 0;
    }

    /** The trigger fires before each row; the first exception undoes the statement. */
    method DeleteOneByOne(rows: seq<PricingOption>) returns (ok: bool)
      modifies this`options
      ensures ok <==> DeleteEach(trigger, old(State()), rows).Ok?
      ensures ok ==> State() == DeleteEach(trigger, old(State()), rows).value
      ensures !ok ==> State() == old(State())
    {
      hide Allows;
      ghost var before := State();
      var snapshot := options;
      assert rows[0..] == rows;
      for i := 0 to |rows|
        invariant products == old(products)
        invariant DeleteEach(trigger, before, rows) == DeleteEach(trigger, State(), rows[i..])
      {
        assert rows[i..][1..] == rows[i + 1..];
        var allowed := FireTrigger(rows[i]);
        if !allowed {
          options := snapshot;
          return false;
        }
        options := options - {rows[i]};
      }
      ok := true;
    }

    /** `DELETE FROM pricing_options` over some rows. */
    method DeleteRows(rows: seq<PricingOption>) returns (ok: bool)
      requires Valid() && Visits(State(), rows)
      modifies this`options
      ensures Valid()
      ensures ok <==> forall p :: !Empties(old(State()), rows, p)
      ensures State() == if ok then old(State()).(options := old(options) - Members(rows)) else old(State())
    {
      hide Visits, Empties, Allows, Sound, EveryProductPriced, DeleteEach;
      ghost var before := State();
      DeleteExactly(trigger, before, rows);
      ok := DeleteOneByOne(rows);
      if ok {
        DeleteKeepsPriced(trigger, before, rows);
      }
    }

    /** `DELETE FROM products` with its cascade. */
    method RemoveProduct(p: Product, cascade: seq<PricingOption>) returns (ok: bool)
      requires Valid() && VisitsProduct(State(), p, cascade)
      modifies this
      ensures Valid()
      ensures ok <==> trigger == Fixed || !HasOption(old(State()), p)
      ensures ok ==> State() == Db(old(products) - {p}, set o | o in old(options) && o.product != p)
      ensures !ok ==> State() == old(State())
    {
      hide VisitsProduct, Allows, Sound, EveryProductPriced, DeleteEach, HasOption;
      ghost var before := State();
      if trigger == Fixed {
        FixedDeletesProducts(before, p, cascade);
      } else {
        OriginalBlocksProducts(before, p, cascade);
        if !HasOption(before, p) {
          NoRowsToDelete(before, p, cascade);
        }
      }
      if DeleteProduct(trigger, before, p, cascade).Ok? {
        ProductDeleteKeepsPriced(trigger, before, p, cascade);
      }
      var snapshot := products;
      products := products - {p};
      ok := DeleteOneByOne(cascade);
      if !ok {
        products := snapshot;
      }
    }
  }
}
