/** The mutable store behind the catalogue: one field per table of
    finalpro/productinfo/models.py. Create and delete requests change it in
    place; every method keeps Schema.Valid, so the unique constraints hold and
    no foreign key (all declared on_delete=PROTECT) ever dangles. */
module Store {
  import opened Wrappers
  import opened Schema

  class Store {
    var categories: Table<Category>
    var shippingMethods: Table<ShippingMethod>
    var paymentMethods: Table<PaymentMethod>
    var customers: Table<Customer>
    var products: Table<Product>
    var carts: Table<ShoppingCart>
    var cartItems: Table<CartItem>
    var orders: Table<Order>
    var orderProducts: Table<OrderProduct>

    /** The tables as one value. */
    function Contents(): Db
      reads this
    {
      Db(categories, shippingMethods, paymentMethods, customers, products,
         carts, cartItems, orders, orderProducts)
    }

    ghost predicate Valid()
      reads this
    {
      Schema.Valid(Contents())
    }

    /** A store with nine empty tables. */
    constructor ()
      ensures Valid() && Contents() == EmptyDb()
    {
      categories, shippingMethods, paymentMethods := EmptyTable(), EmptyTable(), EmptyTable();
      customers, products, carts := EmptyTable(), EmptyTable(), EmptyTable();
      cartItems, orders, orderProducts := EmptyTable(), EmptyTable(), EmptyTable();
      EmptyDbValid();
    }

    /** A create submission: rejected with the first error Schema.Check finds
        and the store unchanged, or stored under its table's next key, which
        is returned. */
    method Insert(row: Row) returns (r: Result<nat, InsertError>)
      requires Valid()
      modifies this
      ensures Valid()
      ensures r.Ok? <==> Check(old(Contents()), row).None?
      ensures r.Ok? ==> r.value == NextId(old(Contents()), TableOf(row)) && Contents() == AddRow(old(Contents()), row)
      ensures r.Err? ==> r.error == Check(old(Contents()), row).value && Contents() == old(Contents())
    {
      var db := Contents();
      var e := Check(db, row);
      if e.Some? {
        return Err(e.value);
      }
      r := Ok(NextId(db, TableOf(row)));
      Save(row);
    }

    /** Model.save() of a new row that passes every check: the row goes into
        its own table under that table's next key; the other eight fields are
        written back with the tables they already held, and the store stays
        valid. */
    method Save(row: Row)
      requires Valid() && Check(Contents(), row).None?
      modifies this
      ensures Valid()
      ensures Contents() == AddRow(old(Contents()), row)
    {
      var db' := AddRow(Contents(), row);
      categories, shippingMethods, paymentMethods := db'.categories, db'.shippingMethods, db'.paymentMethods;
      customers, products, carts := db'.customers, db'.products, db'.carts;
      cartItems, orders, orderProducts := db'.cartItems, db'.orders, db'.orderProducts;
      assert Contents() == db';
      InsertPreservesValid(old(Contents()), row);
    }

    /** Drops a row that PROTECT lets go (present, and referenced by no
        row) from its own table; the other eight fields are written back with
        the tables they already held, and the store stays valid. */
    method Remove(target: RowRef)
      requires Valid() && Schema.Delete(Contents(), target).Ok?
      modifies this
      ensures Valid()
      ensures Contents() == RemoveRow(old(Contents()), target)
    {
      var db' := RemoveRow(Contents(), target);
      categories, shippingMethods, paymentMethods := db'.categories, db'.shippingMethods, db'.paymentMethods;
      customers, products, carts := db'.customers, db'.products, db'.carts;
      cartItems, orders, orderProducts := db'.cartItems, db'.orders, db'.orderProducts;
      assert Contents() == db';
      DeletePreservesValid(old(Contents()), target);
    }

    /** Model.delete() with on_delete=PROTECT: refused, and the store
        unchanged, when target is absent or still referenced; otherwise
        exactly target is removed. */
    method Delete(target: RowRef) returns (err: Option<DeleteError>)
      requires Valid()
      modifies this
      ensures Valid()
      ensures err.None? <==> Schema.Delete(old(Contents()), target).Ok?
      ensures err.None? ==> Contents() == RemoveRow(old(Contents()), target)
      ensures err.Some? ==> err.value == Schema.Delete(old(Contents()), target).error && Contents() == old(Contents())
    {
      var db := Contents();
      var outcome := Schema.Delete(db, target);
      if outcome.Err? {
        return Some(outcome.error);
      }
      Remove(target);
      err := None;
    }
  }
}
