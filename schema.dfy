/** The relational schema of the shop catalogue (finalpro/productinfo/models.py):
    the nine entity records, their tables with auto-incremented keys, the
    unique constraints, the foreign keys declared with on_delete=PROTECT and
    the field length bounds, together with the pure effect of inserting and
    deleting one row. The mutable store built on these is in module Store. */
module Schema {
  import opened Wrappers

  /** CharField(max_length=45) and CharField(max_length=225). */
  const ShortText: nat := 45
  const LongText: nat := 225

  /** The default of Customer.disambiguator (blank=True, default=''). */
  const DefaultDisambiguator: string := ""

  // Prices and totals (FloatField in the source) are integer cents here;
  // order_date (DateTimeField) is an opaque integer timestamp.

  datatype Category = Category(name: string, description: string)
  datatype ShippingMethod = ShippingMethod(name: string, description: string)
  datatype PaymentMethod = PaymentMethod(name: string, description: string)
  datatype Customer = Customer(firstName: string, lastName: string, disambiguator: string,
                               username: string, password: string, email: string,
                               shippingMethod: nat, paymentMethod: nat)
  datatype Product = Product(name: string, price: int, stock: int, category: nat)
  datatype ShoppingCart = ShoppingCart(totalPrice: int, customer: nat, shippingMethod: nat, paymentMethod: nat)
  datatype CartItem = CartItem(quantity: int, cart: nat, product: nat)
  datatype Order = Order(totalPrice: int, orderDate: int, receiver: string, address: string,
                         shippingMethod: nat, paymentMethod: nat, customer: nat)
  datatype OrderProduct = OrderProduct(price: int, quantity: int, order: nat, product: nat)

  /** One table: its rows by primary key and the next value of its AutoField. */
  datatype Table<T> = Table(rows: map<nat, T>, next: nat)

  function EmptyTable<T>(): (t: Table<T>)
    ensures t.rows == map[] && t.next == 1
  {
    Table(map[], 1)
  }

  /** Every key handed out so far is below the AutoField counter. */
  predicate KeysBelowNext<T>(t: Table<T>) {
    forall k :: k in t.rows ==> k < t.next
  }

  /** Insert under a fresh auto-incremented key. */
  function Append<T>(t: Table<T>, v: T): Table<T> {
    Table(t.rows[t.next := v], t.next + 1)
  }

  function Drop<T>(t: Table<T>, k: nat): Table<T> {
    Table(t.rows - {k}, t.next)
  }

  /** No two distinct rows agree on key. */
  predicate UniqueBy<T, K(==)>(t: Table<T>, key: T -> K) {
    forall a, b :: a in t.rows && b in t.rows && a != b ==> key(t.rows[a]) != key(t.rows[b])
  }

  /** Some row already has key value k. */
  predicate Taken<T, K(==)>(t: Table<T>, key: T -> K, k: K) {
    exists a :: a in t.rows && key(t.rows[a]) == k
  }

  // The columns of each unique constraint.
  function CategoryKey(c: Category): string { c.name }
  function ShippingMethodKey(m: ShippingMethod): string { m.name }
  function PaymentMethodKey(m: PaymentMethod): string { m.name }
  function CustomerKey(c: Customer): (string, string, string) { (c.username, c.email, c.disambiguator) }
  function ProductKey(p: Product): string { p.name }
  function CartKey(c: ShoppingCart): nat { c.customer }
  function CartItemKey(i: CartItem): (nat, nat) { (i.cart, i.product) }

  datatype Db = Db(categories: Table<Category>,
                   shippingMethods: Table<ShippingMethod>,
                   paymentMethods: Table<PaymentMethod>,
                   customers: Table<Customer>,
                   products: Table<Product>,
                   carts: Table<ShoppingCart>,
                   cartItems: Table<CartItem>,
                   orders: Table<Order>,
                   orderProducts: Table<OrderProduct>)

  function EmptyDb(): Db {
    Db(EmptyTable(), EmptyTable(), EmptyTable(), EmptyTable(), EmptyTable(),
       EmptyTable(), EmptyTable(), EmptyTable(), EmptyTable())
  }

  datatype TableName = CategoryTable | ShippingMethodTable | PaymentMethodTable | CustomerTable
                     | ProductTable | ShoppingCartTable | CartItemTable | OrderTable | OrderProductTable

  /** A reference to one row: its table and primary key. */
  datatype RowRef = RowRef(table: TableName, id: nat)

  /** A row of any table. */
  datatype Row = CategoryRow(category: Category)
               | ShippingMethodRow(shippingMethod: ShippingMethod)
               | PaymentMethodRow(paymentMethod: PaymentMethod)
               | CustomerRow(customer: Customer)
               | ProductRow(product: Product)
               | ShoppingCartRow(cart: ShoppingCart)
               | CartItemRow(cartItem: CartItem)
               | OrderRow(order: Order)
               | OrderProductRow(orderProduct: OrderProduct)

  function TableOf(row: Row): TableName {
    match row
    case CategoryRow(_) => CategoryTable
    case ShippingMethodRow(_) => ShippingMethodTable
    case PaymentMethodRow(_) => PaymentMethodTable
    case CustomerRow(_) => CustomerTable
    case ProductRow(_) => ProductTable
    case ShoppingCartRow(_) => ShoppingCartTable
    case CartItemRow(_) => CartItemTable
    case OrderRow(_) => OrderTable
    case OrderProductRow(_) => OrderProductTable
  }

  predicate Has(db: Db, r: RowRef) {
    match r.table
    case CategoryTable => r.id in db.categories.rows
    case ShippingMethodTable => r.id in db.shippingMethods.rows
    case PaymentMethodTable => r.id in db.paymentMethods.rows
    case CustomerTable => r.id in db.customers.rows
    case ProductTable => r.id in db.products.rows
    case ShoppingCartTable => r.id in db.carts.rows
    case CartItemTable => r.id in db.cartItems.rows
    case OrderTable => r.id in db.orders.rows
    case OrderProductTable => r.id in db.orderProducts.rows
  }

  function Get(db: Db, r: RowRef): (row: Row)
    requires Has(db, r)
    ensures TableOf(row) == r.table
  {
    match r.table
    case CategoryTable => CategoryRow(db.categories.rows[r.id])
    case ShippingMethodTable => ShippingMethodRow(db.shippingMethods.rows[r.id])
    case PaymentMethodTable => PaymentMethodRow(db.paymentMethods.rows[r.id])
    case CustomerTable => CustomerRow(db.customers.rows[r.id])
    case ProductTable => ProductRow(db.products.rows[r.id])
    case ShoppingCartTable => ShoppingCartRow(db.carts.rows[r.id])
    case CartItemTable => CartItemRow(db.cartItems.rows[r.id])
    case OrderTable => OrderRow(db.orders.rows[r.id])
    case OrderProductTable => OrderProductRow(db.orderProducts.rows[r.id])
  }

  /** The key the next insert into table t receives. */
  function NextId(db: Db, t: TableName): nat {
    match t
    case CategoryTable => db.categories.next
    case ShippingMethodTable => db.shippingMethods.next
    case PaymentMethodTable => db.paymentMethods.next
    case CustomerTable => db.customers.next
    case ProductTable => db.products.next
    case ShoppingCartTable => db.carts.next
    case CartItemTable => db.cartItems.next
    case OrderTable => db.orders.next
    case OrderProductTable => db.orderProducts.next
  }

  // ---------------------------------------------------------------------
  // Field checks (required CharFields and max_length)

  /** A CharField value is acceptable: within max_length, and non-empty
      unless the field is declared blank=True. */
  predicate TextOk(s: string, maxLength: nat, blank: bool) {
    |s| <= maxLength && (blank || s != [])
  }

  /** One CharField of a model: its Django name, the row's value for it,
      and its max_length and blank declarations. */
  datatype TextField = TextField(name: string, value: string, maxLength: nat, blank: bool)

  /** The CharFields that models.py declares for row's model, in
      declaration order. */
  function TextFields(row: Row): seq<TextField> {
    match row
    case CategoryRow(c) =>
      [TextField("category_name", c.name, ShortText, false),
       TextField("category_description", c.description, LongText, false)]
    case ShippingMethodRow(m) =>
      [TextField("sm_name", m.name, ShortText, false),
       TextField("sm_description", m.description, LongText, false)]
    case PaymentMethodRow(m) =>
      [TextField("pm_name", m.name, ShortText, false),
       TextField("pm_description", m.description, LongText, false)]
    case CustomerRow(c) =>
      [TextField("first_name", c.firstName, ShortText, false),
       TextField("last_name", c.lastName, ShortText, false),
       TextField("disambiguator", c.disambiguator, ShortText, true),
       TextField("username", c.username, ShortText, false),
       TextField("password", c.password, ShortText, false),
       TextField("email", c.email, LongText, false)]
    case ProductRow(p) => [TextField("product_name", p.name, LongText, false)]
    case ShoppingCartRow(_) => []
    case CartItemRow(_) => []
    case OrderRow(o) =>
      [TextField("receiver", o.receiver, ShortText, false),
       TextField("address", o.address, LongText, false)]
    case OrderProductRow(_) => []
  }

  /** The first field of fs whose value fails its declaration, by name. */
  function FirstBadField(fs: seq<TextField>): (r: Option<string>)
    ensures r.None? <==> forall i :: 0 <= i < |fs| ==> TextOk(fs[i].value, fs[i].maxLength, fs[i].blank)
    ensures r.Some? ==> exists i :: 0 <= i < |fs| && fs[i].name == r.value && !TextOk(fs[i].value, fs[i].maxLength, fs[i].blank)
  {
    if fs == [] then None
    else if !TextOk(fs[0].value, fs[0].maxLength, fs[0].blank) then Some(fs[0].name)
    else FirstBadField(fs[1..])
  }

  /** The field checks of a create: the first CharField of row, in
      declaration order, that fails max_length or blank, by its Django field
      name. */
  function FieldError(row: Row): (r: Option<string>)
    ensures var fs := TextFields(row);
            && (r.None? <==> forall i :: 0 <= i < |fs| ==> TextOk(fs[i].value, fs[i].maxLength, fs[i].blank))
            && (r.Some? ==> exists i :: 0 <= i < |fs| && fs[i].name == r.value && !TextOk(fs[i].value, fs[i].maxLength, fs[i].blank))
  {
    FirstBadField(TextFields(row))
  }

  // ---------------------------------------------------------------------
  // Foreign keys (every one declared with on_delete=PROTECT)

  /** The foreign-key fields of row, in declaration order, with the row each
      one points to. */
  function ForeignKeys(row: Row): seq<(string, RowRef)> {
    match row
    case CategoryRow(_) => []
    case ShippingMethodRow(_) => []
    case PaymentMethodRow(_) => []
    case CustomerRow(c) =>
      [("sm_id", RowRef(ShippingMethodTable, c.shippingMethod)),
       ("pm_id", RowRef(PaymentMethodTable, c.paymentMethod))]
    case ProductRow(p) =>
      [("category_id", RowRef(CategoryTable, p.category))]
    case ShoppingCartRow(c) =>
      [("customer_id", RowRef(CustomerTable, c.customer)),
       ("sm_id", RowRef(ShippingMethodTable, c.shippingMethod)),
       ("pm_id", RowRef(PaymentMethodTable, c.paymentMethod))]
    case CartItemRow(i) =>
      [("cart_id", RowRef(ShoppingCartTable, i.cart)),
       ("product_id", RowRef(ProductTable, i.product))]
    case OrderRow(o) =>
      [("sm_id", RowRef(ShippingMethodTable, o.shippingMethod)),
       ("pm_id", RowRef(PaymentMethodTable, o.paymentMethod)),
       ("customer_id", RowRef(CustomerTable, o.customer))]
    case OrderProductRow(l) =>
      [("order_id", RowRef(OrderTable, l.order)),
       ("product_id", RowRef(ProductTable, l.product))]
  }

  /** The rows that row points to. */
  function Targets(row: Row): set<RowRef> {
    set fk | fk in ForeignKeys(row) :: fk.1
  }

  /** Targets spelled out for each kind of row. */
  lemma TargetsListed(row: Row)
    ensures Targets(row) ==
      match row
      case CategoryRow(_) => {}
      case ShippingMethodRow(_) => {}
      case PaymentMethodRow(_) => {}
      case CustomerRow(c) =>
        {RowRef(ShippingMethodTable, c.shippingMethod), RowRef(PaymentMethodTable, c.paymentMethod)}
      case ProductRow(p) => {RowRef(CategoryTable, p.category)}
      case ShoppingCartRow(c) =>
        {RowRef(CustomerTable, c.customer), RowRef(ShippingMethodTable, c.shippingMethod),
         RowRef(PaymentMethodTable, c.paymentMethod)}
      case CartItemRow(i) => {RowRef(ShoppingCartTable, i.cart), RowRef(ProductTable, i.product)}
      case OrderRow(o) =>
        {RowRef(ShippingMethodTable, o.shippingMethod), RowRef(PaymentMethodTable, o.paymentMethod),
         RowRef(CustomerTable, o.customer)}
      case OrderProductRow(l) => {RowRef(OrderTable, l.order), RowRef(ProductTable, l.product)}
  {
    var fks := ForeignKeys(row);
    forall i | 0 <= i < |fks| ensures fks[i].1 in Targets(row) {
      assert fks[i] in fks;
    }
  }

  /** The first foreign-key field whose target is not in the store. */
  function FirstMissing(db: Db, fks: seq<(string, RowRef)>): (r: Option<string>)
    ensures r.None? <==> forall i :: 0 <= i < |fks| ==> Has(db, fks[i].1)
    ensures r.Some? ==> exists i :: 0 <= i < |fks| && fks[i].0 == r.value && !Has(db, fks[i].1)
  {
    if fks == [] then None
    else if !Has(db, fks[0].1) then Some(fks[0].0)
    else FirstMissing(db, fks[1..])
  }

  function RefError(db: Db, row: Row): Option<string> {
    FirstMissing(db, ForeignKeys(row))
  }

  /** Every foreign key of row resolves in db. */
  lemma RefErrorNoneMeansResolved(db: Db, row: Row)
    ensures RefError(db, row).None? <==> forall t :: t in Targets(row) ==> Has(db, t)
  {
    var fks := ForeignKeys(row);
    if RefError(db, row).None? {
      forall t | t in Targets(row) ensures Has(db, t) {
        var fk :| fk in fks && fk.1 == t;
        var i :| 0 <= i < |fks| && fks[i] == fk;
      }
    } else {
      var i :| 0 <= i < |fks| && !Has(db, fks[i].1);
      assert fks[i] in fks;
      assert fks[i].1 in Targets(row);
    }
  }

  // ---------------------------------------------------------------------
  // Related rows: the reverse side of each foreign key, by related_name

  function CategoryProducts(db: Db, c: nat): set<nat> {                    // category.products
    set k | k in db.products.rows && db.products.rows[k].category == c
  }
  function ShippingMethodCustomers(db: Db, m: nat): set<nat> {             // shipping_method.customers
    set k | k in db.customers.rows && db.customers.rows[k].shippingMethod == m
  }
  function ShippingMethodCarts(db: Db, m: nat): set<nat> {                 // shipping_method.shopping_carts
    set k | k in db.carts.rows && db.carts.rows[k].shippingMethod == m
  }
  function ShippingMethodOrders(db: Db, m: nat): set<nat> {                // shipping_method.orders
    set k | k in db.orders.rows && db.orders.rows[k].shippingMethod == m
  }
  function PaymentMethodCustomers(db: Db, m: nat): set<nat> {              // payment_method.customers
    set k | k in db.customers.rows && db.customers.rows[k].paymentMethod == m
  }
  function PaymentMethodCarts(db: Db, m: nat): set<nat> {                  // payment_method.shopping_carts
    set k | k in db.carts.rows && db.carts.rows[k].paymentMethod == m
  }
  function PaymentMethodOrders(db: Db, m: nat): set<nat> {                 // payment_method.orders
    set k | k in db.orders.rows && db.orders.rows[k].paymentMethod == m
  }
  function CustomerOrders(db: Db, c: nat): set<nat> {                      // customer.orders
    set k | k in db.orders.rows && db.orders.rows[k].customer == c
  }
  function CustomerCarts(db: Db, c: nat): set<nat> {                       // customer.shopping_carts
    set k | k in db.carts.rows && db.carts.rows[k].customer == c
  }
  function ProductCartItems(db: Db, p: nat): set<nat> {                    // product.cart_items
    set k | k in db.cartItems.rows && db.cartItems.rows[k].product == p
  }
  function ProductOrderProducts(db: Db, p: nat): set<nat> {                // product.order_products
    set k | k in db.orderProducts.rows && db.orderProducts.rows[k].product == p
  }
  function CartCartItems(db: Db, c: nat): set<nat> {                       // shopping_cart.cart_items
    set k | k in db.cartItems.rows && db.cartItems.rows[k].cart == c
  }
  function OrderOrderProducts(db: Db, o: nat): set<nat> {                  // order.order_products
    set k | k in db.orderProducts.rows && db.orderProducts.rows[k].order == o
  }

  /** A set has an element exactly when its size is positive. */
  lemma NonEmptyWitness(s: set<nat>)
    ensures |s| > 0 <==> exists x :: x in s
  {
    if |s| > 0 {
      assert s != {};
    }
  }

  /** The keys ids of table t as row references. */
  function Refs(t: TableName, ids: set<nat>): (r: set<RowRef>)
    ensures forall x :: x in r <==> x.table == t && x.id in ids
    ensures r == {} <==> ids == {}
  {
    set i | i in ids :: RowRef(t, i)
  }

  /** Every row that points to target through one of its foreign keys,
      gathered from the related sets of target's table. */
  function Dependents(db: Db, target: RowRef): set<RowRef> {
    var id := target.id;
    match target.table
    case CategoryTable => Refs(ProductTable, CategoryProducts(db, id))
    case ShippingMethodTable =>
      Refs(CustomerTable, ShippingMethodCustomers(db, id)) + Refs(ShoppingCartTable, ShippingMethodCarts(db, id))
      + Refs(OrderTable, ShippingMethodOrders(db, id))
    case PaymentMethodTable =>
      Refs(CustomerTable, PaymentMethodCustomers(db, id)) + Refs(ShoppingCartTable, PaymentMethodCarts(db, id))
      + Refs(OrderTable, PaymentMethodOrders(db, id))
    case CustomerTable => Refs(OrderTable, CustomerOrders(db, id)) + Refs(ShoppingCartTable, CustomerCarts(db, id))
    case ProductTable => Refs(CartItemTable, ProductCartItems(db, id)) + Refs(OrderProductTable, ProductOrderProducts(db, id))
    case ShoppingCartTable => Refs(CartItemTable, CartCartItems(db, id))
    case CartItemTable => {}
    case OrderTable => Refs(OrderProductTable, OrderOrderProducts(db, id))
    case OrderProductTable => {}
  }

  /** The related sets are exactly the reverse of the declared foreign keys:
      a row depends on target iff it is stored and one of its foreign keys
      names target. */
  lemma {:induction false} DependentsAreReferrers(db: Db, target: RowRef, r: RowRef)
    ensures r in Dependents(db, target) <==> Has(db, r) && target in Targets(Get(db, r))
  {
    if Has(db, r) && target in Targets(Get(db, r)) {
      ReferrersAreDependents(db, target, r);
    }
    if r in Dependents(db, target) {
      DependentsRefer(db, target, r);
    }
  }

  lemma {:induction false} ReferrersAreDependents(db: Db, target: RowRef, r: RowRef)
    requires Has(db, r) && target in Targets(Get(db, r))
    ensures r in Dependents(db, target)
  {
    var row := Get(db, r);
    TargetsListed(row);
    match row
    case CategoryRow(_) =>
    case ShippingMethodRow(_) =>
    case PaymentMethodRow(_) =>
    case CustomerRow(c) => assert target.table in {ShippingMethodTable, PaymentMethodTable};
    case ProductRow(p) => assert target == RowRef(CategoryTable, p.category);
    case ShoppingCartRow(c) => assert target.table in {CustomerTable, ShippingMethodTable, PaymentMethodTable};
    case CartItemRow(i) => assert target.table in {ShoppingCartTable, ProductTable};
    case OrderRow(o) => assert target.table in {ShippingMethodTable, PaymentMethodTable, CustomerTable};
    case OrderProductRow(l) => assert target.table in {OrderTable, ProductTable};
  }

  lemma {:induction false} DependentsRefer(db: Db, target: RowRef, r: RowRef)
    requires r in Dependents(db, target)
    ensures Has(db, r) && target in Targets(Get(db, r))
  {
    TargetsListed(Get(db, r));
  }

  // ---------------------------------------------------------------------
  // Unique constraints

  /** unique_orderproduct, as declared, over (oitem_id, order_id, product_id). */
  predicate OrderProductConstraint(t: Table<OrderProduct>) {
    forall a, b :: a in t.rows && b in t.rows && a != b ==>
      (a, t.rows[a].order, t.rows[a].product) != (b, t.rows[b].order, t.rows[b].product)
  }

  predicate UniqueConstraints(db: Db) {
    && UniqueBy(db.categories, CategoryKey)
    && UniqueBy(db.shippingMethods, ShippingMethodKey)
    && UniqueBy(db.paymentMethods, PaymentMethodKey)
    && UniqueBy(db.customers, CustomerKey)
    && UniqueBy(db.products, ProductKey)
    && UniqueBy(db.carts, CartKey)
    && UniqueBy(db.cartItems, CartItemKey)
    && OrderProductConstraint(db.orderProducts)
  }

  /** The name models.py gives the UniqueConstraint of each model. */
  function ConstraintName(t: TableName): string {
    match t
    case CategoryTable => "unique_category"
    case ShippingMethodTable => "unique_sm"
    case PaymentMethodTable => "unique_pm"
    case CustomerTable => "unique_customer"
    case ProductTable => "unique_product"
    case ShoppingCartTable => "unique_shoppingcart"
    case CartItemTable => "unique_cartitem"
    case OrderTable => "unique_order"
    case OrderProductTable => "unique_orderproduct"
  }

  /** The constraint that the next insert of row would violate, by name:
      always the constraint of row's own model. */
  function UniqueError(db: Db, row: Row): (r: Option<string>)
    ensures r.Some? ==> r.value == ConstraintName(TableOf(row))
  {
    match row
    case CategoryRow(c) =>
      if Taken(db.categories, CategoryKey, CategoryKey(c)) then Some("unique_category") else None
    case ShippingMethodRow(m) =>
      if Taken(db.shippingMethods, ShippingMethodKey, ShippingMethodKey(m)) then Some("unique_sm") else None
    case PaymentMethodRow(m) =>
      if Taken(db.paymentMethods, PaymentMethodKey, PaymentMethodKey(m)) then Some("unique_pm") else None
    case CustomerRow(c) =>
      if Taken(db.customers, CustomerKey, CustomerKey(c)) then Some("unique_customer") else None
    case ProductRow(p) =>
      if Taken(db.products, ProductKey, ProductKey(p)) then Some("unique_product") else None
    case ShoppingCartRow(c) =>
      if Taken(db.carts, CartKey, CartKey(c)) then Some("unique_shoppingcart") else None
    case CartItemRow(i) =>
      if Taken(db.cartItems, CartItemKey, CartItemKey(i)) then Some("unique_cartitem") else None
    case OrderRow(_) =>
      // unique_order is over order_id alone, the key the insert receives
      if db.orders.next in db.orders.rows then Some("unique_order") else None
    case OrderProductRow(l) =>
      var id := db.orderProducts.next;
      if exists a :: a in db.orderProducts.rows
                     && (a, db.orderProducts.rows[a].order, db.orderProducts.rows[a].product) == (id, l.order, l.product)
      then Some("unique_orderproduct") else None
  }

  // ---------------------------------------------------------------------
  // The store invariant

  predicate AllKeysBelowNext(db: Db) {
    && KeysBelowNext(db.categories) && KeysBelowNext(db.shippingMethods) && KeysBelowNext(db.paymentMethods)
    && KeysBelowNext(db.customers) && KeysBelowNext(db.products) && KeysBelowNext(db.carts)
    && KeysBelowNext(db.cartItems) && KeysBelowNext(db.orders) && KeysBelowNext(db.orderProducts)
  }

  /** Every stored row passes its field checks and all its foreign keys
      resolve (what PROTECT guarantees). */
  ghost predicate RowsWellFormed(db: Db) {
    forall r :: Has(db, r) ==> FieldError(Get(db, r)).None? && RefError(db, Get(db, r)).None?
  }

  ghost predicate Valid(db: Db) {
    AllKeysBelowNext(db) && UniqueConstraints(db) && RowsWellFormed(db)
  }

  lemma EmptyDbValid()
    ensures Valid(EmptyDb())
  {
  }

  // ---------------------------------------------------------------------
  // Insert

  datatype InsertError = Invalid(field: string) | MissingReference(field: string) | Duplicate(constraint: string)

  /** What a create submission reports: the first bad text field, else the
      first unresolved foreign key, else the first violated constraint. */
  function Check(db: Db, row: Row): (r: Option<InsertError>)
    ensures r.None? <==> FieldError(row).None? && RefError(db, row).None? && UniqueError(db, row).None?
    ensures r.Some? && r.value.Invalid? ==> FieldError(row) == Some(r.value.field)
    ensures r.Some? && r.value.MissingReference? ==> FieldError(row).None? && RefError(db, row) == Some(r.value.field)
    ensures r.Some? && r.value.Duplicate? ==>
              FieldError(row).None? && RefError(db, row).None? && UniqueError(db, row) == Some(r.value.constraint)
  {
    if FieldError(row).Some? then Some(Invalid(FieldError(row).value))
    else if RefError(db, row).Some? then Some(MissingReference(RefError(db, row).value))
    else if UniqueError(db, row).Some? then Some(Duplicate(UniqueError(db, row).value))
    else None
  }

  /** row stored under the next key of its table. */
  function AddRow(db: Db, row: Row): (db': Db)
    ensures NextId(db', TableOf(row)) == NextId(db, TableOf(row)) + 1
    ensures forall t :: t != TableOf(row) ==> NextId(db', t) == NextId(db, t)
    ensures var added := RowRef(TableOf(row), NextId(db, TableOf(row)));
            Has(db', added) && Get(db', added) == row
  {
    match row
    case CategoryRow(c) => db.(categories := Append(db.categories, c))
    case ShippingMethodRow(m) => db.(shippingMethods := Append(db.shippingMethods, m))
    case PaymentMethodRow(m) => db.(paymentMethods := Append(db.paymentMethods, m))
    case CustomerRow(c) => db.(customers := Append(db.customers, c))
    case ProductRow(p) => db.(products := Append(db.products, p))
    case ShoppingCartRow(c) => db.(carts := Append(db.carts, c))
    case CartItemRow(i) => db.(cartItems := Append(db.cartItems, i))
    case OrderRow(o) => db.(orders := Append(db.orders, o))
    case OrderProductRow(l) => db.(orderProducts := Append(db.orderProducts, l))
  }

  /** Inserting keeps every existing row and adds exactly row, under the key
      the table's counter held. */
  lemma {:induction false} AddRowContents(db: Db, row: Row)
    requires AllKeysBelowNext(db)
    ensures var added := RowRef(TableOf(row), NextId(db, TableOf(row)));
            && !Has(db, added)
            && (forall r :: Has(AddRow(db, row), r) <==> Has(db, r) || r == added)
            && Get(AddRow(db, row), added) == row
            && (forall r :: Has(db, r) ==> Get(AddRow(db, row), r) == Get(db, r))
  {
    var added := RowRef(TableOf(row), NextId(db, TableOf(row)));
    match row
    case CategoryRow(c) => assert !Has(db, added);
    case ShippingMethodRow(m) => assert !Has(db, added);
    case PaymentMethodRow(m) => assert !Has(db, added);
    case CustomerRow(c) => assert !Has(db, added);
    case ProductRow(p) => assert !Has(db, added);
    case ShoppingCartRow(c) => assert !Has(db, added);
    case CartItemRow(i) => assert !Has(db, added);
    case OrderRow(o) => assert !Has(db, added);
    case OrderProductRow(l) => assert !Has(db, added);
  }

  /** The create path: validate, then store under the next key. */
  function Insert(db: Db, row: Row): (r: Result<(Db, nat), InsertError>)
    ensures r.Ok? <==> Check(db, row).None?
    ensures r.Ok? ==> r.value == (AddRow(db, row), NextId(db, TableOf(row)))
    ensures r.Err? ==> r.error == Check(db, row).value
  {
    match Check(db, row)
    case Some(e) => Err(e)
    case None => Ok((AddRow(db, row), NextId(db, TableOf(row))))
  }

  lemma UniqueAfterAppend<T, K>(t: Table<T>, key: T -> K, v: T)
    requires KeysBelowNext(t) && UniqueBy(t, key) && !Taken(t, key, key(v))
    ensures UniqueBy(Append(t, v), key) && KeysBelowNext(Append(t, v))
  {
    var t' := Append(t, v);
    forall a, b | a in t'.rows && b in t'.rows && a != b
      ensures key(t'.rows[a]) != key(t'.rows[b])
    {
      if a == t.next {
        assert b in t.rows;
      } else if b == t.next {
        assert a in t.rows;
      }
    }
  }

  lemma {:induction false} InsertPreservesValid(db: Db, row: Row)
    requires Valid(db) && Check(db, row).None?
    ensures Valid(AddRow(db, row))
  {
    AddKeepsKeys(db, row);
    AddKeepsRowsWellFormed(db, row);
  }

  /** An insert the unique constraints allow keeps them, and keeps every key
      below its counter. */
  lemma {:induction false} AddKeepsKeys(db: Db, row: Row)
    requires AllKeysBelowNext(db) && UniqueConstraints(db) && UniqueError(db, row).None?
    ensures AllKeysBelowNext(AddRow(db, row)) && UniqueConstraints(AddRow(db, row))
  {
    match row {
      case CategoryRow(c) => UniqueAfterAppend(db.categories, CategoryKey, c);
      case ShippingMethodRow(m) => UniqueAfterAppend(db.shippingMethods, ShippingMethodKey, m);
      case PaymentMethodRow(m) => UniqueAfterAppend(db.paymentMethods, PaymentMethodKey, m);
      case CustomerRow(c) => UniqueAfterAppend(db.customers, CustomerKey, c);
      case ProductRow(p) => UniqueAfterAppend(db.products, ProductKey, p);
      case ShoppingCartRow(c) => UniqueAfterAppend(db.carts, CartKey, c);
      case CartItemRow(i) => UniqueAfterAppend(db.cartItems, CartItemKey, i);
      case OrderRow(o) =>
      case OrderProductRow(l) =>
    }
  }

  /** An insert whose fields and references check out keeps every stored
      row well formed. */
  lemma {:induction false} AddKeepsRowsWellFormed(db: Db, row: Row)
    requires AllKeysBelowNext(db) && RowsWellFormed(db)
    requires FieldError(row).None? && RefError(db, row).None?
    ensures RowsWellFormed(AddRow(db, row))
  {
    var db' := AddRow(db, row);
    AddRowContents(db, row);
    forall r | Has(db', r)
      ensures FieldError(Get(db', r)).None? && RefError(db', Get(db', r)).None?
    {
      var row' := Get(db', r);
      RefErrorNoneMeansResolved(db', row');
      if Has(db, r) {
        RefErrorNoneMeansResolved(db, row');
      } else {
        RefErrorNoneMeansResolved(db, row);
      }
    }
  }

  // ---------------------------------------------------------------------
  // What the unique constraints mean for successive inserts

  /** row' belongs to row's table and agrees with it on the columns of that
      table's unique constraint. Orders and order lines have no such
      columns: their constraints include the key the insert receives. */
  predicate SameUniqueKey(row: Row, row': Row) {
    match row
    case CategoryRow(a) => row'.CategoryRow? && CategoryKey(row'.category) == CategoryKey(a)
    case ShippingMethodRow(a) => row'.ShippingMethodRow? && ShippingMethodKey(row'.shippingMethod) == ShippingMethodKey(a)
    case PaymentMethodRow(a) => row'.PaymentMethodRow? && PaymentMethodKey(row'.paymentMethod) == PaymentMethodKey(a)
    case CustomerRow(a) => row'.CustomerRow? && CustomerKey(row'.customer) == CustomerKey(a)
    case ProductRow(a) => row'.ProductRow? && ProductKey(row'.product) == ProductKey(a)
    case ShoppingCartRow(a) => row'.ShoppingCartRow? && CartKey(row'.cart) == CartKey(a)
    case CartItemRow(a) => row'.CartItemRow? && CartItemKey(row'.cartItem) == CartItemKey(a)
    case OrderRow(_) => false
    case OrderProductRow(_) => false
  }

  /** For each model whose constraint has columns of its own, the insert is
      refused exactly when a stored row of that model already holds the
      same values in those columns. */
  lemma {:induction false} UniqueErrorIffSameKey(db: Db, row: Row)
    requires !row.OrderRow? && !row.OrderProductRow?
    ensures UniqueError(db, row).Some? <==> exists x :: Has(db, x) && SameUniqueKey(row, Get(db, x))
  {
    if x :| Has(db, x) && SameUniqueKey(row, Get(db, x)) {
      assert TableOf(Get(db, x)) == TableOf(row);
    }
    match row {
      case CategoryRow(a) =>
        if Taken(db.categories, CategoryKey, CategoryKey(a)) {
          var k :| k in db.categories.rows && CategoryKey(db.categories.rows[k]) == CategoryKey(a);
          assert Has(db, RowRef(CategoryTable, k)) && SameUniqueKey(row, Get(db, RowRef(CategoryTable, k)));
        }
      case ShippingMethodRow(a) =>
        if Taken(db.shippingMethods, ShippingMethodKey, ShippingMethodKey(a)) {
          var k :| k in db.shippingMethods.rows && ShippingMethodKey(db.shippingMethods.rows[k]) == ShippingMethodKey(a);
          assert Has(db, RowRef(ShippingMethodTable, k)) && SameUniqueKey(row, Get(db, RowRef(ShippingMethodTable, k)));
        }
      case PaymentMethodRow(a) =>
        if Taken(db.paymentMethods, PaymentMethodKey, PaymentMethodKey(a)) {
          var k :| k in db.paymentMethods.rows && PaymentMethodKey(db.paymentMethods.rows[k]) == PaymentMethodKey(a);
          assert Has(db, RowRef(PaymentMethodTable, k)) && SameUniqueKey(row, Get(db, RowRef(PaymentMethodTable, k)));
        }
      case CustomerRow(a) =>
        if Taken(db.customers, CustomerKey, CustomerKey(a)) {
          var k :| k in db.customers.rows && CustomerKey(db.customers.rows[k]) == CustomerKey(a);
          assert Has(db, RowRef(CustomerTable, k)) && SameUniqueKey(row, Get(db, RowRef(CustomerTable, k)));
        }
      case ProductRow(a) =>
        if Taken(db.products, ProductKey, ProductKey(a)) {
          var k :| k in db.products.rows && ProductKey(db.products.rows[k]) == ProductKey(a);
          assert Has(db, RowRef(ProductTable, k)) && SameUniqueKey(row, Get(db, RowRef(ProductTable, k)));
        }
      case ShoppingCartRow(a) =>
        if Taken(db.carts, CartKey, CartKey(a)) {
          var k :| k in db.carts.rows && CartKey(db.carts.rows[k]) == CartKey(a);
          assert Has(db, RowRef(ShoppingCartTable, k)) && SameUniqueKey(row, Get(db, RowRef(ShoppingCartTable, k)));
        }
      case CartItemRow(a) =>
        if Taken(db.cartItems, CartItemKey, CartItemKey(a)) {
          var k :| k in db.cartItems.rows && CartItemKey(db.cartItems.rows[k]) == CartItemKey(a);
          assert Has(db, RowRef(CartItemTable, k)) && SameUniqueKey(row, Get(db, RowRef(CartItemTable, k)));
        }
    }
  }

  /** Once row is stored, any later row with the same unique key is
      refused; when its fields and references are fine the refusal names
      the violated constraint. */
  lemma {:induction false} ReinsertRefused(db: Db, row: Row, row': Row)
    requires SameUniqueKey(row, row')
    ensures Check(AddRow(db, row), row').Some?
    ensures FieldError(row').None? && RefError(AddRow(db, row), row').None? ==>
              Check(AddRow(db, row), row') == Some(Duplicate(UniqueError(AddRow(db, row), row').value))
  {
    var db' := AddRow(db, row);
    var id := NextId(db, TableOf(row));
    match row {
      case CategoryRow(a) => assert db'.categories.rows[id] == a;
      case ShippingMethodRow(a) => assert db'.shippingMethods.rows[id] == a;
      case PaymentMethodRow(a) => assert db'.paymentMethods.rows[id] == a;
      case CustomerRow(a) => assert db'.customers.rows[id] == a;
      case ProductRow(a) => assert db'.products.rows[id] == a;
      case ShoppingCartRow(a) => assert db'.carts.rows[id] == a;
      case CartItemRow(a) => assert db'.cartItems.rows[id] == a;
    }
    assert UniqueError(db', row').Some?;
  }

  /** A stored customer blocks its own (username, email, disambiguator)
      triple and nothing else: another customer with the same username but
      a different email or disambiguator is not a duplicate. */
  lemma {:induction false} CustomerBlocksOnlyItsTriple(db: Db, c: Customer, c': Customer)
    requires KeysBelowNext(db.customers)
    ensures UniqueError(AddRow(db, CustomerRow(c)), CustomerRow(c')).Some? <==>
              UniqueError(db, CustomerRow(c')).Some? || CustomerKey(c') == CustomerKey(c)
  {
    var t := db.customers;
    var t' := AddRow(db, CustomerRow(c)).customers;
    assert t' == Append(t, c);
    if Taken(t', CustomerKey, CustomerKey(c')) {
      var a :| a in t'.rows && CustomerKey(t'.rows[a]) == CustomerKey(c');
      if a != t.next {
        assert a in t.rows && t.rows[a] == t'.rows[a];
      }
    }
    if Taken(t, CustomerKey, CustomerKey(c')) {
      var a :| a in t.rows && CustomerKey(t.rows[a]) == CustomerKey(c');
      assert a in t'.rows && t'.rows[a] == t.rows[a];
    }
    if CustomerKey(c') == CustomerKey(c) {
      assert t'.rows[t.next] == c;
    }
  }

  /** Two keys of a set whose rows agree on a unique key are one key. */
  lemma AtMostOne<T, K>(t: Table<T>, key: T -> K, k: K, s: set<nat>)
    requires UniqueBy(t, key)
    requires forall a :: a in s ==> a in t.rows && key(t.rows[a]) == k
    ensures |s| <= 1
  {
    if s != {} {
      var a :| a in s;
      assert s == {a};
    }
  }

  /** Each customer has at most one shopping cart. */
  lemma {:induction false} OneCartPerCustomer(db: Db, customer: nat)
    requires UniqueBy(db.carts, CartKey)
    ensures |CustomerCarts(db, customer)| <= 1
  {
    AtMostOne(db.carts, CartKey, customer, CustomerCarts(db, customer));
  }

  /** A product is on at most one cart item of each cart. */
  lemma {:induction false} OneItemPerProductAndCart(db: Db, cart: nat, product: nat)
    requires UniqueBy(db.cartItems, CartItemKey)
    ensures |CartCartItems(db, cart) * ProductCartItems(db, product)| <= 1
  {
    AtMostOne(db.cartItems, CartItemKey, (cart, product), CartCartItems(db, cart) * ProductCartItems(db, product));
  }

  /** unique_orderproduct includes the primary key, so every table
      satisfies it, and unique_order never rejects an insert into a table
      whose counter is past its keys. */
  lemma {:induction false} KeyConstraintsNeverReject(db: Db, o: Order, l: OrderProduct)
    requires AllKeysBelowNext(db)
    ensures OrderProductConstraint(db.orderProducts)
    ensures UniqueError(db, OrderRow(o)).None? && UniqueError(db, OrderProductRow(l)).None?
  {
    assert db.orders.next !in db.orders.rows;
    assert db.orderProducts.next !in db.orderProducts.rows;
  }

  /** Because of that, one order may list the same product on several
      lines: an order line accepted once is accepted again. */
  lemma {:induction false} SameProductOnTwoLines(db: Db, l: OrderProduct)
    requires AllKeysBelowNext(db) && Check(db, OrderProductRow(l)).None?
    ensures Check(AddRow(db, OrderProductRow(l)), OrderProductRow(l)).None?
  {
    var row := OrderProductRow(l);
    var db' := AddRow(db, row);
    AddRowContents(db, row);
    assert AllKeysBelowNext(db');
    RefErrorNoneMeansResolved(db, row);
    RefErrorNoneMeansResolved(db', row);
    KeyConstraintsNeverReject(db', Order(0, 0, "", "", 0, 0, 0), l);
  }

  /** The foreign keys of a stored cart item or order line resolve. */
  lemma {:induction false} CartItemResolves(db: Db, k: nat)
    requires RowsWellFormed(db) && k in db.cartItems.rows
    ensures db.cartItems.rows[k].cart in db.carts.rows && db.cartItems.rows[k].product in db.products.rows
  {
    var r := RowRef(CartItemTable, k);
    assert Has(db, r);
    assert RefError(db, Get(db, r)).None?;
    var fks := ForeignKeys(Get(db, r));
    assert Has(db, fks[0].1) && Has(db, fks[1].1);
  }

  lemma {:induction false} OrderProductResolves(db: Db, k: nat)
    requires RowsWellFormed(db) && k in db.orderProducts.rows
    ensures db.orderProducts.rows[k].order in db.orders.rows && db.orderProducts.rows[k].product in db.products.rows
  {
    var r := RowRef(OrderProductTable, k);
    assert Has(db, r);
    assert RefError(db, Get(db, r)).None?;
    var fks := ForeignKeys(Get(db, r));
    assert Has(db, fks[0].1) && Has(db, fks[1].1);
  }

  // ---------------------------------------------------------------------
  // Delete

  datatype DeleteError = NoSuchRow | Protected(blockers: set<RowRef>)

  function RemoveRow(db: Db, target: RowRef): Db {
    var id := target.id;
    match target.table
    case CategoryTable => db.(categories := Drop(db.categories, id))
    case ShippingMethodTable => db.(shippingMethods := Drop(db.shippingMethods, id))
    case PaymentMethodTable => db.(paymentMethods := Drop(db.paymentMethods, id))
    case CustomerTable => db.(customers := Drop(db.customers, id))
    case ProductTable => db.(products := Drop(db.products, id))
    case ShoppingCartTable => db.(carts := Drop(db.carts, id))
    case CartItemTable => db.(cartItems := Drop(db.cartItems, id))
    case OrderTable => db.(orders := Drop(db.orders, id))
    case OrderProductTable => db.(orderProducts := Drop(db.orderProducts, id))
  }

  /** Removing target keeps every other row as it was, and every counter. */
  lemma {:induction false} RemoveRowContents(db: Db, target: RowRef)
    ensures forall r :: Has(RemoveRow(db, target), r) <==> Has(db, r) && r != target
    ensures forall r :: Has(db, r) && r != target ==> Get(RemoveRow(db, target), r) == Get(db, r)
    ensures forall t :: NextId(RemoveRow(db, target), t) == NextId(db, t)
  {
  }

  /** Model.delete() under on_delete=PROTECT: refused, listing the rows that
      still point to target, while any exist. */
  function Delete(db: Db, target: RowRef): Result<Db, DeleteError> {
    if !Has(db, target) then Err(NoSuchRow)
    else if Dependents(db, target) != {} then Err(Protected(Dependents(db, target)))
    else Ok(RemoveRow(db, target))
  }

  /** What Delete promises: NoSuchRow exactly for a missing target; for a
      stored one, a refusal exactly when some stored row has a foreign key
      naming it, listing exactly those rows, and otherwise exactly target is
      removed. */
  lemma {:induction false} DeleteRefusedIffReferenced(db: Db, target: RowRef)
    ensures Delete(db, target) == Err(NoSuchRow) <==> !Has(db, target)
    ensures Has(db, target) ==> (Delete(db, target).Err? <==> exists r :: Has(db, r) && target in Targets(Get(db, r)))
    ensures Delete(db, target).Err? && Has(db, target) ==>
              && Delete(db, target).error.Protected?
              && forall r :: r in Delete(db, target).error.blockers <==> Has(db, r) && target in Targets(Get(db, r))
    ensures Delete(db, target).Ok? ==> Delete(db, target).value == RemoveRow(db, target)
  {
    forall r ensures r in Dependents(db, target) <==> Has(db, r) && target in Targets(Get(db, r)) {
      DependentsAreReferrers(db, target, r);
    }
    if Has(db, target) && Dependents(db, target) != {} {
      var r :| r in Dependents(db, target);
      assert Has(db, r) && target in Targets(Get(db, r));
    }
  }

  lemma DropKeepsKeys<T, K>(t: Table<T>, key: T -> K, id: nat)
    requires KeysBelowNext(t) && UniqueBy(t, key)
    ensures KeysBelowNext(Drop(t, id)) && UniqueBy(Drop(t, id), key)
  {
  }

  /** Removing a row keeps every key below its counter and every unique
      constraint. */
  lemma {:induction false} RemoveKeepsKeys(db: Db, target: RowRef)
    requires AllKeysBelowNext(db) && UniqueConstraints(db)
    ensures AllKeysBelowNext(RemoveRow(db, target)) && UniqueConstraints(RemoveRow(db, target))
  {
    var id := target.id;
    match target.table
    case CategoryTable => DropKeepsKeys(db.categories, CategoryKey, id);
    case ShippingMethodTable => DropKeepsKeys(db.shippingMethods, ShippingMethodKey, id);
    case PaymentMethodTable => DropKeepsKeys(db.paymentMethods, PaymentMethodKey, id);
    case CustomerTable => DropKeepsKeys(db.customers, CustomerKey, id);
    case ProductTable => DropKeepsKeys(db.products, ProductKey, id);
    case ShoppingCartTable => DropKeepsKeys(db.carts, CartKey, id);
    case CartItemTable => DropKeepsKeys(db.cartItems, CartItemKey, id);
    case OrderTable =>
    case OrderProductTable =>
  }

  lemma {:induction false} DeletePreservesValid(db: Db, target: RowRef)
    requires Valid(db) && Delete(db, target).Ok?
    ensures Valid(Delete(db, target).value)
  {
    var db' := RemoveRow(db, target);
    RemoveKeepsKeys(db, target);
    RemoveRowContents(db, target);
    forall r | Has(db', r)
      ensures FieldError(Get(db', r)).None? && RefError(db', Get(db', r)).None?
    {
      var row := Get(db, r);
      assert Get(db', r) == row;
      RefErrorNoneMeansResolved(db, row);
      RefErrorNoneMeansResolved(db', row);
      forall t | t in Targets(row) ensures Has(db', t) {
        if t == target {
          DependentsAreReferrers(db, target, r);
          assert false;
        }
      }
    }
  }
}
