/** The request logic of finalpro/productinfo/views.py: the GET step of the
    four guarded delete views and the two unguarded ones, the totals and
    subtotals of the detail pages, and the permission each view requires.
    The store is passed in as a value; none of these steps changes it. */
module Views {
  import opened Wrappers
  import opened Schema
  import opened Totals
  import opened Permissions
  import Store

  // ---------------------------------------------------------------------
  // Delete pages

  /** What the GET of a delete view renders: a 404, the refusal page
      listing the rows that still point to the target, or the confirmation
      page. */
  datatype DeleteOutcome = NotFound | Refused(blockers: set<RowRef>) | ConfirmPending

  /** CustomerDelete.get: refused while the customer has an order or a
      shopping cart. */
  function CustomerDeleteGet(db: Db, pk: nat): (r: DeleteOutcome)
    ensures r.NotFound? <==> pk !in db.customers.rows
    ensures r.Refused? <==>
              && pk in db.customers.rows
              && ((exists o :: o in db.orders.rows && db.orders.rows[o].customer == pk)
                  || (exists s :: s in db.carts.rows && db.carts.rows[s].customer == pk))
    ensures r.Refused? ==> r.blockers == Dependents(db, RowRef(CustomerTable, pk))
    ensures r.ConfirmPending? <==> Schema.Delete(db, RowRef(CustomerTable, pk)).Ok?
  {
    if pk !in db.customers.rows then NotFound
    else
      var orders := CustomerOrders(db, pk);
      var carts := CustomerCarts(db, pk);
      assert forall o :: o in db.orders.rows && db.orders.rows[o].customer == pk ==> o in orders;
      NonEmptyWitness(orders);
      assert forall s :: s in db.carts.rows && db.carts.rows[s].customer == pk ==> s in carts;
      NonEmptyWitness(carts);
      if |orders| > 0 || |carts| > 0 then Refused(Refs(OrderTable, orders) + Refs(ShoppingCartTable, carts))
      else ConfirmPending
  }

  /** ProductDelete.get: refused while the product is on an order line or
      in a cart. */
  function ProductDeleteGet(db: Db, pk: nat): (r: DeleteOutcome)
    ensures r.NotFound? <==> pk !in db.products.rows
    ensures r.Refused? <==>
              && pk in db.products.rows
              && ((exists l :: l in db.orderProducts.rows && db.orderProducts.rows[l].product == pk)
                  || (exists i :: i in db.cartItems.rows && db.cartItems.rows[i].product == pk))
    ensures r.Refused? ==> r.blockers == Dependents(db, RowRef(ProductTable, pk))
    ensures r.ConfirmPending? <==> Schema.Delete(db, RowRef(ProductTable, pk)).Ok?
  {
    if pk !in db.products.rows then NotFound
    else
      var cartItems := ProductCartItems(db, pk);
      var orderProducts := ProductOrderProducts(db, pk);
      assert forall i :: i in db.cartItems.rows && db.cartItems.rows[i].product == pk ==> i in cartItems;
      NonEmptyWitness(cartItems);
      assert forall l :: l in db.orderProducts.rows && db.orderProducts.rows[l].product == pk ==> l in orderProducts;
      NonEmptyWitness(orderProducts);
      if |orderProducts| > 0 || |cartItems| > 0 then
        Refused(Refs(CartItemTable, cartItems) + Refs(OrderProductTable, orderProducts))
      else ConfirmPending
  }

  /** ShoppingCartDelete.get: refused while the cart has an item. */
  function ShoppingCartDeleteGet(db: Db, pk: nat): (r: DeleteOutcome)
    ensures r.NotFound? <==> pk !in db.carts.rows
    ensures r.Refused? <==>
              pk in db.carts.rows && exists i :: i in db.cartItems.rows && db.cartItems.rows[i].cart == pk
    ensures r.Refused? ==> r.blockers == Dependents(db, RowRef(ShoppingCartTable, pk))
    ensures r.ConfirmPending? <==> Schema.Delete(db, RowRef(ShoppingCartTable, pk)).Ok?
  {
    if pk !in db.carts.rows then NotFound
    else
      var items := CartCartItems(db, pk);
      assert forall i :: i in db.cartItems.rows && db.cartItems.rows[i].cart == pk ==> i in items;
      NonEmptyWitness(items);
      if |items| > 0 then Refused(Refs(CartItemTable, items)) else ConfirmPending
  }

  /** OrderDelete.get: refused while the order has a line. */
  function OrderDeleteGet(db: Db, pk: nat): (r: DeleteOutcome)
    ensures r.NotFound? <==> pk !in db.orders.rows
    ensures r.Refused? <==>
              pk in db.orders.rows && exists l :: l in db.orderProducts.rows && db.orderProducts.rows[l].order == pk
    ensures r.Refused? ==> r.blockers == Dependents(db, RowRef(OrderTable, pk))
    ensures r.ConfirmPending? <==> Schema.Delete(db, RowRef(OrderTable, pk)).Ok?
  {
    if pk !in db.orders.rows then NotFound
    else
      var lines := OrderOrderProducts(db, pk);
      assert forall l :: l in db.orderProducts.rows && db.orderProducts.rows[l].order == pk ==> l in lines;
      NonEmptyWitness(lines);
      if |lines| > 0 then Refused(Refs(OrderProductTable, lines)) else ConfirmPending
  }

  /** CartItemDelete and OrderProductDelete keep DeleteView's own GET: the
      confirmation page for any stored row. */
  function UnguardedDeleteGet(db: Db, target: RowRef): (r: DeleteOutcome)
    requires target.table == CartItemTable || target.table == OrderProductTable
    ensures r.NotFound? <==> !Has(db, target)
    ensures !r.Refused?
    ensures r.ConfirmPending? <==> Schema.Delete(db, target).Ok?
  {
    if Has(db, target) then ConfirmPending else NotFound
  }

  /** The six models that have views. */
  predicate HasViews(t: TableName) {
    t == CustomerTable || t == ProductTable || t == ShoppingCartTable
    || t == CartItemTable || t == OrderTable || t == OrderProductTable
  }

  /** The GET of the delete view of target's model. */
  function DeleteGet(db: Db, target: RowRef): DeleteOutcome
    requires HasViews(target.table)
  {
    match target.table
    case CustomerTable => CustomerDeleteGet(db, target.id)
    case ProductTable => ProductDeleteGet(db, target.id)
    case ShoppingCartTable => ShoppingCartDeleteGet(db, target.id)
    case OrderTable => OrderDeleteGet(db, target.id)
    case CartItemTable => UnguardedDeleteGet(db, target)
    case OrderProductTable => UnguardedDeleteGet(db, target)
  }

  /** Every delete page agrees with on_delete=PROTECT: it confirms exactly
      the deletes the store would carry out, and refuses the others with
      exactly the rows the store would name. The two unguarded views are
      safe because nothing points to a cart item or an order line. */
  lemma {:induction false} DeleteGetAgreesWithProtect(db: Db, target: RowRef)
    requires HasViews(target.table)
    ensures DeleteGet(db, target).NotFound? <==> Schema.Delete(db, target) == Err(NoSuchRow)
    ensures DeleteGet(db, target).ConfirmPending? <==> Schema.Delete(db, target).Ok?
    ensures DeleteGet(db, target).Refused? ==> Schema.Delete(db, target) == Err(Protected(DeleteGet(db, target).blockers))
  {
  }

  /** The GET of a delete view against the live store. The method may not
      modify the store, so a page is only ever rendered, and what it shows
      agrees with what deleting would do. */
  method DeletePageGet(store: Store.Store, target: RowRef) returns (page: DeleteOutcome)
    requires HasViews(target.table)
    ensures page.NotFound? <==> Schema.Delete(store.Contents(), target) == Err(NoSuchRow)
    ensures page.ConfirmPending? <==> Schema.Delete(store.Contents(), target).Ok?
    ensures page.Refused? ==> Schema.Delete(store.Contents(), target) == Err(Protected(page.blockers))
  {
    var db := store.Contents();
    page := DeleteGet(db, target);
    DeleteGetAgreesWithProtect(db, target);
  }

  // ---------------------------------------------------------------------
  // Detail pages

  /** CartItemDetail's sub_total: the item's quantity times its product's
      current price, the same amount the cart's total counts for it. None
      stands for the 404 of a missing key. */
  function CartItemSubtotal(db: Db, pk: nat): (r: Option<int>)
    requires RowsWellFormed(db)
    ensures r.None? <==> pk !in db.cartItems.rows
    ensures r.Some? ==> r.value == CartLineAmount(db)(pk)
    ensures r.Some? ==> db.cartItems.rows[pk].product in db.products.rows
  {
    if pk !in db.cartItems.rows then None
    else
      var item := db.cartItems.rows[pk];
      CartItemResolves(db, pk);
      Some(item.quantity * db.products.rows[item.product].price)
  }

  /** OrderProductDetail's sub_total: the line's quantity times its
      product's current price (not the price stored on the line). */
  function OrderProductSubtotal(db: Db, pk: nat): (r: Option<int>)
    requires RowsWellFormed(db)
    ensures r.None? <==> pk !in db.orderProducts.rows
    ensures r.Some? ==> r.value == OrderLineAmount(db)(pk)
    ensures r.Some? ==> db.orderProducts.rows[pk].product in db.products.rows
  {
    if pk !in db.orderProducts.rows then None
    else
      var line := db.orderProducts.rows[pk];
      OrderProductResolves(db, pk);
      Some(line.quantity * db.products.rows[line.product].price)
  }

  /** ShoppingCartDetail's total: the loop over shopping_cart.cart_items,
      adding quantity times the product's current price for each. */
  method ShoppingCartDetailTotal(db: Db, pk: nat) returns (total: Option<int>)
    requires RowsWellFormed(db)
    ensures total.None? <==> pk !in db.carts.rows
    ensures total.Some? ==> total.value == CartTotal(db, pk)
    ensures total.Some? && CartCartItems(db, pk) == {} ==> total.value == 0
  {
    if pk !in db.carts.rows {
      return None;
    }
    var lines := CartCartItems(db, pk);
    var remaining := lines;
    var sum := 0;
    while remaining != {}
      invariant remaining <= lines
      invariant sum + SetSum(remaining, CartLineAmount(db)) == SetSum(lines, CartLineAmount(db))
      decreases |remaining|
    {
      var k :| k in remaining;
      var item := db.cartItems.rows[k];
      CartItemResolves(db, k);
      SetSumRemove(remaining, CartLineAmount(db), k);
      sum := item.quantity * db.products.rows[item.product].price + sum;
      remaining := remaining - {k};
    }
    return Some(sum);
  }

  /** OrderDetail's total: the loop over order.order_products, adding
      quantity times the product's current price for each line. */
  method OrderDetailTotal(db: Db, pk: nat) returns (total: Option<int>)
    requires RowsWellFormed(db)
    ensures total.None? <==> pk !in db.orders.rows
    ensures total.Some? ==> total.value == OrderTotal(db, pk)
    ensures total.Some? && OrderOrderProducts(db, pk) == {} ==> total.value == 0
  {
    if pk !in db.orders.rows {
      return None;
    }
    var lines := OrderOrderProducts(db, pk);
    var remaining := lines;
    var sum := 0;
    while remaining != {}
      invariant remaining <= lines
      invariant sum + SetSum(remaining, OrderLineAmount(db)) == SetSum(lines, OrderLineAmount(db))
      decreases |remaining|
    {
      var k :| k in remaining;
      var line := db.orderProducts.rows[k];
      OrderProductResolves(db, k);
      SetSumRemove(remaining, OrderLineAmount(db), k);
      sum := line.quantity * db.products.rows[line.product].price + sum;
      remaining := remaining - {k};
    }
    return Some(sum);
  }

  // ---------------------------------------------------------------------
  // Access control

  datatype ViewKind = ListView | DetailView | CreateView | UpdateView | DeleteView

  /** The permission action each kind of view requires. */
  function ActionOf(k: ViewKind): Action {
    match k
    case ListView => View
    case DetailView => View
    case CreateView => Add
    case UpdateView => Change
    case DeleteView => Delete
  }

  /** The permission_required string of each view: the app label, then the
      codename of the action the view's kind needs on its model. */
  function PermissionRequired(t: TableName, k: ViewKind): (s: string)
    requires HasViews(t)
    ensures s == "productinfo." + Codename(Perm(ActionOf(k), t))
  {
    match t
    case CustomerTable => CustomerPermissionRequired(k)
    case ProductTable => ProductPermissionRequired(k)
    case ShoppingCartTable => ShoppingCartPermissionRequired(k)
    case CartItemTable => CartItemPermissionRequired(k)
    case OrderTable => OrderPermissionRequired(k)
    case OrderProductTable => OrderProductPermissionRequired(k)
  }

  // The permission_required strings of the five views of each model, each
  // written as the app label, the action, "_" and the model name.

  function CustomerPermissionRequired(k: ViewKind): (s: string)
    ensures s == "productinfo." + Codename(Perm(ActionOf(k), CustomerTable))
  {
    match k
    case ListView => "productinfo." + "view" + "_" + "customer"
    case DetailView => "productinfo." + "view" + "_" + "customer"
    case CreateView => "productinfo." + "add" + "_" + "customer"
    case UpdateView => "productinfo." + "change" + "_" + "customer"
    case DeleteView => "productinfo." + "delete" + "_" + "customer"
  }

  function ProductPermissionRequired(k: ViewKind): (s: string)
    ensures s == "productinfo." + Codename(Perm(ActionOf(k), ProductTable))
  {
    match k
    case ListView => "productinfo." + "view" + "_" + "product"
    case DetailView => "productinfo." + "view" + "_" + "product"
    case CreateView => "productinfo." + "add" + "_" + "product"
    case UpdateView => "productinfo." + "change" + "_" + "product"
    case DeleteView => "productinfo." + "delete" + "_" + "product"
  }

  function ShoppingCartPermissionRequired(k: ViewKind): (s: string)
    ensures s == "productinfo." + Codename(Perm(ActionOf(k), ShoppingCartTable))
  {
    match k
    case ListView => "productinfo." + "view" + "_" + "shopping_cart"
    case DetailView => "productinfo." + "view" + "_" + "shopping_cart"
    case CreateView => "productinfo." + "add" + "_" + "shopping_cart"
    case UpdateView => "productinfo." + "change" + "_" + "shopping_cart"
    case DeleteView => "productinfo." + "delete" + "_" + "shopping_cart"
  }

  function CartItemPermissionRequired(k: ViewKind): (s: string)
    ensures s == "productinfo." + Codename(Perm(ActionOf(k), CartItemTable))
  {
    match k
    case ListView => "productinfo." + "view" + "_" + "cart_item"
    case DetailView => "productinfo." + "view" + "_" + "cart_item"
    case CreateView => "productinfo." + "add" + "_" + "cart_item"
    case UpdateView => "productinfo." + "change" + "_" + "cart_item"
    case DeleteView => "productinfo." + "delete" + "_" + "cart_item"
  }

  function OrderPermissionRequired(k: ViewKind): (s: string)
    ensures s == "productinfo." + Codename(Perm(ActionOf(k), OrderTable))
  {
    match k
    case ListView => "productinfo." + "view" + "_" + "order"
    case DetailView => "productinfo." + "view" + "_" + "order"
    case CreateView => "productinfo." + "add" + "_" + "order"
    case UpdateView => "productinfo." + "change" + "_" + "order"
    case DeleteView => "productinfo." + "delete" + "_" + "order"
  }

  function OrderProductPermissionRequired(k: ViewKind): (s: string)
    ensures s == "productinfo." + Codename(Perm(ActionOf(k), OrderProductTable))
  {
    match k
    case ListView => "productinfo." + "view" + "_" + "order_product"
    case DetailView => "productinfo." + "view" + "_" + "order_product"
    case CreateView => "productinfo." + "add" + "_" + "order_product"
    case UpdateView => "productinfo." + "change" + "_" + "order_product"
    case DeleteView => "productinfo." + "delete" + "_" + "order_product"
  }

  /** The outcome of LoginRequiredMixin followed by PermissionRequiredMixin. */
  datatype Access = RedirectToLogin | Forbidden | Granted

  /** An anonymous visitor (None) is sent to the login page; a logged-in
      user is let through exactly when their permissions include the one
      the view requires, and gets a 403 otherwise. */
  function Authorize(user: Option<set<Permission>>, t: TableName, k: ViewKind): (r: Access)
    ensures r == RedirectToLogin <==> user.None?
    ensures r == Granted <==> user.Some? && Perm(ActionOf(k), t) in user.value
  {
    if user.None? then RedirectToLogin
    else if Perm(ActionOf(k), t) in user.value then Granted
    else Forbidden
  }

  /** After the migration every group may open the list and detail pages
      of every model; pi_admin may also create, update and delete
      customers, products and shopping carts, and pi_customer cart items,
      orders and order lines; pi_user may do nothing else. */
  lemma {:induction false} GroupAccess(m: Groups, t: TableName, k: ViewKind)
    requires HasGroups(m) && HasViews(t)
    ensures Authorize(Some(Forwarded(m)[PiUser]), t, k) == Granted <==> ActionOf(k) == View
    ensures Authorize(Some(Forwarded(m)[PiAdmin]), t, k) == Granted <==>
              ActionOf(k) == View || t in {CustomerTable, ProductTable, ShoppingCartTable}
    ensures Authorize(Some(Forwarded(m)[PiCustomer]), t, k) == Granted <==>
              ActionOf(k) == View || t in {CartItemTable, OrderTable, OrderProductTable}
  {
    ForwardedGroups(m);
  }
}
