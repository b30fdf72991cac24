/** The totals the cart and order detail pages show: quantity times the
    product's current price, summed over the lines of one cart or one
    order. Lines are a set of keys, so the sum is stated independently of
    the order in which the page visits them. */
module Totals {
  import opened Schema

  ghost function Pick(s: set<nat>): nat
    requires s != {}
  {
    var x :| x in s; x
  }

  /** The sum of f over the keys in s. */
  ghost function SetSum(s: set<nat>, f: nat -> int): int
    decreases |s|
  {
    if s == {} then 0 else var x := Pick(s); f(x) + SetSum(s - {x}, f)
  }

  /** Any element can be taken out of the sum first, so the sum does not
      depend on the order of the keys. */
  lemma {:induction false} SetSumRemove(s: set<nat>, f: nat -> int, y: nat)
    requires y in s
    ensures SetSum(s, f) == f(y) + SetSum(s - {y}, f)
    decreases |s|
  {
    var x := Pick(s);
    if x != y {
      SetSumRemove(s - {x}, f, y);
      assert s - {x} - {y} == s - {y} - {x};
      SetSumRemove(s - {y}, f, x);
    }
  }

  /** The sum only looks at f on s. */
  lemma {:induction false} SetSumCongruent(s: set<nat>, f: nat -> int, g: nat -> int)
    requires forall x :: x in s ==> f(x) == g(x)
    ensures SetSum(s, f) == SetSum(s, g)
    decreases |s|
  {
    if s != {} {
      var x := Pick(s);
      SetSumCongruent(s - {x}, f, g);
    }
  }

  /** quantity * product_id.product_price of order line or cart item k: the
      price is the product's current price, never a copy kept on the line.
      A key outside the table, or a dangling product, counts 0; neither
      occurs in a valid store. */
  function CartLineAmount(db: Db): nat -> int {
    k => if k in db.cartItems.rows && db.cartItems.rows[k].product in db.products.rows
         then db.cartItems.rows[k].quantity * db.products.rows[db.cartItems.rows[k].product].price
         else 0
  }

  function OrderLineAmount(db: Db): nat -> int {
    k => if k in db.orderProducts.rows && db.orderProducts.rows[k].product in db.products.rows
         then db.orderProducts.rows[k].quantity * db.products.rows[db.orderProducts.rows[k].product].price
         else 0
  }

  /** The total of a cart: the sum over shopping_cart.cart_items. */
  ghost function CartTotal(db: Db, cart: nat): int {
    SetSum(CartCartItems(db, cart), CartLineAmount(db))
  }

  /** The total of an order: the sum over order.order_products. */
  ghost function OrderTotal(db: Db, order: nat): int {
    SetSum(OrderOrderProducts(db, order), OrderLineAmount(db))
  }

  /** Adding a cart item raises its cart's total by quantity times the
      product's price and leaves every other cart's total as it was. */
  lemma {:induction false} CartTotalAfterAddingItem(db: Db, ci: CartItem, cart: nat)
    requires AllKeysBelowNext(db) && Check(db, CartItemRow(ci)).None?
    ensures ci.product in db.products.rows
    ensures var db' := AddRow(db, CartItemRow(ci));
            CartTotal(db', cart) ==
              CartTotal(db, cart) + (if cart == ci.cart then ci.quantity * db.products.rows[ci.product].price else 0)
  {
    var row := CartItemRow(ci);
    var db' := AddRow(db, row);
    RefErrorNoneMeansResolved(db, row);
    assert RowRef(ProductTable, ci.product) in Targets(row) by {
      assert ForeignKeys(row)[1] in ForeignKeys(row);
    }
    var k := db.cartItems.next;
    assert k !in db.cartItems.rows;
    var before := CartCartItems(db, cart);
    var after := CartCartItems(db', cart);
    SetSumCongruent(before, CartLineAmount(db), CartLineAmount(db'));
    if cart == ci.cart {
      assert after == before + {k};
      assert after - {k} == before;
      SetSumRemove(after, CartLineAmount(db'), k);
    } else {
      assert after == before;
    }
  }

  /** Deleting a cart item lowers its cart's total by that line's amount. */
  lemma {:induction false} CartTotalAfterRemovingItem(db: Db, k: nat)
    requires k in db.cartItems.rows
    ensures var cart := db.cartItems.rows[k].cart;
            var db' := RemoveRow(db, RowRef(CartItemTable, k));
            CartTotal(db', cart) == CartTotal(db, cart) - CartLineAmount(db)(k)
  {
    var cart := db.cartItems.rows[k].cart;
    var db' := RemoveRow(db, RowRef(CartItemTable, k));
    var before := CartCartItems(db, cart);
    var after := CartCartItems(db', cart);
    assert after == before - {k};
    SetSumRemove(before, CartLineAmount(db), k);
    SetSumCongruent(after, CartLineAmount(db), CartLineAmount(db'));
  }

  /** The order total ignores the price stored on each order line:
      rewriting one line's price leaves every order's total unchanged. */
  lemma {:induction false} OrderTotalIgnoresLinePrice(db: Db, k: nat, price: int, order: nat)
    requires k in db.orderProducts.rows
    ensures var line := db.orderProducts.rows[k];
            var db' := db.(orderProducts := db.orderProducts.(rows := db.orderProducts.rows[k := line.(price := price)]));
            OrderTotal(db', order) == OrderTotal(db, order)
  {
    var line := db.orderProducts.rows[k];
    var db' := db.(orderProducts := db.orderProducts.(rows := db.orderProducts.rows[k := line.(price := price)]));
    assert OrderOrderProducts(db', order) == OrderOrderProducts(db, order);
    SetSumCongruent(OrderOrderProducts(db, order), OrderLineAmount(db), OrderLineAmount(db'));
  }

  /** An order of one line totals that line's quantity times its product's
      current price. */
  lemma {:induction false} SingleLineOrderTotal(db: Db, order: nat, k: nat)
    requires OrderOrderProducts(db, order) == {k}
    requires db.orderProducts.rows[k].product in db.products.rows
    ensures OrderTotal(db, order) ==
              db.orderProducts.rows[k].quantity * db.products.rows[db.orderProducts.rows[k].product].price
  {
    SetSumRemove({k}, OrderLineAmount(db), k);
    assert {k} - {k} == {};
  }
}
