/** The cart drawer: the item-count badge, the empty/footer switch, the +/- buttons and `handleCheckout`,
    which posts the shown items to the orders route. */
module CartSidebar {
  import opened Wrappers
  import opened Types
  import opened Http
  import opened Db
  import UseCart
  import CartRoute
  import OrdersRoute

  predicate ShowsEmptyMessage(items: seq<CartItem>) { |items| == 0 }

  predicate ShowsFooter(items: seq<CartItem>) { |items| > 0 }

  /** Exactly one of "Your cart is empty" and the total/footer shows, and the badge count is 0 exactly on the
      empty cart. */
  lemma EmptyOrFooter(items: seq<CartItem>)
    requires QuantitiesPositive(items)
    ensures ShowsEmptyMessage(items) != ShowsFooter(items)
    ensures TotalQuantity(items) == 0 <==> ShowsEmptyMessage(items)
  {
    TotalQuantityAtLeastLines(items);
  }

  /** The body of `POST /api/orders`: `{ userId: 'demo-user', items: items.map(...) }`. */
  function CheckoutPayload(items: seq<CartItem>): (b: OrdersRoute.OrderBody)
    ensures b.userId == Some(UseCart.DemoUser) && b.items.Some? && |b.items.value| == |items|
  {
    OrdersRoute.OrderBody(Some(UseCart.DemoUser), Some(seq(|items|, i requires 0 <= i < |items| =>
      OrdersRoute.OrderLineBody(Some(items[i].gameId), Some(items[i].quantity as real), Some(items[i].game.price)))))
  }

  /** The payload of a cart with positive quantities and prices passes the orders schema as one line per item
      in order, carrying its game, quantity and current price, so the order total is the cart's value. */
  lemma PayloadMatchesCart(items: seq<CartItem>)
    requires QuantitiesPositive(items) && forall i :: 0 <= i < |items| ==> items[i].game.price > 0
    ensures OrdersRoute.ParseOrder(CheckoutPayload(items)).Some?
    ensures var (u, lines) := OrdersRoute.ParseOrder(CheckoutPayload(items)).value;
      && u == UseCart.DemoUser && |lines| == |items|
      && (forall i :: 0 <= i < |items| ==>
            lines[i] == OrdersRoute.LineInput(items[i].gameId, items[i].quantity, items[i].game.price))
      && OrdersRoute.LinesTotal(lines) == CartValue(items)
  {
    var b := CheckoutPayload(items);
    assert forall i :: 0 <= i < |items| ==> (items[i].quantity as real).Floor == items[i].quantity;
    var lines := OrdersRoute.ParseOrder(b).value.1;
    LinesTotalIsCartValue(items, lines);
  }

  lemma {:induction false} LinesTotalIsCartValue(items: seq<CartItem>, lines: seq<OrdersRoute.LineInput>)
    requires |lines| == |items|
    requires forall i :: 0 <= i < |items| ==>
      lines[i] == OrdersRoute.LineInput(items[i].gameId, items[i].quantity, items[i].game.price)
    ensures OrdersRoute.LinesTotal(lines) == CartValue(items)
    decreases |items|
  {
    if |items| > 0 {
      LinesTotalIsCartValue(items[1..], lines[1..]);
    }
  }

  /** `handleCheckout`: post the order; on an OK answer clear the local cart and close the drawer, otherwise
      leave both as they were. */
  method HandleCheckout(cart: UseCart.CartContext, db: Database)
    requires cart.Valid() && db.Valid()
    modifies cart, db
    ensures cart.Valid() && db.Valid()
    ensures db.Snapshot() == OrdersRoute.CreateOrder(old(db.Snapshot()), CheckoutPayload(old(cart.items))).tables
    ensures OrdersRoute.CreateOrder(old(db.Snapshot()), CheckoutPayload(old(cart.items))).response.Ok() ==>
              cart.items == [] && !cart.isCartOpen
    ensures !OrdersRoute.CreateOrder(old(db.Snapshot()), CheckoutPayload(old(cart.items))).response.Ok() ==>
              cart.items == old(cart.items) && cart.isCartOpen == old(cart.isCartOpen)
  {
    var response := OrdersRoute.Post(db, CheckoutPayload(cart.items));
    if response.Ok() {
      cart.ClearCart();
      cart.CloseCart();
    }
  }

  /** The minus button: `updateQuantity(gameId, quantity - 1)`; at quantity 1 this removes the line. */
  method ClickMinus(cart: UseCart.CartContext, db: Database, item: CartItem)
    requires cart.Valid() && db.Valid()
    modifies cart, db
    ensures cart.Valid() && db.Valid()
    ensures item.quantity <= 1 ==>
              && db.Snapshot() == CartRoute.Remove(old(db.Snapshot()), Some(cart.userId), Some(item.gameId)).tables
              && cart.items == if CartRoute.Remove(old(db.Snapshot()), Some(cart.userId), Some(item.gameId)).response.Ok()
                               then UseCart.WithoutGame(old(cart.items), item.gameId) else old(cart.items)
    ensures item.quantity > 1 ==>
              && db.Snapshot() == CartRoute.Add(old(db.Snapshot()), UseCart.AddBody(cart.userId, item.gameId, item.quantity - 1)).tables
              && cart.items == if CartRoute.Add(old(db.Snapshot()), UseCart.AddBody(cart.userId, item.gameId, item.quantity - 1)).response.Ok()
                               then CartOf(db.Snapshot(), cart.userId) else old(cart.items)
    ensures cart.isCartOpen == old(cart.isCartOpen)
  {
    ghost var removed := CartRoute.Remove(db.Snapshot(), Some(cart.userId), Some(item.gameId));
    ghost var added := CartRoute.Add(db.Snapshot(), UseCart.AddBody(cart.userId, item.gameId, item.quantity - 1));
    cart.UpdateQuantity(db, item.gameId, item.quantity - 1);
    assert item.quantity <= 1 ==> db.Snapshot() == removed.tables;
    assert item.quantity > 1 ==> db.Snapshot() == added.tables;
  }

  /** The plus button: `updateQuantity(gameId, quantity + 1)`. */
  method ClickPlus(cart: UseCart.CartContext, db: Database, item: CartItem)
    requires cart.Valid() && db.Valid() && item.quantity >= 1
    modifies cart, db
    ensures cart.Valid() && db.Valid()
    ensures db.Snapshot() ==
              CartRoute.Add(old(db.Snapshot()), UseCart.AddBody(cart.userId, item.gameId, item.quantity + 1)).tables
    ensures cart.items == if CartRoute.Add(old(db.Snapshot()), UseCart.AddBody(cart.userId, item.gameId, item.quantity + 1)).response.Ok()
                          then CartOf(db.Snapshot(), cart.userId) else old(cart.items)
    ensures cart.isCartOpen == old(cart.isCartOpen)
  {
    var q := item.quantity + 1;
    assert q > 0;
    cart.UpdateQuantity(db, item.gameId, q);
  }
}
