/**
 * `/api/orders`: list a user's orders newest first (GET) and record a pending order from a client-supplied
 * list of lines (POST), removing those games from the user's cart. This route neither checks nor
 * decrements stock, and it takes the prices the client sends.
 */
module OrdersRoute {
  import opened Wrappers
  import opened Types
  import opened Http
  import opened Db
  import Seqs
  import Strings

  /** One element of `items`, field by field; `None` is missing or of the wrong JSON type. `price` is in cents. */
  datatype OrderLineBody = OrderLineBody(gameId: Option<string>, quantity: Option<real>, price: Option<int>)

  datatype OrderBody = OrderBody(userId: Option<string>, items: Option<seq<OrderLineBody>>)

  /** A validated line. */
  datatype LineInput = LineInput(gameId: string, quantity: int, price: int)

  predicate IsInteger(x: real)
  {
    x.Floor as real == x
  }

  predicate LineValid(l: OrderLineBody)
  {
    l.gameId.Some? && l.quantity.Some? && IsInteger(l.quantity.value) && l.quantity.value >= 1.0
    && l.price.Some? && l.price.value > 0
  }

  function ParseLine(l: OrderLineBody): LineInput
    requires LineValid(l)
  {
    LineInput(l.gameId.value, l.quantity.value.Floor, l.price.value)
  }

  /** `orderSchema.parse`: a string user id and an array every element of which is a valid line. */
  function ParseOrder(b: OrderBody): (r: Option<(string, seq<LineInput>)>)
    ensures r.Some? <==> b.userId.Some? && b.items.Some? && forall i :: 0 <= i < |b.items.value| ==> LineValid(b.items.value[i])
    ensures r.Some? ==> (r.value.0 == b.userId.value && |r.value.1| == |b.items.value|
      && forall i :: 0 <= i < |r.value.1| ==>
           var l := r.value.1[i];
           l.gameId == b.items.value[i].gameId.value && l.quantity >= 1 && l.quantity as real == b.items.value[i].quantity.value
           && l.price > 0 && l.price == b.items.value[i].price.value)
  {
    if b.userId.Some? && b.items.Some? && forall i :: 0 <= i < |b.items.value| ==> LineValid(b.items.value[i]) then
      var items := b.items.value;
      Some((b.userId.value, seq(|items|, i requires 0 <= i < |items| => ParseLine(items[i]))))
    else None
  }

  /** `items.reduce((sum, item) => sum + item.price * item.quantity, 0)`. */
  function LinesTotal(lines: seq<LineInput>): int
  {
    if |lines| == 0 then 0 else lines[0].price * lines[0].quantity + LinesTotal(lines[1..])
  }

  /** The nested `items: { create: … }` rows under order `orderId`, in body order. */
  function OrderItems(orderId: string, lines: seq<LineInput>): (r: seq<OrderItem>)
    ensures |r| == |lines|
  {
    seq(|lines|, i requires 0 <= i < |lines| =>
      OrderItem(orderId + "-" + Strings.NatToString(i), orderId, lines[i].gameId, lines[i].quantity, lines[i].price))
  }

  /** The recorded total is the value of the recorded lines. */
  lemma {:induction false} OrderTotalMatchesItems(orderId: string, lines: seq<LineInput>)
    ensures ItemsValue(OrderItems(orderId, lines)) == LinesTotal(lines)
    decreases |lines|
  {
    if |lines| > 0 {
      var items := OrderItems(orderId, lines);
      var rest := OrderItems(orderId, lines[1..]);
      OrderTotalMatchesItems(orderId, lines[1..]);
      assert forall i :: 0 <= i < |rest| ==> items[1..][i].price == rest[i].price && items[1..][i].quantity == rest[i].quantity;
      ItemsValueByFields(items[1..], rest);
    }
  }

  /** `ItemsValue` depends only on the prices and quantities. */
  lemma {:induction false} ItemsValueByFields(a: seq<OrderItem>, b: seq<OrderItem>)
    requires |a| == |b|
    requires forall i :: 0 <= i < |a| ==> a[i].price == b[i].price && a[i].quantity == b[i].quantity
    ensures ItemsValue(a) == ItemsValue(b)
    decreases |a|
  {
    if |a| > 0 {
      ItemsValueByFields(a[1..], b[1..]);
    }
  }

  /** Every line names a catalogue game: otherwise the nested create fails its foreign key. */
  predicate GamesKnown(games: seq<Game>, lines: seq<LineInput>)
  {
    forall i :: 0 <= i < |lines| ==> HasGame(games, lines[i].gameId)
  }

  /** The gameIds of the order's lines. */
  function GameIds(lines: seq<LineInput>): (r: seq<string>)
    ensures |r| == |lines| && forall i :: 0 <= i < |lines| ==> r[i] == lines[i].gameId
  {
    seq(|lines|, i requires 0 <= i < |lines| => lines[i].gameId)
  }

  /** `cartItem.deleteMany({ where: { userId, gameId: { in: ids } } })`: the rows that remain. */
  function WithoutOrdered(cart: seq<CartRow>, u: string, ids: seq<string>): seq<CartRow>
  {
    Seqs.Filter(cart, (r: CartRow) => !(r.userId == u && r.gameId in ids))
  }

  lemma WithoutOrderedWellFormed(cart: seq<CartRow>, games: seq<Game>, u: string, ids: seq<string>)
    requires CartWellFormed(cart, games)
    ensures CartWellFormed(WithoutOrdered(cart, u, ids), games)
  {
    var rel := (a: CartRow, b: CartRow) => !SameKey(a, b);
    var rest := WithoutOrdered(cart, u, ids);
    Seqs.FilterPairwise(cart, (r: CartRow) => !(r.userId == u && r.gameId in ids), rel);
    assert forall i, j :: 0 <= i < j < |rest| ==> rel(rest[i], rest[j]);
    forall i | 0 <= i < |rest| ensures rest[i].quantity >= 1 && HasGame(games, rest[i].gameId) {
      assert rest[i] in cart;
    }
  }

  /** POST as a function of the tables before it. */
  function CreateOrder(t: Tables, b: OrderBody): (o: Outcome)
    requires WellFormed(t)
    ensures WellFormed(o.tables)
    ensures o.response.status == 400 <==> ParseOrder(b).None?
    ensures o.response.status != 201 ==> o.tables == t
    ensures o.tables.games == t.games && o.tables.users == t.users
  {
    match ParseOrder(b)
    case None => Outcome(Response(400, Error("Invalid data")), t)
    case Some((u, lines)) =>
      if !GamesKnown(t.games, lines) then Outcome(Response(500, Error("Failed to create order")), t)
      else
        var id := FreshId(t.clock);
        var order := Order(id, u, LinesTotal(lines), StatusPending, t.clock, OrderItems(id, lines));
        OrderTotalMatchesItems(id, lines);
        WithoutOrderedWellFormed(t.cart, t.games, u, GameIds(lines));
        Outcome(Response(201, OrderCreated(order)),
                t.(orders := t.orders + [order], cart := WithoutOrdered(t.cart, u, GameIds(lines)), clock := t.clock + 1))
  }

  /** A valid body naming only catalogue games is recorded as one pending order of the posted lines, at the
      posted prices, with total Σ price × quantity; stock is left as it was. */
  lemma CreateOrderRecordsPending(t: Tables, b: OrderBody)
    requires WellFormed(t) && ParseOrder(b).Some?
    ensures var (u, lines) := ParseOrder(b).value; var o := CreateOrder(t, b);
      && (o.response.status == 201 <==> GamesKnown(t.games, lines))
      && (o.response.status == 201 ==>
            var order := o.response.body.order;
            && o.tables.orders == t.orders + [order]
            && order.userId == u && order.status == StatusPending && order.createdAt == t.clock
            && order.total == LinesTotal(lines) && order.total == ItemsValue(order.items)
            && |order.items| == |lines|
            && (forall i :: 0 <= i < |lines| ==>
                  order.items[i].orderId == order.id && order.items[i].gameId == lines[i].gameId
                  && order.items[i].quantity == lines[i].quantity && order.items[i].price == lines[i].price)
            && o.tables.games == t.games)
  {
    var (u, lines) := ParseOrder(b).value;
    if GamesKnown(t.games, lines) {
      OrderTotalMatchesItems(FreshId(t.clock), lines);
    }
  }

  /** After a successful POST a cart row survives exactly when it is not the user's row for an ordered game. */
  lemma CreateOrderClearsOrderedLines(t: Tables, b: OrderBody, r: CartRow)
    requires WellFormed(t) && CreateOrder(t, b).response.status == 201
    ensures var (u, lines) := ParseOrder(b).value;
      r in CreateOrder(t, b).tables.cart <==>
        r in t.cart && !(r.userId == u && exists i :: 0 <= i < |lines| && lines[i].gameId == r.gameId)
  {
    var (u, lines) := ParseOrder(b).value;
    var ids := GameIds(lines);
    var cart := CreateOrder(t, b).tables.cart;
    assert cart == WithoutOrdered(t.cart, u, ids);
    assert (r.gameId in ids) <==> exists i :: 0 <= i < |lines| && lines[i].gameId == r.gameId by {
      if r.gameId in ids {
        var i :| 0 <= i < |ids| && ids[i] == r.gameId;
        assert lines[i].gameId == r.gameId;
      }
    }
    if r in t.cart && !(r.userId == u && r.gameId in ids) {
      var j :| 0 <= j < |t.cart| && t.cart[j] == r;
    }
    if r in cart {
      var j :| 0 <= j < |cart| && cart[j] == r;
    }
  }

  /** The handler: validate, create the order with its lines, then delete the ordered games from the cart. */
  method Post(db: Database, b: OrderBody) returns (resp: Response)
    requires db.Valid()
    modifies db
    ensures db.Valid()
    ensures Outcome(resp, db.Snapshot()) == CreateOrder(old(db.Snapshot()), b)
  {
    ghost var o := CreateOrder(db.Snapshot(), b);
    var parsed := ParseOrder(b);
    if parsed.None? {
      return Response(400, Error("Invalid data"));
    }
    var (u, lines) := parsed.value;
    var total := LinesTotal(lines);
    if !GamesKnown(db.games, lines) {
      return Response(500, Error("Failed to create order"));
    }
    var id := FreshId(db.clock);
    var order := Order(id, u, total, StatusPending, db.clock, OrderItems(id, lines));
    db.orders := db.orders + [order];
    db.clock := db.clock + 1;
    db.cartRows := WithoutOrdered(db.cartRows, u, GameIds(lines));
    resp := Response(201, OrderCreated(order));
    assert db.Snapshot() == o.tables;
  }

  // ---------------------------------------------------------------- GET

  /** `order.findMany({ where: { userId } })` in table (creation) order. */
  function UserOrders(orders: seq<Order>, u: string): seq<Order>
  {
    Seqs.Filter(orders, (o: Order) => o.userId == u)
  }

  function Get(t: Tables, userId: Option<string>): (r: Response)
    ensures r.status == 400 <==> !Present(userId)
    ensures r.status == 200 ==> r.body == OrderList(Seqs.Reverse(UserOrders(t.orders, userId.value)))
  {
    if !Present(userId) then Response(400, Error("User ID is required"))
    else Response(200, OrderList(Seqs.Reverse(UserOrders(t.orders, userId.value))))
  }

  /** GET lists exactly that user's orders, each once, strictly newest first (`orderBy: { createdAt: 'desc' }`). */
  lemma GetListsUserOrdersNewestFirst(t: Tables, u: string)
    requires WellFormed(t) && u != ""
    ensures Get(t, Some(u)).status == 200
    ensures var list := Get(t, Some(u)).body.orders;
      && (forall o :: o in list <==> o in t.orders && o.userId == u)
      && (forall i, j :: 0 <= i < j < |list| ==> list[i].createdAt > list[j].createdAt)
  {
    var mine := UserOrders(t.orders, u);
    var rel := (a: Order, b: Order) => a.createdAt < b.createdAt;
    Seqs.FilterPairwise(t.orders, (o: Order) => o.userId == u, rel);
    assert forall i, j :: 0 <= i < j < |mine| ==> rel(mine[i], mine[j]);
    Seqs.ReverseDecreasing(mine, (o: Order) => o.createdAt as int);
    forall o ensures o in Seqs.Reverse(mine) <==> o in t.orders && o.userId == u {
      Seqs.ReverseSameElements(mine, o);
      if o in t.orders && o.userId == u {
        var j :| 0 <= j < |t.orders| && t.orders[j] == o;
      }
    }
  }
}
