/**
 * The order-placement sequence that the checkout route and the payment webhook both run once they have
 * accepted a user's cart: create the order, create its lines at the games' current prices, decrement each
 * game's stock by its line's quantity, then delete the user's cart rows.
 */
module Placement {
  import opened Wrappers
  import opened Types
  import opened Db
  import Seqs

  /** The `orderItem.createMany` data: id `<orderId>-<gameId>`, the cart quantity, the game's price now. */
  function OrderLines(orderId: string, lines: seq<CartItem>): seq<OrderItem>
  {
    seq(|lines|, i requires 0 <= i < |lines| =>
      OrderItem(orderId + "-" + lines[i].gameId, orderId, lines[i].gameId, lines[i].quantity, lines[i].game.price))
  }

  /** The snapshot lines are worth exactly what the cart was worth: the order total matches its lines. */
  lemma {:induction false} OrderLinesValue(orderId: string, lines: seq<CartItem>)
    ensures ItemsValue(OrderLines(orderId, lines)) == CartValue(lines)
    decreases |lines|
  {
    if |lines| > 0 {
      OrderLinesValue(orderId, lines[1..]);
      assert OrderLines(orderId, lines)[1..] == OrderLines(orderId, lines[1..]);
    }
  }

  /** Lines for different games get different ids under the same order. */
  lemma OrderLineIdsDistinct(orderId: string, lines: seq<CartItem>)
    requires forall i, j :: 0 <= i < j < |lines| ==> lines[i].gameId != lines[j].gameId
    ensures forall i, j :: 0 <= i < j < |lines| ==> OrderLines(orderId, lines)[i].id != OrderLines(orderId, lines)[j].id
  {
    var items := OrderLines(orderId, lines);
    forall i, j | 0 <= i < j < |lines| ensures items[i].id != items[j].id {
      var prefix := orderId + "-";
      assert items[i].id == prefix + lines[i].gameId && items[j].id == prefix + lines[j].gameId;
      assert items[i].id[|prefix|..] == lines[i].gameId;
      assert items[j].id[|prefix|..] == lines[j].gameId;
    }
  }

  /** `game.update({ where: { id }, data: { stock: { decrement: q } } })`. */
  function DecrementStock(games: seq<Game>, id: string, q: int): seq<Game>
  {
    seq(|games|, i requires 0 <= i < |games| =>
      if games[i].id == id then games[i].(stock := games[i].stock - q) else games[i])
  }

  /** The decrement loop run over `lines` in order. */
  function DecrementAll(games: seq<Game>, lines: seq<CartItem>): seq<Game>
    decreases |lines|
  {
    if |lines| == 0 then games
    else
      var last := lines[|lines| - 1];
      DecrementStock(DecrementAll(games, lines[..|lines| - 1]), last.gameId, last.quantity)
  }

  lemma {:induction false} DecrementAllLength(games: seq<Game>, lines: seq<CartItem>)
    ensures |DecrementAll(games, lines)| == |games|
    decreases |lines|
  {
    if |lines| > 0 {
      DecrementAllLength(games, lines[..|lines| - 1]);
    }
  }

  /** How many units of game `id` the lines ask for. */
  function QtyFor(lines: seq<CartItem>, id: string): int
    decreases |lines|
  {
    if |lines| == 0 then 0
    else
      var last := lines[|lines| - 1];
      QtyFor(lines[..|lines| - 1], id) + (if last.gameId == id then last.quantity else 0)
  }

  /** After the loop every game has lost exactly the units asked for it; nothing else about it changed. */
  lemma {:induction false} DecrementAllAt(games: seq<Game>, lines: seq<CartItem>, k: nat)
    requires k < |games|
    ensures |DecrementAll(games, lines)| == |games|
    ensures DecrementAll(games, lines)[k] == games[k].(stock := games[k].stock - QtyFor(lines, games[k].id))
    decreases |lines|
  {
    if |lines| > 0 {
      DecrementAllAt(games, lines[..|lines| - 1], k);
    }
  }

  /** With distinct games per line, the units asked for a game are its one line's quantity, or none. */
  lemma {:induction false} QtyForDistinct(lines: seq<CartItem>, id: string)
    requires forall i, j :: 0 <= i < j < |lines| ==> lines[i].gameId != lines[j].gameId
    ensures (forall i :: 0 <= i < |lines| ==> lines[i].gameId != id) ==> QtyFor(lines, id) == 0
    ensures forall i :: 0 <= i < |lines| && lines[i].gameId == id ==> QtyFor(lines, id) == lines[i].quantity
    decreases |lines|
  {
    if |lines| > 0 {
      var init := lines[..|lines| - 1];
      QtyForDistinct(init, id);
      assert forall i :: 0 <= i < |init| ==> init[i] == lines[i];
    }
  }

  /** The order the store creates at its current tick for these lines. */
  function NewOrder(t: Tables, u: string, lines: seq<CartItem>, status: string): Order
  {
    var id := FreshId(t.clock);
    Order(id, u, CartValue(lines), status, t.clock, OrderLines(id, lines))
  }

  /** The whole placement sequence for user `u`, as a function of the tables before it. */
  function Place(t: Tables, u: string, status: string): (Order, Tables)
    requires CartWellFormed(t.cart, t.games)
  {
    var lines := CartOf(t, u);
    var order := NewOrder(t, u, lines, status);
    (order, t.(orders := t.orders + [order], games := DecrementAll(t.games, lines),
               cart := WithoutUser(t.cart, u), clock := t.clock + 1))
  }

  /** Two catalogues that list the same ids in the same places answer every lookup alike. */
  lemma SameIdsSameLookups(games: seq<Game>, games': seq<Game>, id: string)
    requires |games| == |games'|
    requires forall k :: 0 <= k < |games| ==> games'[k].id == games[k].id
    ensures GameIndex(games', id) == GameIndex(games, id)
  {
  }

  /** The decrement loop changes stock only: ids and creation ticks stay, so the catalogue stays well formed. */
  lemma DecrementAllKeepsCatalogue(games: seq<Game>, clock: nat, lines: seq<CartItem>)
    requires GamesWellFormed(games, clock)
    ensures |DecrementAll(games, lines)| == |games|
    ensures forall k :: 0 <= k < |games| ==>
      DecrementAll(games, lines)[k].id == games[k].id && DecrementAll(games, lines)[k].createdAt == games[k].createdAt
    ensures GamesWellFormed(DecrementAll(games, lines), clock + 1)
  {
    var games' := DecrementAll(games, lines);
    DecrementAllLength(games, lines);
    forall k | 0 <= k < |games| ensures games'[k].id == games[k].id && games'[k].createdAt == games[k].createdAt {
      DecrementAllAt(games, lines, k);
    }
  }

  /** Deleting a user's rows keeps the cart well formed against any catalogue with the same ids in the same places. */
  lemma WithoutUserWellFormed(cart: seq<CartRow>, games: seq<Game>, games': seq<Game>, u: string)
    requires CartWellFormed(cart, games)
    requires |games'| == |games| && forall k :: 0 <= k < |games| ==> games'[k].id == games[k].id
    ensures CartWellFormed(WithoutUser(cart, u), games')
  {
    forall id: string ensures GameIndex(games', id) == GameIndex(games, id) {
      SameIdsSameLookups(games, games', id);
    }
    Seqs.FilterPairwise(cart, (r: CartRow) => r.userId != u, (a: CartRow, b: CartRow) => !SameKey(a, b));
  }

  /** Appending an order created at the current tick, whose total is the value of its lines, keeps the orders
      well formed once the tick advances. */
  lemma AppendOrderWellFormed(orders: seq<Order>, clock: nat, o: Order)
    requires OrdersWellFormed(orders, clock)
    requires o.createdAt == clock && o.total == ItemsValue(o.items)
    ensures OrdersWellFormed(orders + [o], clock + 1)
  {
  }

  /** Placement keeps the tables well formed (cart keys, catalogue ids, order totals). */
  lemma PlaceWellFormed(t: Tables, u: string, status: string)
    requires WellFormed(t)
    ensures WellFormed(Place(t, u, status).1)
  {
    var lines := CartOf(t, u);
    var order := NewOrder(t, u, lines, status);
    var games' := DecrementAll(t.games, lines);
    assert Place(t, u, status).1 == t.(orders := t.orders + [order], games := games',
                                       cart := WithoutUser(t.cart, u), clock := t.clock + 1);
    DecrementAllKeepsCatalogue(t.games, t.clock, lines);
    WithoutUserWellFormed(t.cart, t.games, games', u);
    OrderLinesValue(order.id, lines);
    AppendOrderWellFormed(t.orders, t.clock, order);
  }

  /** Placement records one new order: the user's, with the given status, total Σ game.price × quantity over
      the cart lines, and one line per cart line with id `<orderId>-<gameId>`, that quantity and the price the
      game had at placement. */
  lemma PlaceRecordsOrder(t: Tables, u: string, status: string)
    requires WellFormed(t)
    ensures var o := Place(t, u, status).0; var lines := CartOf(t, u);
      && Place(t, u, status).1.orders == t.orders + [o]
      && Place(t, u, status).1.users == t.users
      && o.id == FreshId(t.clock) && o.userId == u && o.status == status
      && o.total == CartValue(lines) && o.total == ItemsValue(o.items)
      && |o.items| == |lines|
      && (forall i :: 0 <= i < |lines| ==>
            o.items[i] == OrderItem(o.id + "-" + lines[i].gameId, o.id, lines[i].gameId, lines[i].quantity, lines[i].game.price))
  {
    OrderLinesValue(FreshId(t.clock), CartOf(t, u));
  }

  /** Every purchased game's stock drops by exactly its line's quantity; every other game is untouched. */
  lemma PlaceDecrementsStock(t: Tables, u: string, status: string)
    requires WellFormed(t)
    ensures var games' := Place(t, u, status).1.games; var lines := CartOf(t, u);
      && |games'| == |t.games|
      && (forall k, i :: 0 <= k < |t.games| && 0 <= i < |lines| && lines[i].gameId == t.games[k].id ==>
            games'[k] == t.games[k].(stock := t.games[k].stock - lines[i].quantity))
      && (forall k :: 0 <= k < |t.games| && (forall i :: 0 <= i < |lines| ==> lines[i].gameId != t.games[k].id) ==>
            games'[k] == t.games[k])
  {
    var lines := CartOf(t, u);
    var games' := DecrementAll(t.games, lines);
    assert Place(t, u, status).1.games == games';
    CartOfDistinctGames(t, u);
    DecrementAllLength(t.games, lines);
    forall k | 0 <= k < |t.games|
      ensures games'[k] == t.games[k].(stock := t.games[k].stock - QtyFor(lines, t.games[k].id))
    {
      DecrementAllAt(t.games, lines, k);
    }
    forall id: string
      ensures (forall i :: 0 <= i < |lines| ==> lines[i].gameId != id) ==> QtyFor(lines, id) == 0
      ensures forall i :: 0 <= i < |lines| && lines[i].gameId == id ==> QtyFor(lines, id) == lines[i].quantity
    {
      QtyForDistinct(lines, id);
    }
  }

  /** Placement empties the user's cart and leaves every other user's cart rows as they were. */
  lemma PlaceClearsCart(t: Tables, u: string, status: string)
    requires WellFormed(t)
    ensures var cart' := Place(t, u, status).1.cart;
      && UserRows(cart', u) == []
      && (forall v :: v != u ==> UserRows(cart', v) == UserRows(t.cart, v))
  {
    var cart' := WithoutUser(t.cart, u);
    assert Place(t, u, status).1.cart == cart';
    Seqs.FilterNone(cart', (r: CartRow) => r.userId == u);
    forall v | v != u ensures UserRows(cart', v) == UserRows(t.cart, v) {
      Seqs.FilterFilter(t.cart, (r: CartRow) => r.userId != u, (r: CartRow) => r.userId == v);
    }
  }

  /** The imperative sequence the routes run, statement by statement, against the store. */
  method PlaceOrder(db: Database, u: string, lines: seq<CartItem>, status: string) returns (order: Order)
    requires db.Valid()
    requires lines == CartOf(db.Snapshot(), u)
    modifies db
    ensures db.Valid()
    ensures (order, db.Snapshot()) == Place(old(db.Snapshot()), u, status)
  {
    ghost var t := db.Snapshot();
    var total := CartValue(lines);
    // order.create
    var id := FreshId(db.clock);
    order := Order(id, u, total, status, db.clock, []);
    db.orders := db.orders + [order];
    db.clock := db.clock + 1;
    // orderItem.createMany
    order := order.(items := OrderLines(id, lines));
    db.orders := db.orders[|db.orders| - 1 := order];
    assert db.orders == t.orders + [order];
    assert order == NewOrder(t, u, lines, status);
    // one stock decrement per cart line
    for i := 0 to |lines|
      invariant db.games == DecrementAll(t.games, lines[..i])
      invariant db.users == t.users && db.cartRows == t.cart && db.orders == t.orders + [order]
      invariant db.clock == t.clock + 1
    {
      assert lines[..i + 1][..i] == lines[..i];
      db.games := DecrementStock(db.games, lines[i].gameId, lines[i].quantity);
    }
    assert lines[..|lines|] == lines;
    // cartItem.deleteMany({ where: { userId } })
    db.cartRows := WithoutUser(db.cartRows, u);
    assert db.Snapshot() == Place(t, u, status).1;
    PlaceWellFormed(t, u, status);
  }
}
