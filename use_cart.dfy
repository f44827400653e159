/**
 * The client cart context (`CartProvider`): the items it shows, whether the cart drawer is open, and the
 * operations that call the cart route and then refresh or patch the local list. `fetch` is modelled as a
 * direct call of the route handler on the shared store.
 */
module UseCart {
  import opened Wrappers
  import opened Types
  import opened Http
  import opened Db
  import Seqs
  import CartRoute

  /** The one user id the provider uses. */
  const DemoUser: string := "demo-user"

  /** `items.filter(item => item.gameId !== gameId)`. */
  function WithoutGame(items: seq<CartItem>, g: string): seq<CartItem>
  {
    Seqs.Filter(items, (it: CartItem) => it.gameId != g)
  }

  predicate DistinctGames(items: seq<CartItem>)
  {
    forall i, j :: 0 <= i < j < |items| ==> items[i].gameId != items[j].gameId
  }

  /** The POST body `{ userId, gameId, quantity }`. */
  function AddBody(u: string, g: string, quantity: int): CartRoute.CartItemBody
  {
    CartRoute.CartItemBody(Some(u), Some(g), Some(quantity as real))
  }

  class CartContext {
    var items: seq<CartItem>
    var isCartOpen: bool
    const userId: string

    /** The local list is a cart as the server returns it: one line per game, each quantity at least 1. */
    ghost predicate Valid()
      reads this
    {
      userId == DemoUser && QuantitiesPositive(items) && DistinctGames(items)
    }

    /** `useState([])`, `useState(false)`, `useState('demo-user')`. */
    constructor ()
      ensures Valid()
      ensures items == [] && !isCartOpen && userId == DemoUser
    {
      items := [];
      isCartOpen := false;
      userId := DemoUser;
    }

    /** `totalItems`: Σ quantity. On a valid list it counts every line at least once and is zero
        exactly for an empty cart, which is what hides the header badge. */
    function TotalItems(): (n: int)
      reads this
      requires Valid()
      ensures n >= |items|
      ensures n == 0 <==> items == []
    {
      TotalQuantityAtLeastLines(items);
      TotalQuantity(items)
    }

    /** `totalPrice`: Σ game.price × quantity. */
    function TotalPrice(): int
      reads this
    {
      CartValue(items)
    }

    /** GET the user's cart and, on an OK answer, replace the list with it. */
    method FetchCart(db: Database)
      requires Valid() && db.Valid()
      modifies this
      ensures Valid()
      ensures items == CartOf(db.Snapshot(), userId) && isCartOpen == old(isCartOpen)
    {
      var response := CartRoute.Get(db.Snapshot(), Some(userId));
      if response.Ok() {
        CartOfDistinctGames(db.Snapshot(), userId);
        items := response.body.items;
      }
    }

    /** POST `{ userId, gameId, quantity }`; on an OK answer, reload the cart. */
    method AddToCart(db: Database, game: Game, quantity: int)
      requires Valid() && db.Valid()
      modifies this, db
      ensures Valid() && db.Valid()
      ensures db.Snapshot() == CartRoute.Add(old(db.Snapshot()), AddBody(userId, game.id, quantity)).tables
      ensures items == if CartRoute.Add(old(db.Snapshot()), AddBody(userId, game.id, quantity)).response.Ok()
                       then CartOf(db.Snapshot(), userId) else old(items)
      ensures isCartOpen == old(isCartOpen)
    {
      var response := CartRoute.Post(db, AddBody(userId, game.id, quantity));
      if response.Ok() {
        FetchCart(db);
      }
    }

    /** DELETE the line; on an OK answer drop it from the local list without reloading. */
    method RemoveFromCart(db: Database, gameId: string)
      requires Valid() && db.Valid()
      modifies this, db
      ensures Valid() && db.Valid()
      ensures db.Snapshot() == CartRoute.Remove(old(db.Snapshot()), Some(userId), Some(gameId)).tables
      ensures items == if CartRoute.Remove(old(db.Snapshot()), Some(userId), Some(gameId)).response.Ok()
                       then WithoutGame(old(items), gameId) else old(items)
      ensures isCartOpen == old(isCartOpen)
    {
      var response := CartRoute.Delete(db, Some(userId), Some(gameId));
      if response.Ok() {
        WithoutGameValid(items, gameId);
        items := WithoutGame(items, gameId);
      }
    }

    /** As written: a quantity of at most 0 removes the line; any other quantity is POSTed to the add
        endpoint, which adds it to the line's quantity instead of setting it. */
    method UpdateQuantity(db: Database, gameId: string, quantity: int)
      requires Valid() && db.Valid()
      modifies this, db
      ensures Valid() && db.Valid()
      ensures quantity <= 0 ==>
        && db.Snapshot() == CartRoute.Remove(old(db.Snapshot()), Some(userId), Some(gameId)).tables
        && items == if CartRoute.Remove(old(db.Snapshot()), Some(userId), Some(gameId)).response.Ok()
                    then WithoutGame(old(items), gameId) else old(items)
      ensures quantity > 0 ==>
        && db.Snapshot() == CartRoute.Add(old(db.Snapshot()), AddBody(userId, gameId, quantity)).tables
        && items == if CartRoute.Add(old(db.Snapshot()), AddBody(userId, gameId, quantity)).response.Ok()
                    then CartOf(db.Snapshot(), userId) else old(items)
      ensures isCartOpen == old(isCartOpen)
    {
      if quantity <= 0 {
        RemoveFromCart(db, gameId);
        return;
      }
      var response := CartRoute.Post(db, AddBody(userId, gameId, quantity));
      if response.Ok() {
        FetchCart(db);
      }
    }

    /** Corrected: a positive quantity replaces the line's quantity (delete the line, then add that many);
        at most 0 removes the line as before. */
    method SetQuantity(db: Database, gameId: string, quantity: int)
      requires Valid() && db.Valid()
      modifies this, db
      ensures Valid() && db.Valid()
      ensures quantity <= 0 ==>
        && db.Snapshot() == CartRoute.Remove(old(db.Snapshot()), Some(userId), Some(gameId)).tables
        && items == if CartRoute.Remove(old(db.Snapshot()), Some(userId), Some(gameId)).response.Ok()
                    then WithoutGame(old(items), gameId) else old(items)
      ensures quantity > 0 ==> db.Snapshot() == SetTables(old(db.Snapshot()), userId, gameId, quantity)
      ensures quantity > 0 ==> items == CartOf(db.Snapshot(), userId)
      ensures isCartOpen == old(isCartOpen)
    {
      if quantity <= 0 {
        RemoveFromCart(db, gameId);
        return;
      }
      var _ := CartRoute.Delete(db, Some(userId), Some(gameId));
      var _ := CartRoute.Post(db, AddBody(userId, gameId, quantity));
      FetchCart(db);
    }

    /** `setItems([])`: local only, no request. */
    method ClearCart()
      requires Valid()
      modifies this
      ensures Valid()
      ensures items == [] && isCartOpen == old(isCartOpen)
    {
      items := [];
    }

    method OpenCart()
      modifies this
      ensures isCartOpen && items == old(items)
    {
      isCartOpen := true;
    }

    method CloseCart()
      modifies this
      ensures !isCartOpen && items == old(items)
    {
      isCartOpen := false;
    }

    method ToggleCart()
      modifies this
      ensures isCartOpen == !old(isCartOpen) && items == old(items)
    {
      isCartOpen := !isCartOpen;
    }
  }

  /** The store after the corrected update of a positive quantity: the line deleted, then `quantity` added. */
  function SetTables(t: Tables, u: string, g: string, quantity: int): (r: Tables)
    requires WellFormed(t)
    ensures WellFormed(r)
  {
    CartRoute.Add(CartRoute.Remove(t, Some(u), Some(g)).tables, AddBody(u, g, quantity)).tables
  }

  /** Dropping a game keeps a cart valid. */
  lemma WithoutGameValid(items: seq<CartItem>, g: string)
    requires QuantitiesPositive(items) && DistinctGames(items)
    ensures QuantitiesPositive(WithoutGame(items, g)) && DistinctGames(WithoutGame(items, g))
    ensures forall i :: 0 <= i < |WithoutGame(items, g)| ==> WithoutGame(items, g)[i].gameId != g
  {
    var rel := (a: CartItem, b: CartItem) => a.gameId != b.gameId;
    Seqs.FilterPairwise(items, (it: CartItem) => it.gameId != g, rel);
    var r := WithoutGame(items, g);
    assert forall i, j :: 0 <= i < j < |r| ==> rel(r[i], r[j]);
  }

  /** Removing the line for `g` keeps the other lines in order and lowers both totals by that line's share. */
  lemma {:induction false} RemoveLowersTotals(items: seq<CartItem>, k: nat)
    requires DistinctGames(items) && k < |items|
    ensures TotalQuantity(WithoutGame(items, items[k].gameId)) == TotalQuantity(items) - items[k].quantity
    ensures CartValue(WithoutGame(items, items[k].gameId)) == CartValue(items) - items[k].game.price * items[k].quantity
    decreases |items|
  {
    var g := items[k].gameId;
    var p := (it: CartItem) => it.gameId != g;
    var rest := items[1..];
    assert WithoutGame(items, g) == (if p(items[0]) then [items[0]] else []) + Seqs.Filter(rest, p);
    if k == 0 {
      assert forall i :: 0 <= i < |rest| ==> p(rest[i]);
      Seqs.FilterAll(rest, p);
      assert WithoutGame(items, g) == rest;
      assert TotalQuantity(items) == items[0].quantity + TotalQuantity(rest);
      assert CartValue(items) == items[0].game.price * items[0].quantity + CartValue(rest);
    } else {
      assert rest[k - 1] == items[k];
      assert DistinctGames(rest);
      RemoveLowersTotals(rest, k - 1);
      var r := WithoutGame(items, g);
      assert r == [items[0]] + WithoutGame(rest, g);
      assert r[1..] == WithoutGame(rest, g);
    }
  }

  /** As written, a positive `updateQuantity(g, n)` leaves the line at its old quantity plus n. */
  lemma UpdateQuantityAdds(t: Tables, g: string, n: int)
    requires WellFormed(t) && n > 0 && HasGame(t.games, g)
    ensures CartRoute.QuantityOf(CartRoute.Add(t, AddBody(DemoUser, g, n)).tables.cart, DemoUser, g)
            == CartRoute.QuantityOf(t.cart, DemoUser, g) + n
  {
    var b := AddBody(DemoUser, g, n);
    assert (n as real).Floor == n;
    CartRoute.AddFailsOnlyForUnknownGame(t, b);
    CartRoute.AddSumsQuantity(t, b, DemoUser, g);
  }

  /** The sidebar's minus button on a line of quantity q ≥ 2 sends q - 1, so the line ends at 2q - 1: the
      quantity goes up, not down. */
  lemma MinusRaisesQuantity(t: Tables, g: string, q: int)
    requires WellFormed(t) && HasGame(t.games, g) && q >= 2
    requires CartRoute.QuantityOf(t.cart, DemoUser, g) == q
    ensures CartRoute.QuantityOf(CartRoute.Add(t, AddBody(DemoUser, g, q - 1)).tables.cart, DemoUser, g) == 2 * q - 1
    ensures 2 * q - 1 > q
  {
    UpdateQuantityAdds(t, g, q - 1);
  }

  /** The corrected update lands exactly on the requested quantity and leaves every other line as it was. */
  lemma SetQuantityLands(t: Tables, g: string, n: int, u': string, g': string)
    requires WellFormed(t) && n > 0 && g != "" && HasGame(t.games, g)
    ensures CartRoute.QuantityOf(SetTables(t, DemoUser, g, n).cart, u', g') ==
      if u' == DemoUser && g' == g then n else CartRoute.QuantityOf(t.cart, u', g')
  {
    var t1 := CartRoute.Remove(t, Some(DemoUser), Some(g)).tables;
    CartRoute.RemoveDropsLine(t, DemoUser, g, u', g');
    CartRoute.RemoveDropsLine(t, DemoUser, g, DemoUser, g);
    assert CartRoute.QuantityOf(t1.cart, DemoUser, g) == 0;
    var b := AddBody(DemoUser, g, n);
    assert (n as real).Floor == n;
    CartRoute.AddFailsOnlyForUnknownGame(t1, b);
    CartRoute.AddSumsQuantity(t1, b, u', g');
  }

  /** `useCart()`: the provider's context, or the error thrown outside a provider. */
  function UseCart(provider: Option<CartContext>): (r: Result<CartContext, string>)
    ensures r.Success? <==> provider.Some?
    ensures r.Success? ==> r.value == provider.value
    ensures r.Failure? ==> r.error == "useCart must be used within a CartProvider"
  {
    match provider
    case None => Failure("useCart must be used within a CartProvider")
    case Some(context) => Success(context)
  }
}
