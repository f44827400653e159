/**
 * `POST /api/checkout`: the signed-in user's cart becomes a paid order, but only if every line is in stock.
 * Missing session, unknown user, empty cart and any short line are refused before anything is written.
 */
module CheckoutRoute {
  import opened Wrappers
  import opened Types
  import opened Http
  import opened Db
  import opened Placement
  import Strings

  /** The first cart line asking for more units than its game has in stock. */
  function FirstShortage(lines: seq<CartItem>): (r: Option<CartItem>)
    ensures r.None? <==> forall i :: 0 <= i < |lines| ==> lines[i].quantity <= lines[i].game.stock
    ensures r.Some? ==> exists k :: 0 <= k < |lines| && lines[k] == r.value && r.value.quantity > r.value.game.stock
                          && (forall j :: 0 <= j < k ==> lines[j].quantity <= lines[j].game.stock)
    decreases |lines|
  {
    if |lines| == 0 then None
    else if lines[0].quantity > lines[0].game.stock then Some(lines[0])
    else
      var r := FirstShortage(lines[1..]);
      assert r.Some? ==> exists k :: 0 <= k < |lines| && lines[k] == r.value
                          && (forall j :: 0 <= j < k ==> lines[j].quantity <= lines[j].game.stock) by {
        if r.Some? {
          var k :| 0 <= k < |lines[1..]| && lines[1..][k] == r.value
                   && (forall j :: 0 <= j < k ==> lines[1..][j].quantity <= lines[1..][j].game.stock);
          assert lines[k + 1] == r.value;
          assert forall j :: 0 <= j < k + 1 ==> lines[j].quantity <= lines[j].game.stock by {
            forall j | 0 <= j < k + 1 ensures lines[j].quantity <= lines[j].game.stock {
              if j > 0 { assert lines[j] == lines[1..][j - 1]; }
            }
          }
        }
      }
      assert r.None? ==> forall i :: 0 <= i < |lines| ==> lines[i].quantity <= lines[i].game.stock by {
        if r.None? {
          forall i | 0 <= i < |lines| ensures lines[i].quantity <= lines[i].game.stock {
            if i > 0 { assert lines[i] == lines[1..][i - 1]; }
          }
        }
      }
      r
  }

  /** The validation loop: it stops at the first short line. */
  method FindShortage(lines: seq<CartItem>) returns (short: Option<CartItem>)
    ensures short == FirstShortage(lines)
  {
    for i := 0 to |lines|
      invariant FirstShortage(lines[i..]) == FirstShortage(lines)
    {
      assert lines[i..][1..] == lines[i + 1..];
      if lines[i].quantity > lines[i].game.stock {
        return Some(lines[i]);
      }
    }
    assert lines[|lines|..] == [];
    return None;
  }

  function ShortageMessage(g: Game): string
  {
    "Insufficient stock for " + g.title + ". Available: " + Strings.IntToString(g.stock)
  }

  /** The success page the client is sent to; `baseUrl` is the deployment's configured site address. */
  function SuccessUrl(baseUrl: string, orderId: string): string
  {
    baseUrl + "/checkout/success?session_id=sim_" + orderId
  }

  /** The route as a function of the tables before it; `email` is the session's e-mail, if any. */
  function Checkout(t: Tables, email: Option<string>, baseUrl: string): (o: Outcome)
    requires WellFormed(t)
    ensures WellFormed(o.tables)
    ensures o.response.status == 401 <==> !Present(email)
    ensures o.response.status != 200 ==> o.tables == t
  {
    if !Present(email) then Outcome(Response(401, Error("Unauthorized")), t)
    else if email.value !in t.users then Outcome(Response(404, Error("User not found")), t)
    else
      var u := t.users[email.value];
      var lines := CartOf(t, u);
      if |lines| == 0 then Outcome(Response(400, Error("Cart is empty")), t)
      else match FirstShortage(lines)
        case Some(item) => Outcome(Response(400, Error(ShortageMessage(item.game))), t)
        case None =>
          PlaceWellFormed(t, u, StatusPaid);
          var (order, t') := Place(t, u, StatusPaid);
          Outcome(Response(200, Redirect(SuccessUrl(baseUrl, order.id))), t')
  }

  /** A signed-in e-mail that matches no account is answered 404 and nothing changes. */
  lemma UnknownUserRefused(t: Tables, email: Option<string>, baseUrl: string)
    requires WellFormed(t) && Present(email) && email.value !in t.users
    ensures Checkout(t, email, baseUrl) == Outcome(Response(404, Error("User not found")), t)
  {
  }

  /** An empty cart is refused with "Cart is empty"; no order is created and no stock moves. */
  lemma EmptyCartRefused(t: Tables, email: Option<string>, baseUrl: string)
    requires WellFormed(t) && Present(email) && email.value in t.users
    requires UserRows(t.cart, t.users[email.value]) == []
    ensures Checkout(t, email, baseUrl) == Outcome(Response(400, Error("Cart is empty")), t)
  {
  }

  /** For a known user with a non-empty cart the checkout succeeds exactly when every line's quantity is at
      most its game's stock (equal passes). Otherwise it names the first short line's title and stock. */
  lemma StockDecidesCheckout(t: Tables, email: Option<string>, baseUrl: string)
    requires WellFormed(t) && Present(email) && email.value in t.users
    requires var lines := CartOf(t, t.users[email.value]); |lines| > 0
    ensures var lines := CartOf(t, t.users[email.value]); var o := Checkout(t, email, baseUrl);
      && (o.response.status == 200 <==> forall i :: 0 <= i < |lines| ==> lines[i].quantity <= lines[i].game.stock)
      && (o.response.status != 200 ==>
            o.tables == t &&
            exists k :: 0 <= k < |lines| && lines[k].quantity > lines[k].game.stock
              && (forall j :: 0 <= j < k ==> lines[j].quantity <= lines[j].game.stock)
              && o.response == Response(400, Error(ShortageMessage(lines[k].game))))
  {
  }

  /** A successful checkout records one paid order for the user whose total is Σ game.price × quantity over
      the cart lines, with one line per cart line (id `<orderId>-<gameId>`, cart quantity, game price at
      placement), and sends the client to the success page with `session_id=sim_<orderId>`. */
  lemma CheckoutRecordsPaidOrder(t: Tables, email: Option<string>, baseUrl: string)
    requires WellFormed(t)
    requires Checkout(t, email, baseUrl).response.status == 200
    ensures Present(email) && email.value in t.users
    ensures var u := t.users[email.value]; var lines := CartOf(t, u); var o := Checkout(t, email, baseUrl);
      exists order: Order ::
        && o.tables.orders == t.orders + [order]
        && order.id == FreshId(t.clock) && order.userId == u && order.status == StatusPaid
        && order.total == CartValue(lines)
        && |order.items| == |lines|
        && (forall i :: 0 <= i < |lines| ==>
              order.items[i] == OrderItem(order.id + "-" + lines[i].gameId, order.id, lines[i].gameId,
                                          lines[i].quantity, lines[i].game.price))
        && o.response == Response(200, Redirect(SuccessUrl(baseUrl, order.id)))
  {
    var u := t.users[email.value];
    PlaceRecordsOrder(t, u, StatusPaid);
    var order := Place(t, u, StatusPaid).0;
    assert Checkout(t, email, baseUrl).tables.orders == t.orders + [order];
  }

  /** After a successful checkout each purchased game's stock has dropped by exactly its line's quantity and
      is still at least 0; every game not in the cart is untouched. */
  lemma CheckoutKeepsStockNonNegative(t: Tables, email: Option<string>, baseUrl: string)
    requires WellFormed(t)
    requires Checkout(t, email, baseUrl).response.status == 200
    ensures Present(email) && email.value in t.users
    ensures var lines := CartOf(t, t.users[email.value]); var games' := Checkout(t, email, baseUrl).tables.games;
      && |games'| == |t.games|
      && (forall k, i :: 0 <= k < |t.games| && 0 <= i < |lines| && lines[i].gameId == t.games[k].id ==>
            games'[k] == t.games[k].(stock := t.games[k].stock - lines[i].quantity) && games'[k].stock >= 0)
      && (forall k :: 0 <= k < |t.games| && (forall i :: 0 <= i < |lines| ==> lines[i].gameId != t.games[k].id) ==>
            games'[k] == t.games[k])
  {
    var u := t.users[email.value];
    var lines := CartOf(t, u);
    PlaceDecrementsStock(t, u, StatusPaid);
    UserRowsReferenceGames(t, u);
    forall k, i | 0 <= k < |t.games| && 0 <= i < |lines| && lines[i].gameId == t.games[k].id
      ensures lines[i].game == t.games[k]
    {
      GameOfUnique(t.games, t.clock, k);
    }
  }

  /** After a successful checkout the user's cart is empty and every other user's rows are unchanged. */
  lemma CheckoutClearsOnlyThatCart(t: Tables, email: Option<string>, baseUrl: string)
    requires WellFormed(t)
    requires Checkout(t, email, baseUrl).response.status == 200
    ensures Present(email) && email.value in t.users
    ensures var u := t.users[email.value]; var cart' := Checkout(t, email, baseUrl).tables.cart;
      && UserRows(cart', u) == []
      && (forall v :: v != u ==> UserRows(cart', v) == UserRows(t.cart, v))
  {
    PlaceClearsCart(t, t.users[email.value], StatusPaid);
  }

  /** The handler: session checks, cart read, the validation loop, then the placement writes. */
  method Post(db: Database, email: Option<string>, baseUrl: string) returns (resp: Response)
    requires db.Valid()
    modifies db
    ensures db.Valid()
    ensures Outcome(resp, db.Snapshot()) == Checkout(old(db.Snapshot()), email, baseUrl)
  {
    if !Present(email) {
      return Response(401, Error("Unauthorized"));
    }
    if email.value !in db.users {
      return Response(404, Error("User not found"));
    }
    var u := db.users[email.value];
    var lines := CartOf(db.Snapshot(), u);
    if |lines| == 0 {
      return Response(400, Error("Cart is empty"));
    }
    var short := FindShortage(lines);
    if short.Some? {
      return Response(400, Error(ShortageMessage(short.value.game)));
    }
    var order := PlaceOrder(db, u, lines, StatusPaid);
    resp := Response(200, Redirect(SuccessUrl(baseUrl, order.id)));
  }
}
