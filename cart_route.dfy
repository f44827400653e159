/**
 * `/api/cart`: read a user's cart (GET), add a quantity of a game to it (POST, an upsert on the
 * (userId, gameId) key), and remove one line (DELETE).
 */
module CartRoute {
  import opened Wrappers
  import opened Types
  import opened Http
  import opened Db

  /** A POST body field by field; `None` is a field that is missing or not of the schema's JSON type. */
  datatype CartItemBody = CartItemBody(userId: Option<string>, gameId: Option<string>, quantity: Option<real>)

  /** A JSON number that is an integer (`z.number().int()`). */
  predicate IsInteger(x: real)
  {
    x.Floor as real == x
  }

  /** `cartItemSchema.parse`: two strings (possibly empty) and an integer quantity of at least 1. */
  function ParseCartItem(b: CartItemBody): (r: Option<CartRow>)
    ensures r.Some? <==> b.userId.Some? && b.gameId.Some? && b.quantity.Some? && IsInteger(b.quantity.value) && b.quantity.value >= 1.0
    ensures r.Some? ==> (r.value.userId == b.userId.value && r.value.gameId == b.gameId.value
                         && r.value.quantity >= 1 && r.value.quantity as real == b.quantity.value)
  {
    if b.userId.Some? && b.gameId.Some? && b.quantity.Some? && IsInteger(b.quantity.value) && b.quantity.value >= 1.0
    then Some(CartRow(b.userId.value, b.gameId.value, b.quantity.value.Floor))
    else None
  }

  /** The quantity of game `g` in user `u`'s cart, 0 when there is no such line. */
  function QuantityOf(cart: seq<CartRow>, u: string, g: string): int
  {
    match RowIndex(cart, u, g)
    case None => 0
    case Some(k) => cart[k].quantity
  }

  /** The (userId, gameId) key is unique, the part of well-formedness the quantity lemmas use. */
  predicate UniqueKeys(cart: seq<CartRow>)
  {
    forall i, j :: 0 <= i < j < |cart| ==> !SameKey(cart[i], cart[j])
  }

  /** With unique keys, the lookup finds the one row carrying the key. */
  lemma RowIndexUnique(cart: seq<CartRow>, k: nat)
    requires UniqueKeys(cart) && k < |cart|
    ensures RowIndex(cart, cart[k].userId, cart[k].gameId) == Some(k)
  {
    var r := RowIndex(cart, cart[k].userId, cart[k].gameId);
    assert r.Some?;
    if r.value < k {
      assert SameKey(cart[r.value], cart[k]);
    } else if r.value > k {
      assert SameKey(cart[k], cart[r.value]);
    }
  }

  /** `QuantityOf` reads the row with the key when there is one. */
  lemma QuantityOfRow(cart: seq<CartRow>, k: nat)
    requires UniqueKeys(cart) && k < |cart|
    ensures QuantityOf(cart, cart[k].userId, cart[k].gameId) == cart[k].quantity
  {
    RowIndexUnique(cart, k);
  }

  // ---------------------------------------------------------------- GET

  function Get(t: Tables, userId: Option<string>): (o: Response)
    requires CartWellFormed(t.cart, t.games)
    ensures o.status == 400 <==> !Present(userId)
    ensures o.status == 200 ==> o.body == CartLines(CartOf(t, userId.value))
  {
    if !Present(userId) then Response(400, Error("User ID is required"))
    else Response(200, CartLines(CartOf(t, userId.value)))
  }

  /** GET returns exactly the user's rows, each joined with its catalogue game, one line per game. */
  lemma GetReturnsUserCart(t: Tables, u: string)
    requires CartWellFormed(t.cart, t.games) && u != ""
    ensures Get(t, Some(u)).status == 200
    ensures var lines := Get(t, Some(u)).body.items;
      && (forall i :: 0 <= i < |lines| ==>
            lines[i].userId == u && lines[i].quantity >= 1 && lines[i].game == GameOf(t.games, lines[i].gameId)
            && CartRow(u, lines[i].gameId, lines[i].quantity) in t.cart)
      && (forall j :: 0 <= j < |t.cart| && t.cart[j].userId == u ==>
            exists i :: 0 <= i < |lines| && lines[i].gameId == t.cart[j].gameId && lines[i].quantity == t.cart[j].quantity)
      && (forall i, j :: 0 <= i < j < |lines| ==> lines[i].gameId != lines[j].gameId)
  {
    var rows := UserRows(t.cart, u);
    var lines := CartOf(t, u);
    CartOfDistinctGames(t, u);
    assert |lines| == |rows|;
    forall i | 0 <= i < |lines|
      ensures CartRow(u, lines[i].gameId, lines[i].quantity) in t.cart
    {
      assert lines[i].gameId == rows[i].gameId && lines[i].quantity == rows[i].quantity;
      assert rows[i] in t.cart && rows[i].userId == u;
    }
    forall j | 0 <= j < |t.cart| && t.cart[j].userId == u
      ensures exists i :: 0 <= i < |lines| && lines[i].gameId == t.cart[j].gameId && lines[i].quantity == t.cart[j].quantity
    {
      assert t.cart[j] in rows;
      var i :| 0 <= i < |rows| && rows[i] == t.cart[j];
      assert lines[i].gameId == rows[i].gameId && lines[i].quantity == rows[i].quantity;
    }
  }

  // ---------------------------------------------------------------- POST

  /** The line POST answers with: the row joined with its game. */
  function Joined(games: seq<Game>, r: CartRow): CartItem
    requires HasGame(games, r.gameId)
  {
    CartItem(r.userId, r.gameId, r.quantity, GameOf(games, r.gameId))
  }

  /** POST as a function of the tables before it. A missing game makes the insert fail its foreign key. */
  function Add(t: Tables, b: CartItemBody): (o: Outcome)
    requires WellFormed(t)
    ensures WellFormed(o.tables)
    ensures o.response.status == 400 <==> ParseCartItem(b).None?
    ensures o.response.status != 201 ==> o.tables == t
    ensures o.tables.games == t.games && o.tables.orders == t.orders && o.tables.users == t.users
            && o.tables.clock == t.clock
  {
    match ParseCartItem(b)
    case None => Outcome(Response(400, Error("Invalid data")), t)
    case Some(row) =>
      match RowIndex(t.cart, row.userId, row.gameId)
      case Some(k) =>
        var updated := CartRow(row.userId, row.gameId, t.cart[k].quantity + row.quantity);
        var cart := t.cart[k := updated];
        assert CartWellFormed(cart, t.games) by {
          forall i, j | 0 <= i < j < |cart| ensures !SameKey(cart[i], cart[j]) {
            assert SameKey(cart[i], t.cart[i]) && SameKey(cart[j], t.cart[j]);
          }
        }
        Outcome(Response(201, CartLine(Joined(t.games, updated))), t.(cart := cart))
      case None =>
        if !HasGame(t.games, row.gameId) then Outcome(Response(500, Error("Failed to add to cart")), t)
        else
          var cart := t.cart + [row];
          assert CartWellFormed(cart, t.games);
          Outcome(Response(201, CartLine(Joined(t.games, row))), t.(cart := cart))
  }

  /** Replacing the quantity of the line at `k` changes that key's quantity and no other. */
  lemma UpdatedQuantities(cart: seq<CartRow>, k: nat, q: int, u: string, g: string)
    requires UniqueKeys(cart) && k < |cart|
    ensures var c := cart[k := cart[k].(quantity := q)];
      QuantityOf(c, u, g) == if u == cart[k].userId && g == cart[k].gameId then q else QuantityOf(cart, u, g)
  {
    var c := cart[k := cart[k].(quantity := q)];
    assert forall i :: 0 <= i < |c| ==> SameKey(c[i], cart[i]);
    assert UniqueKeys(c);
    if u == cart[k].userId && g == cart[k].gameId {
      QuantityOfRow(c, k);
    } else {
      var r := RowIndex(cart, u, g);
      if r.Some? {
        QuantityOfRow(cart, r.value);
        QuantityOfRow(c, r.value);
      } else {
        assert forall i :: 0 <= i < |c| ==> !(c[i].userId == u && c[i].gameId == g);
      }
    }
  }

  /** Appending a line with a new key gives that key its quantity and changes no other. */
  lemma AppendedQuantities(cart: seq<CartRow>, row: CartRow, u: string, g: string)
    requires UniqueKeys(cart) && RowIndex(cart, row.userId, row.gameId).None?
    ensures QuantityOf(cart + [row], u, g) ==
      if u == row.userId && g == row.gameId then row.quantity else QuantityOf(cart, u, g)
  {
    var c := cart + [row];
    assert UniqueKeys(c);
    if u == row.userId && g == row.gameId {
      QuantityOfRow(c, |cart|);
    } else {
      var r := RowIndex(cart, u, g);
      if r.Some? {
        QuantityOfRow(cart, r.value);
        QuantityOfRow(c, r.value);
      } else {
        assert forall i :: 0 <= i < |c| ==> !(c[i].userId == u && c[i].gameId == g);
      }
    }
  }

  /** A successful POST raises the quantity of that (user, game) line by the posted quantity, starting from 0
      when the line did not exist, and leaves every other line's quantity as it was. */
  lemma AddSumsQuantity(t: Tables, b: CartItemBody, u: string, g: string)
    requires WellFormed(t)
    requires Add(t, b).response.status == 201
    ensures var row := ParseCartItem(b).value;
      QuantityOf(Add(t, b).tables.cart, u, g) ==
        if u == row.userId && g == row.gameId then QuantityOf(t.cart, u, g) + row.quantity
        else QuantityOf(t.cart, u, g)
  {
    var row := ParseCartItem(b).value;
    var r := RowIndex(t.cart, row.userId, row.gameId);
    if r.Some? {
      var k := r.value;
      var q := t.cart[k].quantity + row.quantity;
      assert Add(t, b).tables.cart == t.cart[k := t.cart[k].(quantity := q)];
      UpdatedQuantities(t.cart, k, q, u, g);
      QuantityOfRow(t.cart, k);
    } else {
      assert Add(t, b).tables.cart == t.cart + [row];
      AppendedQuantities(t.cart, row, u, g);
    }
  }

  /** The answer to a successful POST is the resulting line joined with its game. */
  lemma AddAnswersWithLine(t: Tables, b: CartItemBody)
    requires WellFormed(t)
    requires Add(t, b).response.status == 201
    ensures var row := ParseCartItem(b).value; var item := Add(t, b).response.body.item;
      && item.userId == row.userId && item.gameId == row.gameId && item.game == GameOf(t.games, row.gameId)
      && item.quantity == QuantityOf(Add(t, b).tables.cart, row.userId, row.gameId)
  {
    var row := ParseCartItem(b).value;
    AddSumsQuantity(t, b, row.userId, row.gameId);
  }

  /** A valid POST fails only on a game missing from the catalogue with no existing line. */
  lemma AddFailsOnlyForUnknownGame(t: Tables, b: CartItemBody)
    requires WellFormed(t) && ParseCartItem(b).Some?
    ensures Add(t, b).response.status == 500 <==> !HasGame(t.games, ParseCartItem(b).value.gameId)
  {
    var row := ParseCartItem(b).value;
    var r := RowIndex(t.cart, row.userId, row.gameId);
    if r.Some? {
      assert HasGame(t.games, t.cart[r.value].gameId);
    }
  }

  /** The handler: validate, look the line up, then update it or insert a new one. */
  method Post(db: Database, b: CartItemBody) returns (resp: Response)
    requires db.Valid()
    modifies db
    ensures db.Valid()
    ensures Outcome(resp, db.Snapshot()) == Add(old(db.Snapshot()), b)
  {
    ghost var t := db.Snapshot();
    ghost var o := Add(t, b);
    var parsed := ParseCartItem(b);
    if parsed.None? {
      return Response(400, Error("Invalid data"));
    }
    var row := parsed.value;
    var existing := RowIndex(db.cartRows, row.userId, row.gameId);
    if existing.Some? {
      var k := existing.value;
      var updated := CartRow(row.userId, row.gameId, db.cartRows[k].quantity + row.quantity);
      db.cartRows := db.cartRows[k := updated];
      resp := Response(201, CartLine(Joined(db.games, updated)));
    } else if !HasGame(db.games, row.gameId) {
      resp := Response(500, Error("Failed to add to cart"));
    } else {
      db.cartRows := db.cartRows + [row];
      resp := Response(201, CartLine(Joined(db.games, row)));
    }
    assert db.Snapshot() == o.tables;
  }

  // ---------------------------------------------------------------- DELETE

  /** DELETE as a function of the tables before it; deleting a line that does not exist throws. */
  function Remove(t: Tables, userId: Option<string>, gameId: Option<string>): (o: Outcome)
    requires WellFormed(t)
    ensures WellFormed(o.tables)
    ensures o.response.status == 400 <==> !Present(userId) || !Present(gameId)
    ensures o.response.status != 200 ==> o.tables == t
    ensures o.tables.games == t.games && o.tables.orders == t.orders && o.tables.users == t.users
            && o.tables.clock == t.clock
  {
    if !Present(userId) || !Present(gameId) then
      Outcome(Response(400, Error("User ID and Game ID are required")), t)
    else match RowIndex(t.cart, userId.value, gameId.value)
      case None => Outcome(Response(500, Error("Failed to remove from cart")), t)
      case Some(k) =>
        var cart := t.cart[..k] + t.cart[k + 1..];
        assert CartWellFormed(cart, t.games) by {
          forall i | 0 <= i < |cart| ensures cart[i] == t.cart[if i < k then i else i + 1] { }
        }
        Outcome(Response(200, Message("Item removed from cart")), t.(cart := cart))
  }

  /** Deleting the line at `k` takes its key's quantity to 0 and leaves every other key's quantity alone. */
  lemma RemovedQuantities(cart: seq<CartRow>, k: nat, u: string, g: string)
    requires UniqueKeys(cart) && k < |cart|
    ensures var rest := cart[..k] + cart[k + 1..];
      QuantityOf(rest, u, g) == if u == cart[k].userId && g == cart[k].gameId then 0 else QuantityOf(cart, u, g)
  {
    var rest := cart[..k] + cart[k + 1..];
    assert forall i :: 0 <= i < |rest| ==> rest[i] == cart[if i < k then i else i + 1];
    if u == cart[k].userId && g == cart[k].gameId {
      forall i | 0 <= i < |rest| ensures !(rest[i].userId == u && rest[i].gameId == g) {
        var j := if i < k then i else i + 1;
        assert rest[i] == cart[j];
        if j < k { assert !SameKey(cart[j], cart[k]); } else { assert !SameKey(cart[k], cart[j]); }
      }
    } else {
      var r := RowIndex(cart, u, g);
      if r.Some? {
        var j := r.value;
        var i := if j < k then j else j - 1;
        assert rest[i] == cart[j];
        assert UniqueKeys(rest);
        QuantityOfRow(rest, i);
        QuantityOfRow(cart, j);
      } else {
        assert forall i :: 0 <= i < |rest| ==> !(rest[i].userId == u && rest[i].gameId == g);
      }
    }
  }

  /** DELETE succeeds exactly when the line exists; a missing line is answered 500 "Failed to remove from
      cart" with nothing changed. On success it takes that line's quantity to 0 and leaves every
      other line's quantity as it was. */
  lemma RemoveDropsLine(t: Tables, u: string, g: string, u': string, g': string)
    requires WellFormed(t) && u != "" && g != ""
    ensures Remove(t, Some(u), Some(g)).response.status == 200 <==> RowIndex(t.cart, u, g).Some?
    ensures RowIndex(t.cart, u, g).None? ==>
      Remove(t, Some(u), Some(g)) == Outcome(Response(500, Error("Failed to remove from cart")), t)
    ensures Remove(t, Some(u), Some(g)).response.status == 200 ==>
      QuantityOf(Remove(t, Some(u), Some(g)).tables.cart, u', g') ==
        if u' == u && g' == g then 0 else QuantityOf(t.cart, u', g')
  {
    var r := RowIndex(t.cart, u, g);
    if r.Some? {
      assert Remove(t, Some(u), Some(g)).tables.cart == t.cart[..r.value] + t.cart[r.value + 1..];
      RemovedQuantities(t.cart, r.value, u', g');
    }
  }

  /** The handler: check both parameters, then delete the keyed line. */
  method Delete(db: Database, userId: Option<string>, gameId: Option<string>) returns (resp: Response)
    requires db.Valid()
    modifies db
    ensures db.Valid()
    ensures Outcome(resp, db.Snapshot()) == Remove(old(db.Snapshot()), userId, gameId)
  {
    if !Present(userId) || !Present(gameId) {
      return Response(400, Error("User ID and Game ID are required"));
    }
    var found := RowIndex(db.cartRows, userId.value, gameId.value);
    if found.None? {
      return Response(500, Error("Failed to remove from cart"));
    }
    var k := found.value;
    db.cartRows := db.cartRows[..k] + db.cartRows[k + 1..];
    resp := Response(200, Message("Item removed from cart"));
  }
}
