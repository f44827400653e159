/**
 * `POST /api/webhooks/stripe`: a verified `checkout.session.completed` event places the order for the user
 * named in the event's metadata. Unlike checkout, this path does not compare quantities with stock first.
 */
module StripeWebhookRoute {
  import opened Wrappers
  import opened Types
  import opened Http
  import opened Db
  import opened Placement

  /** The part of a payment-provider event the handler reads. */
  datatype Event = Event(kind: string, metadataUserId: Option<string>)

  const CheckoutCompleted: string := "checkout.session.completed"

  /** The route as a function of the tables before it. `verified` is the event when its signature checked
      out, and `None` when signature verification threw. */
  function HandleEvent(t: Tables, verified: Option<Event>): (o: Outcome)
    requires WellFormed(t)
    ensures WellFormed(o.tables)
    ensures verified.None? ==> o.response.status == 400
    ensures o.tables != t ==> verified.Some? && verified.value.kind == CheckoutCompleted && o.response.status == 200
  {
    if verified.None? then Outcome(Response(400, Error("Webhook error")), t)
    else if verified.value.kind != CheckoutCompleted then Outcome(Response(200, Received), t)
    else if !Present(verified.value.metadataUserId) then Outcome(Response(400, Error("No userId")), t)
    else
      var u := verified.value.metadataUserId.value;
      if |CartOf(t, u)| == 0 then Outcome(Response(400, Error("Cart is empty")), t)
      else
        PlaceWellFormed(t, u, StatusPaid);
        Outcome(Response(200, Received), Place(t, u, StatusPaid).1)
  }

  /** A signature that fails verification is answered 400 and nothing changes. */
  lemma BadSignatureRefused(t: Tables)
    requires WellFormed(t)
    ensures HandleEvent(t, None) == Outcome(Response(400, Error("Webhook error")), t)
  {
  }

  /** Every other event type is acknowledged with `{ received: true }` and changes nothing. */
  lemma OtherEventsIgnored(t: Tables, e: Event)
    requires WellFormed(t) && e.kind != CheckoutCompleted
    ensures HandleEvent(t, Some(e)) == Outcome(Response(200, Received), t)
  {
  }

  /** A completed checkout whose metadata carries no user id (missing or empty) is answered 400 "No userId"
      and nothing changes. */
  lemma MissingUserRefused(t: Tables, e: Event)
    requires WellFormed(t) && e.kind == CheckoutCompleted && !Present(e.metadataUserId)
    ensures HandleEvent(t, Some(e)) == Outcome(Response(400, Error("No userId")), t)
  {
  }

  /** A completed checkout for a user whose cart is empty is answered 400 "Cart is empty" and nothing
      changes. */
  lemma EmptyCartRefused(t: Tables, e: Event)
    requires WellFormed(t) && e.kind == CheckoutCompleted && Present(e.metadataUserId)
    requires |CartOf(t, e.metadataUserId.value)| == 0
    ensures HandleEvent(t, Some(e)) == Outcome(Response(400, Error("Cart is empty")), t)
  {
  }

  /** A completed-checkout event places the order exactly when it names a user whose cart is not empty:
      one paid order with total Σ game.price × quantity and one snapshot-priced line per cart line, each
      game's stock decreased by its line's quantity without any lower bound, and the user's cart emptied. */
  lemma CompletedCheckoutPlacesOrder(t: Tables, e: Event)
    requires WellFormed(t) && e.kind == CheckoutCompleted
    ensures var o := HandleEvent(t, Some(e));
      o.response.status == 200 <==> Present(e.metadataUserId) && |CartOf(t, e.metadataUserId.value)| > 0
    ensures var o := HandleEvent(t, Some(e));
      o.response.status == 200 ==>
        var u := e.metadataUserId.value; var lines := CartOf(t, u);
        exists order: Order ::
          && o.tables.orders == t.orders + [order]
          && order.userId == u && order.status == StatusPaid && order.total == CartValue(lines)
          && |order.items| == |lines|
          && (forall i :: 0 <= i < |lines| ==>
                order.items[i] == OrderItem(order.id + "-" + lines[i].gameId, order.id, lines[i].gameId,
                                            lines[i].quantity, lines[i].game.price))
          && |o.tables.games| == |t.games|
          && (forall k, i :: 0 <= k < |t.games| && 0 <= i < |lines| && lines[i].gameId == t.games[k].id ==>
                o.tables.games[k] == t.games[k].(stock := t.games[k].stock - lines[i].quantity))
          && (forall k :: 0 <= k < |t.games| && (forall i :: 0 <= i < |lines| ==> lines[i].gameId != t.games[k].id) ==>
                o.tables.games[k] == t.games[k])
          && UserRows(o.tables.cart, u) == []
          && (forall v :: v != u ==> UserRows(o.tables.cart, v) == UserRows(t.cart, v))
          && o.tables.users == t.users
  {
    if HandleEvent(t, Some(e)).response.status == 200 {
      var u := e.metadataUserId.value;
      PlaceRecordsOrder(t, u, StatusPaid);
      PlaceDecrementsStock(t, u, StatusPaid);
      PlaceClearsCart(t, u, StatusPaid);
      var order := Place(t, u, StatusPaid).0;
      assert HandleEvent(t, Some(e)).tables.orders == t.orders + [order];
    }
  }

  /** Without a stock check the webhook can sell more than is in stock: a store where a game has 1 unit and
      the user's cart holds 2 of it ends with that game's stock at -1. */
  lemma WebhookCanOversell()
    ensures exists t: Tables, e: Event ::
      && WellFormed(t) && |t.games| == 1 && t.games[0].stock == 1
      && HandleEvent(t, Some(e)).response.status == 200
      && |HandleEvent(t, Some(e)).tables.games| == 1
      && HandleEvent(t, Some(e)).tables.games[0].stock == -1
  {
    var g := Game(FreshId(0), "Speed Rush", "A racing game", 3999, "Racing", "PC", "/racing.jpg",
                  None, None, 1, 0, None, None, None, None);
    var t := Tables(map[], [g], [CartRow("u1", g.id, 2)], [], 1);
    assert GameIndex(t.games, g.id) == Some(0);
    assert WellFormed(t);
    var e := Event(CheckoutCompleted, Some("u1"));
    assert UserRows(t.cart, "u1") == t.cart by {
      Seqs.FilterAll(t.cart, (r: CartRow) => r.userId == "u1");
    }
    var lines := CartOf(t, "u1");
    assert |lines| == 1 && lines[0].gameId == g.id && lines[0].quantity == 2;
    PlaceDecrementsStock(t, "u1", StatusPaid);
    assert HandleEvent(t, Some(e)).tables.games[0].stock == -1;
  }

  /** The handler: signature and event gating, the user's cart read, then the placement writes. */
  method Post(db: Database, verified: Option<Event>) returns (resp: Response)
    requires db.Valid()
    modifies db
    ensures db.Valid()
    ensures Outcome(resp, db.Snapshot()) == HandleEvent(old(db.Snapshot()), verified)
  {
    if verified.None? {
      return Response(400, Error("Webhook error"));
    }
    var event := verified.value;
    if event.kind == CheckoutCompleted {
      if !Present(event.metadataUserId) {
        return Response(400, Error("No userId"));
      }
      var u := event.metadataUserId.value;
      var lines := CartOf(db.Snapshot(), u);
      if |lines| == 0 {
        return Response(400, Error("Cart is empty"));
      }
      var _ := PlaceOrder(db, u, lines, StatusPaid);
    }
    resp := Response(200, Received);
  }
}
