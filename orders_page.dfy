/** The "My Orders" page: loading the signed-in user's orders and the display helpers for each order. */
module OrdersPage {
  import opened Wrappers
  import opened Types
  import opened Http
  import opened Db
  import Seqs
  import Strings
  import OrdersRoute

  datatype StatusIcon = PendingClock | ProcessingPackage | ShippedTruck | DeliveredCheck | DefaultClock

  datatype BadgeVariant = Default | Secondary | Destructive | Outline

  /** `getStatusIcon`: a `switch` over the four fulfilment statuses. */
  function StatusIconFor(status: string): StatusIcon
  {
    if status == StatusPending then PendingClock
    else if status == StatusProcessing then ProcessingPackage
    else if status == StatusShipped then ShippedTruck
    else if status == StatusDelivered then DeliveredCheck
    else DefaultClock
  }

  predicate IsFulfilmentStatus(status: string)
  {
    status in {StatusPending, StatusProcessing, StatusShipped, StatusDelivered}
  }

  /** Each of the four statuses gets its own icon; every other status, `'paid'` among them, the default one. */
  lemma StatusIconsDistinct(a: string, b: string)
    ensures StatusIconFor(a) == DefaultClock <==> !IsFulfilmentStatus(a)
    ensures IsFulfilmentStatus(a) && IsFulfilmentStatus(b) ==> (StatusIconFor(a) == StatusIconFor(b) <==> a == b)
    ensures StatusIconFor(StatusPaid) == DefaultClock
  {
  }

  /** The `variants` record of `getStatusBadge`. */
  const Variants: map<string, BadgeVariant> :=
    map[StatusPending := Secondary, StatusProcessing := Default, StatusShipped := Outline, StatusDelivered := Default]

  /** `variants[status] || 'secondary'`. */
  function StatusBadgeFor(status: string): (v: BadgeVariant)
    ensures status in Variants ==> v == Variants[status]
    ensures status !in Variants ==> v == Secondary
  {
    if status in Variants then Variants[status] else Secondary
  }

  /** The badge variant of every status, the ones the store writes included. */
  lemma StatusBadges(status: string)
    ensures StatusBadgeFor(status) == Outline <==> status == StatusShipped
    ensures StatusBadgeFor(status) == Default <==> status == StatusProcessing || status == StatusDelivered
    ensures StatusBadgeFor(status) == Secondary <==>
              !(status == StatusShipped || status == StatusProcessing || status == StatusDelivered)
    ensures StatusBadgeFor(status) != Destructive
  {
  }

  /** `Order #{order.id.slice(-8)}`. */
  function OrderLabel(id: string): string
  {
    "Order #" + Strings.TakeLast(id, 8)
  }

  /** The label shows the last eight characters of the id, or the whole id when it is shorter. */
  lemma OrderLabelSuffix(id: string)
    ensures var tail := OrderLabel(id)[|"Order #"|..];
      && |tail| == (if |id| < 8 then |id| else 8)
      && tail == id[|id| - |tail|..]
      && (|id| <= 8 ==> tail == id)
  {
    assert OrderLabel(id)[|"Order #"|..] == Strings.TakeLast(id, 8);
  }

  /** `{n} item{n !== 1 ? 's' : ''}`. */
  function ItemsLabel(n: nat): string
  {
    Strings.NatToString(n) + " item" + (if n != 1 then "s" else "")
  }

  lemma ItemsLabelPlural(n: nat)
    ensures ItemsLabel(n)[|ItemsLabel(n)| - 1] == 's' <==> n != 1
    ensures ItemsLabel(1) == "1 item"
  {
    assert Strings.NatToString(1) == "1";
  }

  /** A line's shown subtotal. */
  function LineSubtotal(item: OrderItem): int
  {
    item.price * item.quantity
  }

  function SubtotalsSum(items: seq<OrderItem>): int
  {
    if |items| == 0 then 0 else LineSubtotal(items[0]) + SubtotalsSum(items[1..])
  }

  /** In a well-formed store the shown line subtotals of every order add up to its shown total. */
  lemma SubtotalsAddUpToTotal(t: Tables, k: nat)
    requires WellFormed(t) && k < |t.orders|
    ensures SubtotalsSum(t.orders[k].items) == t.orders[k].total
  {
    SubtotalsAreItemsValue(t.orders[k].items);
  }

  lemma {:induction false} SubtotalsAreItemsValue(items: seq<OrderItem>)
    ensures SubtotalsSum(items) == ItemsValue(items)
    decreases |items|
  {
    if |items| > 0 {
      SubtotalsAreItemsValue(items[1..]);
    }
  }

  predicate ShowsEmptyState(orders: seq<Order>) { |orders| == 0 }

  /** The list after `fetchOrders`: the answer's orders when it is OK, otherwise the list as it was. */
  function FetchedOrders(t: Tables, current: seq<Order>, userId: Option<string>): seq<Order>
  {
    var r := OrdersRoute.Get(t, userId);
    if r.Ok() then r.body.orders else current
  }

  /** As written the page requests `/api/orders` with no `userId`: the route refuses it, so a signed-in user
      who has orders still sees the empty state. */
  lemma PageAsWrittenShowsNoOrders(t: Tables, u: string)
    requires WellFormed(t) && u != "" && exists k :: 0 <= k < |t.orders| && t.orders[k].userId == u
    ensures OrdersRoute.Get(t, None).status == 400
    ensures ShowsEmptyState(FetchedOrders(t, [], None))
    ensures |OrdersRoute.Get(t, Some(u)).body.orders| > 0
  {
    var k :| 0 <= k < |t.orders| && t.orders[k].userId == u;
    OrdersRoute.GetListsUserOrdersNewestFirst(t, u);
    assert t.orders[k] in OrdersRoute.Get(t, Some(u)).body.orders;
  }

  /** Corrected: passing the signed-in user's id lists exactly that user's orders, newest first, and shows the
      empty state exactly when the user has none. */
  lemma PageWithUserListsOrders(t: Tables, u: string)
    requires WellFormed(t) && u != ""
    ensures var list := FetchedOrders(t, [], Some(u));
      && (forall o :: o in list <==> o in t.orders && o.userId == u)
      && (forall i, j :: 0 <= i < j < |list| ==> list[i].createdAt > list[j].createdAt)
      && (ShowsEmptyState(list) <==> forall k :: 0 <= k < |t.orders| ==> t.orders[k].userId != u)
  {
    OrdersRoute.GetListsUserOrdersNewestFirst(t, u);
    var list := FetchedOrders(t, [], Some(u));
    if !ShowsEmptyState(list) {
      assert list[0] in list;
    }
    if exists k :: 0 <= k < |t.orders| && t.orders[k].userId == u {
      var k :| 0 <= k < |t.orders| && t.orders[k].userId == u;
      assert t.orders[k] in list;
    }
  }

  class Page {
    var orders: seq<Order>
    var loading: bool

    constructor ()
      ensures orders == [] && loading
    {
      orders := [];
      loading := true;
    }

    /** `fetchOrders` against `/api/orders`, with `?userId=` when `userId` is given: on an OK answer show its
        orders; loading ends either way. */
    method Fetch(db: Database, userId: Option<string>)
      modifies this
      ensures orders == FetchedOrders(db.Snapshot(), old(orders), userId) && !loading
    {
      var response := OrdersRoute.Get(db.Snapshot(), userId);
      if response.Ok() {
        orders := response.body.orders;
      }
      loading := false;
    }

    /** As written: `fetch('/api/orders')` without a user id. */
    method FetchOrders(db: Database)
      modifies this
      ensures orders == FetchedOrders(db.Snapshot(), old(orders), None) && !loading
    {
      Fetch(db, None);
    }

    /** Corrected: `fetch('/api/orders?userId=' + id)` for the signed-in user. */
    method FetchOrdersFor(db: Database, userId: string)
      modifies this
      ensures orders == FetchedOrders(db.Snapshot(), old(orders), Some(userId)) && !loading
    {
      Fetch(db, Some(userId));
    }
  }
}
