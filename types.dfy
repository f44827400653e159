/**
 * The storefront's records (catalogue games, cart rows, orders and their lines) and the sums over them
 * that the cart, checkout and order code compute. Prices are integer cents.
 */
module Types {
  import opened Wrappers

  /** A catalogue entry. `price` is in cents; `stock` is a plain integer because nothing in the store keeps it
      non-negative (the payment webhook decrements it unchecked). `createdAt` is a tick of the store's clock. */
  datatype Game = Game(
    id: string,
    title: string,
    description: string,
    price: int,
    genre: string,
    platform: string,
    imageUrl: string,
    rating: Option<real>,
    releaseDate: Option<string>,
    stock: int,
    createdAt: nat,
    videoUrl: Option<string>,
    specs: Option<string>,
    developer: Option<string>,
    publisher: Option<string>)

  /** One row of the cart table, keyed by (userId, gameId). */
  datatype CartRow = CartRow(userId: string, gameId: string, quantity: int)

  /** A cart row joined with its game, as the cart queries return it and as the client keeps it. */
  datatype CartItem = CartItem(userId: string, gameId: string, quantity: int, game: Game)

  /** One line of an order, priced when the order was placed. */
  datatype OrderItem = OrderItem(id: string, orderId: string, gameId: string, quantity: int, price: int)

  datatype Order = Order(id: string, userId: string, total: int, status: string, createdAt: nat, items: seq<OrderItem>)

  const StatusPending: string := "pending"
  const StatusPaid: string := "paid"
  const StatusProcessing: string := "processing"
  const StatusShipped: string := "shipped"
  const StatusDelivered: string := "delivered"

  /** Σ quantity: `items.reduce((sum, item) => sum + item.quantity, 0)`. */
  function TotalQuantity(items: seq<CartItem>): int
  {
    if |items| == 0 then 0 else items[0].quantity + TotalQuantity(items[1..])
  }

  /** Σ game.price × quantity over cart items, the price read from the joined game. */
  function CartValue(items: seq<CartItem>): int
  {
    if |items| == 0 then 0 else items[0].game.price * items[0].quantity + CartValue(items[1..])
  }

  /** Σ price × quantity over order lines, each at its own recorded price. */
  function ItemsValue(items: seq<OrderItem>): int
  {
    if |items| == 0 then 0 else items[0].price * items[0].quantity + ItemsValue(items[1..])
  }

  /** `stock <= 5 && stock > 0`: the low-stock condition of the card badge, the admin badge and alert list. */
  predicate IsLowStock(stock: int)
  {
    stock <= 5 && stock > 0
  }

  /** `stock === 0`: the out-of-stock condition. A negative stock is neither low nor out. */
  predicate IsOutOfStock(stock: int)
  {
    stock == 0
  }

  predicate QuantitiesPositive(items: seq<CartItem>)
  {
    forall i :: 0 <= i < |items| ==> items[i].quantity >= 1
  }

  /** With every quantity at least 1, the item count is at least the number of lines, and it is zero
      exactly when there are no lines. */
  lemma {:induction false} TotalQuantityAtLeastLines(items: seq<CartItem>)
    requires QuantitiesPositive(items)
    ensures TotalQuantity(items) >= |items|
    ensures TotalQuantity(items) == 0 <==> |items| == 0
  {
    if |items| > 0 {
      TotalQuantityAtLeastLines(items[1..]);
    }
  }
}
