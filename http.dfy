/** What a route handler answers: an HTTP status and a JSON body, the bodies the storefront's routes send. */
module Http {
  import opened Types
  import Wrappers

  datatype Body =
    | Error(message: string)
    | Message(text: string)
    | CartLines(items: seq<CartItem>)
    | CartLine(item: CartItem)
    | OrderList(orders: seq<Order>)
    | OrderCreated(order: Order)
    | GameList(games: seq<Game>)
    | GameCreated(game: Game)
    | Redirect(url: string)
    | Received

  datatype Response = Response(status: int, body: Body) {
    /** `response.ok` on the client: a status in 200..299. */
    predicate Ok() { 200 <= status <= 299 }
  }

  /** A query parameter or session field the handlers test with `!x`: absent (`null`) and `''` both fail. */
  predicate Present(p: Wrappers.Option<string>)
  {
    p.Some? && p.value != ""
  }
}
