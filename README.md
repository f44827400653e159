# Game store: cart, checkout and orders, modelled in Dafny

This project models the core of a small Next.js game shop. The shop has a catalogue of games, a cart per user,
and orders. The model covers:

- the five API routes over the store:
  - `/api/games` (list, create);
  - `/api/cart` (read, add, remove);
  - `/api/orders` (list, create a pending order);
  - `/api/checkout` (validate stock, record a paid order, decrement stock, clear the cart);
  - `/api/webhooks/stripe` (the same placement, driven by a `checkout.session.completed` event);
- the client cart state (`useCart`);
- the components whose logic decides what the store receives: the game card, the cart sidebar, the hero
  banner, the cart button, the catalogue filter on the home page, the admin page and the orders page.

The store is the class `Db.Database`. Its fields are the users (email → id), the games, the cart rows, the
orders, and one counter that issues ids and creation times. `Snapshot()` returns the fields as a `Tables`
value, and `Valid()` is `Db.WellFormed` of that value:

- game ids are distinct;
- cart keys (user, game) are unique and every row names an existing game with quantity at least 1;
- orders are in creation order.

Each route has two parts:

- a pure function from `Tables` and the request to an `Outcome(response, tables)`;
- a handler method with `modifies db` whose postcondition says the response and the new store are exactly that
  function of the old store.

The route's promises are lemmas about the pure function. The client classes share one `Database` and call the
handler methods directly in place of `fetch`.

Key modelling choices:

- Prices and totals are integer cents.
- JSON numbers that must be integers (cart and order quantities, stock) are `real`, so that a fractional value
  is rejected as zod rejects it.
- A missing or mistyped request field is `None`. On the games route, an optional field distinguishes absent,
  given and mistyped.
- JavaScript's `!x` test on a string is `Http.Present` (missing or empty fails).
- `FreshId(n)` is `"c"` followed by the decimal digits of `n`. Creation times come from the same counter, so
  "newest first" (`orderBy createdAt desc`) is the reverse of creation order.

Three behaviours of the source are proved rather than assumed away:

- The webhook does not check stock before decrementing it. `StripeWebhookRoute.WebhookCanOversell` exhibits a
  store whose only game has stock 1 and ends at stock −1.
- The hero banner's Quick Buy posts the hard-coded ids `'1'`, `'2'`, `'3'`. With ids issued as `FreshId` (a
  `c` followed by digits), none of these is the id of a stored game. The server therefore answers 500 and the
  cart does not change (`HeroBannerView.QuickBuyRejected`).
- A negative stock shows neither the low-stock nor the out-of-stock badge and leaves Add to Cart enabled
  (`GameCardView.StockBadgesExclusive`).

## Model

| member | source | states |
|---|---|---|
| Db.FreshIdInjective | src/app/api/games/route.ts:37-42 | two different counter values never give the same id |
| Http.Present | src/app/api/orders/route.ts:19 | no contract; the `!x` test on a query parameter or session field: absent and `''` both fail (also src/app/api/checkout/route.ts:11, src/app/api/cart/route.ts:16, 101); `CartRoute.Get`, `OrdersRoute.Get`, `CartRoute.Remove` and `CheckoutRoute.Checkout` state that it decides their 400 or 401 |
| Http.Response.Ok | src/hooks/useCart.tsx:34 | no contract; `response.ok`, a status in 200..299; `OrdersPage.Page.Fetch`, `UseCart.CartContext.FetchCart` and `CartSidebar.HandleCheckout` state what the clients do on each side of it |
| Db.FreshId | src/app/api/games/route.ts:37-42 | no contract; the id the store gives the row created at tick n, `c` followed by n's decimal digits; `Db.FreshIdInjective` states that distinct ticks give distinct ids |
| Db.GameIndex | src/app/api/checkout/route.ts:34-37 | finds the first game with the id or reports that none has it |
| Db.GameIdsDistinct | src/app/api/games/route.ts:37-42 | in a well-formed catalogue no two games share an id |
| Db.GameOfUnique | src/app/api/checkout/route.ts:34-37 | the joined game of a cart row is the stored game with that id |
| Db.UserRowsReferenceGames | src/app/api/checkout/route.ts:34-37 | every cart row of a user names an existing game, so the `include: { game }` join is defined |
| Db.CartOfDistinctGames | src/app/api/cart/route.ts:23-28 | a user's cart lines all belong to that user, have quantity ≥ 1 and name distinct games |
| Db.RowIndex | src/app/api/cart/route.ts:45-52 | finds the row with key (userId, gameId) or reports that none has it |
| Db.UserRows | src/app/api/cart/route.ts:23-24 | no contract; the user's rows in table order (`findMany({ where: { userId } })`); `Db.UserRowsReferenceGames` and `Placement.PlaceClearsCart` state its properties |
| Db.WithoutUser | src/app/api/checkout/route.ts:110-112 | no contract; the rows left after `deleteMany({ where: { userId } })`; `Placement.PlaceClearsCart` states that they are exactly the other users' rows |
| Db.Join | src/app/api/cart/route.ts:25-27 | no contract; each row paired with its game (`include: { game: true }`); `Db.GameOfUnique` states that the paired game is the stored one |
| Db.CartOf | src/app/api/cart/route.ts:23-28 | no contract; a user's rows joined with their games; `Db.CartOfDistinctGames` and `CartRoute.GetReturnsUserCart` state its properties |
| Db.Database.constructor | src/app/api/cart/route.ts:2 | the store the handlers share (`db` from `@/lib/db`) starts well formed, with the given accounts, no games, no cart rows, no orders and the clock at 0 |
| Types.TotalQuantityAtLeastLines | src/hooks/useCart.tsx:114 | with every quantity ≥ 1 the item count is at least the line count, and zero exactly for no lines |
| Types.TotalQuantity | src/hooks/useCart.tsx:114 | no contract; Σ quantity; `Types.TotalQuantityAtLeastLines` and `UseCart.RemoveLowersTotals` state its properties |
| Types.CartValue | src/hooks/useCart.tsx:115 | no contract; Σ game price × quantity; `Placement.OrderLinesValue` and `CartSidebar.LinesTotalIsCartValue` relate it to the order totals |
| Types.IsLowStock | src/components/GameCard.tsx:53 | no contract; `stock <= 5 && stock > 0`, the low-stock badge of the card and also, at src/app/admin/page.tsx:324-326, the admin table's "Low" badge; `GameCardView.StockBadgesExclusive` and `AdminPage.LowStockAlertsExactly` state its properties |
| Types.IsOutOfStock | src/components/GameCard.tsx:58 | no contract; `stock === 0`, the card's out-of-stock badge and also, at src/app/admin/page.tsx:327-329, the admin table's "Out" badge; `GameCardView.StockBadgesExclusive` states that it excludes low stock |
| Placement.OrderLinesValue | src/app/api/checkout/route.ts:91-99 | the order lines made from a cart are worth exactly the cart's value |
| Placement.OrderLines | src/app/api/checkout/route.ts:91-99 | no contract; the `createMany` data, one line per cart line at the game's current price; `Placement.OrderLinesValue` and `Placement.OrderLineIdsDistinct` state its properties |
| Placement.DecrementAll | src/app/api/checkout/route.ts:102-107 | no contract; the decrement loop over the cart lines; `Placement.DecrementAllAt` states its effect on each game |
| Placement.DecrementStock | src/app/api/checkout/route.ts:103-106 | no contract; `game.update({ where: { id }, data: { stock: { decrement: q } } })`, the same update as src/app/api/webhooks/stripe/route.ts:67-70; `Placement.DecrementAllAt` and `Placement.PlaceDecrementsStock` state its effect |
| Placement.NewOrder | src/app/api/checkout/route.ts:82-88 | no contract; the created order; `Placement.PlaceRecordsOrder` states its fields |
| Placement.Place | src/app/api/checkout/route.ts:82-112 | no contract; the whole placement as a function of the store; `Placement.PlaceWellFormed`, `PlaceRecordsOrder`, `PlaceDecrementsStock` and `PlaceClearsCart` state its properties |
| Placement.OrderLineIdsDistinct | src/app/api/checkout/route.ts:93 | the `orderId-gameId` line ids are distinct when the cart's games are |
| Placement.DecrementAllAt | src/app/api/checkout/route.ts:102-107 | after the decrement loop each game's stock is lowered by the cart quantity for it |
| Placement.QtyForDistinct | src/app/api/checkout/route.ts:102-107 | with distinct games, the quantity for a game is its line's quantity, or 0 when it has no line |
| Placement.PlaceWellFormed | src/app/api/checkout/route.ts:82-112 | placing an order keeps the store well formed |
| Placement.PlaceRecordsOrder | src/app/api/checkout/route.ts:74-99 | one new order is appended: fresh id, the user, the given status, total = cart value = Σ line price × quantity, one line per cart line at the game's price |
| Placement.PlaceDecrementsStock | src/app/api/checkout/route.ts:102-107 | every ordered game loses exactly its ordered quantity; every other game is unchanged |
| Placement.PlaceClearsCart | src/app/api/checkout/route.ts:110-112 | the user's cart becomes empty and every other user's cart is unchanged |
| Placement.PlaceOrder | src/app/api/checkout/route.ts:82-112 | the imperative placement produces exactly the order and store of `Place` |
| CheckoutRoute.FirstShortage | src/app/api/checkout/route.ts:47-54 | none exactly when every line fits its stock; otherwise the first line whose quantity exceeds its stock |
| CheckoutRoute.FindShortage | src/app/api/checkout/route.ts:47-54 | the validation loop returns the first short line |
| CheckoutRoute.ShortageMessage | src/app/api/checkout/route.ts:50 | no contract; `Insufficient stock for <title>. Available: <stock>`; `CheckoutRoute.StockDecidesCheckout` states when it is sent |
| CheckoutRoute.SuccessUrl | src/app/api/checkout/route.ts:118 | no contract; `<base>/checkout/success?session_id=sim_<order id>`; `CheckoutRoute.CheckoutRecordsPaidOrder` states that it carries the new order's id |
| CheckoutRoute.Checkout | src/app/api/checkout/route.ts:7-127 | 401 exactly when there is no session email; any answer other than 200 leaves the store unchanged; the store stays well formed |
| CheckoutRoute.UnknownUserRefused | src/app/api/checkout/route.ts:24-29 | an email with no account gets 404 "User not found" and nothing changes |
| CheckoutRoute.EmptyCartRefused | src/app/api/checkout/route.ts:39-44 | an empty cart gets 400 "Cart is empty" and nothing changes |
| CheckoutRoute.StockDecidesCheckout | src/app/api/checkout/route.ts:47-54 | a non-empty cart succeeds exactly when every line fits its stock; otherwise the answer is 400 with the message for the first short line |
| CheckoutRoute.CheckoutRecordsPaidOrder | src/app/api/checkout/route.ts:74-119 | on success one paid order with the cart's total and lines is appended, and the answer is the success URL with that order id |
| CheckoutRoute.CheckoutKeepsStockNonNegative | src/app/api/checkout/route.ts:102-107 | on success each ordered game's new stock is its old stock minus its quantity, which is ≥ 0 |
| CheckoutRoute.CheckoutClearsOnlyThatCart | src/app/api/checkout/route.ts:110-112 | on success the buyer's cart is empty and no other cart changes |
| CheckoutRoute.Post | src/app/api/checkout/route.ts:7-127 | the handler's response and new store are those of `Checkout` |
| StripeWebhookRoute.HandleEvent | src/app/api/webhooks/stripe/route.ts:7-86 | an unverified payload gets 400; the store changes only for a verified completed-checkout event answered 200 |
| StripeWebhookRoute.BadSignatureRefused | src/app/api/webhooks/stripe/route.ts:15-20 | a failed signature check gets 400 "Webhook error" and nothing changes |
| StripeWebhookRoute.OtherEventsIgnored | src/app/api/webhooks/stripe/route.ts:22-81 | any other event type is acknowledged with 200 and changes nothing |
| StripeWebhookRoute.MissingUserRefused | src/app/api/webhooks/stripe/route.ts:25-29 | a completed checkout without a user id in its metadata gets 400 "No userId" and nothing changes |
| StripeWebhookRoute.EmptyCartRefused | src/app/api/webhooks/stripe/route.ts:37-40 | a completed checkout for a user with an empty cart gets 400 "Cart is empty" and nothing changes |
| StripeWebhookRoute.CompletedCheckoutPlacesOrder | src/app/api/webhooks/stripe/route.ts:25-76 | a completed checkout is answered 200 exactly when the metadata names a user whose cart is non-empty; then a paid order of the cart is appended, each ordered game's stock drops by its quantity and every other game is unchanged, the user's cart is cleared and every other user's cart is unchanged |
| StripeWebhookRoute.WebhookCanOversell | src/app/api/webhooks/stripe/route.ts:66-71 | a completed checkout can drive a stock below zero |
| StripeWebhookRoute.Post | src/app/api/webhooks/stripe/route.ts:7-86 | the handler's response and new store are those of `HandleEvent` |
| CartRoute.ParseCartItem | src/app/api/cart/route.ts:5-9 | a body is accepted exactly when userId and gameId are strings and quantity is an integer ≥ 1 (the helper `CartRoute.IsInteger` is zod's `.int()`), and the row keeps those values |
| CartRoute.RowIndexUnique | src/app/api/cart/route.ts:45-52 | with unique keys, looking up a row's own key finds that row |
| CartRoute.QuantityOfRow | src/app/api/cart/route.ts:45-52 | with unique keys, the quantity for a row's key is that row's quantity |
| CartRoute.QuantityOf | src/app/api/cart/route.ts:45-64 | no contract; the quantity stored under a (user, game) key, 0 when there is no row; `CartRoute.AddSumsQuantity` and `CartRoute.RemoveDropsLine` state how the routes change it |
| CartRoute.Joined | src/app/api/cart/route.ts:66-75 | no contract; a row with its game (`include: { game: true }`); `CartRoute.AddAnswersWithLine` states that the 201 answer is this line |
| CartRoute.Get | src/app/api/cart/route.ts:11-38 | 400 exactly when userId is missing or empty; otherwise 200 with that user's cart joined with its games |
| CartRoute.GetReturnsUserCart | src/app/api/cart/route.ts:23-30 | the lines returned are exactly the user's cart rows, with their games |
| CartRoute.Add | src/app/api/cart/route.ts:40-93 | for a decoded JSON body, 400 exactly when `cartItemSchema` fails; any answer other than 201 leaves the store unchanged; games, orders and users never change |
| CartRoute.UpdatedQuantities | src/app/api/cart/route.ts:55-69 | updating one row's quantity changes the quantity of that key only |
| CartRoute.AppendedQuantities | src/app/api/cart/route.ts:70-76 | appending a row for a new key gives that key the row's quantity and leaves all others |
| CartRoute.AddSumsQuantity | src/app/api/cart/route.ts:45-77 | on 201 the key's quantity becomes old quantity + requested quantity (0 + quantity for a new row) and every other key is unchanged |
| CartRoute.AddAnswersWithLine | src/app/api/cart/route.ts:66-79 | the 201 answer is the updated line with its game |
| CartRoute.AddFailsOnlyForUnknownGame | src/app/api/cart/route.ts:88-91 | a valid body gets 500 "Failed to add to cart" exactly when the game does not exist |
| CartRoute.Post | src/app/api/cart/route.ts:40-93 | the handler's response and new store are those of `Add` |
| CartRoute.Remove | src/app/api/cart/route.ts:95-125 | 400 exactly when userId or gameId is missing or empty; any answer other than 200 leaves the store unchanged |
| CartRoute.RemovedQuantities | src/app/api/cart/route.ts:108-115 | cutting out one row sets that key's quantity to 0 and leaves every other key's quantity |
| CartRoute.RemoveDropsLine | src/app/api/cart/route.ts:108-123 | with both ids given, the answer is 200 exactly when the row exists, and a missing row gets 500 "Failed to remove from cart" with nothing changed; on 200 that key's quantity drops to 0 and every other key keeps its quantity |
| CartRoute.Delete | src/app/api/cart/route.ts:95-125 | the handler's response and new store are those of `Remove` |
| OrdersRoute.ParseOrder | src/app/api/orders/route.ts:5-12 | a body is accepted exactly when userId is a string and every line has a string game id, an integer quantity ≥ 1 and a positive price (the per-line test is `OrdersRoute.LineValid`, its decoding `OrdersRoute.ParseLine`) |
| OrdersRoute.OrderItems | src/app/api/orders/route.ts:63-69 | one order line per request line |
| OrdersRoute.LinesTotal | src/app/api/orders/route.ts:53-56 | no contract; Σ price × quantity over the request lines; `OrdersRoute.OrderTotalMatchesItems` and `CartSidebar.LinesTotalIsCartValue` state its properties |
| OrdersRoute.WithoutOrdered | src/app/api/orders/route.ts:80-87 | no contract; the cart after `deleteMany({ userId, gameId: { in } })`; `OrdersRoute.CreateOrderClearsOrderedLines` states which rows survive |
| OrdersRoute.UserOrders | src/app/api/orders/route.ts:26-27 | no contract; the user's orders in creation order; `OrdersRoute.GetListsUserOrdersNewestFirst` states what the answer lists |
| OrdersRoute.OrderTotalMatchesItems | src/app/api/orders/route.ts:53-69 | the recorded total equals Σ price × quantity over the recorded lines |
| OrdersRoute.ItemsValueByFields | src/app/api/orders/route.ts:53-56 | the value of a list of lines depends only on their prices and quantities |
| OrdersRoute.GameIds | src/app/api/orders/route.ts:84 | the list of requested game ids, in order |
| OrdersRoute.WithoutOrderedWellFormed | src/app/api/orders/route.ts:80-87 | deleting the ordered lines keeps the cart well formed |
| OrdersRoute.CreateOrder | src/app/api/orders/route.ts:48-103 | for a decoded JSON body, 400 exactly when `createOrderSchema` fails; any answer other than 201 leaves the store unchanged; games and users never change |
| OrdersRoute.CreateOrderRecordsPending | src/app/api/orders/route.ts:58-89 | a valid body is answered 201 exactly when every ordered game exists; then one pending order with the request's lines, at the request's prices, and their total is appended and returned |
| OrdersRoute.CreateOrderClearsOrderedLines | src/app/api/orders/route.ts:80-87 | a cart row survives exactly when it belongs to another user or names a game not in the order |
| OrdersRoute.Post | src/app/api/orders/route.ts:48-103 | the handler's response and new store are those of `CreateOrder` |
| OrdersRoute.Get | src/app/api/orders/route.ts:14-46 | 400 exactly when userId is missing or empty; otherwise 200 with the user's orders newest first |
| OrdersRoute.GetListsUserOrdersNewestFirst | src/app/api/orders/route.ts:26-36 | the list holds exactly the user's orders, in strictly decreasing creation time |
| GamesRoute.NewGame | src/app/api/games/route.ts:5-15 | the created game has a fresh id, the validated fields, stock defaulting to 0, the rating only when given, and a release date only for a non-empty string |
| GamesRoute.Valid | src/app/api/games/route.ts:5-15 | no contract; `gameSchema`: non-empty title, description, genre and platform, a positive price, a rating in 0..5 when given, an integer stock ≥ 0 when given (`GamesRoute.NonEmpty` is `z.string().min(1)`); `GamesRoute.CreateGame` states that it decides the 400 |
| GamesRoute.CreateGame | src/app/api/games/route.ts:32-58 | for a decoded JSON body, 400 "Invalid data" exactly when `gameSchema` fails, leaving the store unchanged |
| GamesRoute.CreateGameAppends | src/app/api/games/route.ts:37-44 | a valid body appends one game with an id no stored game has, answers 201 with it, and changes nothing else |
| GamesRoute.Get | src/app/api/games/route.ts:17-30 | 200 with the catalogue newest first |
| GamesRoute.GetNewestFirst | src/app/api/games/route.ts:19-21 | the list holds exactly the stored games in decreasing creation time, and a game just created comes first |
| GamesRoute.Post | src/app/api/games/route.ts:32-58 | the handler's response and new store are those of `CreateGame` |
| UseCart.CartContext.constructor | src/hooks/useCart.tsx:22-25 | the cart starts empty and closed, for the user `demo-user` |
| UseCart.CartContext.TotalItems | src/hooks/useCart.tsx:114 | the item count is at least the line count and zero exactly for an empty cart |
| UseCart.CartContext.FetchCart | src/hooks/useCart.tsx:31-41 | the local list becomes the server's cart for the user |
| UseCart.CartContext.AddToCart | src/hooks/useCart.tsx:43-63 | the store changes as the add route says; on an OK answer the list is reloaded, otherwise kept |
| UseCart.CartContext.RemoveFromCart | src/hooks/useCart.tsx:65-77 | the store changes as the remove route says; on OK the line is dropped locally, otherwise kept |
| UseCart.CartContext.UpdateQuantity | src/hooks/useCart.tsx:79-104 | a quantity ≤ 0 removes the line; a positive quantity is sent to the add route (added, not set) and the list reloaded on OK |
| UseCart.CartContext.SetQuantity | src/hooks/useCart.tsx:79-104 | corrected update: a positive quantity replaces the line's quantity; ≤ 0 removes it |
| UseCart.CartContext.ClearCart | src/hooks/useCart.tsx:106-108 | the local list becomes empty; the store is not touched |
| UseCart.CartContext.OpenCart | src/hooks/useCart.tsx:110 | the sidebar opens and the list is unchanged |
| UseCart.CartContext.CloseCart | src/hooks/useCart.tsx:111 | the sidebar closes and the list is unchanged |
| UseCart.CartContext.ToggleCart | src/hooks/useCart.tsx:112 | the sidebar flag flips and the list is unchanged |
| UseCart.WithoutGameValid | src/hooks/useCart.tsx:72 | dropping a game's line keeps the list valid and removes every line for that game |
| UseCart.WithoutGame | src/hooks/useCart.tsx:72 | no contract; `items.filter(item => item.gameId !== gameId)`; `UseCart.WithoutGameValid` and `UseCart.RemoveLowersTotals` state its properties |
| UseCart.AddBody | src/hooks/useCart.tsx:50-54 | no contract; the POST body `{ userId, gameId, quantity }`, also sent by `updateQuantity` at src/hooks/useCart.tsx:91-95; `UseCart.UpdateQuantityAdds` and `UseCart.MinusRaisesQuantity` state what the add route does with it |
| UseCart.CartContext.TotalPrice | src/hooks/useCart.tsx:115 | no contract; `totalPrice`, Σ game price × quantity over the items; `CartSidebar.LinesTotalIsCartValue` relates it to the checkout total and `UseCart.RemoveLowersTotals` to removal |
| UseCart.RemoveLowersTotals | src/hooks/useCart.tsx:114-115 | removing a line lowers the item count by its quantity and the total price by its value |
| UseCart.UpdateQuantityAdds | src/hooks/useCart.tsx:85-96 | posting quantity n through updateQuantity raises the line's quantity by n |
| UseCart.MinusRaisesQuantity | src/components/CartSidebar.tsx:116 | pressing minus on a line of quantity q ≥ 2 leaves it at 2q − 1, more than before |
| UseCart.SetTables | src/hooks/useCart.tsx:79-104 | the corrected update keeps the store well formed |
| UseCart.SetQuantityLands | src/hooks/useCart.tsx:79-104 | with the corrected update the line's quantity becomes exactly n and every other key keeps its quantity |
| UseCart.UseCart | src/hooks/useCart.tsx:138-143 | outside a provider the hook fails with "useCart must be used within a CartProvider"; inside it returns the context |
| HomePage.FilterGamesIsOneFilter | src/app/page.tsx:43-58 | the search step followed by the category step is one filter by "matches the search and the category" |
| HomePage.SearchStep | src/app/page.tsx:46-51 | no contract; with a non-empty term, keep the games whose lowered title or description includes the lowered term; `HomePage.FilterGamesMembership` states its effect |
| HomePage.MatchesSearch | src/app/page.tsx:47-50 | no contract; the lowered title or the lowered description includes the lowered term; `HomePage.SearchIgnoresCase` and `HomePage.FilterGamesMembership` state its properties |
| HomePage.CategoryStep | src/app/page.tsx:53-55 | no contract; unless the category is `all`, keep the games of that genre; `HomePage.FilterGamesMembership` states its effect |
| HomePage.FilterGames | src/app/page.tsx:43-58 | no contract; the search step, then the category step; `HomePage.FilterGamesIsOneFilter`, `FilterGamesMembership` and `FilterGamesOrderedAndIdempotent` state its properties |
| HomePage.FilterGamesMembership | src/app/page.tsx:43-58 | a game is shown exactly when it is in the catalogue, matches the term in title or description (case-insensitively) or the term is empty, and has the category or the category is `all` |
| HomePage.EmptyFilterKeepsAll | src/app/page.tsx:46-55 | with no term and category `all` every game is shown |
| HomePage.FilterGamesOrderedAndIdempotent | src/app/page.tsx:43-58 | the shown games keep catalogue order, and filtering again changes nothing |
| HomePage.SearchIgnoresCase | src/app/page.tsx:47-50 | a term and its lower-case form match the same games |
| Strings.ToLower | src/app/page.tsx:48 | same length, no upper-case ASCII letter left, every other character kept |
| Strings.ToLowerIdempotent | src/app/page.tsx:48 | lowering twice equals lowering once |
| Strings.Includes | src/app/page.tsx:48-49 | true exactly when the term occurs at some position |
| Strings.TakeLast | src/app/orders/page.tsx:135 | the last k characters, or the whole string when it is shorter |
| Strings.NatToStringRoundTrip | src/components/CartButton.tsx:22 | the decimal text of n reads back as n |
| GameCardView.StockBadgesExclusive | src/components/GameCard.tsx:53-64 | low stock means 1..5, out of stock means 0, never both; a negative stock shows no badge and leaves Add enabled |
| GameCardView.MinusDisabled | src/components/GameCard.tsx:99 | no contract; `quantity <= 1`; `GameCardView.EnabledStepsMoveByOne` states what an enabled minus does |
| GameCardView.PlusDisabled | src/components/GameCard.tsx:111 | no contract; `quantity >= game.stock`; `GameCardView.EnabledStepsMoveByOne` states what an enabled plus does |
| GameCardView.AddToCartDisabled | src/components/GameCard.tsx:122 | no contract; `game.stock === 0`; `GameCardView.StockBadgesExclusive` states that it holds exactly at stock 0 |
| GameCardView.StepDown | src/components/GameCard.tsx:98 | no contract; `Math.max(1, quantity - 1)`; `GameCardView.EnabledStepsMoveByOne` states its properties |
| GameCardView.StepUp | src/components/GameCard.tsx:110 | no contract; `Math.min(game.stock, quantity + 1)`; `GameCardView.EnabledStepsMoveByOne` states its properties |
| GameCardView.EnabledStepsMoveByOne | src/components/GameCard.tsx:98-111 | an enabled minus lowers the quantity by one and not below 1; an enabled plus raises it by one and not above the stock |
| GameCardView.GameCard.constructor | src/components/GameCard.tsx:15 | the selector starts at quantity 1 |
| GameCardView.GameCard.ClickMinus | src/components/GameCard.tsx:98-99 | a disabled minus changes nothing, otherwise `max(1, q − 1)` |
| GameCardView.GameCard.ClickPlus | src/components/GameCard.tsx:110-111 | a disabled plus changes nothing, otherwise `min(stock, q + 1)` |
| GameCardView.GameCard.HandleAddToCart | src/components/GameCard.tsx:18-21 | an out-of-stock card sends nothing; otherwise the chosen quantity goes to the add route and the cart reloads on OK (kept otherwise); the drawer flag is unchanged; the selector resets to 1 |
| CartSidebar.EmptyOrFooter | src/components/CartSidebar.tsx:89-156 | either the empty message or the footer is shown, never both; the badge count is 0 exactly when the message shows |
| CartSidebar.ShowsEmptyMessage | src/components/CartSidebar.tsx:89 | no contract; `items.length === 0`; `CartSidebar.EmptyOrFooter` states that it excludes the footer and holds exactly for a zero count |
| CartSidebar.ShowsFooter | src/components/CartSidebar.tsx:156 | no contract; `items.length > 0`; `CartSidebar.EmptyOrFooter` states that it shows exactly when the empty message does not |
| CartSidebar.CheckoutPayload | src/components/CartSidebar.tsx:28-35 | the payload is for `demo-user` with one line per cart line |
| CartSidebar.PayloadMatchesCart | src/components/CartSidebar.tsx:28-35 | the orders route accepts the payload of a valid cart, and its lines carry each cart line's game, quantity and price |
| CartSidebar.LinesTotalIsCartValue | src/components/CartSidebar.tsx:28-35 | the order total computed from the payload equals the cart's total price |
| CartSidebar.HandleCheckout | src/components/CartSidebar.tsx:21-49 | the order is created as the orders route says; on OK the cart is cleared and closed, otherwise it is kept |
| CartSidebar.ClickMinus | src/components/CartSidebar.tsx:116 | minus calls updateQuantity with quantity − 1: at quantity 1 the line is removed and dropped locally on OK; otherwise a POST to the add route and a reload on OK; the drawer flag is unchanged |
| CartSidebar.ClickPlus | src/components/CartSidebar.tsx:127 | plus calls updateQuantity with quantity + 1: a POST to the add route, and a reload on OK (kept otherwise); the drawer flag is unchanged |
| HeroBannerView.StepsInverse | src/components/HeroBanner.tsx:158-166 | next and previous stay among the three slides and undo each other |
| HeroBannerView.NextSlide | src/components/HeroBanner.tsx:45 | no contract; `(prev + 1) % 3`; `HeroBannerView.StepsInverse` and `ThreeTicksCycle` state its properties |
| HeroBannerView.PrevSlide | src/components/HeroBanner.tsx:158 | no contract; `(prev - 1 + 3) % 3`; `HeroBannerView.StepsInverse` states that it undoes `NextSlide` |
| HeroBannerView.QuickBuyGame | src/components/HeroBanner.tsx:53-67 | no contract; the game object built from the featured entry; `HeroBannerView.QuickBuyRejected` states what the add route does with its id |
| HeroBannerView.ThreeTicksCycle | src/components/HeroBanner.tsx:43-48 | three timer ticks return to the same slide |
| HeroBannerView.FeaturedIdsNotInCatalogue | src/components/HeroBanner.tsx:13-41 | with ids issued as `FreshId`, the featured ids `1`, `2`, `3` are never ids of stored games |
| HeroBannerView.QuickBuyRejected | src/components/HeroBanner.tsx:52-70 | Quick Buy's add request is answered 500 and leaves the store unchanged |
| HeroBannerView.HeroBanner.constructor | src/components/HeroBanner.tsx:10 | the banner starts at slide 0 |
| HeroBannerView.HeroBanner.Tick | src/components/HeroBanner.tsx:44-46 | the timer moves to the next slide, wrapping around |
| HeroBannerView.HeroBanner.ClickNext | src/components/HeroBanner.tsx:166 | moves to the next slide, wrapping around |
| HeroBannerView.HeroBanner.ClickPrev | src/components/HeroBanner.tsx:158 | moves to the previous slide, wrapping around |
| HeroBannerView.HeroBanner.ClickIndicator | src/components/HeroBanner.tsx:146 | jumps to the chosen slide |
| HeroBannerView.HeroBanner.QuickBuy | src/components/HeroBanner.tsx:52-70 | the add request goes to the add route, which refuses it, so the store and the cart items stay as they were; the sidebar flag flips |
| AdminPage.LowStockAlertsExactly | src/app/admin/page.tsx:48 | the alerts are exactly the games with stock 1..5, in catalogue order, none out of stock |
| AdminPage.LowStockAlerts | src/app/admin/page.tsx:48 | no contract; the games with low stock, in order; `AdminPage.LowStockAlertsExactly` states exactly which games it holds |
| AdminPage.PriceText | src/app/admin/page.tsx:94 | no contract; `price.toString()` for a price in cents; `AdminPage.PriceTextRoundTrip` states that `PriceCents` reads it back |
| AdminPage.PriceCents | src/app/admin/page.tsx:63 | no contract; reads a price text back in cents: digits, then optionally a point and one or two digits, and `None` for any other text (it covers the texts `PriceText` writes, not every text `parseFloat` reads, such as `" 5"`, `"5abc"` or `".5"`); `AdminPage.PriceTextRoundTrip` states that it inverts `PriceText` |
| AdminPage.OrEmpty | src/app/admin/page.tsx:99-102 | a missing field becomes the empty string, a present one is kept |
| AdminPage.PriceTextRoundTrip | src/app/admin/page.tsx:94 | the price text written into the form reads back as the same number of cents |
| AdminPage.EditForm | src/app/admin/page.tsx:89-106 | the edit form carries the game's fields, stock as decimal text and missing extras as "" |
| AdminPage.EditFormKeepsPrice | src/app/admin/page.tsx:94 | the form's price text denotes the game's price |
| AdminPage.SubmitRequest | src/app/admin/page.tsx:68-69 | PUT to `/api/games/<id>` exactly when editing, otherwise POST to `/api/games` |
| AdminPage.Admin.constructor | src/app/admin/page.tsx:17-35 | the page starts loading with no games, a closed dialog and an empty form |
| AdminPage.Admin.FetchGames | src/app/admin/page.tsx:41-56 | the list becomes the catalogue, the alerts follow it, loading ends |
| AdminPage.Admin.HandleEdit | src/app/admin/page.tsx:89-106 | the game is being edited, the form is filled from it, the image is cleared and the dialog opens |
| AdminPage.Admin.ResetForm | src/app/admin/page.tsx:124-140 | the form is emptied and editing ends |
| AdminPage.Admin.HandleSubmit | src/app/admin/page.tsx:58-87 | the request is PUT or POST as `SubmitRequest` says; on OK the list reloads, the dialog closes and the form resets, otherwise nothing changes |
| AdminPage.Admin.HandleDelete | src/app/admin/page.tsx:108-122 | a request is sent exactly when confirmed; on OK the list reloads |
| OrdersPage.StatusIconsDistinct | src/app/orders/page.tsx:54-67 | the four fulfilment statuses get four different icons; every other status, `paid` included, gets the default clock |
| OrdersPage.StatusIconFor | src/app/orders/page.tsx:54-67 | no contract; `getStatusIcon`; `OrdersPage.StatusIconsDistinct` states its properties |
| OrdersPage.OrderLabel | src/app/orders/page.tsx:135 | no contract; `Order #` and the id's last eight characters; `OrdersPage.OrderLabelSuffix` states its properties |
| OrdersPage.ItemsLabel | src/app/orders/page.tsx:173 | no contract; `<n> item` with `s` unless n is 1; `OrdersPage.ItemsLabelPlural` states its properties |
| OrdersPage.ShowsEmptyState | src/app/orders/page.tsx:115 | no contract; `orders.length === 0`; `OrdersPage.PageAsWrittenShowsNoOrders` states when it shows |
| OrdersPage.Page.Fetch | src/app/orders/page.tsx:40-52 | the request for the given user id, if any: the orders become what it yields on OK and stay otherwise, and loading ends |
| OrdersPage.FetchedOrders | src/app/orders/page.tsx:40-52 | no contract; the list after `fetchOrders`: the answer's orders when it is OK, otherwise the list as it was; `OrdersPage.PageAsWrittenShowsNoOrders` and `OrdersPage.PageWithUserListsOrders` state what it yields |
| OrdersPage.StatusBadgeFor | src/app/orders/page.tsx:69-82 | a known status gets its listed variant, any other `secondary` |
| OrdersPage.StatusBadges | src/app/orders/page.tsx:69-82 | `outline` exactly for shipped, `default` for processing and delivered, `secondary` otherwise, never `destructive` |
| OrdersPage.OrderLabelSuffix | src/app/orders/page.tsx:135 | the label is "Order #" followed by the last eight characters of the id (all of it when shorter) |
| OrdersPage.ItemsLabelPlural | src/app/orders/page.tsx:173 | the label ends in "s" exactly when the count is not 1 |
| OrdersPage.SubtotalsAddUpToTotal | src/app/orders/page.tsx:164 | the shown line subtotals of a stored order add up to its total |
| OrdersPage.SubtotalsAreItemsValue | src/app/orders/page.tsx:164 | the sum of line subtotals is the value of the lines |
| OrdersPage.LineSubtotal | src/app/orders/page.tsx:164 | no contract; `item.price * item.quantity`; `OrdersPage.SubtotalsAreItemsValue` and `OrdersPage.SubtotalsAddUpToTotal` state that the subtotals add up to the order's total |
| OrdersPage.PageAsWrittenShowsNoOrders | src/app/orders/page.tsx:40-52 | as written the request carries no userId, gets 400, and the page shows the empty state although the user has orders |
| OrdersPage.PageWithUserListsOrders | src/app/orders/page.tsx:40-52 | with the user's id the page lists exactly that user's orders, newest first |
| OrdersPage.Page.constructor | src/app/orders/page.tsx:31-32 | the page starts loading with no orders |
| OrdersPage.Page.FetchOrders | src/app/orders/page.tsx:40-52 | as written: the orders become what a request without userId yields, and loading ends |
| OrdersPage.Page.FetchOrdersFor | src/app/orders/page.tsx:40-52 | corrected: the orders become the user's orders, and loading ends |
| CartButton.BadgeTextCapped | src/components/CartButton.tsx:22 | the badge reads "99+" exactly above 99, otherwise the decimal count |
| CartButton.BadgeText | src/components/CartButton.tsx:22 | no contract; `totalItems > 99 ? '99+' : totalItems`; `CartButton.BadgeTextCapped` states its properties |
| CartButton.BadgeVisible | src/components/CartButton.tsx:17 | no contract; `totalItems > 0`; `CartButton.BadgeShownForNonEmptyCart` states when it holds |
| CartButton.BadgeShownForNonEmptyCart | src/components/CartButton.tsx:17 | over a cart whose quantities are all ≥ 1, the badge shows exactly when the cart has a line |
| CartButton.Click | src/components/CartButton.tsx:13 | a click toggles the sidebar and leaves the items unchanged |

## Left out

- Persistence, Prisma and concurrency: the store is one in-memory value. The checkout and webhook read and write without a transaction; the model runs each request to completion, one at a time.
- Ids: every game id is assumed to come from the creation counter (`FreshId`). The database's own id default is not part of this model, and no id is changed after creation, although the PUT of `src/app/api/games/[id]/route.ts` passes the request body to `game.update` and could set one.
- Row order: `cartItem.findMany` has no `orderBy`, so the database's order of a user's cart rows is unspecified. The model returns them in insertion order. That order decides which short line the checkout's 400 message names (`CheckoutRoute.StockDecidesCheckout`).
- Request bodies: the routes' bodies are taken as already-decoded JSON (`CartItemBody`, `OrderBody`, `GameBody`). A body that `request.json()` cannot decode throws a `SyntaxError`, which is not a `ZodError`, so it gets the catch-all 500 of src/app/api/cart/route.ts:88-91, src/app/api/orders/route.ts:98-101 or src/app/api/games/route.ts:53-56; that answer is not modelled.
- Catch-all failures: the `catch` branches that answer 500 for a failing database (for example "Failed to fetch cart" or "Internal server error") are not modelled, because the modelled store cannot fail. The 500 answers that come from a missing row or an unknown game are modelled. Quantities and stock are unbounded integers: the sum at `src/app/api/cart/route.ts:64` has no upper bound from zod, and a column-width overflow there would end in that catch-all 500, which is not modelled.
- Authentication: the session is an optional email parameter of `CheckoutRoute.Checkout`. NextAuth is not part of this model.
- Stripe: signature verification is an input, `Option<Event>`. `None` stands for a payload whose signature does not verify. The metadata user id is an optional string.
- The unused Stripe line items with `Math.round(price * 100)` in the checkout route are not modelled; nothing reads them.
- Floating point: prices and totals are integer cents. `toFixed(2)` display, `parseFloat`/`parseInt` in the admin form, and star rendering `Math.floor(rating)` are left out. The orders route's price is an integer number of cents, so "positive" means at least 1 cent.
- The zod `url()` check on `imageUrl` and `new Date(releaseDate)` parsing: an image URL is any string, and a release date is kept as its text.
- Validation error details (`details: error.errors`) in 400 answers are not modelled; only the status and the message are.
- Order-item ids on the orders route are generated by the database. The model uses `orderId-<index>`. The response join of each order line with its game (`include: { items: { include: { game } } }`) is left out; an order carries its lines only.
- The user foreign key of cart rows and orders is not modelled, because the database schema for it is not part of this model. The game foreign key is modelled: a cart row or order line naming an unknown game is refused with the route's 500.
- `/api/games/[id]` (PUT, DELETE) is not part of this model. The admin page's `HandleSubmit` and `HandleDelete` take that route's answer as a parameter.
- Network failure of `fetch` and `alert`/`confirm` dialogs: every request reaches its handler. The confirmation answer is a parameter of `AdminPage.Admin.HandleDelete`.
- The banner's 5-second timer: only its tick (`HeroBannerView.HeroBanner.Tick`) is modelled, not time.
- Rendering (JSX, class names, images), the static category list and the loading flag of the home page.
- `AdminPage.Admin.HandleSubmit`: the form's text fields are not converted back into a game body, because the PUT/POST handlers it reaches are inputs here.
- `OrdersPage.StatusBadgeFor`: JavaScript object keys inherited from the prototype (a status such as `constructor`) are not modelled; every unlisted status gets `secondary`.
- `Strings.ToLower`: lowers ASCII letters only. JavaScript's full Unicode case mapping is not modelled.

## Findings

| source | as written | input that shows it | evidently intended | confidence | as-written member | corrected member |
|---|---|---|---|---|---|---|
| src/hooks/useCart.tsx:85-96 | `updateQuantity(gameId, q)` POSTs `q` to `/api/cart`, whose POST adds `q` to the line's quantity (src/app/api/cart/route.ts:64); the sidebar's minus and plus call it with `quantity ∓ 1` | a line of quantity 3; pressing minus sends 2 and the line becomes 5 | the line's quantity becomes `q` | not executed | UseCart.MinusRaisesQuantity | UseCart.SetQuantityLands |
| src/app/orders/page.tsx:42 | `fetch('/api/orders')` sends no `userId`, and the route answers 400 "User ID is required" (src/app/api/orders/route.ts:19-24), so the page never leaves the empty state | a signed-in user with one stored order opens the orders page and sees "No orders yet" | the request carries the signed-in user's id and the page lists that user's orders | not executed | OrdersPage.PageAsWrittenShowsNoOrders | OrdersPage.PageWithUserListsOrders |
