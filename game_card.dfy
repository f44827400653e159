/** A catalogue card: its quantity stepper, Add to Cart, and the stock badges. */
module GameCardView {
  import opened Types
  import opened Db
  import UseCart
  import CartRoute

  predicate MinusDisabled(quantity: int) { quantity <= 1 }

  predicate PlusDisabled(quantity: int, stock: int) { quantity >= stock }

  predicate AddToCartDisabled(stock: int) { IsOutOfStock(stock) }

  /** `Math.max(1, q - 1)`. */
  function StepDown(q: int): int { if q - 1 > 1 then q - 1 else 1 }

  /** `Math.min(stock, q + 1)`. */
  function StepUp(q: int, stock: int): int { if stock < q + 1 then stock else q + 1 }

  /** "Only N left" and "Out of Stock" never show together; neither shows for a negative stock, where Add to
      Cart stays enabled. */
  lemma StockBadgesExclusive(stock: int)
    ensures !(IsLowStock(stock) && IsOutOfStock(stock))
    ensures IsLowStock(stock) <==> 1 <= stock <= 5
    ensures AddToCartDisabled(stock) <==> stock == 0
    ensures stock < 0 ==> !IsLowStock(stock) && !IsOutOfStock(stock) && !AddToCartDisabled(stock)
  {
  }

  /** A click on an enabled button moves the quantity by exactly one, within [1, stock]. */
  lemma EnabledStepsMoveByOne(q: int, stock: int)
    ensures !MinusDisabled(q) ==> StepDown(q) == q - 1 && StepDown(q) >= 1
    ensures !PlusDisabled(q, stock) ==> StepUp(q, stock) == q + 1 && StepUp(q, stock) <= stock
  {
  }

  class GameCard {
    const game: Game
    var quantity: int

    /** The quantity never drops below 1 and exceeds the stock only while it is the initial 1. */
    ghost predicate Valid()
      reads this
    {
      1 <= quantity && (quantity <= game.stock || quantity == 1)
    }

    /** `useState(1)`. */
    constructor (g: Game)
      ensures Valid() && game == g && quantity == 1
    {
      game := g;
      quantity := 1;
    }

    /** The minus button: disabled at 1, otherwise `Math.max(1, quantity - 1)`. */
    method ClickMinus()
      requires Valid()
      modifies this
      ensures Valid()
      ensures quantity == if MinusDisabled(old(quantity)) then old(quantity) else StepDown(old(quantity))
    {
      if !MinusDisabled(quantity) {
        quantity := StepDown(quantity);
      }
    }

    /** The plus button: disabled at the stock, otherwise `Math.min(stock, quantity + 1)`. */
    method ClickPlus()
      requires Valid()
      modifies this
      ensures Valid()
      ensures quantity == if PlusDisabled(old(quantity), game.stock) then old(quantity) else StepUp(old(quantity), game.stock)
    {
      if !PlusDisabled(quantity, game.stock) {
        quantity := StepUp(quantity, game.stock);
      }
    }

    /** `handleAddToCart`: add the chosen quantity to the cart, then reset the stepper to 1. The button is
        disabled when the game is out of stock. */
    method HandleAddToCart(cart: UseCart.CartContext, db: Database)
      requires Valid() && cart.Valid() && db.Valid()
      modifies this, cart, db
      ensures Valid() && cart.Valid() && db.Valid() && quantity == 1
      ensures AddToCartDisabled(game.stock) ==> db.Snapshot() == old(db.Snapshot()) && cart.items == old(cart.items)
      ensures !AddToCartDisabled(game.stock) ==>
                && db.Snapshot() == CartRoute.Add(old(db.Snapshot()), UseCart.AddBody(cart.userId, game.id, old(quantity))).tables
                && cart.items == if CartRoute.Add(old(db.Snapshot()), UseCart.AddBody(cart.userId, game.id, old(quantity))).response.Ok()
                                 then CartOf(db.Snapshot(), cart.userId) else old(cart.items)
      ensures cart.isCartOpen == old(cart.isCartOpen)
    {
      if AddToCartDisabled(game.stock) {
        return;
      }
      cart.AddToCart(db, game, quantity);
      quantity := 1;
    }
  }
}
