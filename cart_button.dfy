/** The floating cart button: a count badge over `totalItems`, capped at "99+", and a click that toggles the
    cart drawer. */
module CartButton {
  import Strings
  import Types
  import UseCart

  /** `totalItems > 0 && <Badge …>`. */
  predicate BadgeVisible(totalItems: int) { totalItems > 0 }

  /** Over a cart as the server returns it (every quantity at least 1), the badge is shown exactly when
      the cart has a line. */
  lemma BadgeShownForNonEmptyCart(items: seq<Types.CartItem>)
    requires Types.QuantitiesPositive(items)
    ensures BadgeVisible(Types.TotalQuantity(items)) <==> items != []
  {
    Types.TotalQuantityAtLeastLines(items);
  }

  /** `totalItems > 99 ? '99+' : totalItems`. */
  function BadgeText(totalItems: int): string
  {
    if totalItems > 99 then "99+" else Strings.IntToString(totalItems)
  }

  /** The badge reads "99+" exactly above 99, and otherwise the exact count in decimal. */
  lemma BadgeTextCapped(n: int)
    ensures BadgeText(n) == "99+" <==> n > 99
    ensures 0 <= n <= 99 ==> BadgeText(n) == Strings.NatToString(n) && Strings.DigitsValue(BadgeText(n)) == n
  {
    if n <= 99 {
      var s := Strings.IntToString(n);
      if |s| == 3 {
        assert s[2] != '+';
      }
      if n >= 0 {
        Strings.NatToStringRoundTrip(n);
      }
    }
  }

  /** A click: `toggleCart`. */
  method Click(cart: UseCart.CartContext)
    modifies cart
    ensures cart.isCartOpen == !old(cart.isCartOpen) && cart.items == old(cart.items)
  {
    cart.ToggleCart();
  }
}
