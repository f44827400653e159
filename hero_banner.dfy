/** The home page carousel of three featured games: a slide index stepped modulo 3 by the timer and the
    arrows, set directly by the indicators, and a Quick Buy button. */
module HeroBannerView {
  import opened Wrappers
  import opened Types
  import opened Db
  import UseCart
  import CartRoute

  /** A hard-coded featured entry. `price` is in cents. */
  datatype Featured = Featured(id: string, title: string, description: string, price: int, rating: real,
                               image: string, badge: string)

  const FeaturedGames: seq<Featured> := [
    Featured("1", "Cyber Legends", "Experience the ultimate cyberpunk adventure in a neon-lit metropolis",
             5999, 4.8, "/hero-banner.jpg", "New Release"),
    Featured("2", "Fantasy Quest", "Embark on an epic journey through magical realms",
             4999, 4.6, "/games/fantasy-rpg.jpg", "Best Seller"),
    Featured("3", "Speed Rush", "Feel the adrenaline in the fastest racing game ever",
             3999, 4.7, "/games/racing.jpg", "Popular")
  ]

  const SlideCount: nat := |FeaturedGames|

  /** `(prev + 1) % featuredGames.length`. */
  function NextSlide(i: int): int
  {
    (i + 1) % SlideCount
  }

  /** `(prev - 1 + featuredGames.length) % featuredGames.length`. */
  function PrevSlide(i: int): int
  {
    (i - 1 + SlideCount) % SlideCount
  }

  /** From any valid index both steps stay in range, and each undoes the other. */
  lemma StepsInverse(i: int)
    requires 0 <= i < SlideCount
    ensures 0 <= NextSlide(i) < SlideCount && 0 <= PrevSlide(i) < SlideCount
    ensures PrevSlide(NextSlide(i)) == i && NextSlide(PrevSlide(i)) == i
  {
    assert SlideCount == 3;
  }

  /** Three ticks of the timer come back to the same slide. */
  lemma ThreeTicksCycle(i: int)
    requires 0 <= i < SlideCount
    ensures NextSlide(NextSlide(NextSlide(i))) == i
  {
    assert SlideCount == 3;
  }

  /** The game object Quick Buy passes to `addToCart`; `now` stands for `new Date()`. */
  function QuickBuyGame(f: Featured, now: nat): Game
  {
    Game(f.id, f.title, f.description, f.price, "Action", "Multi-platform", f.image, Some(f.rating), None,
         10, now, None, None, None, None)
  }

  /** No generated catalogue id equals a featured id: generated ids start with `c`. */
  lemma FeaturedIdsNotInCatalogue(games: seq<Game>, clock: nat, i: nat)
    requires GamesWellFormed(games, clock) && i < SlideCount
    ensures !HasGame(games, FeaturedGames[i].id)
  {
    var id := FeaturedGames[i].id;
    assert id[0] != 'c';
    forall k | 0 <= k < |games| ensures games[k].id != id {
      assert games[k].id == FreshId(games[k].createdAt);
      assert games[k].id[0] == 'c';
    }
  }

  /** Quick Buy's POST names a game the catalogue does not hold, so the cart route answers 500 and the store
      is unchanged. */
  lemma QuickBuyRejected(t: Tables, i: nat)
    requires WellFormed(t) && i < SlideCount
    ensures var o := CartRoute.Add(t, UseCart.AddBody(UseCart.DemoUser, FeaturedGames[i].id, 1));
      o.response.status == 500 && o.tables == t
  {
    FeaturedIdsNotInCatalogue(t.games, t.clock, i);
    var b := UseCart.AddBody(UseCart.DemoUser, FeaturedGames[i].id, 1);
    assert (1 as real).Floor == 1;
    CartRoute.AddFailsOnlyForUnknownGame(t, b);
  }

  class HeroBanner {
    var currentSlide: int

    ghost predicate Valid()
      reads this
    {
      0 <= currentSlide < SlideCount
    }

    /** `useState(0)`. */
    constructor ()
      ensures Valid() && currentSlide == 0
    {
      currentSlide := 0;
    }

    /** A tick of the 5-second timer. */
    method Tick()
      requires Valid()
      modifies this
      ensures Valid() && currentSlide == NextSlide(old(currentSlide))
    {
      currentSlide := (currentSlide + 1) % SlideCount;
    }

    /** The right arrow. */
    method ClickNext()
      requires Valid()
      modifies this
      ensures Valid() && currentSlide == NextSlide(old(currentSlide))
    {
      currentSlide := (currentSlide + 1) % SlideCount;
    }

    /** The left arrow. */
    method ClickPrev()
      requires Valid()
      modifies this
      ensures Valid() && currentSlide == PrevSlide(old(currentSlide))
    {
      currentSlide := (currentSlide - 1 + SlideCount) % SlideCount;
    }

    /** The indicator dots, one per featured game. */
    method ClickIndicator(index: int)
      requires 0 <= index < SlideCount
      modifies this
      ensures Valid() && currentSlide == index
    {
      currentSlide := index;
    }

    /** `handleQuickBuy`: add one of the current featured game, then toggle the cart drawer. */
    method QuickBuy(cart: UseCart.CartContext, db: Database, now: nat)
      requires Valid() && cart.Valid() && db.Valid()
      modifies cart, db
      ensures Valid() && cart.Valid() && db.Valid()
      ensures db.Snapshot() ==
        CartRoute.Add(old(db.Snapshot()), UseCart.AddBody(cart.userId, FeaturedGames[currentSlide].id, 1)).tables
      ensures db.Snapshot() == old(db.Snapshot()) && cart.items == old(cart.items)
      ensures cart.isCartOpen == !old(cart.isCartOpen)
    {
      QuickBuyRejected(db.Snapshot(), currentSlide);
      cart.AddToCart(db, QuickBuyGame(FeaturedGames[currentSlide], now), 1);
      cart.ToggleCart();
    }
  }
}
