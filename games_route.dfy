/**
 * `/api/games`: list the catalogue newest first (GET) and create a game from a body checked against the
 * catalogue schema (POST).
 */
module GamesRoute {
  import opened Wrappers
  import opened Types
  import opened Http
  import opened Db
  import Seqs

  /** An optional body field: absent, present with the schema's JSON type, or present with another type. */
  datatype Field<T> = Absent | Given(value: T) | Mistyped

  /** A POST body field by field. Required fields are `None` when missing or mistyped. `price` is in cents. */
  datatype GameBody = GameBody(
    title: Option<string>,
    description: Option<string>,
    price: Option<int>,
    genre: Option<string>,
    platform: Option<string>,
    imageUrl: Option<string>,
    rating: Field<real>,
    releaseDate: Field<string>,
    stock: Field<real>)

  predicate NonEmpty(f: Option<string>)
  {
    f.Some? && |f.value| >= 1
  }

  /** `gameSchema`: four non-empty strings, a positive price, an image URL string, an optional rating in
      [0, 5], an optional release-date string and an optional integer stock of at least 0. */
  predicate Valid(b: GameBody)
  {
    && NonEmpty(b.title) && NonEmpty(b.description) && NonEmpty(b.genre) && NonEmpty(b.platform)
    && b.price.Some? && b.price.value > 0
    && b.imageUrl.Some?
    && !b.rating.Mistyped? && (b.rating.Given? ==> 0.0 <= b.rating.value <= 5.0)
    && !b.releaseDate.Mistyped?
    && !b.stock.Mistyped? && (b.stock.Given? ==> b.stock.value.Floor as real == b.stock.value && b.stock.value >= 0.0)
  }

  /** The row `game.create` writes at tick `clock`: schema defaults applied, an empty release date stored as
      null, and the fields the schema does not carry left null. */
  function NewGame(b: GameBody, clock: nat): (g: Game)
    requires Valid(b)
    ensures g.id == FreshId(clock) && g.createdAt == clock
    ensures g.title == b.title.value && g.description == b.description.value && g.genre == b.genre.value
            && g.platform == b.platform.value && g.imageUrl == b.imageUrl.value && g.price == b.price.value
    ensures g.price > 0 && |g.title| >= 1 && |g.description| >= 1 && |g.genre| >= 1 && |g.platform| >= 1
    ensures g.stock >= 0 && (b.stock.Absent? ==> g.stock == 0) && (b.stock.Given? ==> g.stock as real == b.stock.value)
    ensures g.rating.Some? <==> b.rating.Given?
    ensures g.rating.Some? ==> 0.0 <= g.rating.value <= 5.0 && g.rating.value == b.rating.value
    ensures g.releaseDate.None? <==> b.releaseDate.Absent? || (b.releaseDate.Given? && b.releaseDate.value == "")
    ensures g.videoUrl.None? && g.specs.None? && g.developer.None? && g.publisher.None?
  {
    Game(FreshId(clock), b.title.value, b.description.value, b.price.value, b.genre.value, b.platform.value,
         b.imageUrl.value,
         if b.rating.Given? then Some(b.rating.value) else None,
         if b.releaseDate.Given? && b.releaseDate.value != "" then Some(b.releaseDate.value) else None,
         if b.stock.Given? then b.stock.value.Floor else 0,
         clock, None, None, None, None)
  }

  /** POST as a function of the tables before it. */
  function CreateGame(t: Tables, b: GameBody): (o: Outcome)
    requires WellFormed(t)
    ensures WellFormed(o.tables)
    ensures o.response.status == 400 <==> !Valid(b)
    ensures !Valid(b) ==> o.tables == t
  {
    if !Valid(b) then Outcome(Response(400, Error("Invalid data")), t)
    else
      var g := NewGame(b, t.clock);
      var t' := t.(games := t.games + [g], clock := t.clock + 1);
      assert CartWellFormed(t'.cart, t'.games) by {
        forall i | 0 <= i < |t.cart| ensures HasGame(t'.games, t.cart[i].gameId) {
          var k := GameIndex(t.games, t.cart[i].gameId).value;
          assert t'.games[k] == t.games[k];
        }
      }
      Outcome(Response(201, GameCreated(g)), t')
  }

  /** A valid body appends exactly one game, with an id no earlier game has, and changes nothing else. */
  lemma CreateGameAppends(t: Tables, b: GameBody)
    requires WellFormed(t) && Valid(b)
    ensures var o := CreateGame(t, b);
      && o.response.status == 201
      && o.tables.games == t.games + [o.response.body.game]
      && !HasGame(t.games, o.response.body.game.id)
      && o.tables.cart == t.cart && o.tables.orders == t.orders && o.tables.users == t.users
  {
    var g := NewGame(b, t.clock);
    forall i | 0 <= i < |t.games| ensures t.games[i].id != g.id {
      if t.games[i].id == g.id {
        FreshIdInjective(t.games[i].createdAt, t.clock);
      }
    }
  }

  /** GET: the catalogue by `createdAt`, newest first. */
  function Get(t: Tables): (r: Response)
    ensures r.status == 200 && r.body == GameList(Seqs.Reverse(t.games))
  {
    Response(200, GameList(Seqs.Reverse(t.games)))
  }

  /** GET lists every game once, strictly newest first, and a game just created comes first. */
  lemma GetNewestFirst(t: Tables, b: GameBody)
    requires WellFormed(t)
    ensures var list := Get(t).body.games;
      && (forall g :: g in list <==> g in t.games)
      && (forall i, j :: 0 <= i < j < |list| ==> list[i].createdAt > list[j].createdAt)
    ensures Valid(b) ==> Get(CreateGame(t, b).tables).body.games[0] == NewGame(b, t.clock)
  {
    Seqs.ReverseDecreasing(t.games, (g: Game) => g.createdAt as int);
    forall g ensures g in Seqs.Reverse(t.games) <==> g in t.games {
      Seqs.ReverseSameElements(t.games, g);
    }
  }

  /** The handler: validate, then insert the row. */
  method Post(db: Database, b: GameBody) returns (resp: Response)
    requires db.Valid()
    modifies db
    ensures db.Valid()
    ensures Outcome(resp, db.Snapshot()) == CreateGame(old(db.Snapshot()), b)
  {
    ghost var o := CreateGame(db.Snapshot(), b);
    if !Valid(b) {
      return Response(400, Error("Invalid data"));
    }
    var game := NewGame(b, db.clock);
    db.games := db.games + [game];
    db.clock := db.clock + 1;
    resp := Response(201, GameCreated(game));
    assert db.Snapshot() == o.tables;
  }
}
