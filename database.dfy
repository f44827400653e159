/**
 * The relational store behind the routes, as an in-memory value (`Tables`) and as the mutable object the
 * handlers update (`Database`). Rows are kept in creation order; ids and `createdAt` come from one counter.
 */
module Db {
  import opened Wrappers
  import opened Types
  import opened Http
  import Seqs
  import Strings

  datatype Tables = Tables(
    users: map<string, string>,   // e-mail -> user id
    games: seq<Game>,
    cart: seq<CartRow>,
    orders: seq<Order>,
    clock: nat)                   // next id seed and creation time

  /** A handler's answer together with the tables it leaves behind. */
  datatype Outcome = Outcome(response: Response, tables: Tables)

  /** The id the store generates for the row created at tick `n`. */
  function FreshId(n: nat): string
  {
    "c" + Strings.NatToString(n)
  }

  lemma FreshIdInjective(a: nat, b: nat)
    requires FreshId(a) == FreshId(b)
    ensures a == b
  {
    assert FreshId(a)[1..] == Strings.NatToString(a);
    assert FreshId(b)[1..] == Strings.NatToString(b);
    Strings.NatToStringInjective(a, b);
  }

  // ---------------------------------------------------------------- catalogue lookups

  /** The position of the first game with this id. */
  function GameIndex(games: seq<Game>, id: string): (r: Option<nat>)
    ensures r.Some? ==> r.value < |games| && games[r.value].id == id
    ensures r.Some? ==> forall j :: 0 <= j < r.value ==> games[j].id != id
    ensures r.None? ==> forall j :: 0 <= j < |games| ==> games[j].id != id
  {
    if |games| == 0 then None
    else if games[0].id == id then Some(0)
    else match GameIndex(games[1..], id)
      case None => None
      case Some(k) => Some(k + 1)
  }

  predicate HasGame(games: seq<Game>, id: string)
  {
    GameIndex(games, id).Some?
  }

  function GameOf(games: seq<Game>, id: string): Game
    requires HasGame(games, id)
  {
    games[GameIndex(games, id).value]
  }

  // ---------------------------------------------------------------- well-formed tables

  predicate SameKey(a: CartRow, b: CartRow)
  {
    a.userId == b.userId && a.gameId == b.gameId
  }

  /** Every game id is the generated id of its creation tick, and games are in creation order. */
  ghost predicate GamesWellFormed(games: seq<Game>, clock: nat)
  {
    && (forall i :: 0 <= i < |games| ==> games[i].createdAt < clock && games[i].id == FreshId(games[i].createdAt))
    && (forall i, j :: 0 <= i < j < |games| ==> games[i].createdAt < games[j].createdAt)
  }

  /** At most one row per (userId, gameId), every quantity at least 1, every row naming a catalogue game. */
  ghost predicate CartWellFormed(cart: seq<CartRow>, games: seq<Game>)
  {
    && (forall i :: 0 <= i < |cart| ==> cart[i].quantity >= 1 && HasGame(games, cart[i].gameId))
    && (forall i, j :: 0 <= i < j < |cart| ==> !SameKey(cart[i], cart[j]))
  }

  /** Orders are in creation order and each total is the sum of its lines at their recorded prices. */
  ghost predicate OrdersWellFormed(orders: seq<Order>, clock: nat)
  {
    && (forall i :: 0 <= i < |orders| ==> orders[i].createdAt < clock && orders[i].total == ItemsValue(orders[i].items))
    && (forall i, j :: 0 <= i < j < |orders| ==> orders[i].createdAt < orders[j].createdAt)
  }

  ghost predicate WellFormed(t: Tables)
  {
    GamesWellFormed(t.games, t.clock) && CartWellFormed(t.cart, t.games) && OrdersWellFormed(t.orders, t.clock)
  }

  /** The primary-key property of the catalogue follows from the id scheme. */
  lemma GameIdsDistinct(games: seq<Game>, clock: nat)
    requires GamesWellFormed(games, clock)
    ensures forall i, j :: 0 <= i < j < |games| ==> games[i].id != games[j].id
  {
    forall i, j | 0 <= i < j < |games| ensures games[i].id != games[j].id {
      if games[i].id == games[j].id {
        FreshIdInjective(games[i].createdAt, games[j].createdAt);
      }
    }
  }

  /** In a well-formed catalogue the game found for an id is the only one with that id. */
  lemma GameOfUnique(games: seq<Game>, clock: nat, k: nat)
    requires GamesWellFormed(games, clock) && k < |games|
    ensures HasGame(games, games[k].id) && GameOf(games, games[k].id) == games[k]
  {
    GameIdsDistinct(games, clock);
  }

  // ---------------------------------------------------------------- cart queries

  /** `cartItem.findMany({ where: { userId } })`, in table order. */
  function UserRows(cart: seq<CartRow>, u: string): seq<CartRow>
  {
    Seqs.Filter(cart, (r: CartRow) => r.userId == u)
  }

  /** `cartItem.deleteMany({ where: { userId } })`: the rows that remain. */
  function WithoutUser(cart: seq<CartRow>, u: string): seq<CartRow>
  {
    Seqs.Filter(cart, (r: CartRow) => r.userId != u)
  }

  /** Each row joined with its game (`include: { game: true }`). */
  function Join(games: seq<Game>, rows: seq<CartRow>): seq<CartItem>
    requires forall i :: 0 <= i < |rows| ==> HasGame(games, rows[i].gameId)
  {
    seq(|rows|, i requires 0 <= i < |rows| =>
      CartItem(rows[i].userId, rows[i].gameId, rows[i].quantity, GameOf(games, rows[i].gameId)))
  }

  lemma UserRowsReferenceGames(t: Tables, u: string)
    requires CartWellFormed(t.cart, t.games)
    ensures forall i :: 0 <= i < |UserRows(t.cart, u)| ==> HasGame(t.games, UserRows(t.cart, u)[i].gameId)
  {
  }

  /** The user's cart lines joined with their games. */
  function CartOf(t: Tables, u: string): seq<CartItem>
    requires CartWellFormed(t.cart, t.games)
  {
    UserRowsReferenceGames(t, u);
    Join(t.games, UserRows(t.cart, u))
  }

  /** The rows of one user's cart name pairwise different games. */
  lemma {:induction false} CartOfDistinctGames(t: Tables, u: string)
    requires CartWellFormed(t.cart, t.games)
    ensures forall i :: 0 <= i < |CartOf(t, u)| ==> CartOf(t, u)[i].userId == u && CartOf(t, u)[i].quantity >= 1
    ensures forall i, j :: 0 <= i < j < |CartOf(t, u)| ==> CartOf(t, u)[i].gameId != CartOf(t, u)[j].gameId
  {
    var rel := (a: CartRow, b: CartRow) => !SameKey(a, b);
    Seqs.FilterPairwise(t.cart, (r: CartRow) => r.userId == u, rel);
    var rows := UserRows(t.cart, u);
    assert forall i, j :: 0 <= i < j < |rows| ==> rel(rows[i], rows[j]);
  }

  /** Position of the row with key (u, g). */
  function RowIndex(cart: seq<CartRow>, u: string, g: string): (r: Option<nat>)
    ensures r.Some? ==> r.value < |cart| && cart[r.value].userId == u && cart[r.value].gameId == g
    ensures r.None? ==> forall j :: 0 <= j < |cart| ==> !(cart[j].userId == u && cart[j].gameId == g)
  {
    if |cart| == 0 then None
    else if cart[0].userId == u && cart[0].gameId == g then Some(0)
    else match RowIndex(cart[1..], u, g)
      case None => None
      case Some(k) => Some(k + 1)
  }

  /** The mutable store the route handlers work on. */
  class Database {
    var users: map<string, string>
    var games: seq<Game>
    var cartRows: seq<CartRow>
    var orders: seq<Order>
    var clock: nat

    function Snapshot(): Tables
      reads this
    {
      Tables(users, games, cartRows, orders, clock)
    }

    ghost predicate Valid()
      reads this
    {
      WellFormed(Snapshot())
    }

    /** An empty store with the given accounts. */
    constructor (accounts: map<string, string>)
      ensures Valid()
      ensures Snapshot() == Tables(accounts, [], [], [], 0)
    {
      users := accounts;
      games := [];
      cartRows := [];
      orders := [];
      clock := 0;
    }
  }
}
