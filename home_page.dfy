/** The storefront home page's catalogue filter: a case-insensitive search over title and description,
    then a case-sensitive genre restriction. */
module HomePage {
  import opened Types
  import Seqs
  import Strings

  const AllCategories: string := "all"

  /** The lower-cased title or description contains the lower-cased term. */
  predicate MatchesSearch(g: Game, term: string)
  {
    Strings.Includes(Strings.ToLower(g.title), Strings.ToLower(term))
    || Strings.Includes(Strings.ToLower(g.description), Strings.ToLower(term))
  }

  /** Step 1: `if (searchTerm)` filter by the term; an empty term is falsy and filters nothing. */
  function SearchStep(games: seq<Game>, term: string): seq<Game>
  {
    if term == "" then games else Seqs.Filter(games, (g: Game) => MatchesSearch(g, term))
  }

  /** Step 2: unless the category is `'all'`, keep the games whose genre is exactly the category. */
  function CategoryStep(games: seq<Game>, category: string): seq<Game>
  {
    if category == AllCategories then games else Seqs.Filter(games, (g: Game) => g.genre == category)
  }

  /** `filterGames`. */
  function FilterGames(games: seq<Game>, term: string, category: string): seq<Game>
  {
    CategoryStep(SearchStep(games, term), category)
  }

  /** The combined test a game must pass. */
  predicate Keep(g: Game, term: string, category: string)
  {
    (term == "" || MatchesSearch(g, term)) && (category == AllCategories || g.genre == category)
  }

  /** The two chained filters are one filter by `Keep`. */
  lemma FilterGamesIsOneFilter(games: seq<Game>, term: string, category: string)
    ensures FilterGames(games, term, category) == Seqs.Filter(games, (g: Game) => Keep(g, term, category))
  {
    var keep := (g: Game) => Keep(g, term, category);
    var search := (g: Game) => MatchesSearch(g, term);
    var genre := (g: Game) => g.genre == category;
    if term == "" && category == AllCategories {
      Seqs.FilterAll(games, keep);
    } else if term == "" {
      Seqs.FilterExt(games, genre, keep);
    } else if category == AllCategories {
      Seqs.FilterExt(games, search, keep);
    } else {
      Seqs.FilterCompose(games, search, genre, keep);
    }
  }

  /** A game is shown exactly when it is in the catalogue and passes both the search and the category. */
  lemma FilterGamesMembership(games: seq<Game>, term: string, category: string, g: Game)
    ensures g in FilterGames(games, term, category) <==>
      g in games && (term == "" || MatchesSearch(g, term)) && (category == AllCategories || g.genre == category)
  {
    FilterGamesIsOneFilter(games, term, category);
    if g in games && Keep(g, term, category) {
      var i :| 0 <= i < |games| && games[i] == g;
    }
  }

  /** An empty term with category `'all'` shows the whole catalogue, in order. */
  lemma EmptyFilterKeepsAll(games: seq<Game>)
    ensures FilterGames(games, "", AllCategories) == games
  {
  }

  /** The result keeps the catalogue's order, and filtering it again changes nothing. */
  lemma FilterGamesOrderedAndIdempotent(games: seq<Game>, term: string, category: string)
    ensures Seqs.Subsequence(FilterGames(games, term, category), games)
    ensures FilterGames(FilterGames(games, term, category), term, category) == FilterGames(games, term, category)
  {
    var keep := (g: Game) => Keep(g, term, category);
    FilterGamesIsOneFilter(games, term, category);
    FilterGamesIsOneFilter(FilterGames(games, term, category), term, category);
    Seqs.FilterIsSubsequence(games, keep);
    Seqs.FilterIdempotent(games, keep);
  }

  /** The search is case-insensitive in both the term and the text (ASCII letters). */
  lemma SearchIgnoresCase(g: Game, term: string)
    ensures MatchesSearch(g, term) <==> MatchesSearch(g, Strings.ToLower(term))
  {
    Strings.ToLowerIdempotent(term);
  }
}
