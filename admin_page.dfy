/** The catalogue admin page: the game list with its low-stock alerts and stock badges, and the create/edit
    dialog with its eleven-field form. */
module AdminPage {
  import opened Wrappers
  import opened Types
  import opened Http
  import opened Db
  import Seqs
  import Strings
  import GamesRoute

  /** The form's state: every field is text. */
  datatype FormData = FormData(
    title: string, description: string, price: string, genre: string, platform: string, imageUrl: string,
    stock: string, videoUrl: string, specs: string, developer: string, publisher: string)

  const EmptyForm: FormData := FormData("", "", "", "", "", "", "", "", "", "", "")

  /** `data.filter(game => game.stock <= 5 && game.stock > 0)`. */
  function LowStockAlerts(games: seq<Game>): seq<Game>
  {
    Seqs.Filter(games, (g: Game) => IsLowStock(g.stock))
  }

  /** The alert list holds exactly the listed games that carry the "Low" badge, in list order. */
  lemma LowStockAlertsExactly(games: seq<Game>, g: Game)
    ensures g in LowStockAlerts(games) <==> g in games && IsLowStock(g.stock)
    ensures Seqs.Subsequence(LowStockAlerts(games), games)
    ensures forall i :: 0 <= i < |LowStockAlerts(games)| ==> !IsOutOfStock(LowStockAlerts(games)[i].stock)
  {
    Seqs.FilterIsSubsequence(games, (g: Game) => IsLowStock(g.stock));
    if g in games && IsLowStock(g.stock) {
      var i :| 0 <= i < |games| && games[i] == g;
    }
  }

  /** `x || ''` on a nullable text field. */
  function OrEmpty(o: Option<string>): (r: string)
    ensures o.None? ==> r == ""
    ensures o.Some? ==> r == o.value
  {
    if o.Some? then o.value else ""
  }

  /** `price.toString()` for a price of `cents` hundredths: no fraction when it is whole, one digit when the
      hundredths digit is 0, two otherwise, and a leading `-` below zero. */
  function PriceText(cents: int): string
  {
    if cents < 0 then "-" + UnsignedPriceText(-cents) else UnsignedPriceText(cents)
  }

  function UnsignedPriceText(cents: nat): string
  {
    var whole := Strings.NatToString(cents / 100);
    var frac := cents % 100;
    if frac == 0 then whole
    else if frac % 10 == 0 then whole + "." + [Strings.DigitChar(frac / 10)]
    else whole + "." + [Strings.DigitChar(frac / 10), Strings.DigitChar(frac % 10)]
  }

  predicate AllDigits(s: string)
  {
    forall i :: 0 <= i < |s| ==> Strings.IsDigit(s[i])
  }

  /** Reading a price text back in cents: digits, then optionally a point and one or two digits; any other
      text gives `None`. On the texts `PriceText` writes this agrees with `parseFloat`, scaled. */
  function PriceCents(s: string): Option<nat>
  {
    if AllDigits(s) && |s| >= 1 then Some(Strings.DigitsValue(s) * 100)
    else if |s| >= 3 && s[|s| - 2] == '.' && AllDigits(s[..|s| - 2]) && Strings.IsDigit(s[|s| - 1]) then
      Some(Strings.DigitsValue(s[..|s| - 2]) * 100 + (s[|s| - 1] as int - '0' as int) * 10)
    else if |s| >= 4 && s[|s| - 3] == '.' && AllDigits(s[..|s| - 3]) && Strings.IsDigit(s[|s| - 2])
            && Strings.IsDigit(s[|s| - 1]) then
      Some(Strings.DigitsValue(s[..|s| - 3]) * 100 + (s[|s| - 2] as int - '0' as int) * 10 + (s[|s| - 1] as int - '0' as int))
    else None
  }

  /** The price text the edit form shows reads back as the same price. */
  lemma PriceTextRoundTrip(cents: nat)
    ensures PriceCents(PriceText(cents)) == Some(cents)
  {
    var whole := Strings.NatToString(cents / 100);
    var frac := cents % 100;
    Strings.NatToStringRoundTrip(cents / 100);
    var s := PriceText(cents);
    if frac == 0 {
      assert s == whole;
    } else if frac % 10 == 0 {
      assert s[..|s| - 2] == whole;
      assert !AllDigits(s) by { assert s[|s| - 2] == '.'; }
    } else {
      assert s[..|s| - 3] == whole;
      assert !AllDigits(s) by { assert s[|s| - 3] == '.'; }
      assert s[|s| - 2] != '.';
    }
  }

  /** `handleEdit`'s form: the game's fields, prices and stock as text, absent optional fields as `''`. */
  function EditForm(g: Game): (f: FormData)
    ensures f.title == g.title && f.description == g.description && f.genre == g.genre
            && f.platform == g.platform && f.imageUrl == g.imageUrl
    ensures f.stock == Strings.IntToString(g.stock)
    ensures f.videoUrl == OrEmpty(g.videoUrl) && f.specs == OrEmpty(g.specs)
            && f.developer == OrEmpty(g.developer) && f.publisher == OrEmpty(g.publisher)
  {
    FormData(g.title, g.description, PriceText(g.price), g.genre, g.platform, g.imageUrl,
             Strings.IntToString(g.stock), OrEmpty(g.videoUrl), OrEmpty(g.specs), OrEmpty(g.developer),
             OrEmpty(g.publisher))
  }

  /** Editing a game of non-negative price fills a price text that reads back as that price, so saving the
      untouched form keeps it. */
  lemma EditFormKeepsPrice(g: Game)
    requires g.price >= 0
    ensures PriceCents(EditForm(g).price) == Some(g.price)
  {
    PriceTextRoundTrip(g.price);
  }

  /** The request Submit sends: PUT to the game's own URL while editing, otherwise POST to the collection. */
  function SubmitRequest(editing: Option<Game>): (r: (string, string))
    ensures r.0 == "PUT" <==> editing.Some?
    ensures r.0 == "POST" <==> editing.None?
    ensures editing.Some? ==> r.1 == "/api/games/" + editing.value.id
    ensures editing.None? ==> r.1 == "/api/games"
  {
    match editing
    case Some(g) => ("PUT", "/api/games/" + g.id)
    case None => ("POST", "/api/games")
  }

  class Admin {
    var games: seq<Game>
    var lowStockAlerts: seq<Game>
    var loading: bool
    var isDialogOpen: bool
    var editingGame: Option<Game>
    var form: FormData
    var imageFile: Option<string>

    /** The alert list is always the low-stock filter of the shown list. */
    ghost predicate Valid()
      reads this
    {
      lowStockAlerts == LowStockAlerts(games)
    }

    constructor ()
      ensures Valid()
      ensures games == [] && loading && !isDialogOpen && editingGame.None? && form == EmptyForm && imageFile.None?
    {
      games := [];
      lowStockAlerts := [];
      loading := true;
      isDialogOpen := false;
      editingGame := None;
      form := EmptyForm;
      imageFile := None;
    }

    /** `fetchGames`: on an OK answer show the catalogue and recompute the alerts; loading ends either way. */
    method FetchGames(db: Database)
      requires Valid()
      modifies this
      ensures Valid() && !loading
      ensures games == GamesRoute.Get(db.Snapshot()).body.games
      ensures isDialogOpen == old(isDialogOpen) && editingGame == old(editingGame) && form == old(form)
              && imageFile == old(imageFile)
    {
      var response := GamesRoute.Get(db.Snapshot());
      if response.Ok() {
        games := response.body.games;
        lowStockAlerts := LowStockAlerts(games);
      }
      loading := false;
    }

    /** `handleEdit`: remember the game, fill the form from it, drop any chosen file, open the dialog. */
    method HandleEdit(g: Game)
      modifies this
      ensures editingGame == Some(g) && form == EditForm(g) && imageFile.None? && isDialogOpen
      ensures games == old(games) && lowStockAlerts == old(lowStockAlerts) && loading == old(loading)
    {
      editingGame := Some(g);
      form := EditForm(g);
      imageFile := None;
      isDialogOpen := true;
    }

    /** `resetForm`: all eleven fields empty, no file, not editing. */
    method ResetForm()
      modifies this
      ensures form == EmptyForm && imageFile.None? && editingGame.None?
      ensures games == old(games) && lowStockAlerts == old(lowStockAlerts) && loading == old(loading)
              && isDialogOpen == old(isDialogOpen)
    {
      form := EmptyForm;
      imageFile := None;
      editingGame := None;
    }

    /** `handleSubmit`: send the form to the URL and method `SubmitRequest` chooses; `answer` is the server's
        reply. On an OK reply reload the list, close the dialog and reset the form; otherwise change nothing. */
    method HandleSubmit(db: Database, answer: Response) returns (request: (string, string))
      requires Valid()
      modifies this
      ensures Valid()
      ensures request == SubmitRequest(old(editingGame))
      ensures answer.Ok() ==> !isDialogOpen && form == EmptyForm && imageFile.None? && editingGame.None?
                              && games == GamesRoute.Get(db.Snapshot()).body.games
      ensures !answer.Ok() ==> games == old(games) && isDialogOpen == old(isDialogOpen) && form == old(form)
                               && editingGame == old(editingGame) && imageFile == old(imageFile)
    {
      request := SubmitRequest(editingGame);
      if answer.Ok() {
        FetchGames(db);
        isDialogOpen := false;
        ResetForm();
      }
    }

    /** `handleDelete`: nothing is sent unless the user confirms; `answer` is the server's reply to the
        DELETE, and an OK reply reloads the list. */
    method HandleDelete(db: Database, id: string, confirmed: bool, answer: Response) returns (sent: bool)
      requires Valid()
      modifies this
      ensures Valid()
      ensures sent == confirmed
      ensures !confirmed ==> games == old(games) && loading == old(loading)
      ensures confirmed && answer.Ok() ==> games == GamesRoute.Get(db.Snapshot()).body.games
      ensures isDialogOpen == old(isDialogOpen) && editingGame == old(editingGame) && form == old(form)
    {
      if !confirmed {
        return false;
      }
      sent := true;
      if answer.Ok() {
        FetchGames(db);
      }
    }
  }
}
