/** The figures the roster page derives for every team card: spend, balance and the numbered
    slot rows, each filled slot flagged when its agreed price is below the player's list price. */
module Roster {
  import opened Results

  /** A document of the `player` collection: its `id`, display name and list price. */
  datatype Player = Player(id: string, name: string, price: int)

  /** One element of a team's `userplayer` array: a player id and the price the team agreed. */
  datatype Entry = Entry(id: string, price: int)

  /** A document of the `team` collection; `userplayer` is None when the document has no roster. */
  datatype Team = Team(name: string, userplayer: Option<seq<Entry>>)

  /** A document of the `settings` collection. `playermax` is edited by the settings form but
      never read by the page. */
  datatype Settings = Settings(playermax: int, playercount: int, total: int)

  /** One line of a team card's roster list: a filled slot or a "-" placeholder. */
  datatype Row =
    | Filled(slot: int, name: string, price: int, isBidError: bool)
    | Placeholder(slot: int)

  /** What a team card shows; `rows` is None when the card has no roster list at all. */
  datatype Card = Card(name: string, spend: int, balance: int, rows: Option<seq<Row>>)

  /** What the page throws instead of rendering. */
  datatype Fault =
    | MissingSettings            // `settingsCollection.docs[0].id` on an empty collection
    | UnknownPlayer(id: string)  // `player.price` when `players.find` found nothing
    | InvalidArrayLength(length: int)  // `Array(length)` with a negative or too large length

  // ---------------------------------------------------------------- spend

  /** Reference definition: the sum of the agreed prices, empty roster included. */
  function Sum(entries: seq<Entry>): int
  {
    if entries == [] then 0 else entries[0].price + Sum(entries[1..])
  }

  /** `entries.reduce((sum, player) => sum + player.price, acc)`, a left fold. */
  function Reduce(entries: seq<Entry>, acc: int): (r: int)
    ensures r == acc + Sum(entries)
  {
    if entries == [] then acc else Reduce(entries[1..], acc + entries[0].price)
  }

  /** `spend`: 0 unless the team has a roster, and then the reduce of its prices from 0. */
  function Spend(userplayer: Option<seq<Entry>>): (spend: int)
    ensures userplayer.None? ==> spend == 0
    ensures userplayer.Some? ==> spend == Sum(userplayer.value)
  {
    match userplayer
    case None => 0
    case Some(entries) => Reduce(entries, 0)
  }

  /** `selectedPlayerCount`: 0 unless the team has a roster, and then its length. */
  function SelectedPlayerCount(userplayer: Option<seq<Entry>>): nat
  {
    match userplayer
    case None => 0
    case Some(entries) => |entries|
  }

  // ---------------------------------------------------------------- player lookup

  /** Some player carries the id `id`. */
  predicate Listed(players: seq<Player>, id: string)
  {
    exists i :: 0 <= i < |players| && players[i].id == id
  }

  /** Every roster entry names a listed player. */
  predicate AllListed(entries: seq<Entry>, players: seq<Player>)
  {
    forall k :: 0 <= k < |entries| ==> Listed(players, entries[k].id)
  }

  /** `players.find((p) => p.id === id)`: the first player with that id, if any. */
  function FindPlayer(players: seq<Player>, id: string): (r: Option<Player>)
    ensures r.None? <==> !Listed(players, id)
    ensures r.Some? ==>
      exists i :: 0 <= i < |players| && players[i] == r.value && r.value.id == id &&
        forall j :: 0 <= j < i ==> players[j].id != id
  {
    if players == [] then None
    else if players[0].id == id then Some(players[0])
    else
      var r := FindPlayer(players[1..], id);
      assert Listed(players, id) ==> Listed(players[1..], id) by {
        if Listed(players, id) {
          var i :| 0 <= i < |players| && players[i].id == id;
          assert players[1..][i - 1].id == id;
        }
      }
      assert r.Some? ==> (exists i :: 0 <= i < |players| && players[i] == r.value && r.value.id == id &&
                                        forall j :: 0 <= j < i ==> players[j].id != id) by {
        if r.Some? {
          var i :| 0 <= i < |players| - 1 && players[1..][i] == r.value && r.value.id == id &&
            forall j :: 0 <= j < i ==> players[1..][j].id != id;
          assert players[i + 1] == r.value;
          assert forall j :: 1 <= j < i + 1 ==> players[j] == players[1..][j - 1];
        }
      }
      r
  }

  // ---------------------------------------------------------------- rows

  /** `isBidError`: the agreed price is strictly below the player's list price. */
  predicate IsBidError(entry: Entry, player: Player)
  {
    entry.price < player.price
  }

  /** The row drawn for the entry at map index `index` once its player is known. */
  function FilledRow(index: nat, entry: Entry, player: Player): Row
  {
    Filled(index + 1, player.name, entry.price, IsBidError(entry, player))
  }

  /** `userplayer.map((playerData, index) => ...)` over `entries`, the first of which sits at map
      index `index`; it throws on the first entry whose id no player carries. */
  function FilledRows(entries: seq<Entry>, players: seq<Player>, index: nat): (r: Result<seq<Row>, Fault>)
    ensures r.Success? <==> AllListed(entries, players)
    ensures r.Failure? ==>
      exists k :: 0 <= k < |entries| && r.error == UnknownPlayer(entries[k].id) &&
        !Listed(players, entries[k].id) && AllListed(entries[..k], players)
    ensures r.Success? ==> |r.value| == |entries|
    ensures r.Success? ==>
      forall k :: 0 <= k < |entries| ==>
        var p := FindPlayer(players, entries[k].id).value;
        r.value[k] == Filled(index + k + 1, p.name, entries[k].price, entries[k].price < p.price)
    decreases |entries|
  {
    if entries == [] then Success([])
    else
      match FindPlayer(players, entries[0].id)
      case None => Failure(UnknownPlayer(entries[0].id))
      case Some(player) =>
        var rest := FilledRows(entries[1..], players, index + 1);
        assert forall k :: 1 <= k < |entries| ==> entries[k] == entries[1..][k - 1];
        if rest.Failure? then
          assert forall k :: 0 <= k < |entries| - 1 ==> entries[1..][..k] == entries[1..k + 1];
          Failure(rest.error)
        else
          Success([FilledRow(index, entries[0], player)] + rest.value)
  }

  /** One more than the largest length `Array(length)` accepts. */
  const ArrayLengthLimit: int := 0x1_0000_0000

  /** `Array(length)` accepts exactly the lengths that are unsigned 32-bit integers. */
  predicate ValidArrayLength(length: int)
  {
    0 <= length < ArrayLengthLimit
  }

  /** `Array(length).fill(0).map((_, index) => ...)`: placeholder slots numbered on from
      `selected`; `Array` throws a RangeError on a length that is negative or 2^32 or more. */
  function PlaceholderRows(length: int, selected: nat): (r: Result<seq<Row>, Fault>)
    ensures r.Failure? <==> length < 0 || length >= 0x1_0000_0000
    ensures r.Failure? ==> r.error == InvalidArrayLength(length)
    ensures r.Success? ==> |r.value| == length
    ensures r.Success? ==>
      forall k :: 0 <= k < length ==> r.value[k].Placeholder? && r.value[k].slot == selected + k + 1
  {
    if !ValidArrayLength(length) then Failure(InvalidArrayLength(length))
    else Success(seq(length, k => Placeholder(selected + k + 1)))
  }

  // ---------------------------------------------------------------- cards

  /** One team card. The roster list is drawn only when `userplayer` is present; filled rows
      come first, then the padding up to `playercount`. */
  function RenderTeam(settings: Settings, team: Team, players: seq<Player>): (r: Result<Card, Fault>)
    ensures r.Success? <==>
      team.userplayer.None? ||
      (AllListed(team.userplayer.value, players) &&
       |team.userplayer.value| <= settings.playercount < |team.userplayer.value| + 0x1_0000_0000)
    ensures r.Failure? && !AllListed(team.userplayer.value, players) ==>
      exists k :: 0 <= k < |team.userplayer.value| &&
        r.error == UnknownPlayer(team.userplayer.value[k].id) &&
        !Listed(players, team.userplayer.value[k].id) &&
        AllListed(team.userplayer.value[..k], players)
    ensures r.Failure? && AllListed(team.userplayer.value, players) ==>
      r.error == InvalidArrayLength(settings.playercount - |team.userplayer.value|)
    ensures r.Success? ==>
      && r.value.name == team.name
      && r.value.spend == (if team.userplayer.None? then 0 else Sum(team.userplayer.value))
      && r.value.spend + r.value.balance == settings.total
      && (r.value.rows.None? <==> team.userplayer.None?)
  {
    var spend := Spend(team.userplayer);
    var selectedPlayerCount := SelectedPlayerCount(team.userplayer);
    var balance := settings.total - spend;
    if team.userplayer.None? then Success(Card(team.name, spend, balance, None))
    else
      var filled :- FilledRows(team.userplayer.value, players, 0);
      var empty :- PlaceholderRows(settings.playercount - selectedPlayerCount, selectedPlayerCount);
      Success(Card(team.name, spend, balance, Some(filled + empty)))
  }

  /** The rows of a rendered roster list are numbered 1..playercount without a gap; the first
      |roster| of them are the filled ones, in roster order, and the rest are placeholders. */
  lemma RowLayout(settings: Settings, team: Team, players: seq<Player>)
    requires team.userplayer.Some?
    requires RenderTeam(settings, team, players).Success?
    ensures var rows := RenderTeam(settings, team, players).value.rows.value;
      && |rows| == settings.playercount
      && (forall k :: 0 <= k < |rows| ==> rows[k].slot == k + 1)
      && (forall k :: 0 <= k < |rows| ==> (rows[k].Filled? <==> k < |team.userplayer.value|))
  {
  }

  /** A filled row shows the first player with the entry's id, the agreed price, and the bid
      error flag exactly when that price is below the player's list price. */
  lemma FilledRowShows(settings: Settings, team: Team, players: seq<Player>, k: nat)
    requires team.userplayer.Some? && k < |team.userplayer.value|
    requires RenderTeam(settings, team, players).Success?
    ensures var entry := team.userplayer.value[k];
      var row := RenderTeam(settings, team, players).value.rows.value[k];
      exists i :: 0 <= i < |players| && players[i].id == entry.id &&
        (forall j :: 0 <= j < i ==> players[j].id != entry.id) &&
        row == Filled(k + 1, players[i].name, entry.price, entry.price < players[i].price)
  {
  }

  /** Number of filled rows in a list. */
  function FilledCount(rows: seq<Row>): nat
  {
    if rows == [] then 0 else (if rows[0].Filled? then 1 else 0) + FilledCount(rows[1..])
  }

  lemma {:induction false} FilledCountAppend(a: seq<Row>, b: seq<Row>)
    ensures FilledCount(a + b) == FilledCount(a) + FilledCount(b)
  {
    if a == [] {
      assert a + b == b;
    } else {
      assert (a + b)[0] == a[0];
      assert (a + b)[1..] == a[1..] + b;
      FilledCountAppend(a[1..], b);
    }
  }

  lemma {:induction false} AllFilledCount(rows: seq<Row>)
    requires forall k :: 0 <= k < |rows| ==> rows[k].Filled?
    ensures FilledCount(rows) == |rows|
  {
    if rows != [] {
      AllFilledCount(rows[1..]);
    }
  }

  /** `selectedPlayerCount` is the number of filled rows the card draws, and the card draws
      `playercount - selectedPlayerCount` placeholders after them. */
  lemma SelectedCountMatchesRows(settings: Settings, team: Team, players: seq<Player>)
    requires team.userplayer.Some?
    requires RenderTeam(settings, team, players).Success?
    ensures var rows := RenderTeam(settings, team, players).value.rows.value;
      && FilledCount(rows) == SelectedPlayerCount(team.userplayer)
      && |rows| - FilledCount(rows) == settings.playercount - SelectedPlayerCount(team.userplayer)
  {
    var entries := team.userplayer.value;
    var filled := FilledRows(entries, players, 0).value;
    var empty := PlaceholderRows(settings.playercount - |entries|, |entries|).value;
    FilledCountAppend(filled, empty);
    AllFilledCount(filled);
    PlaceholdersShowNothing(empty);
  }

  /** Sum of the prices written in the filled rows of a list. */
  function ShownTotal(rows: seq<Row>): int
  {
    if rows == [] then 0
    else (if rows[0].Filled? then rows[0].price else 0) + ShownTotal(rows[1..])
  }

  lemma {:induction false} ShownTotalAppend(a: seq<Row>, b: seq<Row>)
    ensures ShownTotal(a + b) == ShownTotal(a) + ShownTotal(b)
  {
    if a == [] {
      assert a + b == b;
    } else {
      assert (a + b)[0] == a[0];
      assert (a + b)[1..] == a[1..] + b;
      ShownTotalAppend(a[1..], b);
    }
  }

  lemma {:induction false} PlaceholdersShowNothing(rows: seq<Row>)
    requires forall k :: 0 <= k < |rows| ==> rows[k].Placeholder?
    ensures ShownTotal(rows) == 0 && FilledCount(rows) == 0
  {
    if rows != [] {
      PlaceholdersShowNothing(rows[1..]);
    }
  }

  lemma {:induction false} FilledRowsTotal(entries: seq<Entry>, players: seq<Player>, index: nat)
    requires AllListed(entries, players)
    ensures ShownTotal(FilledRows(entries, players, index).value) == Sum(entries)
    decreases |entries|
  {
    if entries != [] {
      var rows := FilledRows(entries, players, index).value;
      assert forall k :: 0 <= k < |entries| - 1 ==> entries[1..][k] == entries[k + 1];
      FilledRowsTotal(entries[1..], players, index + 1);
      assert rows[1..] == FilledRows(entries[1..], players, index + 1).value;
    }
  }

  /** The Spend badge equals the sum of the prices written in the card's rows. */
  lemma SpendMatchesRows(settings: Settings, team: Team, players: seq<Player>)
    requires team.userplayer.Some?
    requires RenderTeam(settings, team, players).Success?
    ensures var card := RenderTeam(settings, team, players).value;
      ShownTotal(card.rows.value) == card.spend
  {
    var entries := team.userplayer.value;
    var filled := FilledRows(entries, players, 0).value;
    var empty := PlaceholderRows(settings.playercount - |entries|, |entries|).value;
    ShownTotalAppend(filled, empty);
    FilledRowsTotal(entries, players, 0);
    PlaceholdersShowNothing(empty);
  }

  // ---------------------------------------------------------------- worked cards

  /** A roster of one player bought above list price: spend 30, balance 70, a success row and two
      placeholders. */
  lemma BoughtAboveListPrice()
    ensures RenderTeam(Settings(0, 3, 100), Team("t", Some([Entry("p1", 30)])), [Player("p1", "Ann", 25)])
      == Success(Card("t", 30, 70, Some([Filled(1, "Ann", 30, false), Placeholder(2), Placeholder(3)])))
  {
    var entries, players := [Entry("p1", 30)], [Player("p1", "Ann", 25)];
    var settings, team := Settings(0, 3, 100), Team("t", Some(entries));
    assert FindPlayer(players, entries[0].id) == Some(players[0]);
    assert entries[1..] == [];
    var filled := FilledRows(entries, players, 0);
    assert filled.value == [FilledRow(0, entries[0], players[0])] + FilledRows([], players, 1).value;
    var empty := PlaceholderRows(settings.playercount - |entries|, |entries|);
    assert empty.value == [Placeholder(2), Placeholder(3)];
    assert filled.value + empty.value == [Filled(1, "Ann", 30, false), Placeholder(2), Placeholder(3)];
    assert Sum(entries) == entries[0].price + Sum([]);
    assert Spend(team.userplayer) == 30;
    assert RenderTeam(settings, team, players) == Success(Card("t", 30, 70, Some(filled.value + empty.value)));
  }

  /** A roster of one player bought below list price: spend 10, balance 90, a bid-error row. */
  lemma BoughtBelowListPrice()
    ensures RenderTeam(Settings(0, 3, 100), Team("t", Some([Entry("p2", 10)])), [Player("p2", "Bo", 20)])
      == Success(Card("t", 10, 90, Some([Filled(1, "Bo", 10, true), Placeholder(2), Placeholder(3)])))
  {
    var entries, players := [Entry("p2", 10)], [Player("p2", "Bo", 20)];
    var settings, team := Settings(0, 3, 100), Team("t", Some(entries));
    assert FindPlayer(players, entries[0].id) == Some(players[0]);
    assert entries[1..] == [];
    var filled := FilledRows(entries, players, 0);
    assert filled.value == [FilledRow(0, entries[0], players[0])] + FilledRows([], players, 1).value;
    var empty := PlaceholderRows(settings.playercount - |entries|, |entries|);
    assert empty.value == [Placeholder(2), Placeholder(3)];
    assert filled.value + empty.value == [Filled(1, "Bo", 10, true), Placeholder(2), Placeholder(3)];
    assert Sum(entries) == entries[0].price + Sum([]);
    assert Spend(team.userplayer) == 10;
    assert RenderTeam(settings, team, players) == Success(Card("t", 10, 90, Some(filled.value + empty.value)));
  }

  /** A roster longer than `playercount` is not padded with zero rows: the card throws. */
  lemma OverfullRosterThrows()
    ensures RenderTeam(Settings(0, 1, 100), Team("t", Some([Entry("p", 1), Entry("p", 2)])), [Player("p", "Cy", 1)])
      == Failure(InvalidArrayLength(-1))
  {
  }

  // ---------------------------------------------------------------- page

  /** `teamCollection.docs.map(...)`: one card per team in collection order; the first team
      whose card throws makes the whole page throw. */
  function RenderTeams(settings: Settings, teams: seq<Team>, players: seq<Player>): (r: Result<seq<Card>, Fault>)
    ensures r.Success? <==> forall k :: 0 <= k < |teams| ==> RenderTeam(settings, teams[k], players).Success?
    ensures r.Success? ==> |r.value| == |teams|
    ensures r.Success? ==>
      forall k :: 0 <= k < |teams| ==> r.value[k] == RenderTeam(settings, teams[k], players).value
    ensures r.Failure? ==>
      exists k :: 0 <= k < |teams| && RenderTeam(settings, teams[k], players) == Failure(r.error) &&
        forall j :: 0 <= j < k ==> RenderTeam(settings, teams[j], players).Success?
    decreases |teams|
  {
    if teams == [] then Success([])
    else
      var first :- RenderTeam(settings, teams[0], players);
      var rest := RenderTeams(settings, teams[1..], players);
      assert forall k :: 1 <= k < |teams| ==> teams[k] == teams[1..][k - 1];
      if rest.Failure? then Failure(rest.error)
      else Success([first] + rest.value)
  }

  /** The page once all three collections have loaded: the settings are the first settings
      document, which must exist. */
  function RenderPage(settingsDocs: seq<Settings>, teams: seq<Team>, players: seq<Player>): (r: Result<seq<Card>, Fault>)
    ensures settingsDocs == [] ==> r == Failure(MissingSettings)
    ensures r.Success? <==>
      settingsDocs != [] && forall k :: 0 <= k < |teams| ==> RenderTeam(settingsDocs[0], teams[k], players).Success?
    ensures r.Success? ==> |r.value| == |teams|
    ensures r.Success? ==>
      forall k :: 0 <= k < |teams| ==> r.value[k] == RenderTeam(settingsDocs[0], teams[k], players).value
    ensures settingsDocs != [] && r.Failure? ==> r.error != MissingSettings
  {
    if settingsDocs == [] then Failure(MissingSettings)
    else RenderTeams(settingsDocs[0], teams, players)
  }
}
