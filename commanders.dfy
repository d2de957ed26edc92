/** Commander resolution (`get_player_commanders`) and the name lookup it
    calls (`get_scryfall_name_from_arena_id`), with the card service behind
    an abstract `fetch`. */
module CommanderResolver {
  import opened PyJson
  import opened LogLoader
  import opened MatchParser

  /** What the card service answers for one Arena card id: a status and the
      body as `json.loads` would decode it (`None` when it does not decode),
      or no answer at all. */
  datatype Response = Response(status: int, body: Option<Json>) | ConnectionFailed

  type Fetcher = Json -> Response

  const HttpOk := 200

  /** The card name for an Arena id, falling back to the id itself when the
      service does not answer 200 or the card has no `"name"`. A failed
      connection and an undecodable body are not caught. */
  function ScryfallName(id: Json, fetch: Fetcher): (r: Result<Json>)
    ensures fetch(id).ConnectionFailed? ==> r == Err(ConnectionError)
    ensures fetch(id).Response? && fetch(id).status != HttpOk ==> r == Ok(id)
    ensures r.Ok? && r.value != id ==>
              && fetch(id).Response? && fetch(id).status == HttpOk
              && fetch(id).body.Some? && fetch(id).body.value.JObj?
              && "name" in fetch(id).body.value.fields
              && fetch(id).body.value.fields["name"] == r.value
    ensures (&& fetch(id).Response? && fetch(id).status == HttpOk && fetch(id).body.Some?
             && fetch(id).body.value.JObj? && "name" !in fetch(id).body.value.fields) ==> r == Ok(id)
    ensures (&& fetch(id).Response? && fetch(id).status == HttpOk && fetch(id).body.Some?
             && fetch(id).body.value.JObj? && "name" in fetch(id).body.value.fields) ==>
              r == Ok(fetch(id).body.value.fields["name"])
    ensures fetch(id).Response? && fetch(id).status == HttpOk && fetch(id).body.None? ==> r == Err(DecodeError)
    ensures (&& fetch(id).Response? && fetch(id).status == HttpOk && fetch(id).body.Some?
             && !fetch(id).body.value.JObj?) ==> r == Err(AttributeError)
    ensures r.Err? ==> r.error in {ConnectionError, DecodeError, AttributeError}
    ensures r.Err? <==> || fetch(id).ConnectionFailed?
                        || (fetch(id).status == HttpOk && (fetch(id).body.None? || !fetch(id).body.value.JObj?))
  {
    match fetch(id)
    case ConnectionFailed => Err(ConnectionError)
    case Response(status, body) =>
      if status != HttpOk then Ok(id)
      else
        var card :- match body case Some(j) => Ok(j) case None => Err(DecodeError);
        DictGet(card, "name", id)
  }

  /** The two resolved commanders of a row; `JNull` stands for `None`. */
  datatype CommanderPair = CommanderPair(player: Json, opponent: Json)

  /** `player["player_seat_id"] == seat` */
  function SeatIs(seat: Json): CommanderEntry -> Result<bool>
  {
    (entry: CommanderEntry) => Ok(PyEquals(entry.seat, seat))
  }

  /** `player["commander"]` */
  function Commander(entry: CommanderEntry): Result<Json>
  {
    Ok(entry.commander)
  }

  /** The commanders of one correlated row. A match id missing from the map
      is the one `KeyError` the source catches, giving a pair of `None`s
      whatever the card service would answer; an unhashable match id is an
      uncaught TypeError. The player's commander is resolved before the
      opponent's seat is searched. */
  function PlayerCommanders(row: MatchRow, commanders: map<Json, seq<CommanderEntry>>, fetch: Fetcher): (r: Result<CommanderPair>)
    ensures HashKey(row.gameId).Err? ==> r == Err(TypeError)
    ensures HashKey(row.gameId).Ok? && HashKey(row.gameId).value !in commanders ==> r == Ok(CommanderPair(JNull, JNull))
  {
    var key :- HashKey(row.gameId);
    if key !in commanders then Ok(CommanderPair(JNull, JNull))
    else
      var entries := commanders[key];
      var mine :- First(entries, SeatIs(row.playerSeat), Commander);
      var player :- ScryfallName(mine, fetch);
      var theirs :- First(entries, SeatIs(JNum(row.opponentSeat)), Commander);
      var opponent :- ScryfallName(theirs, fetch);
      Ok(CommanderPair(player, opponent))
  }

  /** Only `KeyError` is caught, and none escapes: a missing match id is the
      only place one can arise. */
  lemma NoKeyErrorEscapes(row: MatchRow, commanders: map<Json, seq<CommanderEntry>>, fetch: Fetcher)
    requires PlayerCommanders(row, commanders, fetch).Err?
    ensures PlayerCommanders(row, commanders, fetch).error in {TypeError, IndexError, ConnectionError, DecodeError, AttributeError}
  {
    var key := HashKey(row.gameId);
    if key.Ok? && key.value in commanders {
      var entries := commanders[key.value];
      var mine := First(entries, SeatIs(row.playerSeat), Commander);
      if mine.Err? {
        FirstErrors(entries, SeatIs(row.playerSeat), Commander);
      } else if ScryfallName(mine.value, fetch).Ok? {
        var theirs := First(entries, SeatIs(JNum(row.opponentSeat)), Commander);
        if theirs.Err? {
          FirstErrors(entries, SeatIs(JNum(row.opponentSeat)), Commander);
        }
      }
    }
  }

  /** Each resolved commander is the lookup of the commander of the first
      entry for that seat: the player's seat, and `3 - seat` for the
      opponent. */
  lemma CommandersAreFirstSeatEntries(row: MatchRow, commanders: map<Json, seq<CommanderEntry>>, fetch: Fetcher, pair: CommanderPair)
    requires PlayerCommanders(row, commanders, fetch) == Ok(pair)
    requires HashKey(row.gameId).Ok? && HashKey(row.gameId).value in commanders
    ensures var entries := commanders[HashKey(row.gameId).value];
            && (exists i :: && IsFirst(entries, SeatIs(row.playerSeat), i)
                            && ScryfallName(entries[i].commander, fetch) == Ok(pair.player))
            && (exists i :: && IsFirst(entries, SeatIs(JNum(row.opponentSeat)), i)
                            && ScryfallName(entries[i].commander, fetch) == Ok(pair.opponent))
  {
    var entries := commanders[HashKey(row.gameId).value];
    FirstPicksFirstMatch(entries, SeatIs(row.playerSeat), Commander);
    FirstPicksFirstMatch(entries, SeatIs(JNum(row.opponentSeat)), Commander);
  }

  /** A seat with no entry in a known match is an uncaught IndexError. */
  lemma MissingSeatFails(row: MatchRow, commanders: map<Json, seq<CommanderEntry>>, fetch: Fetcher)
    requires HashKey(row.gameId).Ok? && HashKey(row.gameId).value in commanders
    requires forall e :: e in commanders[HashKey(row.gameId).value] ==> !PyEquals(e.seat, row.playerSeat)
    ensures PlayerCommanders(row, commanders, fetch) == Err(IndexError)
  {
    var entries := commanders[HashKey(row.gameId).value];
    FirstPicksFirstMatch(entries, SeatIs(row.playerSeat), Commander);
  }

  /** A seat lookup never raises on the loader's records: the condition and
      the projection only read fields every record has. */
  lemma SeatLookupNeverRaises(entries: seq<CommanderEntry>, seat: Json)
    ensures NoneRaises(entries, SeatIs(seat), Commander)
  {
    NoneRaisesEach(entries, SeatIs(seat), Commander);
  }

  /** A known match with an entry for each seat, whose two card lookups
      answer, resolves to the names of the first entry for each seat. */
  lemma KnownMatchResolves(row: MatchRow, commanders: map<Json, seq<CommanderEntry>>, fetch: Fetcher, i: int, j: int)
    requires HashKey(row.gameId).Ok? && HashKey(row.gameId).value in commanders
    requires IsFirst(commanders[HashKey(row.gameId).value], SeatIs(row.playerSeat), i)
    requires IsFirst(commanders[HashKey(row.gameId).value], SeatIs(JNum(row.opponentSeat)), j)
    requires ScryfallName(commanders[HashKey(row.gameId).value][i].commander, fetch).Ok?
    requires ScryfallName(commanders[HashKey(row.gameId).value][j].commander, fetch).Ok?
    ensures var entries := commanders[HashKey(row.gameId).value];
            PlayerCommanders(row, commanders, fetch) ==
              Ok(CommanderPair(ScryfallName(entries[i].commander, fetch).value,
                               ScryfallName(entries[j].commander, fetch).value))
  {
    var entries := commanders[HashKey(row.gameId).value];
    SeatLookupNeverRaises(entries, row.playerSeat);
    SeatLookupNeverRaises(entries, JNum(row.opponentSeat));
    FirstFindsFirst(entries, SeatIs(row.playerSeat), Commander, i);
    FirstFindsFirst(entries, SeatIs(JNum(row.opponentSeat)), Commander, j);
  }

  /** A known match whose player entry is found and looked up, but with no
      entry for `opponent_seat`, is an uncaught IndexError. */
  lemma MissingOpponentSeatFails(row: MatchRow, commanders: map<Json, seq<CommanderEntry>>, fetch: Fetcher, i: int)
    requires HashKey(row.gameId).Ok? && HashKey(row.gameId).value in commanders
    requires IsFirst(commanders[HashKey(row.gameId).value], SeatIs(row.playerSeat), i)
    requires ScryfallName(commanders[HashKey(row.gameId).value][i].commander, fetch).Ok?
    requires forall e :: e in commanders[HashKey(row.gameId).value] ==> !PyEquals(e.seat, JNum(row.opponentSeat))
    ensures PlayerCommanders(row, commanders, fetch) == Err(IndexError)
  {
    var entries := commanders[HashKey(row.gameId).value];
    SeatLookupNeverRaises(entries, row.playerSeat);
    FirstFindsFirst(entries, SeatIs(row.playerSeat), Commander, i);
    FirstPicksFirstMatch(entries, SeatIs(JNum(row.opponentSeat)), Commander);
  }
}
