/** The match correlator (`parse_match_data`): pairs deck `i` with match
    `i` by position and derives one flat row per pair. */
module MatchParser {
  import opened PyJson

  const MatchScope: string := "MatchScope_Match"

  /** One correlated row. Values the source copies out of the decoded
      events stay `Json`; `timestampMs` is `int(match["timestamp"])`, the
      milliseconds before they become a calendar time. */
  datatype MatchRow = MatchRow(
    gameId: Json,
    timestampMs: int,
    deckName: Json,
    opponent: Json,
    gameWon: bool,
    resultReason: Json,
    playerSeat: Json,
    opponentSeat: int)

  function RoomInfo(game: Json): Result<Json>
  {
    var event :- Get(game, "matchGameRoomStateChangedEvent");
    Get(event, "gameRoomInfo")
  }

  function RoomConfig(game: Json): Result<Json>
  {
    var info :- RoomInfo(game);
    Get(info, "gameRoomConfig")
  }

  /** The reserved players of a completed match, as the loops iterate them. */
  function ReservedPlayers(game: Json): Result<seq<Json>>
  {
    var config :- RoomConfig(game);
    var players :- Get(config, "reservedPlayers");
    Elements(players)
  }

  /** The result entries of a completed match. */
  function ResultList(game: Json): Result<seq<Json>>
  {
    var info :- RoomInfo(game);
    var final :- Get(info, "finalMatchResult");
    var results :- Get(final, "resultList");
    Elements(results)
  }

  function MatchId(game: Json): Result<Json>
  {
    var config :- RoomConfig(game);
    Get(config, "matchId")
  }

  /** `int(match["timestamp"])`: the milliseconds of the event. */
  function TimestampMs(game: Json): Result<int>
  {
    var stamp :- Get(game, "timestamp");
    IntOf(stamp)
  }

  function DeckName(deck: Json): Result<Json>
  {
    var summary :- Get(deck, "Summary");
    Get(summary, "Name")
  }

  /** `player["playerName"] == name` */
  function NamedAs(name: string): Json -> Result<bool>
  {
    player => var n :- Get(player, "playerName"); Ok(PyEquals(n, JStr(name)))
  }

  /** `player["playerName"] != name` */
  function NamedOtherThan(name: string): Json -> Result<bool>
  {
    player => var n :- Get(player, "playerName"); Ok(!PyEquals(n, JStr(name)))
  }

  /** `result["scope"] == "MatchScope_Match"` */
  function IsMatchScope(result: Json): Result<bool>
  {
    var scope :- Get(result, "scope");
    Ok(PyEquals(scope, JStr(MatchScope)))
  }

  /** `x[key]` as a projection. */
  function Field(key: string): Json -> Result<Json>
  {
    x => Get(x, key)
  }

  /** `result.get("winningTeamId", None)` */
  function WinningTeam(result: Json): Result<Json>
  {
    DictGet(result, "winningTeamId", JNull)
  }

  /** The winner and the reason of a match, each read by its own
      first-match comprehension over the result list. */
  datatype Outcome = Outcome(winner: Json, reason: Json)

  function MatchOutcome(game: Json): (r: Result<Outcome>)
    ensures r.Ok? ==> ResultList(game).Ok? && |ResultList(game).value| > 0
    ensures (&& ResultList(game).Ok?
             && forall i :: 0 <= i < |ResultList(game).value| ==> IsMatchScope(ResultList(game).value[i]) == Ok(false))
            ==> r == Err(IndexError)
  {
    var results :- ResultList(game);
    FirstPicksFirstMatch(results, IsMatchScope, WinningTeam);
    var winner :- First(results, IsMatchScope, WinningTeam);
    var reason :- First(results, IsMatchScope, Field("reason"));
    Ok(Outcome(winner, reason))
  }

  /** One row from one deck and one match, evaluated in the order in which
      `parse_match_data` reads them, each step failing where Python would
      raise. */
  function ParseMatch(deck: Json, game: Json, playerName: string): (r: Result<MatchRow>)
    ensures r.Ok? ==> Number(r.value.playerSeat) == Ok(3 - r.value.opponentSeat)
    ensures r.Ok? ==> MatchId(game) == Ok(r.value.gameId)
    ensures r.Ok? ==> DeckName(deck) == Ok(r.value.deckName)
    ensures r.Ok? ==> TimestampMs(game) == Ok(r.value.timestampMs)
  {
    var players :- ReservedPlayers(game);
    var seat :- First(players, NamedAs(playerName), Field("teamId"));
    var gameId :- MatchId(game);
    var millis :- TimestampMs(game);
    var deckName :- DeckName(deck);
    var opponent :- First(players, NamedOtherThan(playerName), Field("playerName"));
    var outcome :- MatchOutcome(game);
    var seatNumber :- Number(seat);
    Ok(MatchRow(gameId, millis, deckName, opponent, PyEquals(outcome.winner, seat), outcome.reason, seat, 3 - seatNumber))
  }

  /** The loop of `parse_match_data` for a row builder `f`: a row per pair
      of the zip of `xs` and `ys`, so only their common prefix is read; the
      first failing pair ends it. */
  method ZipRows<A, B, T>(xs: seq<A>, ys: seq<B>, f: (A, B) -> Result<T>) returns (r: Result<seq<T>>)
    ensures r.Ok? ==> |r.value| == if |xs| <= |ys| then |xs| else |ys|
    ensures r.Ok? ==> forall i :: 0 <= i < |r.value| ==> f(xs[i], ys[i]) == Ok(r.value[i])
    ensures r.Err? ==> exists i :: && 0 <= i < |xs| && i < |ys|
                                   && f(xs[i], ys[i]) == Err(r.error)
                                   && forall j :: 0 <= j < i ==> f(xs[j], ys[j]).Ok?
  {
    var n := if |xs| <= |ys| then |xs| else |ys|;
    var rows: seq<T> := [];
    var i := 0;
    while i < n
      invariant 0 <= i <= n
      invariant |rows| == i
      invariant forall j :: 0 <= j < i ==> f(xs[j], ys[j]) == Ok(rows[j])
    {
      var row := f(xs[i], ys[i]);
      if row.Err? {
        return Err(row.error);
      }
      rows := rows + [row.value];
      i := i + 1;
    }
    r := Ok(rows);
  }

  /** `parse_match_data`: row `i` is built from deck `i` and match `i`. */
  method ParseMatchData(decks: seq<Json>, matches: seq<Json>, playerName: string) returns (r: Result<seq<MatchRow>>)
    ensures r.Ok? ==> |r.value| == if |decks| <= |matches| then |decks| else |matches|
    ensures r.Ok? ==> forall i :: 0 <= i < |r.value| ==>
              ParseMatch(decks[i], matches[i], playerName) == Ok(r.value[i])
    ensures r.Err? ==> exists i :: && 0 <= i < |decks| && i < |matches|
                                   && ParseMatch(decks[i], matches[i], playerName) == Err(r.error)
                                   && forall j :: 0 <= j < i ==> ParseMatch(decks[j], matches[j], playerName).Ok?
  {
    r := ZipRows(decks, matches, (deck, game) => ParseMatch(deck, game, playerName));
  }

  /** What a successful row was read from: the two lookups over the
      reserved players and the outcome of the match. */
  lemma ParseMatchReads(deck: Json, game: Json, playerName: string, row: MatchRow)
    requires ParseMatch(deck, game, playerName) == Ok(row)
    ensures ReservedPlayers(game).Ok? && MatchOutcome(game).Ok?
    ensures First(ReservedPlayers(game).value, NamedAs(playerName), Field("teamId")) == Ok(row.playerSeat)
    ensures First(ReservedPlayers(game).value, NamedOtherThan(playerName), Field("playerName")) == Ok(row.opponent)
    ensures MatchOutcome(game).value.reason == row.resultReason
    ensures row.gameWon == PyEquals(MatchOutcome(game).value.winner, row.playerSeat)
  {
  }

  /** The player's seat is the teamId of the first reserved player with the
      configured name, and the opponent is the name of the first reserved
      player with another name. */
  lemma SeatsFromFirstMatchingPlayers(deck: Json, game: Json, playerName: string, row: MatchRow)
    requires ParseMatch(deck, game, playerName) == Ok(row)
    ensures ReservedPlayers(game).Ok?
    ensures exists i :: && IsFirst(ReservedPlayers(game).value, NamedAs(playerName), i)
                        && Get(ReservedPlayers(game).value[i], "teamId") == Ok(row.playerSeat)
    ensures exists i :: && IsFirst(ReservedPlayers(game).value, NamedOtherThan(playerName), i)
                        && Get(ReservedPlayers(game).value[i], "playerName") == Ok(row.opponent)
    ensures !PyEquals(row.opponent, JStr(playerName))
  {
    ParseMatchReads(deck, game, playerName, row);
    var players := ReservedPlayers(game).value;
    FirstPicksFirstMatch(players, NamedAs(playerName), Field("teamId"));
    FirstPicksFirstMatch(players, NamedOtherThan(playerName), Field("playerName"));
    var i :| IsFirst(players, NamedOtherThan(playerName), i) && Field("playerName")(players[i]) == Ok(row.opponent);
    assert NamedOtherThan(playerName)(players[i]) == Ok(true);
  }

  /** When no reserved player has the configured name the row fails with
      IndexError, before anything else is read. */
  lemma NoSuchPlayerFails(deck: Json, game: Json, playerName: string, players: seq<Json>)
    requires ReservedPlayers(game) == Ok(players)
    requires forall i :: 0 <= i < |players| ==> NamedAs(playerName)(players[i]) == Ok(false)
    ensures ParseMatch(deck, game, playerName) == Err(IndexError)
  {
    FirstPicksFirstMatch(players, NamedAs(playerName), Field("teamId"));
  }

  /** The winner and the reason come from the same entry, the first one
      scoped to the whole match; the winner is None when that entry has no
      winningTeamId. */
  lemma OutcomeFromFirstMatchScope(game: Json, outcome: Outcome)
    requires MatchOutcome(game) == Ok(outcome)
    ensures ResultList(game).Ok?
    ensures exists i :: && IsFirst(ResultList(game).value, IsMatchScope, i)
                        && Get(ResultList(game).value[i], "reason") == Ok(outcome.reason)
                        && ResultList(game).value[i].JObj?
                        && var fields := ResultList(game).value[i].fields;
                           outcome.winner == if "winningTeamId" in fields then fields["winningTeamId"] else JNull
  {
    var results := ResultList(game).value;
    FirstPicksFirstMatch(results, IsMatchScope, WinningTeam);
    FirstPicksFirstMatch(results, IsMatchScope, Field("reason"));
    var i :| IsFirst(results, IsMatchScope, i) && WinningTeam(results[i]) == Ok(outcome.winner);
    var j :| IsFirst(results, IsMatchScope, j) && Field("reason")(results[j]) == Ok(outcome.reason);
  }

  /** The win flag holds exactly when the winningTeamId of the first
      match-scoped entry (None when absent) equals the player's seat, so an
      entry without one is a loss; the reason comes from that same entry. */
  lemma ResultFromFirstMatchScope(deck: Json, game: Json, playerName: string, row: MatchRow)
    requires ParseMatch(deck, game, playerName) == Ok(row)
    ensures ResultList(game).Ok?
    ensures exists i :: && IsFirst(ResultList(game).value, IsMatchScope, i)
                        && Get(ResultList(game).value[i], "reason") == Ok(row.resultReason)
                        && ResultList(game).value[i].JObj?
                        && var fields := ResultList(game).value[i].fields;
                           (row.gameWon <==> PyEquals(if "winningTeamId" in fields then fields["winningTeamId"] else JNull,
                                                      row.playerSeat))
                           && ("winningTeamId" !in fields ==> !row.gameWon)
  {
    ParseMatchReads(deck, game, playerName, row);
    OutcomeFromFirstMatchScope(game, MatchOutcome(game).value);
  }

  /** A match without a match-scoped result entry yields no row. */
  lemma NoMatchScopeFails(deck: Json, game: Json, playerName: string, results: seq<Json>)
    requires ResultList(game) == Ok(results)
    requires forall i :: 0 <= i < |results| ==> IsMatchScope(results[i]) == Ok(false)
    ensures ParseMatch(deck, game, playerName).Err?
  {
    FirstPicksFirstMatch(results, IsMatchScope, WinningTeam);
  }

  /** When every result entry has a scope and every match-scoped entry a
      reason, the outcome is read from the first match-scoped entry. */
  lemma OutcomeOfFirstMatchScope(game: Json, results: seq<Json>, m: int, winner: Json, reason: Json)
    requires ResultList(game) == Ok(results)
    requires NoneRaises(results, IsMatchScope, Field("reason"))
    requires IsFirst(results, IsMatchScope, m)
    requires WinningTeam(results[m]) == Ok(winner) && Get(results[m], "reason") == Ok(reason)
    ensures MatchOutcome(game) == Ok(Outcome(winner, reason))
  {
    NoneRaisesEach(results, IsMatchScope, Field("reason"));
    NoneRaisesEach(results, IsMatchScope, WinningTeam);
    forall j | 0 <= j < |results|
      ensures IsMatchScope(results[j]).Ok? && (IsMatchScope(results[j]) == Ok(true) ==> WinningTeam(results[j]).Ok?)
    {
      assert IsMatchScope(results[j]).Ok?;
    }
    FirstFindsFirst(results, IsMatchScope, WinningTeam, m);
    FirstFindsFirst(results, IsMatchScope, Field("reason"), m);
  }

  /** ParseMatch succeeds once each of its reads succeeds. */
  lemma ParseMatchSucceeds(deck: Json, game: Json, playerName: string, players: seq<Json>)
    requires ReservedPlayers(game) == Ok(players)
    requires First(players, NamedAs(playerName), Field("teamId")).Ok?
    requires First(players, NamedOtherThan(playerName), Field("playerName")).Ok?
    requires MatchId(game).Ok? && TimestampMs(game).Ok? && DeckName(deck).Ok?
    requires MatchOutcome(game).Ok?
    requires Number(First(players, NamedAs(playerName), Field("teamId")).value).Ok?
    ensures ParseMatch(deck, game, playerName).Ok?
  {
  }

  /** The row ParseMatch builds once each of its reads has succeeded. */
  lemma ParseMatchOfReads(deck: Json, game: Json, playerName: string,
                          players: seq<Json>, seat: Json, opponent: Json, outcome: Outcome)
    requires ReservedPlayers(game) == Ok(players)
    requires First(players, NamedAs(playerName), Field("teamId")) == Ok(seat)
    requires First(players, NamedOtherThan(playerName), Field("playerName")) == Ok(opponent)
    requires MatchId(game).Ok? && TimestampMs(game).Ok? && DeckName(deck).Ok?
    requires MatchOutcome(game) == Ok(outcome)
    requires Number(seat).Ok?
    ensures ParseMatch(deck, game, playerName) ==
              Ok(MatchRow(MatchId(game).value, TimestampMs(game).value, DeckName(deck).value, opponent,
                          PyEquals(outcome.winner, seat), outcome.reason, seat, 3 - Number(seat).value))
  {
    ParseMatchSucceeds(deck, game, playerName, players);
    var row := ParseMatch(deck, game, playerName).value;
    ParseMatchReads(deck, game, playerName, row);
    assert row.playerSeat == seat && row.opponent == opponent;
    assert row.opponentSeat == 3 - Number(seat).value;
    assert row.gameWon == PyEquals(outcome.winner, seat) && row.resultReason == outcome.reason;
  }

  /** With no reserved player raising, the seat and the opponent are read
      from the first player of each kind. */
  lemma PlayersOfFirst(players: seq<Json>, playerName: string, i: int, k: int)
    requires NoneRaises(players, NamedAs(playerName), Field("teamId"))
    requires IsFirst(players, NamedAs(playerName), i) && IsFirst(players, NamedOtherThan(playerName), k)
    ensures Get(players[i], "teamId").Ok? && Get(players[k], "playerName").Ok?
    ensures First(players, NamedAs(playerName), Field("teamId")) == Get(players[i], "teamId")
    ensures First(players, NamedOtherThan(playerName), Field("playerName")) == Get(players[k], "playerName")
  {
    NoneRaisesEach(players, NamedAs(playerName), Field("teamId"));
    NoneRaisesEach(players, NamedOtherThan(playerName), Field("playerName"));
    assert Field("teamId")(players[i]).Ok?;
    assert NamedOtherThan(playerName)(players[k]) == Ok(true);
    forall j | 0 <= j < |players|
      ensures NamedOtherThan(playerName)(players[j]).Ok?
      ensures NamedOtherThan(playerName)(players[j]) == Ok(true) ==> Field("playerName")(players[j]).Ok?
    {
      assert NamedAs(playerName)(players[j]).Ok?;
    }
    FirstFindsFirst(players, NamedAs(playerName), Field("teamId"), i);
    FirstFindsFirst(players, NamedOtherThan(playerName), Field("playerName"), k);
  }

  /** A match in which every read succeeds yields its row: the seat is the
      first configured player's teamId, the opponent the first other
      player's name, and the result and reason come from the first
      match-scoped entry. No reserved player and no result entry may raise,
      since the comprehensions read all of them. */
  lemma WellFormedMatchGivesRow(deck: Json, game: Json, playerName: string,
                                players: seq<Json>, i: int, k: int, seat: Json, opponent: Json,
                                results: seq<Json>, m: int, winner: Json, reason: Json)
    requires ReservedPlayers(game) == Ok(players)
    requires NoneRaises(players, NamedAs(playerName), Field("teamId"))
    requires IsFirst(players, NamedAs(playerName), i) && IsFirst(players, NamedOtherThan(playerName), k)
    requires Get(players[i], "teamId") == Ok(seat) && Number(seat).Ok?
    requires Get(players[k], "playerName") == Ok(opponent)
    requires MatchId(game).Ok? && TimestampMs(game).Ok? && DeckName(deck).Ok?
    requires ResultList(game) == Ok(results)
    requires NoneRaises(results, IsMatchScope, Field("reason"))
    requires IsFirst(results, IsMatchScope, m)
    requires WinningTeam(results[m]) == Ok(winner) && Get(results[m], "reason") == Ok(reason)
    ensures ParseMatch(deck, game, playerName) ==
              Ok(MatchRow(MatchId(game).value, TimestampMs(game).value, DeckName(deck).value, opponent,
                          PyEquals(winner, seat), reason, seat, 3 - Number(seat).value))
  {
    PlayersOfFirst(players, playerName, i, k);
    OutcomeOfFirstMatchScope(game, results, m, winner, reason);
    ParseMatchOfReads(deck, game, playerName, players, seat, opponent, Outcome(winner, reason));
  }
}
