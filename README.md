# MTGA match tracker: log-to-rows pipeline

This project models the core of `parse_logs.py` from the MTG Arena match
tracker, in Dafny. The core is the pipeline that turns the client's
`Player.log` into one row per completed match. It has three stages:

1. **Log reader** (`load_mtga_logs`): one pass over the log lines. Each
   line is classified with literal tests in a fixed order:
   - a line containing `GameStage_Start` is a game-stage event;
   - a line starting with `[UnityCrossThreadLogger]==> EventSetDeckV2 ` is a
     deck event;
   - a line containing the match-completed state marker is a match event;
   - every other line is ignored.

   The reader builds the deck list, the completed-match list and a
   first-wins map. The map goes from match id to each seat's commander card
   id.
2. **Match correlator** (`parse_match_data`): pairs deck `i` with match `i`
   and derives the player's seat, the opponent, the win flag, the result
   reason and `opponent_seat = 3 - player_seat`.
3. **Commander resolver** (`get_player_commanders` and the fallback rule of
   `get_scryfall_name_from_arena_id`): looks up both seats' commander ids
   for a row and resolves each one to a card name.

Modules:

- `PyJson` (pyjson.dfy) holds the decoded-JSON value and the Python
  behaviour the code relies on:
  - `d[k]` and `d.get(k, default)`;
  - iteration over a decoded value;
  - `==` between numbers and booleans, and dictionary keys (`True == 1`);
  - `int()` on a string;
  - list comprehensions and the `[...][0]` first-match idiom.

  Python exceptions are `Err` values. Each operation raises in the order
  Python evaluates its expressions.
- `Text` (text.dfy): `startswith`, `in` on strings, slicing and
  `replace("\n", "")`.
- `LogLoader` (loader.dfy): the log reader. `LoadMtgaLogs` is the loop. It
  is proved equal to `LoadLogs`, a left fold (`Fold`) of the per-line step
  `Step` over the lines. The properties below are proved about that fold,
  first for any step function that appends or inserts the way `Step` does,
  then for `Step` itself.
- `MatchParser` (correlate.dfy): the correlator. `ParseMatch` handles one
  pair. `ParseMatchData` is the loop over the zip, written once for any row
  builder as `ZipRows`.
- `CommanderResolver` (commanders.dfy): the resolver. The card service is
  a function parameter `fetch`.

`json.loads` is the parameter `decode: string -> Option<Json>`. `None`
means the text does not decode, and `json.loads` then raises.

## Model

| member | source | states |
|---|---|---|
| LogLoader.LoadMtgaLogs | parse_logs.py:38-77 | the loop over the lines returns exactly what the fold of `Step` over them returns, from the empty deck list, match list and map. When the read succeeds, and which exception ends it, are stated by `LoadSucceeds` and `LoadStopsAtUnreadableLine`. |
| LogLoader.ClassifyMeaning | parse_logs.py:47-75 | A line is a game-stage line iff it contains `GameStage_Start`. It is a deck line iff it does not and it starts with the deck prefix. It is a match line iff neither holds and it contains the completion marker. So a game-stage line is never read as a deck or match event. |
| LogLoader.LinesPartition | parse_logs.py:46-76 | every line falls into exactly one of the four kinds: the four counts add up to the number of lines. |
| LogLoader.LoadKeepsLogOrder | parse_logs.py:65-77 | after a successful read, the deck list is the deck lines' payloads in log order, one per deck line. The match list is the match lines, decoded, in log order, one per match line. |
| LogLoader.FoldAppends | parse_logs.py:65-77 | for any step that appends one value on the lines of one kind and nothing on the others, the fold only appends to that list. What it appends is the values of those lines, in log order. |
| LogLoader.StepAppends | parse_logs.py:65-76 | the loop body is such a step twice over: it appends the payload on deck lines and the decoded line on match lines. |
| LogLoader.StepStreams | parse_logs.py:65-76 | one line grows the deck list by one payload iff it is a deck line, and the match list by one iff it is a match line. Otherwise both lists are unchanged. |
| LogLoader.LoadFirstWins | parse_logs.py:60-64 | every match id in the map is the key of a game-stage line. Its entry is the per-game-object record list built from the first such line, one record per game object, in order. Every game-stage line's id is in the map. |
| LogLoader.FoldCommanders | parse_logs.py:60-64 | for any step that inserts only absent keys, the fold never changes a stored entry. A new key's entry comes from its first game-stage line, and every game-stage line's key ends up in the map. |
| LogLoader.StepStoresIfAbsent | parse_logs.py:60-64 | the loop body stores a game-stage line's records only when its match id is not yet a key, and touches the map on no other line. |
| LogLoader.StepCommanders | parse_logs.py:60-64 | one line changes the map only if it is a game-stage line whose match id is new. The map then gains exactly that id, mapped to the line's records. |
| LogLoader.RepeatedMatchIdIgnored | parse_logs.py:60 | a game-stage line whose match id is already in the map leaves all three collections unchanged. |
| LogLoader.ReadStageEvent | parse_logs.py:48-58 | a game-stage line is read only when its client event has a message list. A list with no game-state message raises IndexError. |
| LogLoader.StageEventFromFirstStateMessage | parse_logs.py:48-58 | the game objects and the match id of a game-stage line both come from its first game-state message. The stored key is that match id as a dictionary key. |
| LogLoader.FirstStateMessageGivesStageEvent | parse_logs.py:48-58 | conversely, a game-stage line is read when no message lacks a type and its first game-state message carries the game objects and a hashable match id. The result is those objects and that id. |
| LogLoader.Step | parse_logs.py:47-76 | a line of no kind leaves the state unchanged. A deck line is read iff its payload decodes, and a match line iff it decodes. A game-stage line is read iff its event is read and either its match id is already stored or its records can be built. A readable line never raises. A failing line raises exactly its own read error. A successful line only appends to the two lists and never changes a stored commander entry. |
| LogLoader.DeckPayloadDecodesTwice | parse_logs.py:68-74 | a deck line yields payload `p` iff the text after the prefix, with every newline removed, decodes to an object. That object's `request` member must be a string that itself decodes to `p`. |
| LogLoader.DeckPayload | parse_logs.py:68-74 | a deck line whose body does not decode raises DecodeError. The only other errors are a missing `request` (KeyError) and a `request` that is not a string or a body that is not a dict (TypeError). A payload is always the two-layer decode of the body. |
| Text.StartsWithIsPrefix | parse_logs.py:65 | `startswith` is the sequence prefix relation. |
| Text.ContainsIffOccurs | parse_logs.py:47 | `sub in s` holds iff `sub` is a prefix of some suffix of `s`. |
| Text.Suffix | parse_logs.py:71 | slicing from `n` leaves the string minus its first `n` characters. Past the end it leaves the empty string. |
| Text.RemoveAllAppend | parse_logs.py:71 | removing a character distributes over concatenation, so the other characters keep their order. |
| Text.RemoveAllRemoves | parse_logs.py:71 | no newline survives, and every other character keeps its count. |
| PyJson.Get | parse_logs.py:51 | subscripting succeeds exactly on a dict holding the key and gives its value. A dict without the key raises KeyError; any other value raises TypeError. |
| PyJson.DictGet | parse_logs.py:98 | `.get` gives the value or the default on a dict, and raises AttributeError on anything else. |
| PyJson.Elements | parse_logs.py:85 | a list yields its items in order. An empty dict or string yields nothing. A non-empty dict or string raises the TypeError that subscripting its first key or character with a string raises. None, booleans and numbers raise TypeError. |
| PyJson.Number | parse_logs.py:106 | arithmetic accepts exactly numbers and booleans, with `True` as 1 and `False` as 0. Anything else raises TypeError. |
| PyJson.IntOf | parse_logs.py:91 | `int()` keeps numbers and turns booleans into 1 and 0. It parses optionally signed decimal strings, and any other string raises ValueError. None, lists and dicts raise TypeError. |
| PyJson.ParseIntRoundTrip | parse_logs.py:91 | parsing the decimal text of any integer gives that integer back. |
| PyJson.HashKeyIsEquality | parse_logs.py:60 | two hashable values are the same dictionary key iff Python's `==` holds between them. |
| PyJson.MapResult | parse_logs.py:61-64 | a mapping comprehension succeeds iff every element does. The result then has one value per element, in order. |
| PyJson.FirstPicksFirstMatch | parse_logs.py:84-87 | `[proj(x) for x in xs if keep(x)][0]` is the projection of the first kept element. It raises IndexError when every element is rejected. |
| PyJson.FirstFindsFirst | parse_logs.py:84-87 | when no condition or projection raises and some element is kept, `[proj(x) for x in xs if keep(x)][0]` succeeds with the projection of the first kept element. |
| PyJson.ComprehensionSucceeds | parse_logs.py:84-87 | a comprehension in which no element raises succeeds. |
| PyJson.ComprehensionErrors | parse_logs.py:84-87 | an exception out of a comprehension was raised by the condition or the projection of one of its elements. |
| PyJson.FirstErrors | parse_logs.py:126-129 | the first-match idiom raises only IndexError or what an element raised. |
| MatchParser.ParseMatch | parse_logs.py:84-107 | a successful row's `game_id` is the match's `matchId`, its deck name is the deck's `Summary.Name` and its timestamp is `int(match["timestamp"])`. The player's seat is a number whose complement `3 - seat` is `opponent_seat`. |
| MatchParser.ZipRows | parse_logs.py:83-110 | for any row builder, a successful loop over the zip has one row per common index, each the builder's row for that pair. A failure is the error of the first failing pair, all pairs before it succeeding. |
| MatchParser.ParseMatchData | parse_logs.py:80-110 | On success there are `min(len(decks), len(matches))` rows, and row `i` is the row of deck `i` and match `i`. On failure, the error is that of the first pair that fails. |
| MatchParser.WellFormedMatchGivesRow | parse_logs.py:83-107 | a match whose reads all succeed yields its row. No reserved player and no result entry raises, some player has the configured name and some other, and some entry has match scope. The seat is the first configured player's teamId and the opponent the first other player's name. The win flag and reason come from the first match-scoped entry, and `opponent_seat` is `3 - seat`. |
| MatchParser.SeatsFromFirstMatchingPlayers | parse_logs.py:84-96 | the seat is the teamId of the first reserved player named as configured. The opponent is the name of the first reserved player named otherwise, and differs from the configured name. |
| MatchParser.NoSuchPlayerFails | parse_logs.py:84-87 | when no reserved player has the configured name, the row raises IndexError. |
| MatchParser.MatchOutcome | parse_logs.py:97-104 | a match has an outcome only if its result list is non-empty. A result list with no match-scoped entry raises IndexError. |
| MatchParser.OutcomeFromFirstMatchScope | parse_logs.py:97-104 | the winner and the reason come from one entry, the first with match scope. The winner is that entry's `winningTeamId`, or None when it has none. |
| MatchParser.OutcomeOfFirstMatchScope | parse_logs.py:97-104 | conversely, when every entry has a scope and every match-scoped entry a reason, the outcome is read from the first match-scoped entry. |
| MatchParser.ResultFromFirstMatchScope | parse_logs.py:97-104 | the win flag and the reason come from the same entry, the first one with match scope. The flag holds iff that entry's `winningTeamId` (None when absent) equals the seat, so an entry without one is a loss. |
| MatchParser.NoMatchScopeFails | parse_logs.py:97-100 | a match with no match-scoped result yields no row. |
| CommanderResolver.ScryfallName | parse_logs.py:113-119 | A 200 answer whose card has `"name"` gives that name. A non-200 answer, or a 200 card without `"name"`, gives the raw id. A failed connection raises ConnectionError, an undecodable body DecodeError, and a body that is not an object AttributeError. Nothing else raises. |
| CommanderResolver.PlayerCommanders | parse_logs.py:122-141 | a match id absent from the map gives `(None, None)` and no error, whatever the card service answers. An unhashable match id raises TypeError, which is not caught. |
| CommanderResolver.NoKeyErrorEscapes | parse_logs.py:122-141 | KeyError never escapes the resolver: every failure is TypeError, IndexError, or a failure of the card lookup. |
| CommanderResolver.CommandersAreFirstSeatEntries | parse_logs.py:125-134 | each resolved commander is the lookup of the commander of the first record for that seat: the row's seat for the player, `opponent_seat` for the opponent. |
| CommanderResolver.KnownMatchResolves | parse_logs.py:122-134 | a known match with an entry for each seat, whose two card lookups answer, resolves to the looked-up names of the first entry for each seat. |
| CommanderResolver.MissingOpponentSeatFails | parse_logs.py:130-133 | a known match whose player entry is found and looked up, but which has no entry for `opponent_seat`, raises IndexError, which is not caught. |
| CommanderResolver.MissingSeatFails | parse_logs.py:126-129 | a known match with no record for the player's seat raises IndexError, which is not caught. |

In these places the code behaves differently from what a reader might
expect, and the model follows the code:

- One might expect exactly one player with the configured name, and an
  error otherwise. The code takes the first such player, and the first
  player with another name as the opponent.
- One might expect a failed name lookup to fall back to the id. The code
  catches no network error and no undecodable 200 body. Only a non-200
  status, or a 200 card without `"name"`, falls back to the id.
- One might expect a malformed match to spoil only its own row. The code
  lets the exception end the whole correlation (`ParseMatchData` returns
  that error).
- One might expect only the trailing newline of a deck line to be
  stripped. The code removes every `"\n"` in it.
- One might expect seats to be 1 or 2. The code never checks this;
  `opponent_seat` is `3 - seat` for any number.

## Left out

- The console printer, and every message printed along the way. They are
  presentation only.
- The command-line options, `sys.exit`, and the warning when the deck and
  match lists differ in length. The warning only prints; the zip behaviour
  it warns about is modelled.
- Opening and reading `Player.log`: the lines are an input sequence.
- Writing the CSV and moving the log to a backup file: these are file I/O.
- `requests.get`: the card service is the parameter `fetch`, a function
  from card id to a status and a decoded body or a failed connection.
  Timeouts and other transport errors are all `ConnectionFailed`.
- `json.loads`: it is the parameter `decode`. Its parser, and which texts
  it accepts, are not modelled. Floating-point JSON numbers are not
  represented.
- `datetime.fromtimestamp(int(ts) / 1000)`: it uses float division and the
  local time zone. Rows keep the integer milliseconds, and overflow of
  very large timestamps is not modelled.
- The pandas DataFrame, the `apply` of the resolver to every row, and the
  dropping of the seat columns. The resolver is modelled for one row, and
  rows are a sequence of records.
- The win-rate computation: it uses float division and rounding.
- PyJson.IntOf: the whitespace, underscores and non-ASCII digits that
  `int()` also accepts are not modelled. Such strings raise ValueError
  here.
- PyJson.PyEquals: lists and dicts are compared structurally, even where
  Python would equate `[1]` with `[True]`.
- LogLoader.ReadStageEvent: the code evaluates the first-match
  comprehension over the messages twice, once for the game objects and
  once for the match id. The model evaluates it once. Both evaluations see
  the same data, so the result and the exception are the same.
