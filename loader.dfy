/** The log reader (`load_mtga_logs`): one pass over the client log that
    sorts each line into one of three event streams with literal substring
    and prefix tests, and builds the deck list, the completed-match list and
    the first-wins map from match id to the seats' commander card ids. */
module LogLoader {
  import opened PyJson
  import opened Text

  /** Marks a game-start state transition; such a line is one JSON object. */
  const GameStageMarker: string := "GameStage_Start"
  /** Starts a "set deck" line; what follows is a JSON-encoded object. */
  const SetDeckPrefix: string := "[UnityCrossThreadLogger]==> EventSetDeckV2 "
  /** Marks a completed match; such a line is one JSON object. */
  const MatchCompletedMarker: string := "\"stateType\": \"MatchGameRoomStateType_MatchCompleted\""
  /** The type tag of the message that carries the game state. */
  const GameStateMessageType: string := "GREMessageType_GameStateMessage"

  datatype LineKind = GameStage | DeckSet | MatchCompleted | Irrelevant

  /** One `{"player_seat_id": …, "commander": …}` record. */
  datatype CommanderEntry = CommanderEntry(seat: Json, commander: Json)

  /** The three collections the reader returns. Commander keys are stored
      as `HashKey` gives them, so `True` and `1` are one key. */
  datatype Logs = Logs(
    decks: seq<Json>,
    matches: seq<Json>,
    commanders: map<Json, seq<CommanderEntry>>)

  /** What a game-stage line contributes: its game objects, and the
      dictionary key of its match id. */
  datatype StageEvent = StageEvent(objects: Json, key: Json)

  const NoLogs := Logs([], [], map[])

  /** The line tests, in their fixed order (see `ClassifyMeaning`). */
  function Classify(line: string): LineKind
  {
    if Contains(line, GameStageMarker) then GameStage
    else if StartsWith(line, SetDeckPrefix) then DeckSet
    else if Contains(line, MatchCompletedMarker) then MatchCompleted
    else Irrelevant
  }

  /** What each kind means in terms of substring occurrence and prefix: a
      game-stage line is never read as a deck or match line, even when it
      also starts with the deck prefix or carries the completion marker. */
  lemma ClassifyMeaning(line: string)
    ensures Classify(line) == GameStage <==> Occurs(GameStageMarker, line)
    ensures Classify(line) == DeckSet <==> !Occurs(GameStageMarker, line) && SetDeckPrefix <= line
    ensures Classify(line) == MatchCompleted <==>
              && !Occurs(GameStageMarker, line)
              && !(SetDeckPrefix <= line)
              && Occurs(MatchCompletedMarker, line)
  {
    ContainsIffOccurs(line, GameStageMarker);
    ContainsIffOccurs(line, MatchCompletedMarker);
    StartsWithIsPrefix(line, SetDeckPrefix);
  }

  function IsGameStateMessage(message: Json): Result<bool>
  {
    var t :- Get(message, "type");
    Ok(PyEquals(t, JStr(GameStateMessageType)))
  }

  function Itself(j: Json): Result<Json> { Ok(j) }

  /** The messages of a game-stage line's client event. */
  function StageMessages(line: string, decode: Decoder): Result<seq<Json>>
  {
    var event :- Loads(decode, line);
    var client :- Get(event, "greToClientEvent");
    var messagesJ :- Get(client, "greToClientMessages");
    Elements(messagesJ)
  }

  /** Decodes a game-stage line and reaches, through the first game-state
      message, its game objects and its match id, failing where Python
      would raise; a line with no game-state message raises IndexError. */
  function ReadStageEvent(line: string, decode: Decoder): (r: Result<StageEvent>)
    ensures r.Ok? ==> StageMessages(line, decode).Ok?
    ensures (&& StageMessages(line, decode).Ok?
             && forall i :: 0 <= i < |StageMessages(line, decode).value| ==>
                  IsGameStateMessage(StageMessages(line, decode).value[i]) == Ok(false))
            ==> r == Err(IndexError)
  {
    var messages :- StageMessages(line, decode);
    FirstPicksFirstMatch(messages, IsGameStateMessage, Itself);
    var message :- First(messages, IsGameStateMessage, Itself);
    var state :- Get(message, "gameStateMessage");
    var objects :- Get(state, "gameObjects");
    var info :- Get(state, "gameInfo");
    var matchId :- Get(info, "matchID");
    var key :- HashKey(matchId);
    Ok(StageEvent(objects, key))
  }

  /** The game objects and the match id of a game-stage line both come from
      its first game-state message, and the key is the match id as a
      dictionary key. */
  lemma StageEventFromFirstStateMessage(line: string, decode: Decoder, ev: StageEvent)
    requires ReadStageEvent(line, decode) == Ok(ev)
    ensures StageMessages(line, decode).Ok?
    ensures exists i :: && IsFirst(StageMessages(line, decode).value, IsGameStateMessage, i)
                        && var state := Get(StageMessages(line, decode).value[i], "gameStateMessage");
                           && state.Ok?
                           && Get(state.value, "gameObjects") == Ok(ev.objects)
                           && Get(state.value, "gameInfo").Ok?
                           && Get(Get(state.value, "gameInfo").value, "matchID").Ok?
                           && HashKey(Get(Get(state.value, "gameInfo").value, "matchID").value) == Ok(ev.key)
  {
    var messages := StageMessages(line, decode).value;
    FirstPicksFirstMatch(messages, IsGameStateMessage, Itself);
    var i :| IsFirst(messages, IsGameStateMessage, i) && Itself(messages[i]) == First(messages, IsGameStateMessage, Itself);
  }

  /** Conversely, a game-stage line whose messages all carry a type, and
      whose first game-state message carries the objects and the match id,
      is read. */
  lemma FirstStateMessageGivesStageEvent(line: string, decode: Decoder, messages: seq<Json>, i: int,
                                         state: Json, objects: Json, info: Json, matchId: Json)
    requires StageMessages(line, decode) == Ok(messages)
    requires NoneRaises(messages, IsGameStateMessage, Itself)
    requires IsFirst(messages, IsGameStateMessage, i)
    requires Get(messages[i], "gameStateMessage") == Ok(state)
    requires Get(state, "gameObjects") == Ok(objects)
    requires Get(state, "gameInfo") == Ok(info) && Get(info, "matchID") == Ok(matchId)
    requires HashKey(matchId).Ok?
    ensures ReadStageEvent(line, decode) == Ok(StageEvent(objects, HashKey(matchId).value))
  {
    FirstFindsFirst(messages, IsGameStateMessage, Itself, i);
  }

  function StageKey(line: string, decode: Decoder): Result<Json>
  {
    var ev :- ReadStageEvent(line, decode);
    Ok(ev.key)
  }

  /** The record for one game object; one without `ownerSeatId` or
      `grpId` raises. */
  function EntryOf(player: Json): Result<CommanderEntry>
  {
    var seat :- Get(player, "ownerSeatId");
    var commander :- Get(player, "grpId");
    Ok(CommanderEntry(seat, commander))
  }

  /** The records built for a match: one per game object, in order (see
      `MapResult`). */
  function CommanderEntries(objects: Json): Result<seq<CommanderEntry>>
  {
    var players :- Elements(objects);
    MapResult(players, EntryOf)
  }

  /** What a deck line carries after the prefix, with every newline gone. */
  function DeckBody(line: string): string
  {
    RemoveAll(Suffix(line, |SetDeckPrefix|), '\n')
  }

  /** `body` is a JSON object whose `request` member is a string that is
      itself the JSON text of `payload`: two layers, not one. */
  ghost predicate EncodesTwice(body: string, payload: Json, decode: Decoder)
  {
    exists outer, request ::
      && decode(body) == Some(outer)
      && Get(outer, "request") == Ok(JStr(request))
      && decode(request) == Some(payload)
  }

  /** The deck payload of a deck line: decode the body, take its `request`
      string, decode that. */
  function DeckPayload(line: string, decode: Decoder): (r: Result<Json>)
    ensures Loads(decode, DeckBody(line)).Err? ==> r == Err(DecodeError)
    ensures r.Err? ==> r.error in {DecodeError, TypeError, KeyError(JStr("request"))}
    ensures r.Ok? ==> EncodesTwice(DeckBody(line), r.value, decode)
  {
    var outer :- Loads(decode, DeckBody(line));
    var request :- Get(outer, "request");
    match request
    case JStr(text) => Loads(decode, text)
    case _ => Err(TypeError)
  }

  /** A deck line yields a payload exactly when its body encodes that
      payload in two layers, and then yields that payload. */
  lemma DeckPayloadDecodesTwice(line: string, decode: Decoder, payload: Json)
    ensures DeckPayload(line, decode) == Ok(payload) <==> EncodesTwice(DeckBody(line), payload, decode)
  {
    if DeckPayload(line, decode) == Ok(payload) {
      var outer := decode(DeckBody(line)).value;
      var request := Get(outer, "request").value;
      assert decode(request.s) == Some(payload);
    }
  }

  /** The exception reading a line raises on its own, if any: the decoding
      its kind calls for, and for a game-stage line also the building of its
      records (which the loop skips when the match id is already stored). */
  function ReadError(line: string, decode: Decoder): Option<PyError>
  {
    match Classify(line)
    case GameStage =>
      (match ReadStageEvent(line, decode)
       case Err(e) => Some(e)
       case Ok(ev) =>
         (match CommanderEntries(ev.objects)
          case Err(e) => Some(e)
          case Ok(_) => None))
    case DeckSet =>
      (match DeckPayload(line, decode)
       case Err(e) => Some(e)
       case Ok(_) => None)
    case MatchCompleted =>
      (match Loads(decode, line)
       case Err(e) => Some(e)
       case Ok(_) => None)
    case Irrelevant => None
  }

  /** A line the loop reads without raising, whatever came before it. */
  predicate Readable(line: string, decode: Decoder)
  {
    ReadError(line, decode).None?
  }

  /** The effect of one line on the three collections (the body of the
      loop in `load_mtga_logs`). */
  function Step(st: Logs, line: string, decode: Decoder): (r: Result<Logs>)
    ensures Classify(line) == Irrelevant ==> r == Ok(st)
    ensures Classify(line) == DeckSet ==> (r.Ok? <==> DeckPayload(line, decode).Ok?)
    ensures Classify(line) == MatchCompleted ==> (r.Ok? <==> Loads(decode, line).Ok?)
    ensures Classify(line) == GameStage ==>
              (r.Ok? <==> && ReadStageEvent(line, decode).Ok?
                          && (|| ReadStageEvent(line, decode).value.key in st.commanders
                              || CommanderEntries(ReadStageEvent(line, decode).value.objects).Ok?))
    ensures Readable(line, decode) ==> r.Ok?
    ensures r.Err? ==> ReadError(line, decode) == Some(r.error)
    ensures (&& ReadError(line, decode).Some?
             && !(&& Classify(line) == GameStage && ReadStageEvent(line, decode).Ok?
                  && ReadStageEvent(line, decode).value.key in st.commanders))
            ==> r == Err(ReadError(line, decode).value)
    ensures r.Ok? ==> st.decks <= r.value.decks && st.matches <= r.value.matches
    ensures r.Ok? ==> forall key :: key in st.commanders ==>
              key in r.value.commanders && r.value.commanders[key] == st.commanders[key]
  {
    match Classify(line)
    case GameStage =>
      var ev :- ReadStageEvent(line, decode);
      if ev.key in st.commanders then Ok(st)
      else
        var entries :- CommanderEntries(ev.objects);
        Ok(st.(commanders := st.commanders[ev.key := entries]))
    case DeckSet =>
      var deck :- DeckPayload(line, decode);
      Ok(st.(decks := st.decks + [deck]))
    case MatchCompleted =>
      var m :- Loads(decode, line);
      Ok(st.(matches := st.matches + [m]))
    case Irrelevant =>
      Ok(st)
  }

  /** `for line in lines: st = step(st, line)`; the first exception ends
      the loop. */
  function Fold(st: Logs, lines: seq<string>, step: (Logs, string) -> Result<Logs>): Result<Logs>
    decreases |lines|
  {
    if lines == [] then Ok(st)
    else
      var next :- step(st, lines[0]);
      Fold(next, lines[1..], step)
  }

  /** The loop from line `i` on is one step and then the loop from `i + 1`. */
  lemma FoldFrom(st: Logs, lines: seq<string>, i: nat, step: (Logs, string) -> Result<Logs>)
    requires i < |lines|
    ensures step(st, lines[i]).Err? ==> Fold(st, lines[i..], step) == Err(step(st, lines[i]).error)
    ensures step(st, lines[i]).Ok? ==> Fold(st, lines[i..], step) == Fold(step(st, lines[i]).value, lines[i + 1..], step)
  {
    assert lines[i..][0] == lines[i] && lines[i..][1..] == lines[i + 1..];
  }

  /** The loop cut after its first `i` lines: what the rest of the lines do
      starts from where the first `i` left the state. */
  lemma {:induction false} FoldPrefix(st: Logs, lines: seq<string>, step: (Logs, string) -> Result<Logs>, i: nat, mid: Logs)
    requires i <= |lines|
    requires Fold(st, lines[..i], step) == Ok(mid)
    ensures Fold(st, lines, step) == Fold(mid, lines[i..], step)
    decreases i
  {
    if i == 0 {
      assert lines[..0] == [] && lines[0..] == lines;
    } else {
      assert lines[..i][0] == lines[0] && lines[..i][1..] == lines[1..][..i - 1];
      var next := step(st, lines[0]).value;
      FoldPrefix(next, lines[1..], step, i - 1, mid);
      assert lines[1..][i - 1..] == lines[i..];
    }
  }

  /** `step` never raises on a line that `ok` accepts, whatever the state. */
  ghost predicate NeverFailsOn(step: (Logs, string) -> Result<Logs>, ok: string -> bool)
  {
    forall st, line :: ok(line) ==> step(st, line).Ok?
  }

  /** A loop over lines its step never raises on finishes. */
  lemma {:induction false} FoldSucceeds(st: Logs, lines: seq<string>, step: (Logs, string) -> Result<Logs>, ok: string -> bool)
    requires NeverFailsOn(step, ok)
    requires forall i :: 0 <= i < |lines| ==> ok(lines[i])
    ensures Fold(st, lines, step).Ok?
    decreases |lines|
  {
    if lines != [] {
      assert ok(lines[0]);
      var next := step(st, lines[0]).value;
      assert forall i :: 0 <= i < |lines[1..]| ==> lines[1..][i] == lines[i + 1];
      FoldSucceeds(next, lines[1..], step, ok);
    }
  }

  /** The loop body of `load_mtga_logs`, as a step function. */
  function StepWith(decode: Decoder): (Logs, string) -> Result<Logs>
  {
    (st, line) => Step(st, line, decode)
  }

  /** What reading the whole log returns. */
  function LoadLogs(lines: seq<string>, decode: Decoder): Result<Logs>
  {
    Fold(NoLogs, lines, StepWith(decode))
  }

  /** `load_mtga_logs` over the lines of the log (file reading left out). */
  method LoadMtgaLogs(lines: seq<string>, decode: Decoder) returns (r: Result<Logs>)
    ensures r == LoadLogs(lines, decode)
  {
    var deckData: seq<Json> := [];
    var matchData: seq<Json> := [];
    var matchCommanders: map<Json, seq<CommanderEntry>> := map[];
    var i := 0;
    while i < |lines|
      invariant 0 <= i <= |lines|
      invariant LoadLogs(lines, decode) == Fold(Logs(deckData, matchData, matchCommanders), lines[i..], StepWith(decode))
    {
      var line := lines[i];
      FoldFrom(Logs(deckData, matchData, matchCommanders), lines, i, StepWith(decode));
      if Contains(line, GameStageMarker) {
        var ev :- ReadStageEvent(line, decode);
        if ev.key !in matchCommanders {
          var entries :- CommanderEntries(ev.objects);
          matchCommanders := matchCommanders[ev.key := entries];
        }
      } else if StartsWith(line, SetDeckPrefix) {
        var deck :- DeckPayload(line, decode);
        deckData := deckData + [deck];
      } else if Contains(line, MatchCompletedMarker) {
        var m :- Loads(decode, line);
        matchData := matchData + [m];
      }
      i := i + 1;
    }
    r := Ok(Logs(deckData, matchData, matchCommanders));
  }

  /** The lines of one kind, in log order. */
  function LinesOfKind(lines: seq<string>, kind: LineKind): (r: seq<string>)
    ensures |r| <= |lines|
    ensures forall k :: 0 <= k < |r| ==> Classify(r[k]) == kind
    decreases |lines|
  {
    if lines == [] then []
    else (if Classify(lines[0]) == kind then [lines[0]] else []) + LinesOfKind(lines[1..], kind)
  }

  /** Each line is of exactly one kind: the four kinds split the log. */
  lemma {:induction false} LinesPartition(lines: seq<string>)
    ensures |LinesOfKind(lines, GameStage)| + |LinesOfKind(lines, DeckSet)|
            + |LinesOfKind(lines, MatchCompleted)| + |LinesOfKind(lines, Irrelevant)| == |lines|
    decreases |lines|
  {
    if lines != [] {
      LinesPartition(lines[1..]);
    }
  }

  /** The lines of one kind are the first line, when of that kind, followed
      by those of the rest. */
  lemma LinesOfKindUnfolds(lines: seq<string>, kind: LineKind)
    requires lines != []
    ensures Classify(lines[0]) == kind ==>
              LinesOfKind(lines, kind) == [lines[0]] + LinesOfKind(lines[1..], kind)
    ensures Classify(lines[0]) != kind ==>
              LinesOfKind(lines, kind) == LinesOfKind(lines[1..], kind)
  {
  }

  function Decks(st: Logs): seq<Json> { st.decks }

  function Matches(st: Logs): seq<Json> { st.matches }

  function DeckReader(decode: Decoder): string -> Result<Json>
  {
    line => DeckPayload(line, decode)
  }

  function MatchReader(decode: Decoder): string -> Result<Json>
  {
    line => Loads(decode, line)
  }

  /** `step` appends `read(line)` to `stream` on the lines of `kind`, and
      leaves `stream` alone on every other line. */
  ghost predicate AppendsOn(step: (Logs, string) -> Result<Logs>, kind: LineKind,
                            read: string -> Result<Json>, stream: Logs -> seq<Json>)
  {
    forall st, line :: step(st, line).Ok? ==>
      if Classify(line) == kind then read(line).Ok? && stream(step(st, line).value) == stream(st) + [read(line).value]
      else stream(step(st, line).value) == stream(st)
  }

  /** One line adds at most one deck and at most one match, each exactly
      when the line is of that kind. */
  lemma StepStreams(st: Logs, line: string, decode: Decoder, next: Logs)
    requires Step(st, line, decode) == Ok(next)
    ensures Classify(line) == DeckSet ==>
              DeckPayload(line, decode).Ok? && next.decks == st.decks + [DeckPayload(line, decode).value]
    ensures Classify(line) != DeckSet ==> next.decks == st.decks
    ensures Classify(line) == MatchCompleted ==>
              Loads(decode, line).Ok? && next.matches == st.matches + [Loads(decode, line).value]
    ensures Classify(line) != MatchCompleted ==> next.matches == st.matches
  {
  }

  /** The loop body appends to the deck list on deck lines only and to the
      match list on match-completed lines only. */
  lemma StepAppends(decode: Decoder)
    ensures AppendsOn(StepWith(decode), DeckSet, DeckReader(decode), Decks)
    ensures AppendsOn(StepWith(decode), MatchCompleted, MatchReader(decode), Matches)
  {
    forall st, line | StepWith(decode)(st, line).Ok?
      ensures Classify(line) == DeckSet ==>
                && DeckReader(decode)(line).Ok?
                && Decks(StepWith(decode)(st, line).value) == Decks(st) + [DeckReader(decode)(line).value]
      ensures Classify(line) != DeckSet ==> Decks(StepWith(decode)(st, line).value) == Decks(st)
      ensures Classify(line) == MatchCompleted ==>
                && MatchReader(decode)(line).Ok?
                && Matches(StepWith(decode)(st, line).value) == Matches(st) + [MatchReader(decode)(line).value]
      ensures Classify(line) != MatchCompleted ==> Matches(StepWith(decode)(st, line).value) == Matches(st)
    {
      StepStreams(st, line, decode, StepWith(decode)(st, line).value);
    }
  }

  /** Reading one more line of the kind puts its value in front of the rest. */
  lemma AppendOne(line: string, rest: seq<string>, read: string -> Result<Json>,
                  before: seq<Json>, mid: seq<Json>, after: seq<Json>)
    requires read(line).Ok? && mid == before + [read(line).value]
    requires mid <= after
    requires MapResult(rest, read) == Ok(after[|mid|..])
    ensures MapResult([line] + rest, read) == Ok(after[|before|..])
  {
    assert ([line] + rest)[1..] == rest;
    assert after[|before|..] == [read(line).value] + after[|mid|..];
  }

  /** A loop whose step appends on the lines of one kind leaves, after the
      entries already there, exactly what `read` gives for those lines, in
      log order. */
  lemma {:induction false} FoldAppends(st: Logs, lines: seq<string>, step: (Logs, string) -> Result<Logs>,
                                       kind: LineKind, read: string -> Result<Json>, stream: Logs -> seq<Json>, st': Logs)
    requires AppendsOn(step, kind, read, stream)
    requires Fold(st, lines, step) == Ok(st')
    ensures stream(st) <= stream(st')
    ensures MapResult(LinesOfKind(lines, kind), read) == Ok(stream(st')[|stream(st)|..])
    decreases |lines|
  {
    if lines == [] {
      assert stream(st')[|stream(st)|..] == [];
    } else {
      var line := lines[0];
      var mid := step(st, line).value;
      FoldAppends(mid, lines[1..], step, kind, read, stream, st');
      LinesOfKindUnfolds(lines, kind);
      if Classify(line) == kind {
        AppendOne(line, LinesOfKind(lines[1..], kind), read, stream(st), stream(mid), stream(st'));
      }
    }
  }

  /** The deck list holds the decoded deck lines and the match list the
      decoded match-completed lines, each in log order: one entry per line
      of its kind. */
  lemma LoadKeepsLogOrder(lines: seq<string>, decode: Decoder, st: Logs)
    requires LoadLogs(lines, decode) == Ok(st)
    ensures MapResult(LinesOfKind(lines, DeckSet), DeckReader(decode)) == Ok(st.decks)
    ensures MapResult(LinesOfKind(lines, MatchCompleted), MatchReader(decode)) == Ok(st.matches)
    ensures |st.decks| == |LinesOfKind(lines, DeckSet)|
    ensures |st.matches| == |LinesOfKind(lines, MatchCompleted)|
  {
    StepAppends(decode);
    FoldAppends(NoLogs, lines, StepWith(decode), DeckSet, DeckReader(decode), Decks, st);
    FoldAppends(NoLogs, lines, StepWith(decode), MatchCompleted, MatchReader(decode), Matches, st);
    assert st.decks[0..] == st.decks && st.matches[0..] == st.matches;
  }

  /** The match-id key of a game-stage line. */
  function KeyReader(decode: Decoder): string -> Result<Json>
  {
    line => StageKey(line, decode)
  }

  /** The commander records a game-stage line would store. */
  function EntriesReader(decode: Decoder): string -> Result<seq<CommanderEntry>>
  {
    line => var ev :- ReadStageEvent(line, decode); CommanderEntries(ev.objects)
  }

  /** `step` stores, on a game-stage line whose key is new, the records of
      that line, and otherwise leaves the map alone. */
  ghost predicate StoresIfAbsent(step: (Logs, string) -> Result<Logs>, keyOf: string -> Result<Json>,
                                 entriesOf: string -> Result<seq<CommanderEntry>>)
  {
    forall st, line :: step(st, line).Ok? ==>
      var next := step(st, line).value;
      if Classify(line) == GameStage then
        && keyOf(line).Ok?
        && (keyOf(line).value in st.commanders ==> next.commanders == st.commanders)
        && (keyOf(line).value !in st.commanders ==>
              entriesOf(line).Ok? && next.commanders == st.commanders[keyOf(line).value := entriesOf(line).value])
      else next.commanders == st.commanders
  }

  /** The loop body inserts into the commander map only when the match id
      is absent. */
  lemma StepStoresIfAbsent(decode: Decoder)
    ensures StoresIfAbsent(StepWith(decode), KeyReader(decode), EntriesReader(decode))
  {
    forall st, line | StepWith(decode)(st, line).Ok?
      ensures var next := StepWith(decode)(st, line).value;
              Classify(line) == GameStage ==>
                && KeyReader(decode)(line).Ok?
                && (KeyReader(decode)(line).value in st.commanders ==> next.commanders == st.commanders)
                && (KeyReader(decode)(line).value !in st.commanders ==>
                      && EntriesReader(decode)(line).Ok?
                      && next.commanders == st.commanders[KeyReader(decode)(line).value := EntriesReader(decode)(line).value])
      ensures Classify(line) != GameStage ==> StepWith(decode)(st, line).value.commanders == st.commanders
    {
      StepCommanders(st, line, decode, StepWith(decode)(st, line).value);
    }
  }

  /** One line stores into the map only on a game-stage line whose match id
      is new, and then stores that line's records. */
  lemma StepCommanders(st: Logs, line: string, decode: Decoder, next: Logs)
    requires Step(st, line, decode) == Ok(next)
    ensures Classify(line) == GameStage ==> StageKey(line, decode).Ok?
    ensures Classify(line) == GameStage && StageKey(line, decode).value in st.commanders ==>
              next.commanders == st.commanders
    ensures Classify(line) == GameStage && StageKey(line, decode).value !in st.commanders ==>
              && ReadStageEvent(line, decode).Ok?
              && CommanderEntries(ReadStageEvent(line, decode).value.objects).Ok?
              && next.commanders == st.commanders[StageKey(line, decode).value :=
                                                  CommanderEntries(ReadStageEvent(line, decode).value.objects).value]
    ensures Classify(line) != GameStage ==> next.commanders == st.commanders
  {
  }

  /** Line `i` is the first game-stage line whose match id has key `key`. */
  ghost predicate FirstStageLine(lines: seq<string>, keyOf: string -> Result<Json>, key: Json, i: int)
  {
    && 0 <= i < |lines|
    && Classify(lines[i]) == GameStage
    && keyOf(lines[i]) == Ok(key)
    && forall j :: 0 <= j < i && Classify(lines[j]) == GameStage ==> keyOf(lines[j]) != Ok(key)
  }

  /** A first game-stage line after a line that does not carry the key is
      also first once that line is put in front. */
  lemma FirstStageLineShift(lines: seq<string>, keyOf: string -> Result<Json>, key: Json, i: int)
    requires |lines| > 0 && FirstStageLine(lines[1..], keyOf, key, i)
    requires Classify(lines[0]) == GameStage ==> keyOf(lines[0]) != Ok(key)
    ensures FirstStageLine(lines, keyOf, key, i + 1) && lines[i + 1] == lines[1..][i]
  {
    forall j | 0 <= j < i + 1 && Classify(lines[j]) == GameStage
      ensures keyOf(lines[j]) != Ok(key)
    {
      if j > 0 {
        assert lines[j] == lines[1..][j - 1];
      }
    }
  }

  /** A loop whose step inserts only absent keys never changes an entry once
      stored, stores for each new key the records of the first game-stage
      line with that key, and leaves every game-stage line's key in the map. */
  lemma {:induction false} FoldCommanders(st: Logs, lines: seq<string>, step: (Logs, string) -> Result<Logs>,
                                          keyOf: string -> Result<Json>,
                                          entriesOf: string -> Result<seq<CommanderEntry>>, st': Logs)
    requires StoresIfAbsent(step, keyOf, entriesOf)
    requires Fold(st, lines, step) == Ok(st')
    ensures forall key :: key in st.commanders ==>
              key in st'.commanders && st'.commanders[key] == st.commanders[key]
    ensures forall key :: key in st'.commanders && key !in st.commanders ==>
              exists i :: FirstStageLine(lines, keyOf, key, i) && entriesOf(lines[i]) == Ok(st'.commanders[key])
    ensures forall i :: 0 <= i < |lines| && Classify(lines[i]) == GameStage ==>
              keyOf(lines[i]).Ok? && keyOf(lines[i]).value in st'.commanders
    decreases |lines|
  {
    if lines != [] {
      var line := lines[0];
      var mid := step(st, line).value;
      var rest := lines[1..];
      FoldCommanders(mid, rest, step, keyOf, entriesOf, st');
      forall key | key in st'.commanders && key !in st.commanders
        ensures exists i :: FirstStageLine(lines, keyOf, key, i) && entriesOf(lines[i]) == Ok(st'.commanders[key])
      {
        if key in mid.commanders {
          assert FirstStageLine(lines, keyOf, key, 0);
        } else {
          var i :| FirstStageLine(rest, keyOf, key, i) && entriesOf(rest[i]) == Ok(st'.commanders[key]);
          FirstStageLineShift(lines, keyOf, key, i);
        }
      }
      forall i | 0 <= i < |lines| && Classify(lines[i]) == GameStage
        ensures keyOf(lines[i]).Ok? && keyOf(lines[i]).value in st'.commanders
      {
        if i > 0 {
          assert lines[i] == rest[i - 1];
        }
      }
    }
  }

  /** The commander map is first-wins: each key holds the records of the
      first game-stage line carrying that match id, one record per game
      object in order (see `MapResult`); and every game-stage line's match
      id is a key. */
  lemma LoadFirstWins(lines: seq<string>, decode: Decoder, st: Logs)
    requires LoadLogs(lines, decode) == Ok(st)
    ensures forall key :: key in st.commanders ==>
              exists i :: && FirstStageLine(lines, KeyReader(decode), key, i)
                          && EntriesReader(decode)(lines[i]) == Ok(st.commanders[key])
    ensures forall i :: 0 <= i < |lines| && Classify(lines[i]) == GameStage ==>
              StageKey(lines[i], decode).Ok? && StageKey(lines[i], decode).value in st.commanders
  {
    StepStoresIfAbsent(decode);
    FoldCommanders(NoLogs, lines, StepWith(decode), KeyReader(decode), EntriesReader(decode), st);
  }

  /** `Readable` as a test on lines. */
  function ReadableWith(decode: Decoder): string -> bool
  {
    line => Readable(line, decode)
  }

  /** The loop body never raises on a readable line. */
  lemma StepReadsReadable(decode: Decoder)
    ensures NeverFailsOn(StepWith(decode), ReadableWith(decode))
  {
    forall st, line | ReadableWith(decode)(line)
      ensures StepWith(decode)(st, line).Ok?
    {
    }
  }

  /** A log whose every line is readable is read to the end: the reader
      returns its three collections. */
  lemma LoadSucceeds(lines: seq<string>, decode: Decoder)
    requires forall i :: 0 <= i < |lines| ==> Readable(lines[i], decode)
    ensures LoadLogs(lines, decode).Ok?
  {
    StepReadsReadable(decode);
    FoldSucceeds(NoLogs, lines, StepWith(decode), ReadableWith(decode));
  }

  /** Reading a readable first stretch of `i` lines: the rest of the read
      starts from `mid`, whose map holds only match ids of game-stage lines
      in that stretch. */
  lemma ReadUpTo(lines: seq<string>, decode: Decoder, i: nat) returns (mid: Logs)
    requires i <= |lines|
    requires forall j :: 0 <= j < i ==> Readable(lines[j], decode)
    ensures LoadLogs(lines, decode) == Fold(mid, lines[i..], StepWith(decode))
    ensures forall key :: key in mid.commanders ==>
              exists j :: 0 <= j < i && Classify(lines[j]) == GameStage && StageKey(lines[j], decode) == Ok(key)
  {
    var prefix := lines[..i];
    assert forall j :: 0 <= j < |prefix| ==> prefix[j] == lines[j];
    StepReadsReadable(decode);
    FoldSucceeds(NoLogs, prefix, StepWith(decode), ReadableWith(decode));
    mid := Fold(NoLogs, prefix, StepWith(decode)).value;
    FoldPrefix(NoLogs, lines, StepWith(decode), i, mid);
    StepStoresIfAbsent(decode);
    FoldCommanders(NoLogs, prefix, StepWith(decode), KeyReader(decode), EntriesReader(decode), mid);
  }

  /** The first unreadable line ends the read with its own exception, unless
      it is a game-stage line whose match id an earlier game-stage line
      already stored (then its records are never built). */
  lemma LoadStopsAtUnreadableLine(lines: seq<string>, decode: Decoder, i: nat)
    requires i < |lines|
    requires forall j :: 0 <= j < i ==> Readable(lines[j], decode)
    requires !Readable(lines[i], decode)
    requires Classify(lines[i]) == GameStage && ReadStageEvent(lines[i], decode).Ok? ==>
               forall j :: 0 <= j < i && Classify(lines[j]) == GameStage ==>
                 StageKey(lines[j], decode) != Ok(ReadStageEvent(lines[i], decode).value.key)
    ensures LoadLogs(lines, decode) == Err(ReadError(lines[i], decode).value)
  {
    var mid := ReadUpTo(lines, decode, i);
    FoldFrom(mid, lines, i, StepWith(decode));
  }

  /** A later game-stage line for a match id already in the map leaves the
      whole state as it was. */
  lemma RepeatedMatchIdIgnored(st: Logs, line: string, decode: Decoder)
    requires Classify(line) == GameStage
    requires StageKey(line, decode).Ok? && StageKey(line, decode).value in st.commanders
    ensures Step(st, line, decode) == Ok(st)
  {
  }
}
