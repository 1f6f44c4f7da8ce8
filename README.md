# game-of-three, modelled in Dafny

game-of-three is a WebSocket server for the "Game of Three". Each new connection is stored as a waiting player. Waiting players are paired two at a time, and each pair plays a `Game`.

- The first mover, picked at random, sends any integer; that value becomes the running value.
- After that, the player whose turn it is answers -1, 0 or 1, and the running value becomes `Math.round((value + answer) / 3)`.
- Whoever brings the value to 1 wins.
- When a player disconnects, the game drops a player and a lone remaining player is told it won. As written, a real close drops the game's last player, whoever left (see "A closing socket leaves the clients first" below and "## Findings").
- Any player can end its game by sending "gameend", in any casing.

This project models the two classes that hold the logic, and proves what they do:

- `Game` in src/modules/Game.ts: its turn state machine.
- `GameServer` in src/server.ts: matchmaking, the registry of games in progress, and the teardown handlers.

## How the model is organised

| module | file | what it holds |
|---|---|---|
| `Wrappers` | wrappers.dfy | `Option` |
| `JsCore` | js_core.dfy | the JavaScript built-ins the code relies on |
| `Notices` | notices.dfy | every text a game sends |
| `World` | world.dfy | sockets, the database tables, and the `Backend` object |
| `GameRules` | game_rules.dfy | the rules a game follows, as functions, with their properties |
| `GameSession` | game.dfy | class `Game`, one method per method of the source |
| `ServerRules` | server_rules.dfy | what `GameServer` computes, as functions, with their properties |
| `Server` | server.dfy | class `GameServer`, one method per handler of the source |

- **JavaScript built-ins** (`JsCore`):
  - `parseInt` with no radix is modelled in full: leading white space, a sign, a `0x` prefix, and the longest run of digits.
  - NaN is `None`, so both a parsed move and the running value are `Option<int>`.
  - `String(n)` and template interpolation are `IntToString`/`NumberToString`. `Math.round` is `Round`.
  - `indexOf` and `splice(start, 1)` are modelled with negative and out-of-range starts.
- **The backend** (`World.Backend`) stands for the sqlite database behind both repositories, plus the wire:
  - `playerRows` is the `players` table and `gameRows` is the `games` table.
  - `trace` lists every repository call, `send`, `emit` and `close`, in order.
- **Sockets are object references.** JavaScript's `===` on sockets is reference equality. A game's `players` array is a `SocketArray` object shared with whoever built the game. So the splice in `handlePlayerDisconnect` changes the array that `getPlayers` hands out.
- **Each handler is one atomic step.** Every `await` is assumed to complete before the next statement runs.
- **Random draws and ids are parameters.** `Math.random()` and `uuidv4()` values are passed in as `draw`/`draws` and `gameId`/`gameIds`.

### How the code behaves (the model follows the code)

- **`Math.round` versus rounding half away from zero.** `Math.round` rounds a half up. Half away from zero differs only on a negative half. In exact arithmetic, which the model uses, `(w + m) / 3` is never a half, so both give `(w + m + 1) div 3` (`RoundThird`). With doubles this holds only while `|w + m| < 3 * 2^51` (see "## Left out").
- **A win does not end the game directly.** The game sends "Player k Won!" to everyone. It then emits the event `message` with the text `gameend` on every player's socket.
  - The game's own handler ignores that text. The model assumes text frames reach that handler as strings, as version 7 of the `ws` package delivers them (see "## Left out").
  - The server's listener lowercases it and runs `handleGameEnd`, which tears the game down.
  - In the model that listener is `Server.GameServer.HandleMessage`, a separate step; the game's state after a win keeps value 1.
- **Teardown deletes the game's row.** `GameRepository.remove` runs; no row is first marked inactive.
- **Moves bypass the registry.** The game's message handler is installed on each socket by `start`, not reached through the registry.
- **A closing socket leaves the clients first.** The WebSocket server drops a closing socket from its clients before the `close` listeners run. When `handlePlayerDisconnect` then looks the id up, it finds no client (`ClosedClientNotFound`).
  - The game therefore receives `undefined`, whose `indexOf` is -1.
  - `splice(-1, 1)` removes the game's LAST player, whoever left.
  - `Server.GameServer.HandleClose` proves this outcome; `GameRules.DisconnectOfStranger` states the splice alone.
- **Disconnected waiting players stay queued.** A waiting player that disconnects keeps its row, because no game owns it. A later match can then pair a live id with a stale one. `getWSClients` drops ids without a client, so such a game is built over a single socket.
- **Only the sender's row is deleted on "gameend".** The other player's row stays.

## Model

| member | source | states |
|---|---|---|
| JsCore.RoundThird | src/modules/Game.ts:67 | in exact arithmetic, `Math.round(n / 3)` equals `(n + 1) div 3` for every integer n; a third of an integer is never a half |
| JsCore.Round | src/modules/Game.ts:67 | `Math.round(x)` is the integer r with r - 1/2 <= x < r + 1/2: the nearest integer, a half rounded up |
| JsCore.TrimStartRemovesSpace | src/modules/Game.ts:40 | `parseInt` skips exactly the leading white space: the rest is a suffix that starts with no white space, and every character removed is white space |
| JsCore.DigitRunIsLongestPrefix | src/modules/Game.ts:40 | the digits `parseInt` reads are a prefix of the text, all digits of the radix, and stop at the first character that is none |
| JsCore.ParseInt | src/modules/Game.ts:40 | `parseInt(text)` with no radix: white space, sign, `0x` prefix and the longest digit run; a text with no decimal digit at all is NaN |
| JsCore.NatToString | src/modules/Game.ts:58 | the numeral of a natural number is non-empty, all decimal digits, and starts with 0 only for 0 |
| JsCore.ParseIntOfIntToString | src/modules/Game.ts:40 | `parseInt(String(n)) == n` for every integer n, negatives included |
| JsCore.ParseIntOfNaN | src/modules/Game.ts:40 | `parseInt("NaN")` is NaN |
| JsCore.ParseIntOfNumberToString | src/modules/Game.ts:76 | a running value the game prints, NaN included, reads back through `parseInt` as the same value |
| JsCore.ToLowerCase | src/server.ts:30 | lowering keeps the length and lowers each character on its own |
| JsCore.IndexOf | src/modules/Game.ts:97 | `indexOf` is -1 exactly when x is absent; otherwise it is the first position holding x |
| JsCore.SpliceOne | src/modules/Game.ts:106 | `splice(start, 1)` removes one element unless the array is empty or start is past its end |
| JsCore.Except | src/modules/Game.ts:108 | `filter(p => p !== x)` keeps exactly the elements other than x |
| JsCore.RemoveFirstOfDistinct | src/server.ts:98-101 | on a registry without repeats, the `indexOf`/`splice` removal keeps every other game in order; the length drops by one exactly when the game was there; the result stays distinct and a second removal changes nothing |
| Notices.MovedValueReadsBack | src/modules/Game.ts:76 | the move notice is "Player k: " followed by the value, which `parseInt` reads back as the game holds it |
| World.Socket.constructor | src/server.ts:23-24 | a connection carries the id stamped on it when it connects |
| World.AssignRows | src/repository/PlayerRepository.ts:31-46 | `updateStatus` changes rows but never adds or drops one |
| World.AssignedLeaveTheQueue | src/repository/PlayerRepository.ts:31-58 | after `updateStatus(ids, gameId)`, none of ids is fetched as unassigned, and the other waiting players still are, in their order |
| World.DropPlayerRemovesExactly | src/repository/PlayerRepository.ts:19-29 | deleting a player removes exactly the rows with that id |
| World.DropGameRemovesExactly | src/repository/GameRepository.ts:59-70 | deleting a game removes exactly the rows with that id |
| World.Backend.Send | src/modules/Game.ts:82-84 | a send appends one frame for one socket and leaves the tables alone |
| World.Backend.Emit | src/modules/Game.ts:71 | an emitted event is recorded for its socket, tables unchanged |
| World.Backend.Close | src/server.ts:91 | a close is recorded for its socket, tables unchanged |
| World.Backend.SavePlayer | src/repository/PlayerRepository.ts:7-17 | a new player row with no game id is appended |
| World.Backend.FetchUnassignedPlayers | src/repository/PlayerRepository.ts:48-58 | returns the ids of the rows with no game id, in row order, changing no table |
| World.Backend.UpdateStatus | src/repository/PlayerRepository.ts:31-46 | the rows of the listed ids get the game id |
| World.Backend.RemovePlayer | src/repository/PlayerRepository.ts:19-29 | the rows of that player id are deleted |
| World.Backend.SaveGame | src/repository/GameRepository.ts:7-21 | the game row is appended |
| World.Backend.RemoveGame | src/repository/GameRepository.ts:59-70 | the rows of that game id are deleted |
| GameRules.FirstMover | src/modules/Game.ts:23 | `Math.floor(r * n)` for 0 <= r < 1 is a valid index when there are players |
| GameRules.Judge | src/modules/Game.ts:36-51 | the handler's decision, in its order of checks: exactly "gameend" is ignored; a move is accepted exactly when it comes from the current player and is the first move or one of -1, 0, 1; an accepted move is the parsed value; "Invalid input" only after the first move for a value outside -1..1 (NaN included); "not your turn" only for a non-current sender |
| GameRules.Updated | src/modules/Game.ts:67 | the first move becomes the running value as parsed; a later move gives NaN exactly when the value or the move is NaN, and otherwise `(w + m + 1) div 3`, which is `Math.round((w + m) / 3)` |
| GameRules.Move | src/modules/Game.ts:66-80 | the players stay and the value becomes `Updated`; a win keeps the turn index and the count; any other move adds one to the count, moves the index to `(i + 1) mod n` and sends exactly one notice, to the player at the new index |
| GameRules.OnMessage | src/modules/Game.ts:35-52 | a message keeps the players and raises the count by at most one; a message that `Judge` does not accept leaves the state unchanged and sends at most one notice |
| GameRules.RejectionChangesNothing | src/modules/Game.ts:36-51 | a message that is not an accepted move leaves the state alone: nothing is sent for "gameend", and otherwise only the sender gets the invalid-input or not-your-turn notice |
| GameRules.RangeCheckedBeforeTurn | src/modules/Game.ts:42-45 | after the first move, a value outside -1..1 (NaN included) draws the invalid-input notice whoever sends it |
| GameRules.FirstMoveTakesValue | src/modules/Game.ts:67-69 | on the first turn the parsed value, any integer or NaN, becomes the running value, and a first move of 1 wins |
| GameRules.LaterMoveRounds | src/modules/Game.ts:42-67 | an accepted later move is -1, 0 or 1, and turns w into `(w + m + 1) div 3` |
| GameRules.WinningMove | src/modules/Game.ts:69-74 | a winning move tells every player that the current player won, then emits "gameend" on every socket; turn index and count stay |
| GameRules.MoveHandsTurnOn | src/modules/Game.ts:76-79 | a non-winning move sends "Player i+1: value" to the next player only, then passes the turn on and counts it |
| GameRules.IndexOfDistinct | src/modules/Game.ts:96-98 | with distinct players, `indexOf` of the player at i is i |
| GameRules.NaNNeverWins | src/modules/Game.ts:42-69 | once the running value is NaN after the first move, it stays NaN and no message can win |
| GameRules.StuckBelowOne | src/modules/Game.ts:42-69 | once a later value is 0 or -1, every later value is 0 or -1, so the game can no longer be won |
| GameRules.ValueShrinks | src/modules/Game.ts:67 | while the value is at least 2 away from 0, every accepted later move brings it strictly closer to 0 |
| GameRules.TurnStaysValid | src/modules/Game.ts:100-102 | messages keep the turn index in range, keep the players, and never lower the turn count |
| GameRules.OpeningNumbersEveryone | src/modules/Game.ts:56-58 | the player at position k is told it is Player k+1 |
| GameRules.OpeningFirstTurnToCurrent | src/modules/Game.ts:60-62 | the first-turn notice goes to the player at the turn index and to no one else |
| GameRules.OpeningLength | src/modules/Game.ts:56-64 | the opening sends one notice per player, and one more when the turn index names a player |
| GameRules.InitialMessages | src/modules/Game.ts:56-64 | the opening notices, player by player; what they say and to whom is stated by `GameRules.OpeningNumbersEveryone`, `GameRules.OpeningFirstTurnToCurrent`, `GameRules.OpeningLength` and `GameRules.OpeningGoesToPlayers` |
| GameRules.OpeningGoesToPlayers | src/modules/Game.ts:56-64 | every opening effect is a send to one of the game's players |
| GameRules.StartTrace | src/modules/Game.ts:29-33 | `start`'s effects: `save`, then the opening notices; its shape is stated by `GameRules.StartTraceOrder` |
| GameRules.StartTraceOrder | src/modules/Game.ts:29-33 | `start` first saves the game row (active, with the player ids), then sets the players' game id, and only then sends, each later effect a send to a player; the length is 2 plus the opening's |
| GameRules.DisconnectOfPlayer | src/modules/Game.ts:105-106 | a leaving player is spliced out at its first position and the others keep their order |
| GameRules.DisconnectOfStranger | src/modules/Game.ts:105-106 | when the leaver is not found (`indexOf` -1), the last player is removed |
| GameRules.AfterDisconnect | src/modules/Game.ts:105-106 | `splice(indexOf(who), 1)` leaves one player fewer (none when there was none), all of them players from before |
| GameRules.Others | src/modules/Game.ts:108 | the remaining players other than the leaver are exactly those of the array that are not the leaver; with an `undefined` leaver, all of them |
| GameRules.ForfeitMessages | src/modules/Game.ts:108-112 | at most one notice is sent, and it is the forfeit notice to a remaining player other than the leaver |
| GameRules.TwoPlayerForfeit | src/modules/Game.ts:104-113 | in a two-player game the player left behind is told it won; when no client was found, the second player is dropped and the first is told it won |
| GameRules.ClosedOpenerHearsItsOwnForfeit | src/modules/Game.ts:104-113 | when no client is found in a two-player game, only the first player remains and it alone is sent the forfeit notice; so when the first player is the one that closed, the notice reaches the leaver and not the player still connected |
| GameRules.EndSentinelIsNaN | src/modules/Game.ts:36-40 | "gameend" is no number, so the text the handler ignores cannot be a move |
| GameRules.FirstStep | src/modules/Game.ts:66-80 | an accepted first move other than 1 takes the value, passes the turn on and sets the count to 1 |
| GameRules.LaterStep | src/modules/Game.ts:66-80 | an accepted later move wins exactly when the rounded value is 1; otherwise it takes that value, passes the turn on and counts it |
| GameRules.ScriptedOpening | src/modules/Game.ts:66-80 | in a two-player game the opener's 9 becomes the value and the turn passes to the second player |
| GameRules.ScriptedAnswer | src/modules/Game.ts:66-80 | the answer 0 turns 9 into 3 and hands the turn back |
| GameRules.ScriptedWin | src/modules/Game.ts:66-80 | the answer 0 turns 3 into 1, a win for the mover |
| GameRules.ScriptedGame | src/modules/Game.ts:35-80 | 9, then 0, then 0 ends at value 1 with a win, for any texts that read as 9 and 0 |
| GameRules.ScriptedGameAsTyped | src/modules/Game.ts:35-80 | the same game with the texts "9", "0", "0" |
| GameSession.FindById | src/modules/Game.ts:116 | `find` yields a player exactly when one carries the id, and then one that does |
| GameSession.Game.constructor | src/modules/Game.ts:17-27 | the game keeps the array it was given; the first mover is the scaled draw, the value 0 and the turn count 0 |
| GameSession.Game.Start | src/modules/Game.ts:29-33 | the game row and the players' game id are saved before any opening notice is sent |
| GameSession.Game.SendInitialMessages | src/modules/Game.ts:56-64 | the sends are exactly the opening notices, in player order |
| GameSession.Game.HandleMessage | src/modules/Game.ts:35-52 | the handler changes the state and sends exactly as `GameRules.OnMessage` says, following `GameRules.Judge`'s order of checks |
| GameSession.Game.HandlePlayerMove | src/modules/Game.ts:66-80 | the move changes the state and sends exactly as `GameRules.Move` says |
| GameSession.Game.UpdateWholeNumber | src/modules/Game.ts:67 | the running value becomes `GameRules.Updated` of the old value, the move and the turn count |
| GameSession.Game.AnnounceWinner | src/modules/Game.ts:70-71 | every player is told who won, then "gameend" is emitted on every socket |
| GameSession.Game.SendToOtherPlayer | src/modules/Game.ts:86-90 | the notice goes to the player after the current one, wrapping around |
| GameSession.Game.GetPlayerIndex | src/modules/Game.ts:96-98 | the result is 0 exactly for a non-player, and otherwise the 1-based first position of the player |
| GameSession.Game.IsCurrentPlayer | src/modules/Game.ts:92-94 | a player holds the turn only when the turn index is in range and the socket is one of the game's players; it is `GameRules.IsCurrent` of the game's state |
| GameSession.Game.SwitchToNextPlayer | src/modules/Game.ts:100-102 | the turn index moves on by one, wrapping around |
| GameSession.Game.HandlePlayerDisconnect | src/modules/Game.ts:104-113 | the shared array loses the leaver (or its last player) in place, and a lone remaining player is told it won |
| GameSession.Game.HasPlayer | src/modules/Game.ts:115-122 | true exactly when some player's socket carries the id |
| GameSession.Game.GetPlayers | src/modules/Game.ts:124-126 | the very array object the game holds, not a copy |
| GameSession.Game.Save | src/modules/Game.ts:128-136 | the game row (active, with the player ids) is saved, then the players get the game id |
| GameSession.Game.Remove | src/modules/Game.ts:138-140 | the game's row is deleted |
| ServerRules.ClientsWithIdPicks | src/server.ts:62-66 | the inner loop picks exactly the open connections carrying the id |
| ServerRules.ClientsWithId | src/server.ts:62-66 | the inner loop's picks all carry the id |
| ServerRules.ClientsOf | src/server.ts:60-69 | every socket `getWSClients` returns carries one of the requested ids; `ServerRules.ClientsOfMembers` states the converse |
| ServerRules.ClientsOfMembers | src/server.ts:60-69 | `getWSClients` picks exactly the connections carrying one of the ids |
| ServerRules.ClientsOfOnePerId | src/server.ts:60-69 | when each id has exactly one connection, the result follows the ids one for one |
| ServerRules.FirstClient | src/server.ts:73 | `const [client] = getWSClients([id])`: a client found is one of the open connections and carries the id |
| ServerRules.FirstClientFinds | src/server.ts:73 | the first client with the id is absent exactly when no connection carries it |
| ServerRules.ClosedClientNotFound | src/server.ts:41-43 | once a closing connection has left the clients, its id finds no client, and ids stay unique |
| ServerRules.Pairs | src/server.ts:49-50 | n waiting ids form n div 2 pairs |
| ServerRules.PairsShape | src/server.ts:49-50 | pair j is ids 2j and 2j+1, in fetch order |
| ServerRules.SavedGames | src/server.ts:53-54 | game j saves a row with id j and pair j, active |
| ServerRules.AssignAll | src/server.ts:49-57 | the players' game ids after the first n games are marked: the number of rows never changes |
| ServerRules.AssignAllExcludes | src/server.ts:46-57 | after n games the waiting players are the fetched ones minus the first n pairs |
| ServerRules.LeftoverKeepsWaiting | src/server.ts:46-58 | a round of matching leaves exactly the odd player out, if any, waiting |
| ServerRules.MatchingLeavesOddOneOut | src/server.ts:46-58 | on a table whose player ids are unique, a round of matching keeps them unique and leaves waiting exactly the odd player out, if any |
| ServerRules.Owner | src/server.ts:72 | an owner found is a game of the registry |
| ServerRules.OwnerIsFirstHolder | src/server.ts:72 | the owner is the first game that has the player; there is none exactly when no game has it |
| Server.GameServer.constructor | src/server.ts:13-20 | the registry starts empty |
| Server.GameServer.HandleConnection | src/server.ts:22-27 | the connection joins the clients, its player row is saved, then matching runs with the outcome `MatchPlayers` states |
| Server.GameServer.MatchPlayers | src/server.ts:46-58 | each of the n div 2 fetched pairs became a game, in order: started over its pair's connections, appended to the registry, its row saved and its players assigned; nothing else was written |
| Server.GameServer.MatchPair | src/server.ts:50-56 | one loop turn adds the next pair's game to everything the earlier turns did |
| Server.GameServer.OpenNext | src/server.ts:51-56 | the pair's game is started and then pushed, and the games started before stay as they were |
| Server.GameServer.Register | src/server.ts:56 | the push keeps the registry free of repeats |
| Server.GameServer.StartGame | src/server.ts:51-54 | a fresh game over the pair's connections is started: row saved, players assigned, opening notices sent |
| Server.GameServer.GetWSClients | src/server.ts:60-69 | the nested loops compute `ClientsOf` |
| Server.GameServer.PushClients | src/server.ts:62-66 | one `reduce` step appends the connections carrying the id |
| Server.GameServer.FindGame | src/server.ts:72 | the loop returns the owner |
| Server.GameServer.HandlePlayerDisconnect | src/server.ts:71-81 | nothing changes when no game owns the id; otherwise the owner loses a player, only the leaver's row is deleted, and the game is removed |
| Server.GameServer.LeaveGame | src/server.ts:75-80 | the owning game's disconnect runs, then the player's row is deleted, then the game is removed |
| Server.GameServer.HandleClose | src/server.ts:41-43 | a closing connection leaves the clients; its game then splices out its last player |
| Server.GameServer.HandleCloseOfSocket | src/server.ts:71-81 | corrected close: the closing connection leaves the clients, and its own game splices out that connection rather than the last player |
| Server.GameServer.HandleMessage | src/server.ts:29-33 | any casing of "gameend" ends the sender's game; anything else changes nothing |
| Server.GameServer.HandleGameEnd | src/server.ts:83-93 | nothing changes when no game owns the id; otherwise only the sender's row is deleted, the game is removed, and then every one of its connections is closed |
| Server.GameServer.ClosePlayers | src/server.ts:91 | every socket is closed, in order |
| Server.GameServer.RemoveGame | src/server.ts:95-102 | the row is deleted first; then the game leaves the registry if present, the others keeping their order |
| Server.OnePlayerWaits | src/server.ts:22-27 | on an empty backend, one connection is saved as the only waiting player; no game starts |
| Server.TwoPlayersOneGame | src/server.ts:22-58 | on an empty backend, two connections make one game over both sockets in connection order, with its row saved, nobody left waiting, and the opening notices sent |

## Left out

- src/server-old.ts is not part of this model. It is an earlier copy of the server with its own game logic: floating-point division and a 0-based win message. It is not used by src/server.ts.
- Repository queries the core never calls (`fetchByPlayerId`, `fetchGames`, `fetchGameById`, the games table's `updateStatus`) are not modelled. The SQL text and the JSON encoding of the player list are also left out: a game row holds the id list as a sequence.
- The `Player` wrapper (src/modules/Player.ts) is not modelled as an object. `HandleConnection` includes its effects: the new id on the socket, and the saved row.
- The wrapper's save is not awaited. It is modelled as done before `matchPlayers` reads the table.
- WebSocket transport and event wiring: a send, an emit and a close are trace entries.
  - An emitted "gameend" is not fed back into the handlers. `Server.GameServer.HandleMessage` is the step it triggers.
  - The `error` listener and the `console` output are left out.
- Concurrency across `await` points is left out: every handler is one atomic step. This includes interleaved `matchPlayers` runs and the two `handleGameEnd` runs a win triggers.
- Failing storage calls are left out. The source has no error handling, so a failed call rejects its promise part-way through a handler; the model assumes every call succeeds.
- Numbers are unbounded integers, and division is exact. Double rounding is not modelled. From `|w + m| >= 3 * 2^51` on, the doubles near `(w + m) / 3` are half a unit apart, so the quotient can round to an exact half, which `Math.round` rounds up. Example: a first move of 6755399441055745, then the answer 0, gives 2251799813685249 in the source and 2251799813685248 in the model. Doubles beyond 2^53, exponent notation in `String(n)` and `-0` are not modelled either.
- `toLowerCase` is modelled on ASCII letters only. No other character lowers to a letter of "gameend", so the comparison decides the same.
- Server.GameServer.HandleConnection: requires the new id to differ from the ids of all open connections and from the id of every row in the players table, which also keeps the rows of closed connections. A `uuidv4` collision is not modelled.
- Server.GameServer.HandleConnection and Server.GameServer.MatchPlayers: require as many draws and game ids as the games they may start. These values stand for `Math.random()` and `uuidv4()`.
- Server.GameServer.HandleClose: requires the closing connection to be one of the clients.
- GameRules.Judge: assumes a text frame reaches the game's listener (src/modules/Game.ts:35) as a string, as version 7 of `ws` delivers it. Version 8 delivers a Buffer. A client's "gameend" would then fail the `===` test and be judged as a move that parses as NaN; only the "gameend" the game emits itself (src/modules/Game.ts:71) would be skipped.
- GameRules.RejectionChangesNothing: its "nothing is sent for gameend" clause rests on the same string assumption as `GameRules.Judge`.
- GameSession.Game.HandlePlayerMove: requires the mover to be the current player. Its only caller checks this first (src/modules/Game.ts:47).
- GameRules.MoveHandsTurnOn: states the mover's number as i+1 only when the players are distinct. With a repeated socket, `indexOf` names its first position, and `GameRules.Move` keeps that.

## Findings

| source | as written | input that shows it | evidently intended | confidence | as-written member | corrected member |
|---|---|---|---|---|---|---|
| src/server.ts:71-76 | the close handler looks the closing id up among the clients, which no longer hold it, so the game gets `undefined` and `splice(-1, 1)` removes its last player; the forfeit notice then goes to whoever is left, the leaver included | a two-player game whose first player closes its connection | the leaver is spliced out and the player still connected is told it won | not executed; medium, as it rests on the WebSocket server dropping a closing client before the `close` listeners run | Server.GameServer.HandleClose, GameRules.ClosedOpenerHearsItsOwnForfeit | Server.GameServer.HandleCloseOfSocket, GameRules.TwoPlayerForfeit |

`Server.GameServer.HandleClose` stays the model of the source's close listener; `Server.GameServer.HandleCloseOfSocket` is the handler that passes the closing socket itself.
