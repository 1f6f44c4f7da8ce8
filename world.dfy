/**
 * What the game core talks to: the client connections (WebSocket objects),
 * the JavaScript arrays that hold them, and the one sqlite database behind
 * `PlayerRepository` and `GameRepository`. Everything the core does to them
 * is recorded, in order, in one trace of effects.
 */
module World {
  import opened Wrappers
  import opened Notices

  /** One client connection; `playerId` is the id the server stamps on it when it connects. */
  class Socket {
    const playerId: string

    constructor (playerId: string)
      ensures this.playerId == playerId
    {
      this.playerId := playerId;
    }
  }

  /** A JavaScript array of sockets: one object, shared by every holder of the reference. */
  class SocketArray {
    var items: seq<Socket>

    constructor (items: seq<Socket>)
      ensures this.items == items
    {
      this.items := items;
    }
  }

  /** A row of the `players` table, in row-id order; `gameId` is NULL while the player waits. */
  datatype PlayerRow = PlayerRow(playerId: string, gameId: Option<string>)

  /** A row of the `games` table. */
  datatype GameRow = GameRow(gameId: string, playerIds: seq<string>, active: bool)

  /** One observable step: a frame on the wire, or a repository call. */
  datatype Effect =
    | Sent(to: Socket, notice: Notice)                       // socket.send(Text(notice))
    | Emitted(to: Socket, message: string)                   // socket.emit('message', message)
    | Closed(to: Socket)                                     // socket.close()
    | PlayerSaved(playerId: string)                          // PlayerRepository.save
    | UnassignedFetched                                      // PlayerRepository.fetchUnassignedPlayers
    | StatusUpdated(playerIds: seq<string>, gameId: string)  // PlayerRepository.updateStatus
    | PlayerRemoved(playerId: string)                        // PlayerRepository.remove
    | GameSaved(row: GameRow)                                // GameRepository.save
    | GameRemoved(gameId: string)                            // GameRepository.remove

  /** The notice n sent to every socket of ps, in order. */
  function SendAll(ps: seq<Socket>, n: Notice): seq<Effect> {
    if ps == [] then [] else SendAll(ps[..|ps| - 1], n) + [Sent(ps[|ps| - 1], n)]
  }

  /** The event `message` emitted on every socket of ps, in order. */
  function EmitAll(ps: seq<Socket>, message: string): seq<Effect> {
    if ps == [] then [] else EmitAll(ps[..|ps| - 1], message) + [Emitted(ps[|ps| - 1], message)]
  }

  /** Every socket of ps closed, in order. */
  function CloseAll(ps: seq<Socket>): seq<Effect> {
    if ps == [] then [] else CloseAll(ps[..|ps| - 1]) + [Closed(ps[|ps| - 1])]
  }

  // ---------------------------------------------------------------- the tables

  /** `SELECT * FROM players WHERE gameId IS NULL`, as player ids in row order. */
  function Unassigned(rows: seq<PlayerRow>): seq<string> {
    if rows == [] then []
    else Unassigned(rows[..|rows| - 1])
         + (if rows[|rows| - 1].gameId.None? then [rows[|rows| - 1].playerId] else [])
  }

  /** `UPDATE players SET gameId = ? WHERE playerId IN (…)`. */
  function AssignRows(rows: seq<PlayerRow>, ids: seq<string>, gameId: string): (r: seq<PlayerRow>)
    ensures |r| == |rows|
  {
    if rows == [] then []
    else
      var last := rows[|rows| - 1];
      AssignRows(rows[..|rows| - 1], ids, gameId)
      + [if last.playerId in ids then last.(gameId := Some(gameId)) else last]
  }

  /** `DELETE FROM players WHERE playerId = ?`. */
  function DropPlayer(rows: seq<PlayerRow>, playerId: string): seq<PlayerRow> {
    if rows == [] then []
    else DropPlayer(rows[..|rows| - 1], playerId)
         + (if rows[|rows| - 1].playerId == playerId then [] else [rows[|rows| - 1]])
  }

  /** `DELETE FROM games WHERE gameId = ?`. */
  function DropGame(rows: seq<GameRow>, gameId: string): seq<GameRow> {
    if rows == [] then []
    else DropGame(rows[..|rows| - 1], gameId)
         + (if rows[|rows| - 1].gameId == gameId then [] else [rows[|rows| - 1]])
  }

  /**
   * Once `updateStatus(ids, gameId)` has run, none of ids is waiting any more,
   * and every other waiting player still is, in the same order.
   */
  lemma {:induction false} AssignedLeaveTheQueue(rows: seq<PlayerRow>, ids: seq<string>, gameId: string)
    ensures Unassigned(AssignRows(rows, ids, gameId)) == Excluding(Unassigned(rows), ids)
  {
    if rows != [] {
      var init := rows[..|rows| - 1];
      AssignedLeaveTheQueue(init, ids, gameId);
      var r := AssignRows(rows, ids, gameId);
      assert r[..|r| - 1] == AssignRows(init, ids, gameId);
      ExcludingAppend(Unassigned(init), if rows[|rows| - 1].gameId.None? then [rows[|rows| - 1].playerId] else [], ids);
    }
  }

  /** The ids of xs that are not in ids, in their order. */
  function Excluding(xs: seq<string>, ids: seq<string>): seq<string> {
    if xs == [] then [] else Excluding(xs[..|xs| - 1], ids) + (if xs[|xs| - 1] in ids then [] else [xs[|xs| - 1]])
  }

  lemma {:induction false} ExcludingAppend(a: seq<string>, b: seq<string>, ids: seq<string>)
    requires |b| <= 1
    ensures Excluding(a + b, ids) == Excluding(a, ids) + Excluding(b, ids)
  {
    if b != [] {
      assert (a + b)[..|a + b| - 1] == a;
    } else {
      assert a + b == a;
    }
  }

  /** Deleting a player's rows removes exactly the rows with that id. */
  lemma {:induction false} DropPlayerRemovesExactly(rows: seq<PlayerRow>, playerId: string)
    ensures forall r :: r in DropPlayer(rows, playerId) <==> r in rows && r.playerId != playerId
    ensures |DropPlayer(rows, playerId)| <= |rows|
  {
    if rows != [] {
      DropPlayerRemovesExactly(rows[..|rows| - 1], playerId);
      assert rows == rows[..|rows| - 1] + [rows[|rows| - 1]];
    }
  }

  /** Deleting a game's rows removes exactly the rows with that id. */
  lemma {:induction false} DropGameRemovesExactly(rows: seq<GameRow>, gameId: string)
    ensures forall r :: r in DropGame(rows, gameId) <==> r in rows && r.gameId != gameId
  {
    if rows != [] {
      DropGameRemovesExactly(rows[..|rows| - 1], gameId);
      assert rows == rows[..|rows| - 1] + [rows[|rows| - 1]];
    }
  }

  // ---------------------------------------------------------------- the backend object

  /**
   * The sqlite database (its `players` and `games` tables) and the wire.
   * Each method is one call the core makes, appended to `trace`.
   */
  class Backend {
    var playerRows: seq<PlayerRow>
    var gameRows: seq<GameRow>
    var trace: seq<Effect>

    constructor (playerRows: seq<PlayerRow>, gameRows: seq<GameRow>)
      ensures this.playerRows == playerRows && this.gameRows == gameRows && trace == []
    {
      this.playerRows := playerRows;
      this.gameRows := gameRows;
      trace := [];
    }

    method Send(to: Socket, n: Notice)
      modifies this
      ensures trace == old(trace) + [Sent(to, n)]
      ensures playerRows == old(playerRows) && gameRows == old(gameRows)
    {
      trace := trace + [Sent(to, n)];
    }

    method Emit(to: Socket, message: string)
      modifies this
      ensures trace == old(trace) + [Emitted(to, message)]
      ensures playerRows == old(playerRows) && gameRows == old(gameRows)
    {
      trace := trace + [Emitted(to, message)];
    }

    method Close(to: Socket)
      modifies this
      ensures trace == old(trace) + [Closed(to)]
      ensures playerRows == old(playerRows) && gameRows == old(gameRows)
    {
      trace := trace + [Closed(to)];
    }

    /** PlayerRepository.save: a new waiting player. */
    method SavePlayer(playerId: string)
      modifies this
      ensures trace == old(trace) + [PlayerSaved(playerId)]
      ensures playerRows == old(playerRows) + [PlayerRow(playerId, None)] && gameRows == old(gameRows)
    {
      playerRows := playerRows + [PlayerRow(playerId, None)];
      trace := trace + [PlayerSaved(playerId)];
    }

    /** PlayerRepository.fetchUnassignedPlayers, mapped to player ids. */
    method FetchUnassignedPlayers() returns (ids: seq<string>)
      modifies this
      ensures ids == Unassigned(playerRows)
      ensures trace == old(trace) + [UnassignedFetched]
      ensures playerRows == old(playerRows) && gameRows == old(gameRows)
    {
      ids := Unassigned(playerRows);
      trace := trace + [UnassignedFetched];
    }

    /** PlayerRepository.updateStatus. */
    method UpdateStatus(playerIds: seq<string>, gameId: string)
      modifies this
      ensures trace == old(trace) + [StatusUpdated(playerIds, gameId)]
      ensures playerRows == AssignRows(old(playerRows), playerIds, gameId) && gameRows == old(gameRows)
    {
      playerRows := AssignRows(playerRows, playerIds, gameId);
      trace := trace + [StatusUpdated(playerIds, gameId)];
    }

    /** PlayerRepository.remove. */
    method RemovePlayer(playerId: string)
      modifies this
      ensures trace == old(trace) + [PlayerRemoved(playerId)]
      ensures playerRows == DropPlayer(old(playerRows), playerId) && gameRows == old(gameRows)
    {
      playerRows := DropPlayer(playerRows, playerId);
      trace := trace + [PlayerRemoved(playerId)];
    }

    /** GameRepository.save. */
    method SaveGame(row: GameRow)
      modifies this
      ensures trace == old(trace) + [GameSaved(row)]
      ensures gameRows == old(gameRows) + [row] && playerRows == old(playerRows)
    {
      gameRows := gameRows + [row];
      trace := trace + [GameSaved(row)];
    }

    /** GameRepository.remove. */
    method RemoveGame(gameId: string)
      modifies this
      ensures trace == old(trace) + [GameRemoved(gameId)]
      ensures gameRows == DropGame(old(gameRows), gameId) && playerRows == old(playerRows)
    {
      gameRows := DropGame(gameRows, gameId);
      trace := trace + [GameRemoved(gameId)];
    }
  }
}
