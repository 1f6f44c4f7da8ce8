/**
 * One game session (src/modules/Game.ts): a class whose fields the message
 * handler updates in place. Every method is proved to do what the rules in
 * `GameRules` say, to the state and to the trace of the backend.
 */
module GameSession {
  import opened Wrappers
  import opened JsCore
  import opened World
  import opened GameRules
  import opened Notices

  /** `players.find(p => p.playerId === playerId)`. */
  function FindById(ps: seq<Socket>, playerId: string): (r: Option<Socket>)
    ensures r.Some? <==> exists i :: 0 <= i < |ps| && ps[i].playerId == playerId
    ensures r.Some? ==> r.value in ps && r.value.playerId == playerId
  {
    if ps == [] then None
    else if ps[0].playerId == playerId then Some(ps[0])
    else
      var r := FindById(ps[1..], playerId);
      assert r.Some? ==> exists i :: 0 <= i < |ps| && ps[i].playerId == playerId by {
        if r.Some? {
          var i :| 0 <= i < |ps[1..]| && ps[1..][i].playerId == playerId;
          assert ps[i + 1] == ps[1..][i];
        }
      }
      r
  }

  class Game {
    /** The array the constructor was given, shared with whoever gave it. */
    const players: SocketArray
    var currentPlayerIndex: nat
    /** The running value; `None` once it has become NaN. */
    var wholeNumber: Option<int>
    var turnCount: nat
    const gameId: string
    /** The database behind `gameRepo` and `playerRepo`, and the wire the sockets write to. */
    const backend: Backend

    /** The session's state, as the rules see it. */
    function State(): GameState
      reads this, players
    {
      GameState(players.items, currentPlayerIndex, wholeNumber, turnCount)
    }

    /** `new Game(players)`, with `Math.random()` drawn as draw and `uuidv4()` as gameId. */
    constructor (players: SocketArray, backend: Backend, draw: real, gameId: string)
      requires 0.0 <= draw < 1.0
      ensures this.players == players && this.backend == backend && this.gameId == gameId
      ensures State() == Opening(players.items, draw)
    {
      this.players := players;
      this.backend := backend;
      this.gameId := gameId;
      currentPlayerIndex := FirstMover(draw, |players.items|);
      wholeNumber := Some(0);
      turnCount := 0;
    }

    /**
     * `start`: `save` completes before any player hears of the game. The
     * handler it installs on each socket is `HandleMessage`.
     */
    method Start(playerIds: seq<string>)
      modifies backend
      ensures backend.trace == old(backend.trace) + StartTrace(gameId, playerIds, players.items, currentPlayerIndex)
      ensures backend.playerRows == AssignRows(old(backend.playerRows), playerIds, gameId)
      ensures backend.gameRows == old(backend.gameRows) + [GameRow(gameId, playerIds, true)]
    {
      Save(playerIds);
      SendInitialMessages();
    }

    method SendInitialMessages()
      modifies backend
      ensures backend.trace == old(backend.trace) + InitialMessages(players.items, currentPlayerIndex)
      ensures backend.playerRows == old(backend.playerRows) && backend.gameRows == old(backend.gameRows)
    {
      var ps := players.items;
      var index := 0;
      ghost var sent: seq<Effect> := [];
      while index < |ps|
        invariant 0 <= index <= |ps|
        invariant sent == InitialMessages(ps[..index], currentPlayerIndex)
        invariant backend.trace == old(backend.trace) + sent
        invariant backend.playerRows == old(backend.playerRows) && backend.gameRows == old(backend.gameRows)
      {
        OpeningPush(ps, index, currentPlayerIndex);
        backend.Send(ps[index], Started(index + 1));
        sent := sent + [Sent(ps[index], Started(index + 1))];
        if index == currentPlayerIndex {
          backend.Send(ps[index], FirstTurn);
          sent := sent + [Sent(ps[index], FirstTurn)];
        }
        index := index + 1;
      }
      assert ps[..|ps|] == ps;
    }

    /** The handler `start` installs on the socket sender, run on one message. */
    method HandleMessage(sender: Socket, text: string)
      modifies this, backend
      ensures State() == OnMessage(old(State()), sender, text).state
      ensures backend.trace == old(backend.trace) + OnMessage(old(State()), sender, text).out
      ensures backend.playerRows == old(backend.playerRows) && backend.gameRows == old(backend.gameRows)
    {
      ghost var st := State();
      if text == EndSentinel {
        assert Judge(st, sender, text) == Ignored;
        return;
      }
      var parsedMessage := ParseInt(text);
      if turnCount != 0 && parsedMessage != Some(-1) && parsedMessage != Some(0) && parsedMessage != Some(1) {
        assert Judge(st, sender, text) == InvalidInput;
        backend.Send(sender, Invalid);
        return;
      }
      if IsCurrentPlayer(sender) {
        assert Judge(st, sender, text) == Accepted(parsedMessage);
        HandlePlayerMove(sender, parsedMessage);
      } else {
        assert Judge(st, sender, text) == NotYourTurn;
        backend.Send(sender, NotYours);
      }
    }

    method HandlePlayerMove(player: Socket, move: Option<int>)
      requires IsCurrentPlayer(player)
      modifies this, backend
      ensures State() == Move(old(State()), player, move).state
      ensures backend.trace == old(backend.trace) + Move(old(State()), player, move).out
      ensures backend.playerRows == old(backend.playerRows) && backend.gameRows == old(backend.gameRows)
    {
      UpdateWholeNumber(move);
      if wholeNumber == Some(1) {
        AnnounceWinner();
        return;
      }

      SendToOtherPlayer(Moved(GetPlayerIndex(player), wholeNumber));
      SwitchToNextPlayer();
      turnCount := turnCount + 1;
    }

    /** The first line of `handlePlayerMove`: `Math.round` of a third is computed as an integer division. */
    method UpdateWholeNumber(move: Option<int>)
      modifies this`wholeNumber
      ensures wholeNumber == Updated(old(State()), move)
    {
      if turnCount != 0 {
        match (wholeNumber, move)
        case (Some(w), Some(m)) =>
          RoundThird(w + m);
          wholeNumber := Some((w + m + 1) / 3);
        case _ =>
          wholeNumber := None;
      } else {
        wholeNumber := move;
      }
    }

    /** The winning branch of `handlePlayerMove`: every player hears who won, then gets the end event. */
    method AnnounceWinner()
      modifies backend
      ensures backend.trace == old(backend.trace)
        + SendAll(players.items, Won(currentPlayerIndex + 1)) + EmitAll(players.items, EndSentinel)
      ensures backend.playerRows == old(backend.playerRows) && backend.gameRows == old(backend.gameRows)
    {
      var ps := players.items;
      var won := Won(currentPlayerIndex + 1);
      var i := 0;
      while i < |ps|
        invariant 0 <= i <= |ps|
        invariant backend.trace == old(backend.trace) + SendAll(ps[..i], won)
        invariant backend.playerRows == old(backend.playerRows) && backend.gameRows == old(backend.gameRows)
      {
        backend.Send(ps[i], won);
        assert ps[..i + 1][..i] == ps[..i];
        i := i + 1;
      }
      assert ps[..|ps|] == ps;
      i := 0;
      while i < |ps|
        invariant 0 <= i <= |ps|
        invariant backend.trace == old(backend.trace) + SendAll(ps, won) + EmitAll(ps[..i], EndSentinel)
        invariant backend.playerRows == old(backend.playerRows) && backend.gameRows == old(backend.gameRows)
      {
        backend.Emit(ps[i], EndSentinel);
        assert ps[..i + 1][..i] == ps[..i];
        i := i + 1;
      }
      assert ps[..|ps|] == ps;
    }

    method SendToOtherPlayer(message: Notice)
      requires |players.items| > 0
      modifies backend
      ensures backend.trace == old(backend.trace) + [Sent(players.items[(currentPlayerIndex + 1) % |players.items|], message)]
      ensures backend.playerRows == old(backend.playerRows) && backend.gameRows == old(backend.gameRows)
    {
      var otherPlayerIndex := (currentPlayerIndex + 1) % |players.items|;
      backend.Send(players.items[otherPlayerIndex], message);
    }

    /** `isCurrentPlayer`: the player holds the turn. */
    predicate IsCurrentPlayer(player: Socket)
      reads this, players
      ensures IsCurrentPlayer(player) ==> currentPlayerIndex < |players.items| && player in players.items
    {
      IsCurrent(State(), player)
    }

    /** `indexOf(player) + 1`: the player's 1-based number, 0 when it is not a player. */
    function GetPlayerIndex(player: Socket): (k: int)
      reads players
      ensures 0 <= k <= |players.items|
      ensures k == 0 <==> player !in players.items
      ensures k > 0 ==> players.items[k - 1] == player && player !in players.items[..k - 1]
    {
      IndexOf(players.items, player) + 1
    }

    method SwitchToNextPlayer()
      requires |players.items| > 0
      modifies this`currentPlayerIndex
      ensures currentPlayerIndex == (old(currentPlayerIndex) + 1) % |players.items|
    {
      currentPlayerIndex := (currentPlayerIndex + 1) % |players.items|;
    }

    /**
     * `handlePlayerDisconnect`: splices the leaving socket out of the shared
     * array (the last one when it is not there: `indexOf` gives -1) and tells
     * a lone remaining player that it won. The turn index is left as it is.
     */
    method HandlePlayerDisconnect(disconPlayer: Option<Socket>)
      modifies players, backend
      ensures players.items == AfterDisconnect(old(players.items), disconPlayer)
      ensures backend.trace == old(backend.trace) + ForfeitMessages(players.items, disconPlayer)
      ensures backend.playerRows == old(backend.playerRows) && backend.gameRows == old(backend.gameRows)
    {
      var index := PositionOf(players.items, disconPlayer);
      players.items := SpliceOne(players.items, index);
      var remainingPlayers := Others(players.items, disconPlayer);
      if |remainingPlayers| == 1 {
        backend.Send(remainingPlayers[0], Forfeit);
      }
    }

    /** `hasPlayer`: some player's socket carries the id. */
    function HasPlayer(playerId: string): (r: bool)
      reads players
      ensures r <==> exists i :: 0 <= i < |players.items| && players.items[i].playerId == playerId
    {
      FindById(players.items, playerId).Some?
    }

    /** `getPlayers`: the very array object the game was built with, not a copy. */
    function GetPlayers(): (r: SocketArray)
      ensures r == players
    {
      players
    }

    /** `save`: the game row first, then the players' game id. */
    method Save(playerIds: seq<string>)
      modifies backend
      ensures backend.trace == old(backend.trace)
        + [GameSaved(GameRow(gameId, playerIds, true)), StatusUpdated(playerIds, gameId)]
      ensures backend.playerRows == AssignRows(old(backend.playerRows), playerIds, gameId)
      ensures backend.gameRows == old(backend.gameRows) + [GameRow(gameId, playerIds, true)]
    {
      backend.SaveGame(GameRow(gameId, playerIds, true));
      backend.UpdateStatus(playerIds, gameId);
    }

    /** `remove`: the game's row is deleted. */
    method Remove()
      modifies backend
      ensures backend.trace == old(backend.trace) + [GameRemoved(gameId)]
      ensures backend.gameRows == DropGame(old(backend.gameRows), gameId)
      ensures backend.playerRows == old(backend.playerRows)
    {
      backend.RemoveGame(gameId);
    }
  }
}
