/**
 * The server (src/server.ts): a registry of the games in progress, the open
 * connections, and the handlers that match waiting players and tear games
 * down. Each handler is one atomic step.
 */
module Server {
  import opened Wrappers
  import opened JsCore
  import opened World
  import opened GameRules
  import opened GameSession
  import opened ServerRules

  /** g was built over the sockets ps with the draw and the id given, and has not moved since. */
  ghost predicate Opened(g: Game, backend: Backend, ps: seq<Socket>, draw: real, gameId: string)
    requires 0.0 <= draw < 1.0
    reads g, g.players
  {
    g.backend == backend && g.gameId == gameId && g.State() == Opening(ps, draw)
  }

  /** Each of gs was opened, in order, over the clients of one of the pairs, with that pair's draw and id. */
  ghost predicate AllOpened(gs: seq<Game>, backend: Backend, clients: seq<Socket>,
                            pairs: seq<seq<string>>, draws: seq<real>, gameIds: seq<string>)
    requires |gs| <= |pairs| && |gs| <= |draws| && |gs| <= |gameIds| && DrawsInRange(draws)
    reads set g | g in gs, set g | g in gs :: g.players
  {
    forall j :: 0 <= j < |gs| ==> Opened(gs[j], backend, ClientsOf(clients, pairs[j]), draws[j], gameIds[j])
  }

  /** One more game opened over the next pair. */
  lemma AllOpenedPush(gs: seq<Game>, g: Game, backend: Backend, clients: seq<Socket>,
                      pairs: seq<seq<string>>, draws: seq<real>, gameIds: seq<string>)
    requires |gs| < |pairs| && |gs| < |draws| && |gs| < |gameIds| && DrawsInRange(draws)
    requires AllOpened(gs, backend, clients, pairs, draws, gameIds)
    requires Opened(g, backend, ClientsOf(clients, pairs[|gs|]), draws[|gs|], gameIds[|gs|])
    ensures AllOpened(gs + [g], backend, clients, pairs, draws, gameIds)
  {
    var all := gs + [g];
    forall j | 0 <= j < |all|
      ensures Opened(all[j], backend, ClientsOf(clients, pairs[j]), draws[j], gameIds[j])
    {
      if j < |gs| {
        assert all[j] == gs[j];
      }
    }
  }

  class GameServer {
    /** `activeGames`: the games in progress, oldest first. */
    var activeGames: seq<Game>
    /** `wss.clients`: the open connections, oldest first. */
    var clients: seq<Socket>
    /** The database behind `playerRepo` and `gameRepo`, and the wire. */
    const backend: Backend

    predicate Valid()
      reads this
    {
      Distinct(activeGames)
      && (forall k :: 0 <= k < |activeGames| ==> activeGames[k].backend == backend)
      && UniqueIds(clients)
    }

    /** No two rows of the players table carry the same player id. */
    ghost predicate RowIdsUnique()
      reads backend
    {
      Distinct(RowIds(backend.playerRows))
    }

    /** The players arrays of the games in progress. */
    ghost function PlayerArrays(): set<SocketArray>
      reads this
    {
      set g | g in activeGames :: g.players
    }

    /** The players array of the game that owns playerId, if one does. */
    ghost function OwnedArray(playerId: string): set<SocketArray>
      reads this, PlayerArrays()
    {
      match Owner(activeGames, playerId)
      case Some(g) => {g.players}
      case None => {}
    }

    /** Nothing in the registry or the backend has changed. */
    ghost predicate Untouched(games0: seq<Game>, rows0: seq<PlayerRow>, gameRows0: seq<GameRow>, trace0: seq<Effect>)
      reads this, backend
    {
      activeGames == games0 && backend.playerRows == rows0 && backend.gameRows == gameRows0 && backend.trace == trace0
    }

    /**
     * The first n pairs of fetched have each become a game: built over the
     * clients carrying the pair's ids, started, and appended to the registry.
     */
    ghost predicate Matched(games0: seq<Game>, rows0: seq<PlayerRow>, gameRows0: seq<GameRow>, trace0: seq<Effect>,
                            fetched: seq<string>, draws: seq<real>, gameIds: seq<string>, n: nat)
      requires n <= |fetched| / 2 && n <= |draws| && n <= |gameIds| && DrawsInRange(draws)
      reads this, backend, (set g | g in activeGames), PlayerArrays()
    {
      var pairs := Pairs(fetched);
      |activeGames| == |games0| + n && activeGames[..|games0|] == games0
      && AllOpened(activeGames[|games0|..], backend, clients, pairs, draws, gameIds)
      && backend.trace == trace0 + [UnassignedFetched] + Openings(clients, pairs, draws, gameIds, n)
      && backend.playerRows == AssignAll(rows0, pairs, gameIds, n)
      && backend.gameRows == gameRows0 + SavedGames(pairs, gameIds, n)
    }

    /** g has been torn down after playerId sent the end sentinel. */
    ghost predicate Ended(g: Game, playerId: string, games0: seq<Game>, rows0: seq<PlayerRow>, gameRows0: seq<GameRow>, trace0: seq<Effect>)
      reads this, backend, g.players
    {
      activeGames == Except(games0, g)
      && backend.trace == trace0 + [PlayerRemoved(playerId), GameRemoved(g.gameId)] + CloseAll(g.players.items)
      && backend.playerRows == DropPlayer(rows0, playerId)
      && backend.gameRows == DropGame(gameRows0, g.gameId)
    }

    /** g has lost the socket who (items0 were its players) and been torn down after playerId left. */
    ghost predicate Left(g: Game, playerId: string, who: Option<Socket>, items0: seq<Socket>,
                         games0: seq<Game>, rows0: seq<PlayerRow>, gameRows0: seq<GameRow>, trace0: seq<Effect>)
      reads this, backend, g.players
    {
      g.players.items == AfterDisconnect(items0, who)
      && activeGames == Except(games0, g)
      && backend.trace == trace0 + ForfeitMessages(g.players.items, who) + [PlayerRemoved(playerId), GameRemoved(g.gameId)]
      && backend.playerRows == DropPlayer(rows0, playerId)
      && backend.gameRows == DropGame(gameRows0, g.gameId)
    }

    /** `new GameServer(port)`: no game yet, no connection yet. */
    constructor (backend: Backend)
      ensures Valid() && this.backend == backend && activeGames == [] && clients == []
    {
      this.backend := backend;
      activeGames := [];
      clients := [];
    }

    /**
     * `handleConnection`: the WebSocket server has added ws to its clients,
     * `new Player(ws)` stores a waiting player under ws's id, and
     * `matchPlayers` runs. draws and gameIds are what `Math.random()` and
     * `uuidv4()` return to the games it starts.
     */
    method HandleConnection(ws: Socket, draws: seq<real>, gameIds: seq<string>)
      requires Valid() && RowIdsUnique()
      requires forall k :: 0 <= k < |clients| ==> clients[k].playerId != ws.playerId
      requires ws.playerId !in RowIds(backend.playerRows)
      requires |Unassigned(backend.playerRows + [PlayerRow(ws.playerId, None)])| / 2 <= |draws|
      requires |Unassigned(backend.playerRows + [PlayerRow(ws.playerId, None)])| / 2 <= |gameIds|
      requires DrawsInRange(draws)
      modifies this, backend
      ensures Valid() && RowIdsUnique() && clients == old(clients) + [ws]
      ensures var rows0 := old(backend.playerRows) + [PlayerRow(ws.playerId, None)];
        Matched(old(activeGames), rows0, old(backend.gameRows), old(backend.trace) + [PlayerSaved(ws.playerId)],
                Unassigned(rows0), draws, gameIds, |Unassigned(rows0)| / 2)
      ensures Unassigned(backend.playerRows) == OddOneOut(Unassigned(old(backend.playerRows) + [PlayerRow(ws.playerId, None)]))
    {
      SavedIdKeepsIdsUnique(backend.playerRows, ws.playerId);
      clients := clients + [ws];
      backend.SavePlayer(ws.playerId);
      MatchPlayers(draws, gameIds);
    }

    /**
     * `matchPlayers`: fetch the waiting players and start a game for each
     * pair of them, in fetch order.
     */
    method MatchPlayers(draws: seq<real>, gameIds: seq<string>)
      requires Valid() && RowIdsUnique()
      requires |Unassigned(backend.playerRows)| / 2 <= |draws| && |Unassigned(backend.playerRows)| / 2 <= |gameIds|
      requires DrawsInRange(draws)
      modifies this, backend
      ensures Valid() && RowIdsUnique() && clients == old(clients)
      ensures Matched(old(activeGames), old(backend.playerRows), old(backend.gameRows), old(backend.trace),
                      Unassigned(old(backend.playerRows)), draws, gameIds, |Unassigned(old(backend.playerRows))| / 2)
      ensures Unassigned(backend.playerRows) == OddOneOut(Unassigned(old(backend.playerRows)))
    {
      var players := backend.FetchUnassignedPlayers();
      ghost var fetched := players;
      var made := 0;  // how many games this call has started, which picks their draw and id
      while |players| >= 2
        invariant 2 * made + |players| == |fetched| && made <= |fetched| / 2 && players == fetched[2 * made..]
        invariant fetched == Unassigned(old(backend.playerRows))
        invariant Valid() && clients == old(clients)
        invariant Matched(old(activeGames), old(backend.playerRows), old(backend.gameRows), old(backend.trace),
                          fetched, draws, gameIds, made)
        decreases |players|
      {
        var playerIds := players[..2];
        assert made < |fetched| / 2;
        assert players[2..] == fetched[2 * (made + 1)..];
        players := players[2..];
        PairAt(fetched, made);
        assert playerIds == Pairs(fetched)[made];
        MatchPair(playerIds, draws, gameIds, made,
                  old(activeGames), old(backend.playerRows), old(backend.gameRows), old(backend.trace), fetched);
        made := made + 1;
      }
      assert made == |fetched| / 2;
      assert RowIdsUnique() && Unassigned(backend.playerRows) == OddOneOut(fetched) by {
        MatchingLeavesOddOneOut(old(backend.playerRows), gameIds);
      }
    }

    /** One turn of the `matchPlayers` loop: the pair's game is started, then pushed onto the registry. */
    method MatchPair(playerIds: seq<string>, draws: seq<real>, gameIds: seq<string>, made: nat,
                     ghost games0: seq<Game>, ghost rows0: seq<PlayerRow>, ghost gameRows0: seq<GameRow>,
                     ghost trace0: seq<Effect>, ghost fetched: seq<string>)
      requires Valid()
      requires made < |fetched| / 2 && made < |draws| && made < |gameIds| && DrawsInRange(draws)
      requires playerIds == Pairs(fetched)[made]
      requires Matched(games0, rows0, gameRows0, trace0, fetched, draws, gameIds, made)
      modifies this, backend
      ensures Valid() && clients == old(clients)
      ensures Matched(games0, rows0, gameRows0, trace0, fetched, draws, gameIds, made + 1)
    {
      ghost var pairs := Pairs(fetched);
      ghost var games1, rows1 := activeGames, backend.playerRows;
      ghost var started := activeGames[|games0|..];
      var game := OpenNext(playerIds, draws, gameIds, made, started, pairs);
      OpeningsStep(trace0 + [UnassignedFetched], clients, pairs, draws, gameIds, made);
      SavedGamesStep(gameRows0, pairs, gameIds, made);
      assert AssignAll(rows0, pairs, gameIds, made + 1) == AssignRows(rows1, playerIds, gameIds[made]);
      assert activeGames[|games0|..] == started + [game];
      assert activeGames[..|games0|] == games0 by {
        assert activeGames[..|games0|] == games1[..|games0|];
      }
    }

    /**
     * The game of the next pair is started and pushed onto the registry; the
     * games started before it in this round are left as they were.
     */
    method OpenNext(playerIds: seq<string>, draws: seq<real>, gameIds: seq<string>, made: nat,
                    ghost started: seq<Game>, ghost pairs: seq<seq<string>>) returns (game: Game)
      requires Valid()
      requires made == |started| && made < |pairs| && made < |draws| && made < |gameIds| && DrawsInRange(draws)
      requires playerIds == pairs[|started|]
      requires AllOpened(started, backend, clients, pairs, draws, gameIds)
      modifies this`activeGames, backend
      ensures Valid() && activeGames == old(activeGames) + [game]
      ensures AllOpened(started + [game], backend, clients, pairs, draws, gameIds)
      ensures var ps := ClientsOf(clients, playerIds);
        backend.trace == old(backend.trace) + StartTrace(gameIds[|started|], playerIds, ps, FirstMover(draws[|started|], |ps|))
      ensures backend.playerRows == AssignRows(old(backend.playerRows), playerIds, gameIds[|started|])
      ensures backend.gameRows == old(backend.gameRows) + [GameRow(gameIds[|started|], playerIds, true)]
    {
      game := StartGame(playerIds, draws[made], gameIds[made]);
      AllOpenedPush(started, game, backend, clients, pairs, draws, gameIds);
      Register(game);
    }

    /** `this.activeGames.push(game)` for a game just built over the server's backend. */
    method Register(game: Game)
      requires Valid() && game !in activeGames && game.backend == backend
      modifies this`activeGames
      ensures Valid() && activeGames == old(activeGames) + [game]
    {
      DistinctPush(activeGames, game);
      activeGames := activeGames + [game];
      forall k | 0 <= k < |activeGames| ensures activeGames[k].backend == backend {
        if k < |activeGames| - 1 {
          assert activeGames[k] == old(activeGames)[k];
        }
      }
    }

    /** `new Game(getWSClients(playerIds))`, then `await game.start(playerIds)`. */
    method StartGame(playerIds: seq<string>, draw: real, gameId: string) returns (game: Game)
      requires 0.0 <= draw < 1.0
      modifies backend
      ensures fresh(game) && fresh(game.players)
      ensures Opened(game, backend, ClientsOf(clients, playerIds), draw, gameId)
      ensures var ps := ClientsOf(clients, playerIds);
        backend.trace == old(backend.trace) + StartTrace(gameId, playerIds, ps, FirstMover(draw, |ps|))
      ensures backend.playerRows == AssignRows(old(backend.playerRows), playerIds, gameId)
      ensures backend.gameRows == old(backend.gameRows) + [GameRow(gameId, playerIds, true)]
    {
      var matchedPlayers := GetWSClients(playerIds);
      var playersArray := new SocketArray(matchedPlayers);
      game := new Game(playersArray, backend, draw, gameId);
      game.Start(playerIds);
    }

    /** `getWSClients`: for each id in turn, every open connection carrying it. */
    method GetWSClients(playerIds: seq<string>) returns (acc: seq<Socket>)
      ensures acc == ClientsOf(clients, playerIds)
    {
      acc := [];
      var i := 0;
      while i < |playerIds|
        invariant 0 <= i <= |playerIds|
        invariant acc == ClientsOf(clients, playerIds[..i])
      {
        acc := PushClients(acc, playerIds[i]);
        assert playerIds[..i + 1][..i] == playerIds[..i];
        i := i + 1;
      }
      assert playerIds[..i] == playerIds;
    }

    /** The `reduce` callback of `getWSClients`: every open connection carrying playerId is pushed onto acc. */
    method PushClients(acc: seq<Socket>, playerId: string) returns (r: seq<Socket>)
      ensures r == acc + ClientsWithId(clients, playerId)
    {
      r := acc;
      var k := 0;
      while k < |clients|
        invariant 0 <= k <= |clients|
        invariant r == acc + ClientsWithId(clients[..k], playerId)
      {
        if clients[k].playerId == playerId {
          r := r + [clients[k]];
        }
        assert clients[..k + 1][..k] == clients[..k];
        k := k + 1;
      }
      assert clients[..k] == clients;
    }

    /** `activeGames.find(game => game.hasPlayer(playerId))`. */
    method FindGame(playerId: string) returns (game: Option<Game>)
      ensures game == Owner(activeGames, playerId)
    {
      var i := 0;
      while i < |activeGames|
        invariant 0 <= i <= |activeGames|
        invariant Owner(activeGames, playerId) == Owner(activeGames[i..], playerId)
      {
        assert activeGames[i..][0] == activeGames[i] && activeGames[i..][1..] == activeGames[i + 1..];
        if activeGames[i].HasPlayer(playerId) {
          return Some(activeGames[i]);
        }
        i := i + 1;
      }
      return None;
    }

    /**
     * `handlePlayerDisconnect`: the game owning the id, if any, loses the
     * first connection still carrying the id (none, once the connection has
     * closed), the player's row is deleted and the game is removed.
     */
    method HandlePlayerDisconnect(playerId: string)
      requires Valid() && RowIdsUnique()
      modifies this, backend, OwnedArray(playerId)
      ensures Valid() && RowIdsUnique() && clients == old(clients)
      ensures var owner := old(Owner(activeGames, playerId));
        if owner.None? then Untouched(old(activeGames), old(backend.playerRows), old(backend.gameRows), old(backend.trace))
        else Left(owner.value, playerId, FirstClient(clients, playerId), old(owner.value.players.items),
                  old(activeGames), old(backend.playerRows), old(backend.gameRows), old(backend.trace))
    {
      var game := FindGame(playerId);
      var found := GetWSClients([playerId]);
      var disconPlayerWSClient := if found == [] then None else Some(found[0]);
      if game.Some? {
        LeaveGame(game.value, playerId, disconPlayerWSClient);
      }
    }

    /** The branch of `handlePlayerDisconnect` that found the game: who leaves it, then it is torn down. */
    method LeaveGame(game: Game, playerId: string, who: Option<Socket>)
      requires Valid() && RowIdsUnique() && game.backend == backend
      modifies this, backend, game.players
      ensures Valid() && RowIdsUnique() && clients == old(clients)
      ensures Left(game, playerId, who, old(game.players.items),
                   old(activeGames), old(backend.playerRows), old(backend.gameRows), old(backend.trace))
    {
      ghost var trace0 := backend.trace;
      game.HandlePlayerDisconnect(who);
      ghost var forfeit := ForfeitMessages(game.players.items, who);
      DropPlayerKeepsIdsUnique(backend.playerRows, playerId);
      backend.RemovePlayer(playerId);
      RemoveGame(game);
      assert trace0 + forfeit + [PlayerRemoved(playerId)] + [GameRemoved(game.gameId)]
        == trace0 + forfeit + [PlayerRemoved(playerId), GameRemoved(game.gameId)];
    }

    /**
     * A connection closes: the WebSocket server drops it from its clients,
     * then the close listener of src/server.ts runs `handlePlayerDisconnect`.
     * By then no connection carries the id, so the game splices out its
     * LAST player, whoever that is.
     */
    method HandleClose(ws: Socket)
      requires Valid() && RowIdsUnique() && ws in clients
      modifies this, backend, OwnedArray(ws.playerId)
      ensures Valid() && RowIdsUnique() && clients == Except(old(clients), ws)
      ensures var owner := old(Owner(activeGames, ws.playerId));
        if owner.None? then Untouched(old(activeGames), old(backend.playerRows), old(backend.gameRows), old(backend.trace))
        else Left(owner.value, ws.playerId, None, old(owner.value.players.items),
                  old(activeGames), old(backend.playerRows), old(backend.gameRows), old(backend.trace))
    {
      ghost var owner := Owner(activeGames, ws.playerId);
      ClosedClientNotFound(clients, ws);
      clients := Except(clients, ws);
      assert Owner(activeGames, ws.playerId) == owner;
      HandlePlayerDisconnect(ws.playerId);
    }

    /**
     * The close handling src/server.ts evidently means: the closing socket
     * itself is handed to its game, which splices it out and tells the one
     * player left that it won (`GameRules.TwoPlayerForfeit`).
     */
    method HandleCloseOfSocket(ws: Socket)
      requires Valid() && RowIdsUnique() && ws in clients
      modifies this, backend, OwnedArray(ws.playerId)
      ensures Valid() && RowIdsUnique() && clients == Except(old(clients), ws)
      ensures var owner := old(Owner(activeGames, ws.playerId));
        if owner.None? then Untouched(old(activeGames), old(backend.playerRows), old(backend.gameRows), old(backend.trace))
        else Left(owner.value, ws.playerId, Some(ws), old(owner.value.players.items),
                  old(activeGames), old(backend.playerRows), old(backend.gameRows), old(backend.trace))
    {
      ghost var owner := Owner(activeGames, ws.playerId);
      ClosedClientNotFound(clients, ws);
      clients := Except(clients, ws);
      var game := FindGame(ws.playerId);
      assert game == owner;
      if game.Some? {
        LeaveGame(game.value, ws.playerId, Some(ws));
      }
    }

    /** The message listener of `handleConnection`: any casing of "gameend" ends the sender's game. */
    method HandleMessage(playerId: string, message: string)
      requires Valid() && RowIdsUnique()
      modifies this, backend
      ensures Valid() && RowIdsUnique() && clients == old(clients)
      ensures var owner := old(Owner(activeGames, playerId));
        if ToLowerCase(message) != EndSentinel || owner.None? then
          Untouched(old(activeGames), old(backend.playerRows), old(backend.gameRows), old(backend.trace))
        else Ended(owner.value, playerId, old(activeGames), old(backend.playerRows), old(backend.gameRows), old(backend.trace))
    {
      if ToLowerCase(message) == EndSentinel {
        HandleGameEnd(playerId);
      }
    }

    /**
     * `handleGameEnd`: only the sender's row is deleted, then the game is
     * removed, and only then is every one of its connections closed.
     */
    method HandleGameEnd(playerId: string)
      requires Valid() && RowIdsUnique()
      modifies this, backend
      ensures Valid() && RowIdsUnique() && clients == old(clients)
      ensures var owner := old(Owner(activeGames, playerId));
        if owner.None? then Untouched(old(activeGames), old(backend.playerRows), old(backend.gameRows), old(backend.trace))
        else Ended(owner.value, playerId, old(activeGames), old(backend.playerRows), old(backend.gameRows), old(backend.trace))
    {
      ghost var trace0 := backend.trace;
      var game := FindGame(playerId);
      if game.Some? {
        var players := game.value.GetPlayers();
        DropPlayerKeepsIdsUnique(backend.playerRows, playerId);
        backend.RemovePlayer(playerId);
        RemoveGame(game.value);
        ClosePlayers(players.items);
        assert backend.trace == trace0 + [PlayerRemoved(playerId), GameRemoved(game.value.gameId)] + CloseAll(players.items);
      }
    }

    /** `players.forEach((player) => player.close())`. */
    method ClosePlayers(ps: seq<Socket>)
      modifies backend
      ensures backend.trace == old(backend.trace) + CloseAll(ps)
      ensures backend.playerRows == old(backend.playerRows) && backend.gameRows == old(backend.gameRows)
    {
      var i := 0;
      while i < |ps|
        invariant 0 <= i <= |ps|
        invariant backend.trace == old(backend.trace) + CloseAll(ps[..i])
        invariant backend.playerRows == old(backend.playerRows) && backend.gameRows == old(backend.gameRows)
      {
        backend.Close(ps[i]);
        assert ps[..i + 1][..i] == ps[..i];
        i := i + 1;
      }
      assert ps[..i] == ps;
    }

    /**
     * `removeGame`: the game's row goes first; then the game leaves the
     * registry if it is there, every other game keeping its place.
     */
    method RemoveGame(game: Game)
      requires Valid()
      modifies this, backend
      ensures Valid() && clients == old(clients)
      ensures activeGames == Except(old(activeGames), game)
      ensures |activeGames| == |old(activeGames)| - (if game in old(activeGames) then 1 else 0)
      ensures backend.trace == old(backend.trace) + [GameRemoved(game.gameId)]
      ensures backend.gameRows == DropGame(old(backend.gameRows), game.gameId)
      ensures backend.playerRows == old(backend.playerRows)
    {
      backend.RemoveGame(game.gameId);
      var index := IndexOf(activeGames, game);
      if index != -1 {
        activeGames := SpliceOne(activeGames, index);
      }
      RemoveFirstOfDistinct(old(activeGames), game);
      forall k | 0 <= k < |activeGames|
        ensures activeGames[k].backend == backend
      {
        assert activeGames[k] in old(activeGames);
      }
    }
  }

  /** Two waiting ids form one pair. */
  lemma PairsOfTwo(id1: string, id2: string)
    ensures Pairs([id1, id2]) == [[id1, id2]]
  {
    assert [id1, id2][..2] == [id1, id2] && |[id1, id2][2..]| == 0;
  }

  /** Two connections with different ids, looked up by their ids, come back as they are. */
  lemma ClientsOfTwo(ws1: Socket, ws2: Socket)
    requires ws1.playerId != ws2.playerId
    ensures ClientsOf([ws1, ws2], [ws1.playerId, ws2.playerId]) == [ws1, ws2]
  {
    var clients := [ws1, ws2];
    assert clients[..1] == [ws1] && [ws1][..0] == [];
    assert ClientsWithId([ws1], ws1.playerId) == ClientsWithId([], ws1.playerId) + [ws1];
    assert ClientsWithId([ws1], ws2.playerId) == ClientsWithId([], ws2.playerId) + [];
    assert ClientsWithId(clients, ws1.playerId) == ClientsWithId([ws1], ws1.playerId) + [];
    assert ClientsWithId(clients, ws2.playerId) == ClientsWithId([ws1], ws2.playerId) + [ws2];
    var ids := [ws1.playerId, ws2.playerId];
    assert ids[..1] == [ws1.playerId] && [ws1.playerId][..0] == [];
    assert ClientsOf(clients, [ws1.playerId]) == ClientsOf(clients, []) + ClientsWithId(clients, ws1.playerId);
  }

  /** The rows of two players that connected one after the other, before any match. */
  function WaitingPair(id1: string, id2: string): seq<PlayerRow> {
    [PlayerRow(id1, None), PlayerRow(id2, None)]
  }

  /** Both are waiting, in the order they connected; once assigned, neither is. */
  lemma WaitingPairQueue(id1: string, id2: string, gameId: string)
    ensures Unassigned([PlayerRow(id1, None)]) == [id1]
    ensures Unassigned(WaitingPair(id1, id2)) == [id1, id2]
    ensures Unassigned(AssignRows(WaitingPair(id1, id2), [id1, id2], gameId)) == []
  {
    var rows1, rows2 := [PlayerRow(id1, None)], WaitingPair(id1, id2);
    assert rows1[..0] == [] && rows2[..1] == rows1;
    var rows3 := AssignRows(rows2, [id1, id2], gameId);
    assert rows3[..1] == AssignRows(rows1, [id1, id2], gameId);
    assert rows3 == [PlayerRow(id1, Some(gameId)), PlayerRow(id2, Some(gameId))];
    assert rows3[..1][..0] == [];
  }

  /** A round of matching that found a single waiting player changed nothing but the trace. */
  lemma MatchedNone(server: GameServer, games0: seq<Game>, rows0: seq<PlayerRow>, gameRows0: seq<GameRow>,
                    trace0: seq<Effect>, fetched: seq<string>, draws: seq<real>, gameIds: seq<string>, n: nat)
    requires |fetched| == 1 && n == 0 && DrawsInRange(draws)
    requires server.Matched(games0, rows0, gameRows0, trace0, fetched, draws, gameIds, n)
    ensures server.activeGames == games0 && server.backend.playerRows == rows0
    ensures server.backend.gameRows == gameRows0 && server.backend.trace == trace0 + [UnassignedFetched]
  {
  }

  /** The first round that finds a pair writes that pair's rows and its game's start. */
  lemma FirstPairWrites(rows: seq<PlayerRow>, clients: seq<Socket>, ids: seq<string>, draw: real, gameId: string)
    requires |ids| == 2 && 0.0 <= draw < 1.0
    ensures Pairs(ids) == [ids]
    ensures AssignAll(rows, Pairs(ids), [gameId], 1) == AssignRows(rows, ids, gameId)
    ensures SavedGames(Pairs(ids), [gameId], 1) == [GameRow(gameId, ids, true)]
    ensures var ps := ClientsOf(clients, ids);
      Openings(clients, Pairs(ids), [draw], [gameId], 1) == StartTrace(gameId, ids, ps, FirstMover(draw, |ps|))
  {
    assert ids[..2] == ids && |ids[2..]| == 0;
    var pairs := Pairs(ids);
    assert pairs == [ids];
    assert AssignAll(rows, pairs, [gameId], 1) == AssignRows(AssignAll(rows, pairs, [gameId], 0), pairs[0], gameId);
    assert Openings(clients, pairs, [draw], [gameId], 0) == [];
  }

  /** A round of matching that paired the two waiting players wrote that pair's rows and its game's start. */
  lemma MatchedOneTables(server: GameServer, ws1: Socket, ws2: Socket, games0: seq<Game>, rows0: seq<PlayerRow>,
                          gameRows0: seq<GameRow>, trace0: seq<Effect>, fetched: seq<string>,
                          draws: seq<real>, gameIds: seq<string>, n: nat, draw: real, gameId: string)
    requires ws1.playerId != ws2.playerId && 0.0 <= draw < 1.0 && server.clients == [ws1, ws2]
    requires games0 == [] && gameRows0 == [] && fetched == [ws1.playerId, ws2.playerId] && n == 1
    requires draws == [draw] && gameIds == [gameId]
    requires trace0 == [PlayerSaved(ws1.playerId), UnassignedFetched, PlayerSaved(ws2.playerId)]
    requires server.Matched(games0, rows0, gameRows0, trace0, fetched, draws, gameIds, n)
    ensures server.backend.playerRows == AssignRows(rows0, [ws1.playerId, ws2.playerId], gameId)
    ensures server.backend.gameRows == [GameRow(gameId, [ws1.playerId, ws2.playerId], true)]
    ensures server.backend.trace == [PlayerSaved(ws1.playerId), UnassignedFetched, PlayerSaved(ws2.playerId), UnassignedFetched]
      + StartTrace(gameId, [ws1.playerId, ws2.playerId], [ws1, ws2], FirstMover(draw, 2))
  {
    var ids := [ws1.playerId, ws2.playerId];
    FirstPairWrites(rows0, [ws1, ws2], ids, draw, gameId);
    ClientsOfTwo(ws1, ws2);
    assert [] + [GameRow(gameId, ids, true)] == [GameRow(gameId, ids, true)];
    assert trace0 + [UnassignedFetched] == [PlayerSaved(ws1.playerId), UnassignedFetched, PlayerSaved(ws2.playerId), UnassignedFetched];
  }

  /** A round of matching that paired the two waiting players started one game over their connections. */
  lemma MatchedOneGame(server: GameServer, ws1: Socket, ws2: Socket, games0: seq<Game>, rows0: seq<PlayerRow>,
                          gameRows0: seq<GameRow>, trace0: seq<Effect>, fetched: seq<string>,
                          draws: seq<real>, gameIds: seq<string>, n: nat, draw: real, gameId: string)
    requires ws1.playerId != ws2.playerId && 0.0 <= draw < 1.0 && server.clients == [ws1, ws2]
    requires games0 == [] && gameRows0 == [] && fetched == [ws1.playerId, ws2.playerId] && n == 1
    requires draws == [draw] && gameIds == [gameId]
    requires server.Matched(games0, rows0, gameRows0, trace0, fetched, draws, gameIds, n)
    ensures |server.activeGames| == 1 && server.activeGames[0].players.items == [ws1, ws2]
    ensures server.activeGames[0].gameId == gameId
  {
    var ids := [ws1.playerId, ws2.playerId];
    PairsOfTwo(ws1.playerId, ws2.playerId);
    ClientsOfTwo(ws1, ws2);
    var started := server.activeGames[0..];
    assert started == server.activeGames;
    assert AllOpened(started, server.backend, [ws1, ws2], [ids], [draw], [gameId]);
    assert Opened(started[0], server.backend, ClientsOf([ws1, ws2], ids), draw, gameId);
  }

  /**
   * The round of matching after the second connection, stated over the rows
   * and the trace as `HandleConnection` leaves them: one game over both
   * connections, nobody waiting.
   */
  lemma SecondConnectionMatched(server: GameServer, ws1: Socket, ws2: Socket, rows0: seq<PlayerRow>,
                                trace0: seq<Effect>, draw: real, gameId: string)
    requires ws1.playerId != ws2.playerId && 0.0 <= draw < 1.0 && server.clients == [ws1, ws2]
    requires rows0 == [PlayerRow(ws1.playerId, None)] + [PlayerRow(ws2.playerId, None)]
    requires trace0 == [PlayerSaved(ws1.playerId), UnassignedFetched] + [PlayerSaved(ws2.playerId)]
    requires |Unassigned(rows0)| / 2 <= 1 && DrawsInRange([draw])
    requires server.Matched([], rows0, [], trace0, Unassigned(rows0), [draw], [gameId], |Unassigned(rows0)| / 2)
    ensures |server.activeGames| == 1 && server.activeGames[0].players.items == [ws1, ws2]
    ensures server.activeGames[0].gameId == gameId
    ensures Unassigned(server.backend.playerRows) == []
    ensures server.backend.gameRows == [GameRow(gameId, [ws1.playerId, ws2.playerId], true)]
    ensures server.backend.trace == [PlayerSaved(ws1.playerId), UnassignedFetched, PlayerSaved(ws2.playerId), UnassignedFetched]
      + StartTrace(gameId, [ws1.playerId, ws2.playerId], [ws1, ws2], FirstMover(draw, 2))
  {
    var id1, id2 := ws1.playerId, ws2.playerId;
    var trace1 := [PlayerSaved(id1), UnassignedFetched, PlayerSaved(id2)];
    assert rows0 == WaitingPair(id1, id2) && trace0 == trace1;
    WaitingPairQueue(id1, id2, gameId);
    MatchedOneGame(server, ws1, ws2, [], rows0, [], trace1, [id1, id2], [draw], [gameId], 1, draw, gameId);
    MatchedOneTables(server, ws1, ws2, [], rows0, [], trace1, [id1, id2], [draw], [gameId], 1, draw, gameId);
  }

  /** The first player connects to a server whose database has no rows: it is saved and left waiting. */
  method OnePlayerWaits(id1: string, draw: real, gameId: string) returns (server: GameServer, ws1: Socket)
    requires 0.0 <= draw < 1.0
    ensures fresh(server) && fresh(server.backend)
    ensures server.Valid() && server.RowIdsUnique() && ws1.playerId == id1 && server.clients == [ws1] && server.activeGames == []
    ensures server.backend.playerRows == [PlayerRow(id1, None)] && server.backend.gameRows == []
    ensures server.backend.trace == [PlayerSaved(id1), UnassignedFetched]
  {
    var backend := new Backend([], []);
    server := new GameServer(backend);
    ws1 := new Socket(id1);
    ghost var rows0 := backend.playerRows + [PlayerRow(id1, None)];
    ghost var trace0 := backend.trace + [PlayerSaved(id1)];
    assert rows0 == [PlayerRow(id1, None)];
    assert Unassigned(rows0) == [id1] by { assert rows0[..0] == []; }
    assert RowIds(backend.playerRows) == [];
    server.HandleConnection(ws1, [draw], [gameId]);
    MatchedNone(server, [], rows0, [], trace0, Unassigned(rows0), [draw], [gameId], |Unassigned(rows0)| / 2);
    assert trace0 == [PlayerSaved(id1)];
  }

  /**
   * Two players connect to a server whose database has no rows: the second
   * connection starts exactly one game, over both connections in their
   * order, with its opening notices, and nobody is left waiting.
   */
  method TwoPlayersOneGame(id1: string, id2: string, draw: real, gameId: string)
      returns (server: GameServer, ws1: Socket, ws2: Socket)
    requires id1 != id2 && 0.0 <= draw < 1.0
    ensures ws1.playerId == id1 && ws2.playerId == id2 && server.clients == [ws1, ws2]
    ensures |server.activeGames| == 1 && server.activeGames[0].players.items == [ws1, ws2]
    ensures server.activeGames[0].gameId == gameId
    ensures Unassigned(server.backend.playerRows) == []
    ensures server.backend.gameRows == [GameRow(gameId, [id1, id2], true)]
    ensures server.backend.trace == [PlayerSaved(id1), UnassignedFetched, PlayerSaved(id2), UnassignedFetched]
      + StartTrace(gameId, [id1, id2], [ws1, ws2], FirstMover(draw, 2))
  {
    WaitingPairQueue(id1, id2, gameId);
    server, ws1 := OnePlayerWaits(id1, draw, gameId);
    ws2 := new Socket(id2);
    ghost var rows0 := server.backend.playerRows + [PlayerRow(id2, None)];
    ghost var trace0 := server.backend.trace + [PlayerSaved(id2)];
    assert rows0 == WaitingPair(id1, id2);
    assert RowIds(server.backend.playerRows) == [id1] by { assert server.backend.playerRows[..0] == []; }
    server.HandleConnection(ws2, [draw], [gameId]);
    SecondConnectionMatched(server, ws1, ws2, rows0, trace0, draw, gameId);
  }
}
