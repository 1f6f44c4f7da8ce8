/**
 * What `GameServer` (src/server.ts) computes, as functions: which clients
 * carry which ids, how the waiting players are paired, which game owns a
 * player, and what a round of matching writes to the backend.
 */
module ServerRules {
  import opened Wrappers
  import opened JsCore
  import opened World
  import opened GameRules
  import opened GameSession

  // ---------------------------------------------------------------- clients

  /** The clients carrying playerId, in the order the server holds them. */
  function ClientsWithId(clients: seq<Socket>, playerId: string): (r: seq<Socket>)
    ensures forall k :: 0 <= k < |r| ==> r[k].playerId == playerId
  {
    if clients == [] then []
    else ClientsWithId(clients[..|clients| - 1], playerId) + (if clients[|clients| - 1].playerId == playerId then [clients[|clients| - 1]] else [])
  }

  /** Exactly the clients carrying the id are picked, each at most once. */
  lemma {:induction false} ClientsWithIdPicks(clients: seq<Socket>, playerId: string)
    ensures |ClientsWithId(clients, playerId)| <= |clients|
    ensures forall c :: c in ClientsWithId(clients, playerId) ==> c in clients && c.playerId == playerId
    ensures forall c :: c in clients && c.playerId == playerId ==> c in ClientsWithId(clients, playerId)
  {
    if clients != [] {
      var init, last := clients[..|clients| - 1], clients[|clients| - 1];
      ClientsWithIdPicks(init, playerId);
      assert clients == init + [last];
    }
  }

  /** `getWSClients(playerIds)`: for each id in turn, every client carrying it. */
  function ClientsOf(clients: seq<Socket>, playerIds: seq<string>): (r: seq<Socket>)
    ensures forall k :: 0 <= k < |r| ==> r[k].playerId in playerIds
  {
    if playerIds == [] then []
    else
      assert forall id :: id in playerIds[..|playerIds| - 1] ==> id in playerIds;
      ClientsOf(clients, playerIds[..|playerIds| - 1]) + ClientsWithId(clients, playerIds[|playerIds| - 1])
  }

  /** A client is picked exactly when it carries one of the ids. */
  lemma {:induction false} ClientsOfMembers(clients: seq<Socket>, playerIds: seq<string>)
    ensures forall c :: c in ClientsOf(clients, playerIds) ==> c in clients && c.playerId in playerIds
    ensures forall c :: c in clients && c.playerId in playerIds ==> c in ClientsOf(clients, playerIds)
  {
    if playerIds != [] {
      var init := playerIds[..|playerIds| - 1];
      ClientsOfMembers(clients, init);
      ClientsWithIdPicks(clients, playerIds[|playerIds| - 1]);
      assert playerIds == init + [playerIds[|playerIds| - 1]];
    }
  }

  lemma OnlyClient(clients: seq<Socket>, playerId: string)
    requires |ClientsWithId(clients, playerId)| == 1
    ensures ClientsWithId(clients, playerId)[0].playerId == playerId
  {
    assert ClientsWithId(clients, playerId)[0] in ClientsWithId(clients, playerId);
  }

  /** The sockets carry the ids, one for one. */
  predicate Carry(sockets: seq<Socket>, playerIds: seq<string>) {
    |sockets| == |playerIds| && forall k :: 0 <= k < |playerIds| ==> sockets[k].playerId == playerIds[k]
  }

  lemma CarryPush(sockets: seq<Socket>, playerIds: seq<string>, s: Socket, id: string)
    requires Carry(sockets, playerIds) && s.playerId == id
    ensures Carry(sockets + [s], playerIds + [id])
  {
  }

  /** When every id has exactly one client, the picked clients follow the ids one for one. */
  lemma {:induction false} ClientsOfOnePerId(clients: seq<Socket>, playerIds: seq<string>)
    requires forall k :: 0 <= k < |playerIds| ==> |ClientsWithId(clients, playerIds[k])| == 1
    ensures |ClientsOf(clients, playerIds)| == |playerIds|
    ensures forall k :: 0 <= k < |playerIds| ==> ClientsOf(clients, playerIds)[k].playerId == playerIds[k]
  {
    if playerIds != [] {
      var n := |playerIds| - 1;
      var init := playerIds[..n];
      assert playerIds == init + [playerIds[n]];
      assert forall k :: 0 <= k < n ==> init[k] == playerIds[k];
      ClientsOfOnePerId(clients, init);
      var prev, one := ClientsOf(clients, init), ClientsWithId(clients, playerIds[n]);
      OnlyClient(clients, playerIds[n]);
      assert Carry(prev, init);
      CarryPush(prev, init, one[0], playerIds[n]);
      assert one == [one[0]];
      assert ClientsOf(clients, playerIds) == prev + one;
    }
  }

  lemma FirstFoundCarries(clients: seq<Socket>, playerId: string)
    requires ClientsOf(clients, [playerId]) != []
    ensures ClientsOf(clients, [playerId])[0] in clients && ClientsOf(clients, [playerId])[0].playerId == playerId
  {
    ClientsOfMembers(clients, [playerId]);
    assert ClientsOf(clients, [playerId])[0] in ClientsOf(clients, [playerId]);
  }

  /** `const [client] = getWSClients([playerId])`: the first client carrying the id, if any. */
  function FirstClient(clients: seq<Socket>, playerId: string): (r: Option<Socket>)
    ensures r.Some? ==> r.value in clients && r.value.playerId == playerId
  {
    var found := ClientsOf(clients, [playerId]);
    if found == [] then None else FirstFoundCarries(clients, playerId); Some(found[0])
  }

  /** The lookup finds nothing exactly when no client carries the id, and otherwise a client carrying it. */
  lemma FirstClientFinds(clients: seq<Socket>, playerId: string)
    ensures FirstClient(clients, playerId).None? <==> forall i :: 0 <= i < |clients| ==> clients[i].playerId != playerId
    ensures var r := FirstClient(clients, playerId);
      r.Some? ==> r.value in clients && r.value.playerId == playerId
  {
    var found := ClientsOf(clients, [playerId]);
    assert [playerId][..0] == [] && ClientsOf(clients, []) == [];
    assert found == ClientsOf(clients, []) + ClientsWithId(clients, playerId);
    assert found == ClientsWithId(clients, playerId);
    ClientsWithIdPicks(clients, playerId);
    if found != [] {
      assert found[0] in found;
      var i :| 0 <= i < |clients| && clients[i] == found[0];
    } else {
      forall i | 0 <= i < |clients| ensures clients[i].playerId != playerId {
        assert clients[i] in clients;
      }
    }
  }

  /** No two open connections carry the same player id. */
  predicate UniqueIds(clients: seq<Socket>) {
    forall i, j :: 0 <= i < |clients| && 0 <= j < |clients| && clients[i].playerId == clients[j].playerId ==>
      clients[i] == clients[j]
  }

  /**
   * Once a closing connection has left the clients (as the WebSocket server
   * does before the close listeners run), looking its id up finds nothing.
   */
  lemma ClosedClientNotFound(clients: seq<Socket>, ws: Socket)
    requires UniqueIds(clients) && ws in clients
    ensures FirstClient(Except(clients, ws), ws.playerId) == None
    ensures UniqueIds(Except(clients, ws))
  {
    var rest := Except(clients, ws);
    FirstClientFinds(rest, ws.playerId);
    forall i, j | 0 <= i < |rest| && 0 <= j < |rest| && rest[i].playerId == rest[j].playerId
      ensures rest[i] == rest[j]
    {
      assert rest[i] in clients && rest[j] in clients;
      var a :| 0 <= a < |clients| && clients[a] == rest[i];
      var b :| 0 <= b < |clients| && clients[b] == rest[j];
    }
  }

  // ---------------------------------------------------------------- matching

  /** `players.splice(0, 2)` while two remain: the ids two at a time, in order. */
  function Pairs(ids: seq<string>): (r: seq<seq<string>>)
    decreases |ids|
    ensures |r| == |ids| / 2
  {
    if |ids| < 2 then [] else [ids[..2]] + Pairs(ids[2..])
  }

  /** What the `while (players.length >= 2)` loop leaves in `players`. */
  function OddOneOut(ids: seq<string>): seq<string>
    decreases |ids|
  {
    if |ids| < 2 then ids else OddOneOut(ids[2..])
  }

  /** The loop leaves whatever follows the last pair: the last id when their number is odd, else none. */
  lemma {:induction false} OddOneOutIsLast(ids: seq<string>)
    decreases |ids|
    ensures OddOneOut(ids) == ids[2 * (|ids| / 2)..]
    ensures OddOneOut(ids) == if |ids| % 2 == 0 then [] else [ids[|ids| - 1]]
  {
    if |ids| >= 2 {
      OddOneOutIsLast(ids[2..]);
    }
  }

  /** Pair j is ids 2j and 2j + 1. */
  lemma {:induction false} PairsShape(ids: seq<string>)
    decreases |ids|
    ensures forall j :: 0 <= j < |ids| / 2 ==> Pairs(ids)[j] == ids[2 * j..2 * j + 2]
  {
    if |ids| >= 2 {
      PairsShape(ids[2..]);
      forall j | 1 <= j < |ids| / 2
        ensures Pairs(ids)[j] == ids[2 * j..2 * j + 2]
      {
        assert Pairs(ids)[j] == Pairs(ids[2..])[j - 1];
        assert ids[2..][2 * (j - 1)..2 * (j - 1) + 2] == ids[2 * j..2 * j + 2];
      }
    }
  }

  /** Pair j of the ids, alone: the first two of the ids not yet paired. */
  lemma PairAt(ids: seq<string>, j: nat)
    requires j < |ids| / 2
    ensures Pairs(ids)[j] == ids[2 * j..][..2]
  {
    PairsShape(ids);
    assert ids[2 * j..][..2] == ids[2 * j..2 * j + 2];
  }

  /** The first n pairs, end to end. */
  function Joined(pairs: seq<seq<string>>, n: nat): seq<string>
    requires n <= |pairs|
  {
    if n == 0 then [] else Joined(pairs, n - 1) + pairs[n - 1]
  }

  lemma {:induction false} JoinedPairs(ids: seq<string>, n: nat)
    requires n <= |ids| / 2
    ensures Joined(Pairs(ids), n) == ids[..2 * n]
  {
    PairsShape(ids);
    if n > 0 {
      JoinedPairs(ids, n - 1);
      assert ids[..2 * n] == ids[..2 * (n - 1)] + ids[2 * (n - 1)..2 * n];
    }
  }

  predicate DrawsInRange(draws: seq<real>) {
    forall j :: 0 <= j < |draws| ==> 0.0 <= draws[j] < 1.0
  }

  /** What starting the first n games writes: each game's `start`, in turn. */
  function Openings(clients: seq<Socket>, pairs: seq<seq<string>>, draws: seq<real>, gameIds: seq<string>, n: nat): seq<Effect>
    requires n <= |pairs| && n <= |draws| && n <= |gameIds| && DrawsInRange(draws)
  {
    if n == 0 then []
    else
      var ps := ClientsOf(clients, pairs[n - 1]);
      Openings(clients, pairs, draws, gameIds, n - 1)
      + StartTrace(gameIds[n - 1], pairs[n - 1], ps, FirstMover(draws[n - 1], |ps|))
  }

  /** One more game adds its `start` to the openings, after whatever came before them. */
  lemma OpeningsStep(prefix: seq<Effect>, clients: seq<Socket>, pairs: seq<seq<string>>, draws: seq<real>,
                     gameIds: seq<string>, n: nat)
    requires n < |pairs| && n < |draws| && n < |gameIds| && DrawsInRange(draws)
    ensures var ps := ClientsOf(clients, pairs[n]);
      prefix + Openings(clients, pairs, draws, gameIds, n) + StartTrace(gameIds[n], pairs[n], ps, FirstMover(draws[n], |ps|))
      == prefix + Openings(clients, pairs, draws, gameIds, n + 1)
  {
    var ps := ClientsOf(clients, pairs[n]);
    var step := StartTrace(gameIds[n], pairs[n], ps, FirstMover(draws[n], |ps|));
    assert prefix + Openings(clients, pairs, draws, gameIds, n) + step
      == prefix + (Openings(clients, pairs, draws, gameIds, n) + step);
  }

  /** The player rows once the first n games have marked their players. */
  function AssignAll(rows: seq<PlayerRow>, pairs: seq<seq<string>>, gameIds: seq<string>, n: nat): (r: seq<PlayerRow>)
    requires n <= |pairs| && n <= |gameIds|
    ensures |r| == |rows|
  {
    if n == 0 then rows
    else AssignRows(AssignAll(rows, pairs, gameIds, n - 1), pairs[n - 1], gameIds[n - 1])
  }

  /** The game rows the first n games insert. */
  function SavedGames(pairs: seq<seq<string>>, gameIds: seq<string>, n: nat): (r: seq<GameRow>)
    requires n <= |pairs| && n <= |gameIds|
    ensures |r| == n
    ensures forall j :: 0 <= j < n ==> r[j] == GameRow(gameIds[j], pairs[j], true)
  {
    if n == 0 then [] else SavedGames(pairs, gameIds, n - 1) + [GameRow(gameIds[n - 1], pairs[n - 1], true)]
  }

  /** One more game adds its row to the saved ones, after the rows there were before. */
  lemma SavedGamesStep(gameRows0: seq<GameRow>, pairs: seq<seq<string>>, gameIds: seq<string>, n: nat)
    requires n < |pairs| && n < |gameIds|
    ensures gameRows0 + SavedGames(pairs, gameIds, n) + [GameRow(gameIds[n], pairs[n], true)]
      == gameRows0 + SavedGames(pairs, gameIds, n + 1)
  {
    var row := GameRow(gameIds[n], pairs[n], true);
    assert gameRows0 + SavedGames(pairs, gameIds, n) + [row] == gameRows0 + (SavedGames(pairs, gameIds, n) + [row]);
  }

  lemma {:induction false} ExcludingTwice(xs: seq<string>, a: seq<string>, b: seq<string>)
    ensures Excluding(Excluding(xs, a), b) == Excluding(xs, a + b)
  {
    if xs != [] {
      var init, last := xs[..|xs| - 1], xs[|xs| - 1];
      ExcludingTwice(init, a, b);
      ExcludingAppend(Excluding(init, a), if last in a then [] else [last], b);
    }
  }

  /** After n games, the waiting players are those that were waiting, minus the first n pairs. */
  lemma {:induction false} AssignAllExcludes(rows: seq<PlayerRow>, pairs: seq<seq<string>>, gameIds: seq<string>, n: nat)
    requires n <= |pairs| && n <= |gameIds|
    ensures Unassigned(AssignAll(rows, pairs, gameIds, n)) == Excluding(Unassigned(rows), Joined(pairs, n))
  {
    if n == 0 {
      ExcludingNothing(Unassigned(rows));
    } else {
      var before := AssignAll(rows, pairs, gameIds, n - 1);
      AssignAllExcludes(rows, pairs, gameIds, n - 1);
      AssignedLeaveTheQueue(before, pairs[n - 1], gameIds[n - 1]);
      ExcludingTwice(Unassigned(rows), Joined(pairs, n - 1), pairs[n - 1]);
      assert AssignAll(rows, pairs, gameIds, n) == AssignRows(before, pairs[n - 1], gameIds[n - 1]);
      assert Joined(pairs, n) == Joined(pairs, n - 1) + pairs[n - 1];
    }
  }

  lemma {:induction false} ExcludingNothing(xs: seq<string>)
    ensures Excluding(xs, []) == xs
  {
    if xs != [] {
      ExcludingNothing(xs[..|xs| - 1]);
    }
  }

  /** Of distinct ids, removing the first k leaves the rest, in order. */
  lemma {:induction false} ExcludingPrefix(f: seq<string>, k: nat, i: nat)
    requires Distinct(f) && k <= i <= |f|
    ensures Excluding(f[..i], f[..k]) == f[k..i]
  {
    if i == k {
      ExcludingDropsAll(f, k, k);
    } else {
      ExcludingPrefix(f, k, i - 1);
      assert f[..i][..i - 1] == f[..i - 1];
      assert f[i - 1] !in f[..k];
      assert f[k..i] == f[k..i - 1] + [f[i - 1]];
    }
  }

  lemma {:induction false} ExcludingDropsAll(f: seq<string>, k: nat, i: nat)
    requires i <= k <= |f|
    ensures Excluding(f[..i], f[..k]) == []
  {
    if i > 0 {
      ExcludingDropsAll(f, k, i - 1);
      assert f[..i][..i - 1] == f[..i - 1];
      assert f[..i][i - 1] == f[..k][i - 1];
    }
  }

  // ---------------------------------------------------------------- player ids in the table

  /** The `playerId` column of the players table, in row order. */
  function RowIds(rows: seq<PlayerRow>): seq<string> {
    if rows == [] then [] else RowIds(rows[..|rows| - 1]) + [rows[|rows| - 1].playerId]
  }

  /** A table whose player ids are distinct has distinct waiting ids, all of them ids of its rows. */
  lemma {:induction false} WaitingIdsUnique(rows: seq<PlayerRow>)
    requires Distinct(RowIds(rows))
    ensures Distinct(Unassigned(rows))
    ensures forall id :: id in Unassigned(rows) ==> id in RowIds(rows)
  {
    if rows != [] {
      var init, last := rows[..|rows| - 1], rows[|rows| - 1];
      var ids := RowIds(init);
      assert forall k :: 0 <= k < |ids| ==> RowIds(rows)[k] == ids[k];
      WaitingIdsUnique(init);
      if last.gameId.None? {
        assert RowIds(rows)[|ids|] == last.playerId;
        DistinctPush(Unassigned(init), last.playerId);
      }
    }
  }

  /** `updateStatus` leaves the player id column as it was. */
  lemma {:induction false} AssignRowsKeepsIds(rows: seq<PlayerRow>, ids: seq<string>, gameId: string)
    ensures RowIds(AssignRows(rows, ids, gameId)) == RowIds(rows)
  {
    if rows != [] {
      var r := AssignRows(rows, ids, gameId);
      AssignRowsKeepsIds(rows[..|rows| - 1], ids, gameId);
      assert r[..|r| - 1] == AssignRows(rows[..|rows| - 1], ids, gameId);
    }
  }

  lemma {:induction false} AssignAllKeepsIds(rows: seq<PlayerRow>, pairs: seq<seq<string>>, gameIds: seq<string>, n: nat)
    requires n <= |pairs| && n <= |gameIds|
    ensures RowIds(AssignAll(rows, pairs, gameIds, n)) == RowIds(rows)
  {
    if n > 0 {
      AssignAllKeepsIds(rows, pairs, gameIds, n - 1);
      AssignRowsKeepsIds(AssignAll(rows, pairs, gameIds, n - 1), pairs[n - 1], gameIds[n - 1]);
    }
  }

  /** Deleting a player's rows keeps the remaining ids distinct, and adds none. */
  lemma {:induction false} DropPlayerKeepsIdsUnique(rows: seq<PlayerRow>, playerId: string)
    requires Distinct(RowIds(rows))
    ensures Distinct(RowIds(DropPlayer(rows, playerId)))
    ensures forall id :: id in RowIds(DropPlayer(rows, playerId)) ==> id in RowIds(rows)
  {
    if rows != [] {
      var init, last := rows[..|rows| - 1], rows[|rows| - 1];
      var ids, kept := RowIds(init), DropPlayer(init, playerId);
      assert forall k :: 0 <= k < |ids| ==> RowIds(rows)[k] == ids[k];
      DropPlayerKeepsIdsUnique(init, playerId);
      if last.playerId != playerId {
        var all := kept + [last];
        assert DropPlayer(rows, playerId) == all;
        assert all[..|all| - 1] == kept;
        assert RowIds(all) == RowIds(kept) + [last.playerId];
        assert RowIds(rows)[|ids|] == last.playerId;
        DistinctPush(RowIds(kept), last.playerId);
        forall id | id in RowIds(all) ensures id in RowIds(rows) {
          if id in RowIds(kept) {
            var k :| 0 <= k < |ids| && ids[k] == id;
            assert RowIds(rows)[k] == id;
          }
        }
      } else {
        assert DropPlayer(rows, playerId) == kept;
        forall id | id in RowIds(kept) ensures id in RowIds(rows) {
          var k :| 0 <= k < |ids| && ids[k] == id;
          assert RowIds(rows)[k] == id;
        }
      }
    }
  }

  /** Saving a player under an id not in the table keeps the ids distinct. */
  lemma SavedIdKeepsIdsUnique(rows: seq<PlayerRow>, playerId: string)
    requires Distinct(RowIds(rows)) && playerId !in RowIds(rows)
    ensures Distinct(RowIds(rows + [PlayerRow(playerId, None)]))
  {
    var all := rows + [PlayerRow(playerId, None)];
    assert all[..|all| - 1] == rows;
    DistinctPush(RowIds(rows), playerId);
  }

  /**
   * A round of matching over a table with distinct player ids keeps them
   * distinct and leaves exactly the odd player out, if any, waiting.
   */
  lemma MatchingLeavesOddOneOut(rows: seq<PlayerRow>, gameIds: seq<string>)
    requires Distinct(RowIds(rows)) && |Unassigned(rows)| / 2 <= |gameIds|
    ensures var f := Unassigned(rows);
      var after := AssignAll(rows, Pairs(f), gameIds, |f| / 2);
      Distinct(RowIds(after)) && Unassigned(after) == OddOneOut(f)
  {
    var f := Unassigned(rows);
    OddOneOutIsLast(f);
    WaitingIdsUnique(rows);
    LeftoverKeepsWaiting(rows, gameIds);
    AssignAllKeepsIds(rows, Pairs(f), gameIds, |f| / 2);
  }

  /**
   * One round of matching pairs the waiting players in fetch order and
   * leaves exactly the last one waiting when their number is odd.
   */
  lemma LeftoverKeepsWaiting(rows: seq<PlayerRow>, gameIds: seq<string>)
    requires Distinct(Unassigned(rows)) && |Unassigned(rows)| / 2 <= |gameIds|
    ensures var f := Unassigned(rows);
      Unassigned(AssignAll(rows, Pairs(f), gameIds, |f| / 2)) == f[2 * (|f| / 2)..]
  {
    var f := Unassigned(rows);
    var m := |f| / 2;
    AssignAllExcludes(rows, Pairs(f), gameIds, m);
    JoinedPairs(f, m);
    ExcludingHead(f, 2 * m);
  }

  /** Taking out the first k of distinct ids leaves the rest. */
  lemma ExcludingHead(f: seq<string>, k: nat)
    requires Distinct(f) && k <= |f|
    ensures Excluding(f, f[..k]) == f[k..]
  {
    ExcludingPrefix(f, k, |f|);
    assert f[..|f|] == f;
  }

  // ---------------------------------------------------------------- the registry

  /** `activeGames.find(game => game.hasPlayer(playerId))`. */
  function Owner(games: seq<Game>, playerId: string): (r: Option<Game>)
    reads set g | g in games :: g.players
    ensures r.Some? ==> r.value in games
  {
    if games == [] then None
    else if games[0].HasPlayer(playerId) then Some(games[0])
    else Owner(games[1..], playerId)
  }

  /** The owner is the first game that has the player, and there is none exactly when no game has it. */
  lemma {:induction false} OwnerIsFirstHolder(games: seq<Game>, playerId: string)
    ensures Owner(games, playerId).None? <==> forall k :: 0 <= k < |games| ==> !games[k].HasPlayer(playerId)
    ensures var r := Owner(games, playerId);
      r.Some? ==>
        exists k :: 0 <= k < |games| && games[k] == r.value && games[k].HasPlayer(playerId)
          && forall j :: 0 <= j < k ==> !games[j].HasPlayer(playerId)
  {
    if games == [] {
    } else if games[0].HasPlayer(playerId) {
      assert Owner(games, playerId) == Some(games[0]);
    } else {
      var r := Owner(games[1..], playerId);
      assert Owner(games, playerId) == r;
      OwnerIsFirstHolder(games[1..], playerId);
      if r.Some? {
        var k :| 0 <= k < |games[1..]| && games[1..][k] == r.value && games[1..][k].HasPlayer(playerId)
          && forall j :: 0 <= j < k ==> !games[1..][j].HasPlayer(playerId);
        assert games[k + 1] == r.value && games[k + 1].HasPlayer(playerId);
        forall j | 0 <= j < k + 1 ensures !games[j].HasPlayer(playerId) {
          if j > 0 {
            assert games[j] == games[1..][j - 1];
          }
        }
      } else {
        forall k | 0 <= k < |games| ensures !games[k].HasPlayer(playerId) {
          if k > 0 {
            assert games[k] == games[1..][k - 1];
          }
        }
      }
    }
  }
}
