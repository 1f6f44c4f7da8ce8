/**
 * The rules one game session follows (src/modules/Game.ts), as functions of
 * the session's state: what a message from a player does to the state and
 * what it sends. The class `GameSession.Game` is proved to follow them.
 */
module GameRules {
  import opened Wrappers
  import opened JsCore
  import opened World
  import opened Notices

  const EndSentinel: string := "gameend"

  /**
   * A session: its players in order, the index of the player whose turn it
   * is, the running value (`None` once it has become NaN), and the number
   * of moves accepted without a win.
   */
  datatype GameState = GameState(players: seq<Socket>, current: nat, whole: Option<int>, turns: nat)

  /** `Math.floor(r * n)` for a draw 0 <= r < 1 of `Math.random()`: a valid index when n > 0. */
  function FirstMover(r: real, n: nat): (i: nat)
    requires 0.0 <= r < 1.0
    ensures n > 0 ==> i < n
    ensures n == 0 ==> i == 0
  {
    ScaledDrawInRange(r, n);
    (r * n as real).Floor
  }

  lemma ScaledDrawInRange(r: real, n: nat)
    requires 0.0 <= r < 1.0
    ensures 0.0 <= r * n as real && (n > 0 ==> r * n as real < n as real)
  {
    assert n as real - r * n as real == (1.0 - r) * n as real;
  }

  /** The state the constructor leaves: a random first mover, value 0, no turns. */
  function Opening(players: seq<Socket>, r: real): GameState
    requires 0.0 <= r < 1.0
  {
    GameState(players, FirstMover(r, |players|), Some(0), 0)
  }

  /** `isCurrentPlayer`: `players[currentPlayerIndex] === p` (undefined when out of range). */
  predicate IsCurrent(st: GameState, p: Socket) {
    st.current < |st.players| && st.players[st.current] == p
  }

  /** The only values accepted after the first move. */
  predicate IsLegalLaterMove(move: Option<int>) {
    move == Some(-1) || move == Some(0) || move == Some(1)
  }

  /** What the message handler decides about one message, in the order it checks. */
  datatype Verdict = Ignored | InvalidInput | NotYourTurn | Accepted(move: Option<int>)

  function Judge(st: GameState, sender: Socket, text: string): (v: Verdict)
    ensures v == Ignored <==> text == EndSentinel
    ensures v.Accepted? <==>
      text != EndSentinel && IsCurrent(st, sender) && (st.turns == 0 || IsLegalLaterMove(ParseInt(text)))
    ensures v.Accepted? ==> v.move == ParseInt(text)
    ensures v == InvalidInput ==> st.turns != 0 && !IsLegalLaterMove(ParseInt(text))
    ensures v == NotYourTurn ==> !IsCurrent(st, sender)
  {
    if text == EndSentinel then Ignored
    else
      var move := ParseInt(text);
      if st.turns != 0 && !IsLegalLaterMove(move) then InvalidInput
      else if !IsCurrent(st, sender) then NotYourTurn
      else Accepted(move)
  }

  /**
   * The running value after a move: the move itself on the first turn, else
   * `Math.round((wholeNumber + move) / 3)`, NaN as soon as either is NaN.
   */
  function Updated(st: GameState, move: Option<int>): (v: Option<int>)
    ensures st.turns == 0 ==> v == move
    ensures st.turns != 0 ==> (v.Some? <==> st.whole.Some? && move.Some?)
    ensures st.turns != 0 && v.Some? ==> v.value == (st.whole.value + move.value + 1) / 3
  {
    if st.turns == 0 then move
    else match (st.whole, move)
      case (Some(w), Some(m)) => RoundThird(w + m); Some(Round((w + m) as real / 3.0))
      case _ => None
  }

  /** A new state together with the effects that produced it, in order. */
  datatype Reaction = Reaction(state: GameState, out: seq<Effect>)

  /** `handlePlayerMove` for the current player. */
  function Move(st: GameState, sender: Socket, move: Option<int>): (r: Reaction)
    requires IsCurrent(st, sender)
    ensures r.state.players == st.players && r.state.whole == Updated(st, move)
    ensures r.state.whole == Some(1) ==> r.state.current == st.current && r.state.turns == st.turns
    ensures r.state.whole != Some(1) ==>
      r.state.turns == st.turns + 1 && r.state.current == (st.current + 1) % |st.players|
      && |r.out| == 1 && r.out[0].Sent? && r.out[0].to == st.players[r.state.current]
  {
    var v := Updated(st, move);
    if v == Some(1) then
      Reaction(st.(whole := v),
               SendAll(st.players, Won(st.current + 1)) + EmitAll(st.players, EndSentinel))
    else
      var next := (st.current + 1) % |st.players|;
      Reaction(st.(whole := v, current := next, turns := st.turns + 1),
               [Sent(st.players[next], Moved(IndexOf(st.players, sender) + 1, v))])
  }

  /** The message handler `start` installs on every player's socket. */
  function OnMessage(st: GameState, sender: Socket, text: string): (r: Reaction)
    ensures r.state.players == st.players && st.turns <= r.state.turns <= st.turns + 1
    ensures !Judge(st, sender, text).Accepted? ==> r.state == st && |r.out| <= 1
  {
    match Judge(st, sender, text)
    case Ignored => Reaction(st, [])
    case InvalidInput => Reaction(st, [Sent(sender, Invalid)])
    case NotYourTurn => Reaction(st, [Sent(sender, NotYours)])
    case Accepted(move) => Move(st, sender, move)
  }

  /** `sendInitialMessages`: each player's number, and the first-turn notice to the first mover. */
  function InitialMessages(ps: seq<Socket>, current: nat): seq<Effect> {
    if ps == [] then []
    else
      var k := |ps| - 1;
      InitialMessages(ps[..k], current) + [Sent(ps[k], Started(k + 1))]
      + (if k == current then [Sent(ps[k], FirstTurn)] else [])
  }

  /** One more player adds its own notices after those of the players before it. */
  lemma OpeningPush(ps: seq<Socket>, k: nat, current: nat)
    requires k < |ps|
    ensures InitialMessages(ps[..k + 1], current)
      == InitialMessages(ps[..k], current) + [Sent(ps[k], Started(k + 1))]
         + (if k == current then [Sent(ps[k], FirstTurn)] else [])
  {
    assert ps[..k + 1][..k] == ps[..k];
  }

  /** `start`: `save` (the game row, then the players' game id), then the initial messages. */
  function StartTrace(gameId: string, playerIds: seq<string>, ps: seq<Socket>, current: nat): seq<Effect>
  {
    [GameSaved(GameRow(gameId, playerIds, true)), StatusUpdated(playerIds, gameId)]
    + InitialMessages(ps, current)
  }

  // ---------------------------------------------------------------- disconnect

  /** `players.indexOf(who)`, who being `undefined` (`None`) when the server found no client. */
  function PositionOf(ps: seq<Socket>, who: Option<Socket>): int {
    match who
    case None => -1
    case Some(p) => IndexOf(ps, p)
  }

  /** The players after `players.splice(players.indexOf(who), 1)`. */
  function AfterDisconnect(ps: seq<Socket>, who: Option<Socket>): (r: seq<Socket>)
    ensures |r| == if ps == [] then 0 else |ps| - 1
    ensures forall x :: x in r ==> x in ps
  {
    SpliceOne(ps, PositionOf(ps, who))
  }

  /** `players.filter(p => p !== who)`. */
  function Others(ps: seq<Socket>, who: Option<Socket>): (r: seq<Socket>)
    ensures forall x :: x in r ==> x in ps && who != Some(x)
    ensures forall x :: x in ps && who != Some(x) ==> x in r
  {
    match who
    case None => ps
    case Some(x) => Except(ps, x)
  }

  /** The forfeit notice, sent when exactly one player other than who is left in ps. */
  function ForfeitMessages(ps: seq<Socket>, who: Option<Socket>): (r: seq<Effect>)
    ensures |r| <= 1
    ensures forall e :: e in r ==> e.Sent? && e.notice == Forfeit && e.to in ps && who != Some(e.to)
  {
    var rest := Others(ps, who);
    assert rest != [] ==> rest[0] in rest;
    if |rest| == 1 then [Sent(rest[0], Forfeit)] else []
  }

  // ---------------------------------------------------------------- runs of messages

  datatype Message = Message(sender: Socket, text: string)

  /** The state after the handler has processed msgs in order. */
  function Run(st: GameState, msgs: seq<Message>): GameState
    decreases |msgs|
  {
    if msgs == [] then st else Run(OnMessage(st, msgs[0].sender, msgs[0].text).state, msgs[1..])
  }

  /** The message m is an accepted move that makes the running value 1. */
  predicate WinsOn(st: GameState, m: Message) {
    var v := Judge(st, m.sender, m.text);
    v.Accepted? && Updated(st, v.move) == Some(1)
  }

  /** Some message of msgs wins the game. */
  predicate WonDuring(st: GameState, msgs: seq<Message>)
    decreases |msgs|
  {
    msgs != [] && (WinsOn(st, msgs[0]) || WonDuring(OnMessage(st, msgs[0].sender, msgs[0].text).state, msgs[1..]))
  }

  // ---------------------------------------------------------------- properties

  /** A rejected message leaves the state alone and at most notifies its sender. */
  lemma RejectionChangesNothing(st: GameState, sender: Socket, text: string)
    requires !Judge(st, sender, text).Accepted?
    ensures OnMessage(st, sender, text).state == st
    ensures text == EndSentinel ==> OnMessage(st, sender, text).out == []
    ensures text != EndSentinel ==>
      OnMessage(st, sender, text).out
      == [Sent(sender, if st.turns != 0 && !IsLegalLaterMove(ParseInt(text)) then Invalid else NotYours)]
  {
  }

  /**
   * After the first move, an out-of-range value (NaN included) draws the
   * invalid-input notice whoever sends it: the range check precedes the turn check.
   */
  lemma RangeCheckedBeforeTurn(st: GameState, sender: Socket, text: string)
    requires text != EndSentinel && st.turns != 0 && !IsLegalLaterMove(ParseInt(text))
    ensures OnMessage(st, sender, text) == Reaction(st, [Sent(sender, Invalid)])
  {
  }

  /** On the first turn the current player's value, any integer or NaN, becomes the running value. */
  lemma FirstMoveTakesValue(st: GameState, sender: Socket, text: string)
    requires st.turns == 0 && text != EndSentinel && IsCurrent(st, sender)
    ensures OnMessage(st, sender, text).state.whole == ParseInt(text)
    ensures ParseInt(text) == Some(1) ==> WinsOn(st, Message(sender, text))
  {
  }

  /** A later move replaces w by `Math.round((w + m) / 3)`, which is (w + m + 1) div 3. */
  lemma LaterMoveRounds(st: GameState, sender: Socket, text: string, w: int, m: int)
    requires st.turns != 0 && st.whole == Some(w) && Judge(st, sender, text) == Accepted(Some(m))
    ensures m in {-1, 0, 1}
    ensures OnMessage(st, sender, text).state.whole == Some((w + m + 1) / 3)
  {
    assert OnMessage(st, sender, text).state.whole == Updated(st, Some(m));
    RoundThird(w + m);
  }

  /**
   * A winning move broadcasts the win of the current player and the end
   * sentinel to every player; the turn index and the turn count stay.
   */
  lemma WinningMove(st: GameState, sender: Socket, text: string)
    requires WinsOn(st, Message(sender, text))
    ensures OnMessage(st, sender, text).state == st.(whole := Some(1))
    ensures OnMessage(st, sender, text).out
      == SendAll(st.players, Won(st.current + 1)) + EmitAll(st.players, EndSentinel)
  {
  }

  /**
   * A move that does not win tells only the next player, names the mover by
   * its number, passes the turn on and counts it.
   */
  lemma MoveHandsTurnOn(st: GameState, sender: Socket, text: string)
    requires Judge(st, sender, text).Accepted? && !WinsOn(st, Message(sender, text))
    requires Distinct(st.players)
    ensures var r := OnMessage(st, sender, text);
      var next := (st.current + 1) % |st.players|;
      r.state == st.(whole := r.state.whole, current := next, turns := st.turns + 1)
      && r.out == [Sent(st.players[next], Moved(st.current + 1, r.state.whole))]
  {
    IndexOfDistinct(st.players, st.current);
  }

  /** While the players are distinct, each one's position is its `indexOf`. */
  lemma {:induction false} IndexOfDistinct<T>(s: seq<T>, i: nat)
    requires Distinct(s) && i < |s|
    ensures IndexOf(s, s[i]) == i
  {
    if i > 0 {
      assert s[0] != s[i];
      assert Distinct(s[1..]) by {
        forall a, b | 0 <= a < b < |s| - 1 ensures s[1..][a] != s[1..][b] {
          assert s[1..][a] == s[a + 1] && s[1..][b] == s[b + 1];
        }
      }
      IndexOfDistinct(s[1..], i - 1);
    }
  }

  /** One message, after the first move, with a NaN running value. */
  lemma NaNStep(st: GameState, m: Message)
    requires st.turns != 0 && st.whole == None
    ensures OnMessage(st, m.sender, m.text).state.turns != 0
    ensures OnMessage(st, m.sender, m.text).state.whole == None && !WinsOn(st, m)
  {
  }

  /** Once the running value is NaN after the first move, it stays NaN and nobody can win. */
  lemma {:induction false} NaNNeverWins(st: GameState, msgs: seq<Message>)
    requires st.turns != 0 && st.whole == None
    ensures Run(st, msgs).whole == None && !WonDuring(st, msgs)
    decreases |msgs|
  {
    if msgs != [] {
      NaNStep(st, msgs[0]);
      NaNNeverWins(OnMessage(st, msgs[0].sender, msgs[0].text).state, msgs[1..]);
    }
  }

  lemma StuckUpdate(st: GameState, move: Option<int>)
    requires st.turns != 0 && (st.whole == Some(0) || st.whole == Some(-1)) && IsLegalLaterMove(move)
    ensures Updated(st, move) == Some(0) || Updated(st, move) == Some(-1)
  {
    RoundThird(st.whole.value + move.value);
  }

  /** One message, after the first move, with a running value of 0 or -1. */
  lemma StuckStep(st: GameState, m: Message)
    requires st.turns != 0 && (st.whole == Some(0) || st.whole == Some(-1))
    ensures var next := OnMessage(st, m.sender, m.text).state;
      next.turns != 0 && (next.whole == Some(0) || next.whole == Some(-1)) && !WinsOn(st, m)
  {
    var v := Judge(st, m.sender, m.text);
    if v.Accepted? {
      StuckUpdate(st, v.move);
      assert OnMessage(st, m.sender, m.text).state.whole == Updated(st, v.move);
    }
  }

  /**
   * Once a later move leaves the running value at 0 or -1, every later value
   * is 0 or -1 again: the game can no longer be won.
   */
  lemma {:induction false} StuckBelowOne(st: GameState, msgs: seq<Message>)
    requires st.turns != 0 && (st.whole == Some(0) || st.whole == Some(-1))
    ensures Run(st, msgs).whole == Some(0) || Run(st, msgs).whole == Some(-1)
    ensures !WonDuring(st, msgs)
    decreases |msgs|
  {
    if msgs != [] {
      StuckStep(st, msgs[0]);
      StuckBelowOne(OnMessage(st, msgs[0].sender, msgs[0].text).state, msgs[1..]);
    }
  }

  /** While |w| >= 2, every accepted later move brings the running value strictly closer to 0. */
  lemma ValueShrinks(st: GameState, sender: Socket, text: string, w: int)
    requires st.turns != 0 && st.whole == Some(w) && (w >= 2 || w <= -2)
    requires Judge(st, sender, text).Accepted?
    ensures var v := OnMessage(st, sender, text).state.whole;
      v.Some? && (if v.value < 0 then -v.value else v.value) < (if w < 0 then -w else w)
  {
    var m := Judge(st, sender, text).move.value;
    RoundThird(w + m);
  }

  /** One message keeps the turn index in range and the players as they are. */
  lemma TurnStep(st: GameState, m: Message)
    requires st.current < |st.players|
    ensures var next := OnMessage(st, m.sender, m.text).state;
      next.current < |next.players| && next.players == st.players && next.turns >= st.turns
  {
  }

  /**
   * Messages never move the turn index out of range, never change the players,
   * and never lower the turn count.
   */
  lemma {:induction false} TurnStaysValid(st: GameState, msgs: seq<Message>)
    requires st.current < |st.players|
    ensures Run(st, msgs).current < |Run(st, msgs).players|
    ensures Run(st, msgs).players == st.players && Run(st, msgs).turns >= st.turns
    decreases |msgs|
  {
    if msgs != [] {
      TurnStep(st, msgs[0]);
      TurnStaysValid(OnMessage(st, msgs[0].sender, msgs[0].text).state, msgs[1..]);
    }
  }

  /** Each player k is told it is Player k+1. */
  lemma {:induction false} OpeningNumbersEveryone(ps: seq<Socket>, current: nat)
    ensures forall k :: 0 <= k < |ps| ==> Sent(ps[k], Started(k + 1)) in InitialMessages(ps, current)
  {
    if ps != [] {
      var k := |ps| - 1;
      var init := ps[..k];
      OpeningNumbersEveryone(init, current);
      var prev := InitialMessages(init, current);
      var all := InitialMessages(ps, current);
      assert all == prev + [Sent(ps[k], Started(k + 1))] + (if k == current then [Sent(ps[k], FirstTurn)] else []);
      forall j | 0 <= j < |ps| ensures Sent(ps[j], Started(j + 1)) in all {
        if j < k {
          assert init[j] == ps[j];
          assert Sent(init[j], Started(j + 1)) in prev;
        }
      }
    }
  }

  /** The first-turn notice goes to the player at the turn index and to nobody else. */
  lemma {:induction false} OpeningFirstTurnToCurrent(ps: seq<Socket>, current: nat)
    ensures current < |ps| ==> Sent(ps[current], FirstTurn) in InitialMessages(ps, current)
    ensures forall q :: Sent(q, FirstTurn) in InitialMessages(ps, current) ==> current < |ps| && q == ps[current]
  {
    if ps != [] {
      var k := |ps| - 1;
      var init := ps[..k];
      OpeningFirstTurnToCurrent(init, current);
      var prev := InitialMessages(init, current);
      var all := InitialMessages(ps, current);
      assert all == prev + [Sent(ps[k], Started(k + 1))] + (if k == current then [Sent(ps[k], FirstTurn)] else []);
      if current < k {
        assert init[current] == ps[current];
      }
    }
  }

  /** One notice per player, and one more when the turn index names a player. */
  lemma {:induction false} OpeningLength(ps: seq<Socket>, current: nat)
    ensures |InitialMessages(ps, current)| == |ps| + (if current < |ps| then 1 else 0)
  {
    if ps != [] {
      OpeningLength(ps[..|ps| - 1], current);
    }
  }

  /** Every opening notice is a frame sent to one of the game's players. */
  lemma {:induction false} OpeningGoesToPlayers(ps: seq<Socket>, current: nat)
    ensures forall i :: 0 <= i < |InitialMessages(ps, current)| ==>
      InitialMessages(ps, current)[i].Sent? && InitialMessages(ps, current)[i].to in ps
  {
    if ps != [] {
      var k := |ps| - 1;
      OpeningGoesToPlayers(ps[..k], current);
      var prev, all := InitialMessages(ps[..k], current), InitialMessages(ps, current);
      forall i | 0 <= i < |all| ensures all[i].Sent? && all[i].to in ps {
        if i < |prev| {
          assert all[i] == prev[i];
          assert prev[i].to in ps[..k];
        }
      }
    }
  }

  /**
   * `start` writes the game row and the players' game id before it sends a
   * single notice, and then sends one notice per player plus the first-turn
   * notice, all of them to the game's players.
   */
  lemma StartTraceOrder(gameId: string, playerIds: seq<string>, ps: seq<Socket>, current: nat)
    ensures var r := StartTrace(gameId, playerIds, ps, current);
      |r| == 2 + |ps| + (if current < |ps| then 1 else 0)
      && r[0] == GameSaved(GameRow(gameId, playerIds, true)) && r[1] == StatusUpdated(playerIds, gameId)
      && forall i :: 2 <= i < |r| ==> r[i].Sent? && r[i].to in ps
  {
    OpeningLength(ps, current);
    OpeningGoesToPlayers(ps, current);
    var r, notices := StartTrace(gameId, playerIds, ps, current), InitialMessages(ps, current);
    assert forall i :: 2 <= i < |r| ==> r[i] == notices[i - 2];
  }

  /** The player who leaves is taken out at its first position; the others keep their order. */
  lemma DisconnectOfPlayer(ps: seq<Socket>, p: Socket)
    requires p in ps
    ensures var i := IndexOf(ps, p);
      AfterDisconnect(ps, Some(p)) == ps[..i] + ps[i + 1..] && |AfterDisconnect(ps, Some(p))| == |ps| - 1
  {
  }

  /** When the leaving socket is not a player (or was not found), the last player is removed. */
  lemma DisconnectOfStranger(ps: seq<Socket>, who: Option<Socket>)
    requires ps != [] && (who == None || who.value !in ps)
    ensures AfterDisconnect(ps, who) == ps[..|ps| - 1]
  {
  }

  /**
   * In a two-player game the one left behind hears that it won; when the
   * server found no client for the leaving player, the second player is
   * dropped instead and the first is told it won.
   */
  lemma TwoPlayerForfeit(a: Socket, b: Socket)
    requires a != b
    ensures AfterDisconnect([a, b], Some(a)) == [b] && ForfeitMessages([b], Some(a)) == [Sent(b, Forfeit)]
    ensures AfterDisconnect([a, b], Some(b)) == [a] && ForfeitMessages([a], Some(b)) == [Sent(a, Forfeit)]
    ensures AfterDisconnect([a, b], None) == [a] && ForfeitMessages([a], None) == [Sent(a, Forfeit)]
  {
    assert IndexOf([a, b], b) == 1;
    assert SpliceOne([a, b], -1) == [a];
    assert Others([a], None) == [a];
    assert [a][1..] == [] && [b][1..] == [];
    assert Except([a], b) == [a] + Except([], b);
    assert Except([b], a) == [b] + Except([], a);
    assert Others([a], Some(b)) == [a];
    assert Others([b], Some(a)) == [b];
  }

  /**
   * The close path as src/server.ts runs it: the server passes no socket, so
   * when Player 1 of two closes, Player 2 is spliced out and the forfeit
   * notice goes to Player 1's own closed socket; Player 2 never hears of it.
   */
  lemma ClosedOpenerHearsItsOwnForfeit(a: Socket, b: Socket)
    requires a != b
    ensures var left := AfterDisconnect([a, b], None);
      left == [a] && ForfeitMessages(left, None) == [Sent(a, Forfeit)]
      && Sent(b, Forfeit) !in ForfeitMessages(left, None)
  {
    assert SpliceOne([a, b], -1) == [a];
  }

  /** One accepted later move: a win when the rounded value is 1, else the turn passes on. */
  lemma LaterStep(st: GameState, sender: Socket, text: string, w: int, m: int)
    requires st.turns != 0 && st.whole == Some(w) && Judge(st, sender, text) == Accepted(Some(m))
    ensures (w + m + 1) / 3 == 1 ==>
      WinsOn(st, Message(sender, text)) && OnMessage(st, sender, text).state == st.(whole := Some(1))
    ensures (w + m + 1) / 3 != 1 ==>
      OnMessage(st, sender, text).state
      == st.(whole := Some((w + m + 1) / 3), current := (st.current + 1) % |st.players|, turns := st.turns + 1)
  {
    assert Updated(st, Some(m)) == Some((w + m + 1) / 3) by { RoundThird(w + m); }
  }

  /** The end sentinel is no number: a player cannot type a move that the handler ignores. */
  lemma EndSentinelIsNaN()
    ensures ParseInt(EndSentinel) == None
  {
    assert DigitValue('g') >= 10;
  }

  /** One accepted move on the first turn that does not make the value 1: the turn passes on. */
  lemma FirstStep(st: GameState, sender: Socket, text: string, v: int)
    requires st.turns == 0 && IsCurrent(st, sender) && text != EndSentinel && ParseInt(text) == Some(v) && v != 1
    ensures OnMessage(st, sender, text).state
      == st.(whole := Some(v), current := (st.current + 1) % |st.players|, turns := 1)
  {
  }

  /** The scripted game below, first move: the opener's 9 becomes the running value. */
  lemma ScriptedOpening(ps: seq<Socket>, nine: string)
    requires |ps| == 2 && ParseInt(nine) == Some(9)
    ensures OnMessage(GameState(ps, 0, Some(0), 0), ps[0], nine).state == GameState(ps, 1, Some(9), 1)
  {
    assert nine != EndSentinel by { EndSentinelIsNaN(); }
    assert (0 + 1) % |ps| == 1 && (1 + 1) % |ps| == 0;
    FirstStep(GameState(ps, 0, Some(0), 0), ps[0], nine, 9);
  }

  /** Second move: the answer 0 turns 9 into 3 and hands the turn back. */
  lemma ScriptedAnswer(ps: seq<Socket>, zero: string)
    requires |ps| == 2 && ParseInt(zero) == Some(0)
    ensures OnMessage(GameState(ps, 1, Some(9), 1), ps[1], zero).state == GameState(ps, 0, Some(3), 2)
  {
    EndSentinelIsNaN();
    assert (0 + 1) % |ps| == 1 && (1 + 1) % |ps| == 0;
    LaterStep(GameState(ps, 1, Some(9), 1), ps[1], zero, 9, 0);
  }

  /** Third move: the answer 0 turns 3 into 1, a win. */
  lemma ScriptedWin(ps: seq<Socket>, zero: string)
    requires |ps| == 2 && ParseInt(zero) == Some(0)
    ensures WinsOn(GameState(ps, 0, Some(3), 2), Message(ps[0], zero))
    ensures OnMessage(GameState(ps, 0, Some(3), 2), ps[0], zero).state == GameState(ps, 0, Some(1), 2)
  {
    EndSentinelIsNaN();
    LaterStep(GameState(ps, 0, Some(3), 2), ps[0], zero, 3, 0);
  }

  /**
   * A scripted two-player game: the first mover opens with 9, the other
   * answers 0 (9 becomes 3), the first answers 0 (3 becomes 1) and wins.
   * nine and zero are any texts `parseInt` reads as 9 and 0, "9" and "0" among them.
   */
  lemma ScriptedGame(ps: seq<Socket>, nine: string, zero: string)
    requires |ps| == 2 && ParseInt(nine) == Some(9) && ParseInt(zero) == Some(0)
    ensures var st := GameState(ps, 0, Some(0), 0);
      var msgs := [Message(ps[0], nine), Message(ps[1], zero), Message(ps[0], zero)];
      Run(st, msgs) == GameState(ps, 0, Some(1), 2) && WonDuring(st, msgs)
  {
    var st0 := GameState(ps, 0, Some(0), 0);
    var st1 := GameState(ps, 1, Some(9), 1);
    var st2 := GameState(ps, 0, Some(3), 2);
    ScriptedOpening(ps, nine);
    ScriptedAnswer(ps, zero);
    ScriptedWin(ps, zero);
    var last := [Message(ps[0], zero)];
    var tail := [Message(ps[1], zero)] + last;
    var msgs := [Message(ps[0], nine)] + tail;
    assert tail[1..] == last && msgs[1..] == tail;
    assert Run(st2, last) == GameState(ps, 0, Some(1), 2) && WonDuring(st2, last);
    assert Run(st1, tail) == Run(st2, last) && WonDuring(st1, tail);
    assert Run(st0, msgs) == Run(st1, tail) && WonDuring(st0, msgs);
  }

  /** The same game with the literal texts a player types. */
  lemma ScriptedGameAsTyped(ps: seq<Socket>)
    requires |ps| == 2
    ensures var st := GameState(ps, 0, Some(0), 0);
      Run(st, [Message(ps[0], "9"), Message(ps[1], "0"), Message(ps[0], "0")]) == GameState(ps, 0, Some(1), 2)
  {
    ParseIntOfIntToString(9);
    ParseIntOfIntToString(0);
    ScriptedGame(ps, "9", "0");
  }
}
