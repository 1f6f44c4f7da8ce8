/**
 * The texts a game sends its players (src/modules/Game.ts). The trace
 * records which notice went to which socket; `Text` is the frame that
 * `socket.send` puts on the wire for it.
 */
module Notices {
  import opened Wrappers
  import opened JsCore

  datatype Notice =
    | Started(player: int)                   // sendInitialMessages: the player's 1-based number
    | FirstTurn                              // sendInitialMessages: to the first mover only
    | Invalid                                // a later move outside -1, 0, 1
    | NotYours                               // a move from a player whose turn it is not
    | Moved(player: int, value: Option<int>) // handlePlayerMove: the mover's number and the new value
    | Won(player: int)                       // handlePlayerMove: the winner's number, to everyone
    | Forfeit                                // handlePlayerDisconnect: to the one player left

  /** The frame a notice is sent as; numbers are interpolated as `String(n)` does. */
  function Text(n: Notice): string {
    match n
    case Started(k) => "Game started! You are Player " + IntToString(k) + "."
    case FirstTurn => "You have the first turn"
    case Invalid => "Invalid input. User can only return 1, 0, -1"
    case NotYours => "It's not your turn."
    case Moved(k, v) => MovedPrefix(k) + NumberToString(v)
    case Won(k) => "Player " + IntToString(k) + " Won!"
    case Forfeit => "Opponent disconnected. You win!"
  }

  /** What precedes the value in a move notice. */
  function MovedPrefix(k: int): string {
    "Player " + IntToString(k) + ": "
  }

  /**
   * A client that drops the "Player k: " prefix of a move notice and runs
   * `parseInt` on the rest reads the running value back, NaN as NaN: the
   * value it can answer with is the one the game holds.
   */
  lemma MovedValueReadsBack(k: int, v: Option<int>)
    ensures var t := Text(Moved(k, v));
      t[..|MovedPrefix(k)|] == MovedPrefix(k) && ParseInt(t[|MovedPrefix(k)|..]) == v
  {
    var t := Text(Moved(k, v));
    assert t[|MovedPrefix(k)|..] == NumberToString(v);
    ParseIntOfNumberToString(v);
  }
}
