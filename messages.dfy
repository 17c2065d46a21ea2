/**
 * The messages of the game's websocket: UserGameCommand (client to server) and ServerMessage
 * (server to client).  Both are plain records; their equality deliberately compares only a few
 * fields, and their hash codes follow that equality.
 */
module Messages {
  import opened Util
  import opened Pieces
  import opened Rulesets
  import opened Game

  datatype CommandType = JoinPlayer | JoinObserver | MakeMove | Leave | Resign

  /** A command; `playerColor` and `move` are null unless a constructor sets them. */
  datatype UserGameCommand = UserGameCommand(
    commandType: CommandType,
    authToken: string,
    gameID: int,
    playerColor: Option<TeamColor>,
    move: Option<Move>)

  /** The base constructor: type, token and game id as given, with neither a colour nor a move. */
  function NewCommand(t: CommandType, authToken: string, gameID: int): (c: UserGameCommand)
    ensures c.commandType == t && c.authToken == authToken && c.gameID == gameID
    ensures c.playerColor.None? && c.move.None?
  {
    UserGameCommand(t, authToken, gameID, None, None)
  }

  /** The move constructor: a MAKE_MOVE command carrying the move and no colour. */
  function MoveCommand(authToken: string, gameID: int, move: Move): (c: UserGameCommand)
    ensures c.commandType == MakeMove && c.move == Some(move) && c.playerColor.None?
    ensures c.authToken == authToken && c.gameID == gameID
  {
    NewCommand(MakeMove, authToken, gameID).(move := Some(move))
  }

  /**
   * The player-colour constructor as the source writes it: it delegates to the base constructor
   * with MAKE_MOVE, so the command it builds is a move command that carries no move.
   */
  function ColorCommandAsWritten(authToken: string, gameID: int, color: TeamColor): (c: UserGameCommand)
    ensures c.commandType == MakeMove && c.move.None? && c.playerColor == Some(color)
    ensures c.authToken == authToken && c.gameID == gameID
  {
    NewCommand(MakeMove, authToken, gameID).(playerColor := Some(color))
  }

  /** The player-colour constructor as its only caller (joining a game as a player) needs it: JOIN_PLAYER. */
  function ColorCommand(authToken: string, gameID: int, color: TeamColor): (c: UserGameCommand)
    ensures c.commandType == JoinPlayer && c.move.None? && c.playerColor == Some(color)
    ensures c.authToken == authToken && c.gameID == gameID
  {
    NewCommand(JoinPlayer, authToken, gameID).(playerColor := Some(color))
  }

  /** equals: the same command type and the same token; game id, colour and move are ignored. */
  predicate CommandEquals(a: UserGameCommand, b: UserGameCommand)
  {
    a.commandType == b.commandType && a.authToken == b.authToken
  }

  /**
   * The colour command as written is indistinguishable, to equals, from any move command with the
   * same token, and it differs from the command the corrected constructor builds.
   */
  lemma ColorCommandAsWrittenIsMove(authToken: string, gameID: int, color: TeamColor, m: Move, id: int)
    ensures CommandEquals(ColorCommandAsWritten(authToken, gameID, color), MoveCommand(authToken, id, m))
    ensures !CommandEquals(ColorCommandAsWritten(authToken, gameID, color), ColorCommand(authToken, gameID, color))
    ensures CommandEquals(ColorCommand(authToken, gameID, color), NewCommand(JoinPlayer, authToken, id))
  {
  }

  /** equals is an equivalence relation that ignores every field but the type and the token. */
  lemma CommandEqualsEquivalence(a: UserGameCommand, b: UserGameCommand, c: UserGameCommand)
    ensures CommandEquals(a, a)
    ensures CommandEquals(a, b) ==> CommandEquals(b, a)
    ensures CommandEquals(a, b) && CommandEquals(b, c) ==> CommandEquals(a, c)
    ensures CommandEquals(a, a.(gameID := b.gameID, playerColor := b.playerColor, move := b.move))
  {
  }

  /** Java's 32-bit int arithmetic: the value of x wrapped into -2^31..2^31-1. */
  function Wrap32(x: int): (r: int)
    ensures -0x8000_0000 <= r < 0x8000_0000
    ensures (r - x) % 0x1_0000_0000 == 0
  {
    (x + 0x8000_0000) % 0x1_0000_0000 - 0x8000_0000
  }

  /** String.hashCode: s[0]*31^(n-1) + ... + s[n-1], in 32-bit arithmetic. */
  function StringHash(s: string): int
  {
    if |s| == 0 then 0 else Wrap32(31 * StringHash(s[..|s| - 1]) + s[|s| - 1] as int)
  }

  /**
   * hashCode: Objects.hash(commandType, authToken).  An enum constant's hash code is its identity
   * hash, which the model takes as the parameter `typeHash`.
   */
  function CommandHash(c: UserGameCommand, typeHash: CommandType -> int): int
  {
    Wrap32(31 * Wrap32(31 + typeHash(c.commandType)) + StringHash(c.authToken))
  }

  /** Equal commands have equal hash codes, whatever the enum constants' identity hashes are. */
  lemma CommandHashConsistent(a: UserGameCommand, b: UserGameCommand, typeHash: CommandType -> int)
    requires CommandEquals(a, b)
    ensures CommandHash(a, typeHash) == CommandHash(b, typeHash)
  {
  }

  datatype ServerMessageType = LoadGame | Error | Notification

  /** A server message: a LOAD_GAME carries a game, an ERROR an error text, a NOTIFICATION a message text. */
  datatype ServerMessage = ServerMessage(
    serverMessageType: ServerMessageType,
    game: ChessGame?,
    message: JString,
    errorMessage: JString)

  /**
   * The text constructor: ERROR sets only the error text, NOTIFICATION only the message text, and
   * LOAD_GAME is refused (None: the source throws IllegalArgumentException).
   */
  function TextMessage(t: ServerMessageType, text: string): (r: Option<ServerMessage>)
    ensures r.None? <==> t == LoadGame
    ensures r.Some? ==> r.value.serverMessageType == t && r.value.game == null
    ensures t == Error ==> r.value.errorMessage == Some(text) && r.value.message.None?
    ensures t == Notification ==> r.value.message == Some(text) && r.value.errorMessage.None?
  {
    match t
    case Error => Some(ServerMessage(Error, null, None, Some(text)))
    case Notification => Some(ServerMessage(Notification, null, Some(text), None))
    case LoadGame => None
  }

  /** The game constructor: a LOAD_GAME message carrying the game and no text. */
  function GameMessage(game: ChessGame): (r: ServerMessage)
    ensures r.serverMessageType == LoadGame && r.game == game
    ensures r.message.None? && r.errorMessage.None?
  {
    ServerMessage(LoadGame, game, None, None)
  }

  /** An ERROR message, as the text constructor builds it. */
  function ErrorMessage(text: string): (r: ServerMessage)
    ensures Some(r) == TextMessage(Error, text)
  {
    ServerMessage(Error, null, None, Some(text))
  }

  /** A NOTIFICATION message, as the text constructor builds it. */
  function Notice(text: string): (r: ServerMessage)
    ensures Some(r) == TextMessage(Notification, text)
  {
    ServerMessage(Notification, null, Some(text), None)
  }

  /** equals: the same message type, whatever the contents. */
  predicate MessageEquals(a: ServerMessage, b: ServerMessage)
  {
    a.serverMessageType == b.serverMessageType
  }

  /** hashCode: Objects.hash(serverMessageType), with the enum constant's identity hash as a parameter. */
  function MessageHash(m: ServerMessage, typeHash: ServerMessageType -> int): int
  {
    Wrap32(31 + typeHash(m.serverMessageType))
  }

  /**
   * Messages of one type are all equal to each other, however their texts or games differ, and
   * equal messages hash alike.
   */
  lemma MessageEqualsByType(a: ServerMessage, b: ServerMessage, typeHash: ServerMessageType -> int)
    ensures MessageEquals(a, b) <==> a.serverMessageType == b.serverMessageType
    ensures MessageEquals(a, b) ==> MessageHash(a, typeHash) == MessageHash(b, typeHash)
    ensures forall s, t :: MessageEquals(ErrorMessage(s), ErrorMessage(t))
    ensures forall s, t :: !MessageEquals(ErrorMessage(s), Notice(t))
  {
  }
}
