/**
 * WebSocketHandler: the server side of the game's websocket.  Every command is checked against the
 * store (token, then game) and then dispatched: joining as a player or an observer, making a move,
 * leaving and resigning.  Each path checks its guards in the source's order and then changes the
 * session registry, the game, and what is sent.
 */
module Handler {
  import opened Util
  import opened Pieces
  import opened Positions
  import opened Rulesets
  import opened Check
  import opened Execution
  import opened Game
  import opened Messages
  import opened Store
  import opened Connections

  /** The objects a ChessGame's methods change. */
  function GameRepr(c: ChessGame): set<object>
    reads c
  {
    {c, c.board, c.board.squares, c.castling.options, c.enPassant}
  }

  /** The user holds one of the game's seats (a null name matches a free seat, as Objects.equals does). */
  predicate Participant(game: GameData, username: JString)
  {
    game.blackUsername == username || game.whiteUsername == username
  }

  /** The user holds the seat of the colour the request names; no colour matches nobody. */
  predicate Seated(game: GameData, color: Option<TeamColor>, username: JString)
  {
    (color == Some(White) && game.whiteUsername == username) || (color == Some(Black) && game.blackUsername == username)
  }

  /** The user holds the seat of the side to move. */
  predicate OnTurn(game: GameData, turn: TeamColor, username: JString)
  {
    (turn == White ==> game.whiteUsername == username) && (turn == Black ==> game.blackUsername == username)
  }

  /** The holder of the other seat, from the resigning user's point of view. */
  function Opponent(game: GameData, username: JString): JString
  {
    if username == game.whiteUsername then game.blackUsername else game.whiteUsername
  }

  const NotParticipantText := "Error: You are not a participant in this game"

  function ObserverNotice(username: JString): ServerMessage
  {
    Notice("UserData " + Show(username) + " is now watching the game")
  }

  function JoinNotice(username: JString, color: TeamColor): ServerMessage
  {
    Notice("UserData " + Show(username) + " joined playing color " + (if color == White then "white" else "black") + ".")
  }

  function LeaveNotice(username: JString, participant: bool): ServerMessage
  {
    Notice("UserData " + Show(username) + (if participant then " has left the game" else " is no longer watching"))
  }

  /** How a move is printed in the notification: its start and end squares. */
  function MoveText(m: Move): string
  {
    ToText(m.start) + ToText(m.end)
  }

  function MoveNotice(username: JString, m: Move, ending: string): ServerMessage
  {
    Notice(Show(username) + " makes move " + MoveText(m) + " " + ending)
  }

  function ResignNotice(username: JString, opponent: JString): ServerMessage
  {
    Notice(Show(username) + " has resigned." + (if opponent.Some? then " " + opponent.value + " wins!" else ""))
  }

  /** The end of a move: the game is over when the side to move is checkmated or stalemated. */
  ghost function Concluded(s: GameState): (t: GameState)
    requires Wf(s)
    ensures Wf(t)
  {
    s.(active := s.active && !Checkmate(s, s.turn) && !Stalemate(s, s.turn))
  }

  /** The end of the move notification: checkmate, stalemate, check, or nothing. */
  ghost function EndingText(s: GameState, username: JString): string
    requires Wf(s)
  {
    if Checkmate(s, s.turn) then "Checkmate. " + Show(username) + " wins!"
    else if Stalemate(s, s.turn) then "The game ends in a stalemate."
    else if InCheck(s.board, s.turn) then "Check."
    else ""
  }

  /** The game after the handler accepts a move: the move is played, then the game may end. */
  ghost function Settled(s: GameState, m: Move): (t: GameState)
    requires Wf(s) && Play(s, m).Ok?
    ensures Wf(t)
  {
    PlayWf(s, m);
    Concluded(Play(s, m).value)
  }

  /** The notification's ending after the handler accepts a move. */
  ghost function Ending(s: GameState, m: Move, username: JString): string
    requires Wf(s) && Play(s, m).Ok?
  {
    PlayWf(s, m);
    EndingText(Play(s, m).value, username)
  }

  /**
   * A game the handler leaves active after a move still has a legal move for the side to move; one it
   * ends refuses every further move; and the board, turn, rights and target are those of the move.
   */
  lemma SettledGame(s: GameState, m: Move, m2: Move)
    requires Wf(s) && Play(s, m).Ok? && s.active
    ensures var t := Settled(s, m);
      t.board == Play(s, m).value.board && t.turn == Opposite(s.turn) &&
      t.rights == Play(s, m).value.rights && t.ep == Play(s, m).value.ep
    ensures Settled(s, m).active ==> !NoLegalMoves(Settled(s, m), Settled(s, m).turn)
    ensures !Settled(s, m).active ==> Play(Play(s, m).value, m2).Err?
  {
    PlayAccepted(s, m);
    PlayWf(s, m);
    GameOverBlocksMoves(Play(s, m).value, m2);
  }

  /** joinPlayer and joinObserver once admitted: the session follows the game, gets the game, and the others are told. */
  ghost predicate Joined(sessions0: map<int, set<SessionId>>, sessions1: map<int, set<SessionId>>,
                         log0: seq<Delivery>, log1: seq<Delivery>, open: set<SessionId>,
                         session: SessionId, game: GameData, notice: ServerMessage)
    requires game.game != null
  {
    sessions1 == WithSession(sessions0, game.gameID, session) &&
    Extends(log0, log1, [Direct(session, GameMessage(game.game)), Cast(sessions1[game.gameID], Some(session), notice)], open)
  }

  /** joinPlayer: admitted only when the user holds the seat of the requested colour; otherwise an error. */
  ghost predicate PlayerJoinHandled(sessions0: map<int, set<SessionId>>, sessions1: map<int, set<SessionId>>,
                                    log0: seq<Delivery>, log1: seq<Delivery>, open: set<SessionId>,
                                    session: SessionId, color: Option<TeamColor>, username: JString, game: GameData)
    requires game.game != null
  {
    if Seated(game, color, username) then
      Joined(sessions0, sessions1, log0, log1, open, session, game, JoinNotice(username, color.value))
    else
      sessions1 == sessions0 &&
      Extends(log0, log1, [Direct(session, ErrorMessage("Error: Incorrect player attempted to join"))], open)
  }

  /** leave: the session stops following the game and the others are told (nothing is sent for a game nobody joined). */
  ghost predicate LeaveHandled(sessions0: map<int, set<SessionId>>, sessions1: map<int, set<SessionId>>,
                               log0: seq<Delivery>, log1: seq<Delivery>, open: set<SessionId>,
                               session: SessionId, username: JString, game: GameData)
  {
    sessions1 == WithoutSession(sessions0, game.gameID, session) &&
    if game.gameID in sessions0 then
      Extends(log0, log1, [Cast(sessions1[game.gameID], Some(session), LeaveNotice(username, Participant(game, username)))], open)
    else log1 == log0
  }

  /**
   * makeMove: refused, in this order, for a user without a seat, a game that is over, and a user
   * whose side is not to move; a command without a move fails on the missing move; otherwise the
   * move is tried as MovePlayed says.
   */
  ghost predicate MoveHandled(s0: GameState, s1: GameState, log0: seq<Delivery>, log1: seq<Delivery>, open: set<SessionId>,
                              sessions: map<int, set<SessionId>>, session: SessionId, move: Option<Move>,
                              username: JString, game: GameData)
    requires Wf(s0) && game.game != null
  {
    if !Participant(game, username) then
      s1 == s0 && Extends(log0, log1, [Direct(session, ErrorMessage(NotParticipantText))], open)
    else if !s0.active then
      s1 == s0 && Extends(log0, log1, [Direct(session, ErrorMessage("Error: GameData is over"))], open)
    else if !OnTurn(game, s0.turn, username) then
      s1 == s0 && Extends(log0, log1, [Direct(session, ErrorMessage("Error: It's not your turn"))], open)
    else if move.None? then
      s1 == s0 && log1 == log0
    else
      MovePlayed(s0, s1, log0, log1, open, sessions, session, move.value, username, game)
  }

  /**
   * A move that passed the guards: a move the game refuses is reported; otherwise the move is
   * played, the game may end, and every session of the game gets the game and every other session
   * the notification.
   */
  ghost predicate MovePlayed(s0: GameState, s1: GameState, log0: seq<Delivery>, log1: seq<Delivery>, open: set<SessionId>,
                             sessions: map<int, set<SessionId>>, session: SessionId, move: Move,
                             username: JString, game: GameData)
    requires Wf(s0) && game.game != null
  {
    if Play(s0, move).Err? then
      s1 == s0 && Extends(log0, log1, [Direct(session, ErrorMessage("Error: That's not a valid move"))], open)
    else
      s1 == Settled(s0, move) &&
      if game.gameID in sessions then
        Extends(log0, log1, [Cast(sessions[game.gameID], None, GameMessage(game.game)),
                             Cast(sessions[game.gameID], Some(session), MoveNotice(username, move, Ending(s0, move, username)))], open)
      else log1 == log0
  }

  /**
   * resign: refused for a game already over (before the seat is looked at), then for a user without
   * a seat; otherwise the game ends, the others are told who won, and the user is told last.
   */
  ghost predicate ResignHandled(s0: GameState, s1: GameState, log0: seq<Delivery>, log1: seq<Delivery>, open: set<SessionId>,
                                sessions: map<int, set<SessionId>>, session: SessionId, username: JString, game: GameData)
  {
    if !s0.active then
      s1 == s0 && Extends(log0, log1, [Direct(session, ErrorMessage("Error: GameData is already over"))], open)
    else if !Participant(game, username) then
      s1 == s0 && Extends(log0, log1, [Direct(session, ErrorMessage(NotParticipantText))], open)
    else
      s1 == s0.(active := false) &&
      if game.gameID in sessions then
        Extends(log0, log1, [Cast(sessions[game.gameID], Some(session), ResignNotice(username, Opponent(game, username))),
                             Direct(session, Notice("You have resigned."))], open)
      else log1 == log0
  }

  /** What the handler does with a command whose token and game were found, by the command's type. */
  ghost predicate CommandHandled(command: UserGameCommand, s0: GameState, s1: GameState,
                                 sessions0: map<int, set<SessionId>>, sessions1: map<int, set<SessionId>>,
                                 log0: seq<Delivery>, log1: seq<Delivery>, open: set<SessionId>,
                                 session: SessionId, username: JString, game: GameData)
    requires Wf(s0) && game.game != null
  {
    match command.commandType
    case JoinPlayer =>
      s1 == s0 && PlayerJoinHandled(sessions0, sessions1, log0, log1, open, session, command.playerColor, username, game)
    case JoinObserver =>
      s1 == s0 && Joined(sessions0, sessions1, log0, log1, open, session, game, ObserverNotice(username))
    case MakeMove =>
      sessions1 == sessions0 && MoveHandled(s0, s1, log0, log1, open, sessions1, session, command.move, username, game)
    case Leave =>
      s1 == s0 && LeaveHandled(sessions0, sessions1, log0, log1, open, session, username, game)
    case Resign =>
      sessions1 == sessions0 && ResignHandled(s0, s1, log0, log1, open, sessions1, session, username, game)
  }

  /** A command without a move never changes the game and never sends anything but an error. */
  lemma NoMoveOnlyErrors(s0: GameState, s1: GameState, log0: seq<Delivery>, log1: seq<Delivery>, open: set<SessionId>,
                         sessions: map<int, set<SessionId>>, session: SessionId, username: JString, game: GameData)
    requires Wf(s0) && game.game != null
    requires MoveHandled(s0, s1, log0, log1, open, sessions, session, None, username, game)
    ensures s1 == s0
    ensures |log0| <= |log1| && log1[..|log0|] == log0
    ensures forall d | d in log1[|log0|..] :: d.session == session && d.message.serverMessageType == Error
  {
    if log1 != log0 {
      FollowsLength(log1[|log0|..], [Direct(session, ErrorMessage(
        if !Participant(game, username) then NotParticipantText
        else if !s0.active then "Error: GameData is over"
        else "Error: It's not your turn"))], open);
    }
  }

  /** A user holding the requested seat ends up following the game and, when connected, gets the game first. */
  lemma SeatedJoinLoads(sessions0: map<int, set<SessionId>>, sessions1: map<int, set<SessionId>>,
                        log0: seq<Delivery>, log1: seq<Delivery>, open: set<SessionId>,
                        session: SessionId, color: TeamColor, username: JString, game: GameData)
    requires game.game != null && Seated(game, Some(color), username)
    requires PlayerJoinHandled(sessions0, sessions1, log0, log1, open, session, Some(color), username, game)
    ensures game.gameID in sessions1 && session in sessions1[game.gameID]
    ensures session in open ==> |log1| > |log0| && log1[|log0|] == Delivery(session, GameMessage(game.game))
  {
    var steps := [Direct(session, GameMessage(game.game)), Cast(sessions1[game.gameID], Some(session), JoinNotice(username, color))];
    var out := log1[|log0|..];
    if session in open {
      assert Width(steps[0], open) == 1;
      assert out[..1] == [Delivery(session, GameMessage(game.game))];
      assert log1[|log0|] == out[0];
    }
  }

  /**
   * A join request built by UserGameCommand's colour constructor as written is a move request without
   * a move: the session never follows the game, the game is unchanged, and nothing but an error is sent.
   */
  lemma ColorJoinAsWrittenNeverJoins(token: string, id: int, color: TeamColor, s0: GameState, s1: GameState,
                                     sessions0: map<int, set<SessionId>>, sessions1: map<int, set<SessionId>>,
                                     log0: seq<Delivery>, log1: seq<Delivery>, open: set<SessionId>,
                                     session: SessionId, username: JString, game: GameData)
    requires Wf(s0) && game.game != null
    requires CommandHandled(ColorCommandAsWritten(token, id, color), s0, s1, sessions0, sessions1, log0, log1, open, session, username, game)
    ensures sessions1 == sessions0 && s1 == s0
    ensures |log0| <= |log1| && forall d | d in log1[|log0|..] :: d.message.serverMessageType == Error
  {
    NoMoveOnlyErrors(s0, s1, log0, log1, open, sessions1, session, username, game);
  }

  /**
   * The corrected colour constructor builds a join request: the holder of the seat ends up following
   * the game and, when connected, is sent the game first.
   */
  lemma ColorJoinSeats(token: string, id: int, color: TeamColor, s0: GameState, s1: GameState,
                       sessions0: map<int, set<SessionId>>, sessions1: map<int, set<SessionId>>,
                       log0: seq<Delivery>, log1: seq<Delivery>, open: set<SessionId>,
                       session: SessionId, username: JString, game: GameData)
    requires Wf(s0) && game.game != null && Seated(game, Some(color), username)
    requires CommandHandled(ColorCommand(token, id, color), s0, s1, sessions0, sessions1, log0, log1, open, session, username, game)
    ensures s1 == s0 && game.gameID in sessions1 && session in sessions1[game.gameID]
    ensures session in open ==> |log1| > |log0| && log1[|log0|] == Delivery(session, GameMessage(game.game))
  {
    SeatedJoinLoads(sessions0, sessions1, log0, log1, open, session, color, username, game);
  }

  class WebSocketHandler {
    const connections: ConnectionManager
    const dataAccess: MemoryDataAccess

    constructor (transport: Transport, dataAccess: MemoryDataAccess)
      ensures fresh(connections) && connections.transport == transport && connections.sessions == map[]
      ensures this.dataAccess == dataAccess
    {
      connections := new ConnectionManager(transport);
      this.dataAccess := dataAccess;
    }

    /**
     * message: an unknown token, then an unknown game, is answered with an error and goes no
     * further; otherwise the command is dispatched on its type with the token's user and the game.
     */
    method Message(session: SessionId, command: UserGameCommand)
      requires dataAccess.Valid()
      requires command.gameID in dataAccess.games ==> dataAccess.games[command.gameID].game.Valid()
      modifies connections, connections.transport, dataAccess
      modifies if command.gameID in dataAccess.games then GameRepr(dataAccess.games[command.gameID].game) else {}
      ensures dataAccess.Valid() && dataAccess.games == old(dataAccess.games)
      ensures dataAccess.authTokens == old(dataAccess.authTokens) && dataAccess.users == old(dataAccess.users)
      ensures connections.transport.open == old(connections.transport.open)
      ensures command.authToken !in dataAccess.authTokens ==>
        connections.sessions == old(connections.sessions) &&
        Extends(old(connections.transport.delivered), connections.transport.delivered,
                [Direct(session, ErrorMessage("Error: Invalid authtoken"))], connections.transport.open)
      ensures command.authToken in dataAccess.authTokens && command.gameID !in dataAccess.games ==>
        connections.sessions == old(connections.sessions) &&
        Extends(old(connections.transport.delivered), connections.transport.delivered,
                [Direct(session, ErrorMessage("Error: Invalid gameID"))], connections.transport.open)
      ensures command.authToken in dataAccess.authTokens && command.gameID in dataAccess.games ==>
        var game := dataAccess.games[command.gameID];
        game.game.Valid() &&
        CommandHandled(command, old(game.game.State()), game.game.State(), old(connections.sessions), connections.sessions,
                       old(connections.transport.delivered), connections.transport.delivered, connections.transport.open,
                       session, dataAccess.authTokens[command.authToken].username, game)
    {
      var token := dataAccess.FindAuth(command.authToken);
      if token.None? {
        connections.SendError(session, "Error: Invalid authtoken");
        return;
      }
      var game := dataAccess.FindGame(command.gameID);
      if game.None? {
        connections.SendError(session, "Error: Invalid gameID");
        return;
      }
      Dispatch(session, command, token.value.username, game.value);
    }

    /** The switch on the command's type, once the token's user and the game are known. */
    method Dispatch(session: SessionId, command: UserGameCommand, username: JString, game: GameData)
      requires dataAccess.Valid() && game.gameID in dataAccess.games && dataAccess.games[game.gameID] == game
      requires game.game != null && game.game.Valid()
      modifies connections, connections.transport, dataAccess, GameRepr(game.game)
      ensures dataAccess.Valid() && dataAccess.games == old(dataAccess.games)
      ensures dataAccess.authTokens == old(dataAccess.authTokens) && dataAccess.users == old(dataAccess.users)
      ensures game.game.Valid() && connections.transport.open == old(connections.transport.open)
      ensures CommandHandled(command, old(game.game.State()), game.game.State(), old(connections.sessions), connections.sessions,
                             old(connections.transport.delivered), connections.transport.delivered, connections.transport.open,
                             session, username, game)
    {
      if command.commandType.JoinPlayer? {
        JoinPlayer(session, command, username, game);
      } else if command.commandType.JoinObserver? {
        JoinObserver(session, username, game);
      } else if command.commandType.MakeMove? {
        MakeMove(session, command, username, game);
      } else if command.commandType.Leave? {
        Leave(session, username, game);
      } else {
        Resign(session, username, game);
      }
    }

    /** joinObserver: the session follows the game, gets the game, and the game's other sessions are told. */
    method JoinObserver(session: SessionId, username: JString, game: GameData)
      requires game.game != null
      modifies connections, connections.transport
      ensures connections.transport.open == old(connections.transport.open)
      ensures Joined(old(connections.sessions), connections.sessions, old(connections.transport.delivered),
                     connections.transport.delivered, connections.transport.open, session, game, ObserverNotice(username))
    {
      connections.AddSession(game.gameID, session);
      Admit(session, game, ObserverNotice(username));
    }

    /** joinPlayer: only the holder of the requested colour's seat is admitted. */
    method JoinPlayer(session: SessionId, command: UserGameCommand, username: JString, game: GameData)
      requires game.game != null
      modifies connections, connections.transport
      ensures connections.transport.open == old(connections.transport.open)
      ensures PlayerJoinHandled(old(connections.sessions), connections.sessions, old(connections.transport.delivered),
                                connections.transport.delivered, connections.transport.open, session,
                                command.playerColor, username, game)
    {
      var correctPlayer := false;
      if command.playerColor == Some(White) {
        correctPlayer := game.whiteUsername == username;
      } else if command.playerColor == Some(Black) {
        correctPlayer := game.blackUsername == username;
      }
      if !correctPlayer {
        connections.SendError(session, "Error: Incorrect player attempted to join");
        return;
      }
      connections.AddSession(game.gameID, session);
      Admit(session, game, JoinNotice(username, command.playerColor.value));
    }

    /** The common end of both joins: the game to the new session, then the notice to the others. */
    method Admit(session: SessionId, game: GameData, notice: ServerMessage)
      requires game.game != null && game.gameID in connections.sessions
      modifies connections.transport
      ensures connections.transport.open == old(connections.transport.open)
      ensures Extends(old(connections.transport.delivered), connections.transport.delivered,
                      [Direct(session, GameMessage(game.game)), Cast(connections.sessions[game.gameID], Some(session), notice)],
                      connections.transport.open)
    {
      ghost var log0 := connections.transport.delivered;
      connections.SendMessage(session, GameMessage(game.game));
      ghost var log1 := connections.transport.delivered;
      var ok := connections.Broadcast(notice, game.gameID, Some(session));
      ExtendsTrans(log0, log1, connections.transport.delivered, [Direct(session, GameMessage(game.game))],
                   [Cast(connections.sessions[game.gameID], Some(session), notice)], connections.transport.open);
    }

    /** leave: the session stops following the game, and the game's other sessions are told. */
    method Leave(session: SessionId, username: JString, game: GameData)
      modifies connections, connections.transport
      ensures connections.transport.open == old(connections.transport.open)
      ensures LeaveHandled(old(connections.sessions), connections.sessions, old(connections.transport.delivered),
                           connections.transport.delivered, connections.transport.open, session, username, game)
    {
      connections.RemoveSession(game.gameID, session);
      var ok := connections.Broadcast(LeaveNotice(username, Participant(game, username)), game.gameID, Some(session));
    }

    /** makeMove: the guards, the move, the end of the game, the store, and the two broadcasts. */
    method MakeMove(session: SessionId, command: UserGameCommand, username: JString, game: GameData)
      requires dataAccess.Valid() && game.gameID in dataAccess.games && dataAccess.games[game.gameID] == game
      requires game.game != null && game.game.Valid()
      modifies connections.transport, dataAccess, GameRepr(game.game)
      ensures dataAccess.Valid() && dataAccess.games == old(dataAccess.games)
      ensures dataAccess.authTokens == old(dataAccess.authTokens) && dataAccess.users == old(dataAccess.users)
      ensures game.game.Valid() && connections.transport.open == old(connections.transport.open)
      ensures MoveHandled(old(game.game.State()), game.game.State(), old(connections.transport.delivered),
                          connections.transport.delivered, connections.transport.open, connections.sessions, session,
                          command.move, username, game)
    {
      var chess := game.game;
      if !Participant(game, username) {
        connections.SendError(session, NotParticipantText);
        return;
      }
      if !chess.active {
        connections.SendError(session, "Error: GameData is over");
        return;
      }
      if (chess.teamTurn == White && game.whiteUsername != username) ||
         (chess.teamTurn == Black && game.blackUsername != username) {
        connections.SendError(session, "Error: It's not your turn");
        return;
      }
      if command.move.None? {
        // The source hands the missing move to ChessGame.makeMove, which fails on it.
        return;
      }
      PlayMove(session, command.move.value, username, game);
    }

    /** makeMove once the guards have passed: the move, the end of the game, the store, and the two broadcasts. */
    method PlayMove(session: SessionId, move: Move, username: JString, game: GameData)
      requires dataAccess.Valid() && game.gameID in dataAccess.games && dataAccess.games[game.gameID] == game
      requires game.game != null && game.game.Valid()
      modifies connections.transport, dataAccess, GameRepr(game.game)
      ensures dataAccess.Valid() && dataAccess.games == old(dataAccess.games)
      ensures dataAccess.authTokens == old(dataAccess.authTokens) && dataAccess.users == old(dataAccess.users)
      ensures game.game.Valid() && connections.transport.open == old(connections.transport.open)
      ensures MovePlayed(old(game.game.State()), game.game.State(), old(connections.transport.delivered),
                         connections.transport.delivered, connections.transport.open, connections.sessions, session,
                         move, username, game)
    {
      var chess := game.game;
      ghost var s0 := chess.State();
      var error := chess.MakeMove(move);
      if error.Some? {
        connections.SendError(session, "Error: That's not a valid move");
        return;
      }
      var ending := EndGame(chess, username);
      assert chess.State() == Settled(s0, move) && ending == Ending(s0, move, username);
      Publish(session, game, MoveNotice(username, move, ending));
    }

    /** The store takes the changed game, and the game and the notice go out. */
    method Publish(session: SessionId, game: GameData, notice: ServerMessage)
      requires dataAccess.Valid() && game.gameID in dataAccess.games && dataAccess.games[game.gameID] == game
      requires game.game != null && game.game.Valid()
      modifies connections.transport, dataAccess
      ensures dataAccess.Valid() && dataAccess.games == old(dataAccess.games)
      ensures dataAccess.authTokens == old(dataAccess.authTokens) && dataAccess.users == old(dataAccess.users)
      ensures connections.transport.open == old(connections.transport.open)
      ensures game.gameID !in connections.sessions ==> connections.transport.delivered == old(connections.transport.delivered)
      ensures game.gameID in connections.sessions ==>
        Extends(old(connections.transport.delivered), connections.transport.delivered,
                [Cast(connections.sessions[game.gameID], None, GameMessage(game.game)),
                 Cast(connections.sessions[game.gameID], Some(session), notice)], connections.transport.open)
    {
      var failed := dataAccess.UpdateGame(game);
      // The record was found in the store and holds its game, so the store cannot refuse it.
      assert failed.None?;
      Announce(session, game, notice);
    }

    /**
     * The end of a move: checkmate or stalemate of the side now to move ends the game; the text says
     * which, or that the side is in check.
     */
    method EndGame(chess: ChessGame, username: JString) returns (ending: string)
      requires chess.Valid()
      modifies chess
      ensures chess.Valid() && chess.board == old(chess.board)
      ensures chess.State() == Concluded(old(chess.State())) && ending == EndingText(old(chess.State()), username)
    {
      ending := "";
      var mate := chess.IsInCheckmate(chess.teamTurn);
      if mate {
        ending := "Checkmate. " + Show(username) + " wins!";
        chess.SetActive(false);
        return;
      }
      var stale := chess.IsInStalemate(chess.teamTurn);
      if stale {
        ending := "The game ends in a stalemate.";
        chess.SetActive(false);
        return;
      }
      var check := chess.IsInCheck(chess.teamTurn);
      if check {
        ending := "Check.";
      }
    }

    /** After a move: the game to every session of the game, then the notice to all but the mover. */
    method Announce(session: SessionId, game: GameData, notice: ServerMessage)
      requires game.game != null
      modifies connections.transport
      ensures connections.transport.open == old(connections.transport.open)
      ensures game.gameID !in connections.sessions ==> connections.transport.delivered == old(connections.transport.delivered)
      ensures game.gameID in connections.sessions ==>
        Extends(old(connections.transport.delivered), connections.transport.delivered,
                [Cast(connections.sessions[game.gameID], None, GameMessage(game.game)),
                 Cast(connections.sessions[game.gameID], Some(session), notice)], connections.transport.open)
    {
      ghost var log0 := connections.transport.delivered;
      var ok := connections.Broadcast(GameMessage(game.game), game.gameID, None);
      if !ok {
        return;
      }
      ghost var log1 := connections.transport.delivered;
      ok := connections.Broadcast(notice, game.gameID, Some(session));
      ExtendsTrans(log0, log1, connections.transport.delivered, [Cast(connections.sessions[game.gameID], None, GameMessage(game.game))],
                   [Cast(connections.sessions[game.gameID], Some(session), notice)], connections.transport.open);
    }

    /** resign: the guards in the source's order, then the game ends and everyone is told. */
    method Resign(session: SessionId, username: JString, game: GameData)
      requires dataAccess.Valid() && game.gameID in dataAccess.games && dataAccess.games[game.gameID] == game
      requires game.game != null && game.game.Valid()
      modifies connections.transport, dataAccess, game.game
      ensures dataAccess.Valid() && dataAccess.games == old(dataAccess.games)
      ensures dataAccess.authTokens == old(dataAccess.authTokens) && dataAccess.users == old(dataAccess.users)
      ensures game.game.Valid() && connections.transport.open == old(connections.transport.open)
      ensures ResignHandled(old(game.game.State()), game.game.State(), old(connections.transport.delivered),
                            connections.transport.delivered, connections.transport.open, connections.sessions, session,
                            username, game)
    {
      var chess := game.game;
      if !chess.active {
        connections.SendError(session, "Error: GameData is already over");
        return;
      }
      if !Participant(game, username) {
        connections.SendError(session, NotParticipantText);
        return;
      }
      chess.SetActive(false);
      var opponent := if username == game.whiteUsername then game.blackUsername else game.whiteUsername;
      var failed := dataAccess.UpdateGame(game);
      // The record was found in the store and holds its game, so the store cannot refuse it.
      assert failed.None?;
      ghost var log0 := connections.transport.delivered;
      var ok := connections.Broadcast(ResignNotice(username, opponent), game.gameID, Some(session));
      if !ok {
        return;
      }
      ghost var log1 := connections.transport.delivered;
      connections.SendMessage(session, Notice("You have resigned."));
      ExtendsTrans(log0, log1, connections.transport.delivered,
                   [Cast(connections.sessions[game.gameID], Some(session), ResignNotice(username, opponent))],
                   [Direct(session, Notice("You have resigned."))], connections.transport.open);
    }

    /** clear: no session follows any game. */
    method Clear()
      modifies connections
      ensures connections.sessions == map[]
    {
      connections.Clear();
    }
  }
}
