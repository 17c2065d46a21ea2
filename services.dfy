/**
 * The HTTP-facing services: GameService (create, list and join games) and UserService (register,
 * log in, log out).  Each checks its guards in a fixed order and only then writes to the store.
 */
module Services {
  import opened Util
  import opened Pieces
  import opened Execution
  import opened Game
  import opened Store

  /** The exceptions a service call ends in; ServerError wraps a failure of the store. */
  datatype ServiceError =
    | BadRequest(message: string)
    | Unauthorized(message: string)
    | ItemTaken(message: string)
    | ServerError(message: string)
    | NullPointer

  const UnauthorizedText := "Error: Unauthorized"

  /** A request to take a seat: the colour (null to watch) and the game. */
  datatype JoinGameRequest = JoinGameRequest(playerColor: Option<TeamColor>, gameID: int)

  /** The colour's seat is already held by someone. */
  predicate SeatTaken(game: GameData, color: Option<TeamColor>)
  {
    (color == Some(White) && game.whiteUsername.Some?) || (color == Some(Black) && game.blackUsername.Some?)
  }

  /** The record after `username` takes the colour's seat; a null colour changes nothing. */
  function Seat(game: GameData, color: Option<TeamColor>, username: JString): (g: GameData)
    ensures g.gameID == game.gameID && g.gameName == game.gameName && g.game == game.game
    ensures g.whiteUsername == if color == Some(White) then username else game.whiteUsername
    ensures g.blackUsername == if color == Some(Black) then username else game.blackUsername
  {
    match color
    case Some(White) => game.(whiteUsername := username)
    case Some(Black) => game.(blackUsername := username)
    case None => game
  }

  /** A seat that was free when joined is held by the joiner afterwards, and the other seat keeps its holder. */
  lemma SeatKeepsOthers(game: GameData, color: TeamColor, username: string)
    requires !SeatTaken(game, Some(color))
    ensures SeatTaken(Seat(game, Some(color), Some(username)), Some(color))
    ensures color == White ==> Seat(game, Some(color), Some(username)).blackUsername == game.blackUsername
    ensures color == Black ==> Seat(game, Some(color), Some(username)).whiteUsername == game.whiteUsername
    ensures Seat(game, None, Some(username)) == game
  {
  }

  class GameService {
    const dataAccess: MemoryDataAccess

    constructor (dataAccess: MemoryDataAccess)
      ensures this.dataAccess == dataAccess
    {
      this.dataAccess := dataAccess;
    }

    /** authorization: the token's record, or Unauthorized when no such token is stored. */
    method Authorization(authToken: string) returns (r: Result<AuthData, ServiceError>)
      ensures r.Ok? <==> authToken in dataAccess.authTokens
      ensures r.Ok? ==> r.value == dataAccess.authTokens[authToken]
      ensures r.Err? ==> r.error == Unauthorized(UnauthorizedText)
    {
      var auth := dataAccess.FindAuth(authToken);
      if auth.None? {
        return Err(Unauthorized(UnauthorizedText));
      }
      return Ok(auth.value);
    }

    /**
     * createGame: an unknown token is refused before the name is looked at; a null name is refused;
     * otherwise a new game with both seats free is stored under the smallest free id.
     */
    method CreateGame(request: GameData, authToken: string) returns (r: Result<GameData, ServiceError>)
      requires dataAccess.Valid()
      modifies dataAccess
      ensures dataAccess.Valid()
      ensures dataAccess.authTokens == old(dataAccess.authTokens) && dataAccess.users == old(dataAccess.users)
      ensures authToken !in old(dataAccess.authTokens) ==>
        r == Err(Unauthorized(UnauthorizedText)) && dataAccess.games == old(dataAccess.games)
      ensures authToken in old(dataAccess.authTokens) && request.gameName.None? ==>
        r == Err(BadRequest("Game name cannot be null")) && dataAccess.games == old(dataAccess.games)
      ensures authToken in old(dataAccess.authTokens) && request.gameName.Some? ==>
        (r.Ok? && SmallestFreeId(old(dataAccess.games), r.value.gameID) &&
         r.value.whiteUsername.None? && r.value.blackUsername.None? && r.value.gameName == request.gameName &&
         r.value.game != null && fresh(r.value.game) && r.value.game.Valid() && r.value.game.State() == NewGame() &&
         dataAccess.games == old(dataAccess.games)[r.value.gameID := r.value])
    {
      var auth := Authorization(authToken);
      if auth.Err? {
        return Err(auth.error);
      }
      if request.gameName.None? {
        return Err(BadRequest("Game name cannot be null"));
      }
      var chess := new ChessGame();
      var inserted := dataAccess.InsertGame(GameData(0, None, None, request.gameName, chess));
      // The record holds a game, so the store cannot refuse it.
      assert inserted.Ok?;
      return Ok(inserted.value);
    }

    /** listGames: every stored game, for a known token. */
    method ListGames(authToken: string) returns (r: Result<set<GameData>, ServiceError>)
      requires dataAccess.Valid()
      ensures r.Ok? <==> authToken in dataAccess.authTokens
      ensures r.Err? ==> r.error == Unauthorized(UnauthorizedText)
      ensures r.Ok? ==> forall g :: g in r.value <==> g.gameID in dataAccess.games && dataAccess.games[g.gameID] == g
    {
      var auth := Authorization(authToken);
      if auth.Err? {
        return Err(auth.error);
      }
      var all := dataAccess.FindAllGames();
      return Ok(all);
    }

    /**
     * joinGame: an unknown game is refused first (even for an unknown token), then an unknown token,
     * then a seat already held; otherwise the user takes the seat (or, with no colour, nothing changes).
     */
    method JoinGame(request: JoinGameRequest, authToken: string) returns (error: Option<ServiceError>)
      requires dataAccess.Valid()
      modifies dataAccess
      ensures dataAccess.Valid()
      ensures dataAccess.authTokens == old(dataAccess.authTokens) && dataAccess.users == old(dataAccess.users)
      ensures request.gameID !in old(dataAccess.games) ==>
        error == Some(BadRequest("Error: Game not found")) && dataAccess.games == old(dataAccess.games)
      ensures request.gameID in old(dataAccess.games) && authToken !in old(dataAccess.authTokens) ==>
        error == Some(Unauthorized(UnauthorizedText)) && dataAccess.games == old(dataAccess.games)
      ensures (request.gameID in old(dataAccess.games) && authToken in old(dataAccess.authTokens) &&
               SeatTaken(old(dataAccess.games)[request.gameID], request.playerColor)) ==>
        error == Some(ItemTaken("Error: Player color taken")) && dataAccess.games == old(dataAccess.games)
      ensures (request.gameID in old(dataAccess.games) && authToken in old(dataAccess.authTokens) &&
               !SeatTaken(old(dataAccess.games)[request.gameID], request.playerColor)) ==>
        error.None? &&
        dataAccess.games == old(dataAccess.games)[request.gameID :=
          Seat(old(dataAccess.games)[request.gameID], request.playerColor, old(dataAccess.authTokens)[authToken].username)]
    {
      var found := dataAccess.FindGame(request.gameID);
      if found.None? {
        return Some(BadRequest("Error: Game not found"));
      }
      var game := found.value;
      var auth := Authorization(authToken);
      if auth.Err? {
        return Some(auth.error);
      }
      if SeatTaken(game, request.playerColor) {
        return Some(ItemTaken("Error: Player color taken"));
      }
      game := Seat(game, request.playerColor, auth.value.username);
      var failed := dataAccess.UpdateGame(game);
      // The record was just found and still holds its game, so the store cannot refuse it.
      assert failed.None?;
      return None;
    }
  }

  /** The register request names every field. */
  predicate Complete(user: Option<UserData>)
  {
    user.Some? && user.value.username.Some? && user.value.password.Some? && user.value.email.Some?
  }

  class UserService {
    const dataAccess: MemoryDataAccess

    constructor (dataAccess: MemoryDataAccess)
      ensures this.dataAccess == dataAccess
    {
      this.dataAccess := dataAccess;
    }

    /**
     * register: a request missing a field is refused, then a taken username; otherwise the user is
     * stored and then a session for them under `token` (the fresh token the source generates).  A
     * token already in use is refused by the store after the user has been stored.
     */
    method Register(user: Option<UserData>, token: string) returns (r: Result<AuthData, ServiceError>)
      requires dataAccess.Valid()
      modifies dataAccess
      ensures dataAccess.Valid() && dataAccess.games == old(dataAccess.games)
      ensures !Complete(user) ==>
        r == Err(BadRequest("Error: Username, Password, and email must not be null")) &&
        dataAccess.users == old(dataAccess.users) && dataAccess.authTokens == old(dataAccess.authTokens)
      ensures Complete(user) && user.value.username in old(dataAccess.users) ==>
        r == Err(ItemTaken("Error: username taken")) &&
        dataAccess.users == old(dataAccess.users) && dataAccess.authTokens == old(dataAccess.authTokens)
      ensures Complete(user) && user.value.username !in old(dataAccess.users) ==>
        dataAccess.users == old(dataAccess.users)[user.value.username := user.value]
      ensures Complete(user) && user.value.username !in old(dataAccess.users) && token in old(dataAccess.authTokens) ==>
        r == Err(ServerError("Authtoken already exists")) && dataAccess.authTokens == old(dataAccess.authTokens)
      ensures Complete(user) && user.value.username !in old(dataAccess.users) && token !in old(dataAccess.authTokens) ==>
        r == Ok(AuthData(token, user.value.username)) &&
        dataAccess.authTokens == old(dataAccess.authTokens)[token := AuthData(token, user.value.username)]
    {
      if !Complete(user) {
        return Err(BadRequest("Error: Username, Password, and email must not be null"));
      }
      var existing := dataAccess.FindUser(user.value.username);
      if existing.Some? {
        return Err(ItemTaken("Error: username taken"));
      }
      var failed := dataAccess.InsertUser(user.value);
      // The username was just found to be free, so the store cannot refuse the user.
      assert failed.None?;
      var auth := AuthData(token, user.value.username);
      failed := dataAccess.InsertAuth(auth);
      if failed.Some? {
        return Err(ServerError(failed.value));
      }
      return Ok(auth);
    }

    /**
     * login: an unknown user or a password that differs is refused; a request with no password for a
     * known user fails on the null (the source calls equals on it).  Otherwise a session under `token`.
     */
    method Login(user: UserData, token: string) returns (r: Result<AuthData, ServiceError>)
      requires dataAccess.Valid()
      modifies dataAccess
      ensures dataAccess.Valid() && dataAccess.games == old(dataAccess.games) && dataAccess.users == old(dataAccess.users)
      ensures user.username !in dataAccess.users ==>
        r == Err(Unauthorized("Error: Incorrect username or password")) && dataAccess.authTokens == old(dataAccess.authTokens)
      ensures user.username in dataAccess.users && user.password.None? ==>
        r == Err(NullPointer) && dataAccess.authTokens == old(dataAccess.authTokens)
      ensures user.username in dataAccess.users && user.password.Some? && !PasswordMatches(dataAccess.users, user) ==>
        r == Err(Unauthorized("Error: Incorrect username or password")) && dataAccess.authTokens == old(dataAccess.authTokens)
      ensures user.password.Some? && PasswordMatches(dataAccess.users, user) && token in old(dataAccess.authTokens) ==>
        r == Err(ServerError("Authtoken already exists")) && dataAccess.authTokens == old(dataAccess.authTokens)
      ensures user.password.Some? && PasswordMatches(dataAccess.users, user) && token !in old(dataAccess.authTokens) ==>
        r == Ok(AuthData(token, user.username)) &&
        dataAccess.authTokens == old(dataAccess.authTokens)[token := AuthData(token, user.username)]
    {
      var dataUser := dataAccess.FindUser(user.username);
      if dataUser.None? {
        return Err(Unauthorized("Error: Incorrect username or password"));
      }
      if user.password.None? {
        return Err(NullPointer);
      }
      if user.password != dataUser.value.password {
        return Err(Unauthorized("Error: Incorrect username or password"));
      }
      var auth := AuthData(token, user.username);
      var failed := dataAccess.InsertAuth(auth);
      if failed.Some? {
        return Err(ServerError(failed.value));
      }
      return Ok(auth);
    }

    /** logout: an unknown token is refused; otherwise exactly that token is removed. */
    method Logout(authToken: string) returns (error: Option<ServiceError>)
      requires dataAccess.Valid()
      modifies dataAccess
      ensures dataAccess.Valid() && dataAccess.games == old(dataAccess.games) && dataAccess.users == old(dataAccess.users)
      ensures authToken !in old(dataAccess.authTokens) ==>
        error == Some(Unauthorized(UnauthorizedText)) && dataAccess.authTokens == old(dataAccess.authTokens)
      ensures authToken in old(dataAccess.authTokens) ==>
        error.None? && dataAccess.authTokens == old(dataAccess.authTokens) - {authToken}
    {
      var delete := dataAccess.FindAuth(authToken);
      if delete.None? {
        return Some(Unauthorized(UnauthorizedText));
      }
      dataAccess.DeleteAuth(authToken);
      return None;
    }
  }
}
