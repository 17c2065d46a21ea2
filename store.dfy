/**
 * The in-memory data access layer: a game table keyed by game id, an auth-token table keyed by token
 * and a user table keyed by username, each a hash map updated in place.  MemoryGameDAO,
 * MemoryAuthDAO and MemoryUserDAO hold one table each; MemoryDataAccess holds all three.
 */
module Store {
  import opened Util
  import opened Game

  /** A login session: the token and the user it belongs to. */
  datatype AuthData = AuthData(authToken: string, username: JString)

  /** A registered user; any field may be null in a request. */
  datatype UserData = UserData(username: JString, password: JString, email: JString)

  /** A stored game: its id, the two players' usernames (null while a seat is free), its name and the game. */
  datatype GameData = GameData(gameID: int, whiteUsername: JString, blackUsername: JString, gameName: JString, game: ChessGame?)

  /** The id insertGame hands out: at least 1, not in use, and every smaller positive id in use. */
  ghost predicate SmallestFreeId(games: map<int, GameData>, id: int)
  {
    id >= 1 && id !in games && forall k | 1 <= k < id :: k in games
  }

  /** A table that holds every id from 1 to n holds at least n entries. */
  lemma {:induction false} RangeBound(keys: set<int>, n: int)
    requires forall k | 1 <= k <= n :: k in keys
    ensures n <= |keys|
  {
    if n >= 1 {
      RangeBound(keys - {n}, n - 1);
    }
  }

  /** The smallest free id is unique. */
  lemma SmallestFreeIdUnique(games: map<int, GameData>, a: int, b: int)
    requires SmallestFreeId(games, a) && SmallestFreeId(games, b)
    ensures a == b
  {
  }

  /** insertGame's search: count up from 1 while the id is taken. */
  method FreeId(games: map<int, GameData>) returns (id: int)
    ensures SmallestFreeId(games, id)
  {
    id := 1;
    while id in games
      invariant id >= 1 && forall k | 1 <= k < id :: k in games
      decreases |games.Keys| - id
    {
      RangeBound(games.Keys, id);
      id := id + 1;
    }
  }

  /** Every game is filed under its own id and holds a game: what insertGame and updateGame keep. */
  ghost predicate GamesFiled(games: map<int, GameData>)
  {
    forall id | id in games :: games[id].gameID == id && games[id].game != null
  }

  /** The stored records, the values of the game table. */
  function Records(games: map<int, GameData>): set<GameData>
  {
    set id | id in games :: games[id]
  }

  /** Every record findAllGames returns is the one filed under its id, and every filed record is returned. */
  lemma AllGamesFiled(games: map<int, GameData>)
    requires GamesFiled(games)
    ensures forall g :: g in Records(games) <==> g.gameID in games && games[g.gameID] == g
  {
    forall g | g in Records(games)
      ensures g.gameID in games && games[g.gameID] == g
    {
      var id :| id in games && games[id] == g;
    }
  }

  class MemoryGameDAO {
    var games: map<int, GameData>

    ghost predicate Valid()
      reads this
    {
      GamesFiled(games)
    }

    constructor ()
      ensures Valid() && games == map[]
    {
      games := map[];
    }

    method Clear()
      modifies this
      ensures Valid() && games == map[]
    {
      games := map[];
    }

    /** findGame: the record filed under the id, or null. */
    method FindGame(gameID: int) returns (game: Option<GameData>)
      requires Valid()
      ensures game.Some? <==> gameID in games
      ensures game.Some? ==> game.value == games[gameID] && game.value.gameID == gameID
    {
      if gameID in games {
        return Some(games[gameID]);
      }
      return None;
    }

    /** findAllGames: every stored record. */
    method FindAllGames() returns (all: set<GameData>)
      requires Valid()
      ensures forall g :: g in all <==> g.gameID in games && games[g.gameID] == g
    {
      all := Records(games);
      AllGamesFiled(games);
    }

    /**
     * insertGame: a record without a game is refused; otherwise it is stored, with its other fields
     * as given, under the smallest free id, and nothing already stored is overwritten.
     */
    method InsertGame(game: GameData) returns (r: Result<GameData, string>)
      requires Valid()
      modifies this
      ensures Valid()
      ensures game.game == null ==> r == Err("Game cannot be null") && games == old(games)
      ensures game.game != null ==>
        (r.Ok? && r.value == game.(gameID := r.value.gameID) &&
         SmallestFreeId(old(games), r.value.gameID) && games == old(games)[r.value.gameID := r.value])
    {
      if game.game == null {
        return Err("Game cannot be null");
      }
      var id := FreeId(games);
      var stored := game.(gameID := id);
      games := games[id := stored];
      return Ok(stored);
    }

    /** updateGame: refused for an id that is not stored or a record without a game; otherwise replaces that entry only. */
    method UpdateGame(game: GameData) returns (error: Option<string>)
      requires Valid()
      modifies this
      ensures Valid()
      ensures game.gameID !in old(games) ==> error == Some("Game does not exist") && games == old(games)
      ensures game.gameID in old(games) && game.game == null ==> error == Some("Game cannot be null") && games == old(games)
      ensures game.gameID in old(games) && game.game != null ==> error.None? && games == old(games)[game.gameID := game]
    {
      if game.gameID !in games {
        return Some("Game does not exist");
      }
      if game.game == null {
        return Some("Game cannot be null");
      }
      games := games[game.gameID := game];
      return None;
    }
  }

  class MemoryAuthDAO {
    var authTokens: map<string, AuthData>

    constructor ()
      ensures authTokens == map[]
    {
      authTokens := map[];
    }

    method Clear()
      modifies this
      ensures authTokens == map[]
    {
      authTokens := map[];
    }

    /** insertAuth: a token already stored is refused and the table kept; otherwise the record is filed under its token. */
    method InsertAuth(auth: AuthData) returns (error: Option<string>)
      modifies this
      ensures auth.authToken in old(authTokens) ==> error == Some("Authtoken already exists") && authTokens == old(authTokens)
      ensures auth.authToken !in old(authTokens) ==> error.None? && authTokens == old(authTokens)[auth.authToken := auth]
    {
      if auth.authToken in authTokens {
        return Some("Authtoken already exists");
      }
      authTokens := authTokens[auth.authToken := auth];
      return None;
    }

    /** findAuth: the record filed under the token, or null. */
    method FindAuth(authToken: string) returns (auth: Option<AuthData>)
      ensures auth.Some? <==> authToken in authTokens
      ensures auth.Some? ==> auth.value == authTokens[authToken]
    {
      if authToken in authTokens {
        return Some(authTokens[authToken]);
      }
      return None;
    }

    /** deleteAuth: removes the token if present; every other token stays. */
    method DeleteAuth(authToken: string)
      modifies this
      ensures authTokens == old(authTokens) - {authToken}
    {
      authTokens := authTokens - {authToken};
    }
  }

  /** A stored user with that username whose password equals the given one (both possibly null). */
  predicate PasswordMatches(users: map<JString, UserData>, user: UserData)
  {
    user.username in users && users[user.username].password == user.password
  }

  class MemoryUserDAO {
    var users: map<JString, UserData>

    constructor ()
      ensures users == map[]
    {
      users := map[];
    }

    method Clear()
      modifies this
      ensures users == map[]
    {
      users := map[];
    }

    /** insertUser: a username already stored is refused and the table kept; otherwise the user is filed under it. */
    method InsertUser(user: UserData) returns (error: Option<string>)
      modifies this
      ensures user.username in old(users) ==> error == Some("User already exists") && users == old(users)
      ensures user.username !in old(users) ==> error.None? && users == old(users)[user.username := user]
    {
      if user.username in users {
        return Some("User already exists");
      }
      users := users[user.username := user];
      return None;
    }

    /** usernameExists: a user is stored under the name. */
    method UsernameExists(username: JString) returns (known: bool)
      ensures known <==> username in users
    {
      return username in users;
    }

    /** verifyUser: a user is stored under the name and the passwords are equal. */
    method VerifyUser(user: UserData) returns (ok: bool)
      ensures ok <==> PasswordMatches(users, user)
    {
      if user.username !in users {
        return false;
      }
      var fromDatabase := users[user.username];
      return user.password == fromDatabase.password;
    }
  }

  /**
   * MemoryDataAccess: the three tables in one object.  In the source the tables are static, shared by
   * every instance; the model has one object that every service and the websocket handler use.
   */
  class MemoryDataAccess {
    var authTokens: map<string, AuthData>
    var games: map<int, GameData>
    var users: map<JString, UserData>

    ghost predicate Valid()
      reads this
    {
      GamesFiled(games)
    }

    constructor ()
      ensures Valid() && authTokens == map[] && games == map[] && users == map[]
    {
      authTokens, games, users := map[], map[], map[];
    }

    /** clearAll: empties all three tables. */
    method ClearAll()
      modifies this
      ensures Valid() && authTokens == map[] && games == map[] && users == map[]
    {
      authTokens, games, users := map[], map[], map[];
    }

    method InsertAuth(auth: AuthData) returns (error: Option<string>)
      requires Valid()
      modifies this
      ensures Valid() && games == old(games) && users == old(users)
      ensures auth.authToken in old(authTokens) ==> error == Some("Authtoken already exists") && authTokens == old(authTokens)
      ensures auth.authToken !in old(authTokens) ==> error.None? && authTokens == old(authTokens)[auth.authToken := auth]
    {
      if auth.authToken in authTokens {
        return Some("Authtoken already exists");
      }
      authTokens := authTokens[auth.authToken := auth];
      return None;
    }

    method FindAuth(authToken: string) returns (auth: Option<AuthData>)
      ensures auth.Some? <==> authToken in authTokens
      ensures auth.Some? ==> auth.value == authTokens[authToken]
    {
      if authToken in authTokens {
        return Some(authTokens[authToken]);
      }
      return None;
    }

    /** deleteAuth: removes the token if present, and is silent when it is not. */
    method DeleteAuth(authToken: string)
      requires Valid()
      modifies this
      ensures Valid() && games == old(games) && users == old(users)
      ensures authTokens == old(authTokens) - {authToken}
    {
      authTokens := authTokens - {authToken};
    }

    /** deleteGame: unlike deleteAuth, an id that is not stored is refused. */
    method DeleteGame(gameID: int) returns (error: Option<string>)
      requires Valid()
      modifies this
      ensures Valid() && authTokens == old(authTokens) && users == old(users)
      ensures gameID !in old(games) ==> error == Some("Game does not exist") && games == old(games)
      ensures gameID in old(games) ==> error.None? && games == old(games) - {gameID}
    {
      if gameID !in games {
        return Some("Game does not exist");
      }
      games := games - {gameID};
      return None;
    }

    method FindGame(gameID: int) returns (game: Option<GameData>)
      requires Valid()
      ensures game.Some? <==> gameID in games
      ensures game.Some? ==> game.value == games[gameID] && game.value.gameID == gameID && game.value.game != null
    {
      if gameID in games {
        return Some(games[gameID]);
      }
      return None;
    }

    method FindAllGames() returns (all: set<GameData>)
      requires Valid()
      ensures forall g :: g in all <==> g.gameID in games && games[g.gameID] == g
    {
      all := Records(games);
      AllGamesFiled(games);
    }

    method InsertGame(game: GameData) returns (r: Result<GameData, string>)
      requires Valid()
      modifies this
      ensures Valid() && authTokens == old(authTokens) && users == old(users)
      ensures game.game == null ==> r == Err("Game cannot be null") && games == old(games)
      ensures game.game != null ==>
        (r.Ok? && r.value == game.(gameID := r.value.gameID) &&
         SmallestFreeId(old(games), r.value.gameID) && games == old(games)[r.value.gameID := r.value])
    {
      if game.game == null {
        return Err("Game cannot be null");
      }
      var id := FreeId(games);
      var stored := game.(gameID := id);
      games := games[id := stored];
      return Ok(stored);
    }

    method UpdateGame(game: GameData) returns (error: Option<string>)
      requires Valid()
      modifies this
      ensures Valid() && authTokens == old(authTokens) && users == old(users)
      ensures game.gameID !in old(games) ==> error == Some("Game does not exist") && games == old(games)
      ensures game.gameID in old(games) && game.game == null ==> error == Some("Game cannot be null") && games == old(games)
      ensures game.gameID in old(games) && game.game != null ==> error.None? && games == old(games)[game.gameID := game]
    {
      if game.gameID !in games {
        return Some("Game does not exist");
      }
      if game.game == null {
        return Some("Game cannot be null");
      }
      games := games[game.gameID := game];
      return None;
    }

    method InsertUser(user: UserData) returns (error: Option<string>)
      requires Valid()
      modifies this
      ensures Valid() && authTokens == old(authTokens) && games == old(games)
      ensures user.username in old(users) ==> error == Some("User already exists") && users == old(users)
      ensures user.username !in old(users) ==> error.None? && users == old(users)[user.username := user]
    {
      if user.username in users {
        return Some("User already exists");
      }
      users := users[user.username := user];
      return None;
    }

    /**
     * findUser: the user stored under the name, or null.  The source's services call it, but the
     * data access interface it belongs to is not part of this model; this is the table lookup.
     */
    method FindUser(username: JString) returns (user: Option<UserData>)
      ensures user.Some? <==> username in users
      ensures user.Some? ==> user.value == users[username]
    {
      if username in users {
        return Some(users[username]);
      }
      return None;
    }

    method UsernameExists(username: JString) returns (known: bool)
      ensures known <==> username in users
    {
      return username in users;
    }

    method VerifyUser(user: UserData) returns (ok: bool)
      ensures ok <==> PasswordMatches(users, user)
    {
      if user.username !in users {
        return false;
      }
      var fromDatabase := users[user.username];
      return user.password == fromDatabase.password;
    }
  }
}
