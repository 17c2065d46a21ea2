# Winter 2024 Chess, modelled in Dafny

This project models the core of a two-player online chess system in Dafny. The pieces are:

- the chess rules engine: positions, pieces, the board, the move rulesets of every piece,
  castling, en passant, check, checkmate and stalemate, and `ChessGame`;
- the websocket messages exchanged with clients (`UserGameCommand`, `ServerMessage`);
- the server's in-memory storage (the three DAOs and `MemoryDataAccess`);
- the HTTP services (`GameService`, `UserService`);
- the websocket side (`ConnectionManager`, `WebSocketHandler`);
- three helpers of the console client: reading a square, reading the move command's arguments,
  and finding the squares that changed between two boards.

The model follows the structure of the Java code. Objects that the source updates in place are
Dafny classes whose methods state their whole new state:

- `Board` over a two-dimensional array;
- `CastlingRules` over an array of four rights;
- `EnPassantRules`, `ChessGame`;
- the DAOs and `MemoryDataAccess`, each a set of maps;
- the services, `ConnectionManager` and `WebSocketHandler`.

Each class method is proved against a function on values, and the properties that matter are
proved about those functions. Some examples:

- the board is specified by a `Grid` value;
- the game by a `GameState` value;
- the rule that a move must not leave the mover in check, and its consequences, by `Play`, `LegalMoves` and `InCheck`.

Loops of the source stay loops with their invariants. These include the line walk of
`lineMove`, the offset loops of the king and the knight, the pawn's promotion loop, the king scan
and attack scan of `isInCheck`, the scan of `noValidMovesExist`, the merging loop of the board's
`toString`, the id search of `insertGame`, the loop of `broadcast` and the client's
`determineDifferences`.

The modules, one file each, are layered as
`Util → Positions → Pieces → Boards → Rulesets → Check → Execution → Game → Messages → Store →
Services → Connections → Handler → ClientUi`.

Several behaviours of the code are modelled as the code runs, not as the rules of chess would
have them:

- **Castling.** `CastlingRules.performMove` moves whatever stands on the corner to the square
  the king crosses. `setBoard` keeps a right when any king stands on column 5 and any rook on the
  corner, whatever their colours (`CastlingFromBoardExact`).
- **En passant.** The move is offered to a pawn of either colour standing beside the target
  (`EnPassantMovesExact`).
- **Finding the king.** `isInCheck` breaks out of the column loop only, so a king in a later
  row overrides one found earlier (`KingScan`, `KingSquareExact`).
- **Pawns on their last row.** The pawn ruleset builds a position one row ahead without a
  check, which throws for a pawn standing on its last row. The model therefore requires such
  boards away (`PawnsInRange`) and proves that every move the game accepts keeps them away
  (`PlayWf`).
- **Failed promotions.** In `performMove`, a promotion whose start and end squares are the
  same empties the square and then reads the colour of the piece at the start square. That
  piece is gone, so the method ends in a NullPointerException rather than an
  InvalidMoveException. The model records this as a failure that leaves the square empty
  (`ChessGame.PerformMove`). `makeMove` never gets that far: it first checks the move against
  `validMoves`, and no candidate has the same start and end square.
- **Joining a game.** The websocket handler compares the stored player names with
  `Objects.equals`, so a user whose name is null matches a free seat (`Seated`).
- **Broadcasting.** `broadcast` looks a game's sessions up without a check. For a game that no
  session ever joined, it sends nothing and the handler goes no further (`Broadcast` returns
  `false`).

The websocket transport is a `Transport` object holding the open sessions and the log of every
delivered message. What a handler sends is specified as a sequence of `Step`s (one direct
message, or one message to a game's sessions except one). `Extends` ties the log before and after
a call to those steps. The handler's effect on one command is the predicate `CommandHandled`,
stated per command type, and `WebSocketHandler.Message` is proved to satisfy it.

## Model

Paths are relative to the repository root.

| member | source | states |
|---|---|---|
| Positions.MakePosition | shared/src/main/java/chess/ChessPosition.java:20-26 | a position exists exactly when row and column are both in 1..8 (the constructor throws otherwise), and it has those coordinates |
| Positions.HashInjective | shared/src/main/java/chess/ChessPosition.java:45-49 | the hash code 31·row + col is equal for two squares exactly when the squares are equal |
| Positions.ToText | shared/src/main/java/chess/ChessPosition.java:65-67 | the printed name is two characters: a column letter a–h, then a row digit 1–8 |
| Positions.ToTextInjective | shared/src/main/java/chess/ChessPosition.java:65-67 | different squares print differently |
| Pieces.Opposite | shared/src/main/java/chess/ChessGame.java:62-64 | the opposite colour differs from the colour |
| Pieces.OppositeInvolution | shared/src/main/java/chess/ChessGame.java:62-64 | taking the opposite colour twice gives the colour back |
| Pieces.Letter | shared/src/main/java/chess/ChessPiece.java:90-103 | white pieces print as upper-case letters and black pieces as lower-case ones |
| Pieces.LetterInjective | shared/src/main/java/chess/ChessPiece.java:90-103 | the letter determines colour and type |
| Boards.Put | shared/src/main/java/chess/ChessBoard.java:43-45 | placing a square's content sets that square and keeps every other one |
| Boards.StartGrid | shared/src/main/java/chess/ChessBoard.java:64-110 | every square of the starting grid holds what resetBoard puts there |
| Boards.StartPosition | shared/src/main/java/chess/ChessBoard.java:64-110 | rows 3–6 are empty; kings on e1 and e8; a full row of pawns on rows 2 and 7; rooks in the four corners |
| Boards.StartPieceCount | shared/src/main/java/chess/ChessBoard.java:64-110 | the starting position holds 32 pieces |
| Boards.MergeRuns | shared/src/main/java/chess/ChessBoard.java:131-141 | the loop that replaces two adjacent digits by their sum computes exactly the run-merge `Squash` of the raw text |
| Boards.TextRoundTrip | shared/src/main/java/chess/ChessBoard.java:113-144 | expanding each count of the text back into that many empty squares gives the raw row-by-row symbols |
| Boards.TextDeterminesBoard | shared/src/main/java/chess/ChessBoard.java:113-144 | two boards with the same text are the same board |
| Boards.TextMergesRuns | shared/src/main/java/chess/ChessBoard.java:113-144 | the merge is complete: no two digits are adjacent in the text |
| Boards.Board.constructor | shared/src/main/java/chess/ChessBoard.java:19-21 | a new board is empty |
| Boards.Board.Copy | shared/src/main/java/chess/ChessBoard.java:29-34 | the copy holds the same pieces in fresh storage |
| Boards.Board.GetPiece | shared/src/main/java/chess/ChessBoard.java:55-57 | returns the content of the square |
| Boards.Board.AddPiece | shared/src/main/java/chess/ChessBoard.java:43-45 | the board becomes the old board with that one square replaced |
| Boards.Board.ResetBoard | shared/src/main/java/chess/ChessBoard.java:64-110 | the board becomes the starting grid, whatever it held before |
| Boards.Board.ToString | shared/src/main/java/chess/ChessBoard.java:113-144 | the text is `BoardText` of the contents, which the lemmas above show is invertible and fully merged |
| Boards.Board.Equals | shared/src/main/java/chess/ChessBoard.java:148-154 | true exactly when the two boards hold the same content on every square |
| Rulesets.RayExact | shared/src/main/java/chess/ruleset/LineMoveRuleset.java:13-40 | a move lies on a line exactly when it is a step on the board, every earlier step of the line is empty, it does not land on a friendly piece, and it has no promotion |
| Rulesets.LineMove | shared/src/main/java/chess/ruleset/LineMoveRuleset.java:13-40 | the walk along a line yields exactly that line's moves (`Ray`) |
| Rulesets.RookMovesShape | shared/src/main/java/chess/ruleset/RookRuleset.java:14-23 | rook moves are the moves of the four orthogonal lines; each stays on the row or column, leaves the square and does not land on a friendly piece |
| Rulesets.RookRulesetMoves | shared/src/main/java/chess/ruleset/RookRuleset.java:14-23 | the ruleset returns exactly the rook's moves |
| Rulesets.BishopMovesShape | shared/src/main/java/chess/ruleset/piece/BishopRuleset.java:13-23 | bishop moves are the moves of the four diagonals; each stays on a diagonal and does not land on a friendly piece |
| Rulesets.RaysDisjoint | shared/src/main/java/chess/ruleset/piece/BishopRuleset.java:13-23 | two different lines never share a move, so the bishop's list holds no move twice |
| Rulesets.BishopRulesetMoves | shared/src/main/java/chess/ruleset/piece/BishopRuleset.java:13-23 | the ruleset returns exactly the bishop's moves |
| Rulesets.QueenMovesShape | shared/src/main/java/chess/ruleset/QueenRuleset.java:15-20 | a queen move is a move along one of the eight lines |
| Rulesets.QueenRulesetMoves | shared/src/main/java/chess/ruleset/piece/QueenRuleset.java:15-20 | the ruleset (bishop's moves then rook's) returns exactly the queen's moves |
| Rulesets.TargetsFilterReach | shared/src/main/java/chess/ruleset/piece/KnightRuleset.java:34-40 | removing the moves that land on a friendly piece from the reachable squares leaves exactly the open targets |
| Rulesets.TargetsSize | shared/src/main/java/chess/ruleset/piece/KnightRuleset.java:16-43 | an offset ruleset yields at most one move per offset |
| Rulesets.KingMovesExact | shared/src/main/java/chess/ruleset/KingRuleset.java:14-32 | a king move goes at most one row and one column onto an empty or enemy square, never stays put, and has no promotion |
| Rulesets.KingRulesetMoves | shared/src/main/java/chess/ruleset/KingRuleset.java:14-32 | the two nested offset loops return exactly the king's moves |
| Rulesets.KingMovesAtMost8 | shared/src/main/java/chess/ruleset/KingRuleset.java:17-29 | the king has at most eight moves, because the loops' (0, 0) offset never yields a move |
| Rulesets.KnightMovesAtMost8 | shared/src/main/java/chess/ruleset/piece/KnightRuleset.java:16-43 | the knight has at most eight moves, one per offset |
| Rulesets.KnightMovesExact | shared/src/main/java/chess/ruleset/piece/KnightRuleset.java:16-43 | a knight move goes two squares one way and one the other onto an empty or enemy square |
| Rulesets.KnightReach | shared/src/main/java/chess/ruleset/piece/KnightRuleset.java:19-32 | the first pass collects every on-board knight offset, whatever stands there |
| Rulesets.KnightRulesetMoves | shared/src/main/java/chess/ruleset/piece/KnightRuleset.java:16-43 | the first pass followed by the removal pass returns exactly the knight's moves |
| Rulesets.Forward | shared/src/main/java/chess/ruleset/piece/PawnRuleset.java:16-17 | a pawn moves one row up or one row down |
| Rulesets.PawnAdvancesExact | shared/src/main/java/chess/ruleset/piece/PawnRuleset.java:19-49 | before promotion, the pawn's moves are exactly the single push onto an empty square, the double push from the start row over an empty square, and the diagonal capture of an enemy |
| Rulesets.PromotionsExact | shared/src/main/java/chess/ruleset/piece/PawnRuleset.java:52-66 | the promoted moves are exactly the four promotions (queen, rook, bishop, knight) of a move in the set |
| Rulesets.PawnMovesExact | shared/src/main/java/chess/ruleset/piece/PawnRuleset.java:12-69 | a pawn move is a pawn step, with a promotion exactly when the row ahead is row 1 or row 8 |
| Rulesets.PromoteMoves | shared/src/main/java/chess/ruleset/piece/PawnRuleset.java:52-66 | the promotion loop replaces every move by its four promotions |
| Rulesets.PawnRulesetMoves | shared/src/main/java/chess/ruleset/piece/PawnRuleset.java:12-69 | the ruleset returns exactly the pawn's moves |
| Rulesets.PieceMovesSound | shared/src/main/java/chess/ChessPiece.java:57-66 | every piece move starts on the square, leaves it, and does not land on a friendly piece; only a pawn promotes, only on row 1 or 8, and to one of the four kinds; a king moves one square |
| Rulesets.PieceRulesetMoves | shared/src/main/java/chess/ChessPiece.java:57-66 | the dispatch on the piece type returns exactly that piece's moves |
| Check.FirstKingCol | shared/src/main/java/chess/ChessGame.java:148-156 | the column the scan stops at holds a king of the colour with none before it in the row; no column means no such king from there on |
| Check.KingSquareExact | shared/src/main/java/chess/ChessGame.java:147-158 | the king square holds a king of the colour; there is none exactly when the colour has no king; with a single king, it is that king's square |
| Check.FindKing | shared/src/main/java/chess/ChessGame.java:147-158 | the king scan returns `KingSquare` of the board |
| Check.CheckWitness | shared/src/main/java/chess/ChessGame.java:162-174 | an enemy piece with a move onto the king square puts the colour in check |
| Check.NoAttackNoCheck | shared/src/main/java/chess/ChessGame.java:162-174 | when no enemy piece attacks the king square, the colour is not in check |
| Check.IsInCheck | shared/src/main/java/chess/ChessGame.java:146-175 | the result is `InCheck`: the colour has a king square and an enemy piece has a move onto it |
| Execution.CastlingPerformPlaces | shared/src/main/java/chess/ruleset/extra/CastlingRules.java:106-124 | a castling puts the king on the end square and the corner's content on the crossed square, empties the start and the corner, and keeps every other square |
| Execution.EnPassantPerformPlaces | shared/src/main/java/chess/ruleset/extra/EnPassantRules.java:61-74 | a successful capture moves the pawn, empties the start and the target, and keeps every other square |
| Execution.PerformLanding | shared/src/main/java/chess/ChessGame.java:238-267 | after a successful move, the end square holds the mover (or its promotion) in the mover's colour, a pawn only if a pawn moved, and the start square is empty |
| Execution.PieceMoveSafe | shared/src/main/java/chess/ChessGame.java:93-102 | a piece's own move leaves a board on which isInCheck can run (no pawn on its last row) |
| Execution.CandidatesSafe | shared/src/main/java/chess/ChessGame.java:75-90 | every candidate move validMoves tries (piece, castling and en passant moves) can be checked by isMoveInvalid |
| Execution.CastlingMovesShape | shared/src/main/java/chess/ruleset/extra/CastlingRules.java:80-103 | a castling move is offered only to a king on column 5 of its home row that holds the right, is not in check, has an empty path, and whose one-column step and two-column move do not leave it in check |
| Execution.EnPassantMovesExact | shared/src/main/java/chess/ruleset/extra/EnPassantRules.java:39-58 | at most one en passant move exists; it belongs exactly to a pawn beside the target on its row and lands one row forward in the target's column |
| Execution.EnPassantMoveSafe | shared/src/main/java/chess/ruleset/extra/EnPassantRules.java:39-58 | an en passant move leaves a board on which isInCheck can run |
| Execution.LegalMovesSound | shared/src/main/java/chess/ChessGame.java:75-90 | validMoves is null exactly for an empty square; a move it returns starts there, succeeds, and leaves the mover out of check |
| Execution.CastlingAfter | shared/src/main/java/chess/ruleset/extra/CastlingRules.java:49-69 | there are always four rights after a move |
| Execution.CastlingAfterRights | shared/src/main/java/chess/ruleset/extra/CastlingRules.java:49-69 | no right is ever restored; a king's move clears exactly its colour's two rights; a rook's move clears exactly the right of the corner it left; any other move keeps them all |
| Execution.CastlingFromBoard | shared/src/main/java/chess/ruleset/extra/CastlingRules.java:22-46 | setBoard yields four rights |
| Execution.CastlingFromBoardExact | shared/src/main/java/chess/ruleset/extra/CastlingRules.java:22-46 | a right is held exactly when some king stands on column 5 of the corner's row and some rook on the corner |
| Execution.NewGameWf | shared/src/main/java/chess/ChessGame.java:28-34 | a new game is well formed |
| Execution.PlayAccepted | shared/src/main/java/chess/ChessGame.java:111-132 | an accepted move starts on a piece of the side to move and is one of validMoves; the board becomes the performed move, the mover is not in check, the turn passes |
| Execution.PlayWf | shared/src/main/java/chess/ChessGame.java:111-132 | an accepted move keeps the game well formed (four rights, no pawn on its last row, a target on row 4 or 5) |
| Execution.GameOverBlocksMoves | shared/src/main/java/chess/ChessGame.java:184-198 | checkmate and stalemate exclude each other, and either leaves the side to move no acceptable move |
| Game.EnPassantRules.constructor | shared/src/main/java/chess/ruleset/extra/EnPassantRules.java:11 | a new rule has no target |
| Game.EnPassantRules.SetBoard | shared/src/main/java/chess/ruleset/extra/EnPassantRules.java:15-17 | a new board clears the target |
| Game.EnPassantRules.MoveMade | shared/src/main/java/chess/ruleset/extra/EnPassantRules.java:20-26 | the target becomes the end square exactly when a pawn moved two rows, else none |
| Game.EnPassantRules.MoveMatches | shared/src/main/java/chess/ruleset/extra/EnPassantRules.java:30-35 | true exactly for a pawn changing column onto an empty square |
| Game.EnPassantRules.ValidMoves | shared/src/main/java/chess/ruleset/extra/EnPassantRules.java:39-58 | returns `EnPassantMoves` of the board, square and target |
| Game.EnPassantRules.PerformMove | shared/src/main/java/chess/ruleset/extra/EnPassantRules.java:61-74 | on refusal the board is untouched; otherwise it becomes `EnPassantPerform` of the old board |
| Game.EnPassantRules.Equals | shared/src/main/java/chess/ruleset/extra/EnPassantRules.java:78-85 | true exactly when the targets are equal |
| Game.CastlingRules.constructor | shared/src/main/java/chess/ruleset/extra/CastlingRules.java:15-19 | all four rights start out held |
| Game.CastlingRules.SetBoard | shared/src/main/java/chess/ruleset/extra/CastlingRules.java:22-46 | the rights become `CastlingFromBoard` of the board |
| Game.CastlingRules.MoveMade | shared/src/main/java/chess/ruleset/extra/CastlingRules.java:49-69 | the rights become `CastlingAfter` of the old rights |
| Game.CastlingRules.MoveMatches | shared/src/main/java/chess/ruleset/extra/CastlingRules.java:73-77 | true exactly for a king moving two columns |
| Game.CastlingRules.ValidMoves | shared/src/main/java/chess/ruleset/extra/CastlingRules.java:80-103 | returns `CastlingMoves` of the board, square, rights and the game's en passant target |
| Game.CastlingRules.PerformMove | shared/src/main/java/chess/ruleset/extra/CastlingRules.java:106-124 | on refusal the board is untouched; otherwise it becomes `CastlingPerform` of the old board |
| Game.CastlingRules.PathIsClear | shared/src/main/java/chess/ruleset/extra/CastlingRules.java:133-135 | the walk towards the rook reports exactly whether the squares between king and rook are empty |
| Game.CastlingRules.SingleCastlingMove | shared/src/main/java/chess/ruleset/extra/CastlingRules.java:127-143 | returns `SingleCastling`: none in check, with a blocked path, or when the step or the move is invalid |
| Game.CastlingRules.Equals | shared/src/main/java/chess/ruleset/extra/CastlingRules.java:153-160 | true exactly when the four rights agree |
| Game.ChessGame.constructor | shared/src/main/java/chess/ChessGame.java:28-34 | a new game is `NewGame`: the starting grid, white to move, active, every right held, no target |
| Game.ChessGame.ValidMoves | shared/src/main/java/chess/ChessGame.java:75-90 | returns `LegalMoves` of the game, which `LegalMovesSound` characterises |
| Game.ChessGame.IsMoveInvalid | shared/src/main/java/chess/ChessGame.java:93-102 | true exactly when performing the move on a copy fails or leaves the mover in check |
| Game.ChessGame.PerformMove | shared/src/main/java/chess/ChessGame.java:238-267 | succeeds exactly when `Perform` does, and then the board is its result; on failure the board is unchanged, except that a promotion onto its own start square has already emptied it |
| Game.ChessGame.MakeMove | shared/src/main/java/chess/ChessGame.java:111-132 | an accepted move turns the state into `Play` of the old state; a refused one reports `Play`'s error and changes nothing |
| Game.ChessGame.IsInCheck | shared/src/main/java/chess/ChessGame.java:141-143 | returns `InCheck` of the board for the colour |
| Game.ChessGame.IsInCheckmate | shared/src/main/java/chess/ChessGame.java:184-186 | returns `Checkmate`: in check with no valid move |
| Game.ChessGame.IsInStalemate | shared/src/main/java/chess/ChessGame.java:196-198 | returns `Stalemate`: not in check, with no valid move |
| Game.ChessGame.NoValidMovesExist | shared/src/main/java/chess/ChessGame.java:201-212 | the scan reports exactly whether no piece of the colour has a valid move |
| Game.ChessGame.SetBoard | shared/src/main/java/chess/ChessGame.java:220-225 | the game plays on the given board, with rights read off it and no target; turn and activity kept |
| Game.ChessGame.SetActive | shared/src/main/java/chess/ChessGame.java:275-277 | only the activity flag changes |
| Game.ChessGame.Equals | shared/src/main/java/chess/ChessGame.java:287-295 | true exactly when the boards hold the same pieces and the side to move agrees |
| Messages.NewCommand | shared/src/main/java/webSocketMessages/userCommands/UserGameCommand.java:16-20 | the command has the given type, token and id, with no colour and no move |
| Messages.MoveCommand | shared/src/main/java/webSocketMessages/userCommands/UserGameCommand.java:22-25 | a MAKE_MOVE command carrying the move and no colour |
| Messages.ColorCommandAsWritten | shared/src/main/java/webSocketMessages/userCommands/UserGameCommand.java:27-30 | the colour constructor as written builds a MAKE_MOVE command with a colour and no move |
| Messages.ColorCommand | shared/src/main/java/webSocketMessages/userCommands/UserGameCommand.java:27-30 | the corrected colour constructor builds a JOIN_PLAYER command with the colour and no move |
| Messages.ColorCommandAsWrittenIsMove | shared/src/main/java/webSocketMessages/userCommands/UserGameCommand.java:27-30 | to equals, the as-written colour command is the same as any move command with its token and differs from the corrected one |
| Messages.CommandEqualsEquivalence | shared/src/main/java/webSocketMessages/userCommands/UserGameCommand.java:72-79 | command equality is reflexive, symmetric and transitive, and ignores id, colour and move |
| Messages.Wrap32 | shared/src/main/java/webSocketMessages/userCommands/UserGameCommand.java:82-84 | Java int arithmetic: the result is in the 32-bit range and congruent to the input modulo 2^32 |
| Messages.CommandHashConsistent | shared/src/main/java/webSocketMessages/userCommands/UserGameCommand.java:82-84 | equal commands have equal hash codes |
| Messages.TextMessage | shared/src/main/java/webSocketMessages/serverMessages/ServerMessage.java:25-32 | refused exactly for LOAD_GAME; ERROR sets only the error text, NOTIFICATION only the message text |
| Messages.GameMessage | shared/src/main/java/webSocketMessages/serverMessages/ServerMessage.java:34-37 | a LOAD_GAME message carrying the game and no text |
| Messages.ErrorMessage | shared/src/main/java/webSocketMessages/serverMessages/ServerMessage.java:25-32 | the ERROR message the text constructor builds |
| Messages.Notice | shared/src/main/java/webSocketMessages/serverMessages/ServerMessage.java:25-32 | the NOTIFICATION message the text constructor builds |
| Messages.MessageEqualsByType | shared/src/main/java/webSocketMessages/serverMessages/ServerMessage.java:60-72 | messages are equal exactly when their types are, so all errors are equal to each other and never to a notification; equal messages hash alike |
| Store.FreeId | server/src/main/java/dataAccess/MemoryDataAccess.java:65-72 | the search returns the smallest positive id not in use |
| Store.SmallestFreeIdUnique | server/src/main/java/dataAccess/MemoryDataAccess.java:65-72 | the smallest free id is unique |
| Store.AllGamesFiled | server/src/main/java/dataAccess/MemoryDataAccess.java:59-61 | a record is among the stored values exactly when it is the one filed under its own id |
| Store.MemoryGameDAO.constructor | server/src/main/java/dataAccess/memory/MemoryGameDAO.java:16-18 | a new table is empty |
| Store.MemoryGameDAO.Clear | server/src/main/java/dataAccess/memory/MemoryGameDAO.java:16-18 | the table becomes empty |
| Store.MemoryGameDAO.FindGame | server/src/main/java/dataAccess/memory/MemoryGameDAO.java:21-23 | the record filed under the id, or none exactly when there is none |
| Store.MemoryGameDAO.FindAllGames | server/src/main/java/dataAccess/memory/MemoryGameDAO.java:26-28 | exactly the stored records |
| Store.MemoryGameDAO.InsertGame | server/src/main/java/dataAccess/memory/MemoryGameDAO.java:31-38 | a record without a game is refused; otherwise it is stored under the smallest free id and nothing else changes |
| Store.MemoryGameDAO.UpdateGame | server/src/main/java/dataAccess/memory/MemoryGameDAO.java:41-46 | an unknown id or a record without a game is refused; otherwise exactly that entry is replaced |
| Store.MemoryAuthDAO.constructor | server/src/main/java/dataAccess/memory/MemoryAuthDAO.java:13-15 | a new table is empty |
| Store.MemoryAuthDAO.Clear | server/src/main/java/dataAccess/memory/MemoryAuthDAO.java:13-15 | the table becomes empty |
| Store.MemoryAuthDAO.InsertAuth | server/src/main/java/dataAccess/memory/MemoryAuthDAO.java:18-21 | a known token is refused and the table kept; otherwise the record is filed under its token |
| Store.MemoryAuthDAO.FindAuth | server/src/main/java/dataAccess/memory/MemoryAuthDAO.java:24-26 | the record filed under the token, or none exactly when there is none |
| Store.MemoryAuthDAO.DeleteAuth | server/src/main/java/dataAccess/memory/MemoryAuthDAO.java:29-31 | exactly that token is removed |
| Store.MemoryUserDAO.constructor | server/src/main/java/dataAccess/memory/MemoryUserDAO.java:15-17 | a new table is empty |
| Store.MemoryUserDAO.Clear | server/src/main/java/dataAccess/memory/MemoryUserDAO.java:15-17 | the table becomes empty |
| Store.MemoryUserDAO.InsertUser | server/src/main/java/dataAccess/memory/MemoryUserDAO.java:20-23 | a known username is refused and the table kept; otherwise the user is filed under it |
| Store.MemoryUserDAO.UsernameExists | server/src/main/java/dataAccess/memory/MemoryUserDAO.java:26-28 | true exactly when a user is stored under the name |
| Store.MemoryUserDAO.VerifyUser | server/src/main/java/dataAccess/memory/MemoryUserDAO.java:31-34 | true exactly when a user is stored under the name with an equal password |
| Store.MemoryDataAccess.constructor | server/src/main/java/dataAccess/MemoryDataAccess.java:11-15 | the three tables start empty |
| Store.MemoryDataAccess.ClearAll | server/src/main/java/dataAccess/MemoryDataAccess.java:19-23 | all three tables become empty |
| Store.MemoryDataAccess.InsertAuth | server/src/main/java/dataAccess/MemoryDataAccess.java:27-30 | a known token is refused; otherwise the record is filed; the other tables are kept |
| Store.MemoryDataAccess.FindAuth | server/src/main/java/dataAccess/MemoryDataAccess.java:34-36 | the record filed under the token, or none exactly when there is none |
| Store.MemoryDataAccess.DeleteAuth | server/src/main/java/dataAccess/MemoryDataAccess.java:40-42 | exactly that token is removed; the other tables are kept |
| Store.MemoryDataAccess.DeleteGame | server/src/main/java/dataAccess/MemoryDataAccess.java:46-49 | an unknown id is refused; otherwise exactly that game is removed |
| Store.MemoryDataAccess.FindGame | server/src/main/java/dataAccess/MemoryDataAccess.java:53-55 | the record filed under the id (which holds a game), or none exactly when there is none |
| Store.MemoryDataAccess.FindAllGames | server/src/main/java/dataAccess/MemoryDataAccess.java:59-61 | exactly the stored records |
| Store.MemoryDataAccess.InsertGame | server/src/main/java/dataAccess/MemoryDataAccess.java:65-72 | a record without a game is refused; otherwise it is stored under the smallest free id; nothing else changes |
| Store.MemoryDataAccess.UpdateGame | server/src/main/java/dataAccess/MemoryDataAccess.java:76-81 | an unknown id or a record without a game is refused; otherwise exactly that entry is replaced |
| Store.MemoryDataAccess.InsertUser | server/src/main/java/dataAccess/MemoryDataAccess.java:85-88 | a known username is refused; otherwise the user is filed; the other tables are kept |
| Store.MemoryDataAccess.FindUser | server/src/main/java/service/UserService.java:43 | the user stored under the name, or none exactly when there is none |
| Store.MemoryDataAccess.UsernameExists | server/src/main/java/dataAccess/MemoryDataAccess.java:92-94 | true exactly when a user is stored under the name |
| Store.MemoryDataAccess.VerifyUser | server/src/main/java/dataAccess/MemoryDataAccess.java:98-101 | true exactly when a user is stored under the name with an equal password |
| Services.Seat | server/src/main/java/service/GameService.java:48-71 | taking a seat sets exactly that colour's player name and keeps id, name and game |
| Services.SeatKeepsOthers | server/src/main/java/service/GameService.java:48-71 | the joined seat is held afterwards, the other seat keeps its holder, and joining without a colour changes nothing |
| Services.GameService.constructor | server/src/main/java/service/GameService.java:17-19 | the service uses the given store |
| Services.GameService.Authorization | server/src/main/java/service/GameService.java:73-81 | the token's record exactly when the token is stored, otherwise Unauthorized |
| Services.GameService.CreateGame | server/src/main/java/service/GameService.java:21-34 | an unknown token is refused first, then a null name; otherwise a fresh new game with both seats free is stored under the smallest free id |
| Services.GameService.ListGames | server/src/main/java/service/GameService.java:37-45 | every stored game for a known token; Unauthorized otherwise |
| Services.GameService.JoinGame | server/src/main/java/service/GameService.java:48-71 | an unknown game is refused first, then an unknown token, then a taken seat; otherwise the user's name takes the seat and nothing else changes |
| Services.UserService.constructor | server/src/main/java/service/UserService.java:13-15 | the service uses the given store |
| Services.UserService.Register | server/src/main/java/service/UserService.java:18-38 | a request missing a field is refused, then a taken name; otherwise the user is stored and then a session under the given token, which the store refuses if the token is in use |
| Services.UserService.Login | server/src/main/java/service/UserService.java:41-55 | an unknown user or a differing password is refused, a missing password fails on the null; otherwise a session under the given token |
| Services.UserService.Logout | server/src/main/java/service/UserService.java:58-66 | an unknown token is refused; otherwise exactly that token is removed |
| Connections.WithSession | server/src/main/java/websocket/ConnectionManager.java:15-18 | the game's set gains the session (created if absent) and every other game keeps its set |
| Connections.WithoutSession | server/src/main/java/websocket/ConnectionManager.java:20-22 | the session leaves the game's set; an unknown game and every other game are unchanged |
| Connections.AddRemoveLaws | server/src/main/java/websocket/ConnectionManager.java:15-22 | adding twice is adding once, removing twice is removing once, and removing a session just added restores the registry |
| Connections.Targets | server/src/main/java/websocket/ConnectionManager.java:24-28 | a broadcast reaches exactly the open sessions of the game other than the excluded one |
| Connections.TargetsExclude | server/src/main/java/websocket/ConnectionManager.java:24-28 | excluding a session removes exactly that session from the audience |
| Connections.Sent | server/src/main/java/websocket/ConnectionManager.java:37-41 | sendMessage delivers at most one message, and nothing exactly when the connection is closed |
| Connections.ExtendsTrans | server/src/main/java/websocket/ConnectionManager.java:24-41 | two rounds of sending are the concatenation of their steps |
| Connections.FollowsLength | server/src/main/java/websocket/ConnectionManager.java:24-41 | a log that follows no steps is empty; a direct step sends what `Sent` says; a broadcast step sends the message exactly to its targets |
| Connections.ConnectionManager.constructor | server/src/main/java/websocket/ConnectionManager.java:12 | no session follows any game |
| Connections.ConnectionManager.AddSession | server/src/main/java/websocket/ConnectionManager.java:15-18 | the registry becomes `WithSession` of the old one |
| Connections.ConnectionManager.RemoveSession | server/src/main/java/websocket/ConnectionManager.java:20-22 | the registry becomes `WithoutSession` of the old one |
| Connections.ConnectionManager.SendMessage | server/src/main/java/websocket/ConnectionManager.java:37-41 | the log grows by `Sent` of the message: delivered only when the session is open |
| Connections.ConnectionManager.SendError | server/src/main/java/websocket/ConnectionManager.java:31-34 | the log grows by the ERROR message with the text, if the session is open |
| Connections.ConnectionManager.Broadcast | server/src/main/java/websocket/ConnectionManager.java:24-28 | for a registered game, the log grows by one delivery per target; for an unregistered one nothing is sent and the call fails |
| Connections.ConnectionManager.Clear | server/src/main/java/websocket/ConnectionManager.java:43-45 | no session follows any game |
| Handler.Concluded | server/src/main/java/websocket/WebSocketHandler.java:182-191 | ending the game on checkmate or stalemate keeps it well formed |
| Handler.Settled | server/src/main/java/websocket/WebSocketHandler.java:174-191 | the game after an accepted move and its ending is well formed |
| Handler.SettledGame | server/src/main/java/websocket/WebSocketHandler.java:174-191 | after a move, the board, rights and target are the move's and the turn passes; a game left active has a legal move for the side to move; a game ended refuses every further move |
| Handler.NoMoveOnlyErrors | server/src/main/java/websocket/WebSocketHandler.java:155-175 | a move command without a move leaves the game unchanged and only ever sends errors to the sender |
| Handler.SeatedJoinLoads | server/src/main/java/websocket/WebSocketHandler.java:114-140 | the holder of the requested seat ends up following the game and, if connected, is sent the game first |
| Handler.ColorJoinAsWrittenNeverJoins | server/src/main/java/websocket/WebSocketHandler.java:89-95 | a join built by the colour constructor as written never registers the session, never changes the game, and only ever sends errors |
| Handler.ColorJoinSeats | server/src/main/java/websocket/WebSocketHandler.java:114-140 | a join built by the corrected constructor registers the seat holder and sends the game first |
| Handler.WebSocketHandler.constructor | server/src/main/java/websocket/WebSocketHandler.java:28-36 | a fresh connection manager over the transport with no sessions, and the given store |
| Handler.WebSocketHandler.Message | server/src/main/java/websocket/WebSocketHandler.java:58-96 | an unknown token, then an unknown game, is answered with its error and changes nothing; otherwise `CommandHandled` holds for the command; the stored tables are unchanged |
| Handler.WebSocketHandler.Dispatch | server/src/main/java/websocket/WebSocketHandler.java:89-95 | the switch on the command type satisfies `CommandHandled` |
| Handler.WebSocketHandler.JoinObserver | server/src/main/java/websocket/WebSocketHandler.java:99-111 | the session follows the game, gets the game, and the others are told it is watching |
| Handler.WebSocketHandler.JoinPlayer | server/src/main/java/websocket/WebSocketHandler.java:114-140 | only the holder of the requested seat is admitted, as `Joined` with the join notice; anyone else gets an error and the registry is unchanged |
| Handler.WebSocketHandler.Admit | server/src/main/java/websocket/WebSocketHandler.java:128-139 | the game goes to the session, then the notice to the game's other sessions |
| Handler.WebSocketHandler.Leave | server/src/main/java/websocket/WebSocketHandler.java:143-152 | the session stops following the game and the others are told it left |
| Handler.WebSocketHandler.MakeMove | server/src/main/java/websocket/WebSocketHandler.java:155-209 | refusals in the source's order (no seat, game over, not your turn) leave the game unchanged; otherwise `MovePlayed` |
| Handler.WebSocketHandler.PlayMove | server/src/main/java/websocket/WebSocketHandler.java:174-208 | a refused move is reported; an accepted one turns the game into `Settled` and broadcasts the game and the move notice with its ending |
| Handler.WebSocketHandler.Publish | server/src/main/java/websocket/WebSocketHandler.java:193-208 | the store keeps the changed game; the game goes to every session and the notice to all but the mover |
| Handler.WebSocketHandler.EndGame | server/src/main/java/websocket/WebSocketHandler.java:182-191 | the game becomes `Concluded` and the ending text says checkmate, stalemate, check or nothing |
| Handler.WebSocketHandler.Announce | server/src/main/java/websocket/WebSocketHandler.java:200-208 | the game goes to every session of the game, then the notice to all but the mover |
| Handler.WebSocketHandler.Resign | server/src/main/java/websocket/WebSocketHandler.java:212-248 | a finished game is refused first, then a user without a seat; otherwise the game ends, the others are told who won, and the user is told last |
| Handler.WebSocketHandler.Clear | server/src/main/java/websocket/WebSocketHandler.java:250-252 | no session follows any game |
| ClientUi.ParsePosition | client/src/main/java/ui/GameUserInterface.java:103-112 | null unless two characters with a digit second; with a digit it throws exactly when off the board; a found square prints back as the text |
| ClientUi.ParsePrinted | client/src/main/java/ui/GameUserInterface.java:103-112 | reading a square's printed name gives the square |
| ClientUi.PromotionFor | client/src/main/java/ui/GameUserInterface.java:73-91 | q, r, b and n choose the matching piece; k and p are refused; anything else does not parse |
| ClientUi.PromotionLetters | client/src/main/java/ui/GameUserInterface.java:73-91 | each piece a pawn may become is chosen by its own letter |
| ClientUi.Squares | client/src/main/java/ui/GameUserInterface.java:68-71 | a move it sends has exactly the typed squares and the promotion |
| ClientUi.MoveArgsAsWritten | client/src/main/java/ui/GameUserInterface.java:64-101 | any count but two is refused with the usage text, so no sent move carries a promotion |
| ClientUi.MoveArgs | client/src/main/java/ui/GameUserInterface.java:64-101 | fewer than two or more than three arguments are refused; with two it agrees with the code as written |
| ClientUi.AsWrittenPlainMoves | client/src/main/java/ui/GameUserInterface.java:64-101 | the code as written sends every move without a promotion from its typed words |
| ClientUi.AsWrittenRefusesPromotion | client/src/main/java/ui/GameUserInterface.java:65-66 | the code as written answers every promoting move with the usage text, where the corrected version sends it |
| ClientUi.MoveArgsRoundTrip | client/src/main/java/ui/GameUserInterface.java:64-101 | the corrected command sends exactly the move typed: a move's words give the move, and a sent move's words are the arguments |
| ClientUi.Differences | client/src/main/java/ui/GameUserInterface.java:176-190 | a square is in the set exactly when the two boards differ there |
| ClientUi.DifferencesLaws | client/src/main/java/ui/GameUserInterface.java:176-190 | the difference is symmetric, empty exactly for equal boards, and placing one square changes at most that square |
| ClientUi.DetermineDifferences | client/src/main/java/ui/GameUserInterface.java:176-190 | the two nested loops return exactly `Differences` of the two boards |

## Left out

- JSON (Gson) serialization is left out. A LOAD_GAME message holds a reference to the game, not a snapshot of it.
- The websocket library, `Session.getRemote`, `IOException`s and logging are left out. The transport is the open set and the delivery log, and opening and closing connections is outside the model.
- Concurrency is left out. The source's maps and the websocket callbacks are modelled as sequential calls.
- The MySQL data access classes are left out, because only the in-memory store is modelled.
- The handler's `DataAccessException` catch and "Unknown server error" paths are left out. They cannot occur with the in-memory store, and the model shows the update cannot fail there.
- The handler's `error` callback, `getInstance` and `setDataAccess` are left out. The handler takes its store in its constructor.
- The source's store tables are static, shared by every `MemoryDataAccess` instance. The model uses one shared object instead.
- The delegating `MemoryDataAccess` over the three DAO classes is left out, because the model follows the static-map version.
- GameData, AuthData, UserData and ChessMove are not part of this model. They are taken as records with the fields the code uses.
- `MoveText`: the notification prints a move as its two square names, since `ChessMove.toString` is not part of this model.
- `UserService` generates tokens with `UUID`. The model takes the fresh token as a parameter.
- Enum identity hash codes are a parameter of the hash functions.
- `hashCode` and `toString` of ChessGame, CastlingRules and EnPassantRules are left out, and so are plain getters and setters (`getTeamTurn`, `setTeamTurn`, `getBoard`, `isActive`). `ChessPiece.hashCode` is left out too: it only combines the two enum hash codes, which are parameters elsewhere in the model.
- The client's rendering, highlighting, menu and other console commands are left out, and so are WebSocketClient, DataCache and ServerFacade.
- ClientUi.ParsePosition: only ASCII digits are read as a row, while `Integer.parseInt` also accepts other Unicode digits. Java's UTF-16 string lengths are taken as character counts.
- Messages.StringHash: the hash runs over Dafny characters (Unicode scalar values), while `String.hashCode` runs over UTF-16 code units; the two differ for characters outside the Basic Multilingual Plane.
- Game.CastlingRules.ValidMoves: the castling host game is passed as a parameter instead of the stored back reference.
- Game.ChessGame.SetBoard: a board with a pawn on its last row is excluded by the precondition. On such a board `validMoves` of that pawn throws, and so can `isInCheck` for its opponent, because the pawn ruleset builds a position off the board.
- Handler.WebSocketHandler.Message: it requires the stored game to be valid. That stored games stay valid from one call to the next is not proved as an invariant across calls.
- Handler.WebSocketHandler.MakeMove: a command without a move ends in a NullPointerException, which is modelled as sending nothing further.
- Null fields inside stored records (other than the player names, the game name and the game) are left out.
- Bishop moves are collected in a list in the source. The model uses a set, and `RaysDisjoint` shows the list has no duplicates.
- These members are proof helpers that split the source's methods into parts of the same behaviour: `KingSquareMove`, `KnightSquareMove`, `SideCastling`, `SetSide`, `CastOne`, `Admit`, `PlayMove`, `Publish`, `Announce`, `EndGame`, `Dispatch`.

## Findings

| source | as written | input that shows it | evidently intended | confidence | as-written member | corrected member |
|---|---|---|---|---|---|---|
| shared/src/main/java/webSocketMessages/userCommands/UserGameCommand.java:27-30 | the player-colour constructor gives the command type MAKE_MOVE, with a null move | joining game 1 as white through the colour constructor: the server handles it as a move without a move and never registers the session | type JOIN_PLAYER | not executed | Handler.ColorJoinAsWrittenNeverJoins | Handler.ColorJoinSeats |
| client/src/main/java/ui/GameUserInterface.java:65-66 | any argument count other than 2 is refused, so the promotion branch for 3 arguments is unreachable (and its error message reads `args[3]`) | `move a7 a8 q` is answered with the usage text | accept 2 or 3 arguments and report the promotion argument `args[2]` | not executed | ClientUi.AsWrittenRefusesPromotion | ClientUi.MoveArgsRoundTrip |
