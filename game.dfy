/**
 * ChessGame and the two extra rulesets it consults (CastlingRules, EnPassantRules) as mutable
 * objects over a Board.  Every method is proved against the functions of the Execution module.
 */
module Game {
  import opened Util
  import opened Positions
  import opened Pieces
  import opened Boards
  import opened Rulesets
  import opened Check
  import opened Execution

  /** EnPassantRules: the square of a pawn that has just moved two rows, if any. */
  class EnPassantRules {
    var target: Option<Position>

    constructor ()
      ensures target == None
    {
      target := None;
    }

    /** A new board has no en passant target. */
    method SetBoard(board: Board)
      modifies this
      ensures target == None
    {
      target := None;
    }

    /** After a move, the target is the end square exactly when a pawn moved two rows. */
    method MoveMade(m: Move, board: Board)
      requires board.Valid() && At(board.Contents(), m.end).Some?
      modifies this
      ensures target == EpAfter(m, board.Contents())
      ensures target.Some? <==> At(board.Contents(), m.end).value.kind == Pawn && Abs(m.start.row - m.end.row) == 2
      ensures target.Some? ==> target.value == m.end
    {
      var piece := board.GetPiece(m.end);
      if piece.value.kind == Pawn && Abs(m.start.row - m.end.row) == 2 {
        target := Some(m.end);
      } else {
        target := None;
      }
    }

    method MoveMatches(m: Move, board: Board) returns (matches: bool)
      requires board.Valid() && At(board.Contents(), m.start).Some?
      ensures matches == EnPassantMatches(board.Contents(), m)
    {
      var piece := board.GetPiece(m.start);
      matches := piece.value.kind == Pawn && m.start.col != m.end.col && board.GetPiece(m.end).None?;
    }

    method ValidMoves(board: Board, position: Position) returns (moves: set<Move>)
      requires board.Valid() && EpOk(target)
      ensures moves == EnPassantMoves(board.Contents(), position, target)
    {
      moves := {};
      if target.None? {
        return;
      }
      var piece := board.GetPiece(position);
      if piece.None? || piece.value.kind != Pawn {
        return;
      }
      if target.value.row == position.row && Abs(target.value.col - position.col) == 1 {
        var row := position.row;
        if piece.value.color == White {
          row := row + 1;
        } else {
          row := row - 1;
        }
        moves := moves + {Move(position, Pos(row, target.value.col), None)};
      }
    }

    /** Refuse (report false, board untouched) unless the move captures the target en passant; otherwise do so. */
    method PerformMove(m: Move, board: Board) returns (ok: bool)
      requires board.Valid() && At(board.Contents(), m.start).Some?
      modifies board, board.squares
      ensures board.Valid()
      ensures ok == EnPassantPerform(old(board.Contents()), m, target).Some?
      ensures board.Contents() == if ok then EnPassantPerform(old(board.Contents()), m, target).value else old(board.Contents())
    {
      var piece := board.GetPiece(m.start);
      if target.None? || piece.value.kind != Pawn || m.start.col == m.end.col || board.GetPiece(m.end).Some? ||
         m.start.row != target.value.row || m.end.col != target.value.col {
        return false;
      }
      board.AddPiece(target.value, None);
      var pawn := board.GetPiece(m.start);
      board.AddPiece(m.start, None);
      board.AddPiece(m.end, pawn);
      return true;
    }

    method Equals(other: EnPassantRules) returns (same: bool)
      ensures same <==> target == other.target
    {
      same := target == other.target;
    }
  }

  /**
   * CastlingRules: four rights (white king side, white queen side, black king side, black queen
   * side).  The game the rules belong to is passed to the methods that consult it.
   */
  class CastlingRules {
    const options: array<bool>

    ghost predicate Valid()
      reads this
    {
      options.Length == 4
    }

    ghost function Rights(): seq<bool>
      reads this, options
    {
      options[..]
    }

    /** All four rights start out held. */
    constructor ()
      ensures Valid() && fresh(options)
      ensures Rights() == [true, true, true, true]
    {
      options := new bool[4](_ => true);
    }

    method SetBoard(board: Board)
      requires Valid() && board.Valid()
      modifies options
      ensures Rights() == CastlingFromBoard(board.Contents())
    {
      var whiteKing := board.GetPiece(Pos(1, 5));
      var whiteRookK := board.GetPiece(Pos(1, 8));
      var whiteRookQ := board.GetPiece(Pos(1, 1));
      SetSide(0, whiteKing, whiteRookK, whiteRookQ);
      var blackKing := board.GetPiece(Pos(8, 5));
      var blackRookK := board.GetPiece(Pos(8, 8));
      var blackRookQ := board.GetPiece(Pos(8, 1));
      SetSide(2, blackKing, blackRookK, blackRookQ);
      assert options[..] == [options[0], options[1], options[2], options[3]];
    }

    /** One colour's half of setBoard: without a king both rights go; with one, each right needs its rook. */
    method SetSide(i: int, king: Square, rookK: Square, rookQ: Square)
      requires Valid() && (i == 0 || i == 2)
      modifies options
      ensures options[i] == HasRight(king, rookK) && options[i + 1] == HasRight(king, rookQ)
      ensures forall j | 0 <= j < 4 && j != i && j != i + 1 :: options[j] == old(options[j])
    {
      if king.None? || king.value.kind != King {
        options[i] := false;
        options[i + 1] := false;
      } else {
        options[i] := rookK.Some? && rookK.value.kind == Rook;
        options[i + 1] := rookQ.Some? && rookQ.value.kind == Rook;
      }
    }

    method MoveMade(m: Move, board: Board)
      requires Valid() && board.Valid() && At(board.Contents(), m.end).Some?
      modifies options
      ensures Rights() == CastlingAfter(old(Rights()), m, board.Contents())
    {
      var piece := board.GetPiece(m.end);
      if piece.value.kind == King {
        if piece.value.color == White {
          options[0] := false;
          options[1] := false;
        } else {
          options[2] := false;
          options[3] := false;
        }
      } else if piece.value.kind == Rook {
        var startPos := m.start;
        if options[0] && startPos.row == 1 && startPos.col == 8 {
          options[0] := false;
        }
        if options[1] && startPos.row == 1 && startPos.col == 1 {
          options[1] := false;
        }
        if options[2] && startPos.row == 8 && startPos.col == 8 {
          options[2] := false;
        }
        if options[3] && startPos.row == 8 && startPos.col == 1 {
          options[3] := false;
        }
      }
    }

    method MoveMatches(m: Move, board: Board) returns (matches: bool)
      requires board.Valid() && At(board.Contents(), m.start).Some?
      ensures matches == CastlingMatches(board.Contents(), m)
    {
      var piece := board.GetPiece(m.start);
      matches := piece.value.kind == King && Abs(m.start.col - m.end.col) == 2;
    }

    method ValidMoves(host: ChessGame, board: Board, position: Position) returns (moves: set<Move>)
      requires Valid() && board.Valid() && PawnsInRange(board.Contents())
      ensures moves == CastlingMoves(board.Contents(), position, Rights(), host.enPassant.target)
    {
      moves := {};
      var piece := board.GetPiece(position);
      if piece.None? || piece.value.kind != King || position.col != 5 ||
         ((piece.value.color == White && position.row != 1) || (piece.value.color == Black && position.row != 8)) {
        return;
      }
      var offset := if piece.value.color == White then 0 else 2;
      CastlingMovesOfKing(board.Contents(), position, Rights(), host.enPassant.target);
      var kingSideCastle := SideCastling(host, board, piece.value.color, true, options[offset]);
      var queenSideCastle := SideCastling(host, board, piece.value.color, false, options[offset + 1]);
      moves := kingSideCastle + queenSideCastle;
    }

    /** One side of validMoves: the castling singleCastlingMove allows on that side, asked only while the right is held. */
    method SideCastling(host: ChessGame, board: Board, color: TeamColor, kingSide: bool, held: bool) returns (moves: set<Move>)
      requires board.Valid() && PawnsInRange(board.Contents())
      ensures moves == if held then OptionSet(SingleCastling(board.Contents(), color, kingSide, host.enPassant.target)) else {}
    {
      moves := {};
      if held {
        var castle := SingleCastlingMove(host, board, color, kingSide);
        if castle.Some? {
          moves := {castle.value};
        }
      }
    }

    /** Refuse (report false, board untouched) a move that is not a king's two-column move; otherwise castle. */
    method PerformMove(m: Move, board: Board) returns (ok: bool)
      requires board.Valid() && At(board.Contents(), m.start).Some?
      modifies board, board.squares
      ensures board.Valid()
      ensures ok == CastlingPerform(old(board.Contents()), m).Some?
      ensures board.Contents() == if ok then CastlingPerform(old(board.Contents()), m).value else old(board.Contents())
    {
      var piece := board.GetPiece(m.start);
      if m.promotion.Some? || piece.value.kind != King || Abs(m.start.col - m.end.col) != 2 {
        return false;
      }
      var oldColumn := if m.start.col > m.end.col then 1 else 8;
      var oldPosition := Pos(m.end.row, oldColumn);
      var newPosition := Pos(m.end.row, (m.start.col + m.end.col) / 2);
      var rook := board.GetPiece(oldPosition);
      board.AddPiece(newPosition, rook);
      board.AddPiece(oldPosition, None);
      var king := board.GetPiece(m.start);
      board.AddPiece(m.start, None);
      board.AddPiece(m.end, king);
      return true;
    }

    /** The loop of singleCastlingMove: walk from the king's neighbour towards the rook, stopping at an occupied square. */
    static method PathIsClear(board: Board, row: int, kingSide: bool) returns (clear: bool)
      requires board.Valid() && (row == 1 || row == 8)
      ensures clear == PathClear(board.Contents(), row, kingSide)
    {
      ghost var g := board.Contents();
      var col := if kingSide then 6 else 4;
      var i := col;
      while i < 8 && i > 1
        invariant kingSide ==> 6 <= i <= 8 && forall k | 6 <= k < i :: At(g, Pos(row, k)).None?
        invariant !kingSide ==> 1 <= i <= 4 && forall k | i < k <= 4 :: At(g, Pos(row, k)).None?
        decreases if kingSide then 8 - i else i
      {
        var occupant := board.GetPiece(Pos(row, i));
        if occupant.Some? {
          return false;
        }
        i := i + (col - 5);
      }
      return true;
    }

    method SingleCastlingMove(host: ChessGame, board: Board, color: TeamColor, kingSide: bool) returns (move: Option<Move>)
      requires board.Valid() && PawnsInRange(board.Contents())
      ensures move == SingleCastling(board.Contents(), color, kingSide, host.enPassant.target)
    {
      ghost var g := board.Contents();
      var check := Check.IsInCheck(board, color);
      if check {
        return None;
      }
      var row := if color == White then 1 else 8;
      var col := if kingSide then 6 else 4;
      var clear := PathIsClear(board, row, kingSide);
      if !clear {
        return None;
      }
      var orig := Pos(row, 5);
      var between := Move(orig, Pos(row, col), None);
      SameRowSafe(g, between, host.enPassant.target);
      var invalid := host.IsMoveInvalid(between, board);
      if invalid {
        return None;
      }
      var out := Move(orig, Pos(row, 5 + 2 * (col - 5)), None);
      SameRowSafe(g, out, host.enPassant.target);
      invalid := host.IsMoveInvalid(out, board);
      move := if invalid then None else Some(out);
    }

    method Equals(other: CastlingRules) returns (same: bool)
      requires Valid() && other.Valid()
      ensures same <==> Rights() == other.Rights()
    {
      var i := 0;
      while i < 4
        invariant 0 <= i <= 4 && options[..i] == other.options[..i]
      {
        if options[i] != other.options[i] {
          return false;
        }
        i := i + 1;
      }
      return true;
    }
  }

  /** ChessGame: a board, the side to move, whether the game is being played, and the two extra rulesets. */
  class ChessGame {
    var board: Board
    var teamTurn: TeamColor
    var active: bool
    const castling: CastlingRules
    const enPassant: EnPassantRules

    ghost predicate Valid()
      reads this, board, board.squares, castling, castling.options, enPassant
    {
      board.Valid() && castling.Valid() && PawnsInRange(board.Contents()) && EpOk(enPassant.target)
    }

    /** The game as a value. */
    ghost function State(): GameState
      reads this, board, castling, castling.options, enPassant
    {
      GameState(board.Contents(), teamTurn, active, castling.Rights(), enPassant.target)
    }

    /** A new game: the standard position, white to move, active, every castling right, no en passant target. */
    constructor ()
      ensures Valid() && State() == NewGame()
      ensures fresh(board) && fresh(board.squares) && fresh(castling) && fresh(castling.options) && fresh(enPassant)
    {
      board := new Board();
      teamTurn := White;
      castling := new CastlingRules();
      enPassant := new EnPassantRules();
      new;
      board.ResetBoard();
      active := true;
      NewGameWf();
    }

    /** validMoves: null for an empty square, otherwise every candidate move isMoveInvalid lets through. */
    method ValidMoves(start: Position) returns (moves: Option<set<Move>>)
      requires Valid()
      ensures moves == LegalMoves(board.Contents(), start, castling.Rights(), enPassant.target)
    {
      ghost var g := board.Contents();
      ghost var ep := enPassant.target;
      var piece := board.GetPiece(start);
      if piece.None? {
        return None;
      }
      var all := PieceRulesetMoves(board, start);
      var extra := castling.ValidMoves(this, board, start);
      all := all + extra;
      extra := enPassant.ValidMoves(board, start);
      all := all + extra;
      assert all == Candidates(g, start, castling.Rights(), ep);
      CandidatesSafe(g, start, castling.Rights(), ep);
      var kept := all;
      var rest := all;
      while rest != {}
        invariant rest <= all && kept <= all
        invariant forall m | m in all :: m in kept <==> m in rest || !MoveInvalid(g, m, ep)
        decreases |rest|
      {
        var m :| m in rest;
        var invalid := IsMoveInvalid(m, board);
        if invalid {
          kept := kept - {m};
        }
        rest := rest - {m};
      }
      assert kept == set m | m in all && !MoveInvalid(g, m, ep);
      return Some(kept);
    }

    /** isMoveInvalid: perform the move on a copy of the board; invalid if that fails or leaves the mover in check. */
    method IsMoveInvalid(m: Move, b: Board) returns (invalid: bool)
      requires b.Valid() && Safe(b.Contents(), m, enPassant.target)
      ensures invalid == MoveInvalid(b.Contents(), m, enPassant.target)
    {
      var copyBoard := new Board.Copy(b);
      var movingPiece := copyBoard.GetPiece(m.start);
      var ok := PerformMove(m, copyBoard);
      if !ok {
        return true;
      }
      invalid := Check.IsInCheck(copyBoard, movingPiece.value.color);
    }

    /**
     * performMove: on failure (the source's InvalidMoveException) the board is unchanged, except
     * for a promotion onto its own start square, whose piece has already been removed (there the
     * source fails with a NullPointerException when it reads the removed piece's colour).
     */
    method PerformMove(m: Move, b: Board) returns (ok: bool)
      requires b.Valid()
      modifies b, b.squares
      ensures b.Valid()
      ensures ok == Perform(old(b.Contents()), m, enPassant.target).Some?
      ensures ok ==> b.Contents() == Perform(old(b.Contents()), m, enPassant.target).value
      ensures !ok ==> b.Contents() == old(b.Contents()) || (m.start == m.end && b.Contents() == Put(old(b.Contents()), m.end, None))
    {
      var piece := b.GetPiece(m.start);
      if piece.None? {
        return false;
      }
      var matches := castling.MoveMatches(m, b);
      if matches {
        ok := castling.PerformMove(m, b);
        return;
      }
      matches := enPassant.MoveMatches(m, b);
      if matches {
        ok := enPassant.PerformMove(m, b);
        return;
      }
      if m.promotion.None? {
        piece := b.GetPiece(m.start);
        b.AddPiece(m.start, None);
        b.AddPiece(m.end, piece);
        return true;
      }
      if piece.value.kind != Pawn {
        return false;
      }
      if (piece.value.color == White && m.end.row != 8) || (piece.value.color == Black && m.end.row != 1) {
        return false;
      }
      if b.GetPiece(m.end).Some? {
        b.AddPiece(m.end, None);
      }
      var current := b.GetPiece(m.start);
      if current.None? {
        return false;
      }
      b.AddPiece(m.start, None);
      b.AddPiece(m.end, Some(Piece(current.value.color, m.promotion.value)));
      return true;
    }

    /**
     * makeMove: refused (board, turn and rules unchanged) for an empty start square, a piece of
     * the side not to move, or a move validMoves does not return; otherwise performed, shown to
     * both rulesets, and the turn passes.
     */
    method MakeMove(m: Move) returns (error: Option<MoveError>)
      requires Valid()
      modifies this, board, board.squares, castling.options, enPassant
      ensures Valid() && board == old(board)
      ensures Play(old(State()), m).Ok? ==> error.None? && State() == Play(old(State()), m).value
      ensures Play(old(State()), m).Err? ==> error == Some(Play(old(State()), m).error) && State() == old(State())
    {
      ghost var s := State();
      var piece := board.GetPiece(m.start);
      if piece.None? {
        return Some(NoPieceAtStart);
      } else if piece.value.color != teamTurn {
        return Some(WrongColor);
      }
      var moves := ValidMoves(m.start);
      if m !in moves.value {
        return Some(NotValid);
      }
      LegalMovesSound(s.board, m.start, s.rights, s.ep, m);
      PerformLanding(s.board, m, s.ep);
      var ok := PerformMove(m, board);
      castling.MoveMade(m, board);
      enPassant.MoveMade(m, board);
      teamTurn := Opposite(teamTurn);
      PlayWf(s, m);
      return None;
    }

    method IsInCheck(teamColor: TeamColor) returns (check: bool)
      requires Valid()
      ensures check == InCheck(board.Contents(), teamColor)
    {
      check := Check.IsInCheck(board, teamColor);
    }

    method IsInCheckmate(teamColor: TeamColor) returns (mate: bool)
      requires Valid()
      ensures mate == Checkmate(State(), teamColor)
    {
      var check := IsInCheck(teamColor);
      if !check {
        return false;
      }
      mate := NoValidMovesExist(teamColor);
    }

    method IsInStalemate(teamColor: TeamColor) returns (stale: bool)
      requires Valid()
      ensures stale == Stalemate(State(), teamColor)
    {
      var check := IsInCheck(teamColor);
      if check {
        return false;
      }
      stale := NoValidMovesExist(teamColor);
    }

    /** noValidMovesExist: scan the board for a piece of the colour with a valid move. */
    method NoValidMovesExist(teamColor: TeamColor) returns (none: bool)
      requires Valid()
      ensures none == NoLegalMoves(State(), teamColor)
    {
      ghost var s := State();
      var i := 1;
      while i <= 8
        invariant 1 <= i <= 9 && NoLegalMovesBefore(s, teamColor, i, 1)
      {
        var j := 1;
        while j <= 8
          invariant 1 <= j <= 9 && NoLegalMovesBefore(s, teamColor, i, j)
        {
          var pos := Pos(i, j);
          var piece := board.GetPiece(pos);
          if piece.Some? && piece.value.color == teamColor {
            var moves := ValidMoves(pos);
            if moves.value != {} {
              return false;
            }
          }
          NoLegalMovesNextSquare(s, teamColor, pos);
          j := j + 1;
        }
        NoLegalMovesNextRow(s, teamColor, i);
        i := i + 1;
      }
      return true;
    }

    /** setBoard: play on the given board; castling rights are read off it and the en passant target is dropped. */
    method SetBoard(b: Board)
      requires Valid() && b.Valid() && PawnsInRange(b.Contents())
      modifies this, castling.options, enPassant
      ensures Valid() && board == b
      ensures State() == GameState(b.Contents(), old(teamTurn), old(active), CastlingFromBoard(b.Contents()), None)
    {
      board := b;
      castling.SetBoard(b);
      enPassant.SetBoard(b);
    }

    /** setActive: marks the game as being played or over; nothing else changes. */
    method SetActive(a: bool)
      requires Valid()
      modifies this
      ensures Valid() && board == old(board)
      ensures State() == old(State()).(active := a)
    {
      active := a;
    }

    /** equals: the same pieces on the same squares and the same side to move. */
    method Equals(other: ChessGame) returns (same: bool)
      requires Valid() && other.Valid()
      ensures same <==> board.Contents() == other.board.Contents() && teamTurn == other.teamTurn
    {
      if this == other {
        return true;
      }
      var sameBoard := board.Equals(other.board);
      if !sameBoard {
        return false;
      }
      return teamTurn == other.teamTurn;
    }
  }
}
