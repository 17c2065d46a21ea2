/**
 * Check: where a side's king is, and whether an enemy piece can reach it (ChessGame.isInCheck).
 */
module Check {
  import opened Util
  import opened Positions
  import opened Pieces
  import opened Boards
  import opened Rulesets

  /**
   * Every piece's moves can be computed: no pawn stands on the row it would promote on.  A board
   * where one does makes the pawn ruleset, and so isInCheck, fail with an exception.
   */
  ghost predicate PawnsInRange(g: Grid)
  {
    forall p: Position :: At(g, p).Some? ==> CanMove(g, p)
  }

  predicate IsKingOf(s: Square, color: TeamColor)
  {
    s.Some? && s.value.color == color && s.value.kind == King
  }

  /** The first column from c on, in row r, holding a king of the colour. */
  function FirstKingCol(g: Grid, color: TeamColor, r: int, c: int): (col: Option<int>)
    requires 1 <= r <= 8 && 1 <= c <= 9
    decreases 9 - c
    ensures col.Some? ==>
      c <= col.value <= 8 && IsKingOf(At(g, Pos(r, col.value)), color) &&
      forall c' | c <= c' < col.value :: !IsKingOf(At(g, Pos(r, c')), color)
    ensures col.None? ==> forall c' | c <= c' <= 8 :: !IsKingOf(At(g, Pos(r, c')), color)
  {
    if c == 9 then None
    else if IsKingOf(At(g, Pos(r, c)), color) then Some(c)
    else FirstKingCol(g, color, r, c + 1)
  }

  /**
   * The king isInCheck settles on after scanning rows 1..r: its search breaks out of the column loop
   * only, so a later row with a king overrides an earlier one, and within a row the first column wins.
   */
  function KingScan(g: Grid, color: TeamColor, r: int): Option<Position>
    requires 0 <= r <= 8
  {
    if r == 0 then None
    else
      match FirstKingCol(g, color, r, 1)
      case Some(c) => Some(Pos(r, c))
      case None => KingScan(g, color, r - 1)
  }

  /** The square isInCheck takes for the king of the colour. */
  function KingSquare(g: Grid, color: TeamColor): Option<Position>
  {
    KingScan(g, color, 8)
  }

  lemma {:induction false} KingScanExact(g: Grid, color: TeamColor, r: int)
    requires 0 <= r <= 8
    ensures KingScan(g, color, r).Some? ==>
      KingScan(g, color, r).value.row <= r && IsKingOf(At(g, KingScan(g, color, r).value), color)
    ensures KingScan(g, color, r).None? <==> forall p: Position :: p.row <= r ==> !IsKingOf(At(g, p), color)
  {
    if r > 0 {
      KingScanExact(g, color, r - 1);
      match FirstKingCol(g, color, r, 1)
      case Some(c) =>
        var p: Position := Pos(r, c);
        assert IsKingOf(At(g, p), color);
      case None =>
        if KingScan(g, color, r - 1).None? {
          forall p: Position | p.row <= r
            ensures !IsKingOf(At(g, p), color)
          {
            if p.row == r {
              assert !IsKingOf(At(g, Pos(r, p.col)), color);
            }
          }
        }
    }
  }

  /**
   * The king square is a king of the colour; there is none exactly when the colour has no king;
   * and when the colour has exactly one king, the king square is where it stands.
   */
  lemma KingSquareExact(g: Grid, color: TeamColor, p: Position)
    ensures KingSquare(g, color).Some? ==> IsKingOf(At(g, KingSquare(g, color).value), color)
    ensures KingSquare(g, color).None? <==> forall q: Position :: !IsKingOf(At(g, q), color)
    ensures IsKingOf(At(g, p), color) && (forall q: Position :: IsKingOf(At(g, q), color) ==> q == p) ==>
      KingSquare(g, color) == Some(p)
  {
    KingScanExact(g, color, 8);
  }

  /** The piece on `from` has a move ending on `target`. */
  ghost predicate Attacks(g: Grid, from: Position, target: Position)
    requires PawnsInRange(g) && At(g, from).Some?
  {
    exists m | m in PieceMoves(g, from) :: m.end == target
  }

  /**
   * isInCheck: the colour has a king square, and a piece of the other colour has a move ending on
   * it.  The moves counted are the pieces' own moves, without castling, en passant or the rule
   * against leaving one's own king in check.
   */
  ghost predicate InCheck(g: Grid, color: TeamColor)
    requires PawnsInRange(g)
  {
    KingSquare(g, color).Some? &&
    exists p: Position :: At(g, p).Some? && At(g, p).value.color != color && Attacks(g, p, KingSquare(g, color).value)
  }

  /** No piece of the other colour before square (i, j), in row-major order, attacks `king`. */
  ghost predicate NoAttackBefore(g: Grid, color: TeamColor, king: Position, i: int, j: int)
    requires PawnsInRange(g)
  {
    forall p: Position ::
      (p.row < i || (p.row == i && p.col < j)) && At(g, p).Some? && At(g, p).value.color != color ==>
        !Attacks(g, p, king)
  }

  lemma NoAttackNextRow(g: Grid, color: TeamColor, king: Position, i: int)
    requires PawnsInRange(g) && NoAttackBefore(g, color, king, i, 9)
    ensures NoAttackBefore(g, color, king, i + 1, 1)
  {
  }

  lemma NoAttackNextSquare(g: Grid, color: TeamColor, king: Position, p: Position)
    requires PawnsInRange(g) && NoAttackBefore(g, color, king, p.row, p.col)
    requires At(g, p).Some? && At(g, p).value.color != color ==> !Attacks(g, p, king)
    ensures NoAttackBefore(g, color, king, p.row, p.col + 1)
  {
    forall q: Position | q.row == p.row && q.col == p.col
      ensures q == p
    {
    }
  }

  /** A piece of the other colour with a move onto the king square puts the colour in check. */
  lemma CheckWitness(g: Grid, color: TeamColor, p: Position, m: Move)
    requires PawnsInRange(g) && KingSquare(g, color).Some?
    requires At(g, p).Some? && At(g, p).value.color != color
    requires m in PieceMoves(g, p) && m.end == KingSquare(g, color).value
    ensures InCheck(g, color)
  {
    assert Attacks(g, p, KingSquare(g, color).value);
  }

  /** When no piece of the other colour attacks the king square, the colour is not in check. */
  lemma NoAttackNoCheck(g: Grid, color: TeamColor, king: Position)
    requires PawnsInRange(g) && KingSquare(g, color) == Some(king) && NoAttackBefore(g, color, king, 9, 1)
    ensures !InCheck(g, color)
  {
  }

  /** No king of the colour in row i before column j. */
  ghost predicate NoKingBefore(g: Grid, color: TeamColor, i: int, j: int)
    requires 1 <= i <= 8 && j <= 9
  {
    forall c' | 1 <= c' < j :: !IsKingOf(At(g, Pos(i, c')), color)
  }

  lemma NoKingNext(g: Grid, color: TeamColor, i: int, j: int)
    requires 1 <= i <= 8 && 1 <= j <= 8 && NoKingBefore(g, color, i, j) && !IsKingOf(At(g, Pos(i, j)), color)
    ensures NoKingBefore(g, color, i, j + 1)
  {
  }

  /** The first king of row i, found at column j, is the scan's answer for rows 1..i. */
  lemma ScanFound(g: Grid, color: TeamColor, i: int, j: int)
    requires 1 <= i <= 8 && 1 <= j <= 8 && NoKingBefore(g, color, i, j) && IsKingOf(At(g, Pos(i, j)), color)
    ensures KingScan(g, color, i) == Some(Pos(i, j))
  {
    var c := FirstKingCol(g, color, i, 1);
  }

  /** A row without a king leaves the scan's answer as it was. */
  lemma ScanEmpty(g: Grid, color: TeamColor, i: int)
    requires 1 <= i <= 8 && NoKingBefore(g, color, i, 9)
    ensures KingScan(g, color, i) == KingScan(g, color, i - 1)
  {
    var c := FirstKingCol(g, color, i, 1);
  }

  /** isInCheck's first loop: scan every row for a king of the colour, breaking out of the column loop only. */
  method FindKing(board: Board, color: TeamColor) returns (king: Option<Position>)
    requires board.Valid()
    ensures king == KingSquare(board.Contents(), color)
  {
    ghost var g := board.Contents();
    king := None;
    var i := 1;
    while i <= 8
      invariant 1 <= i <= 9 && king == KingScan(g, color, i - 1)
    {
      var j := 1;
      ghost var found := false;
      while j <= 8
        invariant 1 <= j <= 9 && king == KingScan(g, color, i - 1) && NoKingBefore(g, color, i, j)
      {
        var pos: Position := Pos(i, j);
        var piece := board.GetPiece(pos);
        if piece.Some? && piece.value.color == color && piece.value.kind == King {
          ScanFound(g, color, i, j);
          king := Some(pos);
          found := true;
          break;
        }
        NoKingNext(g, color, i, j);
        j := j + 1;
      }
      if !found {
        ScanEmpty(g, color, i);
      }
      i := i + 1;
    }
  }

  /** isInCheck as the source runs it: find the king, then try every enemy piece's moves. */
  method IsInCheck(board: Board, color: TeamColor) returns (check: bool)
    requires board.Valid() && PawnsInRange(board.Contents())
    ensures check == InCheck(board.Contents(), color)
  {
    ghost var g := board.Contents();
    var king := FindKing(board, color);
    if king.None? {
      return false;
    }
    var k := king.value;
    var i := 1;
    while i <= 8
      invariant 1 <= i <= 9 && NoAttackBefore(g, color, k, i, 1)
    {
      var j := 1;
      while j <= 8
        invariant 1 <= j <= 9 && NoAttackBefore(g, color, k, i, j)
      {
        var pos: Position := Pos(i, j);
        var piece := board.GetPiece(pos);
        if piece.Some? && piece.value.color != color {
          var moves := PieceRulesetMoves(board, pos);
          var rest := moves;
          while rest != {}
            invariant rest <= moves && forall m | m in moves - rest :: m.end != k
            decreases |rest|
          {
            var move :| move in rest;
            if move.end == k {
              CheckWitness(g, color, pos, move);
              return true;
            }
            rest := rest - {move};
          }
          assert !Attacks(g, pos, k) by {
            assert moves - rest == moves;
          }
        }
        NoAttackNextSquare(g, color, k, pos);
        j := j + 1;
      }
      NoAttackNextRow(g, color, k, i);
      i := i + 1;
    }
    NoAttackNoCheck(g, color, k);
    return false;
  }
}
