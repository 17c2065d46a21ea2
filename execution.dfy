/**
 * Executing a move on a board, and the legal moves of a game: ChessGame.performMove,
 * isMoveInvalid, validMoves and makeMove, with the castling and en passant rules they consult,
 * stated on board values.  The classes of the Game module are proved against these functions.
 */
module Execution {
  import opened Util
  import opened Positions
  import opened Pieces
  import opened Boards
  import opened Rulesets
  import opened Check

  // ---- Castling (CastlingRules) ----

  /** The row a side's king and rooks start on. */
  function HomeRow(c: TeamColor): int
  {
    if c == White then 1 else 8
  }

  /** moveMatches: a king moving two columns is executed as a castling. */
  predicate CastlingMatches(g: Grid, m: Move)
    requires At(g, m.start).Some?
  {
    At(g, m.start).value.kind == King && Abs(m.start.col - m.end.col) == 2
  }

  /** The corner the rook comes from: column 1 when the king moves left, column 8 otherwise. */
  function RookCorner(m: Move): Position
  {
    Pos(m.end.row, if m.start.col > m.end.col then 1 else 8)
  }

  /** The square between the king's start and end columns, where the rook lands. */
  function RookLanding(m: Move): Position
    requires Abs(m.start.col - m.end.col) == 2
  {
    Pos(m.end.row, (m.start.col + m.end.col) / 2)
  }

  /**
   * performMove: refuse a promotion, a piece other than a king, or a column change other than 2;
   * otherwise move whatever stands on the corner to the square the king crosses, and then the king.
   */
  function CastlingPerform(g: Grid, m: Move): Option<Grid>
    requires At(g, m.start).Some?
  {
    if m.promotion.Some? || At(g, m.start).value.kind != King || Abs(m.start.col - m.end.col) != 2 then None
    else
      var g1 := Put(g, RookLanding(m), At(g, RookCorner(m)));
      var g2 := Put(g1, RookCorner(m), None);
      var king := At(g2, m.start);
      Some(Put(Put(g2, m.start, None), m.end, king))
  }

  /**
   * A castling from column 5 along a row puts the king on the end square, moves the corner's
   * content onto the square the king crossed, empties the start and the corner, and keeps every
   * other square.
   */
  lemma CastlingPerformPlaces(g: Grid, m: Move)
    requires At(g, m.start).Some? && At(g, m.start).value.kind == King && m.promotion.None?
    requires m.start.col == 5 && m.start.row == m.end.row && Abs(m.start.col - m.end.col) == 2
    ensures CastlingPerform(g, m).Some?
    ensures var h := CastlingPerform(g, m).value;
      At(h, m.end) == At(g, m.start) && At(h, RookLanding(m)) == At(g, RookCorner(m)) &&
      At(h, m.start).None? && At(h, RookCorner(m)).None? &&
      forall q: Position :: q !in {m.start, m.end, RookLanding(m), RookCorner(m)} ==> At(h, q) == At(g, q)
  {
  }

  // ---- En passant (EnPassantRules) ----

  /** moveMatches: a pawn changing column onto an empty square is executed as an en passant capture. */
  predicate EnPassantMatches(g: Grid, m: Move)
    requires At(g, m.start).Some?
  {
    At(g, m.start).value.kind == Pawn && m.start.col != m.end.col && At(g, m.end).None?
  }

  /**
   * performMove: refuse unless there is a target, a pawn changes column onto an empty square,
   * starts on the target's row and ends in its column; otherwise remove the target and move the pawn.
   */
  function EnPassantPerform(g: Grid, m: Move, ep: Option<Position>): Option<Grid>
    requires At(g, m.start).Some?
  {
    if ep.None? || At(g, m.start).value.kind != Pawn || m.start.col == m.end.col || At(g, m.end).Some? ||
       m.start.row != ep.value.row || m.end.col != ep.value.col
    then None
    else
      var g1 := Put(g, ep.value, None);
      var pawn := At(g1, m.start);
      Some(Put(Put(g1, m.start, None), m.end, pawn))
  }

  /** A successful en passant capture removes the target, moves the pawn, and keeps every other square. */
  lemma EnPassantPerformPlaces(g: Grid, m: Move, ep: Option<Position>)
    requires At(g, m.start).Some? && EnPassantPerform(g, m, ep).Some? && m.start.row != m.end.row
    ensures var h := EnPassantPerform(g, m, ep).value;
      At(h, m.end) == At(g, m.start) && At(h, m.start).None? && At(h, ep.value).None? &&
      forall q: Position :: q !in {m.start, m.end, ep.value} ==> At(h, q) == At(g, q)
  {
  }

  // ---- ChessGame.performMove ----

  /**
   * performMove: no piece on the start square is refused; a move castling or en passant claims is
   * left to that rule; a plain move carries the piece over; a promotion must be a pawn reaching the
   * far row, and puts the new piece there.
   */
  function Perform(g: Grid, m: Move, ep: Option<Position>): Option<Grid>
  {
    if At(g, m.start).None? then None
    else if CastlingMatches(g, m) then CastlingPerform(g, m)
    else if EnPassantMatches(g, m) then EnPassantPerform(g, m, ep)
    else if m.promotion.None? then
      var piece := At(g, m.start);
      Some(Put(Put(g, m.start, None), m.end, piece))
    else
      var piece := At(g, m.start).value;
      if piece.kind != Pawn then None
      else if (piece.color == White && m.end.row != 8) || (piece.color == Black && m.end.row != 1) then None
      else
        var g1 := if At(g, m.end).Some? then Put(g, m.end, None) else g;
        // A promotion onto its own start square has no piece left to read the colour of.
        if At(g1, m.start).None? then None
        else Some(Put(Put(g1, m.start, None), m.end, Some(Piece(At(g1, m.start).value.color, m.promotion.value))))
  }

  /**
   * After a successful move the end square holds the moving piece, or the piece it was promoted
   * to, in the mover's colour; and the start square is empty.
   */
  lemma PerformLanding(g: Grid, m: Move, ep: Option<Position>)
    requires Perform(g, m, ep).Some?
    ensures At(g, m.start).Some?
    ensures var h := Perform(g, m, ep).value;
      At(h, m.end).Some? && At(h, m.end).value.color == At(g, m.start).value.color &&
      (At(h, m.end).value.kind == Pawn ==> At(g, m.start).value.kind == Pawn) &&
      (m.promotion.None? ==> At(h, m.end) == At(g, m.start)) &&
      (m.start != m.end ==> At(h, m.start).None?)
  {
    if CastlingMatches(g, m) {
      assert m.start != RookLanding(m) && m.start != RookCorner(m);
    }
  }

  // ---- Boards every ruleset can handle ----

  /** A square's content can stand on p: a pawn there still has a row ahead of it. */
  predicate Fits(s: Square, p: Position)
  {
    s.Some? && s.value.kind == Pawn ==> OnBoard(p.row + Forward(s.value.color), p.col)
  }

  lemma FitsInRange(g: Grid, p: Position)
    requires PawnsInRange(g)
    ensures Fits(At(g, p), p)
  {
    if At(g, p).Some? {
      assert CanMove(g, p);
    }
  }

  /** Putting a square's content where it fits keeps every pawn short of its last row. */
  lemma PutFits(g: Grid, p: Position, s: Square)
    requires PawnsInRange(g) && Fits(s, p)
    ensures PawnsInRange(Put(g, p, s))
  {
    var h := Put(g, p, s);
    forall q: Position | At(h, q).Some?
      ensures CanMove(h, q)
    {
      if q != p {
        assert CanMove(g, q);
      }
    }
  }

  /** Sliding a square's content along its row keeps it fitting. */
  lemma RowFits(g: Grid, p: Position, q: Position)
    requires PawnsInRange(g) && p.row == q.row
    ensures Fits(At(g, p), q)
  {
    FitsInRange(g, p);
  }

  /** The moves whose result isInCheck can examine: where performMove succeeds, no pawn ends on its last row. */
  ghost predicate Safe(g: Grid, m: Move, ep: Option<Position>)
  {
    Perform(g, m, ep).Some? ==> PawnsInRange(Perform(g, m, ep).value)
  }

  /**
   * performMove keeps a board checkable when the moving piece fits its end square (unless it is
   * promoted) and a promotion is not to a pawn.
   */
  lemma PerformSafe(g: Grid, m: Move, ep: Option<Position>)
    requires PawnsInRange(g)
    requires At(g, m.start).Some? && (m.promotion.None? || EnPassantMatches(g, m)) ==> Fits(At(g, m.start), m.end)
    requires m.promotion.Some? ==> m.promotion.value != Pawn
    ensures Safe(g, m, ep)
  {
    if At(g, m.start).None? {
    } else if CastlingMatches(g, m) {
      if CastlingPerform(g, m).Some? {
        RowFits(g, RookCorner(m), RookLanding(m));
        var g1 := Put(g, RookLanding(m), At(g, RookCorner(m)));
        PutFits(g, RookLanding(m), At(g, RookCorner(m)));
        var g2 := Put(g1, RookCorner(m), None);
        PutFits(g1, RookCorner(m), None);
        assert m.start != RookLanding(m) && m.start != RookCorner(m);
        var g3 := Put(g2, m.start, None);
        PutFits(g2, m.start, None);
        PutFits(g3, m.end, At(g2, m.start));
      }
    } else if EnPassantMatches(g, m) {
      if EnPassantPerform(g, m, ep).Some? {
        var g1 := Put(g, ep.value, None);
        PutFits(g, ep.value, None);
        var g2 := Put(g1, m.start, None);
        PutFits(g1, m.start, None);
        PutFits(g2, m.end, At(g1, m.start));
      }
    } else if m.promotion.None? {
      var g1 := Put(g, m.start, None);
      PutFits(g, m.start, None);
      PutFits(g1, m.end, At(g, m.start));
    } else if Perform(g, m, ep).Some? {
      var g1 := if At(g, m.end).Some? then Put(g, m.end, None) else g;
      if At(g, m.end).Some? {
        PutFits(g, m.end, None);
      }
      var g2 := Put(g1, m.start, None);
      PutFits(g1, m.start, None);
      PutFits(g2, m.end, Some(Piece(At(g1, m.start).value.color, m.promotion.value)));
    }
  }

  /** A move along a row without promotion, as castling tries, keeps the board checkable. */
  lemma SameRowSafe(g: Grid, m: Move, ep: Option<Position>)
    requires PawnsInRange(g) && m.start.row == m.end.row && m.promotion.None?
    ensures Safe(g, m, ep)
  {
    RowFits(g, m.start, m.end);
    PerformSafe(g, m, ep);
  }

  /** A piece's own move keeps the board checkable. */
  lemma PieceMoveSafe(g: Grid, at: Position, m: Move, ep: Option<Position>)
    requires PawnsInRange(g) && At(g, at).Some? && m in PieceMoves(g, at)
    ensures Safe(g, m, ep)
  {
    assert CanMove(g, at);
    PieceMovesSound(g, at, m);
    if At(g, at).value.kind == Pawn {
      PawnMovesExact(g, at, m);
    }
    PerformSafe(g, m, ep);
  }

  /** isMoveInvalid: performMove fails, or leaves the mover's colour in check. */
  ghost predicate MoveInvalid(g: Grid, m: Move, ep: Option<Position>)
    requires Safe(g, m, ep)
  {
    Perform(g, m, ep).None? || InCheck(Perform(g, m, ep).value, At(g, m.start).value.color)
  }

  // ---- The moves castling and en passant add ----

  /** An en passant target is a pawn that has just moved two rows: it stands on row 4 or row 5. */
  predicate EpOk(ep: Option<Position>)
  {
    ep.Some? ==> ep.value.row == 4 || ep.value.row == 5
  }

  /** The squares between king and rook that must be empty: 6 and 7 on the king's side, 4, 3 and 2 on the queen's. */
  predicate PathClear(g: Grid, row: int, kingSide: bool)
    requires row == 1 || row == 8
  {
    if kingSide then At(g, Pos(row, 6)).None? && At(g, Pos(row, 7)).None?
    else At(g, Pos(row, 4)).None? && At(g, Pos(row, 3)).None? && At(g, Pos(row, 2)).None?
  }

  /** The king's one-column step towards the rook, which must not be into check. */
  function CastlingTransit(c: TeamColor, kingSide: bool): Move
  {
    Move(Pos(HomeRow(c), 5), Pos(HomeRow(c), if kingSide then 6 else 4), None)
  }

  /** The castling move itself: the king moves two columns towards the rook. */
  function CastlingMove(c: TeamColor, kingSide: bool): Move
  {
    Move(Pos(HomeRow(c), 5), Pos(HomeRow(c), if kingSide then 7 else 3), None)
  }

  /**
   * singleCastlingMove: none when the colour is in check, a square between king and rook is
   * occupied, or the king's step or the castling move itself is invalid.
   */
  ghost function SingleCastling(g: Grid, c: TeamColor, kingSide: bool, ep: Option<Position>): Option<Move>
    requires PawnsInRange(g)
  {
    SameRowSafe(g, CastlingTransit(c, kingSide), ep);
    SameRowSafe(g, CastlingMove(c, kingSide), ep);
    if InCheck(g, c) then None
    else if !PathClear(g, HomeRow(c), kingSide) then None
    else if MoveInvalid(g, CastlingTransit(c, kingSide), ep) then None
    else if MoveInvalid(g, CastlingMove(c, kingSide), ep) then None
    else Some(CastlingMove(c, kingSide))
  }

  function OptionSet(o: Option<Move>): set<Move>
  {
    if o.Some? then {o.value} else {}
  }

  /** The index of a colour's king-side right; the queen-side right follows it. */
  function RightsOffset(c: TeamColor): int
  {
    if c == White then 0 else 2
  }

  /**
   * CastlingRules.validMoves: nothing unless a king stands on column 5 of its home row; then the
   * castling on each side whose right is still held and which singleCastlingMove allows.
   */
  ghost function CastlingMoves(g: Grid, at: Position, rights: seq<bool>, ep: Option<Position>): set<Move>
    requires PawnsInRange(g) && |rights| == 4
  {
    var piece := At(g, at);
    if piece.None? || piece.value.kind != King || at.col != 5 || at.row != HomeRow(piece.value.color) then {}
    else
      var off := RightsOffset(piece.value.color);
      (if rights[off] then OptionSet(SingleCastling(g, piece.value.color, true, ep)) else {}) +
      (if rights[off + 1] then OptionSet(SingleCastling(g, piece.value.color, false, ep)) else {})
  }

  /** For a king on column 5 of its home row, validMoves asks each side whose right is held. */
  lemma CastlingMovesOfKing(g: Grid, at: Position, rights: seq<bool>, ep: Option<Position>)
    requires PawnsInRange(g) && |rights| == 4
    requires At(g, at).Some? && At(g, at).value.kind == King && at == Pos(HomeRow(At(g, at).value.color), 5)
    ensures var c := At(g, at).value.color;
      CastlingMoves(g, at, rights, ep) ==
        (if rights[RightsOffset(c)] then OptionSet(SingleCastling(g, c, true, ep)) else {}) +
        (if rights[RightsOffset(c) + 1] then OptionSet(SingleCastling(g, c, false, ep)) else {})
  {
  }

  /**
   * A castling move is offered only to a king on column 5 of its home row holding the right for
   * that side, when it is not in check, the squares between king and rook are empty, and neither
   * the king's step nor the castling move leaves it in check; it moves the king two columns.
   */
  lemma CastlingMovesShape(g: Grid, at: Position, rights: seq<bool>, ep: Option<Position>, m: Move)
    requires PawnsInRange(g) && |rights| == 4 && m in CastlingMoves(g, at, rights, ep)
    ensures At(g, at).Some? && At(g, at).value.kind == King
    ensures var c := At(g, at).value.color;
      at == Pos(HomeRow(c), 5) && !InCheck(g, c) &&
      exists kingSide: bool ::
        rights[RightsOffset(c) + (if kingSide then 0 else 1)] && m == CastlingMove(c, kingSide) &&
        PathClear(g, HomeRow(c), kingSide) &&
        Safe(g, CastlingTransit(c, kingSide), ep) && !MoveInvalid(g, CastlingTransit(c, kingSide), ep) &&
        Safe(g, m, ep) && !MoveInvalid(g, m, ep)
  {
    var c := At(g, at).value.color;
    if rights[RightsOffset(c)] && m in OptionSet(SingleCastling(g, c, true, ep)) {
      SameRowSafe(g, CastlingTransit(c, true), ep);
      SameRowSafe(g, CastlingMove(c, true), ep);
      assert rights[RightsOffset(c) + 0];
    } else {
      SameRowSafe(g, CastlingTransit(c, false), ep);
      SameRowSafe(g, CastlingMove(c, false), ep);
      assert rights[RightsOffset(c) + 1];
    }
  }

  /**
   * EnPassantRules.validMoves: with a target, a pawn on the target's row in a neighbouring
   * column may move one row forward into the target's column.  The pawn's colour is not compared
   * with the target's.
   */
  function EnPassantMoves(g: Grid, at: Position, ep: Option<Position>): set<Move>
    requires EpOk(ep)
  {
    if ep.None? then {}
    else if At(g, at).None? || At(g, at).value.kind != Pawn then {}
    else if ep.value.row == at.row && Abs(ep.value.col - at.col) == 1 then
      var row := if At(g, at).value.color == White then at.row + 1 else at.row - 1;
      {Move(at, Pos(row, ep.value.col), None)}
    else {}
  }

  /**
   * At most one en passant move is offered, and only to a pawn beside the target on its row; it
   * lands one row forward for the pawn's colour, in the target's column.
   */
  lemma EnPassantMovesExact(g: Grid, at: Position, ep: Option<Position>, m: Move)
    requires EpOk(ep)
    ensures |EnPassantMoves(g, at, ep)| <= 1
    ensures m in EnPassantMoves(g, at, ep) <==>
      ep.Some? && At(g, at).Some? && At(g, at).value.kind == Pawn &&
      at.row == ep.value.row && Abs(ep.value.col - at.col) == 1 &&
      m.start == at && m.end.row == at.row + Forward(At(g, at).value.color) && m.end.col == ep.value.col &&
      m.promotion.None?
  {
  }

  /** An en passant move keeps the board checkable: the pawn lands on row 3, 4, 5 or 6. */
  lemma EnPassantMoveSafe(g: Grid, at: Position, ep: Option<Position>, m: Move)
    requires PawnsInRange(g) && EpOk(ep) && m in EnPassantMoves(g, at, ep)
    ensures Safe(g, m, ep)
  {
    PerformSafe(g, m, ep);
  }

  // ---- ChessGame.validMoves ----

  /** Every move validMoves considers: the piece's own moves and what castling and en passant add. */
  ghost function Candidates(g: Grid, at: Position, rights: seq<bool>, ep: Option<Position>): set<Move>
    requires PawnsInRange(g) && |rights| == 4 && EpOk(ep) && At(g, at).Some?
  {
    PieceMoves(g, at) + CastlingMoves(g, at, rights, ep) + EnPassantMoves(g, at, ep)
  }

  /** Every candidate move keeps the board checkable, so isMoveInvalid never fails on one. */
  lemma CandidatesSafe(g: Grid, at: Position, rights: seq<bool>, ep: Option<Position>)
    requires PawnsInRange(g) && |rights| == 4 && EpOk(ep) && At(g, at).Some?
    ensures forall m | m in Candidates(g, at, rights, ep) :: Safe(g, m, ep)
  {
    forall m | m in Candidates(g, at, rights, ep)
      ensures Safe(g, m, ep)
    {
      if m in PieceMoves(g, at) {
        PieceMoveSafe(g, at, m, ep);
      } else if m in CastlingMoves(g, at, rights, ep) {
        CastlingMovesShape(g, at, rights, ep, m);
      } else {
        EnPassantMoveSafe(g, at, ep, m);
      }
    }
  }

  /**
   * validMoves: none (null) for an empty square; otherwise the candidates that isMoveInvalid
   * lets through.
   */
  ghost function LegalMoves(g: Grid, at: Position, rights: seq<bool>, ep: Option<Position>): Option<set<Move>>
    requires PawnsInRange(g) && |rights| == 4 && EpOk(ep)
  {
    if At(g, at).None? then None
    else
      CandidatesSafe(g, at, rights, ep);
      Some(set m | m in Candidates(g, at, rights, ep) && !MoveInvalid(g, m, ep))
  }

  /**
   * validMoves is null exactly for an empty square; a move it returns starts on the square,
   * succeeds, and leaves the mover's colour out of check.
   */
  lemma LegalMovesSound(g: Grid, at: Position, rights: seq<bool>, ep: Option<Position>, m: Move)
    requires PawnsInRange(g) && |rights| == 4 && EpOk(ep)
    ensures LegalMoves(g, at, rights, ep).None? <==> At(g, at).None?
    ensures LegalMoves(g, at, rights, ep).Some? && m in LegalMoves(g, at, rights, ep).value ==>
      m.start == at && Perform(g, m, ep).Some? && PawnsInRange(Perform(g, m, ep).value) &&
      !InCheck(Perform(g, m, ep).value, At(g, at).value.color)
  {
    if LegalMoves(g, at, rights, ep).Some? && m in LegalMoves(g, at, rights, ep).value {
      CandidatesSafe(g, at, rights, ep);
      if m in PieceMoves(g, at) {
        assert CanMove(g, at);
        PieceMovesSound(g, at, m);
      } else if m in CastlingMoves(g, at, rights, ep) {
        CastlingMovesShape(g, at, rights, ep, m);
      }
    }
  }

  // ---- What a move leaves behind for the rules (moveMade) ----

  /**
   * CastlingRules.moveMade, on the piece now standing on the end square: a king gives up both
   * rights of its colour; a rook leaving a corner gives up that corner's right.
   */
  function CastlingAfter(rights: seq<bool>, m: Move, h: Grid): (after: seq<bool>)
    requires |rights| == 4 && At(h, m.end).Some?
    ensures |after| == 4
  {
    var piece := At(h, m.end).value;
    if piece.kind == King then
      if piece.color == White then [false, false, rights[2], rights[3]]
      else [rights[0], rights[1], false, false]
    else if piece.kind == Rook then
      [rights[0] && m.start != Pos(1, 8), rights[1] && m.start != Pos(1, 1),
       rights[2] && m.start != Pos(8, 8), rights[3] && m.start != Pos(8, 1)]
    else rights
  }

  /** The corner whose rook right i refers to: king side then queen side, white then black. */
  function Corner(i: int): Position
    requires 0 <= i < 4
  {
    [Pos(1, 8), Pos(1, 1), Pos(8, 8), Pos(8, 1)][i]
  }

  /**
   * moveMade never restores a right; a king's move clears both rights of its colour and keeps the
   * other colour's; a rook's move clears exactly the right of the corner it left; any other move
   * keeps every right.
   */
  lemma CastlingAfterRights(rights: seq<bool>, m: Move, h: Grid)
    requires |rights| == 4 && At(h, m.end).Some?
    ensures forall i | 0 <= i < 4 :: CastlingAfter(rights, m, h)[i] ==> rights[i]
    ensures var p := At(h, m.end).value;
      p.kind == King ==> forall i | 0 <= i < 4 ::
        CastlingAfter(rights, m, h)[i] == (rights[i] && RightsOffset(p.color) != i && RightsOffset(p.color) + 1 != i)
    ensures At(h, m.end).value.kind == Rook ==>
      forall i | 0 <= i < 4 :: CastlingAfter(rights, m, h)[i] == (rights[i] && m.start != Corner(i))
    ensures At(h, m.end).value.kind !in {King, Rook} ==> CastlingAfter(rights, m, h) == rights
  {
  }

  /**
   * CastlingRules.setBoard: a colour keeps a right when its king stands on column 5 of its home
   * row and a rook stands on that side's corner.
   */
  function CastlingFromBoard(g: Grid): (rights: seq<bool>)
    ensures |rights| == 4
  {
    [HasRight(At(g, Pos(1, 5)), At(g, Pos(1, 8))), HasRight(At(g, Pos(1, 5)), At(g, Pos(1, 1))),
     HasRight(At(g, Pos(8, 5)), At(g, Pos(8, 8))), HasRight(At(g, Pos(8, 5)), At(g, Pos(8, 1)))]
  }

  /** A right survives setBoard when a king stands on the king's square and a rook on the corner. */
  predicate HasRight(king: Square, rook: Square)
  {
    king.Some? && king.value.kind == King && rook.Some? && rook.value.kind == Rook
  }

  /**
   * After setBoard, right i is held exactly when a king stands on column 5 of the corner's row
   * and a rook on the corner; the colours of the two pieces are not looked at.
   */
  lemma CastlingFromBoardExact(g: Grid, i: int)
    requires 0 <= i < 4
    ensures CastlingFromBoard(g)[i] <==>
      At(g, Pos(Corner(i).row, 5)).Some? && At(g, Pos(Corner(i).row, 5)).value.kind == King &&
      At(g, Corner(i)).Some? && At(g, Corner(i)).value.kind == Rook
  {
  }

  /** EnPassantRules.moveMade: the end square becomes the target after a pawn moves two rows; otherwise there is none. */
  function EpAfter(m: Move, h: Grid): Option<Position>
    requires At(h, m.end).Some?
  {
    if At(h, m.end).value.kind == Pawn && Abs(m.start.row - m.end.row) == 2 then Some(m.end) else None
  }

  // ---- ChessGame.makeMove on game values ----

  /**
   * The state of a ChessGame: the board, the side to move, whether the game is still being
   * played, the four castling rights and the en passant target.
   */
  datatype GameState = GameState(board: Grid, turn: TeamColor, active: bool, rights: seq<bool>, ep: Option<Position>)

  /** What every reachable game satisfies: four rights, no pawn on its last row, a target on row 4 or 5. */
  ghost predicate Wf(s: GameState)
  {
    |s.rights| == 4 && PawnsInRange(s.board) && EpOk(s.ep)
  }

  /** The ChessGame constructor: the standard position, white to move, active, every right held, no target. */
  function NewGame(): GameState
  {
    GameState(StartGrid(), White, true, [true, true, true, true], None)
  }

  lemma NewGameWf()
    ensures Wf(NewGame())
  {
    forall p: Position | At(StartGrid(), p).Some?
      ensures CanMove(StartGrid(), p)
    {
    }
  }

  /** Why makeMove refuses a move. */
  datatype MoveError = NoPieceAtStart | WrongColor | NotValid

  /**
   * makeMove: refuse an empty start square, a piece of the side not to move, or a move validMoves
   * does not return; otherwise perform it, let castling and en passant see it, and pass the turn.
   */
  ghost function Play(s: GameState, m: Move): Result<GameState, MoveError>
    requires Wf(s)
  {
    var piece := At(s.board, m.start);
    if piece.None? then Err(NoPieceAtStart)
    else if piece.value.color != s.turn then Err(WrongColor)
    else if m !in LegalMoves(s.board, m.start, s.rights, s.ep).value then Err(NotValid)
    else
      LegalMovesSound(s.board, m.start, s.rights, s.ep, m);
      var h := Perform(s.board, m, s.ep).value;
      PerformLanding(s.board, m, s.ep);
      Ok(GameState(h, Opposite(s.turn), s.active, CastlingAfter(s.rights, m, h), EpAfter(m, h)))
  }

  /**
   * A move makeMove accepts was returned by validMoves for its start square; the board becomes
   * the result of performing it, the side that moved is not in check, and the turn passes.
   */
  lemma PlayAccepted(s: GameState, m: Move)
    requires Wf(s) && Play(s, m).Ok?
    ensures At(s.board, m.start).Some? && At(s.board, m.start).value.color == s.turn
    ensures m in LegalMoves(s.board, m.start, s.rights, s.ep).value
    ensures var t := Play(s, m).value;
      Some(t.board) == Perform(s.board, m, s.ep) && PawnsInRange(t.board) && !InCheck(t.board, s.turn) &&
      t.turn == Opposite(s.turn) && t.active == s.active
  {
    LegalMovesSound(s.board, m.start, s.rights, s.ep, m);
  }

  /**
   * A pawn's candidate move that crosses two rows is its double step from the start row, so it
   * lands on row 4 or row 5: castling moves only kings, and an en passant capture goes one row.
   */
  lemma DoubleStepLands(g: Grid, at: Position, rights: seq<bool>, ep: Option<Position>, m: Move)
    requires PawnsInRange(g) && |rights| == 4 && EpOk(ep) && At(g, at).Some? && At(g, at).value.kind == Pawn
    requires m in Candidates(g, at, rights, ep) && m.start == at && Abs(m.start.row - m.end.row) == 2
    ensures m.end.row == 4 || m.end.row == 5
  {
    if m in PieceMoves(g, at) {
      assert CanMove(g, at);
      PawnMovesExact(g, at, m);
    } else if m in CastlingMoves(g, at, rights, ep) {
      CastlingMovesShape(g, at, rights, ep, m);
    } else {
      EnPassantMovesExact(g, at, ep, m);
    }
  }

  /** A game stays well formed: no pawn reaches its last row unpromoted, and a target is on row 4 or 5. */
  lemma PlayWf(s: GameState, m: Move)
    requires Wf(s) && Play(s, m).Ok?
    ensures Wf(Play(s, m).value)
  {
    var g := s.board;
    LegalMovesSound(g, m.start, s.rights, s.ep, m);
    var h := Perform(g, m, s.ep).value;
    PerformLanding(g, m, s.ep);
    if At(h, m.end).value.kind == Pawn && Abs(m.start.row - m.end.row) == 2 {
      DoubleStepLands(g, m.start, s.rights, s.ep, m);
    }
  }

  /** noValidMovesExist: no piece of the colour has a valid move. */
  ghost predicate NoLegalMoves(s: GameState, c: TeamColor)
    requires Wf(s)
  {
    forall p: Position :: At(s.board, p).Some? && At(s.board, p).value.color == c ==>
      LegalMoves(s.board, p, s.rights, s.ep).value == {}
  }

  /** No piece of the colour before square (i, j), in row-major order, has a valid move. */
  ghost predicate NoLegalMovesBefore(s: GameState, c: TeamColor, i: int, j: int)
    requires Wf(s)
  {
    forall p: Position ::
      (p.row < i || (p.row == i && p.col < j)) && At(s.board, p).Some? && At(s.board, p).value.color == c ==>
        LegalMoves(s.board, p, s.rights, s.ep).value == {}
  }

  lemma NoLegalMovesNextSquare(s: GameState, c: TeamColor, p: Position)
    requires Wf(s) && NoLegalMovesBefore(s, c, p.row, p.col)
    requires At(s.board, p).Some? && At(s.board, p).value.color == c ==> LegalMoves(s.board, p, s.rights, s.ep).value == {}
    ensures NoLegalMovesBefore(s, c, p.row, p.col + 1)
  {
    forall q: Position | q.row == p.row && q.col == p.col
      ensures q == p
    {
    }
  }

  lemma NoLegalMovesNextRow(s: GameState, c: TeamColor, i: int)
    requires Wf(s) && NoLegalMovesBefore(s, c, i, 9)
    ensures NoLegalMovesBefore(s, c, i + 1, 1)
  {
  }

  /** isInCheckmate: in check with no valid move. */
  ghost predicate Checkmate(s: GameState, c: TeamColor)
    requires Wf(s)
  {
    InCheck(s.board, c) && NoLegalMoves(s, c)
  }

  /** isInStalemate: not in check, with no valid move. */
  ghost predicate Stalemate(s: GameState, c: TeamColor)
    requires Wf(s)
  {
    !InCheck(s.board, c) && NoLegalMoves(s, c)
  }

  /**
   * Checkmate and stalemate exclude each other, and either one leaves the side to move no move
   * makeMove accepts.
   */
  lemma GameOverBlocksMoves(s: GameState, m: Move)
    requires Wf(s)
    ensures !(Checkmate(s, s.turn) && Stalemate(s, s.turn))
    ensures Checkmate(s, s.turn) || Stalemate(s, s.turn) ==> Play(s, m).Err?
  {
    if (Checkmate(s, s.turn) || Stalemate(s, s.turn)) && Play(s, m).Ok? {
      PlayAccepted(s, m);
    }
  }
}
