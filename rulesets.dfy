/**
 * The move rulesets: which squares each kind of piece can reach from a square, before the rule
 * that a move must not leave the mover's king in check.  Every ruleset reads the colour of the
 * mover from the piece standing on the start square.
 */
module Rulesets {
  import opened Util
  import opened Positions
  import opened Pieces
  import opened Boards

  /** ChessMove: start and end squares, and the piece a pawn is promoted to (None when not a promotion). */
  datatype Move = Move(start: Position, end: Position, promotion: Option<PieceType>)

  /** The colour of the piece on a square that holds one. */
  function ColorAt(g: Grid, p: Position): TeamColor
    requires At(g, p).Some?
  {
    At(g, p).value.color
  }

  /** A square the piece on `from` may end on: empty, or holding a piece of the other colour. */
  predicate Open(g: Grid, from: Position, to: Position)
    requires At(g, from).Some?
  {
    At(g, to).None? || At(g, to).value.color != ColorAt(g, from)
  }

  /** A square holding a piece of the other colour than the piece on `from`. */
  predicate Enemy(g: Grid, from: Position, to: Position)
    requires At(g, from).Some?
  {
    At(g, to).Some? && At(g, to).value.color != ColorAt(g, from)
  }

  // ---- Sliding pieces (LineMoveRuleset) ----

  /** The eight directions a line of squares can take. */
  predicate IsDirection(dr: int, dc: int)
  {
    -1 <= dr <= 1 && -1 <= dc <= 1 && (dr != 0 || dc != 0)
  }

  /** k times a direction component, kept linear. */
  function Scale(k: int, d: int): int
    requires -1 <= d <= 1
  {
    if d == 1 then k else if d == -1 then -k else 0
  }

  /** The square (possibly off the board) k steps from `from` in direction (dr, dc). */
  function StepPos(from: Position, dr: int, dc: int, k: int): Pos
    requires IsDirection(dr, dc)
  {
    Pos(from.row + Scale(k, dr), from.col + Scale(k, dc))
  }

  predicate OnBoardPos(p: Pos)
  {
    OnBoard(p.row, p.col)
  }

  /** Steps k .. j-1 of the line are on the board and empty. */
  predicate Clear(g: Grid, from: Position, dr: int, dc: int, k: int, j: int)
    requires IsDirection(dr, dc)
  {
    forall i | k <= i < j :: OnBoardPos(StepPos(from, dr, dc, i)) && At(g, StepPos(from, dr, dc, i)).None?
  }

  /** Step j of the line is on the board and the piece on `from` may end there. */
  predicate OpenAt(g: Grid, from: Position, dr: int, dc: int, j: int)
    requires IsDirection(dr, dc) && At(g, from).Some?
  {
    OnBoardPos(StepPos(from, dr, dc, j)) && Open(g, from, StepPos(from, dr, dc, j))
  }

  /** The moves along one line, from step k on: empty squares, then the first occupied square if it holds an enemy. */
  function RayFrom(g: Grid, from: Position, dr: int, dc: int, k: nat): set<Move>
    requires At(g, from).Some? && IsDirection(dr, dc) && 1 <= k
    decreases 8 - k
  {
    var p := StepPos(from, dr, dc, k);
    if !OnBoardPos(p) then {}
    else if At(g, p).None? then {Move(from, p, None)} + RayFrom(g, from, dr, dc, k + 1)
    else if Enemy(g, from, p) then {Move(from, p, None)}
    else {}
  }

  /** lineMove: the moves of a sliding piece in one direction. */
  function Ray(g: Grid, from: Position, dr: int, dc: int): set<Move>
    requires At(g, from).Some? && IsDirection(dr, dc)
  {
    RayFrom(g, from, dr, dc, 1)
  }

  /** Every move of a line stops at some step j of at most 7, all steps before it empty. */
  lemma {:induction false} RayFromSound(g: Grid, from: Position, dr: int, dc: int, k: nat, m: Move)
    requires At(g, from).Some? && IsDirection(dr, dc) && 1 <= k
    requires m in RayFrom(g, from, dr, dc, k)
    ensures m.start == from && m.promotion.None?
    ensures exists j | k <= j <= 7 :: Clear(g, from, dr, dc, k, j) && OpenAt(g, from, dr, dc, j) && m.end == StepPos(from, dr, dc, j)
    decreases 8 - k
  {
    var p := StepPos(from, dr, dc, k);
    assert OnBoardPos(p);
    if m == Move(from, p, None) {
      assert Clear(g, from, dr, dc, k, k);
      assert OpenAt(g, from, dr, dc, k);
    } else {
      assert At(g, p).None? && m in RayFrom(g, from, dr, dc, k + 1);
      RayFromSound(g, from, dr, dc, k + 1, m);
      var j :| k + 1 <= j <= 7 && Clear(g, from, dr, dc, k + 1, j) && OpenAt(g, from, dr, dc, j)
               && m.end == StepPos(from, dr, dc, j);
      ClearExtend(g, from, dr, dc, k, j);
    }
  }

  lemma ClearExtend(g: Grid, from: Position, dr: int, dc: int, k: int, j: int)
    requires IsDirection(dr, dc) && k < j && Clear(g, from, dr, dc, k + 1, j)
    requires OnBoardPos(StepPos(from, dr, dc, k)) && At(g, StepPos(from, dr, dc, k)).None?
    ensures Clear(g, from, dr, dc, k, j)
  {
  }

  /** Conversely, a reachable step j of the line is a move. */
  lemma {:induction false} RayFromComplete(g: Grid, from: Position, dr: int, dc: int, k: nat, j: int)
    requires At(g, from).Some? && IsDirection(dr, dc) && 1 <= k <= j
    requires Clear(g, from, dr, dc, k, j) && OpenAt(g, from, dr, dc, j)
    ensures Move(from, StepPos(from, dr, dc, j), None) in RayFrom(g, from, dr, dc, k)
    decreases j - k
  {
    if k < j {
      assert OnBoardPos(StepPos(from, dr, dc, k)) && At(g, StepPos(from, dr, dc, k)).None?;
      RayFromComplete(g, from, dr, dc, k + 1, j);
    }
  }

  /** The moves of a line are exactly the reachable steps: on the board, every earlier step empty, not onto a friendly piece. */
  lemma RayExact(g: Grid, from: Position, dr: int, dc: int, m: Move)
    requires At(g, from).Some? && IsDirection(dr, dc)
    ensures m in Ray(g, from, dr, dc) <==>
      m.start == from && m.promotion.None? &&
      exists j | 1 <= j <= 7 :: Clear(g, from, dr, dc, 1, j) && OpenAt(g, from, dr, dc, j) && m.end == StepPos(from, dr, dc, j)
  {
    if m in Ray(g, from, dr, dc) {
      RayFromSound(g, from, dr, dc, 1, m);
    }
    if m.start == from && m.promotion.None? &&
       exists j | 1 <= j <= 7 :: Clear(g, from, dr, dc, 1, j) && OpenAt(g, from, dr, dc, j) && m.end == StepPos(from, dr, dc, j) {
      var j :| 1 <= j <= 7 && Clear(g, from, dr, dc, 1, j) && OpenAt(g, from, dr, dc, j) && m.end == StepPos(from, dr, dc, j);
      RayFromComplete(g, from, dr, dc, 1, j);
    }
  }

  /** lineMove's loop invariant: `moves` plus the rest of the line from the current step k is the whole line. */
  ghost predicate LineInv(g: Grid, from: Position, dr: int, dc: int, k: int, cur: Position, moves: set<Move>)
  {
    At(g, from).Some? && IsDirection(dr, dc) && 1 <= k <= 7 && cur == StepPos(from, dr, dc, k)
    && moves + RayFrom(g, from, dr, dc, k) == Ray(g, from, dr, dc)
  }

  /** Where lineMove's loop starts: the first step of the line, or no moves at all when it is off the board. */
  lemma LineStart(g: Grid, from: Position, dr: int, dc: int)
    requires At(g, from).Some? && IsDirection(dr, dc)
    ensures !OnBoard(from.row + dr, from.col + dc) ==> Ray(g, from, dr, dc) == {}
    ensures OnBoard(from.row + dr, from.col + dc) ==> LineInv(g, from, dr, dc, 1, Pos(from.row + dr, from.col + dc), {})
  {
  }

  lemma LineEmpty(g: Grid, from: Position, dr: int, dc: int, k: int, cur: Position, moves: set<Move>)
    requires LineInv(g, from, dr, dc, k, cur, moves) && At(g, cur).None?
    ensures var moves' := moves + {Move(from, cur, None)};
      if OnBoard(cur.row + dr, cur.col + dc) then LineInv(g, from, dr, dc, k + 1, Pos(cur.row + dr, cur.col + dc), moves')
      else moves' == Ray(g, from, dr, dc)
  {
    RayFromStep(g, from, dr, dc, k);
  }

  lemma LineBlocked(g: Grid, from: Position, dr: int, dc: int, k: int, cur: Position, moves: set<Move>)
    requires LineInv(g, from, dr, dc, k, cur, moves) && At(g, cur).Some?
    ensures (if Enemy(g, from, cur) then moves + {Move(from, cur, None)} else moves) == Ray(g, from, dr, dc)
  {
    RayFromStep(g, from, dr, dc, k);
  }

  /**
   * lineMove as the source runs it: step from square to square, collecting empty squares, until
   * the edge of the board or an occupied square, which is collected when it holds an enemy.
   */
  method LineMove(board: Board, from: Position, vertical: int, horizontal: int) returns (moves: set<Move>)
    requires board.Valid() && board.GetPiece(from).Some? && IsDirection(vertical, horizontal)
    ensures moves == Ray(board.Contents(), from, vertical, horizontal)
  {
    ghost var g := board.Contents();
    LineStart(g, from, vertical, horizontal);
    moves := {};
    var first := MakePosition(from.row + vertical, from.col + horizontal);
    if first.None? {
      return;
    }
    var newPos := first.value;
    ghost var k := 1;
    while true
      invariant LineInv(g, from, vertical, horizontal, k, newPos, moves)
      decreases 8 - k
    {
      var piece := board.GetPiece(newPos);
      if piece.None? {
        LineEmpty(g, from, vertical, horizontal, k, newPos, moves);
        moves := moves + {Move(from, newPos, None)};
      } else {
        LineBlocked(g, from, vertical, horizontal, k, newPos, moves);
        if piece.value.color != board.GetPiece(from).value.color {
          moves := moves + {Move(from, newPos, None)};
        }
        break;
      }
      var next := MakePosition(newPos.row + vertical, newPos.col + horizontal);
      if next.None? {
        break;
      }
      newPos, k := next.value, k + 1;
    }
  }

  /** One step of a line, as lineMove's loop takes it. */
  lemma RayFromStep(g: Grid, from: Position, dr: int, dc: int, k: nat)
    requires At(g, from).Some? && IsDirection(dr, dc) && 1 <= k
    requires OnBoardPos(StepPos(from, dr, dc, k))
    ensures StepPos(from, dr, dc, k + 1) == Pos(StepPos(from, dr, dc, k).row + dr, StepPos(from, dr, dc, k).col + dc)
    ensures var p := StepPos(from, dr, dc, k);
      RayFrom(g, from, dr, dc, k) ==
        if At(g, p).None? then {Move(from, p, None)} + RayFrom(g, from, dr, dc, k + 1)
        else if Enemy(g, from, p) then {Move(from, p, None)} else {}
  {
  }

  // ---- Rook, bishop and queen: unions of lines ----

  /** RookRuleset: the four lines along the row and the column. */
  function RookMoves(g: Grid, from: Position): set<Move>
    requires At(g, from).Some?
  {
    Ray(g, from, 1, 0) + Ray(g, from, 0, 1) + Ray(g, from, -1, 0) + Ray(g, from, 0, -1)
  }

  /** BishopRuleset: the four diagonal lines. */
  function BishopMoves(g: Grid, from: Position): set<Move>
    requires At(g, from).Some?
  {
    Ray(g, from, 1, 1) + Ray(g, from, 1, -1) + Ray(g, from, -1, 1) + Ray(g, from, -1, -1)
  }

  /** QueenRuleset (both copies in the source): the bishop's moves together with the rook's. */
  function QueenMoves(g: Grid, from: Position): set<Move>
    requires At(g, from).Some?
  {
    BishopMoves(g, from) + RookMoves(g, from)
  }

  /** A move along a line of direction (dr, dc) that Ray produces. */
  predicate LineMoveTo(g: Grid, from: Position, dr: int, dc: int, m: Move)
    requires At(g, from).Some? && IsDirection(dr, dc)
  {
    m.start == from && m.promotion.None? &&
    exists j | 1 <= j <= 7 :: Clear(g, from, dr, dc, 1, j) && OpenAt(g, from, dr, dc, j) && m.end == StepPos(from, dr, dc, j)
  }

  /** A rook move stays on its row or its column, leaves its square and does not land on a friendly piece. */
  lemma RookMovesShape(g: Grid, from: Position, m: Move)
    requires At(g, from).Some?
    ensures m in RookMoves(g, from) <==>
      LineMoveTo(g, from, 1, 0, m) || LineMoveTo(g, from, 0, 1, m) || LineMoveTo(g, from, -1, 0, m) || LineMoveTo(g, from, 0, -1, m)
    ensures m in RookMoves(g, from) ==>
      m.start == from && m.end != from && (m.end.row == from.row || m.end.col == from.col) && Open(g, from, m.end)
  {
    RayExact(g, from, 1, 0, m);
    RayExact(g, from, 0, 1, m);
    RayExact(g, from, -1, 0, m);
    RayExact(g, from, 0, -1, m);
  }

  /** A bishop move stays on a diagonal, leaves its square and does not land on a friendly piece. */
  lemma BishopMovesShape(g: Grid, from: Position, m: Move)
    requires At(g, from).Some?
    ensures m in BishopMoves(g, from) <==>
      LineMoveTo(g, from, 1, 1, m) || LineMoveTo(g, from, 1, -1, m) || LineMoveTo(g, from, -1, 1, m) || LineMoveTo(g, from, -1, -1, m)
    ensures m in BishopMoves(g, from) ==>
      m.start == from && m.end != from && Abs(m.end.row - from.row) == Abs(m.end.col - from.col) && Open(g, from, m.end)
  {
    RayExact(g, from, 1, 1, m);
    RayExact(g, from, 1, -1, m);
    RayExact(g, from, -1, 1, m);
    RayExact(g, from, -1, -1, m);
  }

  /**
   * Two different lines from the same square never share a move.  BishopRuleset collects its four
   * lines in a list, so the list holds no move twice.
   */
  lemma RaysDisjoint(g: Grid, from: Position, dr: int, dc: int, dr': int, dc': int, m: Move)
    requires At(g, from).Some? && IsDirection(dr, dc) && IsDirection(dr', dc')
    requires m in Ray(g, from, dr, dc) && m in Ray(g, from, dr', dc')
    ensures dr == dr' && dc == dc'
  {
    RayExact(g, from, dr, dc, m);
    RayExact(g, from, dr', dc', m);
    var j :| 1 <= j <= 7 && Clear(g, from, dr, dc, 1, j) && OpenAt(g, from, dr, dc, j) && m.end == StepPos(from, dr, dc, j);
    var j' :| 1 <= j' <= 7 && Clear(g, from, dr', dc', 1, j') && OpenAt(g, from, dr', dc', j') && m.end == StepPos(from, dr', dc', j');
  }

  /** A queen move is a rook move or a bishop move, along one of the eight lines. */
  lemma QueenMovesShape(g: Grid, from: Position, m: Move)
    requires At(g, from).Some?
    ensures m in QueenMoves(g, from) <==>
      exists dr, dc | IsDirection(dr, dc) :: LineMoveTo(g, from, dr, dc, m)
  {
    RookMovesShape(g, from, m);
    BishopMovesShape(g, from, m);
    if exists dr, dc | IsDirection(dr, dc) :: LineMoveTo(g, from, dr, dc, m) {
      var dr, dc :| IsDirection(dr, dc) && LineMoveTo(g, from, dr, dc, m);
      assert (dr, dc) in {(1, 0), (0, 1), (-1, 0), (0, -1), (1, 1), (1, -1), (-1, 1), (-1, -1)};
    }
  }

  // ---- King and knight: fixed offsets ----

  datatype Offset = Offset(dr: int, dc: int)

  /** The square at an offset from `from`, if it is on the board. */
  function Shift(from: Position, o: Offset): Option<Position>
  {
    MakePosition(from.row + o.dr, from.col + o.dc)
  }

  /** The moves to the offsets `offs`, in order, that stay on the board and are open to the piece on `from`. */
  function Targets(g: Grid, from: Position, offs: seq<Offset>): set<Move>
    requires At(g, from).Some?
  {
    if offs == [] then {}
    else
      var last := Shift(from, offs[|offs| - 1]);
      Targets(g, from, offs[..|offs| - 1]) +
        if last.Some? && Open(g, from, last.value) then {Move(from, last.value, None)} else {}
  }

  /** The moves to the offsets `offs` that stay on the board, whatever stands there. */
  function Reach(from: Position, offs: seq<Offset>): set<Move>
  {
    if offs == [] then {}
    else
      var last := Shift(from, offs[|offs| - 1]);
      Reach(from, offs[..|offs| - 1]) + if last.Some? then {Move(from, last.value, None)} else {}
  }

  lemma {:induction false} TargetsExact(g: Grid, from: Position, offs: seq<Offset>, m: Move)
    requires At(g, from).Some?
    ensures m in Targets(g, from, offs) <==>
      m.start == from && m.promotion.None? && Open(g, from, m.end) &&
      Offset(m.end.row - from.row, m.end.col - from.col) in offs
  {
    if offs != [] {
      var init := offs[..|offs| - 1];
      TargetsExact(g, from, init, m);
      assert offs == init + [offs[|offs| - 1]];
    }
  }

  /** Filtering the reachable squares by openness gives the targets: knightMoves' removal pass. */
  lemma {:induction false} TargetsFilterReach(g: Grid, from: Position, offs: seq<Offset>)
    requires At(g, from).Some?
    ensures Targets(g, from, offs) == set m | m in Reach(from, offs) && Open(g, from, m.end)
  {
    if offs != [] {
      TargetsFilterReach(g, from, offs[..|offs| - 1]);
    }
  }

  /** The nine offsets of KingRuleset's two loops, in loop order (n = 3 * (i + 1) + (j + 1)). */
  function KingOffsets(): (offs: seq<Offset>)
    ensures |offs| == 9
  {
    seq(9, n => Offset(n / 3 - 1, n % 3 - 1))
  }

  /** KingRuleset. */
  function KingMoves(g: Grid, from: Position): set<Move>
    requires At(g, from).Some?
  {
    Targets(g, from, KingOffsets())
  }

  /** A king move goes one square in any direction onto a square that is empty or holds an enemy. */
  lemma KingMovesExact(g: Grid, from: Position, m: Move)
    requires At(g, from).Some?
    ensures m in KingMoves(g, from) <==>
      m.start == from && m.promotion.None? && Open(g, from, m.end) &&
      Abs(m.end.row - from.row) <= 1 && Abs(m.end.col - from.col) <= 1
    ensures m in KingMoves(g, from) ==> m.end != from
  {
    TargetsExact(g, from, KingOffsets(), m);
    var dr, dc := m.end.row - from.row, m.end.col - from.col;
    if Abs(dr) <= 1 && Abs(dc) <= 1 {
      assert KingOffsets()[3 * (dr + 1) + (dc + 1)] == Offset(dr, dc);
    }
    if Offset(dr, dc) in KingOffsets() {
      var n :| 0 <= n < 9 && KingOffsets()[n] == Offset(dr, dc);
    }
  }

  /** The eight offsets of KnightRuleset's loops, in loop order: (2i, j) then (i, 2j) for i, j in {-1, 1}. */
  function KnightOffsets(): seq<Offset>
  {
    [Offset(-2, -1), Offset(-1, -2), Offset(-2, 1), Offset(-1, 2),
     Offset(2, -1), Offset(1, -2), Offset(2, 1), Offset(1, 2)]
  }

  /** KnightRuleset. */
  function KnightMoves(g: Grid, from: Position): set<Move>
    requires At(g, from).Some?
  {
    Targets(g, from, KnightOffsets())
  }

  /** A knight move goes two squares one way and one square the other, onto an empty or enemy square. */
  lemma KnightMovesExact(g: Grid, from: Position, m: Move)
    requires At(g, from).Some?
    ensures m in KnightMoves(g, from) <==>
      m.start == from && m.promotion.None? && Open(g, from, m.end) &&
      Abs(m.end.row - from.row) <= 2 && Abs(m.end.col - from.col) <= 2 &&
      Abs(m.end.row - from.row) + Abs(m.end.col - from.col) == 3
  {
    TargetsExact(g, from, KnightOffsets(), m);
  }

  /** The target sets of both pieces are small: at most one move per offset. */
  lemma {:induction false} TargetsSize(g: Grid, from: Position, offs: seq<Offset>)
    requires At(g, from).Some?
    ensures |Targets(g, from, offs)| <= |offs|
  {
    if offs != [] {
      TargetsSize(g, from, offs[..|offs| - 1]);
    }
  }

  /** KingRuleset returns at most eight moves: the (0, 0) offset of its loops never leads anywhere. */
  lemma KingMovesAtMost8(g: Grid, from: Position)
    requires At(g, from).Some?
    ensures |KingMoves(g, from)| <= 8
  {
    var offs := KingOffsets();
    var ring := offs[..4] + offs[5..];
    forall m: Move
      ensures m in KingMoves(g, from) <==> m in Targets(g, from, ring)
    {
      TargetsExact(g, from, offs, m);
      TargetsExact(g, from, ring, m);
      var o := Offset(m.end.row - from.row, m.end.col - from.col);
      if m in KingMoves(g, from) {
        assert m.end != from;
        var n :| 0 <= n < 9 && offs[n] == o;
        if n < 4 {
          assert ring[n] == o;
        } else {
          assert ring[n - 1] == o;
        }
      }
      if o in ring {
        var n :| 0 <= n < 8 && ring[n] == o;
        assert o == offs[if n < 4 then n else n + 1];
      }
    }
    assert KingMoves(g, from) == Targets(g, from, ring);
    assert |ring| == 8;
    TargetsSize(g, from, ring);
  }

  /** KnightRuleset returns at most eight moves, one per offset. */
  lemma KnightMovesAtMost8(g: Grid, from: Position)
    requires At(g, from).Some?
    ensures |KnightMoves(g, from)| <= 8
  {
    TargetsSize(g, from, KnightOffsets());
  }

  /** One offset's contribution to Targets. */
  function AddTarget(g: Grid, from: Position, o: Offset, moves: set<Move>): set<Move>
    requires At(g, from).Some?
  {
    var to := Shift(from, o);
    moves + if to.Some? && Open(g, from, to.value) then {Move(from, to.value, None)} else {}
  }

  /** One offset's contribution to Reach. */
  function AddReach(from: Position, o: Offset, moves: set<Move>): set<Move>
  {
    var to := Shift(from, o);
    moves + if to.Some? then {Move(from, to.value, None)} else {}
  }

  lemma TargetsSnoc(g: Grid, from: Position, offs: seq<Offset>, n: nat)
    requires At(g, from).Some? && n < |offs|
    ensures Targets(g, from, offs[..n + 1]) == AddTarget(g, from, offs[n], Targets(g, from, offs[..n]))
  {
    assert offs[..n + 1][..n] == offs[..n];
  }

  lemma ReachSnoc(from: Position, offs: seq<Offset>, n: nat)
    requires n < |offs|
    ensures Reach(from, offs[..n + 1]) == AddReach(from, offs[n], Reach(from, offs[..n]))
  {
    assert offs[..n + 1][..n] == offs[..n];
  }

  /** Loop invariant of KingRuleset: the moves of the first n offsets have been collected. */
  ghost predicate KingInv(g: Grid, from: Position, n: int, moves: set<Move>)
    requires At(g, from).Some?
  {
    0 <= n <= 9 && moves == Targets(g, from, KingOffsets()[..n])
  }

  /** The (i, j) iteration of KingRuleset's loops handles the offset at index n = 3 * (i + 1) + (j + 1). */
  lemma KingStep(g: Grid, from: Position, i: int, j: int, n: int, moves: set<Move>)
    requires At(g, from).Some? && -1 <= i <= 1 && -1 <= j <= 1 && n == 3 * (i + 1) + (j + 1)
    requires KingInv(g, from, n, moves)
    ensures KingInv(g, from, n + 1, AddTarget(g, from, Offset(i, j), moves))
  {
    assert KingOffsets()[n] == Offset(i, j);
    TargetsSnoc(g, from, KingOffsets(), n);
  }

  /** The body of KingRuleset's inner loop: add the move to (row + i, col + j) when it is on the board and open. */
  method KingSquareMove(board: Board, from: Position, i: int, j: int, moves: set<Move>) returns (moves': set<Move>)
    requires board.Valid() && board.GetPiece(from).Some?
    ensures moves' == AddTarget(board.Contents(), from, Offset(i, j), moves)
  {
    moves' := moves;
    var newRow := from.row + i;
    var newCol := from.col + j;
    if newRow >= 1 && newRow <= 8 && newCol >= 1 && newCol <= 8 {
      var pos := Pos(newRow, newCol);
      var posPiece := board.GetPiece(pos);
      if posPiece.None? || posPiece.value.color != board.GetPiece(from).value.color {
        moves' := moves' + {Move(from, pos, None)};
      }
    }
  }

  /** KingRuleset as the source runs it: two nested loops over the row and column offsets -1..1. */
  method KingRulesetMoves(board: Board, from: Position) returns (moves: set<Move>)
    requires board.Valid() && board.GetPiece(from).Some?
    ensures moves == KingMoves(board.Contents(), from)
  {
    ghost var g := board.Contents();
    moves := {};
    var i := -1;
    ghost var n := 0;
    while i <= 1
      invariant -1 <= i <= 2 && n == 3 * (i + 1)
      invariant KingInv(g, from, n, moves)
    {
      var j := -1;
      while j <= 1
        invariant -1 <= j <= 2 && n == 3 * (i + 1) + (j + 1)
        invariant KingInv(g, from, n, moves)
      {
        KingStep(g, from, i, j, n, moves);
        moves := KingSquareMove(board, from, i, j, moves);
        j, n := j + 1, n + 1;
      }
      i := i + 1;
    }
    assert KingOffsets()[..9] == KingOffsets();
  }

  /** Loop invariant of KnightRuleset's first loops: the on-board moves of the first n offsets are collected. */
  ghost predicate KnightInv(from: Position, n: int, moves: set<Move>)
  {
    0 <= n <= 8 && moves == Reach(from, KnightOffsets()[..n])
  }

  /** The (i, j) iteration of KnightRuleset's first loops handles the offsets at n and n + 1. */
  lemma KnightStep(from: Position, i: int, j: int, n: nat, moves: set<Move>)
    requires (i == -1 || i == 1) && (j == -1 || j == 1) && n == 2 * (i + 1) + (j + 1)
    requires KnightInv(from, n, moves)
    ensures KnightInv(from, n + 2, AddReach(from, Offset(i, 2 * j), AddReach(from, Offset(2 * i, j), moves)))
  {
    assert KnightOffsets()[n] == Offset(2 * i, j) && KnightOffsets()[n + 1] == Offset(i, 2 * j);
    ReachSnoc(from, KnightOffsets(), n);
    ReachSnoc(from, KnightOffsets(), n + 1);
  }

  /** Loop invariant of KnightRuleset's removal pass: the moves still to look at, and the open ones already seen, remain. */
  ghost predicate PruneInv(g: Grid, from: Position, all: set<Move>, rest: set<Move>, moves: set<Move>)
    requires At(g, from).Some?
  {
    rest <= all && moves <= all &&
    forall m | m in all :: m in moves <==> m in rest || Open(g, from, m.end)
  }

  /** Looking at move m of the removal pass: it is dropped exactly when it lands on a friendly piece. */
  lemma PruneStep(g: Grid, from: Position, all: set<Move>, rest: set<Move>, moves: set<Move>, m: Move, drop: bool)
    requires At(g, from).Some? && PruneInv(g, from, all, rest, moves) && m in rest
    requires drop <==> !Open(g, from, m.end)
    ensures PruneInv(g, from, all, rest - {m}, if drop then moves - {m} else moves)
  {
  }

  lemma PruneDone(g: Grid, from: Position, all: set<Move>, moves: set<Move>)
    requires At(g, from).Some? && PruneInv(g, from, all, {}, moves)
    ensures moves == set m | m in all && Open(g, from, m.end)
  {
  }

  /** One square of KnightRuleset's first pass: the move is kept whenever the square is on the board. */
  method KnightSquareMove(from: Position, dr: int, dc: int, moves: set<Move>) returns (moves': set<Move>)
    ensures moves' == AddReach(from, Offset(dr, dc), moves)
  {
    moves' := moves;
    if from.row + dr >= 1 && from.row + dr <= 8 && from.col + dc >= 1 && from.col + dc <= 8 {
      moves' := moves' + {Move(from, Pos(from.row + dr, from.col + dc), None)};
    }
  }

  /**
   * The first pass of KnightRuleset: every on-board square two rows and one column away, or one row
   * and two columns away, whatever stands on it.
   */
  method KnightReach(from: Position) returns (moves: set<Move>)
    ensures moves == Reach(from, KnightOffsets())
  {
    moves := {};
    var i := -1;
    ghost var n := 0;
    while i <= 1
      invariant (i == -1 || i == 1 || i == 3) && n == 2 * (i + 1)
      invariant KnightInv(from, n, moves)
    {
      var j := -1;
      while j <= 1
        invariant (j == -1 || j == 1 || j == 3) && n == 2 * (i + 1) + (j + 1)
        invariant KnightInv(from, n, moves)
      {
        KnightStep(from, i, j, n, moves);
        moves := KnightSquareMove(from, i * 2, j, moves);
        moves := KnightSquareMove(from, i, j * 2, moves);
        j, n := j + 2, n + 2;
      }
      i := i + 2;
    }
    assert KnightOffsets()[..8] == KnightOffsets();
  }

  /**
   * KnightRuleset as the source runs it: collect the reachable squares (KnightReach), then remove
   * the moves that end on a piece of the mover's colour.
   */
  method KnightRulesetMoves(board: Board, from: Position) returns (moves: set<Move>)
    requires board.Valid() && board.GetPiece(from).Some?
    ensures moves == KnightMoves(board.Contents(), from)
  {
    ghost var g := board.Contents();
    moves := KnightReach(from);
    ghost var all := moves;
    var rest := moves;
    while rest != {}
      invariant PruneInv(g, from, all, rest, moves)
      decreases |rest|
    {
      var m :| m in rest;
      var movePiece := board.GetPiece(m.end);
      if movePiece.Some? && movePiece.value.color == board.GetPiece(from).value.color {
        PruneStep(g, from, all, rest, moves, m, true);
        moves := moves - {m};
      } else {
        PruneStep(g, from, all, rest, moves, m, false);
      }
      rest := rest - {m};
    }
    PruneDone(g, from, all, moves);
    TargetsFilterReach(g, from, KnightOffsets());
  }

  // ---- Rook, bishop and queen as the source runs them ----

  /** RookRuleset.pieceMoves: the union of four lineMove calls. */
  method RookRulesetMoves(board: Board, from: Position) returns (moves: set<Move>)
    requires board.Valid() && board.GetPiece(from).Some?
    ensures moves == RookMoves(board.Contents(), from)
  {
    moves := {};
    var line := LineMove(board, from, 1, 0);
    moves := moves + line;
    line := LineMove(board, from, 0, 1);
    moves := moves + line;
    line := LineMove(board, from, -1, 0);
    moves := moves + line;
    line := LineMove(board, from, 0, -1);
    moves := moves + line;
  }

  /** BishopRuleset.pieceMoves: the four diagonal lineMove calls, collected in order. */
  method BishopRulesetMoves(board: Board, from: Position) returns (moves: set<Move>)
    requires board.Valid() && board.GetPiece(from).Some?
    ensures moves == BishopMoves(board.Contents(), from)
  {
    moves := {};
    var line := LineMove(board, from, 1, 1);
    moves := moves + line;
    line := LineMove(board, from, 1, -1);
    moves := moves + line;
    line := LineMove(board, from, -1, 1);
    moves := moves + line;
    line := LineMove(board, from, -1, -1);
    moves := moves + line;
  }

  /** QueenRuleset.pieceMoves: the bishop's moves, then the rook's. */
  method QueenRulesetMoves(board: Board, from: Position) returns (moves: set<Move>)
    requires board.Valid() && board.GetPiece(from).Some?
    ensures moves == QueenMoves(board.Contents(), from)
  {
    moves := {};
    var diagonal := BishopRulesetMoves(board, from);
    moves := moves + diagonal;
    var straight := RookRulesetMoves(board, from);
    moves := moves + straight;
  }

  // ---- Pawn ----

  /** The row direction a pawn of colour c moves in. */
  function Forward(c: TeamColor): (d: int)
    ensures d == 1 || d == -1
  {
    if c == White then 1 else -1
  }

  /** The row a pawn of colour c starts on, from where it may move two squares. */
  function PawnStartRow(c: TeamColor): int
  {
    if c == White then 2 else 7
  }

  /**
   * The row one step ahead of the piece on `from` is on the board.  PawnRuleset builds a position
   * on that row unconditionally, which fails for a pawn standing on its last row.
   */
  predicate PawnCanStep(g: Grid, from: Position)
  {
    At(g, from).Some? && OnBoard(from.row + Forward(ColorAt(g, from)), from.col)
  }

  /** The pawn's forward moves: one step onto an empty square, and then two from the start row. */
  function PawnPushes(g: Grid, from: Position): set<Move>
    requires PawnCanStep(g, from)
  {
    var c := ColorAt(g, from);
    var single := from.row + Forward(c);
    var one: Position := Pos(single, from.col);
    if At(g, one).None? then
      {Move(from, one, None)} +
        if from.row == PawnStartRow(c) then
          var two: Position := Pos(2 * single - from.row, from.col);
          if At(g, two).None? then {Move(from, two, None)} else {}
        else {}
    else {}
  }

  /** The pawn's capture one step forward and dc (-1 or 1) columns across, if an enemy stands there. */
  function PawnCapture(g: Grid, from: Position, dc: int): set<Move>
    requires PawnCanStep(g, from) && (dc == -1 || dc == 1)
  {
    var single := from.row + Forward(ColorAt(g, from));
    if 1 <= from.col + dc <= 8 && Enemy(g, from, Pos(single, from.col + dc)) then {Move(from, Pos(single, from.col + dc), None)}
    else {}
  }

  /** The pawn's moves before promotion. */
  function PawnAdvances(g: Grid, from: Position): set<Move>
    requires PawnCanStep(g, from)
  {
    PawnPushes(g, from) + PawnCapture(g, from, -1) + PawnCapture(g, from, 1)
  }

  /** The pieces a pawn may be promoted to. */
  function PromotionKinds(): set<PieceType>
  {
    {Queen, Rook, Bishop, Knight}
  }

  /** The four promotion moves of one move. */
  function Promote(m: Move): set<Move>
  {
    set k | k in PromotionKinds() :: Move(m.start, m.end, Some(k))
  }

  /** Every move of a set replaced by its four promotion moves. */
  function Promotions(moves: set<Move>): set<Move>
  {
    set m, k | m in moves && k in PromotionKinds() :: Move(m.start, m.end, Some(k))
  }

  /** PawnRuleset. */
  function PawnMoves(g: Grid, from: Position): set<Move>
    requires PawnCanStep(g, from)
  {
    var single := from.row + Forward(ColorAt(g, from));
    if single == 1 || single == 8 then Promotions(PawnAdvances(g, from)) else PawnAdvances(g, from)
  }

  /**
   * The squares a pawn may move to in the words of the game, independently of how PawnRuleset
   * builds them: one step forward onto an empty square; two steps forward from the start row over
   * an empty square onto an empty square; one step diagonally forward onto an enemy piece.
   */
  predicate PawnStep(g: Grid, from: Position, to: Position)
    requires PawnCanStep(g, from)
  {
    var c := ColorAt(g, from);
    var dir := Forward(c);
    var dr := to.row - from.row;
    var dc := to.col - from.col;
    (dc == 0 && dr == dir && At(g, to).None?) ||
    (dc == 0 && dr == 2 * dir && from.row == PawnStartRow(c) && At(g, Pos(from.row + dir, from.col)).None? && At(g, to).None?) ||
    (Abs(dc) == 1 && dr == dir && Enemy(g, from, to))
  }

  /**
   * A pawn move: a pawn step, which is a promotion to queen, rook, bishop or knight exactly when
   * the row one step ahead of the pawn is row 1 or row 8.
   */
  predicate PawnTarget(g: Grid, from: Position, m: Move)
    requires PawnCanStep(g, from)
  {
    var single := from.row + Forward(ColorAt(g, from));
    m.start == from && PawnStep(g, from, m.end) &&
    if single == 1 || single == 8 then m.promotion.Some? && m.promotion.value in PromotionKinds()
    else m.promotion.None?
  }

  lemma PawnAdvancesExact(g: Grid, from: Position, m: Move)
    requires PawnCanStep(g, from)
    ensures m in PawnAdvances(g, from) <==> m.start == from && PawnStep(g, from, m.end) && m.promotion.None?
  {
  }

  lemma PromotionsExact(moves: set<Move>, m: Move)
    ensures m in Promotions(moves) <==>
      m.promotion.Some? && m.promotion.value in PromotionKinds() &&
      exists n | n in moves :: n.start == m.start && n.end == m.end
  {
    if m.promotion.Some? && m.promotion.value in PromotionKinds() && exists n | n in moves :: n.start == m.start && n.end == m.end {
      var n :| n in moves && n.start == m.start && n.end == m.end;
      assert m == Move(n.start, n.end, Some(m.promotion.value));
    }
  }

  /** PawnRuleset produces exactly the pawn moves of the game. */
  lemma PawnMovesExact(g: Grid, from: Position, m: Move)
    requires PawnCanStep(g, from)
    ensures m in PawnMoves(g, from) <==> PawnTarget(g, from, m)
  {
    var single := from.row + Forward(ColorAt(g, from));
    if single == 1 || single == 8 {
      PromotionsExact(PawnAdvances(g, from), m);
      var plain := Move(m.start, m.end, None);
      PawnAdvancesExact(g, from, plain);
      if exists n | n in PawnAdvances(g, from) :: n.start == m.start && n.end == m.end {
        var n :| n in PawnAdvances(g, from) && n.start == m.start && n.end == m.end;
        PawnAdvancesExact(g, from, n);
      }
    } else {
      PawnAdvancesExact(g, from, m);
    }
  }

  /** The four promotion moves of one move, in the order PawnRuleset adds them. */
  function PromoteAll(m: Move): set<Move>
  {
    {Move(m.start, m.end, Some(Queen)), Move(m.start, m.end, Some(Rook)),
     Move(m.start, m.end, Some(Bishop)), Move(m.start, m.end, Some(Knight))}
  }

  lemma PromotionsAdd(moves: set<Move>, m: Move)
    ensures Promotions(moves + {m}) == Promotions(moves) + PromoteAll(m)
  {
    forall p | p in Promotions(moves + {m})
      ensures p in Promotions(moves) + PromoteAll(m)
    {
      var n, k :| n in moves + {m} && k in PromotionKinds() && p == Move(n.start, n.end, Some(k));
    }
    forall p | p in PromoteAll(m)
      ensures p in Promotions(moves + {m})
    {
      assert p == Move(m.start, m.end, Some(p.promotion.value));
    }
  }

  /** Loop invariant of PawnRuleset's promotion loop: the moves looked at so far have been promoted. */
  ghost predicate PromoteInv(moves: set<Move>, rest: set<Move>, promotions: set<Move>)
  {
    rest <= moves && promotions == Promotions(moves - rest)
  }

  lemma PromoteStep(moves: set<Move>, rest: set<Move>, promotions: set<Move>, m: Move)
    requires PromoteInv(moves, rest, promotions) && m in rest
    ensures PromoteInv(moves, rest - {m}, promotions + PromoteAll(m))
  {
    assert moves - (rest - {m}) == (moves - rest) + {m};
    PromotionsAdd(moves - rest, m);
  }

  /** PawnRuleset's promotion loop: every move replaced by its four promotions. */
  method PromoteMoves(moves: set<Move>) returns (promotions: set<Move>)
    ensures promotions == Promotions(moves)
  {
    promotions := {};
    var rest := moves;
    while rest != {}
      invariant PromoteInv(moves, rest, promotions)
      decreases |rest|
    {
      var move :| move in rest;
      PromoteStep(moves, rest, promotions, move);
      promotions := promotions + {Move(move.start, move.end, Some(Queen))};
      promotions := promotions + {Move(move.start, move.end, Some(Rook))};
      promotions := promotions + {Move(move.start, move.end, Some(Bishop))};
      promotions := promotions + {Move(move.start, move.end, Some(Knight))};
      rest := rest - {move};
    }
    assert moves - rest == moves;
  }

  /** PawnRuleset as the source runs it. */
  method PawnRulesetMoves(board: Board, from: Position) returns (result: set<Move>)
    requires board.Valid() && PawnCanStep(board.Contents(), from)
    ensures result == PawnMoves(board.Contents(), from)
  {
    ghost var g := board.Contents();
    var teamColor := board.GetPiece(from).value.color;
    var moves: set<Move> := {};
    var single := from.row + if teamColor == White then 1 else -1;
    var oneSpaceMove: Position := Pos(single, from.col);
    if board.GetPiece(oneSpaceMove).None? {
      moves := moves + {Move(from, oneSpaceMove, None)};
      if (teamColor == White && from.row == 2) || (teamColor == Black && from.row == 7) {
        var twoSpaceMove: Position := Pos(2 * single - from.row, from.col);
        if board.GetPiece(twoSpaceMove).None? {
          moves := moves + {Move(from, twoSpaceMove, None)};
        }
      }
    }
    assert moves == PawnPushes(g, from);
    if from.col > 1 {
      var takeLeft: Position := Pos(single, from.col - 1);
      var takeLeftPiece := board.GetPiece(takeLeft);
      if takeLeftPiece.Some? && takeLeftPiece.value.color != teamColor {
        moves := moves + {Move(from, takeLeft, None)};
      }
    }
    assert moves == PawnPushes(g, from) + PawnCapture(g, from, -1);
    if from.col < 8 {
      var takeRight: Position := Pos(single, from.col + 1);
      var takeRightPiece := board.GetPiece(takeRight);
      if takeRightPiece.Some? && takeRightPiece.value.color != teamColor {
        moves := moves + {Move(from, takeRight, None)};
      }
    }
    assert moves == PawnAdvances(g, from);
    if single == 1 || single == 8 {
      result := PromoteMoves(moves);
      return;
    }
    return moves;
  }

  // ---- ChessPiece.pieceMoves: dispatch on the kind of the piece ----

  /** pieceMoves can be computed for `at`: a piece stands there, and a pawn is not on its last row. */
  predicate CanMove(g: Grid, at: Position)
  {
    At(g, at).Some? && (At(g, at).value.kind == Pawn ==> PawnCanStep(g, at))
  }

  /** ChessPiece.pieceMoves: the ruleset of the kind of the piece standing on `at`. */
  function PieceMoves(g: Grid, at: Position): set<Move>
    requires CanMove(g, at)
  {
    match At(g, at).value.kind
    case King => KingMoves(g, at)
    case Queen => QueenMoves(g, at)
    case Bishop => BishopMoves(g, at)
    case Knight => KnightMoves(g, at)
    case Rook => RookMoves(g, at)
    case Pawn => PawnMoves(g, at)
  }

  /**
   * What every piece move shares: it starts on `at`, goes somewhere else, and does not land on a
   * piece of the mover's colour.  Only pawn moves carry a promotion, and a promotion ends on the
   * first or last row; a king moves one square.
   */
  lemma PieceMovesSound(g: Grid, at: Position, m: Move)
    requires CanMove(g, at) && m in PieceMoves(g, at)
    ensures m.start == at && m.end != at && Open(g, at, m.end)
    ensures m.promotion.Some? ==> At(g, at).value.kind == Pawn && (m.end.row == 1 || m.end.row == 8)
    ensures m.promotion.Some? ==> m.promotion.value in PromotionKinds()
    ensures At(g, at).value.kind == King ==> Abs(m.end.row - at.row) <= 1 && Abs(m.end.col - at.col) <= 1
  {
    match At(g, at).value.kind
    case King => KingMovesExact(g, at, m);
    case Queen => QueenMovesShape(g, at, m); RookMovesShape(g, at, m); BishopMovesShape(g, at, m);
    case Bishop => BishopMovesShape(g, at, m);
    case Knight => KnightMovesExact(g, at, m);
    case Rook => RookMovesShape(g, at, m);
    case Pawn => PawnMovesExact(g, at, m);
  }

  /** ChessPiece.pieceMoves as the source runs it: choose the ruleset by the kind of the piece on `at`. */
  method PieceRulesetMoves(board: Board, at: Position) returns (moves: set<Move>)
    requires board.Valid() && CanMove(board.Contents(), at)
    ensures moves == PieceMoves(board.Contents(), at)
  {
    match board.GetPiece(at).value.kind
    case King => moves := KingRulesetMoves(board, at);
    case Queen => moves := QueenRulesetMoves(board, at);
    case Bishop => moves := BishopRulesetMoves(board, at);
    case Knight => moves := KnightRulesetMoves(board, at);
    case Rook => moves := RookRulesetMoves(board, at);
    case Pawn => moves := PawnRulesetMoves(board, at);
  }
}
