/**
 * The client's text helpers: reading a square such as "e4", reading the arguments of the move
 * command (with an optional promotion letter), and finding the squares that changed between two
 * boards so that they can be highlighted.
 */
module ClientUi {
  import opened Util
  import opened Positions
  import opened Pieces
  import opened Boards
  import opened Rulesets
  import opened Game

  /**
   * What parsePosition gives back: a position, null, or the position constructor's
   * IllegalArgumentException, which the method does not catch.
   */
  datatype ParsedPosition = Found(p: Position) | NoPosition | Thrown

  /**
   * parsePosition: null unless the text has two characters and the second is a digit; the column is
   * the first character's code minus 96 and the row is the digit.
   */
  function ParsePosition(s: string): (r: ParsedPosition)
    ensures |s| != 2 ==> r == NoPosition
    ensures |s| == 2 && !IsDigit(s[1]) ==> r == NoPosition
    ensures |s| == 2 && IsDigit(s[1]) ==>
      (r.Thrown? <==> !OnBoard(s[1] as int - 48, s[0] as int - 96))
    ensures r.Found? ==> ToText(r.p) == s
  {
    if |s| != 2 || !IsDigit(s[1]) then NoPosition
    else
      match MakePosition(s[1] as int - 48, s[0] as int - 96)
      case Some(p) => Found(p)
      case None => Thrown
  }

  /** Reading back a square's printed name gives the square. */
  lemma ParsePrinted(p: Position)
    ensures ParsePosition(ToText(p)) == Found(p)
  {
    var s := ToText(p);
    assert s[1] as int - 48 == p.row && s[0] as int - 96 == p.col;
  }

  /** The outcome of the promotion letter: a piece type, a refusal with its text, or no parse. */
  datatype PromotionChoice = Promote(kind: PieceType) | Refuse(text: string) | Unknown

  /** The promotion letters: q, r, b and n choose a piece; k and p are refused. */
  function PromotionFor(c: char): (r: PromotionChoice)
    ensures r.Promote? <==> c in "qrbn"
    ensures r.Promote? ==> r.kind != King && r.kind != Pawn && KindLetter(r.kind) == c
    ensures r.Refuse? <==> c == 'k' || c == 'p'
  {
    match c
    case 'q' => Promote(Queen)
    case 'r' => Promote(Rook)
    case 'b' => Promote(Bishop)
    case 'n' => Promote(Knight)
    case 'k' => Refuse("Cannot promote to king")
    case 'p' => Refuse("Cannot promote to pawn")
    case _ => Unknown
  }

  /** Every piece a pawn may become is chosen by its own letter. */
  lemma PromotionLetters(k: PieceType)
    requires k != King && k != Pawn
    ensures PromotionFor(KindLetter(k)) == Promote(k)
  {
  }

  /** The console's answer to the move command: a refusal with its text, a move to send, or an uncaught exception. */
  datatype MoveReply = Refused(text: string) | Send(move: Move) | Throws

  const UsageText := "Usage: move <source> <destination> <optional promotion>(e.g. f5 e4 q)"

  function PositionError(arg: string): string
  {
    "Could not parse " + arg + " as a position"
  }

  /** The two squares of the move command, read in order; the first failure decides the reply. */
  function Squares(from: string, to: string, promotion: Option<PieceType>): (r: MoveReply)
    ensures r.Send? ==> ToText(r.move.start) == from && ToText(r.move.end) == to && r.move.promotion == promotion
  {
    match ParsePosition(from)
    case NoPosition => Refused(PositionError(from))
    case Thrown => Throws
    case Found(start) =>
      match ParsePosition(to)
      case NoPosition => Refused(PositionError(to))
      case Thrown => Throws
      case Found(end) => Send(Move(start, end, promotion))
  }

  /**
   * makeMove's argument handling as written: any count other than two is refused, so the promotion
   * branch that follows (guarded by a count of three) is never reached and no move carries a
   * promotion.
   */
  function MoveArgsAsWritten(args: seq<string>): (r: MoveReply)
    ensures |args| != 2 ==> r == Refused(UsageText)
    ensures r.Send? ==> r.move.promotion.None?
  {
    if |args| < 2 || |args| > 2 then Refused(UsageText)
    else Squares(args[0], args[1], None)
  }

  /**
   * makeMove's argument handling as intended: two squares and an optional one-letter promotion; a
   * bad promotion letter is reported with the promotion argument itself.
   */
  function MoveArgs(args: seq<string>): (r: MoveReply)
    ensures |args| < 2 || |args| > 3 ==> r == Refused(UsageText)
    ensures |args| == 2 ==> r == MoveArgsAsWritten(args)
  {
    if |args| < 2 || |args| > 3 then Refused(UsageText)
    else if |args| == 2 then Squares(args[0], args[1], None)
    else
      match ParsePosition(args[0])
      case NoPosition => Refused(PositionError(args[0]))
      case Thrown => Throws
      case Found(_) =>
        match ParsePosition(args[1])
        case NoPosition => Refused(PositionError(args[1]))
        case Thrown => Throws
        case Found(_) =>
          if |args[2]| != 1 then Refused("Could not parse " + args[2] + " as a piece type")
          else
            match PromotionFor(args[2][0])
            case Promote(kind) => Squares(args[0], args[1], Some(kind))
            case Refuse(text) => Refused(text)
            case Unknown => Refused("Could not parse " + args[2] + " as a piece type")
  }

  /** How a move is typed at the console: both squares, then the promotion letter when there is one. */
  function MoveWords(m: Move): seq<string>
  {
    [ToText(m.start), ToText(m.end)] + if m.promotion.Some? then [[KindLetter(m.promotion.value)]] else []
  }

  /** A move the client can send without a promotion reaches the server through the move command as written. */
  lemma AsWrittenPlainMoves(m: Move)
    requires m.promotion.None?
    ensures MoveArgsAsWritten(MoveWords(m)) == Send(m)
  {
    ParsePrinted(m.start);
    ParsePrinted(m.end);
  }

  /**
   * The move command as written refuses every promotion: the words of a promoting move are answered
   * with the usage text, while the intended reading sends the move.
   */
  lemma AsWrittenRefusesPromotion(m: Move)
    requires m.promotion.Some? && m.promotion.value != King && m.promotion.value != Pawn
    ensures MoveArgsAsWritten(MoveWords(m)) == Refused(UsageText)
    ensures MoveArgs(MoveWords(m)) == Send(m)
  {
    ParsePrinted(m.start);
    ParsePrinted(m.end);
    PromotionLetters(m.promotion.value);
    assert MoveWords(m)[2] == [KindLetter(m.promotion.value)];
  }

  /**
   * The intended move command reads back exactly the moves a player can ask for: typing a move's
   * words sends that move, and every move it sends was typed as that move's words.
   */
  lemma MoveArgsRoundTrip(m: Move, args: seq<string>)
    requires m.promotion.Some? ==> m.promotion.value != King && m.promotion.value != Pawn
    ensures MoveArgs(MoveWords(m)) == Send(m)
    ensures MoveArgs(args).Send? ==> MoveWords(MoveArgs(args).move) == args
  {
    if m.promotion.Some? {
      AsWrittenRefusesPromotion(m);
    } else {
      AsWrittenPlainMoves(m);
    }
    var r := MoveArgs(args);
    if r.Send? && |args| == 3 {
      var c := args[2][0];
      assert PromotionFor(c).Promote?;
      assert args[2] == [c];
    }
  }

  /** The squares whose contents differ between two boards. */
  function Differences(g: Grid, h: Grid): (d: set<Position>)
    ensures forall p: Position :: p in d <==> At(g, p) != At(h, p)
  {
    set r, c | 1 <= r <= 8 && 1 <= c <= 8 && At(g, Pos(r, c)) != At(h, Pos(r, c)) :: Pos(r, c)
  }

  /** The difference is symmetric, empty exactly for equal boards, and a single placement changes at most its square. */
  lemma DifferencesLaws(g: Grid, h: Grid, p: Position, s: Square)
    ensures Differences(g, h) == Differences(h, g)
    ensures Differences(g, h) == {} <==> g == h
    ensures Differences(Put(g, p, s), g) == if s == At(g, p) then {} else {p}
  {
    if Differences(g, h) == {} {
      forall q: Position
        ensures At(g, q) == At(h, q)
      {
        assert q !in Differences(g, h);
      }
      SameSquares(g, h);
    }
    if s != At(g, p) {
      assert p in Differences(Put(g, p, s), g);
    }
  }

  /** The squares of rows 1..row-1, and of row `row` before column `col`, whose contents differ. */
  ghost function Scanned(g: Grid, h: Grid, row: int, col: int): set<Position>
  {
    set r, c | 1 <= r <= 8 && 1 <= c <= 8 && (r < row || (r == row && c < col)) && At(g, Pos(r, c)) != At(h, Pos(r, c)) :: Pos(r, c)
  }

  /** determineDifferences: the squares where the two games' boards hold different pieces. */
  method DetermineDifferences(newGame: ChessGame, baseGame: ChessGame) returns (differences: set<Position>)
    requires newGame.Valid() && baseGame.Valid()
    ensures differences == Differences(baseGame.board.Contents(), newGame.board.Contents())
  {
    ghost var g := baseGame.board.Contents();
    ghost var h := newGame.board.Contents();
    differences := {};
    for i := 1 to 9
      invariant differences == Scanned(g, h, i, 1)
    {
      for j := 1 to 9
        invariant differences == Scanned(g, h, i, j)
      {
        var pos := Pos(i, j);
        var piece := baseGame.board.GetPiece(pos);
        var prevPiece := newGame.board.GetPiece(pos);
        if piece != prevPiece {
          differences := differences + {pos};
        }
        assert Scanned(g, h, i, j + 1) == Scanned(g, h, i, j) + (if piece != prevPiece then {pos} else {});
      }
      assert Scanned(g, h, i, 9) == Scanned(g, h, i + 1, 1);
    }
    assert Scanned(g, h, 9, 1) == Differences(g, h);
  }
}
