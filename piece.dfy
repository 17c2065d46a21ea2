/** ChessPiece and the team colours of ChessGame. */
module Pieces {
  datatype TeamColor = White | Black

  /** ChessGame.getOpposite. */
  function Opposite(c: TeamColor): (o: TeamColor)
    ensures o != c
  {
    if c == White then Black else White
  }

  lemma OppositeInvolution(c: TeamColor)
    ensures Opposite(Opposite(c)) == c
  {
  }

  datatype PieceType = King | Queen | Bishop | Knight | Rook | Pawn

  /** A piece is a value: two pieces are equal when colour and type agree. */
  datatype Piece = Piece(color: TeamColor, kind: PieceType)

  function KindLetter(k: PieceType): char
  {
    match k
    case King => 'k'
    case Queen => 'q'
    case Bishop => 'b'
    case Knight => 'n'
    case Rook => 'r'
    case Pawn => 'p'
  }

  /** toString: the type's letter, upper case for white and lower case for black. */
  function Letter(p: Piece): (c: char)
    ensures p.color == White ==> c in "KQBNRP"
    ensures p.color == Black ==> c in "kqbnrp"
  {
    var k := KindLetter(p.kind);
    if p.color == White then (k as int - 32) as char else k
  }

  /** The letter determines the piece, so a board's text determines its pieces. */
  lemma LetterInjective(p: Piece, q: Piece)
    ensures Letter(p) == Letter(q) ==> p == q
  {
  }
}
