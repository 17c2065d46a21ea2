/** ChessPosition: a square of the board, rows and columns both numbered 1..8. */
module Positions {
  import opened Util

  datatype Pos = Pos(row: int, col: int)

  predicate OnBoard(row: int, col: int)
  {
    1 <= row <= 8 && 1 <= col <= 8
  }

  /** Only squares of the board can be constructed. */
  type Position = p: Pos | OnBoard(p.row, p.col) witness Pos(1, 1)

  /** The constructor: refuses coordinates off the board (the source throws IllegalArgumentException). */
  function MakePosition(row: int, col: int): (r: Option<Position>)
    ensures r.Some? <==> OnBoard(row, col)
    ensures r.Some? ==> r.value.row == row && r.value.col == col
  {
    if OnBoard(row, col) then Some(Pos(row, col)) else None
  }

  /** hashCode: 31 * row + col. */
  function Hash(p: Position): int
  {
    31 * p.row + p.col
  }

  /** Different squares never share a hash code, so the hash agrees with equality. */
  lemma HashInjective(p: Position, q: Position)
    ensures Hash(p) == Hash(q) <==> p == q
  {
    if Hash(p) == Hash(q) {
      assert 31 * (p.row - q.row) == q.col - p.col;
    }
  }

  /** toString: the column as a letter 'a'..'h' followed by the row as a digit. */
  function ToText(p: Position): (s: string)
    ensures |s| == 2 && 'a' <= s[0] <= 'h' && '1' <= s[1] <= '8'
  {
    [(96 + p.col) as char, (48 + p.row) as char]
  }

  /** The printed form names the square uniquely. */
  lemma ToTextInjective(p: Position, q: Position)
    ensures ToText(p) == ToText(q) ==> p == q
  {
    if ToText(p) == ToText(q) {
      assert ToText(p)[0] == ToText(q)[0] && ToText(p)[1] == ToText(q)[1];
    }
  }
}
