/**
 * ChessBoard: an 8x8 grid of squares, each empty or holding a piece.
 * `Grid` is the board as a value (rows 1..8 at indices 0..7, columns likewise);
 * the class `Board` is the mutable Java object over a two-dimensional array.
 */
module Boards {
  import opened Util
  import opened Positions
  import opened Pieces

  /** A square holds a piece or nothing (`null` in the source). */
  type Square = Option<Piece>

  type Grid = g: seq<seq<Square>> | |g| == 8 && forall r | 0 <= r < 8 :: |g[r]| == 8
    witness seq(8, _ => seq<Square>(8, _ => None))

  function At(g: Grid, p: Position): Square
  {
    g[p.row - 1][p.col - 1]
  }

  /** The grid with square `p` replaced by `s` and every other square kept. */
  function Put(g: Grid, p: Position, s: Square): (h: Grid)
    ensures At(h, p) == s
    ensures forall q: Position :: q != p ==> At(h, q) == At(g, q)
  {
    g[p.row - 1 := g[p.row - 1][p.col - 1 := s]]
  }

  /** Two grids that agree on every square are the same grid. */
  lemma SameSquares(g: Grid, h: Grid)
    requires forall p: Position :: At(g, p) == At(h, p)
    ensures g == h
  {
    forall r | 0 <= r < 8
      ensures g[r] == h[r]
    {
      forall c | 0 <= c < 8
        ensures g[r][c] == h[r][c]
      {
        assert At(g, Pos(r + 1, c + 1)) == At(h, Pos(r + 1, c + 1));
      }
    }
  }

  function EmptyGrid(): (g: Grid)
    ensures forall p: Position :: At(g, p).None?
  {
    seq(8, _ => seq<Square>(8, _ => None))
  }

  /** The back rank from column 1 to 8: rook, knight, bishop, queen, king, bishop, knight, rook. */
  function BackRank(col: int): PieceType
    requires 1 <= col <= 8
  {
    [Rook, Knight, Bishop, Queen, King, Bishop, Knight, Rook][col - 1]
  }

  /** What resetBoard puts on each square. */
  function StartSquare(p: Position): Square
  {
    if p.row == 1 then Some(Piece(White, BackRank(p.col)))
    else if p.row == 2 then Some(Piece(White, Pawn))
    else if p.row == 7 then Some(Piece(Black, Pawn))
    else if p.row == 8 then Some(Piece(Black, BackRank(p.col)))
    else None
  }

  function StartRow(r: int): (row: seq<Square>)
    requires 0 <= r < 8
    ensures |row| == 8
  {
    seq(8, c requires 0 <= c < 8 => StartSquare(Pos(r + 1, c + 1)))
  }

  function StartGrid(): (g: Grid)
    ensures forall p: Position :: At(g, p) == StartSquare(p)
  {
    seq(8, r requires 0 <= r < 8 => StartRow(r))
  }

  /** Number of pieces on one row of a grid. */
  function CountRow(row: seq<Square>): (n: nat)
    ensures n <= |row|
  {
    if row == [] then 0 else (if row[0].Some? then 1 else 0) + CountRow(row[1..])
  }

  function CountPieces(g: seq<seq<Square>>): nat
  {
    if g == [] then 0 else CountRow(g[0]) + CountPieces(g[1..])
  }

  lemma {:induction false} CountFullRow(row: seq<Square>)
    requires forall c | 0 <= c < |row| :: row[c].Some?
    ensures CountRow(row) == |row|
  {
    if row != [] {
      CountFullRow(row[1..]);
    }
  }

  lemma {:induction false} CountEmptyRow(row: seq<Square>)
    requires forall c | 0 <= c < |row| :: row[c].None?
    ensures CountRow(row) == 0
  {
    if row != [] {
      CountEmptyRow(row[1..]);
    }
  }

  /** The starting position holds 32 pieces: four full rows, four empty ones. */
  lemma StartPieceCount()
    ensures CountPieces(StartGrid()) == 32
  {
    var g := StartGrid();
    forall r | r in {0, 1, 6, 7}
      ensures CountRow(g[r]) == 8
    {
      forall c | 0 <= c < 8
        ensures g[r][c].Some?
      {
        assert At(g, Pos(r + 1, c + 1)).Some?;
      }
      CountFullRow(g[r]);
    }
    forall r | 2 <= r <= 5
      ensures CountRow(g[r]) == 0
    {
      forall c | 0 <= c < 8
        ensures g[r][c].None?
      {
        assert At(g, Pos(r + 1, c + 1)).None?;
      }
      CountEmptyRow(g[r]);
    }
    assert g[1..][1..][1..][1..][1..][1..][1..][1..] == [];
  }

  /**
   * The starting position: rows 3 to 6 empty; each side's king on column 5 of its home row with
   * the rooks in the corners, and a full row of pawns in front.
   */
  lemma StartPosition()
    ensures forall p: Position :: 3 <= p.row <= 6 ==> At(StartGrid(), p).None?
    ensures At(StartGrid(), Pos(1, 5)) == Some(Piece(White, King))
    ensures At(StartGrid(), Pos(8, 5)) == Some(Piece(Black, King))
    ensures forall col | 1 <= col <= 8 :: At(StartGrid(), Pos(2, col)) == Some(Piece(White, Pawn))
    ensures forall col | 1 <= col <= 8 :: At(StartGrid(), Pos(7, col)) == Some(Piece(Black, Pawn))
    ensures forall row | row in {1, 8} :: At(StartGrid(), Pos(row, 1)).value.kind == Rook
                                          && At(StartGrid(), Pos(row, 8)).value.kind == Rook
  {
    var g := StartGrid();
    assert At(g, Pos(1, 5)) == StartSquare(Pos(1, 5));
    assert At(g, Pos(8, 5)) == StartSquare(Pos(8, 5));
    forall row | row in {1, 8}
      ensures At(g, Pos(row, 1)).value.kind == Rook && At(g, Pos(row, 8)).value.kind == Rook
    {
      assert At(g, Pos(row, 1)) == StartSquare(Pos(row, 1));
      assert At(g, Pos(row, 8)) == StartSquare(Pos(row, 8));
    }
  }

  // ---- The board's text (toString) ----

  /** A square's symbol before merging: '1' for an empty square, otherwise the piece's letter. */
  function Symbol(s: Square): char
  {
    if s.None? then '1' else Letter(s.value)
  }

  predicate IsDigit(c: char)
  {
    '0' <= c <= '9'
  }

  function Digit(n: int): (c: char)
    requires 0 <= n <= 9
    ensures IsDigit(c)
  {
    (48 + n) as char
  }

  /** String.valueOf of a natural number. */
  function DecimalText(n: nat): string
  {
    if n < 10 then [Digit(n)] else DecimalText(n / 10) + [Digit(n % 10)]
  }

  /**
   * Character `t` of the text built before merging: the rows from row 1 up, each written as its
   * eight symbols followed by '/'.
   */
  function RawChar(g: Grid, t: int): char
    requires 0 <= t < 72
  {
    if t % 9 == 8 then '/' else Symbol(g[t / 9][t % 9])
  }

  /** The text before merging, with the trailing slash deleted. */
  function RawText(g: Grid): (s: string)
    ensures |s| == 71
  {
    seq(71, t requires 0 <= t < 71 => RawChar(g, t))
  }

  function Flush(run: nat): string
  {
    if run == 0 then [] else DecimalText(run)
  }

  /**
   * The merge: every run of '1's becomes the decimal count of the run; `run` is the length of
   * the run pending before `s`.
   */
  function Squash(s: string, run: nat): string
    decreases |s|
  {
    if s == [] then Flush(run)
    else if s[0] == '1' then Squash(s[1..], run + 1)
    else Flush(run) + [s[0]] + Squash(s[1..], 0)
  }

  /** The text toString returns: each row's empty squares counted, rows separated by '/'. */
  function BoardText(g: Grid): string
  {
    Squash(RawText(g), 0)
  }

  /** Reading a count back as that many empty squares. */
  function Ones(n: nat): (s: string)
    ensures |s| == n && forall j | 0 <= j < n :: s[j] == '1'
  {
    seq(n, _ => '1')
  }

  /** The inverse of the merge: every digit d becomes d empty-square symbols. */
  function Expand(t: string): string
  {
    if t == [] then []
    else (if IsDigit(t[0]) then Ones(t[0] as int - 48) else [t[0]]) + Expand(t[1..])
  }

  lemma {:induction false} ExpandAppend(a: string, b: string)
    ensures Expand(a + b) == Expand(a) + Expand(b)
  {
    if a == [] {
      assert a + b == b;
    } else {
      assert (a + b)[0] == a[0] && (a + b)[1..] == a[1..] + b;
      ExpandAppend(a[1..], b);
    }
  }

  /**
   * The shape of the raw text, which is all the merge relies on: 71 characters, the only digit
   * is '1', and '/' stands exactly at the positions 8, 17, ... that end a row.
   */
  ghost predicate RawShaped(s: string)
  {
    |s| == 71 && forall t | 0 <= t < 71 :: ShapedAt(s, t)
  }

  ghost predicate ShapedAt(s: string, t: int)
    requires 0 <= t < |s|
  {
    (IsDigit(s[t]) <==> s[t] == '1') && (s[t] == '/' <==> t % 9 == 8)
  }

  lemma RawTextShaped(g: Grid)
    ensures RawShaped(RawText(g))
  {
    forall t | 0 <= t < 71
      ensures ShapedAt(RawText(g), t)
    {
      assert RawText(g)[t] == RawChar(g, t);
      if t % 9 != 8 {
        var sq := g[t / 9][t % 9];
        assert RawChar(g, t) == Symbol(sq);
      }
    }
  }

  /** Expanding a flushed run of at most nine empty squares gives the run back. */
  lemma ExpandFlush(run: nat)
    requires run <= 9
    ensures Expand(Flush(run)) == Ones(run)
  {
    if run > 0 {
      assert Flush(run) == [Digit(run)];
      assert [Digit(run)][1..] == [];
    }
  }

  /** Expanding a flushed run, then a character that is not a digit, then the rest. */
  lemma ExpandBreak(run: nat, c: char, rest: string)
    requires run <= 9 && !IsDigit(c)
    ensures Expand(Flush(run) + [c] + rest) == Ones(run) + ([c] + Expand(rest))
  {
    assert Flush(run) + [c] + rest == Flush(run) + ([c] + rest);
    ExpandAppend(Flush(run), [c] + rest);
    assert ([c] + rest)[0] == c && ([c] + rest)[1..] == rest;
    ExpandFlush(run);
  }

  /** One more empty square extends the pending run. */
  lemma ExpandSquashOne(r: string, run: nat)
    requires r != [] && r[0] == '1'
    requires Expand(Squash(r[1..], run + 1)) == Ones(run + 1) + r[1..]
    ensures Expand(Squash(r, run)) == Ones(run) + r
  {
    assert Squash(r, run) == Squash(r[1..], run + 1);
    assert Ones(run + 1) == Ones(run) + [r[0]];
    assert [r[0]] + r[1..] == r;
    assert Ones(run + 1) + r[1..] == Ones(run) + ([r[0]] + r[1..]);
  }

  /** A character other than a digit ends the pending run, which is written as its count. */
  lemma ExpandSquashBreak(r: string, run: nat)
    requires r != [] && !IsDigit(r[0]) && run <= 9
    requires Expand(Squash(r[1..], 0)) == r[1..]
    ensures Expand(Squash(r, run)) == Ones(run) + r
  {
    assert Squash(r, run) == Flush(run) + [r[0]] + Squash(r[1..], 0);
    ExpandBreak(run, r[0], Squash(r[1..], 0));
    assert [r[0]] + r[1..] == r;
  }

  /** Within a row, the next position's column is one more. */
  lemma NextInRow(k: nat)
    requires k % 9 != 8
    ensures (k + 1) % 9 == k % 9 + 1
  {
  }

  /** A run that reaches position k started within k's row, so it is at most k % 9 long. */
  lemma {:induction false} ExpandSquash(s: string, k: int, run: nat)
    requires RawShaped(s) && 0 <= k <= 71 && run <= k % 9
    ensures Expand(Squash(s[k..], run)) == Ones(run) + s[k..]
    decreases 71 - k
  {
    var r := s[k..];
    if k == 71 {
      assert r == [];
      ExpandFlush(run);
    } else {
      assert ShapedAt(s, k);
      assert r[0] == s[k] && r[1..] == s[k + 1..];
      if r[0] == '1' {
        NextInRow(k);
        ExpandSquash(s, k + 1, run + 1);
        ExpandSquashOne(r, run);
      } else {
        ExpandSquash(s, k + 1, 0);
        assert Ones(0) + r[1..] == r[1..];
        ExpandSquashBreak(r, run);
      }
    }
  }

  /** Expanding the counts of the text gives back the raw symbols of every square. */
  lemma TextRoundTrip(g: Grid)
    ensures Expand(BoardText(g)) == RawText(g)
  {
    RawTextShaped(g);
    ExpandSquash(RawText(g), 0, 0);
    assert RawText(g)[0..] == RawText(g);
  }

  /** The text names every square, so different boards print differently. */
  lemma TextDeterminesBoard(g: Grid, h: Grid)
    ensures BoardText(g) == BoardText(h) ==> g == h
  {
    if BoardText(g) == BoardText(h) {
      TextRoundTrip(g);
      TextRoundTrip(h);
      forall p: Position
        ensures At(g, p) == At(h, p)
      {
        var t := 9 * (p.row - 1) + (p.col - 1);
        assert RawText(g)[t] == RawText(h)[t];
        assert t % 9 == p.col - 1 && t / 9 == p.row - 1;
        assert RawChar(g, t) == Symbol(At(g, p)) && RawChar(h, t) == Symbol(At(h, p));
        if At(g, p).Some? && At(h, p).Some? {
          LetterInjective(At(g, p).value, At(h, p).value);
        }
      }
      SameSquares(g, h);
    }
  }

  predicate NoAdjacentDigits(t: string)
  {
    forall j | 0 <= j < |t| - 1 :: !(IsDigit(t[j]) && IsDigit(t[j + 1]))
  }

  lemma {:induction false} SquashNoAdjacent(s: string, k: int, run: nat)
    requires RawShaped(s) && 0 <= k <= 71 && run <= k % 9
    ensures NoAdjacentDigits(Squash(s[k..], run))
    decreases 71 - k
  {
    var r := s[k..];
    if k == 71 {
      assert r == [];
      if run > 0 {
        assert Flush(run) == [Digit(run)];
      }
    } else {
      assert ShapedAt(s, k);
      assert r[0] == s[k] && r[1..] == s[k + 1..];
      if r[0] == '1' {
        SquashNoAdjacent(s, k + 1, run + 1);
      } else {
        SquashNoAdjacent(s, k + 1, 0);
        var f, rest := Flush(run), Squash(r[1..], 0);
        if run > 0 {
          assert f == [Digit(run)];
        }
        var t := f + [r[0]] + rest;
        assert Squash(r, run) == t;
        forall j | 0 <= j < |t| - 1
          ensures !(IsDigit(t[j]) && IsDigit(t[j + 1]))
        {
          if j >= |f| + 1 {
            assert t[j] == rest[j - |f| - 1] && t[j + 1] == rest[j - |f|];
          }
        }
      }
    }
  }

  /** The merge is complete: no two digits are left side by side in the text. */
  lemma TextMergesRuns(g: Grid)
    ensures NoAdjacentDigits(BoardText(g))
  {
    RawTextShaped(g);
    SquashNoAdjacent(RawText(g), 0, 0);
    assert RawText(g)[0..] == RawText(g);
  }

  /** Merging a digit with a following '1' continues the same run. */
  lemma MergeStep(raw: string, k: int, run: nat)
    requires RawShaped(raw) && 1 <= k < 71 && 1 <= run <= k % 9 && raw[k] == '1'
    ensures run + 1 <= (k + 1) % 9
    ensures Pending(Digit(run), run, raw[k..]) == Pending(Digit(run + 1), run + 1, raw[k + 1..])
  {
    assert ShapedAt(raw, k);
    assert raw[k..][0] == raw[k] && raw[k..][1..] == raw[k + 1..];
  }

  /** Moving the cursor past a character that does not merge with the next one. */
  lemma AdvanceStep(raw: string, k: int, c: char, run: nat)
    requires RawShaped(raw) && 1 <= k < 71
    requires !(IsDigit(c) && IsDigit(raw[k]))
    requires IsDigit(c) ==> 1 <= run <= 9 && c == Digit(run)
    requires !IsDigit(c) ==> run == 0
    ensures (if raw[k] == '1' then 1 else 0) <= (k + 1) % 9
    ensures Pending(c, run, raw[k..]) == [c] + Pending(raw[k], if raw[k] == '1' then 1 else 0, raw[k + 1..])
  {
    var r := raw[k..];
    assert ShapedAt(raw, k);
    assert r[0] == raw[k] && r[1..] == raw[k + 1..];
    if IsDigit(c) {
      assert Flush(run) == [c];
    }
  }

  /** The merge loop's invariant: out[i] is the cursor, everything after it is raw text from k on. */
  ghost predicate MergeInv(raw: string, out: string, i: int, k: int, run: nat)
  {
    RawShaped(raw) && 1 <= k <= 71 && 0 <= i < |out|
    && out[i + 1..] == raw[k..]
    && (IsDigit(out[i]) ==> 1 <= run <= k % 9 && out[i] == Digit(run))
    && (!IsDigit(out[i]) ==> run == 0)
    && Squash(raw, 0) == out[..i] + Pending(out[i], run, raw[k..])
  }

  lemma MergeStart(raw: string)
    requires RawShaped(raw)
    ensures MergeInv(raw, raw, 0, 1, if raw[0] == '1' then 1 else 0)
  {
    assert ShapedAt(raw, 0);
    assert raw[0..] == raw && raw[1..] == raw[1..];
  }

  lemma MergeKeeps(raw: string, out: string, i: int, k: int, run: nat)
    requires MergeInv(raw, out, i, k, run) && i < |out| - 1
    requires IsDigit(out[i]) && IsDigit(out[i + 1])
    ensures out[i] as int - 48 + out[i + 1] as int - 48 == run + 1 <= 8
    ensures MergeInv(raw, out[..i] + [Digit(run + 1)] + out[i + 2..], i, k + 1, run + 1)
  {
    assert out[i + 1] == raw[k] && ShapedAt(raw, k);
    MergeStep(raw, k, run);
    var out' := out[..i] + [Digit(run + 1)] + out[i + 2..];
    assert out'[..i] == out[..i] && out'[i] == Digit(run + 1) && out'[i + 1..] == raw[k + 1..];
  }

  /** Dropping the first character of equal tails. */
  lemma TailStep(out: string, raw: string, i: int, k: int)
    requires 0 <= i && i + 1 < |out| && 0 <= k <= |raw| && out[i + 1..] == raw[k..]
    ensures k < |raw| && out[i + 1] == raw[k] && out[i + 2..] == raw[k + 1..]
  {
    assert out[i + 1..][0] == out[i + 1] && out[i + 1..][1..] == out[i + 2..];
  }

  /** Moving one character from the pending part onto the finished prefix. */
  lemma PrefixStep(out: string, i: int, tail: string)
    requires 0 <= i < |out|
    ensures out[..i] + ([out[i]] + tail) == out[..i + 1] + tail
  {
    assert out[..i + 1] == out[..i] + [out[i]];
  }

  lemma AdvanceKeeps(raw: string, out: string, i: int, k: int, run: nat)
    requires MergeInv(raw, out, i, k, run) && i < |out| - 1
    requires !(IsDigit(out[i]) && IsDigit(out[i + 1]))
    ensures MergeInv(raw, out, i + 1, k + 1, if raw[k] == '1' then 1 else 0)
  {
    TailStep(out, raw, i, k);
    assert ShapedAt(raw, k);
    AdvanceStep(raw, k, out[i], run);
    PrefixStep(out, i, Pending(raw[k], if raw[k] == '1' then 1 else 0, raw[k + 1..]));
  }

  lemma MergeDone(raw: string, out: string, i: int, k: int, run: nat)
    requires MergeInv(raw, out, i, k, run) && i == |out| - 1
    ensures out == Squash(raw, 0)
  {
    assert raw[k..] == [];
    if IsDigit(out[i]) {
      assert Flush(run) == [out[i]];
    }
    assert out == out[..i] + [out[i]];
  }

  /**
   * The merging loop of toString: while two adjacent characters are both digits, replace them by
   * the decimal text of their sum; otherwise move on.
   */
  method MergeRuns(raw: string) returns (out: string)
    requires RawShaped(raw)
    ensures out == Squash(raw, 0)
  {
    out := raw;
    var i := 0;
    ghost var k := 1;
    ghost var run: nat := if raw[0] == '1' then 1 else 0;
    MergeStart(raw);
    while i < |out| - 1
      invariant MergeInv(raw, out, i, k, run)
      decreases |out| - i
    {
      var first := out[i];
      var second := out[i + 1];
      if IsDigit(first) && IsDigit(second) {
        var sum := (first as int - 48) + (second as int - 48);
        MergeKeeps(raw, out, i, k, run);
        out := out[..i] + DecimalText(sum) + out[i + 2..];
        k, run := k + 1, run + 1;
      } else {
        AdvanceKeeps(raw, out, i, k, run);
        i, k, run := i + 1, k + 1, if raw[k] == '1' then 1 else 0;
      }
    }
    MergeDone(raw, out, i, k, run);
  }

  /** What the merge still emits for the cursor character `c` (a pending run when it is a digit) and the raw rest. */
  function Pending(c: char, run: nat, rest: string): string
  {
    if IsDigit(c) then Squash(rest, run) else [c] + Squash(rest, 0)
  }

  /**
   * The Java object: a fixed 8x8 array of squares, updated in place.  The ghost field `cells`
   * follows the array as a value; Valid() ties the two together.
   */
  class Board {
    const squares: array2<Square>
    ghost var cells: Grid

    ghost predicate Valid()
      reads this, squares
    {
      squares.Length0 == 8 && squares.Length1 == 8 &&
      forall r, c | 0 <= r < 8 && 0 <= c < 8 :: squares[r, c] == cells[r][c]
    }

    /** The board's current contents as a value. */
    ghost function Contents(): Grid
      reads this
    {
      cells
    }

    /** A new board is empty. */
    constructor ()
      ensures Valid() && fresh(squares)
      ensures Contents() == EmptyGrid()
    {
      squares := new Square[8, 8]((_, _) => None);
      cells := EmptyGrid();
    }

    /** The copy constructor: same pieces, fresh storage, so later changes to either board leave the other alone. */
    constructor Copy(other: Board)
      requires other.Valid()
      ensures Valid() && fresh(squares)
      ensures Contents() == other.Contents()
    {
      var a := new Square[8, 8];
      var r := 0;
      while r < 8
        invariant 0 <= r <= 8
        invariant forall i, j | 0 <= i < r && 0 <= j < 8 :: a[i, j] == other.squares[i, j]
      {
        var c := 0;
        while c < 8
          invariant 0 <= c <= 8
          invariant forall i, j | 0 <= i < r && 0 <= j < 8 :: a[i, j] == other.squares[i, j]
          invariant forall j | 0 <= j < c :: a[r, j] == other.squares[r, j]
        {
          a[r, c] := other.squares[r, c];
          c := c + 1;
        }
        r := r + 1;
      }
      squares := a;
      cells := other.cells;
    }

    /** getPiece: the square at `p`. */
    function GetPiece(p: Position): (s: Square)
      reads this, squares
      requires Valid()
      ensures s == At(Contents(), p)
    {
      squares[p.row - 1, p.col - 1]
    }

    /** addPiece: puts `s` on square `p` (an empty square when `s` is None) and changes nothing else. */
    method AddPiece(p: Position, s: Square)
      requires Valid()
      modifies this, squares
      ensures Valid()
      ensures Contents() == Put(old(Contents()), p, s)
    {
      squares[p.row - 1, p.col - 1] := s;
      cells := Put(cells, p, s);
    }

    /** resetBoard: empties every square, then sets up the standard starting position. */
    method ResetBoard()
      requires Valid()
      modifies this, squares
      ensures Valid()
      ensures Contents() == StartGrid()
    {
      var r := 0;
      while r < 8
        invariant 0 <= r <= 8
        invariant forall i, j | 0 <= i < r && 0 <= j < 8 :: squares[i, j].None?
      {
        var c := 0;
        while c < 8
          invariant 0 <= c <= 8
          invariant forall i, j | 0 <= i < r && 0 <= j < 8 :: squares[i, j].None?
          invariant forall j | 0 <= j < c :: squares[r, j].None?
        {
          squares[r, c] := None;
          c := c + 1;
        }
        r := r + 1;
      }
      cells := EmptyGrid();
      // The source spells out the eight back-rank calls; they are the loop over BackRank here.
      var i := 1;
      while i <= 8
        invariant 1 <= i <= 9 && Valid()
        invariant forall p: Position ::
                    At(Contents(), p) == (if p.row == 1 && p.col < i then StartSquare(p) else None)
      {
        AddPiece(Pos(1, i), Some(Piece(White, BackRank(i))));
        i := i + 1;
      }
      i := 1;
      while i <= 8
        invariant 1 <= i <= 9 && Valid()
        invariant forall p: Position ::
                    At(Contents(), p) == (if p.row == 1 || (p.row == 2 && p.col < i) then StartSquare(p) else None)
      {
        AddPiece(Pos(2, i), Some(Piece(White, Pawn)));
        i := i + 1;
      }
      i := 1;
      while i <= 8
        invariant 1 <= i <= 9 && Valid()
        invariant forall p: Position ::
                    At(Contents(), p) == (if p.row <= 2 || (p.row == 8 && p.col < i) then StartSquare(p) else None)
      {
        AddPiece(Pos(8, i), Some(Piece(Black, BackRank(i))));
        i := i + 1;
      }
      i := 1;
      while i <= 8
        invariant 1 <= i <= 9 && Valid()
        invariant forall p: Position ::
                    At(Contents(), p) == (if p.row <= 2 || p.row == 8 || (p.row == 7 && p.col < i) then StartSquare(p) else None)
      {
        AddPiece(Pos(7, i), Some(Piece(Black, Pawn)));
        i := i + 1;
      }
      SameSquares(Contents(), StartGrid());
    }

    /**
     * toString: writes each row's symbols followed by '/', drops the final '/', then repeatedly
     * replaces two adjacent digits by their sum.
     */
    method ToString() returns (text: string)
      requires Valid()
      ensures text == BoardText(Contents())
    {
      ghost var g := Contents();
      var names := new char[8, 8];
      var r := 0;
      while r < 8
        invariant 0 <= r <= 8
        invariant forall i, j | 0 <= i < r && 0 <= j < 8 :: names[i, j] == Symbol(g[i][j])
      {
        var c := 0;
        while c < 8
          invariant 0 <= c <= 8
          invariant forall i, j | 0 <= i < r && 0 <= j < 8 :: names[i, j] == Symbol(g[i][j])
          invariant forall j | 0 <= j < c :: names[r, j] == Symbol(g[r][j])
        {
          names[r, c] := Symbol(squares[r, c]);
          c := c + 1;
        }
        r := r + 1;
      }
      var out: string := [];
      r := 0;
      while r < 8
        invariant 0 <= r <= 8 && |out| == 9 * r
        invariant forall t | 0 <= t < |out| :: out[t] == RawChar(g, t)
      {
        var c := 0;
        while c < 8
          invariant 0 <= c <= 8 && |out| == 9 * r + c
          invariant forall t | 0 <= t < |out| :: out[t] == RawChar(g, t)
        {
          out := out + [names[r, c]];
          c := c + 1;
        }
        out := out + ['/'];
        r := r + 1;
      }
      out := out[..|out| - 1];
      assert out == RawText(g);
      RawTextShaped(g);
      text := MergeRuns(out);
    }

    /** equals (Arrays.deepEquals): boards are equal when every square holds an equal piece or both are empty. */
    method Equals(other: Board) returns (same: bool)
      requires Valid() && other.Valid()
      ensures same <==> Contents() == other.Contents()
    {
      var r := 0;
      while r < 8
        invariant 0 <= r <= 8
        invariant forall i, j | 0 <= i < r && 0 <= j < 8 :: squares[i, j] == other.squares[i, j]
      {
        var c := 0;
        while c < 8
          invariant 0 <= c <= 8
          invariant forall i, j | 0 <= i < r && 0 <= j < 8 :: squares[i, j] == other.squares[i, j]
          invariant forall j | 0 <= j < c :: squares[r, j] == other.squares[r, j]
        {
          if squares[r, c] != other.squares[r, c] {
            assert At(Contents(), Pos(r + 1, c + 1)) != At(other.Contents(), Pos(r + 1, c + 1));
            return false;
          }
          c := c + 1;
        }
        r := r + 1;
      }
      forall p: Position
        ensures At(Contents(), p) == At(other.Contents(), p)
      {
        assert GetPiece(p) == other.GetPiece(p);
      }
      SameSquares(Contents(), other.Contents());
      return true;
    }
  }
}
