/** The 3x3 board: cells, the eight winning lines, and the queries over a
    board snapshot (who has a line, whether the board is full, how many cells
    hold a given mark). Boards here are plain values; the mutable board of a
    running game lives in TicTacToe.Game. */
module Board {

  /** A cell holds a blank, an X or an O (the strings " ", "X", "O"). */
  datatype Cell = Empty | X | O

  /** The two marks a player can put down. */
  type Player = c: Cell | c != Empty witness X

  /** A linear cell index, 0..8 (row * 3 + column). */
  type Index = i: nat | i < 9

  /** The player who moves after `p`. */
  function Other(p: Player): (q: Player)
    ensures q != p && (p == X <==> q == O)
  {
    if p == X then O else X
  }

  /** A board is exactly nine cells. */
  predicate IsBoard(b: seq<Cell>) { |b| == 9 }

  /** The board every game starts from: nine blank cells. */
  function EmptyBoard(): (b: seq<Cell>)
    ensures IsBoard(b) && forall i :: 0 <= i < |b| ==> b[i] == Empty
  {
    seq(9, _ => Empty)
  }

  /** The eight winning triples in the order they are checked:
      rows top to bottom, columns left to right, then the two diagonals. */
  const Lines: seq<(Index, Index, Index)> :=
    [(0, 1, 2), (3, 4, 5), (6, 7, 8),
     (0, 3, 6), (1, 4, 7), (2, 5, 8),
     (0, 4, 8), (2, 4, 6)]

  /** Each listed line is three different cells given in ascending order,
      and no line is listed twice. */
  lemma LinesAreDistinctTriples()
    ensures |Lines| == 8
    ensures forall k :: 0 <= k < |Lines| ==> Lines[k].0 < Lines[k].1 < Lines[k].2
    ensures forall j, k :: 0 <= j < k < |Lines| ==> Lines[j] != Lines[k]
  {
  }

  /** All three cells of triple `t` hold `p`; when those are three different
      cells, `p` occurs at least three times on the board. */
  predicate Completes(b: seq<Cell>, t: (Index, Index, Index), p: Cell): (r: bool)
    requires IsBoard(b)
    ensures r && t.0 < t.1 < t.2 ==> Count(b, p) >= 3
  {
    ThreeInARow(b, t, p);
    b[t.0] == p && b[t.1] == p && b[t.2] == p
  }

  /** Three different cells holding `p` count three times. */
  lemma ThreeInARow(b: seq<Cell>, t: (Index, Index, Index), p: Cell)
    requires IsBoard(b)
    ensures b[t.0] == p && b[t.1] == p && b[t.2] == p && t.0 < t.1 < t.2 ==> Count(b, p) >= 3
  {
    if b[t.0] == p && b[t.1] == p && b[t.2] == p && t.0 < t.1 < t.2 {
      // Overwrite the three cells with something other than `p`.
      var v := if p == Empty then X else Empty;
      var b1 := b[t.0 := v];
      var b2 := b1[t.1 := v];
      CountAfterUpdate(b, t.0, v, p);
      CountAfterUpdate(b1, t.1, v, p);
      CountAfterUpdate(b2, t.2, v, p);
    }
  }

  /** `p` owns at least one of the eight lines; a player who does has put
      down at least three marks. */
  predicate Wins(b: seq<Cell>, p: Cell): (w: bool)
    requires IsBoard(b)
    ensures w ==> Count(b, p) >= 3
  {
    LinesAreDistinctTriples();
    exists k :: 0 <= k < |Lines| && Completes(b, Lines[k], p)
  }

  /** How many cells of `b` hold `c`. */
  function Count(b: seq<Cell>, c: Cell): (n: nat)
    ensures n <= |b|
    ensures n == 0 <==> c !in b
  {
    if b == [] then 0 else (if b[0] == c then 1 else 0) + Count(b[1..], c)
  }

  /** No blank cell is left. */
  function IsFull(b: seq<Cell>): (full: bool)
    ensures full <==> forall i :: 0 <= i < |b| ==> b[i] != Empty
  {
    Empty !in b
  }

  /** The board is full exactly when it has no blank cell left to count. */
  lemma FullIffNoBlanks(b: seq<Cell>)
    ensures IsFull(b) <==> Count(b, Empty) == 0
  {
  }

  /** A sequence holding `c` in every cell counts `c` once per cell. */
  lemma {:induction false} CountUniform(b: seq<Cell>, c: Cell)
    requires forall i :: 0 <= i < |b| ==> b[i] == c
    ensures Count(b, c) == |b|
  {
    if b != [] {
      CountUniform(b[1..], c);
    }
  }

  /** Putting `v` into cell `i` changes the count of each value by exactly
      what left the cell and what entered it. */
  lemma {:induction false} CountAfterUpdate(b: seq<Cell>, i: nat, v: Cell, c: Cell)
    requires i < |b|
    ensures Count(b[i := v], c) ==
            Count(b, c) - (if b[i] == c then 1 else 0) + (if v == c then 1 else 0)
  {
    if i > 0 {
      assert b[i := v][1..] == b[1..][i - 1 := v];
      CountAfterUpdate(b[1..], i - 1, v, c);
    } else {
      assert b[i := v][1..] == b[1..];
    }
  }

  /** Marking a blank cell leaves one blank cell fewer, one more cell of the
      mover's mark and the same number of the opponent's marks. */
  lemma PlaceCounts(b: seq<Cell>, i: nat, p: Player)
    requires i < |b| && b[i] == Empty
    ensures Count(b[i := p], Empty) == Count(b, Empty) - 1
    ensures Count(b[i := p], p) == Count(b, p) + 1
    ensures Count(b[i := p], Other(p)) == Count(b, Other(p))
  {
    CountAfterUpdate(b, i, p, Empty);
    CountAfterUpdate(b, i, p, p);
    CountAfterUpdate(b, i, p, Other(p));
  }

  /** A player's move cannot complete a line for anybody else: any line `q`
      owns after `p` marks a cell was already `q`'s before. */
  lemma PlaceKeepsOtherLines(b: seq<Cell>, i: Index, p: Player, q: Cell)
    requires IsBoard(b) && q != p
    ensures Wins(b[i := p], q) ==> Wins(b, q)
  {
    if Wins(b[i := p], q) {
      var k :| 0 <= k < |Lines| && Completes(b[i := p], Lines[k], q);
      assert Completes(b, Lines[k], q);
    }
  }

  // --- The same eight lines stated through row/column addressing ---

  /** The cell at `row`, `col` (0-based). */
  function At(b: seq<Cell>, row: nat, col: nat): Cell
    requires IsBoard(b) && row < 3 && col < 3
  {
    b[row * 3 + col]
  }

  predicate FullRow(b: seq<Cell>, row: nat, p: Cell)
    requires IsBoard(b) && row < 3
  {
    forall col :: 0 <= col < 3 ==> At(b, row, col) == p
  }

  predicate FullColumn(b: seq<Cell>, col: nat, p: Cell)
    requires IsBoard(b) && col < 3
  {
    forall row :: 0 <= row < 3 ==> At(b, row, col) == p
  }

  /** The cell on the anti-diagonal in row `row`. */
  function AntiDiagonalAt(b: seq<Cell>, row: nat): Cell
    requires IsBoard(b) && row < 3
  {
    At(b, row, 2 - row)
  }

  /** `p` fills a whole row, a whole column or one of the two diagonals. */
  predicate OwnsRowColumnOrDiagonal(b: seq<Cell>, p: Cell)
    requires IsBoard(b)
  {
    || (exists row :: 0 <= row < 3 && FullRow(b, row, p))
    || (exists col :: 0 <= col < 3 && FullColumn(b, col, p))
    || (forall d :: 0 <= d < 3 ==> At(b, d, d) == p)
    || (forall d :: 0 <= d < 3 ==> AntiDiagonalAt(b, d) == p)
  }

  /** Each listed triple is a row, a column or a diagonal. */
  lemma LineIsRowColumnOrDiagonal(b: seq<Cell>, p: Cell)
    requires IsBoard(b) && Wins(b, p)
    ensures OwnsRowColumnOrDiagonal(b, p)
  {
    var k :| 0 <= k < |Lines| && Completes(b, Lines[k], p);
    if k < 3 {
      assert FullRow(b, k, p);
    } else if k < 6 {
      assert FullColumn(b, k - 3, p);
    } else if k == 6 {
      assert forall d :: 0 <= d < 3 ==> At(b, d, d) == p;
    } else {
      assert forall d :: 0 <= d < 3 ==> AntiDiagonalAt(b, d) == p;
    }
  }

  /** Each row, column and diagonal is one of the listed triples. */
  lemma RowColumnOrDiagonalIsLine(b: seq<Cell>, p: Cell)
    requires IsBoard(b) && OwnsRowColumnOrDiagonal(b, p)
    ensures Wins(b, p)
  {
    if row :| 0 <= row < 3 && FullRow(b, row, p) {
      assert At(b, row, 0) == p && At(b, row, 1) == p && At(b, row, 2) == p;
      assert Completes(b, Lines[row], p);
    } else if col :| 0 <= col < 3 && FullColumn(b, col, p) {
      assert At(b, 0, col) == p && At(b, 1, col) == p && At(b, 2, col) == p;
      assert Completes(b, Lines[3 + col], p);
    } else if forall d :: 0 <= d < 3 ==> At(b, d, d) == p {
      assert At(b, 0, 0) == p && At(b, 1, 1) == p && At(b, 2, 2) == p;
      assert Completes(b, Lines[6], p);
    } else {
      assert AntiDiagonalAt(b, 0) == p && AntiDiagonalAt(b, 1) == p && AntiDiagonalAt(b, 2) == p;
      assert Completes(b, Lines[7], p);
    }
  }

  /** The eight listed triples are exactly the three rows, three columns and
      two diagonals of the grid: winning by the list and winning by geometry
      agree on every board. */
  lemma WinsIffRowColumnOrDiagonal(b: seq<Cell>, p: Cell)
    requires IsBoard(b)
    ensures Wins(b, p) <==> OwnsRowColumnOrDiagonal(b, p)
  {
    if Wins(b, p) {
      LineIsRowColumnOrDiagonal(b, p);
    }
    if OwnsRowColumnOrDiagonal(b, p) {
      RowColumnOrDiagonalIsLine(b, p);
    }
  }
}
