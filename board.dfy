// The 8x8 board as a value: its starting layout, the effect of one move on
// it, and the number of pieces it holds.

module Board {
  import opened Pieces

  /** Rows 0..7 from black's back rank down to white's, each of eight columns. */
  type Grid = g: seq<seq<string>> | |g| == 8 && forall r :: 0 <= r < 8 ==> |g[r]| == 8
    witness seq(8, r => seq(8, c => ""))

  predicate InBoard(row: int, col: int) {
    0 <= row < 8 && 0 <= col < 8
  }

  /** The starting position: black on rows 0 and 1, white on rows 6 and 7. */
  const InitialBoard: Grid := [
    ["r", "n", "b", "q", "k", "b", "n", "r"],
    ["p", "p", "p", "p", "p", "p", "p", "p"],
    ["", "", "", "", "", "", "", ""],
    ["", "", "", "", "", "", "", ""],
    ["", "", "", "", "", "", "", ""],
    ["", "", "", "", "", "", "", ""],
    ["P", "P", "P", "P", "P", "P", "P", "P"],
    ["R", "N", "B", "Q", "K", "B", "N", "R"]
  ]

  /**
   * The board after a move: the destination is overwritten with whatever the
   * origin held, then the origin is cleared.  Nothing else changes.  When the
   * origin and the destination coincide the clear comes last, so the square
   * ends up empty.
   */
  function Apply(g: Grid, fromRow: int, fromCol: int, toRow: int, toCol: int): (r: Grid)
    requires InBoard(fromRow, fromCol) && InBoard(toRow, toCol)
    ensures forall row, col | InBoard(row, col) ::
      r[row][col] == if (row, col) == (fromRow, fromCol) then ""
                     else if (row, col) == (toRow, toCol) then g[fromRow][fromCol]
                     else g[row][col]
  {
    var written := g[toRow := g[toRow][toCol := g[fromRow][fromCol]]];
    written[fromRow := written[fromRow][fromCol := ""]]
  }

  /** Two boards that agree on every square are the same board. */
  lemma SameGrid(a: Grid, b: Grid)
    requires forall row, col | InBoard(row, col) :: a[row][col] == b[row][col]
    ensures a == b
  {
    forall row | 0 <= row < 8
      ensures a[row] == b[row]
    {
      assert forall col | 0 <= col < 8 :: a[row][col] == b[row][col];
    }
  }

  function Occ(cell: string): nat {
    if Occupied(cell) then 1 else 0
  }

  /** Number of occupied squares in a row. */
  function RowCount(row: seq<string>): nat {
    if row == [] then 0 else Occ(row[0]) + RowCount(row[1..])
  }

  /** Number of occupied squares on a board (the piece count). */
  function Count(g: seq<seq<string>>): nat {
    if g == [] then 0 else RowCount(g[0]) + Count(g[1..])
  }

  lemma {:induction false} RowCountUpdate(row: seq<string>, c: int, v: string)
    requires 0 <= c < |row|
    ensures RowCount(row[c := v]) + Occ(row[c]) == RowCount(row) + Occ(v)
  {
    if c == 0 {
      assert row[c := v][1..] == row[1..];
    } else {
      assert row[c := v][1..] == row[1..][c - 1 := v];
      RowCountUpdate(row[1..], c - 1, v);
    }
  }

  /** Overwriting one square changes the count by what left and what arrived. */
  lemma {:induction false} CountUpdate(g: seq<seq<string>>, r: int, c: int, v: string)
    requires 0 <= r < |g| && 0 <= c < |g[r]|
    ensures Count(g[r := g[r][c := v]]) + Occ(g[r][c]) == Count(g) + Occ(v)
  {
    if r == 0 {
      assert g[r := g[r][c := v]][1..] == g[1..];
      RowCountUpdate(g[0], c, v);
    } else {
      assert g[r := g[r][c := v]][1..] == g[1..][r - 1 := g[r][c := v]];
      CountUpdate(g[1..], r - 1, c, v);
    }
  }

  /**
   * A move removes exactly the piece that stood on the destination, if any:
   * the count never rises and drops by at most one.  (When origin and
   * destination coincide, that piece is the mover itself.)
   */
  lemma ApplyCount(g: Grid, fromRow: int, fromCol: int, toRow: int, toCol: int)
    requires InBoard(fromRow, fromCol) && InBoard(toRow, toCol)
    ensures Count(Apply(g, fromRow, fromCol, toRow, toCol)) + Occ(g[toRow][toCol]) == Count(g)
  {
    var written := g[toRow := g[toRow][toCol := g[fromRow][fromCol]]];
    CountUpdate(g, toRow, toCol, g[fromRow][fromCol]);
    CountUpdate(written, fromRow, fromCol, "");
  }
}
