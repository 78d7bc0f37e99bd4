// Move legality, one rule per kind of piece, and the dispatch on the kind.
//
// The rules only look at geometry and at whether squares are empty.  There is
// no check, castling, en passant or promotion, and no rule ever asks what
// colour the piece on the destination has.

module Moves {
  import opened Pieces
  import opened Board

  /** Math.abs */
  function Abs(x: int): nat {
    if x < 0 then -x else x
  }

  /** Math.sign */
  function Sign(x: int): int {
    if x > 0 then 1 else if x < 0 then -1 else 0
  }

  /** The destination is on the same row, column or diagonal as (row, col). */
  predicate Aligned(row: int, col: int, toRow: int, toCol: int) {
    row == toRow || col == toCol || toRow - row == toCol - col || toRow - row == col - toCol
  }

  /**
   * (row, col) lies on the way to the destination, and (rowStep, colStep)
   * is the unit step towards it until it is reached.
   */
  predicate Heading(row: int, col: int, toRow: int, toCol: int, rowStep: int, colStep: int) {
    InBoard(row, col) && InBoard(toRow, toCol) && Aligned(row, col, toRow, toCol) &&
    (row != toRow || col != toCol ==> rowStep == Sign(toRow - row) && colStep == Sign(toCol - col))
  }

  /**
   * The loop of the sliding pieces: walk from (row, col) by (rowStep, colStep)
   * and fail on the first occupied square met before the destination.  The
   * destination itself is never looked at.
   */
  function PathClear(g: Grid, row: int, col: int, toRow: int, toCol: int, rowStep: int, colStep: int): bool
    requires Heading(row, col, toRow, toCol, rowStep, colStep)
    decreases Abs(toRow - row) + Abs(toCol - col)
  {
    if row == toRow && col == toCol then true
    else !Occupied(g[row][col]) && PathClear(g, row + rowStep, col + colStep, toRow, toCol, rowStep, colStep)
  }

  /**
   * The scan as a sliding piece sets it up: the increments are the signs of
   * the displacement, and the walk starts one step away from the origin.
   */
  function Scan(g: Grid, fromRow: int, fromCol: int, toRow: int, toCol: int): bool
    requires InBoard(fromRow, fromCol) && InBoard(toRow, toCol) && Aligned(fromRow, fromCol, toRow, toCol)
  {
    var rowIncrement, colIncrement := Sign(toRow - fromRow), Sign(toCol - fromCol);
    HeadingStart(fromRow, fromCol, toRow, toCol);
    PathClear(g, fromRow + rowIncrement, fromCol + colIncrement, toRow, toCol, rowIncrement, colIncrement)
  }

  /** The first square of a sliding scan is on the way, heading in the direction of the move. */
  lemma HeadingStart(fromRow: int, fromCol: int, toRow: int, toCol: int)
    requires InBoard(fromRow, fromCol) && InBoard(toRow, toCol) && Aligned(fromRow, fromCol, toRow, toCol)
    ensures Heading(fromRow + Sign(toRow - fromRow), fromCol + Sign(toCol - fromCol), toRow, toCol,
                    Sign(toRow - fromRow), Sign(toCol - fromCol))
  {
  }

  /** One step of the scan stays on the way and gets closer to the destination. */
  lemma HeadingStep(g: Grid, row: int, col: int, toRow: int, toCol: int, rowStep: int, colStep: int)
    requires Heading(row, col, toRow, toCol, rowStep, colStep) && (row != toRow || col != toCol)
    ensures Heading(row + rowStep, col + colStep, toRow, toCol, rowStep, colStep)
    ensures Abs(toRow - row - rowStep) + Abs(toCol - col - colStep) < Abs(toRow - row) + Abs(toCol - col)
    ensures PathClear(g, row, col, toRow, toCol, rowStep, colStep) ==
            (!Occupied(g[row][col]) && PathClear(g, row + rowStep, col + colStep, toRow, toCol, rowStep, colStep))
  {
  }

  /** Number of unit steps from one square to an aligned one. */
  function Steps(row: int, col: int, toRow: int, toCol: int): nat {
    if Abs(toRow - row) < Abs(toCol - col) then Abs(toCol - col) else Abs(toRow - row)
  }

  /** Coordinate after i unit steps from `from` towards `to`. */
  function Along(from: int, to: int, i: int): int {
    if from < to then from + i else if to < from then from - i else from
  }

  /** Square (row, col) holds no piece; squares off the board hold none either. */
  ghost predicate Free(g: Grid, row: int, col: int) {
    InBoard(row, col) ==> !Occupied(g[row][col])
  }

  /** Squares lo, lo + 1, ... of the unit-step path from (row, col), short of the destination, are free. */
  ghost predicate ClearFrom(g: Grid, row: int, col: int, toRow: int, toCol: int, lo: int) {
    forall i :: lo <= i < Steps(row, col, toRow, toCol) ==> Free(g, Along(row, toRow, i), Along(col, toCol, i))
  }

  /** Every square strictly between origin and destination is empty. */
  ghost predicate InteriorClear(g: Grid, fromRow: int, fromCol: int, toRow: int, toCol: int) {
    ClearFrom(g, fromRow, fromCol, toRow, toCol, 1)
  }

  function IsValidPawnMove(g: Grid, pieceType: string, fromRow: int, fromCol: int, toRow: int, toCol: int): bool
    requires InBoard(fromRow, fromCol) && InBoard(toRow, toCol)
  {
    var direction := if pieceType == "P" then -1 else 1;
    if fromCol == toCol then
      (toRow == fromRow + direction && !Occupied(g[toRow][toCol])) ||
      (toRow == fromRow + 2 * direction && !Occupied(g[toRow][toCol]) &&
       !Occupied(g[fromRow + direction][toCol]) && (fromRow == 1 || fromRow == 6))
    else
      Abs(fromCol - toCol) == 1 && toRow == fromRow + direction && Occupied(g[toRow][toCol])
  }

  function IsValidRookMove(g: Grid, fromRow: int, fromCol: int, toRow: int, toCol: int): bool
    requires InBoard(fromRow, fromCol) && InBoard(toRow, toCol)
  {
    (fromRow == toRow || fromCol == toCol) && Scan(g, fromRow, fromCol, toRow, toCol)
  }

  function IsValidKnightMove(fromRow: int, fromCol: int, toRow: int, toCol: int): bool {
    (Abs(fromRow - toRow) == 2 && Abs(fromCol - toCol) == 1) ||
    (Abs(fromRow - toRow) == 1 && Abs(fromCol - toCol) == 2)
  }

  function IsValidBishopMove(g: Grid, fromRow: int, fromCol: int, toRow: int, toCol: int): bool
    requires InBoard(fromRow, fromCol) && InBoard(toRow, toCol)
  {
    Abs(fromRow - toRow) == Abs(fromCol - toCol) && Scan(g, fromRow, fromCol, toRow, toCol)
  }

  function IsValidQueenMove(g: Grid, fromRow: int, fromCol: int, toRow: int, toCol: int): bool
    requires InBoard(fromRow, fromCol) && InBoard(toRow, toCol)
  {
    IsValidRookMove(g, fromRow, fromCol, toRow, toCol) || IsValidBishopMove(g, fromRow, fromCol, toRow, toCol)
  }

  function IsValidKingMove(fromRow: int, fromCol: int, toRow: int, toCol: int): bool {
    Abs(fromRow - toRow) <= 1 && Abs(fromCol - toCol) <= 1
  }

  /** Dispatch on the lower-cased piece code; any other code moves nowhere. */
  function IsValidMove(g: Grid, piece: string, fromRow: int, fromCol: int, toRow: int, toCol: int): bool
    requires InBoard(fromRow, fromCol) && InBoard(toRow, toCol)
  {
    var kind := ToLower(piece);
    if kind == "p" then IsValidPawnMove(g, piece, fromRow, fromCol, toRow, toCol)
    else if kind == "r" then IsValidRookMove(g, fromRow, fromCol, toRow, toCol)
    else if kind == "n" then IsValidKnightMove(fromRow, fromCol, toRow, toCol)
    else if kind == "b" then IsValidBishopMove(g, fromRow, fromCol, toRow, toCol)
    else if kind == "q" then IsValidQueenMove(g, fromRow, fromCol, toRow, toCol)
    else if kind == "k" then IsValidKingMove(fromRow, fromCol, toRow, toCol)
    else false
  }

  // ---------------------------------------------------------------------
  // Sliding pieces: the scan agrees with "no piece strictly in between".

  /** Square i of the path from the square after (row, col) is square i + 1 of the path from (row, col). */
  lemma SquareShift(row: int, col: int, toRow: int, toCol: int, i: int)
    requires Aligned(row, col, toRow, toCol) && (row != toRow || col != toCol)
    requires 0 <= i < Steps(row, col, toRow, toCol) - 1
    ensures Along(row + Sign(toRow - row), toRow, i) == Along(row, toRow, i + 1)
    ensures Along(col + Sign(toCol - col), toCol, i) == Along(col, toCol, i + 1)
  {
  }

  /** The square after (row, col) is one step closer to the destination. */
  lemma StepsShift(row: int, col: int, toRow: int, toCol: int)
    requires Aligned(row, col, toRow, toCol) && (row != toRow || col != toCol)
    ensures Steps(row + Sign(toRow - row), col + Sign(toCol - col), toRow, toCol) == Steps(row, col, toRow, toCol) - 1
  {
  }

  /** Past its first square, the path from (row, col) is the path from the square after it. */
  lemma ClearShift(g: Grid, row: int, col: int, toRow: int, toCol: int)
    requires Aligned(row, col, toRow, toCol) && (row != toRow || col != toCol)
    ensures ClearFrom(g, row + Sign(toRow - row), col + Sign(toCol - col), toRow, toCol, 0) <==>
            ClearFrom(g, row, col, toRow, toCol, 1)
  {
    var nextRow, nextCol := row + Sign(toRow - row), col + Sign(toCol - col);
    var n := Steps(row, col, toRow, toCol);
    StepsShift(row, col, toRow, toCol);
    if ClearFrom(g, nextRow, nextCol, toRow, toCol, 0) {
      forall i | 1 <= i < n
        ensures Free(g, Along(row, toRow, i), Along(col, toCol, i))
      {
        SquareShift(row, col, toRow, toCol, i - 1);
        assert Free(g, Along(nextRow, toRow, i - 1), Along(nextCol, toCol, i - 1));
      }
    }
    if ClearFrom(g, row, col, toRow, toCol, 1) {
      forall j | 0 <= j < n - 1
        ensures Free(g, Along(nextRow, toRow, j), Along(nextCol, toCol, j))
      {
        SquareShift(row, col, toRow, toCol, j);
        assert Free(g, Along(row, toRow, j + 1), Along(col, toCol, j + 1));
      }
    }
  }

  /** The recursive scan holds exactly when every square it passes is empty. */
  lemma {:induction false} PathClearAll(g: Grid, row: int, col: int, toRow: int, toCol: int, rowStep: int, colStep: int)
    requires Heading(row, col, toRow, toCol, rowStep, colStep)
    ensures PathClear(g, row, col, toRow, toCol, rowStep, colStep) <==> ClearFrom(g, row, col, toRow, toCol, 0)
    decreases Abs(toRow - row) + Abs(toCol - col)
  {
    if row != toRow || col != toCol {
      HeadingStep(g, row, col, toRow, toCol, rowStep, colStep);
      PathClearAll(g, row + rowStep, col + colStep, toRow, toCol, rowStep, colStep);
      ClearFromStep(g, row, col, toRow, toCol);
    }
  }

  /** The path from (row, col) is clear iff its first square is free and the rest of it is clear. */
  lemma ClearFromStep(g: Grid, row: int, col: int, toRow: int, toCol: int)
    requires Aligned(row, col, toRow, toCol) && (row != toRow || col != toCol)
    ensures ClearFrom(g, row, col, toRow, toCol, 0) <==>
      Free(g, row, col) && ClearFrom(g, row + Sign(toRow - row), col + Sign(toCol - col), toRow, toCol, 0)
  {
    ClearShift(g, row, col, toRow, toCol);
    assert Along(row, toRow, 0) == row && Along(col, toCol, 0) == col;
  }

  /**
   * The scan a sliding piece runs from the square after its origin succeeds
   * exactly when no square strictly between origin and destination is
   * occupied.  A zero-length move has no such square.
   */
  lemma ScanIsInteriorClear(g: Grid, fromRow: int, fromCol: int, toRow: int, toCol: int)
    requires InBoard(fromRow, fromCol) && InBoard(toRow, toCol) && Aligned(fromRow, fromCol, toRow, toCol)
    ensures Scan(g, fromRow, fromCol, toRow, toCol) <==> InteriorClear(g, fromRow, fromCol, toRow, toCol)
  {
    HeadingStart(fromRow, fromCol, toRow, toCol);
    PathClearAll(g, fromRow + Sign(toRow - fromRow), fromCol + Sign(toCol - fromCol), toRow, toCol,
                 Sign(toRow - fromRow), Sign(toCol - fromCol));
    if fromRow != toRow || fromCol != toCol {
      ClearShift(g, fromRow, fromCol, toRow, toCol);
    }
  }

  /** Rook: legal iff the move is along a row or a column and nothing stands in between. */
  lemma RookRule(g: Grid, fromRow: int, fromCol: int, toRow: int, toCol: int)
    requires InBoard(fromRow, fromCol) && InBoard(toRow, toCol)
    ensures IsValidRookMove(g, fromRow, fromCol, toRow, toCol) <==>
      (fromRow == toRow || fromCol == toCol) && InteriorClear(g, fromRow, fromCol, toRow, toCol)
  {
    if fromRow == toRow || fromCol == toCol {
      ScanIsInteriorClear(g, fromRow, fromCol, toRow, toCol);
    }
  }

  /** Bishop: legal iff the move is along a diagonal and nothing stands in between. */
  lemma BishopRule(g: Grid, fromRow: int, fromCol: int, toRow: int, toCol: int)
    requires InBoard(fromRow, fromCol) && InBoard(toRow, toCol)
    ensures IsValidBishopMove(g, fromRow, fromCol, toRow, toCol) <==>
      Abs(fromRow - toRow) == Abs(fromCol - toCol) && InteriorClear(g, fromRow, fromCol, toRow, toCol)
  {
    if Abs(fromRow - toRow) == Abs(fromCol - toCol) {
      ScanIsInteriorClear(g, fromRow, fromCol, toRow, toCol);
    }
  }

  /** Queen: legal iff the move is along a row, column or diagonal and nothing stands in between. */
  lemma QueenRule(g: Grid, fromRow: int, fromCol: int, toRow: int, toCol: int)
    requires InBoard(fromRow, fromCol) && InBoard(toRow, toCol)
    ensures IsValidQueenMove(g, fromRow, fromCol, toRow, toCol) <==>
      Aligned(fromRow, fromCol, toRow, toCol) && InteriorClear(g, fromRow, fromCol, toRow, toCol)
  {
    RookRule(g, fromRow, fromCol, toRow, toCol);
    BishopRule(g, fromRow, fromCol, toRow, toCol);
  }

  /** A rook, bishop or queen dropped back on its own square makes a legal move: the scan has no square to look at. */
  lemma ZeroLengthSlide(g: Grid, row: int, col: int)
    requires InBoard(row, col)
    ensures IsValidRookMove(g, row, col, row, col)
    ensures IsValidBishopMove(g, row, col, row, col)
    ensures IsValidQueenMove(g, row, col, row, col)
  {
  }

  /**
   * The sliding rules never inspect the origin or the destination: two boards
   * that differ only there give the same verdict, so a rook, bishop or queen
   * may land on a piece of its own colour.
   */
  lemma SlidingIgnoresEndpoints(g: Grid, h: Grid, fromRow: int, fromCol: int, toRow: int, toCol: int)
    requires InBoard(fromRow, fromCol) && InBoard(toRow, toCol)
    requires forall row, col | InBoard(row, col) && (row, col) != (fromRow, fromCol) && (row, col) != (toRow, toCol) ::
      g[row][col] == h[row][col]
    ensures IsValidRookMove(g, fromRow, fromCol, toRow, toCol) == IsValidRookMove(h, fromRow, fromCol, toRow, toCol)
    ensures IsValidBishopMove(g, fromRow, fromCol, toRow, toCol) == IsValidBishopMove(h, fromRow, fromCol, toRow, toCol)
    ensures IsValidQueenMove(g, fromRow, fromCol, toRow, toCol) == IsValidQueenMove(h, fromRow, fromCol, toRow, toCol)
  {
    RookRule(g, fromRow, fromCol, toRow, toCol);
    RookRule(h, fromRow, fromCol, toRow, toCol);
    BishopRule(g, fromRow, fromCol, toRow, toCol);
    BishopRule(h, fromRow, fromCol, toRow, toCol);
    if Aligned(fromRow, fromCol, toRow, toCol) {
      var n := Steps(fromRow, fromCol, toRow, toCol);
      forall i | 0 < i < n
        ensures g[Along(fromRow, toRow, i)][Along(fromCol, toCol, i)] == h[Along(fromRow, toRow, i)][Along(fromCol, toCol, i)]
      {
        var row, col := Along(fromRow, toRow, i), Along(fromCol, toCol, i);
        assert (row, col) != (fromRow, fromCol) && (row, col) != (toRow, toCol);
      }
    }
  }

  // ---------------------------------------------------------------------
  // Knight and king: geometry only.

  /** A knight moves two squares one way and one the other, whatever the board holds. */
  lemma KnightRule(g: Grid, piece: string, fromRow: int, fromCol: int, toRow: int, toCol: int)
    requires InBoard(fromRow, fromCol) && InBoard(toRow, toCol)
    requires ToLower(piece) == "n"
    ensures IsValidMove(g, piece, fromRow, fromCol, toRow, toCol) <==>
      (Abs(toRow - fromRow), Abs(toCol - fromCol)) in {(2, 1), (1, 2)}
  {
  }

  /** A king moves at most one square each way, the zero move included, whatever the board holds. */
  lemma KingRule(g: Grid, piece: string, fromRow: int, fromCol: int, toRow: int, toCol: int)
    requires InBoard(fromRow, fromCol) && InBoard(toRow, toCol)
    requires ToLower(piece) == "k"
    ensures IsValidMove(g, piece, fromRow, fromCol, toRow, toCol) <==>
      -1 <= toRow - fromRow <= 1 && -1 <= toCol - fromCol <= 1
    ensures IsValidMove(g, piece, fromRow, fromCol, fromRow, fromCol)
  {
  }

  /** Codes whose lower case is none of p, r, n, b, q, k are never legal. */
  lemma UnknownKind(g: Grid, piece: string, fromRow: int, fromCol: int, toRow: int, toCol: int)
    requires InBoard(fromRow, fromCol) && InBoard(toRow, toCol)
    requires ToLower(piece) !in {"p", "r", "n", "b", "q", "k"}
    ensures !IsValidMove(g, piece, fromRow, fromCol, toRow, toCol)
  {
  }

  // ---------------------------------------------------------------------
  // Pawns.

  /** A white pawn only moves up the board (towards row 0), a black pawn only down. */
  lemma PawnForward(g: Grid, piece: string, fromRow: int, fromCol: int, toRow: int, toCol: int)
    requires InBoard(fromRow, fromCol) && InBoard(toRow, toCol)
    requires IsValidMove(g, piece, fromRow, fromCol, toRow, toCol) && ToLower(piece) == "p"
    ensures piece == "P" ==> toRow == fromRow - 1 || toRow == fromRow - 2
    ensures piece != "P" ==> toRow == fromRow + 1 || toRow == fromRow + 2
  {
  }

  /**
   * The double step.  The code accepts it from row 1 or row 6 whatever the
   * colour, but on an 8x8 board only the pawn's own home rank leaves room for
   * it: row 6 for "P", row 1 for "p".  Both squares it crosses must be empty.
   */
  lemma PawnDoubleStep(g: Grid, piece: string, fromRow: int, fromCol: int, toRow: int, toCol: int)
    requires InBoard(fromRow, fromCol) && InBoard(toRow, toCol)
    requires piece == "P" || piece == "p"
    requires Abs(toRow - fromRow) == 2
    ensures IsValidMove(g, piece, fromRow, fromCol, toRow, toCol) <==>
      fromCol == toCol &&
      fromRow == (if piece == "P" then 6 else 1) &&
      toRow == (if piece == "P" then 4 else 3) &&
      !Occupied(g[(fromRow + toRow) / 2][toCol]) && !Occupied(g[toRow][toCol])
  {
  }

  /** The single step goes one row forward in the same column onto an empty square. */
  lemma PawnSingleStep(g: Grid, piece: string, fromRow: int, fromCol: int, toRow: int, toCol: int)
    requires InBoard(fromRow, fromCol) && InBoard(toRow, toCol)
    requires piece == "P" || piece == "p"
    requires fromCol == toCol && Abs(toRow - fromRow) == 1
    ensures IsValidMove(g, piece, fromRow, fromCol, toRow, toCol) <==>
      toRow == fromRow + (if piece == "P" then -1 else 1) && !Occupied(g[toRow][toCol])
  {
  }

  /**
   * The diagonal step goes one row forward and one column aside, and needs an
   * occupied destination; the occupant may be of either colour.
   */
  lemma PawnDiagonal(g: Grid, piece: string, fromRow: int, fromCol: int, toRow: int, toCol: int)
    requires InBoard(fromRow, fromCol) && InBoard(toRow, toCol)
    requires piece == "P" || piece == "p"
    requires fromCol != toCol
    ensures IsValidMove(g, piece, fromRow, fromCol, toRow, toCol) <==>
      Abs(toCol - fromCol) == 1 && toRow == fromRow + (if piece == "P" then -1 else 1) &&
      Occupied(g[toRow][toCol])
  {
  }
}
