// The page's mutable game: a board array updated in place, the side to move,
// and the two capture trays.  The legality checks of the sliding pieces scan
// the array with a loop; each check is proved to agree with its rule in
// module Moves, and a move attempt with the function Play.Attempt.

module Engine {
  import opened Pieces
  import opened Board
  import opened Moves
  import opened Play

  class Game {
    var board: array2<string>
    var currentPlayer: Player
    var captured1: seq<string>  // black pieces taken
    var captured2: seq<string>  // white pieces taken

    ghost predicate Valid()
      reads this
    {
      board.Length0 == 8 && board.Length1 == 8
    }

    /** The contents of the board array as a value. */
    function Cells(): (cells: Grid)
      reads this, board
      requires Valid()
    {
      var b := board;
      seq(8, r requires 0 <= r < 8 reads b => seq(8, c requires 0 <= c < 8 reads b => b[r, c]))
    }

    /** The whole game state as a value. */
    ghost function Snapshot(): State
      reads this, board
      requires Valid()
    {
      State(Cells(), currentPlayer, captured1, captured2)
    }

    /** A fresh copy of the starting position, white to move, both trays empty. */
    constructor ()
      ensures Valid() && fresh(board)
      ensures Snapshot() == Initial()
    {
      board := new string[8, 8]((r, c) requires 0 <= r < 8 && 0 <= c < 8 => InitialBoard[r][c]);
      currentPlayer := White;
      captured1, captured2 := [], [];
      new;
      SameGrid(Cells(), InitialBoard);
    }

    /**
     * The loop shared by the rook and the bishop: step from the square after
     * the origin towards the destination and fail on the first occupied
     * square before it.
     */
    method ClearPath(fromRow: int, fromCol: int, toRow: int, toCol: int) returns (clear: bool)
      requires Valid() && InBoard(fromRow, fromCol) && InBoard(toRow, toCol)
      requires Aligned(fromRow, fromCol, toRow, toCol)
      ensures clear == Scan(Cells(), fromRow, fromCol, toRow, toCol)
    {
      ghost var g := Cells();
      var rowIncrement := Sign(toRow - fromRow);
      var colIncrement := Sign(toCol - fromCol);
      var row := fromRow + rowIncrement;
      var col := fromCol + colIncrement;
      HeadingStart(fromRow, fromCol, toRow, toCol);
      while row != toRow || col != toCol
        invariant Heading(row, col, toRow, toCol, rowIncrement, colIncrement)
        invariant Scan(g, fromRow, fromCol, toRow, toCol) ==
                  PathClear(g, row, col, toRow, toCol, rowIncrement, colIncrement)
        decreases Abs(toRow - row) + Abs(toCol - col)
      {
        HeadingStep(g, row, col, toRow, toCol, rowIncrement, colIncrement);
        if board[row, col] != "" {
          assert Cells() == g;
          return false;
        }
        row := row + rowIncrement;
        col := col + colIncrement;
      }
      assert Cells() == g;
      return true;
    }

    method ValidRookMove(fromRow: int, fromCol: int, toRow: int, toCol: int) returns (valid: bool)
      requires Valid() && InBoard(fromRow, fromCol) && InBoard(toRow, toCol)
      ensures valid == IsValidRookMove(Cells(), fromRow, fromCol, toRow, toCol)
    {
      if fromRow == toRow || fromCol == toCol {
        valid := ClearPath(fromRow, fromCol, toRow, toCol);
      } else {
        valid := false;
      }
    }

    method ValidBishopMove(fromRow: int, fromCol: int, toRow: int, toCol: int) returns (valid: bool)
      requires Valid() && InBoard(fromRow, fromCol) && InBoard(toRow, toCol)
      ensures valid == IsValidBishopMove(Cells(), fromRow, fromCol, toRow, toCol)
    {
      if Abs(fromRow - toRow) == Abs(fromCol - toCol) {
        valid := ClearPath(fromRow, fromCol, toRow, toCol);
      } else {
        valid := false;
      }
    }

    method ValidQueenMove(fromRow: int, fromCol: int, toRow: int, toCol: int) returns (valid: bool)
      requires Valid() && InBoard(fromRow, fromCol) && InBoard(toRow, toCol)
      ensures valid == IsValidQueenMove(Cells(), fromRow, fromCol, toRow, toCol)
    {
      valid := ValidRookMove(fromRow, fromCol, toRow, toCol);
      if !valid {
        valid := ValidBishopMove(fromRow, fromCol, toRow, toCol);
      }
    }

    /** Dispatch on the lower-cased code of the dragged piece. */
    method ValidMove(piece: string, fromRow: int, fromCol: int, toRow: int, toCol: int) returns (valid: bool)
      requires Valid() && InBoard(fromRow, fromCol) && InBoard(toRow, toCol)
      ensures valid == IsValidMove(Cells(), piece, fromRow, fromCol, toRow, toCol)
    {
      var kind := ToLower(piece);
      if kind == "p" {
        valid := IsValidPawnMove(Cells(), piece, fromRow, fromCol, toRow, toCol);
      } else if kind == "r" {
        valid := ValidRookMove(fromRow, fromCol, toRow, toCol);
      } else if kind == "n" {
        valid := IsValidKnightMove(fromRow, fromCol, toRow, toCol);
      } else if kind == "b" {
        valid := ValidBishopMove(fromRow, fromCol, toRow, toCol);
      } else if kind == "q" {
        valid := ValidQueenMove(fromRow, fromCol, toRow, toCol);
      } else if kind == "k" {
        valid := IsValidKingMove(fromRow, fromCol, toRow, toCol);
      } else {
        valid := false;
      }
    }

    /**
     * Picking up `piece` at (fromRow, fromCol) and dropping it on
     * (toRow, toCol).  The gate of the pick-up refuses a piece of the side
     * not to move; the drop refuses a move the piece's rule rejects.  Either
     * refusal leaves everything as it was.  Otherwise the piece on the
     * destination (if any) goes to the tray of its colour, the destination
     * receives what the origin held, the origin is cleared and the turn
     * passes to the other side.
     */
    method AttemptMove(piece: string, fromRow: int, fromCol: int, toRow: int, toCol: int) returns (outcome: Outcome)
      requires Valid() && InBoard(fromRow, fromCol) && InBoard(toRow, toCol)
      modifies this, board
      ensures Valid() && board == old(board)
      ensures (Snapshot(), outcome) == Attempt(old(Snapshot()), piece, fromRow, fromCol, toRow, toCol)
    {
      if !Owns(currentPlayer, piece) {
        return OpponentsTurn;
      }
      var valid := ValidMove(piece, fromRow, fromCol, toRow, toCol);
      if !valid {
        return InvalidMove;
      }
      ghost var before := Cells();
      var taken := None;
      if (fromRow, fromCol) != (toRow, toCol) && board[toRow, toCol] != "" {
        var capturedPiece := board[toRow, toCol];
        taken := Some(capturedPiece);
        if capturedPiece == ToUpper(capturedPiece) {
          captured2 := captured2 + [capturedPiece];
        } else {
          captured1 := captured1 + [capturedPiece];
        }
      }
      board[toRow, toCol] := board[fromRow, fromCol];
      board[fromRow, fromCol] := "";
      currentPlayer := Other(currentPlayer);
      outcome := Moved(taken);
      SameGrid(Cells(), Apply(before, fromRow, fromCol, toRow, toCol));
    }
  }
}
