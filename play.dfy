// One attempt to move a piece, as a function on the whole game state: the
// turn gate, the legality check, the capture routed to a tray by colour, the
// board update and the change of turn.

module Play {
  import opened Pieces
  import opened Board
  import opened Moves

  /** Why an attempt did or did not go through (the notice the page shows on a rejection). */
  datatype Outcome =
    | Moved(captured: Option<string>)  // the move was made; the piece taken, if any
    | OpponentsTurn                     // "Opponent's turn!": the piece is not the mover's
    | InvalidMove                       // "Invalid move!": the piece's rule rejects the move

  /**
   * The board, the side to move, and the two capture trays: `captured1`
   * receives taken lower-case (black) pieces, `captured2` upper-case (white) ones.
   */
  datatype State = State(board: Grid, turn: Player, captured1: seq<string>, captured2: seq<string>)

  function Initial(): State {
    State(InitialBoard, White, [], [])
  }

  /**
   * The piece a move takes: whatever occupies the destination.  A piece
   * dropped back on its own square lands in a tray and is put straight back
   * on the square, so that move takes nothing.
   */
  function Capture(g: Grid, fromRow: int, fromCol: int, toRow: int, toCol: int): Option<string>
    requires InBoard(fromRow, fromCol) && InBoard(toRow, toCol)
  {
    if (fromRow, fromCol) != (toRow, toCol) && Occupied(g[toRow][toCol]) then Some(g[toRow][toCol]) else None
  }

  /** Puts a taken piece into the tray of its colour, decided by the upper-case test. */
  function Stow(s: State, taken: Option<string>): State {
    match taken
    case None => s
    case Some(p) =>
      if IsUpper(p) then s.(captured2 := s.captured2 + [p])
      else s.(captured1 := s.captured1 + [p])
  }

  /**
   * An attempt to move `piece` from (fromRow, fromCol) to (toRow, toCol).
   * The gate runs first, the piece's rule second; only a move that passes
   * both changes anything.  The destination receives what the origin square
   * held.
   */
  function Attempt(s: State, piece: string, fromRow: int, fromCol: int, toRow: int, toCol: int): (State, Outcome)
    requires InBoard(fromRow, fromCol) && InBoard(toRow, toCol)
  {
    if !Owns(s.turn, piece) then (s, OpponentsTurn)
    else if !IsValidMove(s.board, piece, fromRow, fromCol, toRow, toCol) then (s, InvalidMove)
    else
      var taken := Capture(s.board, fromRow, fromCol, toRow, toCol);
      var stowed := Stow(s, taken);
      (stowed.(board := Apply(s.board, fromRow, fromCol, toRow, toCol), turn := Other(s.turn)), Moved(taken))
  }

  // ---------------------------------------------------------------------
  // The turn.

  /**
   * The gate comes before the rules: a piece of the other side is refused as
   * out of turn, whatever the move.  A move goes through exactly when the
   * piece is the mover's and its rule allows the move; then the turn passes
   * to the other side.  A refused attempt changes nothing at all.
   */
  lemma AttemptTurn(s: State, piece: string, fromRow: int, fromCol: int, toRow: int, toCol: int)
    requires InBoard(fromRow, fromCol) && InBoard(toRow, toCol)
    ensures var (t, o) := Attempt(s, piece, fromRow, fromCol, toRow, toCol);
      && (o == OpponentsTurn <==> !Owns(s.turn, piece))
      && (o.Moved? <==> Owns(s.turn, piece) && IsValidMove(s.board, piece, fromRow, fromCol, toRow, toCol))
      && (o.Moved? ==> t.turn == Other(s.turn))
      && (!o.Moved? ==> t == s)
  {
  }

  // ---------------------------------------------------------------------
  // The board and the trays.

  /**
   * A move that goes through removes at most one piece from the board and
   * never adds one.
   */
  lemma AttemptCount(s: State, piece: string, fromRow: int, fromCol: int, toRow: int, toCol: int)
    requires InBoard(fromRow, fromCol) && InBoard(toRow, toCol)
    ensures var (t, o) := Attempt(s, piece, fromRow, fromCol, toRow, toCol);
      Count(t.board) <= Count(s.board) <= Count(t.board) + 1
  {
    ApplyCount(s.board, fromRow, fromCol, toRow, toCol);
  }

  /**
   * Between two different squares no piece is lost: the one taken off the
   * board is the one added to a tray, and it goes to the tray of its colour.
   * A move onto an empty square takes nothing and leaves both trays alone.
   */
  lemma AttemptConserves(s: State, piece: string, fromRow: int, fromCol: int, toRow: int, toCol: int)
    requires InBoard(fromRow, fromCol) && InBoard(toRow, toCol)
    requires (fromRow, fromCol) != (toRow, toCol)
    ensures var (t, o) := Attempt(s, piece, fromRow, fromCol, toRow, toCol);
      && Count(t.board) + |t.captured1| + |t.captured2| == Count(s.board) + |s.captured1| + |s.captured2|
      && (o.Moved? && Occupied(s.board[toRow][toCol]) ==>
            o.captured == Some(s.board[toRow][toCol]) &&
            if IsUpper(s.board[toRow][toCol])
            then t.captured2 == s.captured2 + [s.board[toRow][toCol]] && t.captured1 == s.captured1
            else t.captured1 == s.captured1 + [s.board[toRow][toCol]] && t.captured2 == s.captured2)
      && (o.Moved? && !Occupied(s.board[toRow][toCol]) ==>
            o.captured == None && t.captured1 == s.captured1 && t.captured2 == s.captured2)
  {
    ApplyCount(s.board, fromRow, fromCol, toRow, toCol);
  }

  /**
   * A piece that is dropped back on its own square (a king or a sliding piece
   * may do this) vanishes from the board: the square is written and then
   * cleared, and no tray receives the piece.
   */
  lemma ZeroMoveLosesPiece(s: State, piece: string, row: int, col: int)
    requires InBoard(row, col)
    requires Attempt(s, piece, row, col, row, col).1.Moved?
    ensures var (t, o) := Attempt(s, piece, row, col, row, col);
      && t.board[row][col] == ""
      && o.captured == None
      && t.captured1 == s.captured1 && t.captured2 == s.captured2
      && Count(t.board) + Occ(s.board[row][col]) == Count(s.board)
  {
    ApplyCount(s.board, row, col, row, col);
  }

  // ---------------------------------------------------------------------
  // An invariant of every game: the board holds only piece codes, and each
  // tray holds only pieces of one colour.

  ghost predicate WellFormed(s: State) {
    && (forall row, col | InBoard(row, col) :: s.board[row][col] == "" || IsPieceCode(s.board[row][col]))
    && (forall p | p in s.captured1 :: IsBlackCode(p))
    && (forall p | p in s.captured2 :: IsWhiteCode(p))
  }

  lemma InitialWellFormed()
    ensures WellFormed(Initial())
  {
  }

  /** Every attempt, refused or not, keeps the board stocked and the trays sorted by colour. */
  lemma AttemptKeepsWellFormed(s: State, piece: string, fromRow: int, fromCol: int, toRow: int, toCol: int)
    requires InBoard(fromRow, fromCol) && InBoard(toRow, toCol)
    requires WellFormed(s)
    ensures WellFormed(Attempt(s, piece, fromRow, fromCol, toRow, toCol).0)
  {
  }

  // ---------------------------------------------------------------------
  // Attempts from the starting position.

  /** White opens with a pawn's double step; black is to move next. */
  lemma OpeningDoubleStep()
    ensures var (t, o) := Attempt(Initial(), "P", 6, 4, 4, 4);
      o == Moved(None) && t.turn == Black && t.board[4][4] == "P" && t.board[6][4] == ""
  {
  }

  /** Black may not move first: the gate refuses and nothing changes. */
  lemma BlackCannotOpen()
    ensures Attempt(Initial(), "p", 1, 4, 3, 4) == (Initial(), OpponentsTurn)
  {
  }

  /** A rook cannot slide past the knight beside it. */
  lemma RookBlockedAtStart()
    ensures Attempt(Initial(), "R", 7, 0, 7, 2) == (Initial(), InvalidMove)
  {
  }

  /** A knight jumps over the pawns in front of it. */
  lemma KnightJumpsAtStart()
    ensures Attempt(Initial(), "N", 7, 1, 5, 2).1 == Moved(None)
  {
    assert ToUpper("N") == "N" && ToLower("N") == "n";
  }

  /** The king may step onto its own pawn, which goes to the white tray. */
  lemma KingTakesOwnPawn()
    ensures var (t, o) := Attempt(Initial(), "K", 7, 4, 6, 4);
      o == Moved(Some("P")) && t.captured2 == ["P"] && t.captured1 == [] && t.board[6][4] == "K"
  {
    assert ToUpper("K") == "K" && ToLower("K") == "k" && ToUpper("P") == "P";
  }

  /** A king dropped back on its own square disappears from the board. */
  lemma KingVanishesAtStart()
    ensures var (t, o) := Attempt(Initial(), "K", 7, 4, 7, 4);
      o == Moved(None) && t.board[7][4] == "" && t.turn == Black
  {
    assert ToUpper("K") == "K" && ToLower("K") == "k";
  }
}
