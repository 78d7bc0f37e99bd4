# Chess page move engine, modelled in Dafny

`script.js` runs a drag-and-drop chessboard in a browser. Its core is a move
engine. It keeps an 8x8 array of one-letter piece codes, starting from
`initialBoard`. Upper case is white, lower case is black and `''` is an empty
square. It also keeps the side to move, `currentPlayer`, and two capture trays.

- When a piece is picked up, the turn gate (`dragStart`) refuses a piece that
  does not belong to the side to move.
- When the piece is dropped (`drop`), `isValidMove` dispatches on the
  lower-cased code to one rule per kind of piece. The rook and bishop rules
  scan the squares between origin and destination with a `while` loop.
- A legal move sends the piece on the destination (if any) to the tray of its
  colour. The destination receives what the origin held, the origin is cleared
  and the turn passes.

The model has five modules:

- `Pieces` (`pieces.dfy`): piece codes, the two sides, upper/lower case and
  the ownership test of the turn gate.
- `Board` (`board.dfy`): the board as a value (`Grid`), the starting layout,
  the effect of a move (`Apply`) and the piece count.
- `Moves` (`moves.dfy`): the move rules as pure functions, mirroring the
  source function by function. Each rule is proved equal to a plain statement
  of what it allows. For the sliding pieces that statement is "the move is
  along a line and no square strictly in between is occupied".
- `Play` (`play.dfy`): one move attempt as a function on the whole game state
  (`Attempt`), with what it preserves.
- `Engine` (class `Game` in `game.dfy`): the page's mutable state.
  - The board is an `array2<string>` updated in place.
  - The side to move and the trays are fields.
  - The scanning loop of the rook and bishop is a method proved against the
    recursive scan function.
  - `AttemptMove` mirrors `dragStart` followed by `drop`, and is proved to
    produce exactly the state and outcome of `Play.Attempt`.

The two notices the page shows on a refusal ("Opponent's turn!",
"Invalid move!") are the outcome codes `OpponentsTurn` and `InvalidMove`.

The rules are a reduced subset of the movement rules in Article 3 of the FIDE
Laws of Chess. The model keeps the deviations exactly as the code has them:

- there is no check, castling, en passant or promotion;
- no rule looks at the colour of the piece on the destination, so any piece
  may take a piece of its own side;
- the rook, bishop, queen and king accept a zero-length move;
- the double-step test checks row 1 or row 6 for either colour, but on the
  board only the pawn's own home row passes it (`Moves.PawnDoubleStep`).

## Model

| member | source | states |
|---|---|---|
| Pieces.Owns | script.js:56-57 | definition of the turn gate; its properties are stated by Pieces.OwnerOfCode and Play.AttemptTurn |
| Board.InitialBoard | script.js:12-21 | definition of the starting layout; its properties are stated by Play.InitialWellFormed and the Play scenario lemmas |
| Moves.PathClear | script.js:149-153 | definition of the scan loop; its properties are stated by Moves.PathClearAll |
| Moves.Scan | script.js:145-148 | definition of the scan's set-up; its properties are stated by Moves.ScanIsInteriorClear |
| Moves.IsValidPawnMove | script.js:132-141 | definition; its properties are stated by Moves.PawnForward, PawnDoubleStep, PawnSingleStep and PawnDiagonal |
| Moves.IsValidRookMove | script.js:143-157 | definition; its properties are stated by Moves.RookRule, ZeroLengthSlide and SlidingIgnoresEndpoints |
| Moves.IsValidKnightMove | script.js:159-161 | definition; its properties are stated by Moves.KnightRule |
| Moves.IsValidBishopMove | script.js:163-177 | definition; its properties are stated by Moves.BishopRule, ZeroLengthSlide and SlidingIgnoresEndpoints |
| Moves.IsValidQueenMove | script.js:179-181 | definition; its properties are stated by Moves.QueenRule, ZeroLengthSlide and SlidingIgnoresEndpoints |
| Moves.IsValidKingMove | script.js:183-185 | definition; its properties are stated by Moves.KingRule |
| Moves.IsValidMove | script.js:114-130 | definition of the dispatch; its properties are stated by Moves.KnightRule, KingRule, UnknownKind and the pawn lemmas |
| Play.Capture | script.js:82-83 | definition of what a move takes; its properties are stated by Play.AttemptConserves and ZeroMoveLosesPiece |
| Play.Stow | script.js:86-90 | definition of the routing to a tray; its properties are stated by Play.AttemptConserves and AttemptKeepsWellFormed |
| Play.Attempt | script.js:55-108 | definition of one attempt; its properties are stated by Play.AttemptTurn, AttemptCount, AttemptConserves, ZeroMoveLosesPiece and AttemptKeepsWellFormed |
| Pieces.Other | script.js:105 | the turn always passes to the other side |
| Pieces.OwnerOfCode | script.js:56-57 | on the twelve piece codes, the upper/lower-case comparison of the gate matches the letter's colour, and each code belongs to exactly one side |
| Board.Apply | script.js:94-95 | after a move the origin is empty, the destination holds what the origin held (unless the two coincide), and every other square is unchanged |
| Board.CountUpdate | script.js:94-95 | overwriting one square changes the piece count by what arrived minus what left |
| Board.ApplyCount | script.js:94-95 | a move removes exactly the piece that stood on the destination, so the count drops by at most one |
| Moves.PathClearAll | script.js:149-153 | the scan loop, as a recursion stepping by fixed increments, succeeds iff every square it passes before the destination is empty |
| Moves.ScanIsInteriorClear | script.js:145-154 | the scan set up from the signs of the displacement, starting one step from the origin, succeeds iff no square strictly between origin and destination is occupied |
| Moves.RookRule | script.js:143-157 | a rook move is legal iff it is along a row or a column and no square strictly in between is occupied |
| Moves.BishopRule | script.js:163-177 | a bishop move is legal iff abs(Δrow) = abs(Δcol) and no square strictly in between is occupied |
| Moves.QueenRule | script.js:179-181 | a queen move is legal iff it is along a row, column or diagonal and no square strictly in between is occupied |
| Moves.ZeroLengthSlide | script.js:143-181 | a rook, bishop or queen may be dropped back on its own square |
| Moves.SlidingIgnoresEndpoints | script.js:143-181 | two boards that differ only on the origin and the destination give the same rook, bishop and queen verdicts, so the occupant of the destination is never inspected |
| Moves.KnightRule | script.js:159-161 | a knight move is legal iff (abs(Δrow), abs(Δcol)) is (2, 1) or (1, 2), on any board |
| Moves.KingRule | script.js:183-185 | a king move is legal iff it moves at most one square each way, the zero move included, on any board |
| Moves.UnknownKind | script.js:121-129 | a code whose lower case is none of p, r, n, b, q, k never moves |
| Moves.PawnForward | script.js:132-141 | a legal move of "P" goes one or two rows towards row 0; any other pawn code goes one or two rows towards row 7 |
| Moves.PawnDoubleStep | script.js:136 | a two-row pawn move is legal iff it stays in its column, starts on the pawn's own home row (row 6 for "P", row 1 for "p") and both squares it crosses are empty |
| Moves.PawnSingleStep | script.js:135 | a one-row move in the same column is legal iff it goes forward onto an empty square |
| Moves.PawnDiagonal | script.js:137-140 | a pawn move that changes column is legal iff it goes one column aside, one row forward, onto an occupied square of either colour |
| Play.AttemptTurn | script.js:55-108 | the gate is consulted first: an out-of-turn piece is refused whatever the move; a move goes through iff the piece is the mover's and its rule allows it; the turn then passes; a refusal changes nothing |
| Play.AttemptCount | script.js:94-95 | an attempt never adds a piece to the board and removes at most one |
| Play.AttemptConserves | script.js:82-95 | between two different squares the piece taken off the board is the one added to a tray: upper case to captured2, anything else to captured1; a move onto an empty square captures nothing and leaves both trays unchanged |
| Play.ZeroMoveLosesPiece | script.js:94-95 | a piece dropped back on its own square vanishes: the square ends empty, nothing is captured and the trays are unchanged |
| Play.InitialWellFormed | script.js:12-24 | the starting position holds only piece codes and empty squares, and both trays are empty |
| Play.AttemptKeepsWellFormed | script.js:82-105 | every attempt keeps the board made of piece codes and each tray holding pieces of one colour only |
| Play.OpeningDoubleStep | script.js:132-136 | from the start, white's pawn double step e2-e4 goes through and black is to move |
| Play.BlackCannotOpen | script.js:55-65 | from the start, a black piece is refused as out of turn and nothing changes |
| Play.RookBlockedAtStart | script.js:143-157 | from the start, a rook cannot slide past its own knight |
| Play.KnightJumpsAtStart | script.js:159-161 | from the start, a knight jumps over its pawns |
| Play.KingTakesOwnPawn | script.js:82-95 | from the start, the king may take its own pawn, which goes to captured2 |
| Play.KingVanishesAtStart | script.js:94-95 | from the start, a king dropped back on its square disappears and the turn passes |
| Engine.Game.constructor | script.js:12-24 | a new game holds a fresh copy of the starting layout, white to move, both trays empty |
| Engine.Game.ClearPath | script.js:145-154 | the while loop over the board array returns exactly the verdict of the recursive scan |
| Engine.Game.ValidRookMove | script.js:143-157 | the rook check on the array agrees with the rook rule on the board's contents |
| Engine.Game.ValidBishopMove | script.js:163-177 | the bishop check on the array agrees with the bishop rule on the board's contents |
| Engine.Game.ValidQueenMove | script.js:179-181 | the queen check on the array agrees with the queen rule on the board's contents |
| Engine.Game.ValidMove | script.js:114-130 | the dispatch on the array agrees with the dispatch on the board's contents |
| Engine.Game.AttemptMove | script.js:55-111 | the in-place update of the array, the side to move and the trays produces exactly the new state and outcome of Play.Attempt |

## Left out

- DOM rendering (`createBoard`), the glyph map `pieces` and the element lookups: presentation only.
- The drag-and-drop plumbing (`dragOver`, `preventDefault`, `style.display`, `setTimeout`, `appendChild` of piece elements, `parseInt` of `dataset` attributes). The model takes the dragged piece's code and the two coordinate pairs as inputs.
- `showToast` and its timer: a refusal is reported as the outcome code `OpponentsTurn` or `InvalidMove`.
- Coordinates outside 0..7, and the crash in `drop` when no piece is being dragged, are excluded by preconditions. These are browser-input artefacts.
- Case mapping covers ASCII letters only, which includes every piece code. Full Unicode `toUpperCase`/`toLowerCase` is not modelled.
- The code does not route the capture from the board array. It routes whatever DOM element sits on the target square. The model routes from the board, and the two agree while the page and the array agree.
  - Dropping a piece back on its own square puts its element into a tray and straight back onto the square, so nothing is captured. The array square is cleared, however (`Play.ZeroMoveLosesPiece`).
  - From then on the page shows a piece that the array no longer holds. That divergence of the DOM from the array is not modelled.
- The destination receives the origin square's content (`board[fromRow][fromCol]`), as the code writes it, and not the dragged element's code. The two are the same whenever the page and the array agree.
- Concurrency and timing: the page is single-threaded and each drop is modelled as one atomic attempt.
