// Piece codes, the two sides and the ownership test of the turn gate.
//
// A square of the board holds a string: "" when it is empty, otherwise a
// one-letter piece code.  Upper case is white, lower case is black, and the
// letter is the kind: P pawn, R rook, N knight, B bishop, Q queen, K king.

module Pieces {

  datatype Option<T> = None | Some(value: T)

  /** The side to move: the page keeps it as the string 'white' or 'black'. */
  datatype Player = White | Black

  /** The side that moves after `p`. */
  function Other(p: Player): (q: Player)
    ensures q != p
  {
    match p
    case White => Black
    case Black => White
  }

  /** A square is occupied when its string is not "" (the truthiness test of the page). */
  predicate Occupied(cell: string) {
    cell != ""
  }

  /** toUpperCase on one character, for ASCII letters. */
  function UpperChar(c: char): char {
    if 'a' <= c <= 'z' then (c as int - 32) as char else c
  }

  /** toLowerCase on one character, for ASCII letters. */
  function LowerChar(c: char): char {
    if 'A' <= c <= 'Z' then (c as int + 32) as char else c
  }

  function ToUpper(s: string): string {
    seq(|s|, i requires 0 <= i < |s| => UpperChar(s[i]))
  }

  function ToLower(s: string): string {
    seq(|s|, i requires 0 <= i < |s| => LowerChar(s[i]))
  }

  /** A string that upper-casing leaves alone: the page's test for a white piece. */
  predicate IsUpper(s: string) {
    s == ToUpper(s)
  }

  /** A string that lower-casing leaves alone: the page's test for a black piece. */
  predicate IsLower(s: string) {
    s == ToLower(s)
  }

  /** One of the twelve codes that appear on the board. */
  predicate IsPieceCode(s: string) {
    |s| == 1 && s[0] in "PRNBQKprnbqk"
  }

  /** A piece code of the white side (upper-case letter). */
  predicate IsWhiteCode(s: string) {
    IsPieceCode(s) && 'A' <= s[0] <= 'Z'
  }

  /** A piece code of the black side (lower-case letter). */
  predicate IsBlackCode(s: string) {
    IsPieceCode(s) && 'a' <= s[0] <= 'z'
  }

  /**
   * The turn gate: white may only pick up a piece whose code upper-casing
   * leaves unchanged, black only one that lower-casing leaves unchanged.
   */
  predicate Owns(turn: Player, piece: string) {
    match turn
    case White => IsUpper(piece)
    case Black => IsLower(piece)
  }

  /**
   * On the twelve piece codes the case tests agree with the colour of the
   * letter, so every piece code belongs to exactly one side.
   */
  lemma OwnerOfCode(p: string)
    requires IsPieceCode(p)
    ensures Owns(White, p) == IsUpper(p) == IsWhiteCode(p)
    ensures Owns(Black, p) == IsLower(p) == IsBlackCode(p)
    ensures Owns(White, p) != Owns(Black, p)
  {
  }
}
