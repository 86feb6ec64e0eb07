/**
 * What the scripts take from the UCI engine and the chess library (moves, pieces, scores),
 * and the per-move centipawn-loss (CPL) rule every analyser applies to engine scores.
 */
module Engine {

  /** A move as the engine and the chess library report it, by its UCI text ("e2e4", "e7e8q"). */
  type Move = string

  /** A piece type as the chess library names it. */
  datatype PieceKind = Pawn | Knight | Bishop | Rook | Queen | King

  /** A piece on the board: its type and colour. */
  datatype Piece = Piece(kind: PieceKind, white: bool)

  /** The piece's letter in FEN and SAN: upper case for White, lower case for Black. */
  function Symbol(p: Piece): (c: char)
    ensures p.white <==> 'A' <= c <= 'Z'
  {
    var upper := match p.kind
      case Pawn => 'P' case Knight => 'N' case Bishop => 'B'
      case Rook => 'R' case Queen => 'Q' case King => 'K';
    if p.white then upper else (upper as int + 32) as char
  }

  /** An engine evaluation seen from White's side: centipawns, or a forced mate in some plies. */
  datatype Score = Cp(cp: int) | Mate(plies: int)

  /** The same position evaluated from the other colour's side. */
  function Flip(s: Score): Score {
    match s
    case Cp(c) => Cp(-c)
    case Mate(n) => Mate(-n)
  }

  /**
   * The side that plays ply `ply` when the game's first position has White to move exactly
   * when `whiteStarts` holds: pushing a move always hands the turn to the other colour.
   */
  predicate WhiteMovesAt(whiteStarts: bool, ply: nat) {
    (ply % 2 == 0) == whiteStarts
  }

  /** A centipawn value read from the point of view of the side that just moved. */
  function MoverView(cp: int, whiteMoved: bool): int {
    if whiteMoved then cp else -cp
  }

  /**
   * CPL of one move, from the evaluation before and after it: the drop of the evaluation
   * for the side that moved, never negative, and 0 whenever either evaluation is a mate score.
   */
  function MoveLoss(before: Score, after: Score, whiteMoved: bool): (cpl: nat)
    ensures (before.Mate? || after.Mate?) ==> cpl == 0
    ensures before.Cp? && after.Cp? ==>
      var drop := MoverView(before.cp, whiteMoved) - MoverView(after.cp, whiteMoved);
      cpl == (if drop > 0 then drop else 0)
    ensures cpl > 0 ==>
      (before.Cp? && after.Cp? && MoverView(after.cp, whiteMoved) < MoverView(before.cp, whiteMoved))
  {
    if before.Mate? || after.Mate? then 0
    else if whiteMoved then
      (if before.cp - after.cp > 0 then before.cp - after.cp else 0)
    else
      (if after.cp - before.cp > 0 then after.cp - before.cp else 0)
  }

  /** Mirroring the board (swap colours, negate evaluations) does not change a move's CPL. */
  lemma MoveLossColourSymmetric(before: Score, after: Score, whiteMoved: bool)
    ensures MoveLoss(Flip(before), Flip(after), !whiteMoved) == MoveLoss(before, after, whiteMoved)
  {
  }

  /** Sides alternate from one ply to the next. */
  lemma SidesAlternate(whiteStarts: bool, ply: nat)
    ensures WhiteMovesAt(whiteStarts, ply + 1) == !WhiteMovesAt(whiteStarts, ply)
  {
  }
}
