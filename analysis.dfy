/**
 * The three engine-driven loops over a game's mainline: the per-move CPL analysers of the
 * selection scripts and of the book generator, and the legacy book's "smart move" finder.
 * The engine is an oracle: for every ply the caller supplies what it answered.
 */
module MoveAnalysis {
  import opened Wrappers
  import opened Engine

  /** The two evaluations the selection scripts ask for around one ply (White's view). */
  datatype PlyEval = PlyEval(before: Score, after: Score)

  /** One element of the selection scripts' analysis list: `{'cpl', 'is_white_move'}`. */
  datatype MoveRecord = MoveRecord(cpl: nat, isWhiteMove: bool)

  /**
   * `analyze_game` of the selection scripts. A game without moves yields None; otherwise one
   * record per ply, in order, with the CPL rule applied to that ply's two evaluations and the
   * side read from the board's turn after the push.
   */
  method AnalyzeGame(evals: seq<PlyEval>, whiteStarts: bool) returns (r: Option<seq<MoveRecord>>)
    ensures r.None? <==> evals == []
    ensures r.Some? ==> |r.value| == |evals|
    ensures r.Some? ==> forall i :: 0 <= i < |evals| ==>
      r.value[i].isWhiteMove == WhiteMovesAt(whiteStarts, i) &&
      r.value[i].cpl == MoveLoss(evals[i].before, evals[i].after, WhiteMovesAt(whiteStarts, i))
  {
    if evals == [] {
      return None;
    }
    var results: seq<MoveRecord> := [];
    var whiteToMove := whiteStarts;
    var i := 0;
    while i < |evals|
      invariant 0 <= i <= |evals|
      invariant whiteToMove == WhiteMovesAt(whiteStarts, i)
      invariant |results| == i
      invariant forall k :: 0 <= k < i ==>
        results[k].isWhiteMove == WhiteMovesAt(whiteStarts, k) &&
        results[k].cpl == MoveLoss(evals[k].before, evals[k].after, WhiteMovesAt(whiteStarts, k))
    {
      var before := evals[i].before;
      whiteToMove := !whiteToMove;  // board.push(move)
      var after := evals[i].after;
      var whiteJustMoved := !whiteToMove;  // board.turn == BLACK
      var cpl := 0;
      if !before.Mate? && !after.Mate? {
        if whiteJustMoved {
          cpl := if before.cp - after.cp > 0 then before.cp - after.cp else 0;
        } else {
          cpl := if after.cp - before.cp > 0 then after.cp - before.cp else 0;
        }
      }
      results := results + [MoveRecord(cpl, whiteJustMoved)];
      i := i + 1;
    }
    return Some(results);
  }

  /** What the book generator's engine calls return around one ply. */
  datatype PlyOracle = PlyOracle(played: Move, before: Score, pv: seq<Move>, after: Score)

  /** One element of the book generator's analysis list. */
  datatype PlyAnalysis = PlyAnalysis(
    moveIndex: nat,
    played: Move,
    isWhiteMove: bool,
    evalBefore: Score,
    bestMove: Option<Move>,
    evalAfter: Score,
    cpl: nat)

  /**
   * `analyze_game_with_stockfish`: one entry per ply with `move_index == i`, the engine's first
   * principal-variation move as the best move (None for an empty line), and the CPL rule with
   * the side to move read before the push. An empty game gives an empty list.
   */
  method AnalyzeGameWithStockfish(plies: seq<PlyOracle>, whiteStarts: bool) returns (r: seq<PlyAnalysis>)
    ensures |r| == |plies|
    ensures forall i :: 0 <= i < |plies| ==>
      r[i].moveIndex == i && r[i].played == plies[i].played &&
      r[i].isWhiteMove == WhiteMovesAt(whiteStarts, i) &&
      r[i].evalBefore == plies[i].before && r[i].evalAfter == plies[i].after &&
      r[i].bestMove == (if plies[i].pv == [] then None else Some(plies[i].pv[0])) &&
      r[i].cpl == MoveLoss(plies[i].before, plies[i].after, WhiteMovesAt(whiteStarts, i))
  {
    r := [];
    var whiteToMove := whiteStarts;
    for i := 0 to |plies|
      invariant whiteToMove == WhiteMovesAt(whiteStarts, i)
      invariant |r| == i
      invariant forall k :: 0 <= k < i ==>
        r[k].moveIndex == k && r[k].played == plies[k].played &&
        r[k].isWhiteMove == WhiteMovesAt(whiteStarts, k) &&
        r[k].evalBefore == plies[k].before && r[k].evalAfter == plies[k].after &&
        r[k].bestMove == (if plies[k].pv == [] then None else Some(plies[k].pv[0])) &&
        r[k].cpl == MoveLoss(plies[k].before, plies[k].after, WhiteMovesAt(whiteStarts, k))
    {
      var ply := plies[i];
      var best := if ply.pv != [] then Some(ply.pv[0]) else None;
      var cpl := 0;
      if !ply.before.Mate? && !ply.after.Mate? {
        if whiteToMove {
          cpl := if ply.before.cp - ply.after.cp > 0 then ply.before.cp - ply.after.cp else 0;
        } else {
          cpl := if ply.after.cp - ply.before.cp > 0 then ply.after.cp - ply.before.cp else 0;
        }
      }
      r := r + [PlyAnalysis(i, ply.played, whiteToMove, ply.before, best, ply.after, cpl)];
      whiteToMove := !whiteToMove;  // board.push(move)
    }
  }

  /** The engine's answer for one position of the legacy book's smart-move search. */
  datatype BestMoveReply = Line(pv: seq<Move>) | EngineError

  datatype SmartPly = SmartPly(played: Move, reply: BestMoveReply)

  /** The engine call for this ply raises: an engine error, or `info["pv"][0]` on an empty line. */
  predicate Raises(p: SmartPly) {
    p.reply.EngineError? || p.reply.pv == []
  }

  /** How many plies the search gets through before the first exception (all of them if none). */
  function Reached(plies: seq<SmartPly>): (k: nat)
    ensures k <= |plies|
    ensures forall i :: 0 <= i < k ==> !Raises(plies[i])
    ensures k < |plies| ==> Raises(plies[k])
    decreases |plies|
  {
    if plies == [] || Raises(plies[0]) then 0 else 1 + Reached(plies[1..])
  }

  /**
   * `find_smart_moves`: the set of ply indices at which the engine's best move differs from the
   * move played. An exception ends the search and the indices gathered so far are returned;
   * when the engine cannot be started at all, that is the empty set.
   */
  method FindSmartMoves(engineStarts: bool, plies: seq<SmartPly>) returns (smart: set<nat>)
    ensures !engineStarts ==> smart == {}
    ensures engineStarts ==> forall i: nat :: i in smart <==>
      i < Reached(plies) && plies[i].reply.pv[0] != plies[i].played
  {
    smart := {};
    if !engineStarts {
      return;
    }
    var i := 0;
    while i < |plies|
      invariant 0 <= i <= Reached(plies)
      invariant forall j: nat :: j in smart <==> j < i && plies[j].reply.pv[0] != plies[j].played
    {
      if Raises(plies[i]) {
        break;
      }
      var best := plies[i].reply.pv[0];
      if best != plies[i].played {
        smart := smart + {i};
      }
      i := i + 1;
    }
  }
}
