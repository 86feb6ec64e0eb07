/**
 * Per-game aggregation of the per-ply CPL list: the raw metrics of the scoring database,
 * the book's CPL classifier and per-side summary table, and the legacy linear game score.
 */
module GameMetrics {
  import opened Wrappers
  import opened Text
  import opened Engine
  import opened MoveAnalysis
  import opened Sequences

  // ---------------------------------------------------------------------------
  // Sums, means and band counts over a list of CPL values
  // ---------------------------------------------------------------------------

  function Sum(xs: seq<nat>): nat
    decreases |xs|
  {
    if xs == [] then 0 else Sum(xs[..|xs| - 1]) + xs[|xs| - 1]
  }

  /** `sum(xs) / len(xs) if xs else 0`. */
  function Mean(xs: seq<nat>): (m: real)
    ensures m >= 0.0
    ensures xs == [] ==> m == 0.0
  {
    if xs == [] then 0.0 else (Sum(xs) as real) / (|xs| as real)
  }

  lemma {:induction false} SumAtMost(xs: seq<nat>, bound: nat)
    requires forall i :: 0 <= i < |xs| ==> xs[i] <= bound
    ensures Sum(xs) <= |xs| * bound
    decreases |xs|
  {
    if xs != [] {
      SumAtMost(xs[..|xs| - 1], bound);
    }
  }

  /** A mean never exceeds a bound every value respects. */
  lemma MeanAtMost(xs: seq<nat>, bound: nat)
    requires forall i :: 0 <= i < |xs| ==> xs[i] <= bound
    ensures Mean(xs) <= bound as real
  {
    if xs != [] {
      SumAtMost(xs, bound);
      QuotientAtMost(Sum(xs) as real, |xs| as real, bound as real);
    }
  }

  lemma QuotientAtMost(a: real, n: real, b: real)
    requires n > 0.0 && a <= n * b
    ensures a / n <= b
  {
    assert a / n * n == a;
  }

  /** Number of values `>= lo` (the blunder band when lo is 200). */
  function CountAtLeast(xs: seq<nat>, lo: nat): (n: nat)
    ensures n <= |xs|
    decreases |xs|
  {
    if xs == [] then 0
    else CountAtLeast(xs[..|xs| - 1], lo) + (if xs[|xs| - 1] >= lo then 1 else 0)
  }

  /** Number of values in `[lo, hi)` (mistakes: [100, 200); inaccuracies: [50, 100)). */
  function CountBetween(xs: seq<nat>, lo: nat, hi: nat): (n: nat)
    ensures n <= |xs|
    decreases |xs|
  {
    if xs == [] then 0
    else CountBetween(xs[..|xs| - 1], lo, hi) + (if lo <= xs[|xs| - 1] < hi then 1 else 0)
  }

  /** The blunder-style count is the number of plies whose loss is at least `lo`. */
  lemma {:induction false} CountAtLeastCountsPlies(xs: seq<nat>, lo: nat)
    ensures CountAtLeast(xs, lo) == |set i | 0 <= i < |xs| && xs[i] >= lo|
    decreases |xs|
  {
    if xs != [] {
      var n := |xs| - 1;
      var init := xs[..n];
      CountAtLeastCountsPlies(init, lo);
      var a := set i | 0 <= i < |init| && init[i] >= lo;
      var b := set i | 0 <= i < |xs| && xs[i] >= lo;
      assert a == set i | 0 <= i < n && xs[i] >= lo;
      if xs[n] >= lo {
        assert b == a + {n};
      } else {
        assert b == a;
      }
    }
  }

  /** A band count is the number of plies whose loss lies in `[lo, hi)`. */
  lemma {:induction false} CountBetweenCountsPlies(xs: seq<nat>, lo: nat, hi: nat)
    ensures CountBetween(xs, lo, hi) == |set i | 0 <= i < |xs| && lo <= xs[i] < hi|
    decreases |xs|
  {
    if xs != [] {
      var n := |xs| - 1;
      var init := xs[..n];
      CountBetweenCountsPlies(init, lo, hi);
      var a := set i | 0 <= i < |init| && lo <= init[i] < hi;
      var b := set i | 0 <= i < |xs| && lo <= xs[i] < hi;
      assert b == a + (if lo <= xs[n] < hi then {n} else {}) by {
        forall i | i in b ensures i in a || i == n {
          if i < n {
            assert init[i] == xs[i];
          }
        }
      }
      assert n !in a;
    }
  }

  // ---------------------------------------------------------------------------
  // The classifier of the book generator
  // ---------------------------------------------------------------------------

  datatype MoveClass = Blunder | Mistake | Inaccuracy | GoodMove

  /** `classify_move_loss`: the 200/100/50 thresholds split CPL into four disjoint classes. */
  function ClassifyMoveLoss(cpl: int): (c: MoveClass)
    ensures c == Blunder <==> cpl >= 200
    ensures c == Mistake <==> 100 <= cpl < 200
    ensures c == Inaccuracy <==> 50 <= cpl < 100
    ensures c == GoodMove <==> cpl < 50
  {
    if cpl >= 200 then Blunder
    else if cpl >= 100 then Mistake
    else if cpl >= 50 then Inaccuracy
    else GoodMove
  }

  function CountClass(xs: seq<nat>, c: MoveClass): (n: nat)
    ensures n <= |xs|
    decreases |xs|
  {
    if xs == [] then 0
    else CountClass(xs[..|xs| - 1], c) + (if ClassifyMoveLoss(xs[|xs| - 1]) == c then 1 else 0)
  }

  /**
   * The summary table's band counts are exactly the classifier's class counts, and the four
   * classes together account for every ply once.
   */
  lemma {:induction false} BandsAreClasses(xs: seq<nat>)
    ensures CountAtLeast(xs, 200) == CountClass(xs, Blunder)
    ensures CountBetween(xs, 100, 200) == CountClass(xs, Mistake)
    ensures CountBetween(xs, 50, 100) == CountClass(xs, Inaccuracy)
    ensures CountClass(xs, Blunder) + CountClass(xs, Mistake) + CountClass(xs, Inaccuracy)
            + CountClass(xs, GoodMove) == |xs|
    decreases |xs|
  {
    if xs != [] {
      BandsAreClasses(xs[..|xs| - 1]);
    }
  }

  /** Blunders and mistakes are disjoint bands, so together they never exceed the ply count. */
  lemma BlundersAndMistakesAtMostPlies(xs: seq<nat>)
    ensures CountAtLeast(xs, 200) + CountBetween(xs, 100, 200) <= |xs|
    ensures CountAtLeast(xs, 200) + CountBetween(xs, 100, 200) + CountBetween(xs, 50, 100) <= |xs|
  {
    BandsAreClasses(xs);
  }

  // ---------------------------------------------------------------------------
  // Per-side views of an analysis
  // ---------------------------------------------------------------------------

  /** `[d['cpl'] for d in analysis_results]`. */
  function Cpls(records: seq<MoveRecord>): (xs: seq<nat>)
    ensures |xs| == |records|
    ensures forall i :: 0 <= i < |records| ==> xs[i] == records[i].cpl
  {
    seq(|records|, i requires 0 <= i < |records| => records[i].cpl)
  }

  /** The CPL values of one side's plies, in order. */
  function SideCpls(records: seq<MoveRecord>, white: bool): (xs: seq<nat>)
    ensures |xs| <= |records|
    decreases |records|
  {
    if records == [] then []
    else
      var last := records[|records| - 1];
      SideCpls(records[..|records| - 1], white) + (if last.isWhiteMove == white then [last.cpl] else [])
  }

  predicate IsWhiteRecord(r: MoveRecord) {
    r.isWhiteMove
  }

  predicate IsBlackRecord(r: MoveRecord) {
    !r.isWhiteMove
  }

  /** The test of one side's comprehension, `d['is_white_move']` or its negation. */
  function OnSide(white: bool): MoveRecord -> bool {
    if white then IsWhiteRecord else IsBlackRecord
  }

  /**
   * A side's CPL list is `[d['cpl'] for d in records if ...]`: the losses of the order-preserving
   * selection of that side's records (`Sequences.KeepIsOrderedSelection`).
   */
  lemma {:induction false} SideCplsIsKeep(records: seq<MoveRecord>, white: bool)
    ensures SideCpls(records, white) == Cpls(Keep(records, OnSide(white)))
    decreases |records|
  {
    if records != [] {
      var n := |records| - 1;
      SideCplsIsKeep(records[..n], white);
      var kept := Keep(records[..n], OnSide(white));
      var tail := if OnSide(white)(records[n]) then [records[n]] else [];
      assert Keep(records, OnSide(white)) == kept + tail;
      assert Cpls(kept + tail) == Cpls(kept) + Cpls(tail);
    }
  }

  lemma SumSnoc(xs: seq<nat>, x: nat)
    ensures Sum(xs + [x]) == Sum(xs) + x
  {
    assert (xs + [x])[..|xs|] == xs;
  }

  lemma CountsSnoc(xs: seq<nat>, x: nat, lo: nat, hi: nat)
    ensures CountAtLeast(xs + [x], lo) == CountAtLeast(xs, lo) + (if x >= lo then 1 else 0)
    ensures CountBetween(xs + [x], lo, hi) == CountBetween(xs, lo, hi) + (if lo <= x < hi then 1 else 0)
  {
    assert (xs + [x])[..|xs|] == xs;
  }

  lemma SplitLast(records: seq<MoveRecord>)
    requires records != []
    ensures var init := records[..|records| - 1];
      var last := records[|records| - 1];
      && Cpls(records) == Cpls(init) + [last.cpl]
      && SideCpls(records, last.isWhiteMove) == SideCpls(init, last.isWhiteMove) + [last.cpl]
      && SideCpls(records, !last.isWhiteMove) == SideCpls(init, !last.isWhiteMove)
  {
  }

  /** Splitting the plies by side loses none and counts none twice. */
  lemma {:induction false} SidesPartitionPlies(records: seq<MoveRecord>)
    ensures |SideCpls(records, true)| + |SideCpls(records, false)| == |records|
    ensures Sum(SideCpls(records, true)) + Sum(SideCpls(records, false)) == Sum(Cpls(records))
    decreases |records|
  {
    if records != [] {
      var init := records[..|records| - 1];
      var last := records[|records| - 1];
      SidesPartitionPlies(init);
      SplitLast(records);
      SumSnoc(Cpls(init), last.cpl);
      SumSnoc(SideCpls(init, last.isWhiteMove), last.cpl);
    }
  }

  /** ... and the same holds band by band. */
  lemma {:induction false} SidesPartitionBands(records: seq<MoveRecord>, lo: nat, hi: nat)
    ensures CountAtLeast(SideCpls(records, true), lo) + CountAtLeast(SideCpls(records, false), lo)
            == CountAtLeast(Cpls(records), lo)
    ensures CountBetween(SideCpls(records, true), lo, hi) + CountBetween(SideCpls(records, false), lo, hi)
            == CountBetween(Cpls(records), lo, hi)
    decreases |records|
  {
    if records != [] {
      var init := records[..|records| - 1];
      var last := records[|records| - 1];
      SidesPartitionBands(init, lo, hi);
      SplitLast(records);
      CountsSnoc(Cpls(init), last.cpl, lo, hi);
      CountsSnoc(SideCpls(init, last.isWhiteMove), last.cpl, lo, hi);
    }
  }

  // ---------------------------------------------------------------------------
  // Raw metrics of the scoring database (extract_raw_metrics)
  // ---------------------------------------------------------------------------

  /** A mainline move as far as the metrics look at it: its promotion piece, if any. */
  datatype PlayedMove = PlayedMove(uci: Move, promotion: Option<PieceKind>)

  function CountPromotions(moves: seq<PlayedMove>): (n: nat)
    ensures n <= |moves|
    decreases |moves|
  {
    if moves == [] then 0
    else CountPromotions(moves[..|moves| - 1]) + (if moves[|moves| - 1].promotion.Some? then 1 else 0)
  }

  datatype Winner = WhiteWon | BlackWon | Drawn

  /** `winner` from the Result header (missing means "*"). */
  function WinnerOf(result: Option<string>): (w: Winner)
    ensures w == WhiteWon <==> result == Some("1-0")
    ensures w == BlackWon <==> result == Some("0-1")
  {
    var r := if result.Some? then result.value else "*";
    if r == "1-0" then WhiteWon else if r == "0-1" then BlackWon else Drawn
  }

  datatype RawMetrics = RawMetrics(
    numMoves: nat,
    avgCpl: real,
    whiteCpl: real,
    blackCpl: real,
    blunders: nat,
    mistakes: nat,
    promotions: nat,
    winner: Winner)

  /**
   * `extract_raw_metrics` (without the date and the standard deviation): ply count, all-ply
   * and per-side CPL means that fall back to 0, blunder and mistake bands, and the number of
   * promoting moves, counted by a loop over the mainline.
   */
  method ExtractRawMetrics(moves: seq<PlayedMove>, records: seq<MoveRecord>, result: Option<string>)
    returns (m: RawMetrics)
    ensures m.numMoves == |moves|
    ensures m.avgCpl == Mean(Cpls(records)) && m.avgCpl >= 0.0
    ensures m.whiteCpl == Mean(SideCpls(records, true)) && m.whiteCpl >= 0.0
    ensures m.blackCpl == Mean(SideCpls(records, false)) && m.blackCpl >= 0.0
    ensures m.blunders == CountClass(Cpls(records), Blunder)
    ensures m.mistakes == CountClass(Cpls(records), Mistake)
    ensures m.blunders + m.mistakes <= |records|
    ensures m.promotions == CountPromotions(moves) && m.promotions <= m.numMoves
    ensures m.winner == WinnerOf(result)
  {
    var cpls := Cpls(records);
    var blunders := CountAtLeast(cpls, 200);
    var mistakes := CountBetween(cpls, 100, 200);
    BandsAreClasses(cpls);
    var promotions := 0;
    var i := 0;
    while i < |moves|
      invariant 0 <= i <= |moves|
      invariant promotions == CountPromotions(moves[..i])
    {
      assert moves[..i + 1][..i] == moves[..i];
      if moves[i].promotion.Some? {
        promotions := promotions + 1;
      }
      i := i + 1;
    }
    assert moves[..|moves|] == moves;
    m := RawMetrics(|moves|, Mean(cpls), Mean(SideCpls(records, true)), Mean(SideCpls(records, false)),
                    blunders, mistakes, promotions, WinnerOf(result));
  }

  // ---------------------------------------------------------------------------
  // The book's analysis summary table (_generate_analysis_summary_latex)
  // ---------------------------------------------------------------------------

  datatype SideSummary = SideSummary(moves: nat, avgCpl: real, blunders: nat, mistakes: nat, inaccuracies: nat)

  function AsRecords(data: seq<PlyAnalysis>): (records: seq<MoveRecord>)
    ensures |records| == |data|
  {
    seq(|data|, i requires 0 <= i < |data| => MoveRecord(data[i].cpl, data[i].isWhiteMove))
  }

  /** One column of the table: a side's ply count, its mean CPL and its classifier counts. */
  predicate Summarises(s: SideSummary, side: seq<nat>) {
    && s.moves == |side|
    && s.avgCpl == Mean(side)
    && s.blunders == CountClass(side, Blunder)
    && s.mistakes == CountClass(side, Mistake)
    && s.inaccuracies == CountClass(side, Inaccuracy)
  }

  /** The column of one side, counted with the table's own 200/100/50 bands. */
  function Summarise(side: seq<nat>): (s: SideSummary)
    ensures Summarises(s, side)
    ensures s.blunders + s.mistakes + s.inaccuracies <= s.moves
  {
    BandsAreClasses(side);
    SideSummary(|side|, Mean(side), CountAtLeast(side, 200), CountBetween(side, 100, 200), CountBetween(side, 50, 100))
  }

  /**
   * The per-side figures of the summary table: nothing for an empty analysis; otherwise the
   * first column is White's plies and the second Black's, each with its ply count, mean CPL
   * (0 for a side without plies) and classifier counts; the two ply counts add up to the
   * total, and each side's blunder, mistake and inaccuracy counts are disjoint bands of its plies.
   */
  function AnalysisSummary(data: seq<PlyAnalysis>): (r: Option<(SideSummary, SideSummary)>)
    ensures r.None? <==> data == []
    ensures r.Some? ==> Summarises(r.value.0, SideCpls(AsRecords(data), true))
    ensures r.Some? ==> Summarises(r.value.1, SideCpls(AsRecords(data), false))
    ensures r.Some? ==> r.value.0.moves + r.value.1.moves == |data|
    ensures r.Some? ==> forall s :: s in [r.value.0, r.value.1] ==>
      (s.moves == 0 ==> s.avgCpl == 0.0) && s.avgCpl >= 0.0 &&
      s.blunders + s.mistakes + s.inaccuracies <= s.moves
  {
    if data == [] then None
    else
      var records := AsRecords(data);
      var white := SideCpls(records, true);
      var black := SideCpls(records, false);
      SidesPartitionPlies(records);
      Some((Summarise(white), Summarise(black)))
  }

  /** White's column holds exactly the plies marked as White's moves, in order. */
  lemma {:induction false} SideCplsAreTheSidesPlies(records: seq<MoveRecord>, white: bool)
    ensures |SideCpls(records, white)| == |set i | 0 <= i < |records| && records[i].isWhiteMove == white|
    decreases |records|
  {
    if records != [] {
      var n := |records| - 1;
      var init := records[..n];
      SideCplsAreTheSidesPlies(init, white);
      var a := set i | 0 <= i < |init| && init[i].isWhiteMove == white;
      var b := set i | 0 <= i < |records| && records[i].isWhiteMove == white;
      assert a == set i | 0 <= i < n && records[i].isWhiteMove == white;
      if records[n].isWhiteMove == white {
        assert b == a + {n};
      } else {
        assert b == a;
      }
    }
  }

  /** The table's blunder counts of the two sides add up to the game's blunder count. */
  lemma SummaryBlundersAddUp(data: seq<PlyAnalysis>)
    requires data != []
    ensures AnalysisSummary(data).value.0.blunders + AnalysisSummary(data).value.1.blunders
            == CountClass(Cpls(AsRecords(data)), Blunder)
  {
    SidesPartitionBands(AsRecords(data), 200, 0);
    BandsAreClasses(Cpls(AsRecords(data)));
  }

  // ---------------------------------------------------------------------------
  // The legacy linear score (select_top_games.py, calculate_game_score)
  // ---------------------------------------------------------------------------

  datatype GameHeaders = GameHeaders(
    white: Option<string>,
    black: Option<string>,
    result: Option<string>,
    termination: Option<string>)

  function GetOr(o: Option<string>, default: string): string {
    if o.Some? then o.value else default
  }

  /** 10 points for a game of 20 to 120 plies. */
  function LengthBonus(numMoves: nat): (b: nat)
    ensures b == 10 <==> 20 <= numMoves <= 120
    ensures b == 0 <==> !(20 <= numMoves <= 120)
  {
    if 20 <= numMoves <= 120 then 10 else 0
  }

  /** 20 for a checkmate (whatever the result), else 5 for a decisive result, else 0. */
  function ResultBonus(h: GameHeaders): (b: nat)
    ensures b == 20 <==> Contains(Lower(GetOr(h.termination, "")), "checkmate")
    ensures b == 5 <==> !Contains(Lower(GetOr(h.termination, "")), "checkmate") &&
                        (h.result == Some("1-0") || h.result == Some("0-1"))
    ensures b == 0 || b == 5 || b == 20
  {
    var termination := Lower(GetOr(h.termination, ""));
    if Contains(termination, "checkmate") then 20
    else if h.result == Some("1-0") || h.result == Some("0-1") then 5
    else 0
  }

  /** `(100 - avg_cpl) + (2 * blunders + mistakes) + length_bonus + result_bonus`. */
  function LinearScore(avgCpl: real, blunders: nat, mistakes: nat, lengthBonus: nat, resultBonus: nat): real {
    (100.0 - avgCpl) + ((blunders * 2 + mistakes) as real) + (lengthBonus as real) + (resultBonus as real)
  }

  /** The legacy score rewards errors: it never decreases with more blunders or mistakes. */
  lemma LinearScoreMonotone(avgCpl: real, b1: nat, b2: nat, m1: nat, m2: nat, lb: nat, rb: nat)
    requires b1 <= b2 && m1 <= m2
    ensures LinearScore(avgCpl, b1, m1, lb, rb) <= LinearScore(avgCpl, b2, m2, lb, rb)
    ensures b1 < b2 ==> LinearScore(avgCpl, b1, m1, lb, rb) + 2.0 <= LinearScore(avgCpl, b2, m2, lb, rb)
  {
  }

  datatype LegacyMetrics = LegacyMetrics(
    white: string,
    black: string,
    result: string,
    avgCpl: real,
    blunders: nat,
    mistakes: nat,
    lengthBonus: nat,
    resultBonus: nat,
    finalScore: real)

  /**
   * `calculate_game_score`: `(0, {})` for an empty analysis; otherwise the linear score over the
   * mean of the two per-side means, with the bands, length and result bonuses it reports.
   */
  function CalculateGameScore(h: GameHeaders, numMoves: nat, records: seq<MoveRecord>)
    : (r: (real, Option<LegacyMetrics>))
    ensures records == [] <==> r.1.None?
    ensures records == [] ==> r.0 == 0.0
    ensures r.1.Some? ==>
      var m := r.1.value;
      && r.0 == m.finalScore
      && m.avgCpl == (Mean(SideCpls(records, true)) + Mean(SideCpls(records, false))) / 2.0
      && m.avgCpl >= 0.0
      && m.blunders == CountClass(Cpls(records), Blunder)
      && m.mistakes == CountClass(Cpls(records), Mistake)
      && m.blunders + m.mistakes <= |records|
      && m.finalScore == LinearScore(m.avgCpl, m.blunders, m.mistakes, LengthBonus(numMoves), ResultBonus(h))
  {
    if records == [] then (0.0, None)
    else
      var cpls := Cpls(records);
      var avg := (Mean(SideCpls(records, true)) + Mean(SideCpls(records, false))) / 2.0;
      var blunders := CountAtLeast(cpls, 200);
      var mistakes := CountBetween(cpls, 100, 200);
      BandsAreClasses(cpls);
      var score := LinearScore(avg, blunders, mistakes, LengthBonus(numMoves), ResultBonus(h));
      (score, Some(LegacyMetrics(GetOr(h.white, "?"), GetOr(h.black, "?"), GetOr(h.result, "*"),
                                 avg, blunders, mistakes, LengthBonus(numMoves), ResultBonus(h), score)))
  }

  /**
   * The legacy `avg_cpl` (mean of the two side means) is the all-ply mean when both sides
   * played equally many plies.
   */
  lemma HalfOfMeans(sw: real, sb: real, n: real)
    requires n > 0.0
    ensures (sw / n + sb / n) / 2.0 == (sw + sb) / (2.0 * n)
  {
  }

  lemma {:induction false} SideMeansMatchPlyMeanWhenBalanced(records: seq<MoveRecord>)
    requires |SideCpls(records, true)| == |SideCpls(records, false)|
    ensures (Mean(SideCpls(records, true)) + Mean(SideCpls(records, false))) / 2.0 == Mean(Cpls(records))
  {
    SidesPartitionPlies(records);
    var w := SideCpls(records, true);
    var b := SideCpls(records, false);
    if records != [] {
      var n := |w| as real;
      assert |Cpls(records)| as real == 2.0 * n;
      HalfOfMeans(Sum(w) as real, Sum(b) as real, n);
    }
  }

  /**
   * ... and is not the all-ply mean otherwise: White 0 and 300, Black 0 gives side means 150
   * and 0, so a legacy average of 75 against an all-ply mean of 100.
   */
  lemma SideMeansDifferFromPlyMean()
    ensures var records := [MoveRecord(0, true), MoveRecord(0, false), MoveRecord(300, true)];
      (Mean(SideCpls(records, true)) + Mean(SideCpls(records, false))) / 2.0 == 75.0 &&
      Mean(Cpls(records)) == 100.0
  {
    var r1 := [MoveRecord(0, true)];
    var r2 := r1 + [MoveRecord(0, false)];
    var records := r2 + [MoveRecord(300, true)];
    SplitLast(r1);
    assert r1[..0] == [];
    assert r2[..1] == r1;
    SplitLast(r2);
    assert records[..2] == r2;
    SplitLast(records);
    var w := SideCpls(records, true);
    var b := SideCpls(records, false);
    var all := Cpls(records);
    assert w == [0] + [300];
    assert b == [] + [0];
    assert all == [0] + [0] + [300];
    SumSnoc([], 0);
    SumSnoc([0], 300);
    SumSnoc([0], 0);
    SumSnoc([0, 0], 300);
    assert Mean(w) == 150.0;
    assert Mean(b) == 0.0;
    assert Mean(all) == 100.0;
    assert records == [MoveRecord(0, true), MoveRecord(0, false), MoveRecord(300, true)];
  }
}
