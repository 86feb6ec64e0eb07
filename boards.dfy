/**
 * The board diagrams printed after a game's score. Both generators walk the game two plies at
 * a time and build one "move pair" per full move: its caption (`12. Nf3 Nc6`) and the board
 * after each of its plies. The book's generator keeps every pair or only those where a ply
 * lost centipawns, and its annotated example keeps the sixth pair alone; the legacy generator
 * keeps the pairs holding an engine "smart move" and starts a new page every three pairs.
 * Boards, their placements (FEN) and the marked squares come from the chess library and are
 * given per ply.
 */
module Boards {
  import opened Wrappers
  import opened Text
  import opened Latex
  import opened San
  import opened MoveAnalysis
  import opened Sequences

  // ---------------------------------------------------------------------------
  // The book's generator
  // ---------------------------------------------------------------------------

  /**
   * One ply as the diagrams see it: its SAN, the board placement after it, the squares it
   * marks (`markfields={e2,e4}`, the king's and rook's squares for castling) and the circle
   * or cross drawn on a king it checks or mates.
   */
  datatype BoardPly = BoardPly(san: string, fen: string, marks: string, kingMarks: string)

  /** The library always marks two squares for a ply. */
  predicate MarkedPlies(plies: seq<BoardPly>) {
    forall i :: 0 <= i < |plies| ==> plies[i].marks != []
  }

  /** One full move: the tuple `all_calculated_move_pairs` collects, without the PGN nodes. */
  datatype MovePair = MovePair(
    text: string,
    fen1: string, marks1: string, kingMarks1: string, white: Option<PlyAnalysis>,
    fen2: string, marks2: string, kingMarks2: string, black: Option<PlyAnalysis>,
    hasCpl: bool)

  /** `analysis_data[i] if i < len(analysis_data) else None`. */
  function AnalysisAt(analysis: seq<PlyAnalysis>, i: nat): (r: Option<PlyAnalysis>)
    ensures r.Some? <==> i < |analysis|
    ensures r.Some? ==> r.value == analysis[i]
  {
    if i < |analysis| then Some(analysis[i]) else None
  }

  /** The ply was analysed and lost centipawns. */
  predicate LostCentipawns(a: Option<PlyAnalysis>) {
    a.Some? && a.value.cpl > 0
  }

  /** The caption of the pair starting at ply `i`: its number, then each ply's escaped SAN. */
  function PairText(plies: seq<BoardPly>, i: nat): string
    requires i < |plies|
  {
    ShowNat(i / 2 + 1) + "." + " " + EscapeLatex(plies[i].san)
      + (if i + 1 < |plies| then " " + EscapeLatex(plies[i + 1].san) else "")
  }

  /** The full move starting at ply `i`, as one pass of the loop builds it. */
  function PairAt(plies: seq<BoardPly>, analysis: seq<PlyAnalysis>, i: nat): MovePair
    requires i < |plies|
  {
    var white := AnalysisAt(analysis, i);
    var black := if i + 1 < |plies| then AnalysisAt(analysis, i + 1) else None;
    var w := plies[i];
    if i + 1 < |plies| then
      var b := plies[i + 1];
      MovePair(PairText(plies, i), w.fen, w.marks, w.kingMarks, white,
               b.fen, b.marks, b.kingMarks, black, LostCentipawns(white) || LostCentipawns(black))
    else
      MovePair(PairText(plies, i), w.fen, w.marks, w.kingMarks, white,
               w.fen, "", "", None, LostCentipawns(white))
  }

  /** Every full move of the game: pair `k` starts at ply `2k`. */
  function AllPairs(plies: seq<BoardPly>, analysis: seq<PlyAnalysis>): (pairs: seq<MovePair>)
    ensures |pairs| == (|plies| + 1) / 2
  {
    seq((|plies| + 1) / 2, k requires 0 <= k < (|plies| + 1) / 2 => PairAt(plies, analysis, 2 * k))
  }

  /** The loop over `range(0, len(moves), 2)` that collects the pairs. */
  method CollectMovePairs(plies: seq<BoardPly>, analysis: seq<PlyAnalysis>) returns (pairs: seq<MovePair>)
    ensures pairs == AllPairs(plies, analysis)
  {
    ghost var all := AllPairs(plies, analysis);
    pairs := [];
    var i := 0;
    while i < |plies|
      invariant i == 2 * |pairs| && i <= |plies| + 1
      invariant pairs == all[..|pairs|]
      decreases |plies| - i
    {
      assert all[|pairs|] == PairAt(plies, analysis, i);
      assert all[..|pairs| + 1] == all[..|pairs|] + [all[|pairs|]];
      pairs := pairs + [PairAt(plies, analysis, i)];
      i := i + 2;
    }
    assert |pairs| == |all|;
  }

  /** A pair counts as a loss exactly when one of its analysed plies lost centipawns. */
  lemma PairLossIsAPlyLoss(plies: seq<BoardPly>, analysis: seq<PlyAnalysis>, k: nat)
    requires 2 * k < |plies|
    ensures AllPairs(plies, analysis)[k].hasCpl <==>
      (2 * k < |analysis| && analysis[2 * k].cpl > 0)
      || (2 * k + 1 < |plies| && 2 * k + 1 < |analysis| && analysis[2 * k + 1].cpl > 0)
  {
  }

  /**
   * A last pair without a Black move shows White's board twice over in the data, but has no
   * marked squares for the second board, so the second board is not drawn.
   */
  lemma SecondBoardOnlyWithBlackMove(plies: seq<BoardPly>, analysis: seq<PlyAnalysis>, k: nat)
    requires MarkedPlies(plies) && 2 * k < |plies|
    ensures AllPairs(plies, analysis)[k].marks2 != [] <==> 2 * k + 1 < |plies|
    ensures 2 * k + 1 == |plies| ==>
      AllPairs(plies, analysis)[k].fen2 == AllPairs(plies, analysis)[k].fen1
      && AllPairs(plies, analysis)[k].black.None?
  {
  }

  /** The pairs with a loss, in game order: the `smart` board scope. */
  function LossPairs(pairs: seq<MovePair>): (r: seq<MovePair>)
    ensures |r| <= |pairs|
    ensures forall p :: p in r <==> p in pairs && p.hasCpl
    ensures multiset(r) <= multiset(pairs)
    decreases |pairs|
  {
    if pairs == [] then []
    else
      var rest := LossPairs(pairs[1..]);
      assert pairs == [pairs[0]] + pairs[1..];
      if pairs[0].hasCpl then [pairs[0]] + rest else rest
  }

  /** A pair the smart scope draws. */
  predicate HasLoss(p: MovePair) {
    p.hasCpl
  }

  /**
   * The smart scope is `[p for p in pairs if p has a loss]`: every pair with a loss, in game
   * order and each one once (`Sequences.KeepIsOrderedSelection`).
   */
  lemma {:induction false} LossPairsIsKeep(pairs: seq<MovePair>)
    ensures LossPairs(pairs) == Keep(pairs, HasLoss)
    decreases |pairs|
  {
    if pairs != [] {
      LossPairsIsKeep(pairs[1..]);
      assert pairs == [pairs[0]] + pairs[1..];
      KeepPrepend(pairs[0], pairs[1..], HasLoss);
    }
  }

  /** Python's `s[lo:hi]` for `0 <= lo <= hi`: clipped to the list's end. */
  function Slice<T>(s: seq<T>, lo: nat, hi: nat): (r: seq<T>)
    requires lo <= hi
    ensures |r| == (if hi <= |s| then hi - lo else if lo <= |s| then |s| - lo else 0)
    ensures forall j :: 0 <= j < |r| ==> r[j] == s[lo + j]
  {
    if lo >= |s| then [] else if hi >= |s| then s[lo..] else s[lo..hi]
  }

  /** The board scope as the command line gives it; anything but `all` keeps the losses. */
  function PairsToDisplay(pairs: seq<MovePair>, scope: string, annotated: bool): seq<MovePair> {
    if annotated then Slice(pairs, 5, 6)
    else if scope == "all" then pairs
    else LossPairs(pairs)
  }

  /** `_generate_board_analysis_latex` up to the pairs it draws: none without analysis. */
  method BoardPairsToDraw(plies: seq<BoardPly>, analysis: seq<PlyAnalysis>, scope: string, annotated: bool)
    returns (shown: seq<MovePair>)
    ensures analysis == [] ==> shown == []
    ensures analysis != [] ==> shown == PairsToDisplay(AllPairs(plies, analysis), scope, annotated)
  {
    if analysis == [] {
      return [];
    }
    var pairs := CollectMovePairs(plies, analysis);
    shown := pairs;
    if scope != "all" {
      shown := LossPairs(pairs);
    }
    if annotated {
      shown := Slice(pairs, 5, 6);
    }
  }

  /** The annotated example draws the sixth full move alone, whatever the scope, or nothing in a shorter game. */
  lemma AnnotatedDrawsSixthPair(plies: seq<BoardPly>, analysis: seq<PlyAnalysis>, scope: string)
    ensures |plies| > 10 ==>
      PairsToDisplay(AllPairs(plies, analysis), scope, true) == [PairAt(plies, analysis, 10)]
    ensures |plies| <= 10 ==> PairsToDisplay(AllPairs(plies, analysis), scope, true) == []
  {
  }

  /** In the `smart` scope a full move is drawn exactly when one of its plies lost centipawns. */
  lemma SmartScopeDrawsLosses(plies: seq<BoardPly>, analysis: seq<PlyAnalysis>, scope: string, k: nat)
    requires scope != "all" && 2 * k < |plies|
    ensures AllPairs(plies, analysis)[k] in PairsToDisplay(AllPairs(plies, analysis), scope, false) <==>
      (2 * k < |analysis| && analysis[2 * k].cpl > 0)
      || (2 * k + 1 < |plies| && 2 * k + 1 < |analysis| && analysis[2 * k + 1].cpl > 0)
  {
    var pairs := AllPairs(plies, analysis);
    assert pairs[k] in pairs;
    assert PairsToDisplay(pairs, scope, false) == LossPairs(pairs);
    PairLossIsAPlyLoss(plies, analysis, k);
  }

  /** `s.split()`: the non-empty runs between spaces. */
  function Words(s: string): (w: seq<string>)
    ensures forall j :: 0 <= j < |w| ==> w[j] != [] && ' ' !in w[j]
  {
    NonEmpty(Split(s, ' '))
  }

  function NonEmpty(parts: seq<string>): (r: seq<string>)
    ensures forall j :: 0 <= j < |r| ==> r[j] != [] && r[j] in parts
    decreases |parts|
  {
    if parts == [] then []
    else
      var rest := NonEmpty(parts[1..]);
      if parts[0] == [] then rest else [parts[0]] + rest
  }

  /** A part `split()` keeps. */
  predicate IsWord(part: string) {
    part != []
  }

  /**
   * Dropping the empty parts is the selection `[w for w in parts if w]`: every non-empty part
   * is kept, in order and with its repeats (`Sequences.KeepIsOrderedSelection`).
   */
  lemma {:induction false} NonEmptyIsKeep(parts: seq<string>)
    ensures NonEmpty(parts) == Keep(parts, IsWord)
    decreases |parts|
  {
    if parts != [] {
      NonEmptyIsKeep(parts[1..]);
      assert parts == [parts[0]] + parts[1..];
      KeepPrepend(parts[0], parts[1..], IsWord);
    }
  }

  /**
   * The caption drawn above a pair: its words, with the second and third (the two moves)
   * localised and the words joined by spaces again. A move the localisation rejects raises.
   */
  function Caption(text: string, letters: Letters): Option<string> {
    var parts := Words(text);
    var white := if |parts| > 1 then TranslateSan(parts[1], letters) else Some([]);
    var black := if |parts| > 2 then TranslateSan(parts[2], letters) else Some([]);
    if white.None? || black.None? then None
    else if |parts| <= 1 then Some(Join(parts, ' '))
    else if |parts| == 2 then Some(Join([parts[0], white.value], ' '))
    else Some(Join([parts[0], white.value, black.value] + parts[3..], ' '))
  }

  /** No character escapes to a space but the space itself. */
  lemma EscapeCharNoSpace(c: char)
    requires c != ' '
    ensures ' ' !in EscapeChar(c) && EscapeChar(c) != []
  {
    var r := EscapeChar(c);
    if IsSpecial(c) {
      forall j | 0 <= j < |r| ensures r[j] != ' ' {
      }
    }
  }

  lemma {:induction false} EscapeEachNoSpace(s: string)
    requires ' ' !in s
    ensures ' ' !in EscapeEach(s) && (s != [] ==> EscapeEach(s) != [])
    decreases |s|
  {
    if s != [] {
      EscapeCharNoSpace(s[0]);
      EscapeEachNoSpace(s[1..]);
    }
  }

  /** Escaping never introduces a space, nor empties a move. */
  lemma EscapeAddsNoSpace(s: string)
    requires ' ' !in s
    ensures ' ' !in EscapeLatex(s) && (s != [] ==> EscapeLatex(s) != [])
  {
    EscapeLatexIsPerChar(s);
    EscapeEachNoSpace(s);
  }

  lemma NumberHasNoSpace(n: nat)
    ensures ' ' !in ShowNat(n) + "."
  {
    var s := ShowNat(n);
    assert AllDigits(s);
    forall j | 0 <= j < |s| ensures s[j] != ' ' {
      assert IsDigit(s[j]);
    }
  }

  /** A full move's caption text splits into its number and its two escaped moves. */
  lemma WordsOfPairText(plies: seq<BoardPly>, i: nat)
    requires i + 1 < |plies|
    requires plies[i].san != [] && ' ' !in plies[i].san
    requires plies[i + 1].san != [] && ' ' !in plies[i + 1].san
    ensures Words(PairText(plies, i)) ==
      [ShowNat(i / 2 + 1) + ".", EscapeLatex(plies[i].san), EscapeLatex(plies[i + 1].san)]
  {
    var num := ShowNat(i / 2 + 1) + ".";
    var w := EscapeLatex(plies[i].san);
    var b := EscapeLatex(plies[i + 1].san);
    NumberHasNoSpace(i / 2 + 1);
    EscapeAddsNoSpace(plies[i].san);
    EscapeAddsNoSpace(plies[i + 1].san);
    assert PairText(plies, i) == num + [' '] + (w + [' '] + b);
    SplitAround(num, ' ', w + [' '] + b);
    SplitAround(w, ' ', b);
    SplitWithoutSep(b, ' ');
    var parts := Split(PairText(plies, i), ' ');
    assert parts == [num, w, b];
    assert parts[1..] == [w, b] && parts[2..] == [b];
    assert NonEmpty([b]) == [b];
    assert NonEmpty([w, b]) == [w] + NonEmpty([b]);
    assert NonEmpty(parts) == [num] + NonEmpty([w, b]);
  }

  lemma JoinThree(a: string, b: string, c: string)
    ensures Join([a, b, c], ' ') == a + " " + b + " " + c
  {
    assert [a, b, c][1..] == [b, c] && [b, c][1..] == [c];
    assert Join([c], ' ') == c;
    assert Join([b, c], ' ') == b + [' '] + c;
    assert Join([a, b, c], ' ') == a + [' '] + (b + [' '] + c);
  }

  /** A three-word caption keeps its first word and localises the two moves. */
  lemma CaptionOfThreeWords(text: string, letters: Letters, num: string, w: string, b: string)
    requires Words(text) == [num, w, b]
    requires TranslateSan(w, letters).Some? && TranslateSan(b, letters).Some?
    ensures Caption(text, letters) == Some(num + " " + TranslateSan(w, letters).value + " " + TranslateSan(b, letters).value)
  {
    var parts := Words(text);
    var tw := TranslateSan(w, letters).value;
    var tb := TranslateSan(b, letters).value;
    assert [parts[0], tw, tb] + parts[3..] == [num, tw, tb];
    JoinThree(num, tw, tb);
  }

  /**
   * A full move's caption reads `n. w b` with both moves escaped and then localised, as long as
   * the library's SAN holds no space.
   */
  lemma CaptionLocalisesBothMoves(plies: seq<BoardPly>, letters: Letters, i: nat)
    requires i + 1 < |plies|
    requires plies[i].san != [] && ' ' !in plies[i].san
    requires plies[i + 1].san != [] && ' ' !in plies[i + 1].san
    requires TranslateSan(EscapeLatex(plies[i].san), letters).Some?
    requires TranslateSan(EscapeLatex(plies[i + 1].san), letters).Some?
    ensures Caption(PairText(plies, i), letters) == Some(
      ShowNat(i / 2 + 1) + "." + " " + TranslateSan(EscapeLatex(plies[i].san), letters).value
      + " " + TranslateSan(EscapeLatex(plies[i + 1].san), letters).value)
  {
    WordsOfPairText(plies, i);
    CaptionOfThreeWords(PairText(plies, i), letters, ShowNat(i / 2 + 1) + ".",
      EscapeLatex(plies[i].san), EscapeLatex(plies[i + 1].san));
  }

  // ---------------------------------------------------------------------------
  // The legacy generator
  // ---------------------------------------------------------------------------

  /** A pair the legacy generator keeps: its caption and the two board placements. */
  datatype LegacyPair = LegacyPair(text: string, fen1: string, fen2: string)

  /** `is_smart_pair`: White's ply or, when there is one, Black's is a smart move. */
  predicate SmartPair(n: nat, smart: set<nat>, i: nat) {
    i in smart || (i + 1 < n && i + 1 in smart)
  }

  /** Each ply's SAN escaped for LaTeX, as the captions print it. */
  function EscapedSans(sans: seq<string>): (e: seq<string>)
    ensures |e| == |sans|
    ensures forall j :: 0 <= j < |sans| ==> e[j] == EscapeLatex(sans[j])
  {
    seq(|sans|, j requires 0 <= j < |sans| => EscapeLatex(sans[j]))
  }

  /** The legacy pair starting at ply `i`, from the escaped SANs; a lone White move repeats its board. */
  function LegacyPairAt(escaped: seq<string>, fens: seq<string>, i: nat): LegacyPair
    requires |fens| == |escaped| && i < |escaped|
  {
    var text := ShowNat(i / 2 + 1) + "." + " " + escaped[i]
      + (if i + 1 < |escaped| then " " + escaped[i + 1] else "");
    LegacyPair(text, fens[i], if i + 1 < |escaped| then fens[i + 1] else fens[i])
  }

  /** The kept pairs among the first `k` full moves, in game order. */
  function SmartPairsBefore(escaped: seq<string>, fens: seq<string>, smart: set<nat>, k: nat): seq<LegacyPair>
    requires |fens| == |escaped| && 2 * k <= |escaped| + 1
    decreases k
  {
    if k == 0 then []
    else
      var before := SmartPairsBefore(escaped, fens, smart, k - 1);
      var i := 2 * (k - 1);
      if SmartPair(|escaped|, smart, i) then before + [LegacyPairAt(escaped, fens, i)] else before
  }

  /** All the legacy generator's kept pairs. */
  function SmartPairs(sans: seq<string>, fens: seq<string>, smart: set<nat>): seq<LegacyPair>
    requires |fens| == |sans|
  {
    SmartPairsBefore(EscapedSans(sans), fens, smart, (|sans| + 1) / 2)
  }

  /** `export_game_to_latex` up to the kept pairs: the SANs escaped, then the stepped loop. */
  method CollectSmartPairs(sans: seq<string>, fens: seq<string>, smart: set<nat>) returns (pairs: seq<LegacyPair>)
    requires |fens| == |sans|
    ensures pairs == SmartPairs(sans, fens, smart)
  {
    var escaped := EscapedSans(sans);
    pairs := SelectSmartPairs(escaped, fens, smart);
  }

  /** The stepped loop that fills `move_pairs` and `fen_pairs` with the pairs holding a smart move. */
  method SelectSmartPairs(escaped: seq<string>, fens: seq<string>, smart: set<nat>) returns (pairs: seq<LegacyPair>)
    requires |fens| == |escaped|
    ensures pairs == SmartPairsBefore(escaped, fens, smart, (|escaped| + 1) / 2)
  {
    pairs := [];
    var i := 0;
    ghost var k := 0;
    while i < |escaped|
      invariant i == 2 * k && i <= |escaped| + 1
      invariant pairs == SmartPairsBefore(escaped, fens, smart, k)
      decreases |escaped| - i
    {
      if SmartPair(|escaped|, smart, i) {
        pairs := pairs + [LegacyPairAt(escaped, fens, i)];
      }
      i := i + 2;
      k := k + 1;
    }
    assert k == (|escaped| + 1) / 2;
  }

  /** A kept pair holds a smart move, and every full move holding one is kept, in game order. */
  lemma {:induction false} SmartPairsAreTheSmartMoves(escaped: seq<string>, fens: seq<string>, smart: set<nat>, k: nat)
    requires |fens| == |escaped| && 2 * k <= |escaped| + 1
    ensures forall p :: p in SmartPairsBefore(escaped, fens, smart, k) <==>
      exists j :: 0 <= j < k && SmartPair(|escaped|, smart, 2 * j) && p == LegacyPairAt(escaped, fens, 2 * j)
    ensures |SmartPairsBefore(escaped, fens, smart, k)| <= k
    decreases k
  {
    if k > 0 {
      SmartPairsAreTheSmartMoves(escaped, fens, smart, k - 1);
    }
  }

  /** With no smart move nothing is drawn; with every ply smart, every full move is. */
  lemma {:induction false} SmartPairsExtremes(escaped: seq<string>, fens: seq<string>, smart: set<nat>, k: nat)
    requires |fens| == |escaped| && 2 * k <= |escaped| + 1
    ensures SmartPairsBefore(escaped, fens, {}, k) == []
    ensures (forall j :: 0 <= j < |escaped| ==> j in smart) ==> |SmartPairsBefore(escaped, fens, smart, k)| == k
    decreases k
  {
    if k > 0 {
      SmartPairsExtremes(escaped, fens, smart, k - 1);
    }
  }

  /** A page holds `MAX_BOARDS_PER_PAGE // 2` pairs of boards. */
  const PairsPerPage: nat := 6 / 2

  /** A page break comes before the pair drawn `d`-th, for every positive multiple of three. */
  predicate BreakBefore(d: nat) {
    d > 0 && d % PairsPerPage == 0
  }

  /** The caption line as written: the caption, already escaped, is escaped once more. */
  function CaptionLineAsWritten(text: string): string {
    "\\textbf{" + EscapeLatex(text) + "} \\\\[0.5ex]"
  }

  /** The caption line with the caption escaped once, when its moves were. */
  function CaptionLine(text: string): string {
    "\\textbf{" + text + "} \\\\[0.5ex]"
  }

  /** The six lines of one pair: caption, the two boards side by side, and a gap. */
  function PairLines(p: LegacyPair): (lines: seq<string>)
    ensures |lines| == 6
  {
    [CaptionLine(p.text),
     "\\begin{tabularx}{\\linewidth}{X X}",
     "\\chessboard[setfen={ " + p.fen1 + " }, boardfontsize=20pt] &",
     "\\chessboard[setfen={ " + p.fen2 + " }, boardfontsize=20pt] \\\\",
     "\\end{tabularx}",
     "\\vspace{2ex}"]
  }

  /** The lines for the first `d` pairs drawn. */
  function BoardLines(pairs: seq<LegacyPair>, d: nat): seq<string>
    requires d <= |pairs|
    decreases d
  {
    if d == 0 then []
    else
      BoardLines(pairs, d - 1) + (if BreakBefore(d - 1) then ["\\newpage"] else []) + PairLines(pairs[d - 1])
  }

  /** The display loop: a page break before every third pair after the first, then the pair's lines. */
  method DrawSmartPairs(pairs: seq<LegacyPair>) returns (lines: seq<string>)
    ensures lines == BoardLines(pairs, |pairs|)
  {
    lines := [];
    for d := 0 to |pairs|
      invariant lines == BoardLines(pairs, d)
    {
      if d > 0 && d % PairsPerPage == 0 {
        lines := lines + ["\\newpage"];
      }
      lines := lines + PairLines(pairs[d]);
    }
  }

  /** How many page breaks the first `d` pairs bring. */
  function BreaksBefore(d: nat): nat {
    if d == 0 then 0 else (d - 1) / PairsPerPage
  }

  /** `d` pairs take six lines each plus one line per page break, which is one per further page of three. */
  lemma {:induction false} BoardLinesLength(pairs: seq<LegacyPair>, d: nat)
    requires d <= |pairs|
    ensures |BoardLines(pairs, d)| == 6 * d + BreaksBefore(d)
    decreases d
  {
    if d > 0 {
      BoardLinesLength(pairs, d - 1);
      if d > 1 {
        assert BreakBefore(d - 1) <==> (d - 1) % 3 == 0;
        assert (d - 1) / 3 == (d - 2) / 3 + (if (d - 1) % 3 == 0 then 1 else 0);
      }
    }
  }

  /** The pages are filled three pairs at a time: the `d`-th pair opens page `d / 3`. */
  lemma PageOfPair(d: nat)
    ensures BreaksBefore(d + 1) == d / PairsPerPage
    ensures BreakBefore(d) <==> d > 0 && BreaksBefore(d + 1) == BreaksBefore(d) + 1
  {
    if d > 0 {
      assert d / 3 == (d - 1) / 3 + (if d % 3 == 0 then 1 else 0);
    }
  }

  /**
   * The legacy caption is escaped twice: a mating move's `#` is printed as a backslash
   * followed by `\#`, where the once-escaped caption prints `#`.
   */
  lemma CaptionEscapedTwice(c: char)
    requires c == '#'
    ensures CaptionLineAsWritten(EscapeLatex([c])) == CaptionLine("\\textbackslash\\{\\}\\#")
    ensures CaptionLine(EscapeLatex([c])) == CaptionLine("\\#")
  {
    EscapeTwiceDiffers(c);
  }

  /** The second escape changes every caption holding a character LaTeX treats specially. */
  lemma {:induction false} SecondEscapeChangesSpecialText(s: string)
    requires exists j :: 0 <= j < |s| && IsSpecial(s[j])
    ensures CaptionLineAsWritten(s) != CaptionLine(s)
    ensures |EscapeLatex(s)| > |s|
  {
    EscapeLatexIsPerChar(s);
    EscapeEachGrows(s);
    assert |CaptionLineAsWritten(s)| > |CaptionLine(s)|;
  }

  lemma {:induction false} EscapeEachGrows(s: string)
    ensures |EscapeEach(s)| >= |s|
    ensures (exists j :: 0 <= j < |s| && IsSpecial(s[j])) ==> |EscapeEach(s)| > |s|
    decreases |s|
  {
    if s != [] {
      EscapeEachGrows(s[1..]);
      var c := s[0];
      assert IsSpecial(c) ==> |EscapeChar(c)| >= 2;
      assert !IsSpecial(c) ==> |EscapeChar(c)| == 1;
      if exists j :: 0 <= j < |s| && IsSpecial(s[j]) {
        var j :| 0 <= j < |s| && IsSpecial(s[j]);
        if j > 0 {
          assert IsSpecial(s[1..][j - 1]);
        }
      }
    }
  }
}
