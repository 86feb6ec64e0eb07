/**
 * The game score as the book prints it. The book's generator writes one row per full move
 * (a number, White's move, Black's move), in one column or, for long games, two. The legacy
 * generator writes one paragraph of numbered moves. Moves are printed in algebraic notation
 * with localised piece letters, or in figurine notation with a piece symbol in place of the
 * letter.
 */
module Notation {
  import opened Wrappers
  import opened Text
  import opened Engine
  import opened Latex
  import opened San

  datatype NotationType = Algebraic | Figurine

  /**
   * A ply as the chess library presents it before it is played: its SAN, whether it promotes,
   * and the piece standing on its from-square.
   */
  datatype Ply = Ply(san: string, promotes: bool, mover: Option<Piece>)

  /** SAN as the chess library writes it: an `=` is always followed by the promoted piece. */
  predicate LibrarySan(san: string) {
    '=' in san ==> IndexOf(san, '=') < |san| - 1
  }

  predicate LibraryPlies(plies: seq<Ply>) {
    forall i :: 0 <= i < |plies| ==> LibrarySan(plies[i].san)
  }

  /** A letter table as the book's message files hold it: every letter a non-empty text without `=`. */
  predicate ValidLetters(letters: Letters) {
    forall c :: c in letters ==> letters[c] != [] && '=' !in letters[c]
  }

  /** `translate_san_move` on library SAN, where it never raises. */
  function Localise(san: string, letters: Letters): string
    requires LibrarySan(san)
  {
    TranslateSan(san, letters).value
  }

  /** Localised library SAN is again library SAN, so it can be localised a second time. */
  lemma LocaliseKeepsLibrarySan(san: string, letters: Letters)
    requires LibrarySan(san) && ValidLetters(letters)
    ensures LibrarySan(Localise(san, letters))
  {
    if san != [] {
      var k := IndexOf(san, '=');
      if k < |san| {
        var promotion := san[k + 1..];
        if promotion[0] in letters {
          var l := letters[promotion[0]];
          var r := san[..k] + "=" + l + promotion[1..];
          assert r == san[..k] + ['='] + (l + promotion[1..]);
          FirstIndexAfter(san[..k], '=', l + promotion[1..]);
        }
      } else if san[0] in letters {
        var r := letters[san[0]] + san[1..];
        assert '=' !in san[1..];
        assert '=' !in r;
      }
    }
  }

  // ---------------------------------------------------------------------------
  // Figurines
  // ---------------------------------------------------------------------------

  /** The symbol commands the book prints in running text, by piece letter; "" for any other letter. */
  function InlineSymbol(c: char): string {
    match c
    case 'P' => "\\WhitePawnOnWhite"
    case 'N' => "\\WhiteKnightOnWhite"
    case 'B' => "\\WhiteBishopOnWhite"
    case 'R' => "\\WhiteRookOnWhite"
    case 'Q' => "\\WhiteQueenOnWhite"
    case 'K' => "\\WhiteKingOnWhite"
    case 'p' => "\\BlackPawnOnWhite"
    case 'n' => "\\BlackKnightOnWhite"
    case 'b' => "\\BlackBishopOnWhite"
    case 'r' => "\\BlackRookOnWhite"
    case 'q' => "\\BlackQueenOnWhite"
    case 'k' => "\\BlackKingOnWhite"
    case _ => ""
  }

  /** `_get_chess_figurine` for inline use: the symbol scaled to the height of the text. */
  function InlineFigurine(c: char): string {
    "\\scalerel*{" + InlineSymbol(c) + "}{Xg}"
  }

  /** The Unicode figurines of the legacy generator, by piece letter; "" for any other letter. */
  function UnicodeFigurine(c: char): string {
    match c
    case 'P' => "\\usym{2659}"
    case 'N' => "\\usym{2658}"
    case 'B' => "\\usym{2657}"
    case 'R' => "\\usym{2656}"
    case 'Q' => "\\usym{2655}"
    case 'K' => "\\usym{2654}"
    case 'p' => "\\usym{265F}"
    case 'n' => "\\usym{265E}"
    case 'b' => "\\usym{265D}"
    case 'r' => "\\usym{265C}"
    case 'q' => "\\usym{265B}"
    case 'k' => "\\usym{265A}"
    case _ => ""
  }

  /** Every piece has its figurine in both tables. */
  lemma EveryPieceHasFigurines(p: Piece)
    ensures InlineSymbol(Symbol(p)) != [] && UnicodeFigurine(Symbol(p)) != []
  {
  }

  /** The SAN starts with a piece letter in either case. */
  predicate StartsWithPieceLetter(san: string) {
    san != [] && UpperChar(san[0]) in "NBRQK"
  }

  /** The SAN without its piece letter, when it starts with one; the figurine takes the letter's place. */
  function SanSuffix(san: string): (r: string)
    ensures StartsWithPieceLetter(san) ==> [san[0]] + r == san
    ensures !StartsWithPieceLetter(san) ==> r == san
  {
    if StartsWithPieceLetter(san) then san[1..] else san
  }

  predicate MovesAPiece(ply: Ply) {
    ply.mover.Some? && ply.mover.value.kind != Pawn
  }

  // ---------------------------------------------------------------------------
  // One move, as each layout prints it
  // ---------------------------------------------------------------------------

  /**
   * A move of the two-column layout: algebraic moves and promotions are localised, other moves
   * of a piece get the piece's figurine in place of its letter, and the rest is escaped for LaTeX.
   */
  function FormatMove(ply: Ply, notation: NotationType, letters: Letters): string
    requires LibrarySan(ply.san)
  {
    if ply.san == [] then ""
    else if notation == Algebraic || ply.promotes then EscapeLatex(Localise(ply.san, letters))
    else if MovesAPiece(ply) then InlineFigurine(Symbol(ply.mover.value)) + EscapeLatex(SanSuffix(ply.san))
    else EscapeLatex(ply.san)
  }

  /** White's move in the one-column layout. */
  function WhiteCell(ply: Ply, notation: NotationType, letters: Letters): string
    requires LibrarySan(ply.san)
  {
    if notation == Algebraic || ply.promotes then EscapeLatex(Localise(ply.san, letters))
    else if MovesAPiece(ply) then InlineFigurine(Symbol(ply.mover.value)) + EscapeLatex(SanSuffix(ply.san))
    else EscapeLatex(ply.san)
  }

  /**
   * Black's move in the one-column layout as written: in algebraic notation the SAN is
   * localised once on its own and once more when it is printed; a pawn move in figurine
   * notation is localised too.
   */
  function BlackCellAsWritten(ply: Ply, notation: NotationType, letters: Letters): string
    requires LibrarySan(ply.san) && ValidLetters(letters)
  {
    LocaliseKeepsLibrarySan(ply.san, letters);
    var san := if notation == Algebraic then Localise(ply.san, letters) else ply.san;
    if notation == Algebraic || ply.promotes then EscapeLatex(Localise(san, letters))
    else if MovesAPiece(ply) then InlineFigurine(Symbol(ply.mover.value)) + EscapeLatex(SanSuffix(san))
    else EscapeLatex(Localise(san, letters))
  }

  /** Black's move in the one-column layout, localised once. */
  function BlackCell(ply: Ply, notation: NotationType, letters: Letters): string
    requires LibrarySan(ply.san)
  {
    if notation == Algebraic || ply.promotes then EscapeLatex(Localise(ply.san, letters))
    else if MovesAPiece(ply) then InlineFigurine(Symbol(ply.mover.value)) + EscapeLatex(SanSuffix(ply.san))
    else EscapeLatex(Localise(ply.san, letters))
  }

  /** Both layouts print White's moves alike. */
  lemma WhiteCellAgreesWithTwoColumns(ply: Ply, notation: NotationType, letters: Letters)
    requires LibrarySan(ply.san) && ply.san != []
    ensures WhiteCell(ply, notation, letters) == FormatMove(ply, notation, letters)
  {
  }

  /**
   * Once localised a single time, Black's moves are printed as in the two-column layout, except
   * for pawn moves in figurine notation whose first letter is in the table (which SAN pawn
   * moves, starting with a lower-case file, never are).
   */
  lemma BlackCellAgreesWithTwoColumns(ply: Ply, notation: NotationType, letters: Letters)
    requires LibrarySan(ply.san) && ply.san != []
    requires notation == Figurine && !ply.promotes && !MovesAPiece(ply) ==> '=' !in ply.san && ply.san[0] !in letters
    ensures BlackCell(ply, notation, letters) == FormatMove(ply, notation, letters)
  {
    if notation == Figurine && !ply.promotes && !MovesAPiece(ply) {
      PawnMovesAndCastlingUnchanged(ply.san, letters);
    }
  }

  /**
   * The double localisation of Black's algebraic moves: a piece move whose localised letter is
   * itself an English piece letter has that letter localised again.
   */
  lemma BlackCellAsWrittenLocalisesTwice(ply: Ply, letters: Letters)
    requires LibrarySan(ply.san) && ValidLetters(letters)
    requires ply.san != [] && '=' !in ply.san && ply.san[0] in letters
    requires letters[ply.san[0]][0] in letters
    ensures BlackCellAsWritten(ply, Algebraic, letters)
      == EscapeLatex(letters[letters[ply.san[0]][0]] + letters[ply.san[0]][1..] + ply.san[1..])
    ensures BlackCell(ply, Algebraic, letters) == EscapeLatex(letters[ply.san[0]] + ply.san[1..])
  {
    TranslatePieceMove(ply.san, letters);
    TranslateTwice(ply.san, letters);
    LocaliseKeepsLibrarySan(ply.san, letters);
  }

  /** French letters (R for the king, T for the rook) print Black's `Kf8` as the rook move `Tf8`. */
  lemma FrenchBlackKingMove(ply: Ply, letters: Letters)
    requires letters == map['K' := "R", 'R' := "T"]
    requires ply.san == "Kf8"
    ensures BlackCellAsWritten(ply, Algebraic, letters) == EscapeLatex("Tf8")
    ensures BlackCell(ply, Algebraic, letters) == EscapeLatex("Rf8")
  {
    assert ValidLetters(letters) by {
      forall c | c in letters ensures letters[c] != [] && '=' !in letters[c] {
        assert c == 'K' || c == 'R';
      }
    }
    assert ply.san[0] == 'K' && ply.san[1..] == "f8" && '=' !in ply.san;
    assert letters['K'] == "R" && letters['R'] == "T";
    BlackCellAsWrittenLocalisesTwice(ply, letters);
    assert letters['R'] + "R"[1..] + "f8" == "Tf8";
    assert letters['K'] + "f8" == "Rf8";
  }

  // ---------------------------------------------------------------------------
  // Rows of the book's score
  // ---------------------------------------------------------------------------

  /** Full moves above which a game's score is set in two columns. */
  const TwoColumnThreshold: nat := 25

  /** Plies the annotated example game shows. */
  const AnnotatedPlies: nat := 16

  /** Full moves of a game of `plies` plies: White's moves, counting an unanswered last one. */
  function NumFullMoves(plies: nat): (n: nat)
    ensures 2 * n == plies || 2 * n == plies + 1
  {
    (plies + 1) / 2
  }

  /** The annotated example is always set in one column. */
  predicate UseTwoColumns(plies: nat, annotated: bool) {
    NumFullMoves(plies) > TwoColumnThreshold && !annotated
  }

  /** Two columns are used from the 51st ply on, and never for the annotated example. */
  lemma TwoColumnsForLongGamesOnly(plies: nat, annotated: bool)
    ensures UseTwoColumns(plies, annotated) <==> plies >= 2 * TwoColumnThreshold + 1 && !annotated
  {
  }

  /** The plies the one-column layout shows: the annotated example stops after 16. */
  function ShownPlies(plies: seq<Ply>, annotated: bool): (shown: seq<Ply>)
    ensures |shown| <= |plies| && shown == plies[..|shown|]
    ensures |shown| == if annotated && |plies| > AnnotatedPlies then AnnotatedPlies else |plies|
  {
    if annotated && |plies| > AnnotatedPlies then plies[..AnnotatedPlies] else plies
  }

  /** A row of the score: the move number, White's move and Black's move ("" when there is none). */
  datatype Row = Row(number: nat, white: string, black: string)

  /**
   * The text of ply `i` in a layout: the two-column layout formats both sides alike, the
   * one-column layout has its own formatting for White's and for Black's moves.
   */
  function PlyCell(plies: seq<Ply>, notation: NotationType, letters: Letters, twoColumns: bool, i: nat): string
    requires LibraryPlies(plies) && i < |plies|
  {
    if twoColumns then FormatMove(plies[i], notation, letters)
    else if i % 2 == 0 then WhiteCell(plies[i], notation, letters)
    else BlackCell(plies[i], notation, letters)
  }

  /** The texts of all plies of a layout, in order. */
  function Cells(plies: seq<Ply>, notation: NotationType, letters: Letters, twoColumns: bool): (cells: seq<string>)
    requires LibraryPlies(plies)
    ensures |cells| == |plies|
  {
    seq(|plies|, i requires 0 <= i < |plies| => PlyCell(plies, notation, letters, twoColumns, i))
  }

  /** Row `k` of the texts: White's text `2k` and Black's text `2k+1`, "" after an unanswered last move. */
  function PairRow(cells: seq<string>, k: nat): Row
    requires 2 * k < |cells|
  {
    Row(k + 1, cells[2 * k], if 2 * k + 1 < |cells| then cells[2 * k + 1] else "")
  }

  /** The first `k` rows of the texts. */
  function PairUpTo(cells: seq<string>, k: nat): (rows: seq<Row>)
    requires 2 * k <= |cells| + 1
    ensures |rows| == k
    decreases k
  {
    if k == 0 then [] else PairUpTo(cells, k - 1) + [PairRow(cells, k - 1)]
  }

  /** All rows of the texts, one per full move. */
  function Paired(cells: seq<string>): (rows: seq<Row>)
    ensures |rows| == NumFullMoves(|cells|)
  {
    PairUpTo(cells, NumFullMoves(|cells|))
  }

  lemma {:induction false} PairUpToIndex(cells: seq<string>, k: nat, j: nat)
    requires 2 * k <= |cells| + 1 && j < k
    ensures PairUpTo(cells, k)[j] == PairRow(cells, j)
    decreases k
  {
    if j < k - 1 {
      PairUpToIndex(cells, k - 1, j);
    }
  }

  /**
   * Every text is printed once, where a reader looks for it: text `i` is in row `i/2`, numbered
   * `i/2 + 1`, in White's column when `i` is even and in Black's when it is odd.
   */
  lemma CellInItsRow(cells: seq<string>, i: nat)
    requires i < |cells|
    ensures i / 2 < |Paired(cells)| && Paired(cells)[i / 2].number == i / 2 + 1
    ensures i % 2 == 0 ==> Paired(cells)[i / 2].white == cells[i]
    ensures i % 2 == 1 ==> Paired(cells)[i / 2].black == cells[i]
  {
    PairUpToIndex(cells, NumFullMoves(|cells|), i / 2);
    assert 2 * (i / 2) == i || 2 * (i / 2) + 1 == i;
  }

  /** The rows of a layout. */
  function Rows(plies: seq<Ply>, notation: NotationType, letters: Letters, twoColumns: bool): (rows: seq<Row>)
    requires LibraryPlies(plies)
  {
    Paired(Cells(plies, notation, letters, twoColumns))
  }

  /**
   * The loop over the texts two at a time, building one row per full move. The move texts are
   * formatted by the layout's own functions (`Cells`); the loop pairs them.
   */
  method PairCells(cells: seq<string>) returns (rows: seq<Row>)
    ensures rows == Paired(cells)
  {
    rows := [];
    var i := 0;
    while i < |cells|
      invariant i == 2 * |rows| && i <= |cells| + 1
      invariant rows == PairUpTo(cells, |rows|)
      decreases |cells| - i
    {
      var white := cells[i];
      var black := if i + 1 < |cells| then cells[i + 1] else "";
      rows := rows + [Row(i / 2 + 1, white, black)];
      i := i + 2;
    }
  }

  /** The rows of the two-column layout. */
  method TwoColumnRows(plies: seq<Ply>, notation: NotationType, letters: Letters) returns (rows: seq<Row>)
    requires LibraryPlies(plies)
    ensures rows == Rows(plies, notation, letters, true)
  {
    rows := PairCells(Cells(plies, notation, letters, true));
  }

  /** The rows of the one-column layout. */
  method OneColumnRows(plies: seq<Ply>, notation: NotationType, letters: Letters) returns (rows: seq<Row>)
    requires LibraryPlies(plies)
    ensures rows == Rows(plies, notation, letters, false)
  {
    rows := PairCells(Cells(plies, notation, letters, false));
  }

  /** The annotated example has at most eight rows. */
  lemma AnnotatedAtMostEightRows(plies: seq<Ply>)
    ensures NumFullMoves(|ShownPlies(plies, true)|) <= 8
  {
  }

  /** In the two-column layout ply `i` is in row `i/2`, formatted as a move of that layout. */
  lemma PlyInItsRow(plies: seq<Ply>, notation: NotationType, letters: Letters, i: nat)
    requires LibraryPlies(plies) && i < |plies|
    ensures i / 2 < |Rows(plies, notation, letters, true)|
    ensures Rows(plies, notation, letters, true)[i / 2].number == i / 2 + 1
    ensures i % 2 == 0 ==> Rows(plies, notation, letters, true)[i / 2].white == FormatMove(plies[i], notation, letters)
    ensures i % 2 == 1 ==> Rows(plies, notation, letters, true)[i / 2].black == FormatMove(plies[i], notation, letters)
  {
    var cells := Cells(plies, notation, letters, true);
    CellInItsRow(cells, i);
    assert cells[i] == FormatMove(plies[i], notation, letters);
  }

  /** In the one-column layout ply `i` is in the same place, with White's or Black's formatting. */
  lemma PlyInItsOneColumnRow(plies: seq<Ply>, notation: NotationType, letters: Letters, i: nat)
    requires LibraryPlies(plies) && i < |plies|
    ensures i / 2 < |Rows(plies, notation, letters, false)|
    ensures Rows(plies, notation, letters, false)[i / 2].number == i / 2 + 1
    ensures i % 2 == 0 ==> Rows(plies, notation, letters, false)[i / 2].white == WhiteCell(plies[i], notation, letters)
    ensures i % 2 == 1 ==> Rows(plies, notation, letters, false)[i / 2].black == BlackCell(plies[i], notation, letters)
  {
    var cells := Cells(plies, notation, letters, false);
    CellInItsRow(cells, i);
    assert cells[i] == PlyCell(plies, notation, letters, false, i);
  }

  /** A row of the two-column layout, the cells separated by tab stops. */
  function TwoColumnLine(row: Row): string {
    ShowNat(row.number) + ". \\> " + row.white + " \\> " + row.black + " \\\\"
  }

  /** A row of the one-column table. */
  function OneColumnLine(row: Row): string {
    ShowNat(row.number) + ". & " + row.white + " & " + row.black + "\\\\"
  }

  function Lines(rows: seq<Row>, twoColumns: bool): (lines: seq<string>)
    ensures |lines| == |rows|
  {
    seq(|rows|, k requires 0 <= k < |rows| => if twoColumns then TwoColumnLine(rows[k]) else OneColumnLine(rows[k]))
  }

  /**
   * `_generate_game_notation_latex`: a heading (with the footnote of the annotated example),
   * nothing more for a game without moves, else the rows inside a two-column tabbing or a
   * one-column table.
   */
  method GameNotationLines(plies: seq<Ply>, notation: NotationType, letters: Letters, annotated: bool, footnote: string)
    returns (lines: seq<string>)
    requires LibraryPlies(plies)
    ensures plies == [] ==> lines == ["\\subsection*{}" + footnote]
    ensures plies != [] && UseTwoColumns(|plies|, annotated) ==>
      lines == ["\\subsection*{}" + footnote,
                "\\begin{multicols}{2}[\\noindent]", "\\begin{tabbing}", "888.\\ \\= O-O-O\\ \\= O-O-O \\kill"]
               + Lines(Rows(plies, notation, letters, true), true)
               + ["\\end{tabbing}", "\\end{multicols}"]
    ensures plies != [] && !UseTwoColumns(|plies|, annotated) ==>
      lines == ["\\subsection*{}" + footnote, "\\noindent", "\\begin{tabularx}{\\linewidth}{l l l}"]
               + Lines(Rows(ShownPlies(plies, annotated), notation, letters, false), false)
               + ["\\end{tabularx}"]
    ensures plies != [] && UseTwoColumns(|plies|, annotated) ==> |lines| == 1 + 3 + NumFullMoves(|plies|) + 2
    ensures plies != [] && !UseTwoColumns(|plies|, annotated) ==>
      |lines| == 1 + 2 + NumFullMoves(|ShownPlies(plies, annotated)|) + 1
    ensures |lines| >= 1 && lines[0] == "\\subsection*{}" + footnote
  {
    lines := ["\\subsection*{}" + footnote];
    if plies == [] {
      return;
    }
    if UseTwoColumns(|plies|, annotated) {
      var rows := TwoColumnRows(plies, notation, letters);
      lines := lines + ["\\begin{multicols}{2}[\\noindent]", "\\begin{tabbing}", "888.\\ \\= O-O-O\\ \\= O-O-O \\kill"];
      lines := lines + Lines(rows, true);
      lines := lines + ["\\end{tabbing}", "\\end{multicols}"];
    } else {
      var shown := ShownPlies(plies, annotated);
      var rows := OneColumnRows(shown, notation, letters);
      lines := lines + ["\\noindent", "\\begin{tabularx}{\\linewidth}{l l l}"];
      lines := lines + Lines(rows, false);
      lines := lines + ["\\end{tabularx}"];
    }
  }

  // ---------------------------------------------------------------------------
  // The legacy generator's score: one paragraph of numbered moves
  // ---------------------------------------------------------------------------

  /**
   * A move of the legacy score: in figurine notation a piece move whose SAN starts with a
   * piece letter gets the Unicode figurine, a space and the escaped rest; everything else is
   * the escaped SAN.
   */
  function LegacyMoveText(ply: Ply, notation: NotationType): string {
    if notation == Figurine && MovesAPiece(ply) && StartsWithPieceLetter(ply.san) then
      UnicodeFigurine(Symbol(ply.mover.value)) + " " + EscapeLatex(ply.san[1..])
    else EscapeLatex(ply.san)
  }

  /** The move-number token `k.`. */
  function MoveNumberToken(k: nat): string {
    ShowNat(k) + "."
  }

  /** The tokens of the score: before each of White's moves (even plies) its number. */
  function Numbered(moves: seq<string>): (tokens: seq<string>)
    decreases |moves|
  {
    if moves == [] then []
    else
      var n := |moves| - 1;
      Numbered(moves[..n]) + (if n % 2 == 0 then [MoveNumberToken(n / 2 + 1)] else []) + [moves[n]]
  }

  /** A score of `p` plies has `p + ceil(p/2)` tokens. */
  lemma {:induction false} NumberedLength(moves: seq<string>)
    ensures |Numbered(moves)| == |moves| + (|moves| + 1) / 2
    decreases |moves|
  {
    if moves != [] {
      NumberedLength(moves[..|moves| - 1]);
    }
  }

  /** Ply `i` is token `i + i/2 + 1`, and for White's plies token `i + i/2` is the move number. */
  lemma {:induction false} NumberedPositions(moves: seq<string>, i: nat)
    requires i < |moves|
    ensures |Numbered(moves)| == |moves| + (|moves| + 1) / 2
    ensures Numbered(moves)[i + i / 2 + 1] == moves[i]
    ensures i % 2 == 0 ==> Numbered(moves)[i + i / 2] == MoveNumberToken(i / 2 + 1)
    decreases |moves|
  {
    NumberedLength(moves);
    var n := |moves| - 1;
    var prefix := moves[..n];
    NumberedLength(prefix);
    if i < n {
      NumberedPositions(prefix, i);
      assert prefix[i] == moves[i];
    }
  }

  /** The legacy token loop: before each of White's moves (even plies) its number, then the move. */
  method NumberTokens(moves: seq<string>) returns (tokens: seq<string>)
    ensures tokens == Numbered(moves)
  {
    tokens := [];
    for i := 0 to |moves|
      invariant tokens == Numbered(moves[..i])
    {
      if i % 2 == 0 {
        tokens := tokens + [MoveNumberToken(i / 2 + 1)];
      }
      tokens := tokens + [moves[i]];
      assert moves[..i + 1][..i] == moves[..i];
    }
    assert moves[..|moves|] == moves;
  }

  /** The texts of the legacy score's moves, in order. */
  function LegacyMoveTexts(plies: seq<Ply>, notation: NotationType): (moves: seq<string>)
    ensures |moves| == |plies|
  {
    seq(|plies|, i requires 0 <= i < |plies| => LegacyMoveText(plies[i], notation))
  }

  /** `_generate_game_notation_latex` of the legacy generator: the numbered tokens as one paragraph. */
  method LegacyNotationLines(plies: seq<Ply>, notation: NotationType) returns (lines: seq<string>)
    ensures lines == ["\\small\\noindent", Join(Numbered(LegacyMoveTexts(plies, notation)), ' '), "\\par\\vspace{1ex}"]
  {
    var tokens := NumberTokens(LegacyMoveTexts(plies, notation));
    lines := ["\\small\\noindent", Join(tokens, ' '), "\\par\\vspace{1ex}"];
  }
}
