/**
 * Localisation of the piece letters of a move in Standard Algebraic Notation (section 8.2.3 of
 * the PGN standard): the English letter of the moving piece, or of the piece a pawn promotes
 * to, is replaced by the letter of the book's language. The letter table is a parameter.
 */
module San {
  import opened Wrappers
  import opened Text

  /** English piece letter to localised text, e.g. 'N' to "C" in French. */
  type Letters = map<char, string>

  /**
   * `translate_san_move`. For a move with `=`, the text after the first `=` names the promoted
   * piece; when that text is empty, reading its first character raises IndexError, modelled as
   * None. Otherwise a leading piece letter is translated, and pawn moves and castling are kept.
   */
  function TranslateSan(san: string, letters: Letters): (r: Option<string>)
    ensures san == [] ==> r == Some([])
    ensures r.None? <==> (san != [] && '=' in san && IndexOf(san, '=') == |san| - 1)
  {
    if san == [] then Some([])
    else
      var k := IndexOf(san, '=');
      if k < |san| then
        var promotion := san[k + 1..];
        if promotion == [] then None
        else if promotion[0] in letters then Some(san[..k] + "=" + letters[promotion[0]] + promotion[1..])
        else Some(san)
      else if san[0] in letters then Some(letters[san[0]] + san[1..])
      else Some(san)
  }

  /** A promotion: only the promoted piece's letter changes; the move before `=` and the check or mate marks after the letter stay. */
  lemma TranslatePromotion(base: string, piece: char, trailing: string, letters: Letters)
    requires '=' !in base && piece in letters
    ensures TranslateSan(base + "=" + [piece] + trailing, letters) == Some(base + "=" + letters[piece] + trailing)
  {
    var san := base + "=" + [piece] + trailing;
    FirstIndexAfter(base, '=', [piece] + trailing);
    assert san == base + ['='] + ([piece] + trailing);
    assert san[|base| + 1..] == [piece] + trailing;
    assert san[..|base|] == base;
  }

  /** A promotion to a piece the table does not know is left as it is. */
  lemma TranslateUnknownPromotion(base: string, piece: char, trailing: string, letters: Letters)
    requires '=' !in base && piece !in letters
    ensures TranslateSan(base + "=" + [piece] + trailing, letters) == Some(base + "=" + [piece] + trailing)
  {
    var san := base + "=" + [piece] + trailing;
    FirstIndexAfter(base, '=', [piece] + trailing);
    assert san == base + ['='] + ([piece] + trailing);
    assert san[|base| + 1..] == [piece] + trailing;
  }

  /** A piece move: the leading letter is translated and the rest kept. */
  lemma TranslatePieceMove(san: string, letters: Letters)
    requires san != [] && '=' !in san && san[0] in letters
    ensures TranslateSan(san, letters) == Some(letters[san[0]] + san[1..])
  {
  }

  /** A pawn move or castling (no `=`, first character not in the table) is unchanged. */
  lemma PawnMovesAndCastlingUnchanged(san: string, letters: Letters)
    requires san != [] && '=' !in san && san[0] !in letters
    ensures TranslateSan(san, letters) == Some(san)
  {
  }

  /** The table mapping each letter to itself. */
  predicate IsIdentity(letters: Letters) {
    forall c :: c in letters ==> letters[c] == [c]
  }

  /** Translating with the identity table changes nothing, on every move it does not reject. */
  lemma IdentityLettersChangeNothing(san: string, letters: Letters)
    requires IsIdentity(letters)
    ensures TranslateSan(san, letters).Some? ==> TranslateSan(san, letters) == Some(san)
  {
    if san != [] {
      var k := IndexOf(san, '=');
      if k < |san| && k + 1 < |san| && san[k + 1] in letters {
        assert san[k + 1..][0] == san[k + 1];
        assert san == san[..k] + "=" + [san[k + 1]] + san[k + 2..];
      } else if k == |san| && san[0] in letters {
        assert san == [san[0]] + san[1..];
      }
    }
  }

  /** A table of one-character letters keeps a move's length. */
  lemma SingleLettersKeepLength(san: string, letters: Letters)
    requires forall c :: c in letters ==> |letters[c]| == 1
    ensures TranslateSan(san, letters).Some? ==> |TranslateSan(san, letters).value| == |san|
  {
  }

  /**
   * Translating a piece move a second time translates its new letter again whenever that letter
   * is itself an English piece letter, as the French king `R` (roi) is the English rook.
   */
  lemma TranslateTwice(san: string, letters: Letters)
    requires san != [] && '=' !in san && san[0] in letters
    requires letters[san[0]] != [] && '=' !in letters[san[0]] && letters[san[0]][0] in letters
    ensures TranslateSan(san, letters).Some?
    ensures TranslateSan(TranslateSan(san, letters).value, letters)
      == Some(letters[letters[san[0]][0]] + letters[san[0]][1..] + san[1..])
  {
    var once := letters[san[0]] + san[1..];
    TranslatePieceMove(san, letters);
    assert '=' !in san[1..];
    assert '=' !in once;
    assert once[0] == letters[san[0]][0];
    assert once[1..] == letters[san[0]][1..] + san[1..];
    TranslatePieceMove(once, letters);
    var l := letters[san[0]];
    assert TranslateSan(once, letters) == Some(letters[l[0]] + once[1..]);
    assert letters[l[0]] + once[1..] == letters[l[0]] + l[1..] + san[1..];
  }

  /** The first `=` of `a + [c] + b` is right after `a` when `a` has none. */
  lemma FirstIndexAfter(a: string, c: char, b: string)
    requires c !in a
    ensures IndexOf(a + [c] + b, c) == |a|
  {
    var s := a + [c] + b;
    var k := IndexOf(s, c);
    assert s[|a|] == c;
    assert s[..|a|] == a;
  }
}
