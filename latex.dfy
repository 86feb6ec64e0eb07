/**
 * LaTeX escaping of free text (player names, events, SAN moves): a fixed chain of
 * single-character replacements, the backslash first. Both generators use the same chain.
 */
module Latex {

  /** `s.replace(c, sub)` for a one-character pattern: every occurrence, left to right. */
  function ReplaceChar(s: string, c: char, sub: string): (r: string)
    ensures c !in s ==> r == s
    decreases |s|
  {
    if s == [] then [] else (if s[0] == c then sub else [s[0]]) + ReplaceChar(s[1..], c, sub)
  }

  /** The replacements in the order they are applied. */
  const LatexEscapes: seq<(char, string)> := [
    ('\\', "\\textbackslash{}"),
    ('&', "\\&"),
    ('%', "\\%"),
    ('$', "\\$"),
    ('#', "\\#"),
    ('_', "\\_"),
    ('{', "\\{"),
    ('}', "\\}"),
    ('~', "\\textasciitilde{}"),
    ('^', "\\textasciicircum{}")
  ]

  /** Applies `rules` one after the other, each to the whole output of the previous one. */
  function ReplaceAll(s: string, rules: seq<(char, string)>): string
    decreases |rules|, |s|
  {
    if rules == [] then s else ReplaceAll(ReplaceChar(s, rules[0].0, rules[0].1), rules[1..])
  }

  /** `escape_latex_special_chars`. */
  function EscapeLatex(text: string): string {
    ReplaceAll(text, LatexEscapes)
  }

  /** The characters the chain rewrites. */
  predicate IsSpecial(c: char) {
    c in "\\&%$#_{}~^"
  }

  /**
   * What each character turns into, read off the chain as a whole: a backslash ends up as
   * `\textbackslash\{\}` because the braces it introduces are escaped by later steps, while the
   * braces introduced for `~` and `^` come after those steps and stay as they are.
   */
  function EscapeChar(c: char): (r: string)
    ensures !IsSpecial(c) <==> r == [c]
  {
    match c
    case '\\' => "\\textbackslash\\{\\}"
    case '&' => "\\&"
    case '%' => "\\%"
    case '$' => "\\$"
    case '#' => "\\#"
    case '_' => "\\_"
    case '{' => "\\{"
    case '}' => "\\}"
    case '~' => "\\textasciitilde{}"
    case '^' => "\\textasciicircum{}"
    case _ => [c]
  }

  /** The reference definition: every character escaped on its own, the results concatenated. */
  function EscapeEach(s: string): string
    decreases |s|
  {
    if s == [] then [] else EscapeChar(s[0]) + EscapeEach(s[1..])
  }

  lemma {:induction false} ReplaceCharAppend(a: string, b: string, c: char, sub: string)
    ensures ReplaceChar(a + b, c, sub) == ReplaceChar(a, c, sub) + ReplaceChar(b, c, sub)
    decreases |a|
  {
    if a == [] {
      assert a + b == b;
    } else {
      assert (a + b)[0] == a[0];
      assert (a + b)[1..] == a[1..] + b;
      ReplaceCharAppend(a[1..], b, c, sub);
    }
  }

  /** The chain works character by character: it distributes over concatenation. */
  lemma {:induction false} ReplaceAllAppend(a: string, b: string, rules: seq<(char, string)>)
    ensures ReplaceAll(a + b, rules) == ReplaceAll(a, rules) + ReplaceAll(b, rules)
    decreases |rules|
  {
    if rules != [] {
      ReplaceCharAppend(a, b, rules[0].0, rules[0].1);
      ReplaceAllAppend(ReplaceChar(a, rules[0].0, rules[0].1), ReplaceChar(b, rules[0].0, rules[0].1), rules[1..]);
    }
  }

  /** None of the rules' characters occurs in `s`. */
  predicate Untouched(s: string, rules: seq<(char, string)>) {
    forall i :: 0 <= i < |rules| ==> rules[i].0 !in s
  }

  /** Text holding none of the rules' characters passes through them unchanged. */
  lemma {:induction false} ReplaceAllAbsent(s: string, rules: seq<(char, string)>)
    requires Untouched(s, rules)
    ensures ReplaceAll(s, rules) == s
    decreases |rules|
  {
    if rules != [] {
      ReplaceAllAbsent(s, rules[1..]);
    }
  }

  /** One character meets its own rule first: from there on, the chain works on the replacement. */
  lemma ReplaceAllHit(c: char, rules: seq<(char, string)>)
    requires rules != [] && rules[0].0 == c
    ensures ReplaceAll([c], rules) == ReplaceAll(rules[0].1, rules[1..])
  {
    var sub := rules[0].1;
    assert [c][1..] == [];
    assert ReplaceChar([c], c, sub) == sub + ReplaceChar([], c, sub);
    assert sub + [] == sub;
  }

  /** A rule for another character leaves a one-character text alone. */
  lemma ReplaceAllMiss(c: char, rules: seq<(char, string)>)
    requires rules != [] && rules[0].0 != c
    ensures ReplaceAll([c], rules) == ReplaceAll([c], rules[1..])
  {
    var sub := rules[0].1;
    assert [c][1..] == [];
    assert ReplaceChar([c], rules[0].0, sub) == [c] + ReplaceChar([], rules[0].0, sub);
    assert [c] + [] == [c];
  }

  /** The chain on a brace, from the `{` rule on. */
  lemma BracesFromTheirRules()
    ensures ReplaceAll("{", LatexEscapes[6..]) == "\\{"
    ensures ReplaceAll("}", LatexEscapes[6..]) == "\\}"
  {
    var rest := LatexEscapes[6..];
    ReplaceAllHit('{', rest);
    ReplaceAllAbsent("\\{", rest[1..]);
    ReplaceAllMiss('}', rest);
    ReplaceAllHit('}', rest[1..]);
    ReplaceAllAbsent("\\}", rest[2..]);
  }

  /** Lower-case letters and backslashes meet no rule after the first. */
  lemma WordSkipsLaterRules(s: string)
    requires forall j :: 0 <= j < |s| ==> 'a' <= s[j] <= 'z' || s[j] == '\\'
    ensures Untouched(s, LatexEscapes[1..])
  {
    forall i | 1 <= i < |LatexEscapes|
      ensures LatexEscapes[i].0 !in s
    {
      assert !('a' <= LatexEscapes[i].0 <= 'z') && LatexEscapes[i].0 != '\\';
    }
    forall i | 0 <= i < |LatexEscapes[1..]|
      ensures LatexEscapes[1..][i].0 !in s
    {
      assert LatexEscapes[1..][i] == LatexEscapes[i + 1];
    }
  }

  /** A brace meets none of the five rules between the backslash and the braces. */
  lemma BracesSkipMiddleRules()
    ensures Untouched("{", LatexEscapes[1..6]) && Untouched("}", LatexEscapes[1..6])
  {
  }

  /** A brace passes the rules before its own unchanged. */
  lemma BracesAfterBackslash()
    ensures ReplaceAll("{", LatexEscapes[1..]) == "\\{"
    ensures ReplaceAll("}", LatexEscapes[1..]) == "\\}"
  {
    var rules := LatexEscapes[1..];
    assert rules == LatexEscapes[1..6] + LatexEscapes[6..];
    ReplaceAllSplit("{", LatexEscapes[1..6], LatexEscapes[6..]);
    ReplaceAllSplit("}", LatexEscapes[1..6], LatexEscapes[6..]);
    BracesSkipMiddleRules();
    ReplaceAllAbsent("{", LatexEscapes[1..6]);
    ReplaceAllAbsent("}", LatexEscapes[1..6]);
    BracesFromTheirRules();
  }

  /**
   * A word of lower-case letters and backslashes followed by `{}`: the later rules leave the
   * word alone and escape both braces.
   */
  lemma {:induction false} WordWithBracesEscaped(word: string)
    requires forall j :: 0 <= j < |word| ==> 'a' <= word[j] <= 'z' || word[j] == '\\'
    ensures ReplaceAll(word + "{}", LatexEscapes[1..]) == word + "\\{\\}"
  {
    var rules := LatexEscapes[1..];
    assert word + "{}" == word + "{" + "}";
    ReplaceAllAppend(word + "{", "}", rules);
    ReplaceAllAppend(word, "{", rules);
    WordSkipsLaterRules(word);
    ReplaceAllAbsent(word, rules);
    BracesAfterBackslash();
    assert word + "\\{" + "\\}" == word + "\\{\\}";
  }

  /** The backslash's own rule turns it into `w{}`, and the later rules escape the braces. */
  lemma BackslashThroughWord(c: char, w: string)
    requires c == '\\' && LatexEscapes[0].1 == w + "{}"
    requires forall j :: 0 <= j < |w| ==> 'a' <= w[j] <= 'z' || w[j] == '\\'
    ensures EscapeLatex([c]) == w + "\\{\\}"
  {
    ReplaceAllHit(c, LatexEscapes);
    WordWithBracesEscaped(w);
  }

  /** The backslash: its replacement still has two braces for the later rules to escape. */
  lemma EscapeBackslash(c: char)
    requires c == '\\'
    ensures EscapeLatex([c]) == "\\textbackslash\\{\\}"
  {
    BackslashWordFacts();
    BackslashThroughWord(c, "\\textbackslash");
  }

  /** The word inside the backslash's replacement, and the text it ends up as. */
  lemma BackslashWordFacts()
    ensures LatexEscapes[0].1 == "\\textbackslash" + "{}"
    ensures forall j :: 0 <= j < |"\\textbackslash"| ==> 'a' <= "\\textbackslash"[j] <= 'z' || "\\textbackslash"[j] == '\\'
    ensures "\\textbackslash" + "\\{\\}" == "\\textbackslash\\{\\}"
  {
  }

  /** Each special character other than the backslash has its rule among the later nine. */
  lemma RuleOf(c: char) returns (k: nat)
    requires IsSpecial(c) && c != '\\'
    ensures 1 <= k < |LatexEscapes| && LatexEscapes[k].0 == c
  {
    k := if c == '&' then 1 else if c == '%' then 2 else if c == '$' then 3 else if c == '#' then 4
      else if c == '_' then 5 else if c == '{' then 6 else if c == '}' then 7 else if c == '~' then 8 else 9;
  }

  lemma {:induction false} ReplaceAllSplit(s: string, first: seq<(char, string)>, rest: seq<(char, string)>)
    ensures ReplaceAll(s, first + rest) == ReplaceAll(ReplaceAll(s, first), rest)
    decreases |first|
  {
    if first == [] {
      assert first + rest == rest;
    } else {
      assert (first + rest)[0] == first[0];
      assert (first + rest)[1..] == first[1..] + rest;
      ReplaceAllSplit(ReplaceChar(s, first[0].0, first[0].1), first[1..], rest);
    }
  }

  /**
   * A one-character text whose rule is at position `k`: the rules before it miss, its own hits,
   * and the rules after it do not touch the replacement.
   */
  lemma HitAt(c: char, k: nat)
    requires k < |LatexEscapes| && LatexEscapes[k].0 == c
    requires Untouched([c], LatexEscapes[..k])
    requires Untouched(LatexEscapes[k].1, LatexEscapes[k + 1..])
    ensures EscapeLatex([c]) == LatexEscapes[k].1
  {
    var rules := LatexEscapes;
    assert rules == rules[..k] + rules[k..];
    ReplaceAllSplit([c], rules[..k], rules[k..]);
    ReplaceAllAbsent([c], rules[..k]);
    ReplaceAllHit(c, rules[k..]);
    assert rules[k..][1..] == rules[k + 1..];
    ReplaceAllAbsent(rules[k].1, rules[k + 1..]);
  }

  /**
   * For every rule but the backslash's: no earlier rule matches its character, and no later rule
   * matches a character of its replacement.
   */
  lemma RuleIsolated(k: nat)
    requires 1 <= k < |LatexEscapes|
    ensures Untouched([LatexEscapes[k].0], LatexEscapes[..k])
    ensures Untouched(LatexEscapes[k].1, LatexEscapes[k + 1..])
  {
  }

  /** Every character outside the ten meets no rule at all. */
  lemma PlainIsUntouched(s: string)
    requires forall i :: 0 <= i < |s| ==> !IsSpecial(s[i])
    ensures Untouched(s, LatexEscapes)
  {
  }

  /** Each rule but the backslash's replaces its character by the reference table's text. */
  lemma RuleMatchesTable(k: nat)
    requires 1 <= k < |LatexEscapes|
    ensures LatexEscapes[k].1 == EscapeChar(LatexEscapes[k].0)
  {
  }

  /** The chain on a special character other than the backslash agrees with the table. */
  lemma EscapeOtherSpecial(c: char)
    requires IsSpecial(c) && c != '\\'
    ensures EscapeLatex([c]) == EscapeChar(c)
  {
    var k := RuleOf(c);
    RuleIsolated(k);
    HitAt(c, k);
    RuleMatchesTable(k);
  }

  /** The chain on an ordinary character leaves it as it is, as the table does. */
  lemma EscapeOrdinary(c: char)
    requires !IsSpecial(c)
    ensures EscapeLatex([c]) == EscapeChar(c)
  {
    PlainIsUntouched([c]);
    ReplaceAllAbsent([c], LatexEscapes);
  }

  /** The chain on one character agrees with the reference table. */
  lemma EscapeSingle(c: char)
    ensures EscapeLatex([c]) == EscapeChar(c)
  {
    if c == '\\' {
      EscapeBackslash(c);
    } else if IsSpecial(c) {
      EscapeOtherSpecial(c);
    } else {
      EscapeOrdinary(c);
    }
  }

  /** The replacement chain equals the per-character escape, so its step order is only visible on a backslash. */
  lemma {:induction false} EscapeLatexIsPerChar(s: string)
    ensures EscapeLatex(s) == EscapeEach(s)
    decreases |s|
  {
    if s == [] {
      PlainTextUnchanged(s);
    } else {
      assert s == [s[0]] + s[1..];
      ReplaceAllAppend([s[0]], s[1..], LatexEscapes);
      assert EscapeLatex(s) == EscapeLatex([s[0]]) + EscapeLatex(s[1..]);
      EscapeSingle(s[0]);
      EscapeLatexIsPerChar(s[1..]);
    }
  }

  /** Text without any of `\ & % $ # _ { } ~ ^` is returned unchanged. */
  lemma PlainTextUnchanged(s: string)
    requires forall i :: 0 <= i < |s| ==> !IsSpecial(s[i])
    ensures EscapeLatex(s) == s
  {
    PlainIsUntouched(s);
    ReplaceAllAbsent(s, LatexEscapes);
  }

  /** Escaping text piece by piece is escaping it whole. */
  lemma EscapeLatexAppend(a: string, b: string)
    ensures EscapeLatex(a + b) == EscapeLatex(a) + EscapeLatex(b)
  {
    ReplaceAllAppend(a, b, LatexEscapes);
  }

  /** Escaping is not idempotent: escaping `#` twice escapes the backslash of `\#` as well. */
  lemma EscapeTwiceDiffers(c: char)
    requires c == '#'
    ensures EscapeLatex([c]) == "\\#"
    ensures EscapeLatex(EscapeLatex([c])) == "\\textbackslash\\{\\}\\#"
  {
    EscapeSingle(c);
    var once := EscapeLatex([c]);
    assert once == ['\\'] + [c];
    EscapeLatexAppend(['\\'], [c]);
    EscapeSingle('\\');
  }
}
