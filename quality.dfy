/**
 * The quality score of the scoring database: a weighted geometric mean of normalised
 * components (taken as given here), clamped to [0, 100], then adjusted by the game's
 * headers (termination, upset result) and its promotions.
 */
module QualityScore {
  import opened Wrappers
  import opened Text

  /** `max(0, min(100, x))`. */
  function Clamp100(x: real): (r: real)
    ensures 0.0 <= r <= 100.0
    ensures 0.0 <= x <= 100.0 ==> r == x
    ensures x < 0.0 ==> r == 0.0
    ensures x > 100.0 ==> r == 100.0
  {
    if x < 0.0 then 0.0 else if x > 100.0 then 100.0 else x
  }

  /** `min(100, x)`. */
  function Cap100(x: real): (r: real)
    ensures r <= 100.0 && r <= x
    ensures x <= 100.0 ==> r == x
  {
    if x > 100.0 then 100.0 else x
  }

  /**
   * `safe_stats` of the population statistics: (0, 1) for an empty population, otherwise the
   * mean and the population standard deviation, replaced by 1 when it is 0, so the result is
   * never a zero divisor. The standard deviation itself (a square root) is supplied.
   */
  function SafeStats(values: seq<real>, pstdev: real): (r: (real, real))
    ensures values == [] ==> r == (0.0, 1.0)
    ensures values != [] ==> r.0 == RealSum(values) / (|values| as real)
    ensures r.1 != 0.0
    ensures values != [] && pstdev != 0.0 ==> r.1 == pstdev
  {
    if values == [] then (0.0, 1.0)
    else (RealSum(values) / (|values| as real), if pstdev == 0.0 then 1.0 else pstdev)
  }

  function RealSum(xs: seq<real>): real
    decreases |xs|
  {
    if xs == [] then 0.0 else RealSum(xs[..|xs| - 1]) + xs[|xs| - 1]
  }

  /** The headers the adjustments read; a header the game lacks is None. */
  datatype Headers = Headers(
    termination: Option<string>,
    result: Option<string>,
    whiteElo: Option<string>,
    blackElo: Option<string>)

  /** `headers.get("Termination", "").lower()`. */
  function TerminationText(h: Headers): string {
    Lower(if h.termination.Some? then h.termination.value else "")
  }

  predicate ByCheckmate(h: Headers) { Contains(TerminationText(h), "checkmate") }

  predicate OnTime(h: Headers) { Contains(TerminationText(h), "time") }

  predicate ByRule(h: Headers) {
    Contains(TerminationText(h), "repetition") || Contains(TerminationText(h), "50 move")
  }

  /**
   * The lower-rated side won. Both ratings must be present (None raises TypeError) and parse
   * as integers (otherwise ValueError); either exception skips the bonus.
   */
  predicate IsUpset(h: Headers) {
    && h.whiteElo.Some? && h.blackElo.Some?
    && ParseInt(h.whiteElo.value).Some? && ParseInt(h.blackElo.value).Some?
    && var we := ParseInt(h.whiteElo.value).value;
       var be := ParseInt(h.blackElo.value).value;
       ((h.result == Some("1-0") && we < be) || (h.result == Some("0-1") && be < we))
  }

  /**
   * The contextual adjustments in the order they are applied: +5 for a checkmate, x0.8 for a
   * time forfeit, x0.9 for a repetition or 50-move draw, +3 for an upset and +2 per promotion,
   * every bonus capped at 100. A score in [0, 100] stays there.
   */
  function AdjustScore(base: real, h: Headers, promotions: nat): (s: real)
    requires 0.0 <= base <= 100.0
    ensures 0.0 <= s <= 100.0
    ensures !ByCheckmate(h) && !OnTime(h) && !ByRule(h) && !IsUpset(h) && promotions == 0 ==> s == base
  {
    var s1 := if ByCheckmate(h) then Cap100(base + 5.0) else base;
    var s2 := if OnTime(h) then s1 * 0.8 else s1;
    var s3 := if ByRule(h) then s2 * 0.9 else s2;
    var s4 := if IsUpset(h) then Cap100(s3 + 3.0) else s3;
    if promotions > 0 then Cap100(s4 + 2.0 * (promotions as real)) else s4
  }

  /** A better base score never ends up lower after the adjustments. */
  lemma AdjustScoreMonotone(base1: real, base2: real, h: Headers, promotions: nat)
    requires 0.0 <= base1 <= base2 <= 100.0
    ensures AdjustScore(base1, h, promotions) <= AdjustScore(base2, h, promotions)
  {
  }

  /** Promotions are only ever rewarded: more of them never lowers the score. */
  lemma AdjustScorePromotionsMonotone(base: real, h: Headers, p1: nat, p2: nat)
    requires 0.0 <= base <= 100.0 && p1 <= p2
    ensures AdjustScore(base, h, p1) <= AdjustScore(base, h, p2)
  {
  }

  /**
   * Without a checkmate, an upset or promotions, a game lost on time keeps 80% of its base
   * score, one drawn by repetition or the 50-move rule 90%, and one matching both 72%.
   */
  lemma AdjustScorePenalties(base: real, h: Headers)
    requires 0.0 <= base <= 100.0
    requires !ByCheckmate(h) && !IsUpset(h)
    ensures OnTime(h) && !ByRule(h) ==> AdjustScore(base, h, 0) == base * 0.8
    ensures !OnTime(h) && ByRule(h) ==> AdjustScore(base, h, 0) == base * 0.9
    ensures OnTime(h) && ByRule(h) ==> AdjustScore(base, h, 0) == base * 0.72
  {
  }

  /** The checkmate bonus is exactly +5 below 95 and lifts the score to 100 above it. */
  lemma CheckmateBonus(base: real, h: Headers)
    requires 0.0 <= base <= 100.0
    requires ByCheckmate(h) && !OnTime(h) && !ByRule(h) && !IsUpset(h)
    ensures AdjustScore(base, h, 0) == (if base <= 95.0 then base + 5.0 else 100.0)
  {
  }

  /** The upset bonus follows the parsed ratings: a "1-0" win by the lower-rated White. */
  lemma UpsetByWhite(h: Headers, we: int, be: int)
    requires h.whiteElo == Some(ShowInt(we)) && h.blackElo == Some(ShowInt(be))
    requires h.result == Some("1-0")
    ensures IsUpset(h) <==> we < be
  {
    ParseShowInt(we);
    ParseShowInt(be);
  }

  /** ... and a "0-1" win by the lower-rated Black. */
  lemma UpsetByBlack(h: Headers, we: int, be: int)
    requires h.whiteElo == Some(ShowInt(we)) && h.blackElo == Some(ShowInt(be))
    requires h.result == Some("0-1")
    ensures IsUpset(h) <==> be < we
  {
    ParseShowInt(we);
    ParseShowInt(be);
  }

  /** A draw or an unfinished game is never an upset. */
  lemma NoUpsetWithoutDecision(h: Headers)
    requires h.result != Some("1-0") && h.result != Some("0-1")
    ensures !IsUpset(h)
  {
  }

  /** The upset bonus is exactly +3 below 97 and lifts the score to 100 above it. */
  lemma UpsetBonus(base: real, h: Headers)
    requires 0.0 <= base <= 100.0
    requires !ByCheckmate(h) && !OnTime(h) && !ByRule(h) && IsUpset(h)
    ensures AdjustScore(base, h, 0) == (if base <= 97.0 then base + 3.0 else 100.0)
  {
  }

  /** Each promotion is worth +2, up to 100. */
  lemma PromotionBonus(base: real, h: Headers, promotions: nat)
    requires 0.0 <= base <= 100.0
    requires !ByCheckmate(h) && !OnTime(h) && !ByRule(h) && !IsUpset(h)
    ensures AdjustScore(base, h, promotions) ==
      (if base + 2.0 * (promotions as real) <= 100.0 then base + 2.0 * (promotions as real) else 100.0)
  {
  }

  /** A missing rating disables the upset bonus whatever the result. */
  lemma NoUpsetWithoutRatings(h: Headers)
    requires h.whiteElo.None? || h.blackElo.None?
    ensures !IsUpset(h)
  {
  }

  /**
   * `calculate_quality_score` once its weighted geometric mean `geoMean` is known: the mean
   * scaled to 100 and clamped, then adjusted. The headers are read from the metrics record
   * and their absence raises KeyError, modelled as a Failure.
   */
  function CalculateQualityScore(geoMean: real, headers: Option<Headers>, promotions: nat): (r: Result<real>)
    ensures r.Failure? <==> headers.None?
    ensures r.Success? ==> 0.0 <= r.value <= 100.0
    ensures r.Success? ==> r.value == AdjustScore(Clamp100(geoMean * 100.0), headers.value, promotions)
  {
    if headers.None? then Failure("KeyError: 'headers'")
    else Success(AdjustScore(Clamp100(geoMean * 100.0), headers.value, promotions))
  }
}
