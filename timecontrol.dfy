/**
 * Normalisation of the PGN TimeControl tag (section 9.6.1 of the PGN standard) as some sites
 * write it: `base+increment` in seconds, the daily `moves/seconds` form, or plain seconds.
 * Anything that does not parse becomes `?`, the standard's "unknown".
 */
module TimeControl {
  import opened Wrappers
  import opened Text

  const Unknown: string := "?"

  /**
   * `translate_time_control`. A text with `+` must split into exactly two integers (unpacking
   * any other number of parts raises ValueError); a text with `/` keeps the integer after the
   * first `/`; any other text must be one integer. Every failure gives `?`.
   */
  function TranslateTimeControl(tc: string): (r: string)
    ensures tc == [] ==> r == Unknown
    ensures '+' in tc && |Split(tc, '+')| != 2 ==> r == Unknown
  {
    if tc == [] then Unknown
    else if '+' in tc then
      var parts := Split(tc, '+');
      if |parts| != 2 then Unknown
      else
        match (ParseInt(parts[0]), ParseInt(parts[1]))
        case (Some(base), Some(increment)) => ShowInt(base) + "+" + ShowInt(increment)
        case _ => Unknown
    else if '/' in tc then
      var parts := Split(tc, '/');
      if |parts| < 2 then Unknown
      else
        match ParseInt(parts[1])
        case Some(seconds) => ShowInt(seconds)
        case None => Unknown
    else
      match ParseInt(tc)
      case Some(baseTime) => ShowInt(baseTime)
      case None => Unknown
  }

  /** The texts the normalisation produces: `?`, `a+b` and `n` with every number printed by `str`. */
  ghost predicate IsNormal(r: string) {
    r == Unknown
    || (exists a: int, b: int :: r == ShowInt(a) + "+" + ShowInt(b))
    || (exists n: int :: r == ShowInt(n))
  }

  /** A `base+increment` pair of integers comes out re-printed as integers. */
  lemma IncrementForm(base: string, increment: string, a: int, b: int)
    requires '+' !in base && '+' !in increment
    requires ParseInt(base) == Some(a) && ParseInt(increment) == Some(b)
    ensures TranslateTimeControl(base + "+" + increment) == ShowInt(a) + "+" + ShowInt(b)
  {
    var tc := base + "+" + increment;
    assert tc == base + ['+'] + increment;
    SplitAround(base, '+', increment);
    SplitWithoutSep(increment, '+');
    assert tc[|base|] == '+';
  }

  /** The daily form `x/y` keeps the integer `y`, whatever `x` is. */
  lemma DailyForm(moves: string, seconds: string, n: int)
    requires '+' !in moves && '+' !in seconds && '/' !in moves && '/' !in seconds
    requires ParseInt(seconds) == Some(n)
    ensures TranslateTimeControl(moves + "/" + seconds) == ShowInt(n)
  {
    var tc := moves + "/" + seconds;
    assert tc == moves + ['/'] + seconds;
    SplitAround(moves, '/', seconds);
    SplitWithoutSep(seconds, '/');
    assert tc[|moves|] == '/';
    assert '+' !in tc by {
      forall i | 0 <= i < |tc| ensures tc[i] != '+' {
        if i < |moves| { assert tc[i] == moves[i]; }
        else if i > |moves| { assert tc[i] == seconds[i - |moves| - 1]; }
      }
    }
  }

  /** A plain integer is printed back as `str` prints it. */
  lemma PlainSeconds(tc: string, n: int)
    requires '+' !in tc && '/' !in tc && ParseInt(tc) == Some(n)
    ensures TranslateTimeControl(tc) == ShowInt(n)
  {
  }

  /** Every output has one of the three normal forms. */
  lemma OutputIsNormal(tc: string)
    ensures IsNormal(TranslateTimeControl(tc))
  {
  }

  /** A normal text is its own normalisation. */
  lemma NormalIsFixed(r: string)
    requires IsNormal(r)
    ensures TranslateTimeControl(r) == r
  {
    if r == Unknown {
      assert '+' !in r && '/' !in r;
      assert Strip(r) == r;
      assert !AllDigits(r);
    } else if exists a: int, b: int :: r == ShowInt(a) + "+" + ShowInt(b) {
      var a: int, b: int :| r == ShowInt(a) + "+" + ShowInt(b);
      ShowIntHasNoSeparators(a);
      ShowIntHasNoSeparators(b);
      ParseShowInt(a);
      ParseShowInt(b);
      IncrementForm(ShowInt(a), ShowInt(b), a, b);
    } else {
      var n: int :| r == ShowInt(n);
      ShowIntHasNoSeparators(n);
      ParseShowInt(n);
    }
  }

  /** Normalising twice is normalising once. */
  lemma TranslateIdempotent(tc: string)
    ensures TranslateTimeControl(TranslateTimeControl(tc)) == TranslateTimeControl(tc)
  {
    OutputIsNormal(tc);
    NormalIsFixed(TranslateTimeControl(tc));
  }
}
