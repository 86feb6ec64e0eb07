/**
 * The legacy selection script's final step: the analysed games, each with its score, are
 * ranked by score (highest first), the first `n` are kept, and those are put in date order,
 * an undated game counting as dated `9999.99.99`. Both sorts are Python's stable `list.sort`.
 */
module LegacySelection {
  import opened Wrappers
  import opened StableSort
  import Export

  /** A game the script kept: its score, its `Date` header if any, and the game itself. */
  datatype Candidate = Candidate(score: real, date: Option<string>, pgn: string)

  const UndatedDate: string := "9999.99.99"

  /** `headers.get("Date", "9999.99.99")`. */
  function DateOf(c: Candidate): string {
    if c.date.Some? then c.date.value else UndatedDate
  }

  /** `sort(key=lambda x: x[0], reverse=True)`. */
  function ByScore(): Order<Candidate> {
    Order((c: Candidate) => Num(c.score), true)
  }

  /** `sort(key=lambda x: x[1].headers.get("Date", "9999.99.99"))`. */
  function ByDate(): Order<Candidate> {
    Order((c: Candidate) => Text(DateOf(c)), false)
  }

  /** The games kept by `all_games[:n]` after the ranking. */
  function TopN(all: seq<Candidate>, n: int): (top: seq<Candidate>)
    ensures |top| == Export.SliceCount(|all|, n)
  {
    Sort(all, ByScore())[..Export.SliceCount(|all|, n)]
  }

  /** The ranking, the cut, and the date order, as `main` performs them in place. */
  method SelectTopGames(all: seq<Candidate>, n: int) returns (top: seq<Candidate>)
    ensures top == Sort(TopN(all, n), ByDate())
  {
    var ranked := Sort(all, ByScore());
    top := ranked[..Export.SliceCount(|all|, n)];
    top := Sort(top, ByDate());
  }

  /**
   * What the selection is: `min(n, len)` of the games (for `n >= 0`), in date order, and no
   * game left out scores higher than a game kept.
   */
  lemma SelectionFacts(all: seq<Candidate>, n: int)
    ensures n >= 0 ==> |Sort(TopN(all, n), ByDate())| == (if n < |all| then n else |all|)
    ensures multiset(Sort(TopN(all, n), ByDate())) == multiset(TopN(all, n)) <= multiset(all)
    ensures Sorted(Sort(TopN(all, n), ByDate()), ByDate())
    ensures forall x: Candidate, y: Candidate :: x in multiset(TopN(all, n)) && y in multiset(all) - multiset(TopN(all, n)) ==> x.score >= y.score
  {
    var ranked := Sort(all, ByScore());
    var c := Export.SliceCount(|all|, n);
    SortedPrefixBeatsRest(ranked, ByScore(), c);
    forall x: Candidate, y: Candidate | x in multiset(TopN(all, n)) && y in multiset(all) - multiset(TopN(all, n)) ensures x.score >= y.score {
      assert Before(ByScore(), x, y);
    }
    assert ranked == ranked[..c] + ranked[c..];
  }

  /** The kept games come out in increasing order of their dates, an undated game as `9999.99.99`. */
  lemma DatesIncrease(all: seq<Candidate>, n: int, i: nat, j: nat)
    requires i < j < |Sort(TopN(all, n), ByDate())|
    ensures TextLeq(DateOf(Sort(TopN(all, n), ByDate())[i]), DateOf(Sort(TopN(all, n), ByDate())[j]))
  {
    var top := Sort(TopN(all, n), ByDate());
    assert Before(ByDate(), top[i], top[j]);
  }
}
