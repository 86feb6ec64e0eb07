/**
 * The `export` command of the scoring database: optionally regroup the stored games by time
 * control and rescore them inside each group, keep the games whose quality score lies in the
 * requested range, sort them by the requested fields and keep the first N.
 */
module Export {
  import opened Wrappers
  import opened Text
  import opened StableSort
  import opened QualityScore
  import opened Sequences

  /** A column value as the database hands it to Python: NULL, a number, or text. */
  datatype Cell = Null | Number(x: real) | Str(s: string)

  /** One stored game, `dict(zip(col_names, row))`. */
  type Row = map<string, Cell>

  /** Python truthiness of a column value. */
  predicate Truthy(c: Cell) {
    match c
    case Null => false
    case Number(x) => x != 0.0
    case Str(s) => s != ""
  }

  // ---------------------------------------------------------------------------
  // Grouping by time control
  // ---------------------------------------------------------------------------

  /** `g.get("TimeControl") or "unknown"`: a missing, NULL or empty time control is "unknown". */
  function GroupKey(g: Row): (k: Cell)
    ensures Truthy(k)
  {
    if "TimeControl" in g && Truthy(g["TimeControl"]) then g["TimeControl"] else Str("unknown")
  }

  /** The group keys in order of first appearance: the iteration order of the grouping dict. */
  function DistinctKeys(games: seq<Row>): (ks: seq<Cell>)
    ensures forall i, j :: 0 <= i < j < |ks| ==> ks[i] != ks[j]
    decreases |games|
  {
    if games == [] then []
    else
      var init := DistinctKeys(games[..|games| - 1]);
      var k := GroupKey(games[|games| - 1]);
      if k in init then init else init + [k]
  }

  /** The games of one group, in their original order. */
  function Members(games: seq<Row>, k: Cell): (m: seq<Row>)
    ensures |m| <= |games|
    decreases |games|
  {
    if games == [] then []
    else
      var last := games[|games| - 1];
      Members(games[..|games| - 1], k) + (if GroupKey(last) == k then [last] else [])
  }

  /** Every member of a group has that group's key. */
  lemma {:induction false} MembersHaveKey(games: seq<Row>, k: Cell, i: nat)
    requires i < |Members(games, k)|
    ensures GroupKey(Members(games, k)[i]) == k
    decreases |games|
  {
    var init := games[..|games| - 1];
    if i < |Members(init, k)| {
      MembersHaveKey(init, k, i);
    }
  }

  /** A group is the games with its key, in their original order. */
  lemma {:induction false} MembersInOrder(games: seq<Row>, k: Cell)
    ensures Members(games, k) == Keep(games, (g: Row) => GroupKey(g) == k)
    decreases |games|
  {
    if games != [] {
      MembersInOrder(games[..|games| - 1], k);
    }
  }

  /** The position of the first game with key `k`, or `|games|` when there is none. */
  function FirstWith(games: seq<Row>, k: Cell): (p: nat)
    ensures p <= |games|
    ensures p < |games| ==> GroupKey(games[p]) == k
    ensures forall q :: 0 <= q < p && q < |games| ==> GroupKey(games[q]) != k
    decreases |games|
  {
    if games == [] then 0
    else
      var init := games[..|games| - 1];
      var p := FirstWith(init, k);
      if p < |init| then p else if GroupKey(games[|games| - 1]) == k then |init| else |games|
  }

  /** A key is listed exactly when some game carries it. */
  lemma {:induction false} ListedKeyHasFirst(games: seq<Row>, k: Cell)
    ensures k in DistinctKeys(games) <==> FirstWith(games, k) < |games|
    decreases |games|
  {
    if games != [] {
      ListedKeyHasFirst(games[..|games| - 1], k);
    }
  }

  /** The keys come in the order of their first appearance among the games. */
  lemma {:induction false} DistinctKeysInFirstAppearanceOrder(games: seq<Row>, i: nat, j: nat)
    requires i < j < |DistinctKeys(games)|
    ensures FirstWith(games, DistinctKeys(games)[i]) < FirstWith(games, DistinctKeys(games)[j]) < |games|
    decreases |games|
  {
    var ks := DistinctKeys(games);
    var init := games[..|games| - 1];
    var ks0 := DistinctKeys(init);
    var kl := GroupKey(games[|games| - 1]);
    assert ks[i] in ks0 by {
      assert ks == ks0 || ks == ks0 + [kl];
      assert i < |ks0|;
      assert ks[i] == ks0[i];
    }
    ListedKeyHasFirst(init, ks[i]);
    if j < |ks0| {
      assert ks[j] == ks0[j];
      DistinctKeysInFirstAppearanceOrder(init, i, j);
    } else {
      assert kl !in ks0 && ks[j] == kl;
      ListedKeyHasFirst(init, kl);
    }
  }

  /** Every game's key is listed, and every listed key has at least one game. */
  lemma {:induction false} DistinctKeysCover(games: seq<Row>, k: Cell)
    ensures k in DistinctKeys(games) <==> Members(games, k) != []
    decreases |games|
  {
    if games != [] {
      DistinctKeysCover(games[..|games| - 1], k);
    }
  }

  /**
   * The grouping loop: `grouped.setdefault(tc, []).append(g)` over all games. The dict is its
   * key order (insertion order) and its key-to-list map.
   */
  method GroupByTimeControl(games: seq<Row>) returns (order: seq<Cell>, groups: map<Cell, seq<Row>>)
    ensures order == DistinctKeys(games)
    ensures forall k :: k in groups <==> k in order
    ensures forall k :: k in groups ==> groups[k] == Members(games, k)
  {
    order := [];
    groups := map[];
    for i := 0 to |games|
      invariant order == DistinctKeys(games[..i])
      invariant forall k :: k in groups <==> k in order
      invariant forall k :: k in groups ==> groups[k] == Members(games[..i], k)
    {
      var g := games[i];
      var tc := GroupKey(g);
      assert games[..i + 1][..i] == games[..i];
      var members := if tc in groups then groups[tc] else [];
      if tc !in groups {
        order := order + [tc];
        DistinctKeysCover(games[..i], tc);
      }
      groups := groups[tc := members + [g]];
      forall k | k in groups ensures groups[k] == Members(games[..i + 1], k) {
        assert Members(games[..i + 1], k) == Members(games[..i], k) + (if tc == k then [g] else []);
      }
    }
    assert games[..|games|] == games;
  }

  /** The groups laid end to end in key order: `all_ranked` before rescoring. */
  function Regrouped(keys: seq<Cell>, games: seq<Row>): seq<Row>
    decreases |keys|
  {
    if keys == [] then [] else Regrouped(keys[..|keys| - 1], games) + Members(games, keys[|keys| - 1])
  }

  /** A group holds every copy of a game with its key, and nothing else. */
  lemma {:induction false} MembersCount(games: seq<Row>, k: Cell, x: Row)
    ensures multiset(Members(games, k))[x] == if GroupKey(x) == k then multiset(games)[x] else 0
    decreases |games|
  {
    if games != [] {
      var init := games[..|games| - 1];
      assert games == init + [games[|games| - 1]];
      MembersCount(init, k, x);
    }
  }

  /** With distinct keys, the concatenated groups hold every copy of a game whose key is listed, once. */
  lemma {:induction false} RegroupedCount(keys: seq<Cell>, games: seq<Row>, x: Row)
    requires forall i, j :: 0 <= i < j < |keys| ==> keys[i] != keys[j]
    ensures multiset(Regrouped(keys, games))[x] == if GroupKey(x) in keys then multiset(games)[x] else 0
    decreases |keys|
  {
    if keys != [] {
      var init := keys[..|keys| - 1];
      var last := keys[|keys| - 1];
      assert keys == init + [last];
      forall i, j | 0 <= i < j < |init| ensures init[i] != init[j] {
        assert init[i] == keys[i] && init[j] == keys[j];
      }
      RegroupedCount(init, games, x);
      MembersCount(games, last, x);
      if GroupKey(x) == last {
        forall i | 0 <= i < |init| ensures init[i] != last {
          assert init[i] == keys[i];
        }
      }
    }
  }

  /** Regrouping loses and duplicates no game: `all_ranked` is a rearrangement of `games`. */
  lemma RegroupedIsPermutation(games: seq<Row>)
    ensures multiset(Regrouped(DistinctKeys(games), games)) == multiset(games)
  {
    var keys := DistinctKeys(games);
    forall x ensures multiset(Regrouped(keys, games))[x] == multiset(games)[x] {
      RegroupedCount(keys, games, x);
      if multiset(games)[x] > 0 {
        var i :| 0 <= i < |games| && games[i] == x;
        MembersHas(games, i);
        DistinctKeysCover(games, GroupKey(x));
      }
    }
  }

  // ---------------------------------------------------------------------------
  // Rescoring inside each group
  // ---------------------------------------------------------------------------

  /** Text of a column; a missing or NULL column is None. */
  function TextColumn(g: Row, col: string): Option<string> {
    if col in g && g[col].Str? then Some(g[col].s) else None
  }

  function Trunc(x: real): int {
    if x >= 0.0 then x.Floor else -((-x).Floor)
  }

  /** A rating column as the text `int()` will parse: numbers are printed, NULL is absent. */
  function RatingColumn(g: Row, col: string): Option<string> {
    if col in g && g[col].Number? then Some(ShowInt(Trunc(g[col].x)))
    else TextColumn(g, col)
  }

  /** `metrics.get("promotions", 0)` for a stored game. */
  function PromotionsColumn(g: Row): nat {
    if "promotions" in g && g["promotions"].Number? && g["promotions"].x >= 0.0 then g["promotions"].x.Floor else 0
  }

  /** The headers the adjustments read, taken from the game's own columns. */
  function RowHeaders(g: Row): Headers {
    Headers(TextColumn(g, "Termination"), TextColumn(g, "Result"), RatingColumn(g, "WhiteElo"), RatingColumn(g, "BlackElo"))
  }

  /**
   * The new score of a stored game within its group. `geo(g, group)` is the weighted geometric
   * mean computed from the game's metrics and the group's population statistics.
   */
  function GroupScore(g: Row, group: seq<Row>, geo: (Row, seq<Row>) -> real): (s: real)
    ensures 0.0 <= s <= 100.0
  {
    CalculateQualityScore(geo(g, group), Some(RowHeaders(g)), PromotionsColumn(g)).value
  }

  /** `g["quality_score"] = score`. */
  function Rescored(g: Row, group: seq<Row>, geo: (Row, seq<Row>) -> real): (r: Row)
    ensures QualityOf(r) == Some(GroupScore(g, group, geo))
  {
    g["quality_score" := Number(GroupScore(g, group, geo))]
  }

  /**
   * The rescoring loop as written: it reads the headers from the metrics record, but a stored
   * game has no "headers" column, so the first game of the first group raises KeyError.
   */
  method RegroupAndRescoreAsWritten(games: seq<Row>, geo: (Row, seq<Row>) -> real) returns (r: Result<seq<Row>>)
    ensures r.Failure? <==> games != []
    ensures r.Success? ==> r.value == []
  {
    var order, groups := GroupByTimeControl(games);
    if games != [] {
      MembersHas(games, 0);
      DistinctKeysCover(games, GroupKey(games[0]));
    }
    if order == [] {
      return Success([]);
    }
    // The first game of the first group: a stored game has no "headers" column, so reading
    // the headers raises before any score is stored.
    DistinctKeysCover(games, order[0]);
    var group := groups[order[0]];
    var g := group[0];
    var score := CalculateQualityScore(geo(g, group), None, PromotionsColumn(g));
    return Failure(score.error);
  }

  lemma {:induction false} MembersHas(games: seq<Row>, i: nat)
    requires i < |games|
    ensures games[i] in Members(games, GroupKey(games[i]))
    decreases |games|
  {
    if i < |games| - 1 {
      MembersHas(games[..|games| - 1], i);
    }
  }

  /**
   * `all_ranked`: the groups in order of first appearance, each game rescored against its
   * own group.
   */
  function RegroupedRescored(games: seq<Row>, geo: (Row, seq<Row>) -> real): (ranked: seq<Row>)
    ensures |ranked| == |Regrouped(DistinctKeys(games), games)|
  {
    var flat := Regrouped(DistinctKeys(games), games);
    seq(|flat|, i requires 0 <= i < |flat| => Rescored(flat[i], Members(games, GroupKey(flat[i])), geo))
  }

  /** Rescoring keeps every game once, and every new score lies in [0, 100]. */
  lemma RegroupedRescoredFacts(games: seq<Row>, geo: (Row, seq<Row>) -> real)
    ensures |RegroupedRescored(games, geo)| == |games|
    ensures forall i :: 0 <= i < |RegroupedRescored(games, geo)| ==>
      QualityOf(RegroupedRescored(games, geo)[i]).Some? &&
      0.0 <= QualityOf(RegroupedRescored(games, geo)[i]).value <= 100.0
  {
    RegroupedIsPermutation(games);
    assert |multiset(Regrouped(DistinctKeys(games), games))| == |multiset(games)|;
  }

  /** `r` is the game `f` rescored within its own time-control group. */
  predicate RescoredInGroup(r: Row, f: Row, games: seq<Row>, geo: (Row, seq<Row>) -> real) {
    r == Rescored(f, Members(games, GroupKey(f)), geo)
  }

  /** Every game of a sequence rescored within its own time-control group. */
  predicate RescoredInGroups(ranked: seq<Row>, flat: seq<Row>, games: seq<Row>, geo: (Row, seq<Row>) -> real) {
    |ranked| == |flat| &&
    forall i :: 0 <= i < |flat| ==> RescoredInGroup(ranked[i], flat[i], games, geo)
  }

  /**
   * The rescoring loop reading the headers from each game's columns: the groups in order of
   * first appearance, each game scored against its own group, and the scores in [0, 100].
   */
  method RegroupAndRescore(games: seq<Row>, geo: (Row, seq<Row>) -> real) returns (ranked: seq<Row>)
    ensures ranked == RegroupedRescored(games, geo)
    ensures |ranked| == |games|
    ensures forall i :: 0 <= i < |ranked| ==> QualityOf(ranked[i]).Some? && 0.0 <= QualityOf(ranked[i]).value <= 100.0
  {
    var order, groups := GroupByTimeControl(games);
    ranked := [];
    for j := 0 to |order|
      invariant RescoredInGroups(ranked, Regrouped(order[..j], games), games, geo)
    {
      var group := groups[order[j]];
      var rescored := RescoreGroup(group, order[j], games, geo);
      RescoredNextGroup(ranked, rescored, order, j, games, geo);
      ranked := ranked + rescored;
    }
    assert order[..|order|] == order;
    RescoredIsRegroupedRescored(ranked, games, geo);
    RegroupedRescoredFacts(games, geo);
  }

  /** Appending the next group, rescored, extends the rescored concatenation by one group. */
  lemma RescoredNextGroup(ranked: seq<Row>, rescored: seq<Row>, order: seq<Cell>, j: nat, games: seq<Row>, geo: (Row, seq<Row>) -> real)
    requires j < |order|
    requires RescoredInGroups(ranked, Regrouped(order[..j], games), games, geo)
    requires RescoredInGroups(rescored, Members(games, order[j]), games, geo)
    ensures RescoredInGroups(ranked + rescored, Regrouped(order[..j + 1], games), games, geo)
  {
    assert order[..j + 1][..j] == order[..j];
    RescoredAppend(ranked, Regrouped(order[..j], games), rescored, Members(games, order[j]), games, geo);
  }

  /** Rescoring every game of the concatenated groups within its group is `all_ranked` after the loop. */
  lemma RescoredIsRegroupedRescored(ranked: seq<Row>, games: seq<Row>, geo: (Row, seq<Row>) -> real)
    requires RescoredInGroups(ranked, Regrouped(DistinctKeys(games), games), games, geo)
    ensures ranked == RegroupedRescored(games, geo)
  {
  }

  /** The inner loop: each game of one group gets its score within that group. */
  method RescoreGroup(group: seq<Row>, tc: Cell, games: seq<Row>, geo: (Row, seq<Row>) -> real) returns (rescored: seq<Row>)
    requires group == Members(games, tc)
    ensures RescoredInGroups(rescored, group, games, geo)
  {
    rescored := [];
    for m := 0 to |group|
      invariant RescoredInGroups(rescored, group[..m], games, geo)
    {
      var g := group[m];
      var score := CalculateQualityScore(geo(g, group), Some(RowHeaders(g)), PromotionsColumn(g));
      var updated := g["quality_score" := Number(score.value)];
      assert updated == Rescored(g, group, geo);
      RescoredMember(games, tc, m, geo, rescored);
      rescored := rescored + [updated];
    }
    assert group[..|group|] == group;
  }

  /** Appending a member of a group, scored against that group, keeps the rescored prefix rescored. */
  lemma RescoredMember(games: seq<Row>, tc: Cell, m: nat, geo: (Row, seq<Row>) -> real, rescored: seq<Row>)
    requires m < |Members(games, tc)|
    requires RescoredInGroups(rescored, Members(games, tc)[..m], games, geo)
    ensures RescoredInGroups(rescored + [Rescored(Members(games, tc)[m], Members(games, tc), geo)],
      Members(games, tc)[..m + 1], games, geo)
  {
    var group := Members(games, tc);
    var g := group[m];
    MembersHaveKey(games, tc, m);
    assert Members(games, GroupKey(g)) == group;
    assert RescoredInGroup(Rescored(g, group, geo), g, games, geo);
    assert group[..m + 1] == group[..m] + [g];
    RescoredAppend(rescored, group[..m], [Rescored(g, group, geo)], [g], games, geo);
  }

  lemma RescoredAppend(r1: seq<Row>, f1: seq<Row>, r2: seq<Row>, f2: seq<Row>, games: seq<Row>, geo: (Row, seq<Row>) -> real)
    requires RescoredInGroups(r1, f1, games, geo) && RescoredInGroups(r2, f2, games, geo)
    ensures RescoredInGroups(r1 + r2, f1 + f2, games, geo)
  {
    PairwiseAppend(r1, f1, r2, f2, (x: Row, y: Row) => RescoredInGroup(x, y, games, geo));
  }

  /** A relation that holds position by position on two pairs of sequences holds on their concatenations. */
  lemma PairwiseAppend<T>(r1: seq<T>, f1: seq<T>, r2: seq<T>, f2: seq<T>, p: (T, T) -> bool)
    requires |r1| == |f1| && |r2| == |f2|
    requires forall i :: 0 <= i < |f1| ==> p(r1[i], f1[i])
    requires forall i :: 0 <= i < |f2| ==> p(r2[i], f2[i])
    ensures forall i :: 0 <= i < |f1 + f2| ==> p((r1 + r2)[i], (f1 + f2)[i])
  {
    var r, f := r1 + r2, f1 + f2;
    forall i | 0 <= i < |f| ensures p(r[i], f[i]) {
      if i >= |f1| {
        assert r[i] == r2[i - |f1|] && f[i] == f2[i - |f1|];
      } else {
        assert r[i] == r1[i] && f[i] == f1[i];
      }
    }
  }

  // ---------------------------------------------------------------------------
  // Score filters
  // ---------------------------------------------------------------------------

  /** `g["quality_score"]` when it can be compared with a float. */
  function QualityOf(g: Row): Option<real> {
    if "quality_score" in g && g["quality_score"].Number? then Some(g["quality_score"].x) else None
  }

  predicate WithinBound(q: real, bound: real, atLeast: bool) {
    if atLeast then q >= bound else q <= bound
  }

  /** The game has a numeric score, and it passes the bound. */
  predicate InRange(g: Row, bound: real, atLeast: bool) {
    QualityOf(g).Some? && WithinBound(QualityOf(g).value, bound, atLeast)
  }

  /**
   * `[g for g in games if g["quality_score"] >= bound]` (or `<=`): the games within the bound,
   * in order. A score that is missing, NULL or text makes the comparison raise.
   */
  function FilterByScore(games: seq<Row>, bound: real, atLeast: bool): (r: Result<seq<Row>>)
    ensures r.Failure? <==> exists i :: 0 <= i < |games| && QualityOf(games[i]).None?
    ensures r.Success? ==> forall i :: 0 <= i < |r.value| ==> InRange(r.value[i], bound, atLeast)
    ensures r.Success? ==> multiset(r.value) <= multiset(games)
    ensures r.Success? ==> forall g :: g in games && InRange(g, bound, atLeast) ==>
      multiset(r.value)[g] == multiset(games)[g]
    decreases |games|
  {
    if games == [] then Success([])
    else
      var init := games[..|games| - 1];
      var g := games[|games| - 1];
      assert games == init + [g];
      var rest := FilterByScore(init, bound, atLeast);
      if rest.Failure? then
        var i :| 0 <= i < |init| && QualityOf(init[i]).None?;
        assert games[i] == init[i];
        rest
      else if QualityOf(g).None? then Failure("TypeError: '>=' not supported")
      else
        var kept := if InRange(g, bound, atLeast) then rest.value + [g] else rest.value;
        assert forall x :: x in games && InRange(x, bound, atLeast) ==> x in init || x == g;
        Success(kept)
  }

  /** On success the filter is the comprehension: the in-range games, in their stored order. */
  lemma {:induction false} FilterByScoreInOrder(games: seq<Row>, bound: real, atLeast: bool)
    requires FilterByScore(games, bound, atLeast).Success?
    ensures FilterByScore(games, bound, atLeast).value
      == Keep(games, (g: Row) => InRange(g, bound, atLeast))
    decreases |games|
  {
    if games != [] {
      FilterByScoreInOrder(games[..|games| - 1], bound, atLeast);
    }
  }

  // ---------------------------------------------------------------------------
  // Sort fields
  // ---------------------------------------------------------------------------

  /** A parsed `column:order` argument; `desc` is `order.lower() == "desc"`. */
  datatype SortField = SortField(col: string, desc: bool)

  /** `col, order = field.split(":")`: exactly one colon, else ValueError (None). */
  function ParseSortField(field: string): (r: Option<SortField>)
    ensures r.Some? <==> |Split(field, ':')| == 2
  {
    var parts := Split(field, ':');
    if |parts| == 2 then Some(SortField(parts[0], Lower(parts[1]) == "desc")) else None
  }

  /** A column and an order word without colons parse back; any word but "desc" sorts ascending. */
  lemma ParseSortFieldOfParts(col: string, order: string)
    requires ':' !in col && ':' !in order
    ensures ParseSortField(col + ":" + order) == Some(SortField(col, Lower(order) == "desc"))
  {
    SplitAround(col, ':', order);
    SplitWithoutSep(order, ':');
    assert col + ":" + order == col + [':'] + order;
  }

  /** All the fields parsed, or None when any of them does not parse. */
  function ParseSortFields(fields: seq<string>): (r: Option<seq<SortField>>)
    ensures r.Some? <==> forall i :: 0 <= i < |fields| ==> ParseSortField(fields[i]).Some?
    ensures r.Some? ==> |r.value| == |fields|
    ensures r.Some? ==> forall i :: 0 <= i < |fields| ==> r.value[i] == ParseSortField(fields[i]).value
    decreases |fields|
  {
    if fields == [] then Some([])
    else
      var head := ParseSortField(fields[0]);
      var tail := ParseSortFields(fields[1..]);
      if head.None? then None
      else if tail.None? then
        assert exists i :: 1 <= i < |fields| && ParseSortField(fields[i]).None? by {
          var i :| 0 <= i < |fields[1..]| && ParseSortField(fields[1..][i]).None?;
          assert fields[1..][i] == fields[i + 1];
        }
        None
      else Some([head.value] + tail.value)
  }

  /** `g.get(col, 0) or 0`: a missing, NULL, zero or empty value sorts as the number 0. */
  function SortKey(g: Row, col: string): (k: Key)
    ensures col !in g || g[col].Null? ==> k == Num(0.0)
    ensures col in g && g[col].Number? ==> k == Num(g[col].x)
    ensures col in g && g[col].Str? ==> k == (if g[col].s == "" then Num(0.0) else Text(g[col].s))
  {
    if col !in g then Num(0.0)
    else match g[col]
      case Null => Num(0.0)
      case Number(x) => Num(x)
      case Str(s) => if s == "" then Num(0.0) else Text(s)
  }

  function OrderFor(f: SortField): Order<Row> {
    Order(g => SortKey(g, f.col), f.desc)
  }

  function OrdersFor(fs: seq<SortField>): (os: seq<Order<Row>>)
    ensures |os| == |fs|
    decreases |fs|
  {
    if fs == [] then [] else [OrderFor(fs[0])] + OrdersFor(fs[1..])
  }

  /** Sorting on this column compares a number with a string somewhere: TypeError. */
  predicate MixedColumn(games: seq<Row>, col: string) {
    (exists i :: 0 <= i < |games| && SortKey(games[i], col).Num?) &&
    (exists j :: 0 <= j < |games| && SortKey(games[j], col).Text?)
  }

  lemma MixedColumnPermutation(a: seq<Row>, b: seq<Row>, col: string)
    requires multiset(a) == multiset(b)
    ensures MixedColumn(a, col) ==> MixedColumn(b, col)
  {
    if MixedColumn(a, col) {
      var i :| 0 <= i < |a| && SortKey(a[i], col).Num?;
      var j :| 0 <= j < |a| && SortKey(a[j], col).Text?;
      assert a[i] in multiset(b) && a[j] in multiset(b);
      var i' :| 0 <= i' < |b| && b[i'] == a[i];
      var j' :| 0 <= j' < |b| && b[j'] == a[j];
    }
  }

  /** No parsed field sorts a mixed column. */
  predicate SortableBy(games: seq<Row>, fs: seq<SortField>) {
    forall i :: 0 <= i < |fs| ==> !MixedColumn(games, fs[i].col)
  }

  /**
   * `for field in reversed(sort_fields): ... games.sort(key=..., reverse=...)`. It fails when a
   * field does not parse or a sorted column mixes numbers and strings; otherwise the games are
   * sorted once per field, last field first.
   */
  method SortGames(games: seq<Row>, fields: seq<string>) returns (r: Result<seq<Row>>)
    ensures r.Success? <==> ParseSortFields(fields).Some? && SortableBy(games, ParseSortFields(fields).value)
    ensures r.Success? ==> r.value == ApplySorts(games, OrdersFor(ParseSortFields(fields).value))
  {
    var current := games;
    var i := |fields|;
    assert fields[|fields|..] == [];
    while i > 0
      invariant 0 <= i <= |fields|
      invariant ParseSortFields(fields[i..]).Some?
      invariant SortableBy(games, ParseSortFields(fields[i..]).value)
      invariant current == ApplySorts(games, OrdersFor(ParseSortFields(fields[i..]).value))
      invariant multiset(current) == multiset(games)
    {
      i := i - 1;
      var parsed := ParseSortField(fields[i]);
      if parsed.None? {
        return Failure("ValueError: expected 'column:order'");
      }
      var field := parsed.value;
      if MixedColumn(current, field.col) {
        MixedColumnPermutation(current, games, field.col);
        if ParseSortFields(fields).Some? {
          assert ParseSortFields(fields).value[i] == field;
        }
        return Failure("TypeError: '<' not supported between 'str' and 'int'");
      }
      MixedColumnPermutation(games, current, field.col);
      var after := ParseSortFields(fields[i + 1..]).value;
      var here := ParseSortFields(fields[i..]).value;
      assert fields[i..][1..] == fields[i + 1..];
      assert here == [field] + after;
      assert here[1..] == after;
      current := Sort(current, OrderFor(field));
    }
    assert fields[0..] == fields;
    return Success(current);
  }

  /** What the sorted games are, in the export's own terms. */
  lemma SortGamesSpec(games: seq<Row>, fs: seq<SortField>)
    ensures multiset(ApplySorts(games, OrdersFor(fs))) == multiset(games)
    ensures LexSorted(ApplySorts(games, OrdersFor(fs)), OrdersFor(fs))
    ensures forall ks :: TupleClass(ApplySorts(games, OrdersFor(fs)), OrdersFor(fs), ks) == TupleClass(games, OrdersFor(fs), ks)
  {
    ApplySortsSpec(games, OrdersFor(fs));
  }

  // ---------------------------------------------------------------------------
  // The whole export
  // ---------------------------------------------------------------------------

  /** How many elements `s[:n]` keeps, Python slicing included for a negative n. */
  function SliceCount(len: nat, n: int): (c: nat)
    ensures c <= len
    ensures n >= 0 ==> c == (if n < len then n else len)
    ensures n < 0 ==> c == (if len + n > 0 then len + n else 0)
  {
    if n >= 0 then (if n < len then n else len)
    else if len + n > 0 then len + n else 0
  }

  /** The sort arguments, or the default `quality_score:desc` when none are given. */
  function SortFieldsOrDefault(sortBy: seq<string>): seq<string> {
    if sortBy == [] then ["quality_score:desc"] else sortBy
  }

  /** The export's options, as the command line gives them. */
  datatype ExportOptions = ExportOptions(
    groupByTimeControl: bool,
    minScore: Option<real>,
    maxScore: Option<real>,
    sortBy: seq<string>,
    topN: int)

  predicate AllWithin(rows: seq<Row>, bound: Option<real>, atLeast: bool) {
    bound.Some? ==> forall i :: 0 <= i < |rows| ==>
      QualityOf(rows[i]).Some? && WithinBound(QualityOf(rows[i]).value, bound.value, atLeast)
  }

  lemma AllWithinSubMultiset(a: seq<Row>, b: seq<Row>, bound: Option<real>, atLeast: bool)
    requires multiset(a) <= multiset(b) && AllWithin(b, bound, atLeast)
    ensures AllWithin(a, bound, atLeast)
  {
    if bound.Some? {
      forall i | 0 <= i < |a|
        ensures QualityOf(a[i]).Some? && WithinBound(QualityOf(a[i]).value, bound.value, atLeast)
      {
        assert a[i] in multiset(b);
        var j :| 0 <= j < |b| && b[j] == a[i];
      }
    }
  }

  /**
   * The games the export ranks: the stored games, or all of them regrouped and rescored, then
   * the optional minimum and maximum filters. The survivors respect both bounds; without
   * regrouping they are stored games.
   */
  function Candidates(games: seq<Row>, opts: ExportOptions, geo: (Row, seq<Row>) -> real): (r: Result<seq<Row>>)
    ensures r.Success? ==> AllWithin(r.value, opts.minScore, true) && AllWithin(r.value, opts.maxScore, false)
    ensures r.Success? && !opts.groupByTimeControl ==> multiset(r.value) <= multiset(games)
  {
    var base := if opts.groupByTimeControl then RegroupedRescored(games, geo) else games;
    var afterMin := if opts.minScore.Some? then FilterByScore(base, opts.minScore.value, true) else Success(base);
    if afterMin.Failure? then afterMin
    else
      var afterMax := if opts.maxScore.Some? then FilterByScore(afterMin.value, opts.maxScore.value, false) else afterMin;
      if afterMax.Failure? then afterMax
      else
        AllWithinSubMultiset(afterMax.value, afterMin.value, opts.minScore, true);
        afterMax
  }

  /**
   * `handle_export` from the stored games to the selected ones: regrouping, the score filters,
   * the sorts and the cut after N. It fails exactly when a filter or a sort raises; the
   * selected games respect the bounds, come in the requested order, and each of them may come
   * before every candidate left out.
   */
  method ExportGames(games: seq<Row>, opts: ExportOptions, geo: (Row, seq<Row>) -> real)
    returns (r: Result<seq<Row>>)
    ensures var c := Candidates(games, opts, geo);
      var ps := ParseSortFields(SortFieldsOrDefault(opts.sortBy));
      r.Success? <==> c.Success? && ps.Some? && SortableBy(c.value, ps.value)
    ensures r.Success? ==>
      var c := Candidates(games, opts, geo).value;
      var orders := OrdersFor(ParseSortFields(SortFieldsOrDefault(opts.sortBy)).value);
      && r.value == ApplySorts(c, orders)[..SliceCount(|c|, opts.topN)]
      && AllWithin(r.value, opts.minScore, true) && AllWithin(r.value, opts.maxScore, false)
      && LexSorted(r.value, orders)
      && forall x, y :: x in r.value && y in multiset(c) - multiset(r.value) ==> LexBefore(orders, x, y)
  {
    var c := ComputeCandidates(games, opts, geo);
    if c.Failure? {
      return c;
    }
    var fields := SortFieldsOrDefault(opts.sortBy);
    var sorted := SortGames(c.value, fields);
    if sorted.Failure? {
      return Failure(sorted.error);
    }
    var selected := TopOfSorted(c.value, sorted.value, ParseSortFields(fields).value, opts);
    return Success(selected);
  }

  /** The regrouping and the filters, step by step. */
  method ComputeCandidates(games: seq<Row>, opts: ExportOptions, geo: (Row, seq<Row>) -> real)
    returns (r: Result<seq<Row>>)
    ensures r == Candidates(games, opts, geo)
  {
    var current := games;
    if opts.groupByTimeControl {
      current := RegroupAndRescore(games, geo);
    }
    if opts.minScore.Some? {
      var kept := FilterByScore(current, opts.minScore.value, true);
      if kept.Failure? {
        return kept;
      }
      current := kept.value;
    }
    if opts.maxScore.Some? {
      var kept := FilterByScore(current, opts.maxScore.value, false);
      if kept.Failure? {
        return kept;
      }
      current := kept.value;
    }
    return Success(current);
  }

  /** The first `m` of the sorted candidates stay within the bounds and beat every row cut off. */
  lemma CutFacts(c: seq<Row>, all: seq<Row>, orders: seq<Order<Row>>, m: nat, opts: ExportOptions)
    requires multiset(all) == multiset(c) && LexSorted(all, orders) && m <= |all|
    requires AllWithin(c, opts.minScore, true) && AllWithin(c, opts.maxScore, false)
    ensures AllWithin(all[..m], opts.minScore, true) && AllWithin(all[..m], opts.maxScore, false)
    ensures LexSorted(all[..m], orders)
    ensures forall x, y :: x in all[..m] && y in multiset(c) - multiset(all[..m]) ==> LexBefore(orders, x, y)
  {
    PrefixBeatsRest(all, orders, m);
    assert multiset(all[..m]) <= multiset(c) by {
      assert all == all[..m] + all[m..];
    }
    AllWithinSubMultiset(all[..m], c, opts.minScore, true);
    AllWithinSubMultiset(all[..m], c, opts.maxScore, false);
  }

  /** The cut after N of the sorted candidates, and what it guarantees. */
  method TopOfSorted(c: seq<Row>, all: seq<Row>, fs: seq<SortField>, opts: ExportOptions) returns (selected: seq<Row>)
    requires all == ApplySorts(c, OrdersFor(fs))
    requires AllWithin(c, opts.minScore, true) && AllWithin(c, opts.maxScore, false)
    ensures |all| == |c| && selected == all[..SliceCount(|c|, opts.topN)]
    ensures AllWithin(selected, opts.minScore, true) && AllWithin(selected, opts.maxScore, false)
    ensures LexSorted(selected, OrdersFor(fs))
    ensures forall x, y :: x in selected && y in multiset(c) - multiset(selected) ==> LexBefore(OrdersFor(fs), x, y)
  {
    var orders := OrdersFor(fs);
    assert multiset(all) == multiset(c) && LexSorted(all, orders) by {
      SortGamesSpec(c, fs);
    }
    var m := SliceCount(|all|, opts.topN);
    selected := all[..m];
    CutFacts(c, all, orders, m, opts);
  }
}
