# chess-book, modelled in Dafny

chess-book turns chess games into a printed LaTeX book. The repository holds two generations of two scripts:

- a **selection** script that analyses games with a UCI engine and keeps the best ones:
  - the legacy `select_top_games.py` uses a linear score;
  - `chess_book/select_top_games.py` stores metrics in a database, rescales them and exports the top games;
- a **book generator** that writes a chapter per game:
  - the legacy `generate_chess_book.py`;
  - `chess_book/generate_chess_book.py`.

Once the engine, the chess library and the database are abstracted away, what is left is a set of deterministic integer, real and string rules. This project models those rules and proves what they promise:

- the per-move centipawn-loss (CPL) rule and the three analysers built on it;
- the per-game counts and means, and the promotion count;
- the legacy linear score;
- the clamp and the contextual adjustments of the quality score;
- the export pipeline: group by time control, rescore, filter, multi-key stable sort, top N;
- the legacy top-N-then-by-date ordering;
- LaTeX escaping, SAN piece-letter localisation, TimeControl normalisation and opening lookup;
- the layout index logic of both book generators:
  - move numbering and the two-column threshold;
  - the annotated truncation;
  - the choice of board pairs and the page breaks.

The engine is an oracle: for every ply the caller supplies the evaluations and the principal variation it answered. Evaluations are `Cp(int) | Mate(int)` from White's side. The chess library is replaced by per-ply inputs: SAN text, board FEN, the moving piece, the promotion flag and the squares to mark. Global tables become parameters: the localised piece letters, the openings table and the score's geometric mean.

Modules, one per file:

| file | module | what it holds |
|---|---|---|
| wrappers.dfy | Wrappers | `Option`, `Result` |
| text.dfy | Text | substring search, ASCII lower case, `split`/`join`, Python `int()` and `str()` on integers |
| sequences.dfy | Sequences | a list comprehension with an `if` clause, as an order-preserving selection |
| engine.dfy | Engine | scores, pieces, the CPL rule |
| analysis.dfy | MoveAnalysis | the three analysers and the legacy smart-move search |
| metrics.dfy | GameMetrics | means, bands, classifier, raw metrics, summary table, legacy score |
| quality.dfy | QualityScore | clamp, `safe_stats`, contextual adjustments |
| sorting.dfy | StableSort | Python's stable `list.sort` and sorting once per field |
| export.dfy | Export | the `export` command of the database script |
| legacy_select.dfy | LegacySelection | the legacy script's top-N-then-by-date step |
| latex.dfy | Latex | `escape_latex_special_chars` |
| san.dfy | San | `translate_san_move` |
| timecontrol.dfy | TimeControl | `translate_time_control` |
| opening.dfy | Openings | `_find_opening_data` |
| notation.dfy | Notation | move lists of both book generators |
| boards.dfy | Boards | board pairs, captions and page breaks of both book generators |

## Model

| member | source | states |
|---|---|---|
| Engine.MoveLoss | chess_book/select_top_games.py:155-162 | The CPL is never negative. It is 0 when either score is a mate score. Otherwise it is the drop of the evaluation seen from the side that moved, clamped at 0. A positive CPL means the mover's evaluation fell. |
| Engine.MoveLossColourSymmetric | chess_book/generate_chess_book.py:268-275 | Swapping colours and negating both evaluations leaves a move's CPL unchanged, so the White and Black branches are one rule. |
| Engine.SidesAlternate | chess_book/select_top_games.py:151-164 | The side that moves alternates from ply to ply, whoever starts. |
| Engine.Symbol | chess_book/generate_chess_book.py:524 | A piece's letter is upper case exactly for a White piece. |
| MoveAnalysis.AnalyzeGame | chess_book/select_top_games.py:142-165 | A game without moves gives None. Otherwise there is one record per ply, in order: `is_white_move` is true exactly on White's plies, and `cpl` is the CPL rule applied to that ply's two evaluations. The legacy analyser at select_top_games.py:60-91 is the same loop. |
| MoveAnalysis.AnalyzeGameWithStockfish | chess_book/generate_chess_book.py:252-286 | There is one entry per ply with `move_index == i`, the played move and both evaluations. The best move is the first PV move, or None for an empty line. The side to move is read before the push, and the CPL follows the same rule. |
| MoveAnalysis.Reached | generate_chess_book.py:65-75 | Counts the plies the search gets through before the first exception. An exception is an engine error or an empty PV. |
| MoveAnalysis.FindSmartMoves | generate_chess_book.py:63-76 | An index is in the set iff the search reached it before any exception and the engine's best move differs from the move played. An engine that cannot start gives the empty set. |
| GameMetrics.Mean | chess_book/select_top_games.py:177-180 | A mean is never negative, and it is 0 on an empty list. |
| GameMetrics.SumAtMost | chess_book/select_top_games.py:177 | A sum of values that all respect a bound is at most count × bound. |
| GameMetrics.MeanAtMost | chess_book/select_top_games.py:177-180 | A mean never exceeds a bound that every value respects. |
| GameMetrics.ClassifyMoveLoss | chess_book/generate_chess_book.py:241-249 | The thresholds 200/100/50 split CPL into four disjoint classes. Each class holds exactly its band, in both directions. |
| GameMetrics.CountAtLeast | chess_book/select_top_games.py:181 | No more plies are counted than there are; GameMetrics.CountAtLeastCountsPlies states which ones. |
| GameMetrics.CountAtLeastCountsPlies | chess_book/select_top_games.py:181 | `sum(1 for c in cpls if c >= lo)` is the number of positions whose loss is at least `lo`. |
| GameMetrics.CountBetween | chess_book/select_top_games.py:182 | No more plies are counted than there are; GameMetrics.CountBetweenCountsPlies states which ones. |
| GameMetrics.CountBetweenCountsPlies | chess_book/select_top_games.py:182 | `sum(1 for c in cpls if lo <= c < hi)` is the number of positions whose loss lies in `[lo, hi)`. |
| GameMetrics.BandsAreClasses | chess_book/select_top_games.py:181-182 | The blunder count (`>= 200`), the mistake count (`[100, 200)`) and the inaccuracy count (`[50, 100)`) are the classifier's classes. Together they never exceed the number of plies. |
| GameMetrics.BlundersAndMistakesAtMostPlies | chess_book/select_top_games.py:181-182 | Blunders plus mistakes never exceed the number of plies, and adding inaccuracies keeps that bound. |
| GameMetrics.Cpls | chess_book/select_top_games.py:173 | There is one CPL per record, in order. |
| GameMetrics.SidesPartitionPlies | chess_book/select_top_games.py:174-175 | Splitting the plies by side loses none and counts none twice, and the side totals add up to the game total. |
| GameMetrics.SidesPartitionBands | chess_book/generate_chess_book.py:635-640 | The per-side band counts add up to the whole game's counts, for every band. |
| GameMetrics.CountPromotions | chess_book/select_top_games.py:185-190 | The number of promoting moves is at most the number of moves. |
| GameMetrics.WinnerOf | chess_book/select_top_games.py:199-200 | White wins iff the result is `1-0`, Black iff it is `0-1`, and a draw otherwise, including a missing result. |
| GameMetrics.ExtractRawMetrics | chess_book/select_top_games.py:168-215 | Gives the move count, the non-negative all-ply mean and side means, the blunders and mistakes as classifier classes with their sum within the ply count, promotions within the move count, and the winner. |
| GameMetrics.AsRecords | chess_book/generate_chess_book.py:628-632 | There is one record per analysed ply. |
| GameMetrics.AnalysisSummary | chess_book/generate_chess_book.py:621-640 | An empty analysis gives no table. Otherwise the first column is White's plies and the second Black's. Each column holds that side's ply count, its mean CPL (0 for a side without plies) and its blunder, mistake and inaccuracy counts under the 200/100/50 classifier. The two ply counts add up to the total, and each side's three counts never exceed its plies. |
| GameMetrics.Summarise | chess_book/generate_chess_book.py:631-640 | One column of the table: the side's ply count, its mean CPL, and its counts in the bands [200, ∞), [100, 200) and [50, 100), which are the classifier's classes and together never exceed the plies. |
| GameMetrics.SideCpls | chess_book/select_top_games.py:174-175 | A side's list is never longer than the records; GameMetrics.SideCplsIsKeep gives its contents. |
| GameMetrics.SideCplsIsKeep | chess_book/select_top_games.py:174-175 | `[d['cpl'] for d in records if d['is_white_move']]` (or its negation) equals the losses of `Keep(records, OnSide(white))`: that side's records, in order and each once. |
| GameMetrics.SideCplsAreTheSidesPlies | chess_book/generate_chess_book.py:627-628 | A side's CPL list has one entry per ply marked as that side's move. |
| GameMetrics.SummaryBlundersAddUp | chess_book/generate_chess_book.py:635-636 | The table's two blunder counts add up to the game's blunder count. |
| GameMetrics.LengthBonus | select_top_games.py:31 | The bonus is 10 iff the game has 20 to 120 plies, otherwise 0. |
| GameMetrics.ResultBonus | select_top_games.py:33-38 | The bonus is 20 iff the lower-cased termination contains "checkmate". It is 5 iff there is no checkmate and the result is `1-0` or `0-1`. Otherwise it is 0. |
| GameMetrics.LinearScoreMonotone | select_top_games.py:41-43 | The legacy score never decreases with more blunders or mistakes, and each extra blunder adds at least 2. |
| GameMetrics.LinearScore | select_top_games.py:41-43 | No contract of its own: the legacy formula `(100 - avg_cpl) + (2 * blunders + mistakes) + length_bonus + result_bonus`, whose properties LinearScoreMonotone and CalculateGameScore state. |
| GameMetrics.CalculateGameScore | select_top_games.py:10-57 | An empty analysis gives `(0, {})`. Otherwise `avg_cpl` is the mean of the two side means, each 0 for a side without plies, and the score is the linear formula over the bands and bonuses. |
| GameMetrics.SideMeansMatchPlyMeanWhenBalanced | select_top_games.py:22-26 | When both sides have the same number of plies, the mean of the side means is the all-ply mean. |
| GameMetrics.SideMeansDifferFromPlyMean | select_top_games.py:22-26 | With three plies (0, 0, 300), the mean of the side means (75) differs from the all-ply mean (100), so `avg_cpl` is not the all-ply mean. |
| QualityScore.Clamp100 | chess_book/select_top_games.py:282 | The result lies in [0, 100]. It equals the input inside that range, 0 below it and 100 above it. |
| QualityScore.Cap100 | chess_book/select_top_games.py:291 | `min(100, x)` is at most 100 and at most x, and it equals x when x ≤ 100. |
| QualityScore.SafeStats | chess_book/select_top_games.py:224-227 | An empty list gives `(0, 1)`. Otherwise the first value is the mean. The spread is never 0, because a zero deviation is replaced by 1. |
| QualityScore.AdjustScore | chess_book/select_top_games.py:285-307 | Starting from a score in [0, 100], the adjusted score stays in [0, 100]. It is unchanged when no bonus or penalty applies. |
| QualityScore.AdjustScoreMonotone | chess_book/select_top_games.py:290-307 | A higher base score never ends lower after the adjustments. |
| QualityScore.AdjustScorePromotionsMonotone | chess_book/select_top_games.py:306-307 | More promotions never lower the score. |
| QualityScore.AdjustScorePenalties | chess_book/select_top_games.py:292-295 | A loss on time multiplies the score by 0.8, a draw by rule by 0.9, and both together by 0.72. |
| QualityScore.CheckmateBonus | chess_book/select_top_games.py:290-291 | A checkmate adds exactly 5 up to a base of 95, and lifts the score to 100 above that. |
| QualityScore.UpsetByWhite | chess_book/select_top_games.py:297-300 | With both ratings present and a `1-0` result, the upset bonus applies iff White was rated lower. |
| QualityScore.UpsetByBlack | chess_book/select_top_games.py:297-302 | With both ratings present and a `0-1` result, the upset bonus applies iff Black was rated lower. |
| QualityScore.NoUpsetWithoutDecision | chess_book/select_top_games.py:299-302 | A draw or an unfinished game never gets the upset bonus. |
| QualityScore.UpsetBonus | chess_book/select_top_games.py:297-302 | The upset bonus adds exactly 3 up to a base of 97, and lifts the score to 100 above that. |
| QualityScore.PromotionBonus | chess_book/select_top_games.py:306-307 | Each promotion adds 2, and the total is capped at 100. |
| QualityScore.IsUpset | chess_book/select_top_games.py:297-304 | No contract of its own: the lower-rated side won, with both ratings present and parsed as integers; UpsetByWhite, UpsetByBlack, NoUpsetWithoutDecision and NoUpsetWithoutRatings characterise it. |
| QualityScore.NoUpsetWithoutRatings | chess_book/select_top_games.py:297-304 | A missing rating disables the upset bonus, whatever the result. |
| QualityScore.CalculateQualityScore | chess_book/select_top_games.py:282-307 | Fails iff the headers are missing. Otherwise the result lies in [0, 100] and is the adjustment of the clamped `geo × 100`. |
| StableSort.TextLeqTotal | chess_book/select_top_games.py:120 | String comparison is total. |
| StableSort.TextLeqAntisymmetric | chess_book/select_top_games.py:120 | String comparison is antisymmetric. |
| StableSort.TextLeqTransitive | chess_book/select_top_games.py:120 | String comparison is transitive. |
| StableSort.Sort | chess_book/select_top_games.py:120 | One `sort(key, reverse)` returns a permutation of its input, ordered by the key in the requested direction. Each key class keeps its input order. |
| StableSort.StableSortUnique | chess_book/select_top_games.py:117-120 | Two sorted sequences with the same key classes are equal, so the reference sort is what any stable sort returns. |
| StableSort.SortIsTheStableSort | chess_book/select_top_games.py:120 | Any sorted rearrangement that keeps each key class in input order is `Sort`'s result. |
| StableSort.PrefixBeatsRest | chess_book/select_top_games.py:123 | A prefix of a sorted list is sorted. The elements cut off are exactly the rest, and every kept element may precede every cut-off one. |
| StableSort.ApplySortsSpec | chess_book/select_top_games.py:116-120 | Sorting once per field, last field first, gives a permutation ordered lexicographically by the fields, each in its own direction. Rows with equal key tuples keep their input order. |
| StableSort.ApplySorts | chess_book/select_top_games.py:116-120 | Sorting once per field keeps the length; ApplySortsSpec states what the result is. |
| Export.GroupKey | chess_book/select_top_games.py:91 | A row's group key is always truthy: a missing, NULL or empty time control becomes "unknown". |
| Export.DistinctKeys | chess_book/select_top_games.py:89-92 | The group keys appear without repetition. |
| Export.FirstWith | chess_book/select_top_games.py:89-92 | The position of the first row with a given key: that row has the key and no earlier row does; the length when no row has it. |
| Export.ListedKeyHasFirst | chess_book/select_top_games.py:89-92 | A key is listed iff some row carries it. |
| Export.DistinctKeysInFirstAppearanceOrder | chess_book/select_top_games.py:89-95 | The keys come in the order in which their first rows appear, which is the iteration order of the grouping dict. |
| Export.Members | chess_book/select_top_games.py:92 | A group holds only rows with its key. |
| Export.MembersInOrder | chess_book/select_top_games.py:92 | A group is the rows with its key, in their stored order. |
| Export.MembersHaveKey | chess_book/select_top_games.py:92 | Every member of a group has that group's key. |
| Export.MembersHas | chess_book/select_top_games.py:92 | Every row is a member of its own key's group. |
| Export.DistinctKeysCover | chess_book/select_top_games.py:89-92 | A key is a group iff some row has that key. |
| Export.GroupByTimeControl | chess_book/select_top_games.py:87-92 | The dictionary has exactly the distinct keys, in insertion order. Each group is the rows with that key, in input order. |
| Export.RegroupedIsPermutation | chess_book/select_top_games.py:94-104 | Concatenating the groups in key order gives a permutation of the rows: every row is in exactly one group. |
| Export.MembersCount | chess_book/select_top_games.py:92 | A group holds every copy of a row whose key is the group's key, and no other row. |
| Export.RegroupedCount | chess_book/select_top_games.py:94-104 | With distinct keys, the concatenated groups hold every copy of a row whose key is listed, exactly once, and no other row. |
| Export.GroupScore | chess_book/select_top_games.py:100 | A rescored value lies in [0, 100]. |
| Export.Rescored | chess_book/select_top_games.py:101 | The row's `quality_score` becomes its group's score. |
| Export.RegroupAndRescoreAsWritten | chess_book/select_top_games.py:94-104 | As written, regrouping fails iff there is at least one game, because of the missing "headers" key (see Findings). |
| Export.RegroupAndRescore | chess_book/select_top_games.py:94-104 | The corrected loop keeps one rescored row per input row. Each rescored row has a score in [0, 100], computed within its time-control group. |
| Export.RescoreGroup | chess_book/select_top_games.py:99-102 | Every row of a group is rescored against that group. |
| Export.RegroupedRescoredFacts | chess_book/select_top_games.py:94-104 | The rescored list has as many rows as the input, and each score lies in [0, 100]. |
| Export.FilterByScore | chess_book/select_top_games.py:110-113 | Fails iff some row has no score. Otherwise it keeps exactly the rows within the bound, as a sub-multiset of the input. |
| Export.FilterByScoreInOrder | chess_book/select_top_games.py:110-113 | On success, the kept rows are the in-range rows in their stored order. |
| Sequences.Keep | chess_book/select_top_games.py:111 | The list comprehension with an `if` clause is never longer than its input; KeepIsOrderedSelection states what it selects. |
| Sequences.KeepIsOrderedSelection | chess_book/select_top_games.py:111-113 | A comprehension keeps the elements that satisfy its condition, each at a strictly later position than the one before, so the input order is kept. |
| Export.ParseSortField | chess_book/select_top_games.py:118-119 | A field parses iff it splits into exactly two parts on `:`. The order is descending iff the second part lower-cases to `desc`. |
| Export.ParseSortFieldOfParts | chess_book/select_top_games.py:118-119 | `col:order` parses to that column and that direction. |
| Export.ParseSortFields | chess_book/select_top_games.py:116-119 | All fields parse iff each one does. The results match the fields one for one. |
| Export.SortKey | chess_book/select_top_games.py:120 | `g.get(col, 0) or 0`: a missing, NULL, zero or empty cell sorts as 0. Otherwise the cell's number or string is the key. |
| Export.MixedColumnPermutation | chess_book/select_top_games.py:120 | Whether a column mixes numbers and strings, and so raises TypeError, does not depend on the row order. |
| Export.SortGames | chess_book/select_top_games.py:116-120 | Succeeds iff every field parses and no sorted column mixes numbers and strings. The result is the per-field stable sorts applied last field first. |
| Export.SortGamesSpec | chess_book/select_top_games.py:116-120 | The sorted rows are a permutation, ordered lexicographically by the fields, with ties kept in prior order. |
| Export.SliceCount | chess_book/select_top_games.py:123 | Python's `[:n]` keeps `min(n, len)` rows for `n ≥ 0`, and drops `-n` from the end for negative `n`. |
| Export.AllWithinSubMultiset | chess_book/select_top_games.py:110-123 | Rows taken from rows within the bounds stay within the bounds. |
| Export.Candidates | chess_book/select_top_games.py:87-113 | The rows that survive grouping and filtering are within both bounds. Without regrouping they are a sub-multiset of the stored rows. Corrected: with regrouping it rescores through Export.RegroupAndRescore, where the code as written raises KeyError (see Findings). |
| Export.TopOfSorted | chess_book/select_top_games.py:123 | The first `min(top_n, len)` sorted rows are within the bounds and lexicographically sorted, and none left out should come before a kept one. |
| Export.ExportGames | chess_book/select_top_games.py:87-123 | Succeeds iff grouping, filtering, parsing and sorting all succeed. The export is the top-N prefix of the sorted survivors. It is within the bounds and sorted, and no left-out row should precede a kept one. Corrected: with regrouping it rescores through Export.RegroupAndRescore, where the code as written raises KeyError (see Findings). |
| Export.ComputeCandidates | chess_book/select_top_games.py:87-113 | The imperative pipeline computes the candidates. Corrected: with regrouping it rescores through Export.RegroupAndRescore, where the code as written raises KeyError (see Findings). |
| LegacySelection.TopN | select_top_games.py:160-161 | The top N is `min(n, len)` games after the score ranking. |
| LegacySelection.SelectTopGames | select_top_games.py:160-164 | Ranks by score, descending, keeps the first `n`, and re-sorts those by date. |
| LegacySelection.SelectionFacts | select_top_games.py:160-164 | For `n ≥ 0` it keeps `min(n, len)` games. The date sort permutes them without changing the set, and the result is in date order. No game left out scores higher than a game kept. |
| LegacySelection.DatesIncrease | select_top_games.py:164 | Kept games come out in increasing date order, an undated game counting as `9999.99.99`. |
| Latex.ReplaceChar | chess_book/generate_chess_book.py:209 | `str.replace` leaves a string without the character unchanged. |
| Latex.ReplaceCharAppend | chess_book/generate_chess_book.py:209 | Replacing a character distributes over concatenation. |
| Latex.ReplaceAllAppend | chess_book/generate_chess_book.py:209-218 | The replacement chain distributes over concatenation. |
| Latex.ReplaceAllSplit | chess_book/generate_chess_book.py:209-218 | Running a chain equals running its first part and then the rest. |
| Latex.EscapeChar | chess_book/generate_chess_book.py:209-218 | A character is left as itself iff it is not one of `\ & % $ # _ { } ~ ^`. |
| Latex.EscapeBackslash | chess_book/generate_chess_book.py:209-216 | A backslash becomes `\textbackslash\{\}`, because the braces are escaped after the backslash step. |
| Latex.EscapeSingle | chess_book/generate_chess_book.py:209-218 | On one character, the ordered chain gives that character's escape. |
| Latex.EscapeLatexIsPerChar | chess_book/generate_chess_book.py:205-219 | The ordered chain escapes each character independently. |
| Latex.EscapeLatex | chess_book/generate_chess_book.py:205-219 | No contract of its own: the ten replacements in source order; EscapeLatexIsPerChar shows the chain escapes each character on its own. |
| Latex.PlainTextUnchanged | generate_chess_book.py:42-56 | A string with none of the ten special characters is returned unchanged. |
| Latex.EscapeLatexAppend | chess_book/generate_chess_book.py:205-219 | Escaping distributes over concatenation. |
| Latex.EscapeTwiceDiffers | generate_chess_book.py:214 | `#` escapes to `\#`. Escaping that again gives `\textbackslash\{\}\#`. |
| San.TranslateSan | chess_book/generate_chess_book.py:173-202 | The empty SAN gives the empty SAN. The translation fails (IndexError) iff the first `=` is the last character. |
| San.TranslatePromotion | chess_book/generate_chess_book.py:182-191 | In a promotion, only the promoted piece's letter is localised. The prefix and a trailing `+`/`#` are kept. |
| San.TranslateUnknownPromotion | chess_book/generate_chess_book.py:192-193 | A promotion to a letter the table lacks is returned unchanged. |
| San.TranslatePieceMove | chess_book/generate_chess_book.py:196-199 | A leading piece letter is localised and the rest of the move is kept. |
| San.PawnMovesAndCastlingUnchanged | chess_book/generate_chess_book.py:201-202 | Pawn moves and castling are returned unchanged. |
| San.IdentityLettersChangeNothing | chess_book/generate_chess_book.py:173-202 | With the English letters, translation changes nothing. |
| San.SingleLettersKeepLength | chess_book/generate_chess_book.py:173-202 | With one-letter localisations, the move's length is kept. |
| San.TranslateTwice | chess_book/generate_chess_book.py:196-199 | When a piece's localised letter is itself a key of the table, a second translation maps that letter again. |
| TimeControl.TranslateTimeControl | chess_book/generate_chess_book.py:862-886 | An empty control gives `?`. A `+` form that does not split into exactly two parts gives `?`. |
| TimeControl.IncrementForm | chess_book/generate_chess_book.py:869-872 | `a+b` with both parts integers comes out as `a+b` re-printed as integers. |
| TimeControl.DailyForm | chess_book/generate_chess_book.py:875-879 | The daily form `x/y` gives `str(int(y))`. |
| TimeControl.PlainSeconds | chess_book/generate_chess_book.py:882-884 | A plain integer comes out re-printed as itself. |
| TimeControl.OutputIsNormal | chess_book/generate_chess_book.py:862-886 | Every output is `?`, `a+b` or an integer, as printed by `str`. |
| TimeControl.NormalIsFixed | chess_book/generate_chess_book.py:862-886 | A normal form translates to itself. |
| TimeControl.TranslateIdempotent | chess_book/generate_chess_book.py:862-886 | Translating twice gives the same result as translating once. |
| Text.JoinSplit | chess_book/generate_chess_book.py:333 | Joining the parts of a split with the same separator gives back the string. |
| Text.ParseShowInt | chess_book/generate_chess_book.py:872 | Python's `int()` reads back what `str()` printed for any integer. |
| Openings.KeptPrefix | chess_book/generate_chess_book.py:327-332 | The key parts are the longest prefix of the hyphen-separated parts before the first empty part, numbered move or castling token. |
| Openings.CollectKeyParts | chess_book/generate_chess_book.py:327-332 | The loop with its early `break` computes that prefix. |
| Openings.KeptPrefixIsLongest | chess_book/generate_chess_book.py:328-332 | Any prefix that is all keepable and is followed by the end or a stop part is the kept prefix. |
| Openings.Lookup | chess_book/generate_chess_book.py:338 | `OPENINGS.get(key)` finds an entry iff the table has that key, and returns that key's entry. |
| Openings.FirstFallback | chess_book/generate_chess_book.py:343-347 | The fallback finds an entry iff some entry has the game's ECO code and its key occurs in the URL key. The result carries the game's code. |
| Openings.FindOpeningData | chess_book/generate_chess_book.py:314-348 | The imperative search returns the opening that the lookup rules select. |
| Openings.FoundHasTheGamesCode | chess_book/generate_chess_book.py:321-344 | Nothing is found unless both headers are non-empty, and whatever is found carries the game's ECO code. |
| Openings.PrimaryHitWins | chess_book/generate_chess_book.py:338-340 | A primary hit whose ECO code agrees wins over every fallback. |
| Openings.UnknownCodeFindsNothing | chess_book/generate_chess_book.py:339-348 | Nothing is found when no entry has the game's ECO code. |
| Openings.KeyStopsAtNumberedMove | chess_book/generate_chess_book.py:329 | The key stops at the first digit-led part that contains `.`. |
| Openings.OpeningFor | chess_book/generate_chess_book.py:314-348 | No contract of its own: the lookup rules; FoundHasTheGamesCode, PrimaryHitWins and UnknownCodeFindsNothing state them. |
| Openings.OpeningKey | chess_book/generate_chess_book.py:327-333 | No contract of its own: the kept parts of the URL's last segment joined by `-`; KeptPrefix and KeptPrefixIsLongest state what is kept. |
| Openings.KeepPart | chess_book/generate_chess_book.py:330 | No contract of its own: a part is kept when it is non-empty, not a numbered move and not castling. |
| Openings.LookupUnique | chess_book/generate_chess_book.py:338 | In a table with unique keys, the lookup returns the one entry stored under the key. |
| Notation.LocaliseKeepsLibrarySan | chess_book/generate_chess_book.py:182-199 | With a letter table of non-empty letters without `=`, localising a well-formed SAN gives a well-formed SAN, so it can be localised again. |
| Notation.EveryPieceHasFigurines | chess_book/generate_chess_book.py:289-295 | A check of the two fixed figurine tables, not a property of any input: no piece symbol falls back to the empty default. |
| Notation.SanSuffix | chess_book/generate_chess_book.py:525 | A SAN that starts with a piece letter loses exactly that letter. Any other SAN is kept whole. |
| Notation.WhiteCellAgreesWithTwoColumns | chess_book/generate_chess_book.py:557-569 | A White move's single-column cell equals its two-column cell. |
| Notation.BlackCellAgreesWithTwoColumns | chess_book/generate_chess_book.py:573-592 | With the translation applied once, a Black move's single-column cell equals its two-column cell. |
| Notation.BlackCellAsWrittenLocalisesTwice | chess_book/generate_chess_book.py:577-592 | As written, a Black piece move in algebraic notation is localised twice when its localised letter is itself a table key (see Findings). |
| Notation.BlackCellAsWritten | chess_book/generate_chess_book.py:573-592 | No contract of its own: Black's cell as written, translated at line 578 and again when printed; BlackCellAsWrittenLocalisesTwice and FrenchBlackKingMove state the consequence. |
| Notation.BlackCell | chess_book/generate_chess_book.py:573-592 | No contract of its own: Black's cell translated once; BlackCellAgreesWithTwoColumns shows it prints as the two-column layout does. |
| Notation.FormatMove | chess_book/generate_chess_book.py:510-525 | No contract of its own: the two-column cell (translated in algebraic notation and for promotions, figurine plus escaped suffix for a piece move, escaped SAN otherwise); the Agrees lemmas relate the one-column cells to it. |
| Notation.WhiteCell | chess_book/generate_chess_book.py:557-569 | No contract of its own: White's one-column cell; WhiteCellAgreesWithTwoColumns shows it equals the two-column cell. |
| Notation.FrenchBlackKingMove | chess_book/generate_chess_book.py:577-592 | With K→R and R→T, Black's `Kf8` is printed `Tf8` as written, and `Rf8` once corrected. |
| Notation.NumFullMoves | chess_book/generate_chess_book.py:484 | `(plies + 1) // 2` is the number of move numbers: twice it is the ply count or one more. |
| Notation.TwoColumnsForLongGamesOnly | chess_book/generate_chess_book.py:487 | Two columns are used iff there are more than 25 full moves and the output is not annotated. |
| Notation.ShownPlies | chess_book/generate_chess_book.py:549-550 | The annotated example keeps the first 16 plies. Otherwise all plies are kept. The result is a prefix. |
| Notation.AnnotatedAtMostEightRows | chess_book/generate_chess_book.py:549-550 | The annotated example has at most 8 rows. |
| Notation.Cells | chess_book/generate_chess_book.py:530-531 | There is one cell per ply. |
| Notation.PairUpToIndex | chess_book/generate_chess_book.py:497-534 | The j-th row of the pairing is the j-th pair of cells. |
| Notation.Paired | chess_book/generate_chess_book.py:497 | There are `(plies + 1) // 2` rows. |
| Notation.CellInItsRow | chess_book/generate_chess_book.py:498-534 | Ply i is in row i // 2, numbered i // 2 + 1: in the White column when i is even, in the Black column when it is odd. |
| Notation.PairCells | chess_book/generate_chess_book.py:497-538 | The stepped loop pairs the cells into rows. |
| Notation.TwoColumnRows | chess_book/generate_chess_book.py:497-538 | The two-column loop computes the two-column rows. |
| Notation.OneColumnRows | chess_book/generate_chess_book.py:552-594 | The single-column loop computes the single-column rows. Corrected: Black's moves use Notation.BlackCell, translated once; the code as written translates them twice (see Findings). |
| Notation.PlyInItsRow | chess_book/generate_chess_book.py:497-534 | In two columns, ply i's formatted move is in row i // 2, numbered i // 2 + 1, in its side's column. |
| Notation.PlyInItsOneColumnRow | chess_book/generate_chess_book.py:552-594 | In a single column, ply i's cell is in row i // 2, numbered i // 2 + 1, in its side's column. Corrected: Black's moves use Notation.BlackCell, translated once; the code as written translates them twice (see Findings). |
| Notation.Lines | chess_book/generate_chess_book.py:534-594 | There is one table line per row. Corrected: Black's moves use Notation.BlackCell, translated once; the code as written translates them twice (see Findings). |
| Notation.GameNotationLines | chess_book/generate_chess_book.py:467-597 | A game without moves gives only the heading `\subsection*{}` plus the footnote. With two columns the output is the heading, `multicols`, `tabbing` and the tab-stop line, then one `n. \> white \> black \\` line per row of `Rows(plies, …, true)`, then the two closing lines. With one column it is the heading, `\noindent` and `tabularx`, then one `n. & white & black\\` line per row of `Rows(ShownPlies(plies, annotated), …, false)`, then `\end{tabularx}`. So Notation.PlyInItsRow and Notation.PlyInItsOneColumnRow place each ply in its output line. Corrected: Black's moves use Notation.BlackCell, translated once; the code as written translates them twice (see Findings). |
| Notation.NumberedLength | generate_chess_book.py:87-90 | The move list has `plies + ceil(plies / 2)` tokens. |
| Notation.NumberedPositions | generate_chess_book.py:87-90 | The token `k.`, with k = i // 2 + 1, comes before ply i exactly when i is even. Ply i's move is at position i + i // 2 + 1. |
| Notation.NumberTokens | generate_chess_book.py:87-129 | The loop emits the numbered token list. |
| Notation.Numbered | generate_chess_book.py:87-90 | No contract of its own: the score's tokens; NumberedLength and NumberedPositions give their count and positions. |
| Notation.LegacyMoveText | generate_chess_book.py:92-126 | No contract of its own: in figurine notation a piece move whose SAN starts with a piece letter prints its Unicode figurine, a space and the escaped rest; any other move prints its escaped SAN. |
| Notation.LegacyMoveTexts | generate_chess_book.py:92-126 | There is one move text per ply. |
| Notation.LegacyNotationLines | generate_chess_book.py:131-133 | Three lines: the opening command, the numbered tokens joined by spaces, and the closing command. |
| Boards.AnalysisAt | chess_book/generate_chess_book.py:685-686 | A ply has analysis iff its index is within the analysis list, and it is that list's entry. |
| Boards.AllPairs | chess_book/generate_chess_book.py:674 | There is one pair per full move, `(plies + 1) // 2`. |
| Boards.PairText | chess_book/generate_chess_book.py:675-711 | No contract of its own: the move number, a dot, and each ply's escaped SAN after a space; WordsOfPairText splits it into its parts. |
| Boards.PairAt | chess_book/generate_chess_book.py:674-733 | No contract of its own: one pass of the pair loop; PairLossIsAPlyLoss and SecondBoardOnlyWithBlackMove state its flag and its boards. |
| Boards.CollectMovePairs | chess_book/generate_chess_book.py:674-733 | The stepped loop builds every pair in order. |
| Boards.PairLossIsAPlyLoss | chess_book/generate_chess_book.py:688-689 | A pair has a CPL iff one of its analysed plies lost centipawns. |
| Boards.SecondBoardOnlyWithBlackMove | chess_book/generate_chess_book.py:710-729 | The second board has marks iff there is a Black move. A lone final White move repeats the first FEN and has no Black analysis. |
| Boards.LossPairs | chess_book/generate_chess_book.py:735-737 | The smart scope keeps exactly the pairs with a CPL, as a sub-multiset; Boards.LossPairsIsKeep states the order. |
| Boards.LossPairsIsKeep | chess_book/generate_chess_book.py:735-737 | The smart scope equals `Keep(pairs, HasLoss)`: every pair with a loss, in game order, which is the order line 741 draws them in. |
| Boards.Slice | chess_book/generate_chess_book.py:739 | Python's clipped slice `[lo:hi]`: its length and its elements. |
| Boards.PairsToDisplay | chess_book/generate_chess_book.py:735-739 | No contract of its own: all pairs for scope `all`, the pairs with a CPL otherwise, and `[5:6]` when annotated; AnnotatedDrawsSixthPair and SmartScopeDrawsLosses state it. |
| Boards.BoardPairsToDraw | chess_book/generate_chess_book.py:666-739 | No analysis gives no boards. Otherwise all pairs, the pairs with a CPL, or only the sixth pair when annotated. |
| Boards.AnnotatedDrawsSixthPair | chess_book/generate_chess_book.py:738-739 | Annotated output draws exactly the pair of plies 10 and 11 when the game has more than 10 plies, and nothing otherwise. |
| Boards.SmartScopeDrawsLosses | chess_book/generate_chess_book.py:688-737 | With any scope but "all", a pair is drawn iff one of its analysed plies lost centipawns. |
| Boards.Words | chess_book/generate_chess_book.py:747 | `split()` gives non-empty parts without spaces. |
| Boards.NonEmpty | chess_book/generate_chess_book.py:747 | Every kept part is non-empty and one of the parts; Boards.NonEmptyIsKeep states that it is exactly the selection of the non-empty parts. |
| Boards.NonEmptyIsKeep | chess_book/generate_chess_book.py:747 | Dropping empty parts equals `Keep(parts, IsWord)`. So every non-empty part is kept, in its order and with its repeats, and only those (Sequences.KeepIsOrderedSelection). |
| Boards.EscapeAddsNoSpace | chess_book/generate_chess_book.py:692 | Escaping adds no space to a move and keeps it non-empty. |
| Boards.WordsOfPairText | chess_book/generate_chess_book.py:675-747 | A full pair's caption splits into the move number and the two escaped moves. |
| Boards.JoinThree | chess_book/generate_chess_book.py:753 | A worked instance used by Boards.CaptionOfThreeWords, not a general property: `" ".join` of exactly three words puts one space between them. |
| Boards.CaptionOfThreeWords | chess_book/generate_chess_book.py:747-753 | A three-word caption keeps the number and localises words 2 and 3. |
| Boards.CaptionLocalisesBothMoves | chess_book/generate_chess_book.py:747-753 | A full pair's caption is the number followed by both escaped moves, each localised. |
| Boards.Caption | chess_book/generate_chess_book.py:747-753 | No contract of its own: the caption's words with words 2 and 3 translated, joined by spaces, failing when a translation raises; CaptionOfThreeWords and CaptionLocalisesBothMoves state it. |
| Boards.EscapeEachNoSpace | chess_book/generate_chess_book.py:692-711 | Escaping character by character adds no space and keeps a non-empty move non-empty. |
| Boards.EscapedSans | generate_chess_book.py:185-197 | Every SAN is escaped, one for one. |
| Boards.CollectSmartPairs | generate_chess_book.py:177-208 | The legacy pair loop gives exactly the smart pairs. |
| Boards.LegacyPairAt | generate_chess_book.py:177-208 | No contract of its own: the legacy pair text and its two positions, a lone White move repeating its board; SmartPairsAreTheSmartMoves states which pairs are kept. |
| Boards.SelectSmartPairs | generate_chess_book.py:177-208 | The stepped loop keeps the pairs that contain a smart ply. |
| Boards.SmartPairsAreTheSmartMoves | generate_chess_book.py:188-208 | A pair is shown iff White's or Black's ply of that move is smart. At most one pair is shown per full move. |
| Boards.SmartPairsExtremes | generate_chess_book.py:206-208 | No smart ply gives no pairs. All plies smart gives every pair. |
| Boards.PairLines | generate_chess_book.py:214-220 | Each drawn pair takes six lines. Corrected: the caption is escaped once, by Boards.CaptionLine; the code as written escapes it twice (see Findings). |
| Boards.DrawSmartPairs | generate_chess_book.py:210-220 | The drawing loop emits each pair's lines, with a page break before every third pair. Corrected: the caption is escaped once, by Boards.CaptionLine; the code as written escapes it twice (see Findings). |
| Boards.BoardLinesLength | generate_chess_book.py:210-220 | Drawing d pairs emits 6d lines plus one page break per completed group of three. Corrected: the caption is escaped once, by Boards.CaptionLine; the code as written escapes it twice (see Findings). |
| Boards.PageOfPair | generate_chess_book.py:211-212 | A break comes before display index d iff d is a positive multiple of 3, so pair d lands on page d // 3. |
| Boards.CaptionEscapedTwice | generate_chess_book.py:214 | For a mate `#`, the caption as written prints `\textbackslash\{\}\#`. Corrected, it prints `\#`. |
| Boards.CaptionLineAsWritten | generate_chess_book.py:214-215 | No contract of its own: the bold caption line with the caption escaped once more; CaptionEscapedTwice and SecondEscapeChangesSpecialText state the consequence. |
| Boards.CaptionLine | generate_chess_book.py:214-215 | No contract of its own: the bold caption line with the already escaped caption as is. |
| Boards.SecondEscapeChangesSpecialText | generate_chess_book.py:214-215 | As written, any move text with a special character gets a different caption from the corrected one. |
| Boards.EscapeEachGrows | generate_chess_book.py:42-56 | Escaping never shortens a string, and lengthens any string that contains a special character. |

## Left out

- The engine (`popen_uci`, `analyse`) is an oracle supplied per ply.
- python-chess is replaced by inputs. Boards, legality, SAN and FEN generation, `move.promotion`, the moving piece, check and checkmate marks and castling squares are given per ply.
- Floating point is left out:
  - the z-scores, `exp`, `sqrt` and powers of the weighted geometric mean enter as a real parameter (`geo`), per row and group;
  - `statistics.pstdev` is a parameter of `SafeStats`;
  - the `cp / 100` evaluation strings are not modelled.
- SQLite, PGN and file I/O, `datetime` parsing, console output and the histogram are not modelled.
- The LaTeX document templates, front matter, footnotes and `MESSAGES` texts are not modelled, nor the analysis lines under each board (`format_analysis`, board size, `show_mover`) or pdflatex.
- `chesscom_fetch.py` is not part of this model; it only holds HTTP calls.
- Text is modelled as follows:
  - `int()` accepts ASCII whitespace, an optional sign and ASCII digits, but not Unicode digits or `_` separators;
  - `split()` without an argument is modelled as splitting on spaces and dropping empty parts;
  - lower-casing is ASCII only;
  - piece-letter keys are single characters.
- Openings carry only their ECO code; the other fields of the table are not modelled.
- Formatting happens before the loops. The notation cells and the legacy escaped SANs are computed as sequences that the loops then consume, so the interleaving of `push` with formatting is not modelled.
- The legacy main loop that reads games and skips those whose analysis raises is not modelled; `SelectTopGames` starts from the collected list.
- `is_tactical` is not modelled because nothing calls it.
- GameMetrics.ExtractRawMetrics: `cpl_std_dev` (a floating-point standard deviation) and `game_datetime` (parsed from the headers) are not among its outputs.
- Openings.Lookup: a JSON object with a repeated key keeps its last entry, while Lookup takes the first; the two agree on a table with unique keys (UniqueKeys, LookupUnique), which is what the model assumes of the opening file.
- Openings.KeepPart: the numbered-move test accepts ASCII digits only, while Python's `str.isdigit()` also accepts other Unicode digits (superscripts, Arabic-Indic digits), so a part starting with such a digit and holding a '.' is kept here and dropped by the source.
- Export.PromotionsColumn: a NULL or non-numeric `promotions` column reads as 0. In the source, `metrics.get("promotions", 0)` returns None for a stored NULL, and `promotions > 0` (select_top_games.py:306) then raises TypeError; the model does not fail there.
- GameMetrics.Mean: means (and so the side means, `avg_cpl` and the linear score in CalculateGameScore) are exact quotients of reals; the source divides floats, and the rounding is not modelled.
- StableSort.KeyLeq: a number and a string never compare. A sort over a mixed column is a TypeError failure, and the order given to mixed keys is never used.
- Export.RegroupAndRescore: the group score is a parameter `geo(row, group)` that stands for the z-score formula, so only its dependence on the group is kept.

## Findings

| source | as written | input that shows it | evidently intended | confidence | as-written member | corrected member |
|---|---|---|---|---|---|---|
| chess_book/select_top_games.py:285 | the rescoring path reads `metrics["headers"]`, but the rows built from the database at line 85 have no such key | any export with `--group_by_timecontrol` and at least one stored game | read termination, result and ratings from the row's own columns | not executed | Export.RegroupAndRescoreAsWritten | Export.RegroupAndRescore |
| chess_book/generate_chess_book.py:577-578 | a Black move in algebraic notation is translated at line 578, then again at line 592 | letters K→R, R→T (French); Black plays `Kf8`, which prints `Tf8` | translate once and print `Rf8` | not executed | Notation.BlackCellAsWritten | Notation.BlackCell |
| generate_chess_book.py:214 | the caption is escaped again although its SANs were escaped when the text was built | a pair whose move gives mate, `Qh7#`, prints `\textbackslash\{\}\#` | escape once and print `\#` | not executed | Boards.CaptionLineAsWritten | Boards.CaptionLine |
