# Chess data analyzer: a Dafny model of the dashboard's data logic

This project models the computations behind a personal chess-performance
dashboard, written in Python with pandas and Streamlit. The dashboard reads a
game log: one row per game, with date, game number, ratings, side, result,
accuracy, average centipawn loss (ACL), opponent and an optional PGN text.
The model covers:

- **Opening tags.** The one search pattern `\[Opening\s+"([^"]+)"\]` (and its
  `Variation` twin) used in four places, each with its own sentinels.
  Module `Tags` holds a deterministic matcher. It is proved to return the
  capture of the leftmost match of the pattern, and `None` exactly when
  nothing matches.
- **Opening explorer** (`OpeningExplorer`). The per-game opening rows, the
  popularity counts, the performance bars (as written and as intended), the
  (opening, variation) treemap, and the opening statistics table.
- **Opening tree view** (`OpeningTree`). Its own extraction loop with the
  sentinel `"Unknown"`, the treemap, and the sorted per-opening counts.
- **PGN utilities** (`PgnAnalyzer`). `extract_opening_from_pgn` and the
  length classes of `analyze_game_quality`. The PGN parser is a parameter.
- **Data processing** (`DataProcessor`):
  - the record-level rules of `process_chess_data`: stripping, date drop,
    game number, `RESULT` copy, kept columns;
  - `calculate_statistics`;
  - `get_opening_stats`.
- **Filters** (`Filters`). `apply_filters`, proved to keep exactly the rows
  that pass every active mask, unchanged and in order.
- **Charts** (`Charts`):
  - the win/loss/draw pie tally and its percentages;
  - the points and trend switch of the line charts;
  - the title rules, each with a round trip that recovers the side filter;
  - the empty case of the opening bar chart.
- **Game analyzer** (`GameAnalyzer`). Result counts, the win rate per raw
  side value, and the recent-games columns and rows.
- **Insights** (`Insights`). The rule-based list of
  `generate_performance_insights`. Insights are tagged values that carry the
  numbers their messages print.

Shared pieces:

- `Base`: `Option`, `Outcome` and the exceptions that escape.
- `Games`: the typed game row and the table.
- `Text`: `\s`, `str.strip`, and case mapping.
- `Seqs`: boolean-mask selection `df[mask]`.
- `Grouping`: `groupby(...).size()`, `value_counts()` and
  `sort_values(ascending=False)`.

A missing column that makes the Python code raise is modelled as
`Outcome.Raised(KeyError(column))`, not as a precondition. `None` stands for
pandas' NaN/None in a cell. The one exception is the argument of
`extract_opening_from_pgn`, a plain function parameter: there `None` is
Python's `None`.

Some behaviour of the code is easy to expect otherwise; the model follows the
code:

- No opening is inferred from the moves. A PGN without an `Opening` tag gets
  the call site's sentinel.
- Rows with a missing or empty PGN are skipped by the explorer and the tree
  view. They are not labelled "Unknown Opening".
- The opening aggregation has no win/loss/draw breakdown per opening, no
  White/Black split, and no caller-supplied threshold. The performance chart
  has a fixed minimum of two games.
- Side and result values are not normalised to an enumeration. Each use site
  matches them case-insensitively (or, in the game analyzer, not at all).
- The performance chart's "Win_Rate" is not a win rate (see Findings). In the
  statistics table, "Total Games" is pandas' `'count'`, which counts non-null
  results rather than games.
- There is no CSV export of opening summaries in the modelled code.

## Model

| member | source | states |
|---|---|---|
| Tags.MatchAt | components/opening_explorer.py:23-24 | the pattern matches at a position in at most one way, and `MatchAt` returns that match's capture exactly when it matches there |
| Tags.SearchFrom | components/opening_explorer.py:32 | scanning from a position returns the capture of the first match at or after it, or nothing when no match lies at or after it |
| Tags.Search | components/opening_explorer.py:32-33 | `re.search` fails exactly when no position matches; otherwise it gives the leftmost match's capture, which is non-empty and free of `"` |
| Tags.SearchFromFinds | components/opening_explorer.py:32 | a scan that starts before the first match reaches that match and returns its capture |
| Tags.SearchExact | components/opening_explorer.py:32-33 | the capture of the leftmost match is what the search returns (the converse of `Search`'s contract) |
| Tags.TagDeterministic | components/opening_explorer.py:23 | at a given position the opening quote and the closing quote of a match are determined |
| Tags.CaptureOr | components/opening_explorer.py:33 | `m.group(1) if m else default`: the default when no tag exists, else the leftmost capture |
| Text.Strip | utils/data_processor.py:17 | `str.strip()` leaves a slice of the text with only whitespace outside it, and the slice neither starts nor ends with whitespace |
| Text.StripIdempotent | utils/data_processor.py:17 | stripping a stripped cell changes nothing |
| Text.Lower | components/charts.py:70 | lower-casing keeps the length and maps each character |
| Text.Upper | components/filters.py:81 | upper-casing keeps the length and maps each character |
| Games.Percent | components/game_analyzer.py:33 | a win rate is `wins / games * 100`: times the number of games it gives 100 times the wins; it lies in [0, 100], is 0 exactly when nothing was won, and is 100 exactly when every game was won |
| Games.ResultKindsExclusive | components/charts.py:70-73 | no result reads as two of win, loss and draw |
| Games.SidesExclusive | components/filters.py:80-83 | no side value reads as both White and Black |
| Seqs.Indices | components/filters.py:68 | the positions passing a mask, increasing, and every passing position is listed |
| Seqs.Filter | components/filters.py:68 | `df[mask]` keeps the passing rows unchanged, in their original order |
| Seqs.Collect | components/opening_explorer.py:26-46 | a loop that skips rows and appends one value per kept row yields, in order, the value of each row the mask keeps |
| Seqs.FilterMembers | components/filters.py:58-86 | a filtered row comes from the input and passes the mask, and every passing row is kept |
| Seqs.FilterFilter | components/filters.py:68-84 | filtering twice is filtering once with the conjunction of the two masks |
| Seqs.FilterAll | components/filters.py:63 | a mask every row passes keeps the whole table |
| Seqs.FilterKeeps | components/opening_explorer.py:105 | a group passing the mask survives the selection |
| Grouping.CountKeyPositive | components/opening_explorer.py:137 | a key has a positive count exactly when some row carries it |
| Grouping.IndicesCount | components/opening_explorer.py:26-29 | the number of kept rows is the number of rows passing the mask |
| Grouping.KeySetIndex | components/opening_explorer.py:137 | a key is listed in a grouping exactly when some group carries it |
| Grouping.DistinctKeysIndex | components/opening_explorer.py:137 | a grouping with distinct keys has no two groups with the same key |
| Grouping.KeyTotalAt | components/opening_explorer.py:137 | with distinct keys, a group's key total is that group's count |
| Grouping.KeyTotalAbsent | components/opening_explorer.py:137 | a key absent from a grouping totals zero |
| Grouping.Bump | components/opening_explorer.py:137 | adding one row to a grouping adds one to its key's group (or a new group of 1) and keeps keys distinct |
| Grouping.Tally | components/opening_explorer.py:137 | `groupby(key).size()`: distinct keys, positive counts, each key's count equal to its number of rows, counts adding up to the number of rows |
| Grouping.TallyCounts | components/opening_explorer.py:137 | each group's count is the number of rows with its key |
| Grouping.TallyHas | components/opening_explorer.py:137 | every key that occurs has a group |
| Grouping.FilterTallyComplete | components/opening_explorer.py:102-105 | a key that occurs and whose group passes the selection keeps its group |
| Grouping.TotalAppend | components/opening_tree.py:73 | the total of two groupings laid end to end is the sum of their totals |
| Grouping.KeyTotalAppend | components/opening_tree.py:73 | the same holds for the total of each key |
| Grouping.DropKeyTotals | utils/data_processor.py:140 | dropping one key's groups removes exactly that key's count from the totals |
| Grouping.CountKeySplit | utils/data_processor.py:140 | the rows are those with the dropped key plus those without it |
| Grouping.Insert | components/opening_tree.py:73 | inserting into a count-sorted grouping keeps it sorted and adds exactly that group |
| Grouping.ConsSorted | components/opening_tree.py:73 | a group no smaller than the head of a sorted grouping may go in front |
| Grouping.InsertTotals | components/opening_tree.py:73 | insertion adds the group's key and count to the keys and totals, and keeps keys distinct |
| Grouping.SortDesc | components/opening_tree.py:73 | `sort_values(ascending=False)` yields a non-increasing permutation of the groups, with the same keys and totals |
| Grouping.SortPositive | components/opening_tree.py:73 | sorting keeps counts positive |
| Grouping.FilterSorted | utils/data_processor.py:137-140 | selecting groups from a sorted grouping keeps it sorted and its keys distinct |
| OpeningExplorer.LabelRow | components/opening_explorer.py:31-41 | the opening is the leftmost `Opening` capture or "Unknown Opening"; the variation is found independently, else "Main Line"; Result and Side are copied verbatim, or "Unknown" without their column |
| OpeningExplorer.ExtractRows | components/opening_explorer.py:26-46 | one row per game whose PGN is present, in table order, labelled from that game |
| OpeningExplorer.ExtractOpeningData | components/opening_explorer.py:12-56 | empty without a table or PGN column; otherwise rows in one-to-one, in-order correspondence with the games whose PGN is present and non-empty |
| OpeningExplorer.ExtractKeepsPresentRows | components/opening_explorer.py:26-29 | the number of extracted rows is the number of games with PGN text |
| OpeningExplorer.OpeningCounts | components/opening_explorer.py:63-64 | the popularity counts are sorted non-increasing, once per opening, equal to each opening's number of rows, and add up to all rows |
| OpeningExplorer.FrequentCounts | components/opening_explorer.py:102-105 | every opening kept by the minimum has two or more games, and its count is its number of games |
| OpeningExplorer.FrequentDistinct | components/opening_explorer.py:102-105 | no opening is kept twice |
| OpeningExplorer.FrequentComplete | components/opening_explorer.py:102-105 | every opening with two or more games is kept |
| OpeningExplorer.CountBars | components/opening_explorer.py:98-102 | one bar per kept group, in order, whose "Win_Rate" is the opening's number of non-null results and never exceeds its game count |
| OpeningExplorer.PerformanceBars | components/opening_explorer.py:97-105 | as written: exactly the openings with at least two games, once each, with their game count and a "Win_Rate" equal to their number of recorded results |
| OpeningExplorer.PerformanceWinRateIsCount | components/opening_explorer.py:98-101 | when every result is recorded, each bar's "Win_Rate" equals its game count, whatever the results |
| OpeningExplorer.AllWhere | components/opening_explorer.py:100 | counting only rows with a recorded result counts all rows when every result is recorded |
| OpeningExplorer.PerformanceBarCounterexample | components/opening_explorer.py:98-101 | two lost games of one opening yield a bar of height 2 |
| OpeningExplorer.RateBars | components/opening_explorer.py:99 | one bar per kept group, in order, whose height is `Percent` of its wins over its games |
| OpeningExplorer.IntendedPerformanceBars | components/opening_explorer.py:97-105 | as intended: exactly the openings with at least two games, once each, each with its game count and a win rate equal to `Percent` of its wins over that count |
| OpeningExplorer.NodesFrom | components/opening_explorer.py:140-144 | one treemap node per group, with id `opening + " - " + variation`, parent the opening, value the count, values adding up to the groups' total |
| OpeningExplorer.TreeNodes | components/opening_explorer.py:136-144 | one node per (opening, variation) pair that occurs, none twice, each valued at its positive count, values adding up to the number of rows |
| OpeningExplorer.OpeningTreeDiagram | components/opening_explorer.py:131-144 | the explorer's treemap has well-formed ids, distinct pairs and positive counts that add up to the extracted rows |
| OpeningExplorer.TreeIdsCollide | components/opening_explorer.py:136-141 | when two games' different (opening, variation) pairs join to the same "opening - variation" text, the treemap has two rectangles with one id |
| OpeningExplorer.TreeIdsCanCollide | components/opening_explorer.py:136-141 | such games exist: the treemap of `A - B`/`C` and `A`/`B - C` repeats an id |
| OpeningExplorer.VariationSet | components/opening_explorer.py:192 | `nunique`: a variation is in the set exactly when some game of the opening has it; at least 1 for an opening that occurs, and at most its number of games |
| OpeningExplorer.StatsRow | components/opening_explorer.py:190-199 | an opening's table row: win rate equal to `Percent` of its wins over its games; "Variations" the size of its variation set; "Total Games" the number of its games with a result, at most the group size |
| OpeningExplorer.StatsTotalGamesIsSize | components/opening_explorer.py:190-193 | "Total Games" is the group size when no result is missing |
| OpeningExplorer.StatsRows | components/opening_explorer.py:190-199 | one table row per group, in order |
| OpeningExplorer.StatsTable | components/opening_explorer.py:189-199 | one row for every opening that occurs, and none twice |
| OpeningExplorer.StatsTableCovers | components/opening_explorer.py:190 | the groups of `groupby('Opening')` list every opening that occurs, once each |
| OpeningTree.TreeLabels | components/opening_tree.py:35-39 | the opening is the leftmost capture or "Unknown"; the variation is the leftmost capture or "Main Line" |
| OpeningTree.ExtractPairs | components/opening_tree.py:31-45 | one label pair per game whose PGN is present, in table order; other games are skipped |
| OpeningTree.OpeningTreeVisualization | components/opening_tree.py:11-74 | nothing for a missing or empty table, no PGN column, or no PGN text at all; otherwise pair counts that are positive, distinct and add up to the extracted PGNs, node ids `opening - variation`, and per-opening counts sorted non-increasing |
| OpeningTree.BuildViewFacts | components/opening_tree.py:52-73 | the treemap and sorted counts built from the label pairs show those pairs |
| OpeningTree.UntaggedIsUnknown | components/opening_tree.py:35-36 | a game falls under "Unknown" exactly when its PGN has no `Opening` tag or the tag itself reads "Unknown" |
| PgnAnalyzer.ExtractOpeningFromPgn | utils/pgn_analyzer.py:43-55 | `(None, None)` for a missing or empty text; otherwise each tag, independently, is the leftmost capture or `None`; a capture is non-empty and has no `"` |
| PgnAnalyzer.ExtractorsAgree | utils/pgn_analyzer.py:49-53 | the explorer, the tree view and this extractor agree on every present tag and differ only in their sentinels |
| PgnAnalyzer.LengthOf | utils/pgn_analyzer.py:67-72 | Short iff fewer than 20 moves, Medium iff 20 to 39, Long iff 40 or more |
| PgnAnalyzer.LengthMonotone | utils/pgn_analyzer.py:67-72 | a longer game never falls into a shorter class |
| PgnAnalyzer.AnalyzeGameQuality | utils/pgn_analyzer.py:57-79 | `None` exactly when the parser fails; otherwise the move count, its length class, and the opening and variation passed through unchanged |
| DataProcessor.TextCell | utils/data_processor.py:15-17 | a present cell is stripped: a slice with only whitespace cut off, neither starting nor ending with whitespace; a missing one stays missing |
| DataProcessor.NumberCell | utils/data_processor.py:34-39 | an empty cell gives no number |
| DataProcessor.Trunc | utils/data_processor.py:31 | `astype(int)` truncates toward zero |
| DataProcessor.GameNumber | utils/data_processor.py:30-31 | an unparsable number becomes game 1; otherwise the number truncated toward zero, plus one |
| DataProcessor.GameNumberOfInteger | utils/data_processor.py:31 | a whole number `k` becomes `k + 1` |
| DataProcessor.CleanRows | utils/data_processor.py:26-27 | the dated rows, cleaned, in order; undated rows are dropped |
| DataProcessor.ProcessChessData | utils/data_processor.py:8-66 | `None` for no table, a missing column or an unparsable date; otherwise the kept columns (with PGN iff present), dated rows only, `RESULT` equal to `Result`, and the game-number rule |
| DataProcessor.ProcessedRowsAreDated | utils/data_processor.py:27 | every surviving row has a date, and the survivors are exactly the rows with one |
| DataProcessor.LastRating | utils/data_processor.py:80 | the last non-null `New Rating`, or 0 when there is none |
| DataProcessor.LastRatingAppend | utils/data_processor.py:80 | a new game with a rating becomes the current rating; one without leaves it unchanged |
| DataProcessor.CalculateStatistics | utils/data_processor.py:68-95 | all zeros without a table; `KeyError` for a missing `New Rating`, or `RESULT` in a non-empty table; success exactly in the other cases, with the row count, the last rating, and the win percentage `Percent` of the `RESULT` wins over the rows |
| DataProcessor.ExtractOpenings | utils/data_processor.py:110-119 | one label per game with PGN text, in order; the other rows contribute no label |
| DataProcessor.NamedOpeningCount | utils/data_processor.py:110-140 | the labels other than "Unknown Opening" are exactly the games whose PGN names an opening other than it |
| DataProcessor.LabelNamed | utils/data_processor.py:117-118 | a label other than "Unknown Opening" comes from an `Opening` tag with another value |
| DataProcessor.KnownGroupsShape | utils/data_processor.py:136-140 | the opening counts are sorted non-increasing, positive, once each, and never list "Unknown Opening" |
| DataProcessor.KnownGroupsTotals | utils/data_processor.py:136-140 | each named opening keeps its full count, and the counts add up to the labels other than "Unknown Opening" |
| DataProcessor.GetOpeningStats | utils/data_processor.py:97-142 | empty without a table or PGN column; sorted non-increasing, without "Unknown Opening", once per opening; counts adding up to the games whose PGN names another opening |
| Filters.ApplyFilters | components/filters.py:58-86 | raises exactly when an active mask's column is missing or a range has one bound; otherwise keeps the columns, and keeps exactly the rows passing every active mask, unchanged and in order |
| Filters.SequentialIsConjunction | components/filters.py:62-84 | applying the active masks one after another equals one selection with their conjunction; an inactive mask keeps everything |
| Filters.FilteredRows | components/filters.py:58-86 | a row is in the result exactly when it is in the input and passes the date, rating and side masks |
| Filters.NoFilterKeepsAll | components/filters.py:62-78 | no ranges and side "Both" return the table unchanged |
| Filters.MissingValuesPass | components/filters.py:64-74 | a row without date and rating passes both range masks |
| Charts.WinLossPie | components/charts.py:66-116 | `KeyError` without `RESULT`; otherwise slices [wins, losses, draws] counted case-insensitively, a total at most the number of games, each slice's percentage `Percent` of its count over the total, and the side-aware title |
| Charts.ResultTallyBound | components/charts.py:70-75 | wins, losses and draws together never exceed the number of games |
| Charts.PieSharesSum | components/charts.py:78-80 | the three shares of a non-empty tally add up to 100 |
| Charts.SharesSum | components/charts.py:78-80 | three counts' percentages of their sum add up to 100 |
| Charts.Points | components/charts.py:141-149 | the plotted points are the (date, value) pairs of the rows with a value, in order |
| Charts.MetricChart | components/charts.py:138-169 | `KeyError` for a missing metric or date column; otherwise one point per row with a value, and a trend line exactly when there is more than one |
| Charts.TrendMonotone | components/charts.py:157 | adding games never removes the trend line |
| Charts.CountWhereAppend | components/charts.py:157 | counting over two row sequences laid end to end adds the counts |
| Charts.RatingProgression | components/charts.py:10-46 | a chart exactly when `New Rating` and `Date` exist, with the side-aware title and a trend exactly with two or more ratings |
| Charts.MetricOverTime | components/charts.py:138-174 | a chart exactly when the metric and `Date` exist, with the side-aware title and a trend exactly with two or more values |
| Charts.RatingTitleRoundTrip | components/charts.py:44-46 | the rating title gives back the side filter it was made for |
| Charts.PieTitleRoundTrip | components/charts.py:114-116 | the pie title gives back the side filter it was made for |
| Charts.MetricTitleRoundTrip | components/charts.py:172-174 | a metric title starts with the base title and gives back the side filter |
| Charts.OpeningBar | components/charts.py:225-246 | an empty figure exactly for empty statistics; otherwise bars in the statistics' order with their counts |
| Charts.OpeningBarEmpty | components/charts.py:227 | the opening bar chart is empty exactly when no game names an opening other than "Unknown Opening" |
| GameAnalyzer.ResultCounts | components/game_analyzer.py:24 | raw result values counted case-sensitively, most frequent first, once each, without missing results, adding up to the games with a result |
| GameAnalyzer.CountsSorted | components/game_analyzer.py:24 | the non-null result counts are sorted, positive and once each |
| GameAnalyzer.CountsTotals | components/game_analyzer.py:24 | each non-null value keeps its count, and the counts add up to the non-null rows |
| GameAnalyzer.SideRates | components/game_analyzer.py:31-33 | each side's rate is `Percent` of its wins over all its games |
| GameAnalyzer.SideGroupsCounts | components/game_analyzer.py:31 | each side group is a non-null side with its number of games |
| GameAnalyzer.SideGroupsDistinct | components/game_analyzer.py:31 | no side has two groups |
| GameAnalyzer.SideGroupsComplete | components/game_analyzer.py:31 | every side that occurs has a group |
| GameAnalyzer.WinRateBySide | components/game_analyzer.py:30-33 | one rate per raw side value that occurs (no merging of `W` and `White`), none twice, each `Percent` of its wins over its games |
| GameAnalyzer.AvailableColumns | components/game_analyzer.py:40-41 | a column is shown exactly when it is in the display list and in the table |
| GameAnalyzer.AvailableColumnsOrdered | components/game_analyzer.py:41 | the shown columns keep the display list's order |
| GameAnalyzer.CreateGameAnalyzer | components/game_analyzer.py:10-42 | nothing for a missing or empty table; the value counts of `Result` iff that column exists; the win rates by side iff `Side` and `Result` exist; the available display columns; the first ten rows at most |
| Insights.ScaledIsProduct | utils/ml_analysis.py:45 | adding a value `n` times is multiplying it by `n` |
| Insights.SumAbove | utils/ml_analysis.py:45 | values all above a bound sum to more than the bound times their count |
| Insights.SumBelow | utils/ml_analysis.py:55 | values all below a bound sum to less than the bound times their count |
| Insights.DivideByCount | utils/ml_analysis.py:45 | dividing by a positive count keeps a sum's side of the bound |
| Insights.MeanAbove | utils/ml_analysis.py:45 | the mean of values all above a bound is above it |
| Insights.MeanBelow | utils/ml_analysis.py:55 | the mean of values all below a bound is below it |
| Insights.RatingInsight | utils/ml_analysis.py:29-41 | present iff `New Rating` exists with some value and there are at least 10 games; improved, decreased or stable by the sign of last minus first, with the points; a missing end reads as stable |
| Insights.AccuracyInsight | utils/ml_analysis.py:44-51 | present iff `Accuracy %` has some value; excellent above 85, good above 75, training otherwise, carrying the mean |
| Insights.AclInsight | utils/ml_analysis.py:54-61 | present iff `ACL` has some value; strong below 50, decent below 75, training otherwise, carrying the mean |
| Insights.HighAccuracyIsExcellent | utils/ml_analysis.py:44-47 | accuracies all above 85 give the excellent insight |
| Insights.LowAclIsStrong | utils/ml_analysis.py:54-57 | ACL values all below 50 give the strong-positional insight |
| Insights.WinsWithin | utils/ml_analysis.py:69-70 | wins with a colour never exceed the games with it |
| Insights.SideInsight | utils/ml_analysis.py:64-81 | present iff `Side` exists, both colours were played and the rates differ by more than 10; it names the higher side with both rates |
| Insights.SideInsightRates | utils/ml_analysis.py:72-81 | the reported rates lie in [0, 100], are 0 exactly without wins, and the better side won a game |
| Insights.Somes | utils/ml_analysis.py:28-81 | the insights found are the filled slots' values, one per filled slot, in slot order |
| Insights.SlotsSpecific | utils/ml_analysis.py:28-81 | a filled slot holds neither the overall rate nor the small-sample notice |
| Insights.ConditionalKinds | utils/ml_analysis.py:28-81 | no conditional insight is the overall rate or the small-sample notice |
| Insights.AssembleShape | utils/ml_analysis.py:105-114 | the list is the found insights, then the overall rate, then exactly the five tips when it was shorter than three; never fewer than three entries |
| Insights.GenerateInsights | utils/ml_analysis.py:10-114 | only the "need 5 games" notice without a table or with fewer than 5 rows; `KeyError` without `RESULT`; otherwise one insight per rule that fired, in rule order, then the overall rate, then the tips when fewer than three |
| Insights.OverallBounds | utils/ml_analysis.py:21-26 | the overall insight carries the `RESULT` win count, all games, and `Percent` of the one over the other |

## Left out

- Plotly figure construction, colours, layout, sizes and hover text, and the Streamlit
  widgets and messages (`st.info`, tabs, expanders). `create_filters` is not
  modelled: the choices it returns are the input `FilterSpec`.
- `create_performance_charts` (components/charts.py:195-223) is four calls of
  `create_metric_over_time`, which is modelled, and has no logic of its own.
- `np.polyfit` trend values (components/charts.py:30-32, 158-160): only whether a trend
  line is added is modelled.
- KMeans/StandardScaler clustering (utils/ml_analysis.py:84-102): library
  numerics. `generate_performance_insights` is modelled for its text insights only.
- Floating point and rounding: percentages and means are exact reals, and
  `round(..., 1)` and string formatting are not modelled. Insights are tagged
  values, not text.
- Insights.RatingInsight: the number of games its message prints,
  `min(10, len(df))`, is not carried, because the insight exists only with ten
  or more games, so the number is always 10.
- `parse_pgn_game` (utils/pgn_analyzer.py:10-41) calls python-chess. It is
  the parameter `parse` of `PgnAnalyzer.AnalyzeGameQuality`.
- `pd.to_datetime` and `pd.to_numeric(errors='coerce')` are the parameters
  `parseDate` and `toNumber`. Dates are day numbers.
- DataProcessor.NumberCell: the only promise about numeric coercion is that an
  empty cell yields no number, because the conversion itself is the parameter
  `toNumber`.
- The key order of `groupby` (pandas sorts the keys) is not modelled. Groups
  come in first-occurrence order, and contracts say nothing about the order of
  `groupby` results.
- `sort_values(ascending=False)` uses an unstable sort. The model promises a
  non-increasing permutation and does not fix the order of ties.
- Text.Lower and Text.Upper map only the characters whose case mapping yields
  a single ASCII letter. This is exact for the comparisons the code makes
  against `win`, `loss`, `draw`, `W`, `WHITE`, `B` and `BLACK`. No other
  output of a case mapping is used.
- Cells of the wrong type are not modelled: a non-string value under a text
  column, and the `AttributeError` that `.str` raises on a column without
  strings. The `inf` values `pd.to_numeric` can produce are not modelled either.
- Renaming `Average Centipawn Loss (ACL)` onto an existing `ACL` column (which
  would duplicate it) is not modelled. The raw columns are read by name.
- DataProcessor.GameNumber: `astype(int)` yields a 64-bit integer, and a `#`
  value outside that range does not convert faithfully; the model keeps the
  unbounded truncation.
- PgnAnalyzer.ExtractOpeningFromPgn: a NaN argument (truthy, not a string)
  makes `re.search` raise `TypeError`; the parameter models Python `None` and
  text only.
- utils/google_sheets.py (HTTP fetch and CSV parsing), utils/debug.py and app.py
  are I/O and UI plumbing.

## Findings

| source | as written | input that shows it | evidently intended | confidence | as-written member | corrected member |
|---|---|---|---|---|---|---|
| components/opening_explorer.py:98-101 | the aggregation dict repeats the key `'Result'`, so `'count'` replaces the win-rate lambda and the "Win_Rate" bar is the number of recorded results | two games of "Sicilian Defense", both lost: the bar reads 2 ("2.0%") | the share of won games in percent, 0.0 here | not executed | OpeningExplorer.PerformanceBarCounterexample | OpeningExplorer.IntendedPerformanceBars |
