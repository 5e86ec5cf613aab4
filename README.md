# Fantasy football dashboard and column profiler, modelled in Dafny

This project models two parts of a fantasy football league dashboard. Both are written in Python with pandas.

- **The matchup rankings.** This is what the dashboard's rankings callback `update_table(num_weeks)` computes in `app.py`.
  - `agg_week` sums each team's weekly box scores over a trailing window of weeks and counts the games played as `gp`. It is modelled in `aggregation.dfy`.
  - Per-game and per-attempt rates are derived from those sums.
  - `get_values_list` looks the rates up for every team and opponent on this week's schedule. It is modelled in `projection.dfy`.
  - A projection per statistic multiplies the team's rate by the rate its opponent allows, in `projection.dfy`.
  - Each projected column gets `rank(method='average')` in the direction its list names, in `ranking.dfy`.
  - The home side is marked with `@`.
  - Five group scores are the row means of chosen rank columns, rounded to one decimal, in `rankings.dfy`.
  - The roster callback `update_table(week, team)` is modelled as `RosterTable`.
  - The module-level data frames that every rankings call updates in place are the fields of the class `Rankings.Dashboard`. Its methods replace them step by step, in the order the callback assigns them. The home-team labels are the exception: the method sets the intended labels rather than prefixing the frame's current ones (see Findings).
- **The column profiler** `explore_num_data` / `explore_cat_data` in `00-ingest_data/explore_util.py`.
  - It selects the numeric or text columns of a table (`table.dfy`).
  - It computes one profile row per column (`column_stats.dfy`): row count, distinct values, minimum, maximum, mean, sum and null/zero/positive/negative percentages; for text columns, the length range and the null/empty percentages.
  - For every column, three loops build three frequency tables (`frequency.dfy`, `explore.dfy`): the most frequent values, the first n values, and the last n values.

The model avoids IEEE floating point:
- Python floats are Dafny `real`s.
- A NaN or infinite cell is `None`.
- Arithmetic propagates `None` as pandas propagates NaN.
- String order is lexicographic order on code points (`Order.LexLess`).

Module layout:

| file | module | what |
|---|---|---|
| `wrappers.dfy` | `Wrappers` | `Option`, `Result`, the non-null cells `Present` |
| `order.dfy` | `Order` | code-point string order, grouping by value (`groupby`/`value_counts`), stable `sort_values`, `head(n)`, reversal |
| `box_score.dfy` | `BoxScore` | the box-score columns the rankings read |
| `aggregation.dfy` | `Aggregation` | `agg_week` |
| `projection.dfy` | `Projection` | rates, `get_values_list`, the 22 projections |
| `ranking.dfy` | `Ranking` | average rank, row mean of present cells, `round(1)` |
| `rankings.dfy` | `Rankings` | column lists, group positions, labels, the `Dashboard` class and both callbacks |
| `table.dfy` | `Table` | a table of typed columns, `select_dtypes` |
| `column_stats.dfy` | `ColumnStats` | the numeric and text profile of one column |
| `frequency.dfy` | `Frequency` | the three frequency tables of one column |
| `explore.dfy` | `Explore` | `explore_num_data` and `explore_cat_data` |

On three edge cases the profiler's behaviour is easy to misread; the model follows the code:
- **No numeric column.** `explore_num_data` on a table without numeric columns fails. `data.describe()` on an empty selection raises `ValueError`; it does not return an empty profile. Modelled as `Failure(NoNumericColumns)`.
- **Zero rows.** On a table with zero rows and at least one profiled column, both functions fail. `100.0 * k / total_count` is a Python float division by zero, so it raises `ZeroDivisionError`. Modelled as `Failure(ZeroDivision)`.
- **Text lengths.** The minimum and maximum string lengths of a text column include the null cells. `astype(str)` turns a null into the text `nan`, of length 3.

## Model

| member | source | states |
|---|---|---|
| Aggregation.MaxWeek | app.py:27 | the latest week is at least every row's week and is the week of some row |
| Aggregation.WindowKeeps | app.py:27-29 | the window keeps every row, with its multiplicity, whose week is within num_weeks of the latest week, and no other row |
| Aggregation.WindowSaturates | app.py:27-29 | a window at least as long as the latest week keeps every box score (weeks start at 1) |
| Aggregation.TeamGroups | app.py:30 | `value_counts().sort_index()`: team names strictly ascending, exactly the teams with a row in the window, each with its number of rows (at least 1) |
| Aggregation.AggWeekRows | app.py:26-33 | one aggregated row per team in the window, in strictly ascending team order; `gp` is the team's number of rows in the window; every counter is the sum over those rows |
| Aggregation.AggWeekSaturates | app.py:26-33 | any two windows covering the whole season give the same aggregate |
| Projection.Divide | app.py:225-273 | a column division is defined exactly when the divisor is non-zero, and then the quotient times the divisor is the dividend |
| Projection.PerGameRateIsWindowMean | app.py:225-273 | a per-game rate of an aggregated team is never NaN: it equals the summed counters of the team's games in the window divided by their number |
| Projection.FindTeam | app.py:37 | `.loc[team_abv == i].iloc[0]` finds the first row of the team, or none when the team has no row |
| Projection.Resolve | app.py:37 | the lookup succeeds exactly when every team has a row; the result then has one row per team, in order, each the team's first row; otherwise the error names a team that has no row |
| Projection.GetValuesList | app.py:36-38 | one value per team, in order, each read from the team's row; fails, naming the team, exactly when some team has no row (pandas' `IndexError`) |
| Projection.ProjectColumn | app.py:275-381 | a projected column succeeds exactly when every team and every opponent of the schedule has a row, and then has one cell per game; a failure names a missing team |
| Projection.ProjectedGame | app.py:275-381 | game i of a successful projection is its statistic's formula evaluated on the first row of the game's team and the first row of its opponent |
| Projection.SameOutcome | app.py:275-381 | all 22 projections succeed or fail together, with the same error |
| Projection.ProductProjection | app.py:277-278 | a product projection is the element-wise product of the team's rate column and the opponent's allowed-rate column; per game it is the team's rate times the opponent's allowed rate |
| Projection.SumProductProjection | app.py:347-361 | `def_st_td_alw` and `def_st_yrd_alw` per game: the sum of the team's three allowed rates times the sum of the opponent's three rates |
| Projection.SumProductsArePerGame | app.py:224-273 | the six rates in `def_st_td_alw` and `def_st_yrd_alw` are all per-game rates |
| Projection.RedZoneValue | app.py:369-373 | the red-zone differential is defined exactly when both attempt counts are non-zero, and is con/att minus (1 minus con_alw/att_alw) |
| Projection.RedZoneProjection | app.py:369-373 | per game, `rz_diff` is defined exactly when the team's attempts and the opponent's allowed attempts are non-zero, and is then the team's conversion rate minus one minus the opponent's allowed conversion rate |
| Projection.TurnoverValue | app.py:375-381 | the turnover differential is always defined: interceptions plus fumble recoveries minus the opponent's interceptions thrown plus fumbles lost |
| Projection.TurnoverProjection | app.py:375-381 | per game, `to_diff` is never NaN and equals the team's takeaways minus the opponent's giveaways |
| Projection.ReceivingMirrorsPassing | app.py:309-328 | `rec_td` and `rec_1st_down` equal `pass_td` and `pass_1st_dwn`, because they use the same rates |
| Projection.PerGameProjection | app.py:222-295 | a per-game projection is the team's per-game window mean times the opponent's per-game window mean of the allowed counter |
| Projection.LookedUpTotals | app.py:26-38 | the row `get_values_list` reads for a team in the window counts at least one game and holds, for every counter, the sum over the team's box scores in the window |
| Projection.TurnoverDifferentialOfWindow | app.py:375-381 | from the box scores: `to_diff` of game i is the team's window totals of interceptions and fumble recoveries minus the opponent's window totals of interceptions thrown and fumbles lost |
| Projection.RedZoneDifferentialOfWindow | app.py:369-373 | from the box scores: `rz_diff` of game i is defined exactly when the window totals of attempts are non-zero, and is then the team's window conversion ratio minus one minus the opponent's allowed window ratio |
| Projection.ThreeRatesOfWindow | app.py:347-361 | each sum of three per-game rates read for a team is defined and equals the sum of the three per-game window means of the team's box scores |
| Projection.TwoTeamExample | app.py:277-278 | a team with 5 passing touchdowns in 2 games against an opponent allowing 2 in 2 games is projected 2.5; an opponent without box scores fails the request |
| Ranking.AverageRank | app.py:384-389 | `rank(method='average')` keeps the length and leaves exactly the null cells null |
| Ranking.RankBounds | app.py:384-389 | every rank lies between 1 and the number of non-null cells |
| Ranking.RankOrder | app.py:384-389 | a value strictly first in the ranking direction gets a strictly smaller rank; equal values share their rank |
| Ranking.RankSum | app.py:384-389 | the k non-null ranks add up to k(k+1)/2, whatever the ties |
| Ranking.TiedExample | app.py:385 | descending ranks of [9, 4, NaN, 4, 1] are [1, 2.5, NaN, 2.5, 4] |
| Wrappers.MeanPresent | app.py:396-400 | `mean(axis=1)` of a row is null exactly when every cell of the row is null |
| Wrappers.MeanBounds | app.py:396-400 | the mean of cells within [lo, hi] lies within [lo, hi] |
| Ranking.RoundHalfEven | app.py:402 | the rounded integer is within one half of its argument, strictly when the argument is not halfway between two integers, and even when it is |
| Ranking.Round1 | app.py:402 | `round(1)` gives a whole number of tenths at most 0.05 from the value, strictly closer unless the value is halfway, and an even number of tenths on a tie |
| Ranking.RoundTiesExample | app.py:402 | 2.5 rounds to 2 and 3.5 to 4; 0.25 rounds to 0.2, 0.35 to 0.4 and 0.26 to 0.3 |
| Ranking.Round1Bounds | app.py:402 | rounding keeps a value that lies between two whole numbers between them |
| Ranking.Round1Idempotent | app.py:402 | rounding a rounded value changes nothing |
| Rankings.ColumnListsCover | app.py:41-46 | every projected statistic is assigned and appears in one of the two rank lists |
| Rankings.RankedDirectionsDisjoint | app.py:41-46 | no statistic of ascending_false is also in ascending_true, so each is ranked in one direction |
| Rankings.Positions | app.py:396-400 | every group position picks a ranked column of `this_week_rank` |
| Rankings.GroupMembers | app.py:396-400 | the positions average the statistics of their group, plus the red-zone and turnover differentials, which count toward every group |
| Rankings.RanksByDirection | app.py:383-389 | after the two rank loops, every statistic is ranked in the direction of its list |
| Rankings.GroupScoreBounds | app.py:396-402 | every non-null group score lies between 1 and the number of games, before and after rounding |
| Rankings.ReportBounds | app.py:396-404 | every score in a returned record lies between 1 and the number of games |
| Rankings.Relabel | app.py:392-393 | an away row's oppn and a home row's team_abv gain one leading '@'; nothing else changes |
| Rankings.RelabelAccumulates | app.py:392-393 | as written, a second refresh shows "@@" before the home team |
| Rankings.DisplayLabelsRoundTrip | app.py:391-393 | the intended labels mark the home side with exactly one '@', and removing it gives back the schedule |
| Rankings.RosterTable | app.py:212-214 | the roster table holds exactly that owner's entries for that week, each as often as in the rosters, ordered by slot |
| Rankings.OwnerWeek | app.py:213 | the filter keeps exactly the entries of that week and owner, with their multiplicity |
| Rankings.Dashboard.UpdateRoster | app.py:212-214 | returns the roster table of that week and owner |
| Rankings.Dashboard.UpdateRankings | app.py:221-404 | fails exactly when a scheduled team or opponent has no box score in the window, and then changes no frame; otherwise the frames are replaced by the projections, their ranks, the labels with the home side marked once, and the group scores, and the rounded records are returned |
| Rankings.Dashboard.AssignProjections | app.py:275-381 | the projection assignments fail together on a missing team, leaving the frame unchanged; otherwise the frame holds every projection |
| Rankings.Dashboard.AssignRanks | app.py:383-389 | the two rank loops leave every statistic ranked in its direction |
| Rankings.Dashboard.MarkHomeTeams | app.py:391-393 | sets the intended result of the two `.loc` assignments: the schedule's labels with the home side marked once (the as-written prefixing is `Rankings.Relabel`) |
| Rankings.Dashboard.AssignGroupScores | app.py:395-400 | the five group columns are the row means of their positions |
| Wrappers.Present | 00-ingest_data/explore_util.py:35 | `dropna()` keeps exactly the non-null values and is no longer than the column |
| Order.Groups | 00-ingest_data/explore_util.py:99 | `groupby(col)` groups are strictly ascending by value; every group occurs at least once; a value's count is its multiplicity; the keys are exactly the values; the counts add up to the number of values |
| Order.GroupsAreDistinctValues | 00-ingest_data/explore_util.py:35 | the number of groups is the number of distinct values |
| Order.SortBy | 00-ingest_data/explore_util.py:99 | `sort_values` returns a permutation ordered by the key |
| Order.LexLessIsStrictTotalOrder | 00-ingest_data/explore_util.py:106 | code-point string order is irreflexive, transitive and total |
| Table.Select | 00-ingest_data/explore_util.py:26-29 | every selected column satisfies the selection |
| Table.SelectCounts | 00-ingest_data/explore_util.py:26-29 | selection keeps every column satisfying it, as often as it occurs, and nothing else |
| Table.SelectConcat | 00-ingest_data/explore_util.py:26-29 | selection keeps the columns in their table order |
| Table.NumericColumnsOfFrame | 00-ingest_data/explore_util.py:26-29 | the numeric selection is exactly the table's float64/int64 columns, each with one cell per row |
| Table.CategoricalColumnsOfFrame | 00-ingest_data/explore_util.py:135-138 | the text selection is exactly the table's string/object/category columns, each with one cell per row |
| ColumnStats.PresentAndNulls | 00-ingest_data/explore_util.py:41-44 | the non-null cells and the null cells together are all the cells |
| ColumnStats.PresentCounts | 00-ingest_data/explore_util.py:35 | `dropna()` keeps every non-null value with its multiplicity |
| ColumnStats.SignsPartition | 00-ingest_data/explore_util.py:44-53 | every cell is null, zero, positive or negative, exactly one of them |
| ColumnStats.EmptiesCount | 00-ingest_data/explore_util.py:159 | the empty-string count is the multiplicity of the empty string and, together with the nulls, is at most the row count |
| ColumnStats.Percent | 00-ingest_data/explore_util.py:44-53 | a percentage of a count up to the total lies in [0, 100]; it is 0 for none and 100 for all |
| ColumnStats.PercentAdd | 00-ingest_data/explore_util.py:44-53 | percentages of disjoint counts add |
| ColumnStats.Least | 00-ingest_data/explore_util.py:32 | the minimum is an element and no element is smaller |
| ColumnStats.Greatest | 00-ingest_data/explore_util.py:32 | the maximum is an element and no element is larger |
| ColumnStats.Smallest | 00-ingest_data/explore_util.py:32 | `describe()` min is null exactly for an all-null column; otherwise it is a cell's value and at most every value |
| ColumnStats.Largest | 00-ingest_data/explore_util.py:32 | `describe()` max is null exactly for an all-null column; otherwise it is a cell's value and at least every value |
| ColumnStats.Distinct | 00-ingest_data/explore_util.py:35 | `len(dropna().unique())` is the size of the set of non-null values |
| ColumnStats.NumericProfileOf | 00-ingest_data/explore_util.py:32-53 | the numeric profile row: count is the number of non-null cells; dist_num the number of distinct values; min/max as above; the mean is present exactly when some cell is; each percentage is 100 times its count over the row count |
| ColumnStats.NoValues | 00-ingest_data/explore_util.py:32 | a column has no non-null value exactly when every cell is null |
| ColumnStats.NumericTotalSum | 00-ingest_data/explore_util.py:38 | `total_sum` is the sum of the column's non-null values, and 0.0 for a column whose every cell is null |
| ColumnStats.NumericMean | 00-ingest_data/explore_util.py:31-38 | the mean is total_sum divided by the non-null count |
| ColumnStats.NumericPercentages | 00-ingest_data/explore_util.py:44-53 | the four percentages each lie in [0, 100] and add up to 100 |
| ColumnStats.NumericMeanBetween | 00-ingest_data/explore_util.py:32 | the mean lies between min and max |
| ColumnStats.CategoricalProfileOf | 00-ingest_data/explore_util.py:141-159 | the text profile row: row_count is the non-null count; dist_num the number of distinct values; min_length and max_length bound the length of every cell's text and are both attained; null_perc and empty_perc are 100 times their counts over the row count |
| ColumnStats.CategoricalPercentages | 00-ingest_data/explore_util.py:156-159 | both percentages lie in [0, 100] and add up to at most 100 |
| Frequency.Tabulate | 00-ingest_data/explore_util.py:99-100 | each table row carries its group's value and count and `count / total_count` as freq |
| Frequency.MostFrequentTable | 00-ingest_data/explore_util.py:97-101 | the most-frequent table has `head(n)` rows of distinct non-null values; each row's count is the value's multiplicity and its freq is count over rows; counts are non-increasing; no value left out occurs more often than a value shown |
| Frequency.FirstValuesTable | 00-ingest_data/explore_util.py:104-108 | the first-values table has `head(n)` rows of counted values, strictly ascending, and every value left out is larger than every value shown |
| Frequency.LastValuesTable | 00-ingest_data/explore_util.py:111-115 | the last-values table has `head(n)` rows of counted values, strictly descending, and every value left out is smaller than every value shown |
| Frequency.AllValuesShown | 00-ingest_data/explore_util.py:104-115 | when n covers every distinct value, the last-values table is the first-values table reversed and their counts add up to the non-null count |
| Explore.Tables | 00-ingest_data/explore_util.py:97-115 | each of the three loops appends one table per column, in column order |
| Explore.NumericReportOf | 00-ingest_data/explore_util.py:10-117 | explore_num_data fails exactly on a table without numeric columns (`describe()`) or without rows (division by zero); otherwise one profile and three tables per numeric column, named in column order |
| Explore.ExploreNumData | 00-ingest_data/explore_util.py:10-117 | the loops compute the report `NumericReportOf` describes |
| Explore.NumberTables | 00-ingest_data/explore_util.py:97-115 | each of a numeric column's three tables has `head(n)` rows of counted values, by count, ascending and descending |
| Explore.NumericColumnReport | 00-ingest_data/explore_util.py:44-115 | in column k of the report, the percentages add up to 100 and the three tables are as `NumberTables` states |
| Explore.CategoricalReportOf | 00-ingest_data/explore_util.py:120-194 | explore_cat_data fails exactly on a table with text columns but no rows; without text columns, it gives the empty report; otherwise one profile and three tables per text column, named in column order |
| Explore.ExploreCatData | 00-ingest_data/explore_util.py:120-194 | the loops compute the report `CategoricalReportOf` describes |
| Explore.TextTables | 00-ingest_data/explore_util.py:174-192 | each of a text column's three tables has `head(n)` rows of counted values, by count, in string order and in reverse string order |
| Explore.CategoricalColumnReport | 00-ingest_data/explore_util.py:141-192 | in column k of the report, row_count is the non-null count, min_length is at most max_length, null and empty percentages add up to at most 100, and the three tables are as `TextTables` states |

## Left out

- The Dash layout, its graphs and the server (app.py:1-14, 47-205, 406-410) are presentation only.
- Reading the five CSV files at start-up (app.py:16-22) is not modelled. The box scores, the rosters and this week's schedule are the constructor's parameters.
  - The column layout of `this_week.csv` is assumed: week, team_abv, oppn and home, followed by the ranked columns in the order the two rank loops assign them. This fixes which statistic each `iloc` group position names. The model does not check that layout against a file.
  - `win_loss_df` and `matchups_df` feed only the graphs.
- IEEE floating point is not modelled:
  - Values are exact reals, so rounding errors in sums, quotients and the mean do not occur. `round(1)` rounds the exact value half to even.
  - NaN and ±inf are not told apart; both are `None`. A zero attempt count therefore makes a cell `None` where pandas may give inf.
- Projection.GetValuesList: a team missing from the aggregate raises `IndexError` from `.iloc[0]`. It is modelled as the error value `UnknownTeam(team)`, not an exception.
- Aggregation.TeamGroups: `gp_df['team_abv']` holds counts only under pandas before 2.0, which names the count column after the value column. Later pandas naming is not modelled.
- The numeric profile's `std`, 25%, 50% and 75% columns are not modelled. They need square roots and interpolated quantiles over floats.
- Frequency.MostFrequentTable: `sort_values('count')` is an unstable quicksort, so the order among equal counts is not determined. The model sorts stably, and its contract claims only the non-increasing counts and the permutation.
- Text columns:
  - A category column's unobserved categories are not modelled; they appear in `groupby` with count 0.
  - A category column is taken to have its categories in code-point order, the default of `astype('category')`. `groupby` and `sort_values` on a category column follow the declared category order, so a different declared order is not modelled; the first-values and last-values tables are in code-point order.
  - The text of a null cell is always `nan`. The `None` and `<NA>` renderings of object and StringDtype nulls (lengths 4) are not modelled.
- Only float64/int64 columns count as numeric, and only string/object/category columns as text. Other dtypes (bool, datetime, int32, ...) are only a length to the profiler.
- `df.index.set_names`, `rename`, the transposes and the `temp_df.columns` assignment (explore_util.py:56-94) only rename or reshape the profile table. The profile is a record per column.
- `plot_hist`, `corr_matrix` and `run_explore_func` (explore_util.py:196-271) only plot, print and write files.
- Rankings.Dashboard.UpdateRankings: marks the home teams as intended, once per refresh (`Rankings.DisplayLabels`). The as-written relabelling of the shared frame, which accumulates '@' over refreshes, is `Rankings.Relabel` (see Findings).
- Rankings.Dashboard.MarkHomeTeams: sets the intended labels (`Rankings.DisplayLabels`) rebuilt from the schedule, instead of prefixing the frame's current labels in place. The as-written behaviour is `Rankings.Relabel` and `Rankings.RelabelAccumulates` (see Findings).
- Rankings.RosterTable: `sort_values('slot_id')` is an unstable quicksort, and bench entries share a slot id, so the order among equal slots is not determined. The contract claims only the ordering by slot and the multiset of entries.
- Projection.SumProductProjection: `def_st_td_alw` and `def_st_yrd_alw` are stated from the box scores in two steps, not as one lemma. `SumProductProjection` gives the product of the two looked-up sums; `ThreeRatesOfWindow` gives each sum as window means. One end-to-end statement of the product is too costly for the solver.
- Concurrent callback invocations on the shared frames are not modelled. Calls are sequential.

## Findings

| source | as written | input that shows it | evidently intended | confidence | as-written member | corrected member |
|---|---|---|---|---|---|---|
| app.py:392-393 | the '@' prefix is added to the module-level frame `this_week_rank_avg`, which every call of the rankings callback updates in place, so each refresh adds another '@' | any schedule, with the rankings callback called twice: the second call shows "@@" before the home team | the home side of each game marked with exactly one '@' (comment at app.py:391) | not executed | Rankings.RelabelAccumulates | Rankings.DisplayLabelsRoundTrip |
