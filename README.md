# Pickup volleyball report: the stat engine

A model of the numbers behind the periodic report that `Report` in
`src/generate_report.py` builds from a spreadsheet of pickup volleyball
games. Each row of the spreadsheet records one player's line in one game:
the date, the player's name and partner, a win or a loss, and per-game
counts such as aces, kills, blocks, errors and missed serves. Once the rows
are in memory, the report does the following:

- picks the latest earlier snapshot of the spreadsheet;
- removes from both snapshots the players with only one game;
- averages every statistic per player, together with a win rate, an
  ace:error ratio and a game count;
- ranks the players per statistic into top-N leaderboards;
- ranks two-player teams by win percentage;
- relabels each player's numbers for display;
- computes each player's running averages over time.

Modules, one per concern of the program:

- `Results`: `Option` (a missing value, pandas' NaN) and `Result` (an
  operation that raises).
- `Text`: ASCII `str.title`, `str.replace` of one character, Python's
  string order, and the order-independent team key.
- `Rows`: the game row, filtering by name and date, win counts, columns,
  sums and means.
- `Snapshot`: choosing the previous snapshot and dropping single-game
  players (`Report.__init__`).
- `Metrics`: `calculate_win_rate` and `calculate_ace_error_ratio`.
- `Aggregate`: `calculate_per_game_stats`.
- `Ranking`: sorting with NaN last, top-N selection, the leaderboards of
  `run`, and `get_winningest_team`.
- `Labels`: `get_simplified_results_per_player`.
- `Series`: the running values behind `plot_stats_over_time`.
- `GenerateReport`: the `Report` class, with its fields `date`,
  `previousDate`, `data` and `previousData`, its constructor, and `run`.

Modelling conventions:

- Dates are integers ordered like calendar days (`yyyymmdd`). The
  "no earlier snapshot" sentinel 2000-01-01 is `20000101`.
- Averages are exact `real` numbers. A mean of nothing is `None`.
- The `win_loss` cell is an optional outcome: `None` when the cell is
  blank, `Some(true)` when it reads `'win'`, and `Some(false)` otherwise.
  The numeric columns are a map from column name to value.

The file reads like decompiled code, and several of its control-flow
artifacts contradict what the rest of the program relies on. The model
follows the evident intent in each case, and the module comments say so:

- generate_report.py:131 builds the per-game dictionary with `{[]:col ...}`,
  which raises `TypeError`. It is modelled as one empty column per kept
  column.
- generate_report.py:159-160 returns after the first player. It is
  modelled as returning one row per distinct player, which the leaderboards
  and the player blocks rely on.
- The `zip` loop at generate_report.py:251-252 only resets
  `variable_points`. It is modelled as one series per plotted variable.
- In `run`, the block at generate_report.py:308-334 is indented inside the
  per-column loop of :295-306. That block plots every player, renders the
  template and writes the files. As written it runs on the first column,
  while `top_results` is still incomplete, so the render raises `KeyError`
  at :319 and no report is written. It is modelled as running once, after
  every leaderboard is built, with each `for ... else` (:303-306 and
  :308-310) running its `else` once after its loop.

## Model

| member | source | states |
|---|---|---|
| Snapshot.PreviousSnapshotDate | src/generate_report.py:33-45 | the result is the greatest parsed file date strictly before the report date, or 2000-01-01 when there is none; tokens that do not parse (`None`) are skipped |
| Snapshot.SingleGamePlayers | src/generate_report.py:49-53 | the list is duplicate-free and holds exactly the names with one non-blank `win_loss` cell, the count `groupby('name').count()` gives |
| Snapshot.DropSingleGamePlayers | src/generate_report.py:49-59 | both tables keep their columns and lose exactly the rows of the current snapshot's single-game players, the same name set for both |
| Snapshot.WithoutKeepsOthers | src/generate_report.py:58-59 | the filter keeps every row of any other player, as often as before and in the original order |
| Snapshot.NamedWithout | src/generate_report.py:58-59 | a removed player has no rows left; any other player keeps exactly their own rows |
| Snapshot.FilterLeavesNoSingleGamePlayer | src/generate_report.py:49-59 | every player left after the filter keeps all of their rows and has a number of recorded results other than one, so at least two games when no cell is blank |
| Snapshot.BlankResultsAreNotCounted | src/generate_report.py:49-53 | a player with two rows, one with a blank `win_loss`, is dropped; a player whose single row is blank is kept |
| Text.TitleSpec | src/generate_report.py:81 | `title()` upper-cases a cased character after an uncased one, lower-cases one after a cased one, and keeps the length |
| Text.TitleIdempotent | src/generate_report.py:81 | title-casing twice equals title-casing once |
| Metrics.WinRate | src/generate_report.py:81-88 | `n` counts the rows named `player.title()`; the rate is 0 when `n` is 0, else 100·wins/n, within [0, 100] |
| Metrics.Percentage | src/generate_report.py:85 | 100·part/whole lies in [0, 100] and is 100 when every game is a win |
| Metrics.WinRateAllWins | src/generate_report.py:84-85 | a player who won every game of at least one has a rate of 100 |
| Metrics.AceErrorRatio | src/generate_report.py:108-116 | the ratio is never negative when defined |
| Metrics.AceErrorRatioCases | src/generate_report.py:110-116 | the ratio is 0 when no game has aces; it is NaN exactly when some game has aces and none of those also has missed serves; otherwise it is the mean of aces/missed_serves over the player's games with both counts positive |
| Metrics.Ratios | src/generate_report.py:113 | one ratio per game, each of which times the game's missed serves gives its aces |
| Metrics.WithPositive | src/generate_report.py:110-111 | keeps exactly the games with a positive count in the given column, and they still have the serve columns |
| Metrics.RatiosNonNegative | src/generate_report.py:111-113 | the aces/missed_serves ratios over games with both counts positive add up to a non-negative total, so their mean is never negative |
| Rows.Mean | src/generate_report.py:156-158 | the mean is missing exactly for no values, and times the number of values it gives their total |
| Rows.MeanWithin | src/generate_report.py:156-158 | a mean of values within bounds stays within those bounds |
| Rows.UniqueNames | src/generate_report.py:142 | `unique()` gives each name of the table once, in the order of its first row |
| Aggregate.PerGameStats | src/generate_report.py:131-160 | the result has the kept columns plus win_rate, ace2error and n, one row per distinct player and no other, each row computed from that player's rows |
| Aggregate.PlayerCells | src/generate_report.py:144-158 | the cells of one player, one per output column, equal `CellsOf`: n, win rate, ace:error ratio, or the mean of the column over the player's rows, times 100 for the two percentage columns |
| Aggregate.StatCell | src/generate_report.py:155-158 | the cell of an averaged column is the mean of that column over the player's rows, times 100 for hitting_efficiency and serving_percentage |
| Aggregate.ComputedCells | src/generate_report.py:147-154 | the computed cells: `n` is the player's row count, `win_rate` is the player's win rate, `ace2error` is the player's ace:error ratio |
| Aggregate.PlayerRowFacts | src/generate_report.py:131-154 | `n` is the player's row count and at least 1, the excluded columns are absent, the win rate lies in [0, 100], and the ace:error ratio is never negative |
| Aggregate.PercentColumnScaled | src/generate_report.py:155-156 | hitting_efficiency and serving_percentage are 100 × the player's mean, so within [0, 100] when the raw values are fractions |
| Aggregate.WinRateLooksUpTitleCase | src/generate_report.py:81-83 | the win rate counts the player's rows when the name is already title-case, and finds no games for a name like "AJ" that `title()` changes |
| Text.TeamKeySymmetric | src/generate_report.py:179-181 | the team key is the same for (a, b) and (b, a) and is the smaller name, "/", then the larger |
| Ranking.Sort | src/generate_report.py:189 | the result is a permutation of the input, sorted with NaN last and ties in the second key broken high-first; the leaderboards sort with it too (:302) |
| Ranking.TopN | src/generate_report.py:302 | the first min(N, count) of a sorted permutation; every selected entry precedes every left-out one |
| Ranking.Leaderboards | src/generate_report.py:296-306 | one board per column except `name`, holding the top N players, ascending for `errors` and descending otherwise |
| Ranking.RowTeams | src/generate_report.py:178-181 | one team per row, in row order, each the row's team key |
| Ranking.TeamEntry | src/generate_report.py:185-187 | a team's entry holds its win fraction within [0, 1], and twice its `n` is the team's number of rows |
| Ranking.TeamWinFraction | src/generate_report.py:185-186 | a team's win value is `Fraction(wins, rows)` over the team's rows, the number that times the rows gives the wins |
| Ranking.QualifyingTeams | src/generate_report.py:178-185 | one entry per team with at least `min_games` games, holding its win fraction and its game count / 2 |
| Ranking.WinningestTeams | src/generate_report.py:162-195 | an error exactly when fewer than `top_teams` teams qualify; otherwise `top_teams` distinct qualifying teams in (win, n) descending order, each preceding every team left out |
| Ranking.TeamResultBounds | src/generate_report.py:184-193 | each reported team has a win percentage within [0, 100] and `n` ≥ `min_games`, reported as an integer |
| Labels.LabelFacts | src/generate_report.py:221 | a label keeps its length, is title-cased, and holds no '_' and no '2' |
| Labels.ShownColumns | src/generate_report.py:210-214 | a column is shown exactly when it is a column of the table and not `name`, `points_for`, `points_against`, `positive` or `pass_rating` |
| Labels.PlayerBlock | src/generate_report.py:215-221 | the dictionary built one shown column at a time equals the block `BlockOf` of the row |
| Labels.BlockOfIsPlayerBlock | src/generate_report.py:215-221 | the block has one key per label of a shown column, holding the value of the last column with that label, with '%' only for the three percentage columns |
| Labels.SimplifiedResults | src/generate_report.py:206-226 | one block per player, built from that player's row |
| Series.Insert | src/generate_report.py:254 | inserting a date keeps the dates increasing and adds just that date |
| Series.SortedDates | src/generate_report.py:246-254 | the player's distinct dates, strictly increasing |
| Series.RunningWinRate | src/generate_report.py:256-259 | the running win rate lies in [0, 100], and times the number of games it is 100 times the wins |
| Series.RunningMean | src/generate_report.py:260-261 | any other running value, times the number of games, is the column's total |
| Series.RunningSeries | src/generate_report.py:254-261 | one point per distinct date, ascending, each computed from the rows on or before that date |
| Series.SeriesEndsAtWholeTable | src/generate_report.py:254-261 | the last point equals the value over all of the player's games |
| Series.SeriesAllWins | src/generate_report.py:256-258 | a player who won every game has a win rate of 100 at every point |
| Series.StatsOverTime | src/generate_report.py:249-261 | one running series per plotted variable |
| GenerateReport.WithoutRectangular | src/generate_report.py:58-59 | dropping players keeps a table rectangular: the same distinct columns, each averaged one in every row |
| GenerateReport.OverTime | src/generate_report.py:308-309 | for every player, one running series per plotted variable, each over that player's games |
| GenerateReport.Report.constructor | src/generate_report.py:30-59 | the report date, the previous snapshot date and both filtered tables, as above |
| GenerateReport.Report.CalculatePerGameStats | src/generate_report.py:127-130 | aggregates the current snapshot, or the previous one when `latest` is false |
| GenerateReport.Assemble | src/generate_report.py:293-330 | an error exactly when fewer teams qualify than the report lists (the IndexError of :329); otherwise the leaderboards, the `n` distinct winningest teams in ranking order, the player blocks, the series per player and the game count (rows / 4) given to the template |
| GenerateReport.ServeAndPartnerColumnsNeedARow | src/generate_report.py:111 | a table with no rows needs no `missed_serves` column (read per player, :111) or `partner` column (read per row, :180), while a single row without them is a KeyError |
| GenerateReport.Report.Run | src/generate_report.py:284-330 | a KeyError exactly when a column the report looks up is missing (the leaderboard columns, `name`, `date` and `win_loss` always; `missed_serves` and `partner` once the table has a row), an IndexError when fewer than `n` teams qualify, and otherwise the report of the current snapshot carrying both dates |

## Left out

- Reading the spreadsheets, listing the data directory and parsing file
  names with `strptime` (:30-31, :34-36, :47-48). A snapshot is a `Table`
  parameter, the previous one comes from a `load` function, and a file
  name is an optional date.
- `dropna(subset=['date'])` (:31, :48): every modelled row has a date.
- Rendering the Jinja2 template, writing the HTML and exporting the PDF
  (:311-334). Only the values handed to the template are modelled.
- Drawing with matplotlib (:245-276): only the numbers of each series.
- The console messages of the single-game filter (:54-56) and `plt.close()`.
- `get_arrow` (:228-233) and `get_player_figure` (:278-282), which only
  build path strings, and `compare_stat`, which is empty (:235-239).
- The command line, which passes `n_top_players` through as a string
  (:336-346).
- `round(x, 1)` on every reported value. Values are exact reals.
- The text the template receives: the f-strings `f"{value}{percent_annot}"`
  (:221) and `f"{round(...)}%"` (:193) are kept as the numbers they
  format, so the printed digits (and "nan" for a missing value) are not
  modelled.
- `np.nanmean` skipping NaN cells: every averaged cell holds a number.
- Non-numeric columns other than the excluded ones: the model assumes every
  averaged column is numeric.
- GenerateReport.Report.Run: assumes a rectangular table (`Rectangular`),
  with a value in every row for every averaged column; a missing column is
  modelled as the KeyError it raises, but not a spreadsheet whose columns
  repeat a name or collide with a computed one.
- Float arithmetic: exact rationals stand in for IEEE doubles.
- Metrics.AceErrorRatio: its own contract states only non-negativity; the
  value in each of its three cases is in Metrics.AceErrorRatioCases.
- GenerateReport.Report.constructor: does not model the KeyErrors of
  `__init__` for a spreadsheet without a `date` (:31, :48) or `win_loss`
  (:52) column; it takes the rows as already loaded. `Run` models the
  KeyError for those columns instead.
- Ranking.Sort: does not fix an order among equal entries, because pandas'
  default sort is not stable.
- Labels.SimplifiedResults: does not model the order of the dictionary,
  which follows the names sorted ascending (:208).
- GenerateReport.Report.Run: does not call `calculate_per_game_stats` a
  second time for the player blocks (`per_player=` at :330, which reaches
  :206); it reuses the same table, which the second call would rebuild
  unchanged.
- src/match_summary.py is not part of this model. It only prints the rows
  of one match.
- Two behaviours described for this program that this revision of the code
  does not have, so the model follows the code:
  - Players are dropped when they have exactly one recorded result, not
    when they fall below a share of all games.
  - `min_games` for teams defaults to 2 and is passed as 2, not 5.
- Comparison with the previous report, a most-improved list and bottom-N
  boards do not exist in this revision of the code.
