/** `calculate_per_game_stats` (generate_report.py:118-160): one row per
    distinct player with the game count, the two metrics and the mean of
    every other numeric column. As written, the dict comprehension at :131
    (`{[]: col ...}`) raises TypeError and the `return` at :159-160 ends the
    loop after the first player; the model follows the evident intent: every
    kept column starts with an empty list and one row is produced per player,
    which the leaderboard loop at :302 and :308 relies on. */
module Aggregate {
  import opened Results
  import opened Rows
  import opened Text
  import opened Metrics

  /** Columns that are not averaged (generate_report.py:131-137). */
  predicate IsExcluded(c: string)
  {
    c == "date" || c == "partner" || c == "win_loss" || c == "match_id" || c == "tournament"
  }

  /** Columns reported as percentages: their mean is multiplied by 100 (:155-156). */
  predicate IsPercentColumn(c: string)
  {
    c == "hitting_efficiency" || c == "serving_percentage"
  }

  /** The computed columns appended after the spreadsheet's (:138-141). */
  const Computed: seq<string> := ["win_rate", "ace2error", "n"]

  /** The spreadsheet columns that are kept, in order. */
  function Kept(columns: seq<string>): (ks: seq<string>)
    ensures forall c {:trigger c in ks} :: c in ks <==> c in columns && !IsExcluded(c)
  {
    if columns == [] then []
    else (if IsExcluded(columns[0]) then [] else [columns[0]]) + Kept(columns[1..])
  }

  /** The keys of `per_game`, in order: kept columns, then computed ones. */
  function OutputColumns(columns: seq<string>): seq<string>
  {
    Kept(columns) + Computed
  }

  /** The keys that hold a number for each player: every output column but `name`. */
  function CellKeys(columns: seq<string>): set<string>
  {
    set k | k in OutputColumns(columns) && k != "name"
  }

  /** What the aggregation needs of a loaded table: a `name` column, the
      serve columns as soon as there is a player to look them up for,
      distinct column names (as pandas makes them) that do not clash with
      the computed ones, and a number in every averaged column of every
      row. */
  predicate WellFormed(t: Table)
  {
    && "name" in t.columns
    && (t.rows != [] ==> "aces" in t.columns && "missed_serves" in t.columns)
    && Distinct(t.columns)
    && (forall c :: c in Computed ==> c !in t.columns)
    && (forall c {:trigger HasColumn(t.rows, c)} :: c in t.columns && !IsExcluded(c) && c != "name" ==> HasColumn(t.rows, c))
  }

  lemma NamedHasColumn(rows: seq<GameRow>, p: string, c: string)
    requires HasColumn(rows, c)
    ensures HasColumn(Named(rows, p), c)
  {
  }

  /** The value of column `key` in the row of `player`. */
  function CellValue(t: Table, player: string, key: string): Option<real>
    requires WellFormed(t)
    requires key in CellKeys(t.columns)
  {
    assert HasColumn(t.rows, "aces") && HasColumn(t.rows, "missed_serves");
    if key == "win_rate" then Some(WinRate(t.rows, player).rate)
    else if key == "ace2error" then AceErrorRatio(t.rows, player)
    else if key == "n" then Some(|Named(t.rows, player)| as real)
    else
      NamedHasColumn(t.rows, player, key);
      var mean := Mean(Column(Named(t.rows, player), key));
      if IsPercentColumn(key) && mean.Some? then Some(mean.value * 100.0) else mean
  }

  /** One row of the result: a player and the values of their columns. */
  datatype StatRow = StatRow(name: string, cells: map<string, Option<real>>)

  /** The result frame: its column names, in order, and one row per player. */
  datatype StatTable = StatTable(columns: seq<string>, rows: seq<StatRow>)

  /** Every row has a value for every column but `name`. */
  predicate HasCells(t: StatTable)
  {
    forall c, r :: c in t.columns && c != "name" && r in t.rows ==> c in r.cells
  }

  function RowNames(rows: seq<StatRow>): (ns: seq<string>)
    ensures |ns| == |rows|
    ensures forall i :: 0 <= i < |rows| ==> ns[i] == rows[i].name
  {
    seq(|rows|, i requires 0 <= i < |rows| => rows[i].name)
  }

  /** The cells of `player`'s row: every output column but `name`. */
  function CellsOf(t: Table, player: string): (m: map<string, Option<real>>)
    requires WellFormed(t)
  {
    map k | k in CellKeys(t.columns) :: CellValue(t, player, k)
  }

  /** `row` is the aggregation of its player's rows in `t`. */
  predicate IsPlayerRow(t: Table, row: StatRow)
    requires WellFormed(t)
  {
    row.cells == CellsOf(t, row.name)
  }

  /** The cells of one player, filled key by key (generate_report.py:144-158). */
  method PlayerCells(t: Table, player: string) returns (cells: map<string, Option<real>>)
    requires WellFormed(t)
    ensures cells == CellsOf(t, player)
  {
    var keys := OutputColumns(t.columns);
    cells := map[];
    for j := 0 to |keys|
      invariant cells.Keys == set k | k in keys[..j] && k != "name"
      invariant forall k :: k in cells ==> cells[k] == CellValue(t, player, k)
    {
      assert keys[..j + 1] == keys[..j] + [keys[j]];
      if keys[j] != "name" {
        cells := cells[keys[j] := CellValue(t, player, keys[j])];
      }
    }
    assert keys[..|keys|] == keys;
  }

  /** One row per distinct player name, with every column computed from that
      player's rows (generate_report.py:131-160). */
  method PerGameStats(t: Table) returns (res: StatTable)
    requires WellFormed(t)
    ensures res.columns == OutputColumns(t.columns)
    ensures Distinct(RowNames(res.rows))
    ensures forall p :: p in RowNames(res.rows) <==> p in NameSet(t.rows)
    ensures forall row :: row in res.rows ==> IsPlayerRow(t, row)
  {
    var players := UniqueNames(t.rows);
    var rows: seq<StatRow> := [];
    for i := 0 to |players|
      invariant |rows| == i
      invariant forall j :: 0 <= j < i ==> rows[j].name == players[j] && IsPlayerRow(t, rows[j])
    {
      var cells := PlayerCells(t, players[i]);
      rows := rows + [StatRow(players[i], cells)];
    }
    res := StatTable(OutputColumns(t.columns), rows);
    assert RowNames(rows) == players;
  }

  /** A kept spreadsheet column is averaged over the player's rows. */
  lemma StatCell(t: Table, p: string, k: string)
    requires WellFormed(t) && k in t.columns && !IsExcluded(k) && k != "name"
    ensures k in CellKeys(t.columns) && HasColumn(Named(t.rows, p), k)
    ensures var mean := Mean(Column(Named(t.rows, p), k));
            CellValue(t, p, k) == if IsPercentColumn(k) && mean.Some? then Some(mean.value * 100.0) else mean
  {
    assert HasColumn(t.rows, k);
    assert k in Kept(t.columns);
    assert Computed[0] == "win_rate" && Computed[1] == "ace2error" && Computed[2] == "n";
  }

  /** The three computed cells, one key at a time. */
  lemma ComputedCells(t: Table, p: string)
    requires WellFormed(t)
    ensures "n" in CellKeys(t.columns) && "win_rate" in CellKeys(t.columns) && "ace2error" in CellKeys(t.columns)
    ensures CellValue(t, p, "n") == Some(|Named(t.rows, p)| as real)
    ensures CellValue(t, p, "win_rate") == Some(WinRate(t.rows, p).rate)
    ensures CellValue(t, p, "ace2error") == AceErrorRatio(t.rows, p)
  {
    assert Computed[0] == "win_rate" && Computed[1] == "ace2error" && Computed[2] == "n";
    assert forall c :: c in Computed ==> c in OutputColumns(t.columns);
  }

  lemma ComputedNotExcluded(c: string)
    requires c in Computed
    ensures !IsExcluded(c)
  {
    assert c == "win_rate" || c == "ace2error" || c == "n";
  }

  /** The cells of a player row are the output columns but `name`, so no
      excluded column appears. */
  lemma NoExcludedCells(t: Table, row: StatRow)
    requires WellFormed(t) && IsPlayerRow(t, row)
    ensures forall c :: IsExcluded(c) ==> c !in row.cells
  {
    forall c | c in row.cells ensures !IsExcluded(c) {
      assert c in CellKeys(t.columns);
      if c !in Kept(t.columns) {
        ComputedNotExcluded(c);
      }
    }
  }

  /** The facts the report relies on about one player's row: its `n` is the
      player's number of rows, the excluded columns are absent, the win rate
      lies in [0, 100] and the ace:error ratio is not negative when defined. */
  lemma PlayerRowFacts(t: Table, row: StatRow)
    requires WellFormed(t) && IsPlayerRow(t, row)
    requires row.name in NameSet(t.rows)
    ensures "n" in row.cells && row.cells["n"] == Some(|Named(t.rows, row.name)| as real)
    ensures |Named(t.rows, row.name)| >= 1
    ensures forall c :: IsExcluded(c) ==> c !in row.cells
    ensures "win_rate" in row.cells && row.cells["win_rate"].Some?
    ensures 0.0 <= row.cells["win_rate"].value <= 100.0
    ensures "ace2error" in row.cells
    ensures row.cells["ace2error"].Some? ==> row.cells["ace2error"].value >= 0.0
  {
    ComputedCells(t, row.name);
    NoExcludedCells(t, row);
    var r :| r in t.rows && r.name == row.name;
    assert r in Named(t.rows, row.name);
  }

  /** `hitting_efficiency` and `serving_percentage` are 100 times the
      player's mean; when the raw values are fractions in [0, 1] the
      reported value is a percentage in [0, 100]. */
  lemma PercentColumnScaled(t: Table, row: StatRow, c: string)
    requires WellFormed(t) && IsPlayerRow(t, row)
    requires row.name in NameSet(t.rows)
    requires c in t.columns && IsPercentColumn(c)
    requires forall r :: r in t.rows && r.name == row.name && c in r.stats ==> 0.0 <= r.stats[c] <= 1.0
    ensures HasColumn(Named(t.rows, row.name), c)
    ensures c in row.cells && row.cells[c].Some?
    ensures var xs := Column(Named(t.rows, row.name), c);
            xs != [] && row.cells[c].value == 100.0 * Mean(xs).value
    ensures 0.0 <= row.cells[c].value <= 100.0
  {
    var mine := Named(t.rows, row.name);
    StatCell(t, row.name, c);
    var r :| r in t.rows && r.name == row.name;
    assert r in mine;
    var xs := Column(mine, c);
    forall x | x in xs ensures 0.0 <= x <= 1.0 {
      var i :| 0 <= i < |xs| && xs[i] == x;
      assert mine[i] in mine;
    }
    MeanWithin(xs, 0.0, 1.0);
  }

  /** The win-rate column looks its player up by the title-cased name while
      `n` counts the raw name (generate_report.py:142, :148, :81). The two
      agree for a name already in title case; for a name such as "AJ" the
      win rate finds no game ("Aj") although `n` is 1. */
  lemma WinRateLooksUpTitleCase(rows: seq<GameRow>, p: string)
    ensures Title(p) == p ==> WinRate(rows, p).games == |Named(rows, p)|
    ensures var aj := [GameRow(20220601, "AJ", "Bo", Some(true), map[])];
            |Named(aj, "AJ")| == 1 && WinRate(aj, "AJ").games == 0
  {
    var aj := [GameRow(20220601, "AJ", "Bo", Some(true), map[])];
    TitleSpec("AJ");
    assert Title("AJ")[1] == 'j';
    assert Named(aj, "AJ") == [aj[0]];
    assert Named(aj, Title("AJ")) == [];
  }
}
