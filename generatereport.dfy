/** The `Report` object of generate_report.py: the two snapshots it loads
    and the report that `run` assembles from them. Reading the spreadsheets
    and listing the data directory are parameters here; rendering the HTML
    and PDF and drawing the figures are not modelled, only the values handed
    to them. */
module GenerateReport {
  import opened Results
  import opened Rows
  import opened Snapshot
  import opened Aggregate
  import opened Ranking
  import opened Labels
  import opened Series

  /** The raw columns whose leaderboards the template shows
      (generate_report.py:319-328); the computed `win_rate` and `ace2error`
      are always present. */
  const BoardColumns: seq<string> :=
    ["effectiveness", "kills", "hitting_efficiency", "aces", "serving_percentage", "blocks", "errors", "serve_receive_rating"]

  /** The values the report template is rendered with. */
  datatype ReportContents = ReportContents(
    date: int,
    previousDate: int,
    nGames: int,
    stats: StatTable,
    leaderboards: map<string, seq<Keyed>>,
    topTeams: seq<TeamResult>,
    perPlayer: map<string, map<string, Shown>>,
    overTime: map<string, map<string, seq<Point>>>)

  /** What `run` needs of a table besides its columns being there: distinct
      column names, none of them a computed one, and a value in every row
      for every averaged column. */
  predicate Rectangular(t: Table)
  {
    && Distinct(t.columns)
    && (forall c :: c in Computed ==> c !in t.columns)
    && (forall c {:trigger HasColumn(t.rows, c)} :: c in t.columns && !IsExcluded(c) && c != "name" ==> HasColumn(t.rows, c))
  }

  /** The columns `run` looks up by name, whose absence raises KeyError:
      the template's leaderboards (generate_report.py:319-328), the plotted
      variables (:261), `name` (:142), `date` (:31, :246) and `win_loss`
      (:185) always; `missed_serves` (:111) and `partner` (:180) only
      once there is a row, since only the per-player and per-row code
      reads them. */
  predicate HasRequiredColumns(t: Table)
  {
    && "name" in t.columns && "date" in t.columns && "win_loss" in t.columns
    && (t.rows != [] ==> "missed_serves" in t.columns && "partner" in t.columns)
    && forall c :: c in BoardColumns ==> c in t.columns
  }

  /** `missed_serves` and `partner` are needed only once the table has a
      row: an empty table without them passes, one row without them is a
      KeyError (generate_report.py:111, :180). */
  lemma ServeAndPartnerColumnsNeedARow(row: GameRow)
    ensures var columns := ["name", "date", "win_loss"] + BoardColumns;
      && HasRequiredColumns(Table(columns, []))
      && !HasRequiredColumns(Table(columns, [row]))
  {
  }

  /** Dropping rows keeps a table rectangular. */
  lemma WithoutRectangular(t: Table, excluded: set<string>)
    requires Rectangular(t)
    ensures Rectangular(Table(t.columns, Without(t.rows, excluded)))
  {
    var rows := Without(t.rows, excluded);
    forall c | c in t.columns && !IsExcluded(c) && c != "name" ensures HasColumn(rows, c) {
      assert HasColumn(t.rows, c);
      forall r | r in rows ensures c in r.stats {
        assert r in t.rows;
      }
    }
  }

  /** The per-game table covers every output column but `name` in every row. */
  lemma StatsHaveCells(t: Table, stats: StatTable)
    requires WellFormed(t)
    requires stats.columns == OutputColumns(t.columns)
    requires forall row :: row in stats.rows ==> IsPlayerRow(t, row)
    ensures HasCells(stats)
  {
    forall c, r | c in stats.columns && c != "name" && r in stats.rows ensures c in r.cells {
      assert IsPlayerRow(t, r);
      assert c in CellKeys(t.columns);
    }
  }

  lemma RowNamesAreNames(rows: seq<StatRow>)
    ensures (set r | r in rows :: r.name) == set p | p in RowNames(rows)
  {
    forall p | p in RowNames(rows) ensures p in set r | r in rows :: r.name {
      var i :| 0 <= i < |rows| && RowNames(rows)[i] == p;
      assert rows[i] in rows;
    }
    forall r | r in rows ensures r.name in RowNames(rows) {
      var i :| 0 <= i < |rows| && rows[i] == r;
      assert RowNames(rows)[i] == r.name;
    }
  }

  /** The running series of every tracked variable for each of `players`
      (generate_report.py:308-309, 241-261). */
  method OverTime(t: Table, players: seq<string>) returns (overTime: map<string, map<string, seq<Point>>>)
    requires WellFormed(t)
    requires forall c :: c in BoardColumns ==> c in t.columns
    ensures overTime.Keys == set p | p in players
    ensures forall p :: p in overTime ==> overTime[p].Keys == set v | v in Tracked
    ensures forall p, v :: p in overTime && v in overTime[p] ==>
              CanTrack(t.rows, p, v) && IsRunningSeries(t.rows, p, v, overTime[p][v])
  {
    overTime := map[];
    for i := 0 to |players|
      invariant overTime.Keys == set p | p in players[..i]
      invariant forall p :: p in overTime ==> overTime[p].Keys == set v | v in Tracked
      invariant forall p, v :: p in overTime && v in overTime[p] ==>
                  CanTrack(t.rows, p, v) && IsRunningSeries(t.rows, p, v, overTime[p][v])
    {
      assert players[..i + 1] == players[..i] + [players[i]];
      forall v | v in Tracked ensures CanTrack(t.rows, players[i], v) {
        if v != "win_rate" {
          assert v in BoardColumns;
          NamedHasColumn(t.rows, players[i], v);
        }
      }
      var series := StatsOverTime(t.rows, players[i]);
      overTime := overTime[players[i] := series];
    }
    assert players[..|players|] == players;
  }

  /** `stats` is the per-game table of `t` (generate_report.py:131-160). */
  ghost predicate IsStatsOf(t: Table, stats: StatTable)
    requires WellFormed(t)
  {
    && stats.columns == OutputColumns(t.columns)
    && Distinct(RowNames(stats.rows))
    && (forall p :: p in RowNames(stats.rows) <==> p in NameSet(t.rows))
    && (forall row :: row in stats.rows ==> IsPlayerRow(t, row))
  }

  /** `boards` holds a top-`n` leaderboard for every column of `stats` but
      `name` (generate_report.py:295-306). */
  ghost predicate IsBoardsOf(stats: StatTable, n: nat, boards: map<string, seq<Keyed>>)
    requires HasCells(stats)
  {
    && boards.Keys == (set c | c in stats.columns && c != "name")
    && forall c :: c in boards ==> IsTop(boards[c], Entries(stats.rows, c), n, LowerIsBetter(c))
  }

  /** `teams` are the `n` winningest teams of at least two games
      (generate_report.py:162-195): distinct qualifying teams in (win, n)
      descending order, each ranked before every qualifying team left out. */
  ghost predicate IsTeamsOf(rows: seq<GameRow>, n: nat, teams: seq<TeamResult>)
  {
    && |teams| == n
    && (forall i :: 0 <= i < |teams| ==> IsTeamResult(rows, 2, teams[i]))
    && Distinct(Teams(teams))
    && (forall i, j :: 0 <= i < j < |teams| ==>
          Precedes(TeamEntry(rows, teams[i].team), TeamEntry(rows, teams[j].team), false))
    && (forall k, i :: k in Qualified(rows, 2) && k !in Teams(teams) && 0 <= i < |teams| ==>
          Precedes(TeamEntry(rows, teams[i].team), TeamEntry(rows, k), false))
  }

  /** `perPlayer` maps each player of `stats` to the block of their row
      (generate_report.py:206-226). */
  ghost predicate IsBlocksOf(stats: StatTable, perPlayer: map<string, map<string, Shown>>)
  {
    forall i :: 0 <= i < |stats.rows| ==>
      && ShownCells(stats, stats.rows[i])
      && stats.rows[i].name in perPlayer
      && perPlayer[stats.rows[i].name] == BlockOf(stats.rows[i], ShownColumns(stats.columns))
  }

  /** `overTime` maps each player to one running series per tracked
      variable (generate_report.py:241-261). */
  ghost predicate IsSeriesOf(rows: seq<GameRow>, overTime: map<string, map<string, seq<Point>>>)
  {
    && (forall p :: p in overTime ==> overTime[p].Keys == set v | v in Tracked)
    && (forall p, v :: p in overTime && v in overTime[p] ==>
          CanTrack(rows, p, v) && IsRunningSeries(rows, p, v, overTime[p][v]))
  }

  /** `report` holds what the template is given for snapshot `t` and
      leaderboard size `n`: the per-game table, a top-`n` leaderboard per
      column (including every one the template shows), the `n` winningest
      teams, the labelled values per player, the running series per player,
      and the number of games (four rows per game). */
  ghost predicate IsReportOf(t: Table, n: nat, report: ReportContents)
    requires WellFormed(t)
  {
    && report.nGames == |t.rows| / 4
    && IsStatsOf(t, report.stats)
    && HasCells(report.stats)
    && IsBoardsOf(report.stats, n, report.leaderboards)
    && (forall c :: c in BoardColumns + ["win_rate", "ace2error"] ==> c in report.leaderboards)
    && IsTeamsOf(t.rows, n, report.topTeams)
    && report.perPlayer.Keys == NameSet(t.rows)
    && IsBlocksOf(report.stats, report.perPlayer)
    && report.overTime.Keys == NameSet(t.rows)
    && IsSeriesOf(t.rows, report.overTime)
  }

  /** The per-game table, with a cell for every column the template shows. */
  method ReportStats(t: Table) returns (stats: StatTable)
    requires WellFormed(t)
    requires forall c :: c in BoardColumns ==> c in t.columns
    ensures IsStatsOf(t, stats) && HasCells(stats)
    ensures forall c :: c in BoardColumns + ["win_rate", "ace2error"] ==> c in stats.columns && c != "name"
  {
    stats := PerGameStats(t);
    StatsHaveCells(t, stats);
    forall c | c in BoardColumns + ["win_rate", "ace2error"] ensures c in stats.columns && c != "name" {
      assert c in OutputColumns(t.columns);
    }
  }

  /** The leaderboards of every column but `name`. */
  method ReportBoards(stats: StatTable, n: nat) returns (boards: map<string, seq<Keyed>>)
    requires HasCells(stats)
    ensures IsBoardsOf(stats, n, boards)
  {
    boards := Leaderboards(stats, n);
  }

  /** The winningest teams of at least two games, or the IndexError raised
      when fewer than `n` teams qualify. */
  method ReportTeams(rows: seq<GameRow>, n: nat) returns (teams: Result<seq<TeamResult>>)
    ensures teams.Err? <==> |Qualified(rows, 2)| < n
    ensures teams.Ok? ==> IsTeamsOf(rows, n, teams.value)
  {
    teams := WinningestTeams(rows, 2, n);
  }

  /** The labelled values of every player of the table. */
  method ReportBlocks(t: Table, stats: StatTable) returns (perPlayer: map<string, map<string, Shown>>)
    requires WellFormed(t) && IsStatsOf(t, stats) && HasCells(stats)
    ensures perPlayer.Keys == NameSet(t.rows)
    ensures IsBlocksOf(stats, perPlayer)
  {
    perPlayer := SimplifiedResults(stats);
    RowNamesAreNames(stats.rows);
    forall i | 0 <= i < |stats.rows| ensures stats.rows[i].name in perPlayer {
      assert stats.rows[i] in stats.rows;
    }
  }

  /** The running series of every player of the table. */
  method ReportSeries(t: Table, stats: StatTable) returns (overTime: map<string, map<string, seq<Point>>>)
    requires WellFormed(t) && IsStatsOf(t, stats)
    requires forall c :: c in BoardColumns ==> c in t.columns
    ensures overTime.Keys == NameSet(t.rows)
    ensures IsSeriesOf(t.rows, overTime)
  {
    overTime := OverTime(t, RowNames(stats.rows));
  }

  /** Computes the contents of the report on snapshot `t`, dated `date`,
      with `previousDate` as the date of the snapshot it follows. The
      template's arguments are evaluated in order, and the IndexError of
      `get_winningest_team` (generate_report.py:329) aborts the rendering, so
      no report results when fewer than `n` teams qualify. */
  method Assemble(t: Table, n: nat, date: int, previousDate: int) returns (report: Result<ReportContents>)
    requires WellFormed(t)
    requires forall c :: c in BoardColumns ==> c in t.columns
    ensures report.Err? <==> |Qualified(t.rows, 2)| < n
    ensures report.Ok? ==> report.value.date == date && report.value.previousDate == previousDate
    ensures report.Ok? ==> IsReportOf(t, n, report.value)
  {
    var stats := ReportStats(t);
    var boards := ReportBoards(stats, n);
    var teams := ReportTeams(t.rows, n);
    if teams.Err? {
      return Err(teams.error);
    }
    var perPlayer := ReportBlocks(t, stats);
    var overTime := ReportSeries(t, stats);
    report := Ok(ReportContents(date, previousDate, |t.rows| / 4, stats, boards, teams.value, perPlayer, overTime));
  }

  class Report {
    var date: int
    var previousDate: int
    var data: Table
    var previousData: Table

    /** Loads the report's snapshot `current`, finds the latest earlier
        snapshot among `fileDates` (a file name that does not parse is
        `None`), loads it with `load`, and drops the players with a single
        game in the current snapshot from both (generate_report.py:10-59). */
    constructor (reportDate: int, current: Table, fileDates: seq<Option<int>>, load: int -> Table)
      ensures date == reportDate
      ensures previousDate >= FirstDate
      ensures previousDate == FirstDate || (Some(previousDate) in fileDates && previousDate < reportDate)
      ensures forall d :: Some(d) in fileDates && d < reportDate ==> d <= previousDate
      ensures data == Table(current.columns, Without(current.rows, SingleGameSet(current.rows)))
      ensures previousData == Table(load(previousDate).columns, Without(load(previousDate).rows, SingleGameSet(current.rows)))
      ensures Rectangular(current) ==> Rectangular(data)
      ensures WellFormed(current) ==> WellFormed(data)
    {
      date := reportDate;
      var prev := PreviousSnapshotDate(fileDates, reportDate);
      var cur, before := DropSingleGamePlayers(current, load(prev));
      previousDate := prev;
      data := cur;
      previousData := before;
      if Rectangular(current) {
        WithoutRectangular(current, SingleGameSet(current.rows));
      }
    }

    /** The per-player averages of the current snapshot, or of the previous
        one when `latest` is false (generate_report.py:118-160). */
    method CalculatePerGameStats(latest: bool) returns (res: StatTable)
      requires WellFormed(if latest then data else previousData)
      ensures var t := if latest then data else previousData;
        && res.columns == OutputColumns(t.columns)
        && Distinct(RowNames(res.rows))
        && (forall p :: p in RowNames(res.rows) <==> p in NameSet(t.rows))
        && forall row :: row in res.rows ==> IsPlayerRow(t, row)
    {
      res := PerGameStats(if latest then data else previousData);
    }

    /** Assembles the report (generate_report.py:284-330): a KeyError when
        a column it looks up is missing, an IndexError when fewer than `n`
        teams qualify, and otherwise the report of the current snapshot. */
    method Run(n: nat) returns (report: Result<ReportContents>)
      requires Rectangular(data)
      ensures report.Err? <==> !HasRequiredColumns(data) || |Qualified(data.rows, 2)| < n
      ensures !HasRequiredColumns(data) ==> report == Err("KeyError")
      ensures report.Ok? ==> WellFormed(data) && report.value.date == date && report.value.previousDate == previousDate
      ensures report.Ok? ==> IsReportOf(data, n, report.value)
    {
      if !HasRequiredColumns(data) {
        return Err("KeyError");
      }
      assert "aces" in BoardColumns;
      report := Assemble(data, n, date, previousDate);
    }
  }
}
