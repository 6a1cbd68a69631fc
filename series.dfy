/** The numbers behind `plot_stats_over_time` (generate_report.py:241-276):
    for each tracked variable, one point per distinct game date of the
    player, in ascending date order, computed over the player's games up to
    and including that date. As written, the `zip` loop at :251-252 only
    resets `variable_points`, so the date loop runs once, for the last
    variable; the model builds one series per variable, as the six subplots
    evidently intend. The plotting itself is not modelled. */
module Series {
  import opened Results
  import opened Rows
  import opened Metrics

  /** The plotted variables (generate_report.py:249). */
  const Tracked: seq<string> :=
    ["win_rate", "hitting_efficiency", "effectiveness", "serving_percentage", "serve_receive_rating", "errors"]

  datatype Point = Point(date: int, value: real)

  predicate Increasing(ds: seq<int>)
  {
    forall i, j :: 0 <= i < j < |ds| ==> ds[i] < ds[j]
  }

  /** Inserts `d` into an increasing sequence of dates, once. */
  function Insert(ds: seq<int>, d: int): (r: seq<int>)
    requires Increasing(ds)
    ensures Increasing(r)
    ensures forall x :: x in r <==> x in ds || x == d
  {
    if ds == [] then [d]
    else if d < ds[0] then [d] + ds
    else if d == ds[0] then ds
    else
      var rest := Insert(ds[1..], d);
      assert forall x :: x in rest ==> ds[0] < x by {
        forall x | x in rest ensures ds[0] < x {
          if x != d {
            var k :| 0 <= k < |ds[1..]| && ds[1..][k] == x;
            assert ds[0] < ds[k + 1];
          }
        }
      }
      var r := [ds[0]] + rest;
      assert forall j :: 0 < j < |r| ==> r[j] == rest[j - 1] && rest[j - 1] in rest;
      r
  }

  /** The distinct dates of some rows, ascending (`sort_values(['date'])`
      followed by `unique()`, generate_report.py:247, :254). */
  method SortedDates(rows: seq<GameRow>) returns (ds: seq<int>)
    ensures Increasing(ds)
    ensures forall d :: d in ds <==> d in DateSet(rows)
  {
    ds := [];
    for i := 0 to |rows|
      invariant Increasing(ds)
      invariant forall d :: d in ds <==> d in DateSet(rows[..i])
    {
      assert rows[..i + 1] == rows[..i] + [rows[i]];
      ds := Insert(ds, rows[i].date);
    }
    assert rows[..|rows|] == rows;
  }

  /** The value of a variable over a non-empty set of games: the win rate in
      percent for `win_rate`, the plain mean of the column otherwise
      (generate_report.py:256-261). */
  function RunningValue(rows: seq<GameRow>, variable: string): real
    requires rows != []
    requires variable != "win_rate" ==> HasColumn(rows, variable)
  {
    if variable == "win_rate" then Percentage(Wins(rows), |rows|)
    else Mean(Column(rows, variable)).value
  }

  /** The running win rate is the percentage of the games won. */
  lemma RunningWinRate(rows: seq<GameRow>)
    requires rows != []
    ensures 0.0 <= RunningValue(rows, "win_rate") <= 100.0
    ensures RunningValue(rows, "win_rate") * |rows| as real == 100.0 * Wins(rows) as real
  {
    var v := RunningValue(rows, "win_rate");
    // unfolded in a context of its own, away from the product below
    assert v == Percentage(Wins(rows), |rows|) by {
    }
    WinPercentage(rows);
  }

  /** Any other running value is a mean: times the number of games it is the
      column's total. */
  lemma RunningMean(rows: seq<GameRow>, variable: string)
    requires rows != [] && variable != "win_rate" && HasColumn(rows, variable)
    ensures RunningValue(rows, variable) * |rows| as real == Sum(Column(rows, variable))
  {
    var xs := Column(rows, variable);
    assert RunningValue(rows, variable) == Mean(xs).value;
  }

  function Dates(points: seq<Point>): (ds: seq<int>)
    ensures |ds| == |points|
    ensures forall i :: 0 <= i < |points| ==> ds[i] == points[i].date
  {
    seq(|points|, i requires 0 <= i < |points| => points[i].date)
  }

  /** The player's column `variable` is present wherever it is needed. */
  predicate CanTrack(rows: seq<GameRow>, player: string, variable: string)
  {
    variable != "win_rate" ==> HasColumn(Named(rows, player), variable)
  }

  /** `points` is the running series of `variable` for `player`: one point
      per distinct date of the player's games, ascending, each the value of
      the variable over the player's games on or before that date. */
  ghost predicate IsRunningSeries(rows: seq<GameRow>, player: string, variable: string, points: seq<Point>)
    requires CanTrack(rows, player, variable)
  {
    var mine := Named(rows, player);
    && Increasing(Dates(points))
    && (forall d :: d in Dates(points) <==> d in DateSet(mine))
    && forall i :: 0 <= i < |points| ==>
         UpTo(mine, points[i].date) != [] && points[i].value == RunningValue(UpTo(mine, points[i].date), variable)
  }

  lemma UpToOwnDate(rows: seq<GameRow>, d: int)
    requires d in DateSet(rows)
    ensures UpTo(rows, d) != []
  {
    var r :| r in rows && r.date == d;
    assert r in UpTo(rows, d);
  }

  /** The series of one variable (generate_report.py:254-261). */
  method RunningSeries(rows: seq<GameRow>, player: string, variable: string) returns (points: seq<Point>)
    requires CanTrack(rows, player, variable)
    ensures IsRunningSeries(rows, player, variable, points)
  {
    var mine := Named(rows, player);
    var dates := SortedDates(mine);
    points := [];
    for i := 0 to |dates|
      invariant Dates(points) == dates[..i]
      invariant forall k :: 0 <= k < i ==>
                  UpTo(mine, points[k].date) != [] && points[k].value == RunningValue(UpTo(mine, points[k].date), variable)
    {
      var toDate := UpTo(mine, dates[i]);
      UpToOwnDate(mine, dates[i]);
      var v := RunningValue(toDate, variable);
      points := points + [Point(dates[i], v)];
      assert Dates(points) == dates[..i + 1];
    }
    assert dates[..|dates|] == dates;
  }

  /** The last point of a series is the value over all of the player's games. */
  lemma SeriesEndsAtWholeTable(rows: seq<GameRow>, player: string, variable: string, points: seq<Point>)
    requires CanTrack(rows, player, variable)
    requires IsRunningSeries(rows, player, variable, points)
    requires points != []
    ensures Named(rows, player) != []
    ensures points[|points| - 1].value == RunningValue(Named(rows, player), variable)
  {
    var mine := Named(rows, player);
    var last := |points| - 1;
    forall r | r in mine ensures r.date <= points[last].date {
      assert r.date in DateSet(mine);
      var k :| 0 <= k < |points| && Dates(points)[k] == r.date;
      if k < last {
        assert Dates(points)[k] < Dates(points)[last];
      }
    }
    WhereAll(mine, (r: GameRow) => r.date <= points[last].date);
    assert UpTo(mine, points[last].date) == mine;
  }

  /** A player who won every game has a win rate of 100 at every point. */
  lemma SeriesAllWins(rows: seq<GameRow>, player: string, points: seq<Point>)
    requires IsRunningSeries(rows, player, "win_rate", points)
    requires forall r :: r in rows && r.name == player ==> IsWin(r)
    ensures forall i :: 0 <= i < |points| ==> points[i].value == 100.0
  {
    var mine := Named(rows, player);
    forall i | 0 <= i < |points| ensures points[i].value == 100.0 {
      var upto := UpTo(mine, points[i].date);
      forall r | r in upto ensures IsWin(r) { }
      AllWins(upto);
    }
  }

  /** One series per tracked variable (generate_report.py:249-261). */
  method StatsOverTime(rows: seq<GameRow>, player: string) returns (series: map<string, seq<Point>>)
    requires forall v :: v in Tracked ==> CanTrack(rows, player, v)
    ensures series.Keys == set v | v in Tracked
    ensures forall v :: v in series ==> IsRunningSeries(rows, player, v, series[v])
  {
    series := map[];
    for i := 0 to |Tracked|
      invariant series.Keys == set v | v in Tracked[..i]
      invariant forall v :: v in series ==> v in Tracked && IsRunningSeries(rows, player, v, series[v])
    {
      assert Tracked[..i + 1] == Tracked[..i] + [Tracked[i]];
      var points := RunningSeries(rows, player, Tracked[i]);
      series := series[Tracked[i] := points];
    }
    assert Tracked[..|Tracked|] == Tracked;
  }
}
