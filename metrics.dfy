/** The two per-player metrics of the report, `calculate_win_rate` and
    `calculate_ace_error_ratio` (generate_report.py:61-116). Both look the
    player up by the title-cased form of the name they are given. The table
    passed in is `self.data` (`latest=True`) or `self.previous_data`. */
module Metrics {
  import opened Results
  import opened Rows
  import opened Text

  /** What `calculate_win_rate` returns: the rate in percent and the number
      of games. */
  datatype WinRateResult = WinRateResult(rate: real, games: nat)

  /** Win rate of `player`: the share of won rows among the rows named
      `player.title()`, in percent; (0, 0) when there are none
      (generate_report.py:81-88). */
  function WinRate(rows: seq<GameRow>, player: string): (r: WinRateResult)
    ensures r.games == |Named(rows, Title(player))|
    ensures 0.0 <= r.rate <= 100.0
    ensures r.games == 0 ==> r.rate == 0.0
    ensures r.games > 0 ==> r.rate == Percentage(Wins(Named(rows, Title(player))), r.games)
  {
    var mine := Named(rows, Title(player));
    var n := |mine|;
    var w := Wins(mine);
    if n > 0 then
      WinRateResult(Percentage(w, n), n)
    else
      WinRateResult(0.0, 0)
  }

  /** `part / whole * 100`. */
  function Percentage(part: nat, whole: nat): (r: real)
    requires part <= whole && whole > 0
    ensures 0.0 <= r <= 100.0
    ensures r * whole as real == 100.0 * part as real
    ensures part == whole ==> r == 100.0
  {
    var q := Fraction(part, whole);
    assert (q * 100.0) * whole as real == 100.0 * (q * whole as real);
    q * 100.0
  }

  /** The percentage of a non-empty set of games that were won. */
  lemma WinPercentage(rows: seq<GameRow>)
    requires rows != []
    ensures Percentage(Wins(rows), |rows|) * |rows| as real == 100.0 * Wins(rows) as real
  {
  }

  /** A player who won every game has a win rate of 100. */
  lemma WinRateAllWins(rows: seq<GameRow>, player: string)
    requires |Named(rows, Title(player))| > 0
    requires forall r :: r in rows && r.name == Title(player) ==> IsWin(r)
    ensures WinRate(rows, player).rate == 100.0
  {
    var mine := Named(rows, Title(player));
    forall r | r in mine ensures IsWin(r) { }
    AllWins(mine);
  }

  /** Both metrics need the serve columns. */
  predicate HasServeColumns(rows: seq<GameRow>)
  {
    HasColumn(rows, "aces") && HasColumn(rows, "missed_serves")
  }

  /** The games with a positive count in column `c`: `games_with_aces`
      filters on "aces" (generate_report.py:110), and the ratio's games
      are those further filtered on "missed_serves" (generate_report.py:111). */
  function WithPositive(rows: seq<GameRow>, c: string): (r: seq<GameRow>)
    requires HasServeColumns(rows) && HasColumn(rows, c)
    ensures HasServeColumns(r) && HasColumn(r, c)
    ensures forall x :: x in r <==> x in rows && x.stats[c] > 0.0
  {
    Where(rows, (x: GameRow) => c in x.stats && x.stats[c] > 0.0)
  }

  /** `aces / missed_serves` per row. */
  function Ratios(rows: seq<GameRow>): (xs: seq<real>)
    requires HasServeColumns(rows)
    requires forall x :: x in rows ==> x.stats["missed_serves"] > 0.0
    ensures |xs| == |rows|
    ensures forall i :: 0 <= i < |rows| ==> xs[i] * rows[i].stats["missed_serves"] == rows[i].stats["aces"]
  {
    seq(|rows|, i requires 0 <= i < |rows| => rows[i].stats["aces"] / rows[i].stats["missed_serves"])
  }

  /** Ace:error ratio of `player` (generate_report.py:108-116): 0 when no
      game of the player has an ace; otherwise the mean of aces/missed_serves
      over the games with both an ace and a missed serve, which is NaN (None)
      when there is no such game. */
  function AceErrorRatio(rows: seq<GameRow>, player: string): (r: Option<real>)
    requires HasServeColumns(rows)
    ensures r.Some? ==> r.value >= 0.0
  {
    var aced := WithPositive(Named(rows, Title(player)), "aces");
    if |aced| == 0 then
      Some(0.0)
    else
      var ratios := Ratios(WithPositive(aced, "missed_serves"));
      RatiosNonNegative(WithPositive(aced, "missed_serves"));
      if ratios == [] then None
      else
        MeanNonNegative(ratios);
        Mean(ratios)
  }

  lemma RatiosNonNegative(rows: seq<GameRow>)
    requires HasServeColumns(rows)
    requires forall x :: x in rows ==> x.stats["missed_serves"] > 0.0 && x.stats["aces"] > 0.0
    ensures Sum(Ratios(rows)) >= 0.0
  {
    var ratios := Ratios(rows);
    forall x | x in ratios ensures x >= 0.0 {
      var i :| 0 <= i < |ratios| && ratios[i] == x;
      assert rows[i] in rows;
    }
    SumNonNegative(ratios);
  }

  /** The 0-versus-NaN asymmetry of the ace:error ratio: no ace at all gives
      0, while aces without any missed serve give the NaN of an empty mean. */
  lemma AceErrorRatioCases(rows: seq<GameRow>, player: string)
    requires HasServeColumns(rows)
    ensures (forall x :: x in rows && x.name == Title(player) ==> x.stats["aces"] <= 0.0)
              ==> AceErrorRatio(rows, player) == Some(0.0)
    ensures AceErrorRatio(rows, player).None? <==>
              (exists x :: x in rows && x.name == Title(player) && x.stats["aces"] > 0.0)
              && (forall x :: x in rows && x.name == Title(player) && x.stats["aces"] > 0.0 ==> x.stats["missed_serves"] <= 0.0)
    ensures var both := WithPositive(WithPositive(Named(rows, Title(player)), "aces"), "missed_serves");
            both != [] ==> AceErrorRatio(rows, player) == Mean(Ratios(both))
  {
    var aced := WithPositive(Named(rows, Title(player)), "aces");
    if |aced| > 0 {
      assert aced[0] in aced;
      var both := WithPositive(aced, "missed_serves");
      if |both| > 0 {
        assert both[0] in both;
      }
    }
  }
}
