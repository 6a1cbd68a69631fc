/** Sorting and selection: the leaderboards built in `run`
    (generate_report.py:294-306) and the team ranking of
    `get_winningest_team` (generate_report.py:162-195). pandas' default
    `sort_values` is not stable, so nothing is promised about the order of
    candidates that tie. */
module Ranking {
  import opened Results
  import opened Rows
  import opened Text
  import opened Aggregate

  /** A candidate of a ranking: its subject (a player or a team), the value it
      is sorted by (`None` for NaN) and a second sort key (the team's game
      count; 0 on the single-column leaderboards). */
  datatype Keyed = Keyed(subject: string, value: Option<real>, tiebreak: real)

  /** `a` may come before `b` in `sort_values` order: by value, ascending or
      descending, NaN last whatever the direction, then by the second key,
      descending. */
  predicate Precedes(a: Keyed, b: Keyed, ascending: bool)
  {
    match a.value
    case None => b.value.None?
    case Some(x) =>
      match b.value
      case None => true
      case Some(y) => (if ascending then x < y else x > y) || (x == y && a.tiebreak >= b.tiebreak)
  }

  predicate IsSorted(xs: seq<Keyed>, ascending: bool)
  {
    forall i, j :: 0 <= i < j < |xs| ==> Precedes(xs[i], xs[j], ascending)
  }

  function Subjects(xs: seq<Keyed>): (ls: seq<string>)
    ensures |ls| == |xs|
    ensures forall i :: 0 <= i < |xs| ==> ls[i] == xs[i].subject
  {
    seq(|xs|, i requires 0 <= i < |xs| => xs[i].subject)
  }

  /** The index of a candidate that may come first. */
  method BestIndex(xs: seq<Keyed>, ascending: bool) returns (m: nat)
    requires xs != []
    ensures m < |xs|
    ensures forall j :: 0 <= j < |xs| ==> Precedes(xs[m], xs[j], ascending)
  {
    m := 0;
    for j := 1 to |xs|
      invariant m < j
      invariant forall k :: 0 <= k < j ==> Precedes(xs[m], xs[k], ascending)
    {
      if !Precedes(xs[m], xs[j], ascending) {
        m := j;
      }
    }
  }

  /** Moving `rest[m]` to the end of `sorted` keeps the candidates. */
  lemma SelectKeeps(sorted: seq<Keyed>, rest: seq<Keyed>, m: nat)
    requires m < |rest|
    ensures multiset(sorted + [rest[m]]) + multiset(rest[..m] + rest[m + 1..]) == multiset(sorted) + multiset(rest)
  {
    assert rest == rest[..m] + [rest[m]] + rest[m + 1..];
  }

  /** Moving a first candidate `rest[m]` to the end of `sorted` keeps
      `sorted` in order and ahead of the remaining candidates. */
  lemma SelectOrders(sorted: seq<Keyed>, rest: seq<Keyed>, m: nat, ascending: bool)
    requires m < |rest|
    requires IsSorted(sorted, ascending)
    requires forall i, j :: 0 <= i < |sorted| && 0 <= j < |rest| ==> Precedes(sorted[i], rest[j], ascending)
    requires forall j :: 0 <= j < |rest| ==> Precedes(rest[m], rest[j], ascending)
    ensures IsSorted(sorted + [rest[m]], ascending)
    ensures var next := rest[..m] + rest[m + 1..];
            forall i, j :: 0 <= i < |sorted| + 1 && 0 <= j < |next| ==> Precedes((sorted + [rest[m]])[i], next[j], ascending)
  {
    var next := rest[..m] + rest[m + 1..];
    assert forall j :: 0 <= j < |next| ==> next[j] == rest[if j < m then j else j + 1];
  }

  /** `sort_values`: a sorted permutation of the candidates. */
  method Sort(items: seq<Keyed>, ascending: bool) returns (sorted: seq<Keyed>)
    ensures multiset(sorted) == multiset(items)
    ensures IsSorted(sorted, ascending)
  {
    sorted := [];
    var rest := items;
    while rest != []
      invariant multiset(sorted) + multiset(rest) == multiset(items)
      invariant IsSorted(sorted, ascending)
      invariant forall i, j :: 0 <= i < |sorted| && 0 <= j < |rest| ==> Precedes(sorted[i], rest[j], ascending)
      decreases |rest|
    {
      var m := BestIndex(rest, ascending);
      SelectKeeps(sorted, rest, m);
      SelectOrders(sorted, rest, m, ascending);
      sorted := sorted + [rest[m]];
      rest := rest[..m] + rest[m + 1..];
    }
  }

  /** The result of `sort_values(...)[:n]`: min(n, |items|) candidates, in
      order, taken from `items`, each of which may come before every
      candidate left out. */
  predicate IsTop(top: seq<Keyed>, items: seq<Keyed>, n: nat, ascending: bool)
  {
    && |top| == (if n < |items| then n else |items|)
    && IsSorted(top, ascending)
    && multiset(top) <= multiset(items)
    && forall x, y :: x in multiset(items) - multiset(top) && y in top ==> Precedes(y, x, ascending)
  }

  method TopN(items: seq<Keyed>, n: nat, ascending: bool) returns (top: seq<Keyed>)
    ensures IsTop(top, items, n, ascending)
  {
    var sorted := Sort(items, ascending);
    assert |sorted| == |items| by {
      assert |multiset(sorted)| == |multiset(items)|;
    }
    var k := if n < |sorted| then n else |sorted|;
    top := sorted[..k];
    assert sorted == top + sorted[k..];
    forall x, y | x in multiset(items) - multiset(top) && y in top
      ensures Precedes(y, x, ascending)
    {
      assert x in multiset(sorted[k..]);
      var j :| k <= j < |sorted| && sorted[j] == x;
      var i :| 0 <= i < k && sorted[i] == y;
    }
  }

  /** `errors` is the one column where a lower value ranks higher (:298-301). */
  predicate LowerIsBetter(c: string)
  {
    c == "errors"
  }

  /** The candidates of the leaderboard for column `c`: each player with
      their value. */
  function Entries(rows: seq<StatRow>, c: string): seq<Keyed>
    requires forall r :: r in rows ==> c in r.cells
  {
    seq(|rows|, i requires 0 <= i < |rows| => Keyed(rows[i].name, rows[i].cells[c], 0.0))
  }

  /** For every column but `name`, the first `n` players by that column
      (generate_report.py:295-306). */
  method Leaderboards(t: StatTable, n: nat) returns (boards: map<string, seq<Keyed>>)
    requires HasCells(t)
    ensures boards.Keys == set c | c in t.columns && c != "name"
    ensures forall c :: c in boards ==> IsTop(boards[c], Entries(t.rows, c), n, LowerIsBetter(c))
  {
    boards := map[];
    for i := 0 to |t.columns|
      invariant boards.Keys == set c | c in t.columns[..i] && c != "name"
      invariant forall c :: c in boards ==> c in t.columns && c != "name"
      invariant forall c :: c in boards ==> IsTop(boards[c], Entries(t.rows, c), n, LowerIsBetter(c))
    {
      assert t.columns[..i + 1] == t.columns[..i] + [t.columns[i]];
      var c := t.columns[i];
      if c != "name" {
        assert c in t.columns;
        var top := TopN(Entries(t.rows, c), n, LowerIsBetter(c));
        boards := boards[c := top];
      }
    }
    assert t.columns[..|t.columns|] == t.columns;
  }

  // ---------------------------------------------------------------------
  // Team ranking

  /** The team of a row. */
  function TeamOf(r: GameRow): string
  {
    TeamKey(r.name, r.partner)
  }

  function TeamRows(rows: seq<GameRow>, k: string): seq<GameRow>
  {
    Where(rows, (r: GameRow) => TeamOf(r) == k)
  }

  function TeamSet(rows: seq<GameRow>): set<string>
  {
    set r | r in rows :: TeamOf(r)
  }

  /** The grouped row of team `k`: the mean of the win indicator over the
      team's rows and their count halved, since both partners contribute a
      row per game (generate_report.py:185-187). A key without rows has no
      group; it is given a count of 0 so that the function is total. */
  function TeamEntry(rows: seq<GameRow>, k: string): (e: Keyed)
    ensures e.subject == k && e.value.Some?
    ensures 0.0 <= e.value.value <= 1.0
    ensures e.tiebreak * 2.0 == |TeamRows(rows, k)| as real
  {
    var rs := TeamRows(rows, k);
    if |rs| == 0 then Keyed(k, Some(0.0), 0.0)
    else Keyed(k, Some(Fraction(Wins(rs), |rs|)), |rs| as real / 2.0)
  }

  /** A team's win value is the fraction of its rows that are wins:
      `Fraction(w, n)` is the number that times `n` gives `w`. */
  lemma TeamWinFraction(rows: seq<GameRow>, k: string)
    requires |TeamRows(rows, k)| > 0
    ensures TeamEntry(rows, k).value == Some(Fraction(Wins(TeamRows(rows, k)), |TeamRows(rows, k)|))
  {
  }

  /** A team with at least `minGames` games (generate_report.py:188). */
  function Qualified(rows: seq<GameRow>, minGames: int): set<string>
  {
    set k | k in TeamSet(rows) && TeamEntry(rows, k).tiebreak >= minGames as real
  }

  /** The `team` column: the team of every row, in row order
      (generate_report.py:178-181). */
  method RowTeams(rows: seq<GameRow>) returns (teams: seq<string>)
    ensures |teams| == |rows|
    ensures forall j :: 0 <= j < |rows| ==> teams[j] == TeamOf(rows[j])
  {
    teams := [];
    for i := 0 to |rows|
      invariant |teams| == i
      invariant forall j :: 0 <= j < i ==> teams[j] == TeamOf(rows[j])
    {
      teams := teams + [TeamKey(rows[i].name, rows[i].partner)];
    }
  }

  /** The distinct teams of a table, each once (the groups of `groupby('team')`). */
  method UniqueTeams(rows: seq<GameRow>) returns (keys: seq<string>)
    ensures Distinct(keys)
    ensures forall k :: k in keys <==> k in TeamSet(rows)
  {
    var teams := RowTeams(rows);
    keys := Unique(teams);
    forall k | k in TeamSet(rows) ensures k in keys {
      var r :| r in rows && TeamOf(r) == k;
      var j :| 0 <= j < |rows| && rows[j] == r;
      assert teams[j] == k;
    }
  }

  /** The grouped teams with at least `minGames` games, each once
      (generate_report.py:183-188). */
  method QualifyingTeams(rows: seq<GameRow>, minGames: int) returns (groups: seq<Keyed>)
    ensures Distinct(Subjects(groups))
    ensures forall k :: k in Subjects(groups) <==> k in Qualified(rows, minGames)
    ensures forall e :: e in groups ==> e.subject in TeamSet(rows) && e == TeamEntry(rows, e.subject)
  {
    var keys := UniqueTeams(rows);
    groups := [];
    for i := 0 to |keys|
      invariant Distinct(Subjects(groups))
      invariant forall k :: k in Subjects(groups) <==> k in keys[..i] && k in Qualified(rows, minGames)
      invariant forall e :: e in groups ==> e.subject in TeamSet(rows) && e == TeamEntry(rows, e.subject)
    {
      assert keys[..i + 1] == keys[..i] + [keys[i]];
      assert keys[i] in TeamSet(rows);
      var e := TeamEntry(rows, keys[i]);
      ghost var before := Subjects(groups);
      if e.tiebreak >= minGames as real {
        assert keys[i] !in keys[..i];
        assert keys[i] in Qualified(rows, minGames);
        groups := groups + [e];
        assert Subjects(groups) == before + [keys[i]];
      } else {
        assert keys[i] !in Qualified(rows, minGames);
      }
    }
    assert keys[..|keys|] == keys;
  }

  /** What `get_winningest_team` reports per team: the win rate in percent
      (before rounding and formatting as "x%") and `int(n)`. */
  datatype TeamResult = TeamResult(team: string, winPercent: real, games: int)

  function Teams(rs: seq<TeamResult>): (ts: seq<string>)
    ensures |ts| == |rs|
    ensures forall i :: 0 <= i < |rs| ==> ts[i] == rs[i].team
  {
    seq(|rs|, i requires 0 <= i < |rs| => rs[i].team)
  }

  /** `r` is what the report shows for a qualifying team. */
  predicate IsTeamResult(rows: seq<GameRow>, minGames: int, r: TeamResult)
  {
    && r.team in Qualified(rows, minGames)
    && r.winPercent == 100.0 * TeamEntry(rows, r.team).value.value
    && r.games == TeamEntry(rows, r.team).tiebreak.Floor
  }

  lemma {:induction false} DistinctCard(xs: seq<string>)
    requires Distinct(xs)
    ensures |set x | x in xs| == |xs|
  {
    if xs != [] {
      DistinctCard(xs[1..]);
      assert (set x | x in xs) == {xs[0]} + (set x | x in xs[1..]);
    }
  }

  lemma {:induction false} DistinctLabelsOnce(xs: seq<Keyed>, x: Keyed)
    requires Distinct(Subjects(xs))
    ensures multiset(xs)[x] <= 1
  {
    if xs != [] {
      assert Distinct(Subjects(xs[1..])) by {
        assert forall i :: 0 <= i < |xs| - 1 ==> Subjects(xs[1..])[i] == Subjects(xs)[i + 1];
      }
      DistinctLabelsOnce(xs[1..], x);
      assert xs == [xs[0]] + xs[1..];
      if x == xs[0] {
        assert x !in xs[1..] by {
          forall j | 0 <= j < |xs| - 1 ensures xs[1..][j] != x {
            assert Subjects(xs)[0] != Subjects(xs)[j + 1];
          }
        }
      }
    }
  }

  lemma RepeatedTwice(xs: seq<Keyed>, i: nat, j: nat)
    requires i < j < |xs| && xs[i] == xs[j]
    ensures multiset(xs)[xs[i]] >= 2
  {
    assert xs == xs[..j] + [xs[j]] + xs[j + 1..];
    assert xs[i] in xs[..j];
  }

  /** Reordering candidates with distinct subjects keeps them distinct. */
  lemma PermutationKeepsDistinct(a: seq<Keyed>, b: seq<Keyed>)
    requires multiset(b) == multiset(a)
    requires Distinct(Subjects(a))
    ensures Distinct(Subjects(b))
  {
    forall i, j | 0 <= i < j < |b| ensures b[i].subject != b[j].subject {
      if b[i].subject == b[j].subject {
        assert b[i] in multiset(a) && b[j] in multiset(a);
        var p :| 0 <= p < |a| && a[p] == b[i];
        var q :| 0 <= q < |a| && a[q] == b[j];
        assert Subjects(a)[p] == Subjects(a)[q];
        RepeatedTwice(b, i, j);
        DistinctLabelsOnce(a, b[i]);
        assert false;
      }
    }
  }

  /** The report line of a grouped team. */
  function ShowTeam(e: Keyed): TeamResult
    requires e.value.Some?
  {
    TeamResult(e.subject, 100.0 * e.value.value, e.tiebreak.Floor)
  }

  /** The `top_teams` best qualifying teams by (win rate, games), both
      descending; IndexError when fewer teams qualify
      (generate_report.py:162-195). */
  method WinningestTeams(rows: seq<GameRow>, minGames: int, topTeams: nat) returns (res: Result<seq<TeamResult>>)
    ensures res.Err? <==> |Qualified(rows, minGames)| < topTeams
    ensures res.Ok? ==> |res.value| == topTeams
    ensures res.Ok? ==> forall i :: 0 <= i < |res.value| ==> IsTeamResult(rows, minGames, res.value[i])
    ensures res.Ok? ==> Distinct(Teams(res.value))
    ensures res.Ok? ==> forall i, j :: 0 <= i < j < |res.value| ==>
              Precedes(TeamEntry(rows, res.value[i].team), TeamEntry(rows, res.value[j].team), false)
    ensures res.Ok? ==> forall k, i :: k in Qualified(rows, minGames) && k !in Teams(res.value) && 0 <= i < |res.value| ==>
              Precedes(TeamEntry(rows, res.value[i].team), TeamEntry(rows, k), false)
  {
    var groups := QualifyingTeams(rows, minGames);
    DistinctCard(Subjects(groups));
    assert (set x | x in Subjects(groups)) == Qualified(rows, minGames);
    var sorted := Sort(groups, false);
    assert |sorted| == |groups| by {
      assert |multiset(sorted)| == |multiset(groups)|;
    }
    if |sorted| < topTeams {
      return Err("IndexError: index out of bounds");
    }
    PermutationKeepsDistinct(groups, sorted);
    var out: seq<TeamResult> := [];
    for i := 0 to topTeams
      invariant |out| == i
      invariant forall j :: 0 <= j < i ==> sorted[j] in groups && out[j] == ShowTeam(sorted[j])
    {
      assert sorted[i] in multiset(groups);
      out := out + [ShowTeam(sorted[i])];
    }
    res := Ok(out);
    TeamResultsFacts(rows, minGames, groups, sorted, out);
  }

  lemma TeamResultsFacts(rows: seq<GameRow>, minGames: int, groups: seq<Keyed>, sorted: seq<Keyed>, out: seq<TeamResult>)
    requires forall k :: k in Subjects(groups) <==> k in Qualified(rows, minGames)
    requires forall e :: e in groups ==> e.subject in TeamSet(rows) && e == TeamEntry(rows, e.subject)
    requires multiset(sorted) == multiset(groups)
    requires IsSorted(sorted, false) && Distinct(Subjects(sorted))
    requires |out| <= |sorted|
    requires forall j :: 0 <= j < |out| ==> sorted[j] in groups && out[j] == ShowTeam(sorted[j])
    ensures forall i :: 0 <= i < |out| ==> IsTeamResult(rows, minGames, out[i])
    ensures Distinct(Teams(out))
    ensures forall i, j :: 0 <= i < j < |out| ==>
              Precedes(TeamEntry(rows, out[i].team), TeamEntry(rows, out[j].team), false)
    ensures forall k, i :: k in Qualified(rows, minGames) && k !in Teams(out) && 0 <= i < |out| ==>
              Precedes(TeamEntry(rows, out[i].team), TeamEntry(rows, k), false)
  {
    forall j | 0 <= j < |out| ensures IsTeamResult(rows, minGames, out[j]) {
      assert sorted[j].subject in Subjects(groups);
    }
    forall i, j | 0 <= i < j < |out| ensures out[i].team != out[j].team {
      assert Subjects(sorted)[i] != Subjects(sorted)[j];
    }
    forall k, i | k in Qualified(rows, minGames) && k !in Teams(out) && 0 <= i < |out|
      ensures Precedes(TeamEntry(rows, out[i].team), TeamEntry(rows, k), false)
    {
      var g :| 0 <= g < |groups| && Subjects(groups)[g] == k;
      assert groups[g] in multiset(sorted);
      var j :| 0 <= j < |sorted| && sorted[j] == groups[g];
    }
  }

  /** Every team the report lists has won between 0 and 100 percent of its
      games and has at least `minGames` games, counted as `int(n)`. */
  lemma TeamResultBounds(rows: seq<GameRow>, minGames: int, r: TeamResult)
    requires IsTeamResult(rows, minGames, r)
    ensures 0.0 <= r.winPercent <= 100.0
    ensures r.games >= minGames
    ensures r.games as real <= TeamEntry(rows, r.team).tiebreak < r.games as real + 1.0
  {
    var n := TeamEntry(rows, r.team).tiebreak;
    assert n >= minGames as real;
    assert n.Floor >= minGames;
  }
}
