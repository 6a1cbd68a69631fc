/** What `Report.__init__` does once the spreadsheets are read
    (generate_report.py:33-59): choose the date of the previous snapshot and
    drop the players who have played a single game. */
module Snapshot {
  import opened Results
  import opened Rows

  /** `datetime(2000, 1, 1)`, the starting point of the search for the
      previous snapshot. */
  const FirstDate: int := 20000101

  /** The date of the previous snapshot, from the date tokens of the data
      directory's file names (`None` for a token that `strptime` rejects):
      the latest token strictly before the report date, or 2000-01-01 when
      no token later than that qualifies (generate_report.py:33-45). */
  method PreviousSnapshotDate(fileDates: seq<Option<int>>, reportDate: int) returns (prev: int)
    ensures prev >= FirstDate
    ensures prev == FirstDate || (Some(prev) in fileDates && prev < reportDate)
    ensures forall d :: Some(d) in fileDates && d < reportDate ==> d <= prev
  {
    prev := FirstDate;
    for i := 0 to |fileDates|
      invariant prev >= FirstDate
      invariant prev == FirstDate || (Some(prev) in fileDates[..i] && prev < reportDate)
      invariant forall d :: Some(d) in fileDates[..i] && d < reportDate ==> d <= prev
    {
      assert fileDates[..i + 1] == fileDates[..i] + [fileDates[i]];
      match fileDates[i]
      case None =>
        // a ValueError from strptime: the file is skipped
      case Some(d) =>
        if d < reportDate && d > prev {
          prev := d;
        }
    }
    assert fileDates[..|fileDates|] == fileDates;
  }

  /** The players with exactly one game, counted as `groupby('name').count()`
      counts them: by the non-blank `win_loss` cells of their rows. */
  function SingleGameSet(rows: seq<GameRow>): set<string>
  {
    set p | p in NameSet(rows) && |Recorded(Named(rows, p))| == 1
  }

  /** The rows whose player is not in `excluded`
      (`data[~data['name'].isin(excluded)]`). */
  function Without(rows: seq<GameRow>, excluded: set<string>): seq<GameRow>
  {
    Where(rows, (r: GameRow) => r.name !in excluded)
  }

  /** The names with a single recorded result, collected by walking the
      players of the current table (generate_report.py:49-53). */
  method SingleGamePlayers(rows: seq<GameRow>) returns (singles: seq<string>)
    ensures Distinct(singles)
    ensures forall p :: p in singles <==> |Recorded(Named(rows, p))| == 1
  {
    var names := UniqueNames(rows);
    singles := [];
    for i := 0 to |names|
      invariant Distinct(singles)
      invariant forall p :: p in singles <==> p in names[..i] && |Recorded(Named(rows, p))| == 1
    {
      assert names[..i + 1] == names[..i] + [names[i]];
      if |Recorded(Named(rows, names[i]))| == 1 {
        singles := singles + [names[i]];
      }
    }
    assert names[..|names|] == names;
    forall p | |Recorded(Named(rows, p))| == 1 ensures p in names {
      NamedNonEmpty(rows, p);
    }
  }

  /** Removes the single-game players of the current table from both the
      current and the previous table, with the same name set
      (generate_report.py:49-59). */
  method DropSingleGamePlayers(current: Table, previous: Table) returns (cur: Table, prev: Table)
    ensures cur == Table(current.columns, Without(current.rows, SingleGameSet(current.rows)))
    ensures prev == Table(previous.columns, Without(previous.rows, SingleGameSet(current.rows)))
  {
    var singles := SingleGamePlayers(current.rows);
    var excluded := set p | p in singles;
    assert excluded == SingleGameSet(current.rows) by {
      forall p | p in SingleGameSet(current.rows) ensures p in excluded { }
      forall p | p in excluded ensures p in SingleGameSet(current.rows) {
        NamedNonEmpty(current.rows, p);
      }
    }
    cur := Table(current.columns, Without(current.rows, excluded));
    prev := Table(previous.columns, Without(previous.rows, excluded));
  }

  /** Dropping players keeps every other row, as often as it occurred and in
      its original order, and removes every row of a dropped player. */
  lemma WithoutKeepsOthers(a: seq<GameRow>, b: seq<GameRow>, excluded: set<string>, x: GameRow)
    ensures Without(a + b, excluded) == Without(a, excluded) + Without(b, excluded)
    ensures multiset(Without(a, excluded))[x] == if x.name in excluded then 0 else multiset(a)[x]
  {
    WhereAppend(a, b, (r: GameRow) => r.name !in excluded);
    WhereMultiplicity(a, (r: GameRow) => r.name !in excluded, x);
  }

  lemma {:induction false} NamedWithout(rows: seq<GameRow>, excluded: set<string>, p: string)
    ensures Named(Without(rows, excluded), p) == if p in excluded then [] else Named(rows, p)
  {
    if rows != [] {
      NamedWithout(rows[1..], excluded, p);
      var head := if rows[0].name !in excluded then [rows[0]] else [];
      assert Without(rows, excluded) == head + Without(rows[1..], excluded);
      WhereAppend(head, Without(rows[1..], excluded), (r: GameRow) => r.name == p);
      assert Named(rows, p) == (if rows[0].name == p then [rows[0]] else []) + Named(rows[1..], p);
    }
  }

  /** After the filter every remaining player keeps all of their rows and
      has a number of recorded results other than one; a player whose every
      row has a result therefore has at least two games. */
  lemma FilterLeavesNoSingleGamePlayer(rows: seq<GameRow>, p: string)
    requires p in NameSet(Without(rows, SingleGameSet(rows)))
    ensures Named(Without(rows, SingleGameSet(rows)), p) == Named(rows, p) != []
    ensures |Recorded(Named(rows, p))| != 1
    ensures (forall r :: r in Named(rows, p) ==> r.outcome.Some?) ==> |Named(rows, p)| >= 2
  {
    var kept := Without(rows, SingleGameSet(rows));
    var r :| r in kept && r.name == p;
    assert r in Named(kept, p);
    NamedWithout(rows, SingleGameSet(rows), p);
    NamedNonEmpty(rows, p);
    if forall r :: r in Named(rows, p) ==> r.outcome.Some? {
      WhereAll(Named(rows, p), (r: GameRow) => r.outcome.Some?);
    }
  }

  /** A player with two rows, one of them with a blank `win_loss` cell, has
      one recorded result and is dropped; a player whose only row is blank has
      none and is kept. */
  lemma BlankResultsAreNotCounted()
    ensures var rows := [GameRow(20220601, "Al", "Bo", Some(true), map[]),
                         GameRow(20220608, "Al", "Cy", None, map[]),
                         GameRow(20220608, "Di", "Ed", None, map[])];
            && |Named(rows, "Al")| == 2 && "Al" in SingleGameSet(rows)
            && |Named(rows, "Di")| == 1 && "Di" !in SingleGameSet(rows)
  {
    var a := GameRow(20220601, "Al", "Bo", Some(true), map[]);
    var b := GameRow(20220608, "Al", "Cy", None, map[]);
    var c := GameRow(20220608, "Di", "Ed", None, map[]);
    var rows := [a, b, c];
    assert rows[1..] == [b, c] && [b, c][1..] == [c] && [c][1..] == [] && [a, b][1..] == [b] && [b][1..] == [];
    assert Named([c], "Al") == [] + Named([], "Al");
    assert Named([b, c], "Al") == [b] + Named([c], "Al");
    assert Named(rows, "Al") == [a] + Named([b, c], "Al");
    assert Recorded([b]) == [] + Recorded([]);
    assert Recorded([a, b]) == [a] + Recorded([b]);
    assert Named([c], "Di") == [c] + Named([], "Di");
    assert Named([b, c], "Di") == [] + Named([c], "Di");
    assert Named(rows, "Di") == [] + Named([b, c], "Di");
    assert Recorded([c]) == [] + Recorded([]);
    assert "Al" in NameSet(rows) && "Di" in NameSet(rows);
  }
}
