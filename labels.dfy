/** The per-player block of the report, `get_simplified_results_per_player`
    (generate_report.py:197-226): for each player, display label -> value
    with a '%' suffix on the percentage columns. The text of a number
    (`f"{value}"`) is kept as the number itself. */
module Labels {
  import opened Results
  import opened Text
  import opened Rows
  import opened Aggregate

  /** Columns left out of the per-player block (generate_report.py:210-214). */
  predicate IsHidden(c: string)
  {
    c == "name" || c == "points_for" || c == "points_against" || c == "positive" || c == "pass_rating"
  }

  /** Columns shown with a '%' suffix (generate_report.py:217-220). */
  predicate IsPercentShown(c: string)
  {
    c == "serving_percentage" || c == "hitting_efficiency" || c == "win_rate"
  }

  /** `c.replace('_', ' ').replace('2', ':').title()` (generate_report.py:221). */
  function Label(c: string): string
  {
    Title(ReplaceChar(ReplaceChar(c, '_', ' '), '2', ':'))
  }

  /** A label keeps the column name's length, is in title case, and has
      neither underscores nor the digit 2 left. */
  lemma LabelFacts(c: string)
    ensures |Label(c)| == |c|
    ensures Title(Label(c)) == Label(c)
    ensures forall i :: 0 <= i < |c| ==> Label(c)[i] != '_' && Label(c)[i] != '2'
  {
    var s := ReplaceChar(ReplaceChar(c, '_', ' '), '2', ':');
    TitleSpec(s);
    TitleIdempotent(s);
    forall i | 0 <= i < |c| ensures Label(c)[i] != '_' && Label(c)[i] != '2' {
      assert s[i] != '_' && s[i] != '2';
      TitleCharKeepsCase(s[i], i > 0 && IsCased(s[i - 1]));
    }
  }

  function Suffix(c: string): string
  {
    if IsPercentShown(c) then "%" else ""
  }

  /** The columns of `important_stats`, in order (generate_report.py:210-214). */
  function ShownColumns(columns: seq<string>): (shown: seq<string>)
    ensures forall c {:trigger c in shown} :: c in shown <==> c in columns && !IsHidden(c)
  {
    if columns == [] then []
    else (if IsHidden(columns[0]) then [] else [columns[0]]) + ShownColumns(columns[1..])
  }

  /** A displayed value: the number (None for NaN) and its suffix. */
  datatype Shown = Shown(value: Option<real>, suffix: string)

  /** The block of one player: the labelled values of the shown columns,
      assigned in column order into a dict (generate_report.py:215-221). */
  function BlockOf(row: StatRow, shown: seq<string>): map<string, Shown>
    requires forall c :: c in shown ==> c in row.cells
  {
    if shown == [] then map[]
    else
      var c := shown[|shown| - 1];
      BlockOf(row, shown[..|shown| - 1])[Label(c) := Shown(row.cells[c], Suffix(c))]
  }

  /** `m` has one entry per label of a shown column; when two columns share
      a label, the later column's value is the one kept. */
  predicate IsPlayerBlock(m: map<string, Shown>, row: StatRow, shown: seq<string>)
  {
    && m.Keys == (set c | c in shown :: Label(c))
    && forall i :: 0 <= i < |shown|
         && (forall j :: i < j < |shown| ==> Label(shown[j]) != Label(shown[i]))
         ==> shown[i] in row.cells && m[Label(shown[i])] == Shown(row.cells[shown[i]], Suffix(shown[i]))
  }

  /** The dict built by the assignments has exactly the shown columns'
      labels as keys. */
  lemma {:induction false} BlockOfKeys(row: StatRow, shown: seq<string>)
    requires forall c :: c in shown ==> c in row.cells
    ensures BlockOf(row, shown).Keys == set c | c in shown :: Label(c)
  {
    if shown != [] {
      var k := |shown| - 1;
      assert shown == shown[..k] + [shown[k]];
      BlockOfKeys(row, shown[..k]);
    }
  }

  /** Under each label, the dict holds the value of the last shown column
      with that label. */
  lemma {:induction false} BlockOfLastWins(row: StatRow, shown: seq<string>, i: int)
    requires forall c :: c in shown ==> c in row.cells
    requires 0 <= i < |shown|
    requires forall j :: i < j < |shown| ==> Label(shown[j]) != Label(shown[i])
    ensures Label(shown[i]) in BlockOf(row, shown)
    ensures BlockOf(row, shown)[Label(shown[i])] == Shown(row.cells[shown[i]], Suffix(shown[i]))
  {
    var k := |shown| - 1;
    var init := shown[..k];
    assert BlockOf(row, shown) == BlockOf(row, init)[Label(shown[k]) := Shown(row.cells[shown[k]], Suffix(shown[k]))];
    if i < k {
      assert Label(shown[k]) != Label(shown[i]);
      assert init[i] == shown[i];
      forall j | i < j < |init| ensures Label(init[j]) != Label(init[i]) {
        assert init[j] == shown[j];
      }
      BlockOfLastWins(row, init, i);
    }
  }

  lemma BlockOfIsPlayerBlock(row: StatRow, shown: seq<string>)
    requires forall c :: c in shown ==> c in row.cells
    ensures IsPlayerBlock(BlockOf(row, shown), row, shown)
  {
    BlockOfKeys(row, shown);
    forall i | 0 <= i < |shown| && (forall j :: i < j < |shown| ==> Label(shown[j]) != Label(shown[i]))
      ensures shown[i] in row.cells && BlockOf(row, shown)[Label(shown[i])] == Shown(row.cells[shown[i]], Suffix(shown[i]))
    {
      BlockOfLastWins(row, shown, i);
    }
  }

  /** The block of one player, filled column by column (generate_report.py:215-221). */
  method PlayerBlock(row: StatRow, shown: seq<string>) returns (m: map<string, Shown>)
    requires forall c :: c in shown ==> c in row.cells
    ensures m == BlockOf(row, shown)
  {
    m := map[];
    for k := 0 to |shown|
      invariant m == BlockOf(row, shown[..k])
    {
      assert shown[..k + 1][..k] == shown[..k];
      m := m[Label(shown[k]) := Shown(row.cells[shown[k]], Suffix(shown[k]))];
    }
    assert shown[..|shown|] == shown;
  }

  /** Every shown column has a value in `row`. */
  predicate ShownCells(t: StatTable, row: StatRow)
  {
    forall c :: c in ShownColumns(t.columns) ==> c in row.cells
  }

  /** With distinct names, row `k` adds a name not seen before it. */
  lemma NamesSoFar(rows: seq<StatRow>, k: int)
    requires Distinct(RowNames(rows)) && 0 <= k < |rows|
    ensures (set r | r in rows[..k + 1] :: r.name) == (set r | r in rows[..k] :: r.name) + {rows[k].name}
    ensures forall i :: 0 <= i < k ==> rows[i].name != rows[k].name
  {
    assert rows[..k + 1] == rows[..k] + [rows[k]];
    forall i | 0 <= i < k ensures rows[i].name != rows[k].name {
      assert RowNames(rows)[i] != RowNames(rows)[k];
    }
  }

  /** The per-player blocks, keyed by player (generate_report.py:206-226). */
  method SimplifiedResults(t: StatTable) returns (res: map<string, map<string, Shown>>)
    requires HasCells(t)
    requires Distinct(RowNames(t.rows))
    ensures res.Keys == set r | r in t.rows :: r.name
    ensures forall i :: 0 <= i < |t.rows| ==>
              ShownCells(t, t.rows[i]) && res[t.rows[i].name] == BlockOf(t.rows[i], ShownColumns(t.columns))
  {
    var shown := ShownColumns(t.columns);
    res := map[];
    for k := 0 to |t.rows|
      invariant res.Keys == set r | r in t.rows[..k] :: r.name
      invariant forall i :: 0 <= i < k ==> ShownCells(t, t.rows[i]) && res[t.rows[i].name] == BlockOf(t.rows[i], shown)
    {
      var row := t.rows[k];
      var block := PlayerBlock(row, shown);
      NamesSoFar(t.rows, k);
      res := res[row.name := block];
    }
    assert t.rows[..|t.rows|] == t.rows;
  }
}
