/** The spreadsheet rows once they are in memory: one `GameRow` per player
    per game, and a `Table` that also keeps the spreadsheet's column names.
    Selections, counts, sums and means over rows are defined here once. */
module Rows {
  import opened Results

  /** One row of the stats spreadsheet. `date` is a calendar date encoded so
      that integer order is date order (yyyymmdd); `outcome` is the `win_loss`
      cell: `None` when it is blank, `Some(true)` when it reads 'win' and
      `Some(false)` for any other entry;
      `stats` holds the numeric columns (kills, aces, missed_serves, ...). */
  datatype GameRow = GameRow(date: int, name: string, partner: string, outcome: Option<bool>, stats: map<string, real>)

  /** A loaded snapshot: the spreadsheet's column names, in order, and its rows. */
  datatype Table = Table(columns: seq<string>, rows: seq<GameRow>)

  /** The rows that satisfy `p`, in their original order (pandas boolean
      indexing `data[mask]`). */
  function Where(rows: seq<GameRow>, p: GameRow -> bool): (r: seq<GameRow>)
    ensures |r| <= |rows|
    ensures forall x :: x in r <==> x in rows && p(x)
  {
    if rows == [] then []
    else (if p(rows[0]) then [rows[0]] else []) + Where(rows[1..], p)
  }

  lemma {:induction false} WhereAppend(a: seq<GameRow>, b: seq<GameRow>, p: GameRow -> bool)
    ensures Where(a + b, p) == Where(a, p) + Where(b, p)
  {
    if a != [] {
      assert (a + b)[0] == a[0] && (a + b)[1..] == a[1..] + b;
      WhereAppend(a[1..], b, p);
    } else {
      assert a + b == b;
    }
  }

  lemma {:induction false} WhereAll(rows: seq<GameRow>, p: GameRow -> bool)
    requires forall x :: x in rows ==> p(x)
    ensures Where(rows, p) == rows
  {
    if rows != [] {
      WhereAll(rows[1..], p);
    }
  }

  /** Each row is kept as often as it occurs, or dropped entirely. */
  lemma {:induction false} WhereMultiplicity(rows: seq<GameRow>, p: GameRow -> bool, x: GameRow)
    ensures multiset(Where(rows, p))[x] == if p(x) then multiset(rows)[x] else 0
  {
    if rows != [] {
      WhereMultiplicity(rows[1..], p, x);
      assert rows == [rows[0]] + rows[1..];
    }
  }

  /** The rows of one player (`data[data['name'] == player]`). */
  function Named(rows: seq<GameRow>, player: string): seq<GameRow>
  {
    Where(rows, (r: GameRow) => r.name == player)
  }

  /** The rows dated on or before `d` (`data[data['date'] <= d]`). */
  function UpTo(rows: seq<GameRow>, d: int): seq<GameRow>
  {
    Where(rows, (r: GameRow) => r.date <= d)
  }

  /** `win_loss == 'win'`: a blank cell is not a win. */
  function IsWin(r: GameRow): bool { r.outcome == Some(true) }

  /** The rows with a `win_loss` entry, the ones `count()` counts in that
      column. */
  function Recorded(rows: seq<GameRow>): seq<GameRow>
  {
    Where(rows, (r: GameRow) => r.outcome.Some?)
  }

  /** Number of won rows. */
  function Wins(rows: seq<GameRow>): (w: nat)
    ensures w <= |rows|
  {
    |Where(rows, IsWin)|
  }

  lemma AllWins(rows: seq<GameRow>)
    requires forall r :: r in rows ==> IsWin(r)
    ensures Wins(rows) == |rows|
  {
    WhereAll(rows, IsWin);
  }

  /** `part / whole` for a count out of a positive total. */
  function Fraction(part: nat, whole: nat): (r: real)
    requires part <= whole && whole > 0
    ensures 0.0 <= r <= 1.0
    ensures r * whole as real == part as real
    ensures part == whole ==> r == 1.0
  {
    part as real / whole as real
  }

  function NameSet(rows: seq<GameRow>): set<string>
  {
    set r | r in rows :: r.name
  }

  function DateSet(rows: seq<GameRow>): set<int>
  {
    set r | r in rows :: r.date
  }

  /** Every row has a numeric value in column `c`. */
  predicate HasColumn(rows: seq<GameRow>, c: string)
  {
    forall r :: r in rows ==> c in r.stats
  }

  /** The values of column `c`, in row order. */
  function Column(rows: seq<GameRow>, c: string): (xs: seq<real>)
    requires HasColumn(rows, c)
    ensures |xs| == |rows|
  {
    seq(|rows|, i requires 0 <= i < |rows| => rows[i].stats[c])
  }

  function Sum(xs: seq<real>): real
  {
    if xs == [] then 0.0 else xs[0] + Sum(xs[1..])
  }

  /** Arithmetic mean; `None` is the NaN that the mean of nothing yields. */
  function Mean(xs: seq<real>): (m: Option<real>)
    ensures m.None? <==> xs == []
    ensures m.Some? ==> m.value * |xs| as real == Sum(xs)
  {
    if xs == [] then None
    else
      var n := |xs| as real;
      assert (Sum(xs) / n) * n == Sum(xs);
      Some(Sum(xs) / n)
  }

  /** A mean is never negative when the total is not. */
  lemma MeanNonNegative(xs: seq<real>)
    requires xs != [] && Sum(xs) >= 0.0
    ensures Mean(xs).value >= 0.0
  {
  }

  lemma {:induction false} SumAtLeast(xs: seq<real>, lo: real)
    requires forall x :: x in xs ==> lo <= x
    ensures lo * |xs| as real <= Sum(xs)
  {
    if xs != [] {
      assert xs[0] in xs && forall x :: x in xs[1..] ==> x in xs;
      SumAtLeast(xs[1..], lo);
      assert lo * |xs| as real == lo + lo * |xs[1..]| as real;
    }
  }

  lemma {:induction false} SumAtMost(xs: seq<real>, hi: real)
    requires forall x :: x in xs ==> x <= hi
    ensures Sum(xs) <= hi * |xs| as real
  {
    if xs != [] {
      assert xs[0] in xs && forall x :: x in xs[1..] ==> x in xs;
      SumAtMost(xs[1..], hi);
      assert hi * |xs| as real == hi + hi * |xs[1..]| as real;
    }
  }

  /** A mean lies between any bounds of the values it averages. */
  lemma MeanWithin(xs: seq<real>, lo: real, hi: real)
    requires xs != []
    requires forall x :: x in xs ==> lo <= x <= hi
    ensures lo <= Mean(xs).value <= hi
  {
    SumAtLeast(xs, lo);
    SumAtMost(xs, hi);
    var n := |xs| as real;
    assert Mean(xs).value * n == Sum(xs);
  }

  lemma {:induction false} SumNonNegative(xs: seq<real>)
    requires forall x :: x in xs ==> x >= 0.0
    ensures Sum(xs) >= 0.0
  {
    if xs != [] {
      assert xs[0] in xs && forall x :: x in xs[1..] ==> x in xs;
      SumNonNegative(xs[1..]);
    }
  }

  /** The `name` column, in row order. */
  function Names(rows: seq<GameRow>): (ns: seq<string>)
    ensures |ns| == |rows|
    ensures forall i :: 0 <= i < |rows| ==> ns[i] == rows[i].name
  {
    seq(|rows|, i requires 0 <= i < |rows| => rows[i].name)
  }

  lemma NamesAreNameSet(rows: seq<GameRow>)
    ensures forall p :: p in Names(rows) <==> p in NameSet(rows)
  {
    var ns := Names(rows);
    forall p | p in NameSet(rows) ensures p in ns {
      var r :| r in rows && r.name == p;
      var i :| 0 <= i < |rows| && rows[i] == r;
      assert ns[i] == p;
    }
  }

  lemma NamedNonEmpty(rows: seq<GameRow>, p: string)
    requires |Named(rows, p)| > 0
    ensures p in NameSet(rows)
  {
    assert Named(rows, p)[0] in Named(rows, p);
  }

  predicate Distinct(xs: seq<string>)
  {
    forall i, j :: 0 <= i < j < |xs| ==> xs[i] != xs[j]
  }

  /** The position of the first occurrence of `x` in `xs`. */
  function FirstAt(xs: seq<string>, x: string): (k: nat)
    requires x in xs
    ensures k < |xs| && xs[k] == x && x !in xs[..k]
  {
    if xs[0] == x then 0
    else
      var k := 1 + FirstAt(xs[1..], x);
      assert xs[..k] == [xs[0]] + xs[1..][..k - 1];
      k
  }

  /** pandas `unique()`: the distinct values, each once, in order of first
      appearance. */
  method Unique(xs: seq<string>) returns (ys: seq<string>)
    ensures Distinct(ys)
    ensures forall x :: x in ys <==> x in xs
    ensures forall i, j :: 0 <= i < j < |ys| ==> FirstAt(xs, ys[i]) < FirstAt(xs, ys[j])
  {
    ys := [];
    for i := 0 to |xs|
      invariant Distinct(ys)
      invariant forall x :: x in ys <==> x in xs[..i]
      invariant forall y :: y in ys ==> FirstAt(xs, y) < i
      invariant forall a :: 0 <= a < |ys| ==> ys[a] in xs
      invariant forall a, b :: 0 <= a < b < |ys| ==> FirstAt(xs, ys[a]) < FirstAt(xs, ys[b])
    {
      assert xs[..i + 1] == xs[..i] + [xs[i]];
      if xs[i] !in ys {
        ys := ys + [xs[i]];
      }
    }
    assert xs[..|xs|] == xs;
  }

  /** The distinct player names of a table (`data['name'].unique()`). */
  method UniqueNames(rows: seq<GameRow>) returns (names: seq<string>)
    ensures Distinct(names)
    ensures forall p :: p in names <==> p in NameSet(rows)
    ensures forall i, j :: 0 <= i < j < |names| ==>
      names[i] in Names(rows) && names[j] in Names(rows) && FirstAt(Names(rows), names[i]) < FirstAt(Names(rows), names[j])
  {
    names := Unique(Names(rows));
    NamesAreNameSet(rows);
  }
}
