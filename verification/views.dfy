/** The views the dashboard derives from a loaded table: the table sorted newest first
    (app.py:69), the sensor list (line 76), the date window chosen on the slider
    (lines 84-96) and the second numeric pass over the selected sensors (lines 99-100). */
module Views {
  import opened Seqs
  import opened Stamps
  import opened Loader
  import Numeric
  import Text

  // ---------------------------------------------------------------- rows with a timestamp

  /** Every row carries a timestamp in column `k`. */
  predicate Dated(rows: seq<seq<Cell>>, k: nat) {
    forall row: seq<Cell> :: row in rows ==> k < |row| && row[k].Stamp?
  }

  /** The timestamp of a dated row. */
  function Moment(row: seq<Cell>, k: nat): DateTime
    requires k < |row| && row[k].Stamp?
  {
    row[k].d
  }

  /** Newest first: no row is later than a row before it. */
  predicate Descending(rows: seq<seq<Cell>>, k: nat)
    requires Dated(rows, k)
  {
    forall i, j :: 0 <= i < j < |rows| ==> NotAfter(Moment(rows[j], k), Moment(rows[i], k))
  }

  /** A head not earlier than anything in a newest-first tail gives a newest-first
      sequence. */
  lemma DescendingCons(x: seq<Cell>, s: seq<seq<Cell>>, k: nat)
    requires k < |x| && x[k].Stamp? && Dated(s, k) && Descending(s, k)
    requires forall row :: row in s ==> NotAfter(Moment(row, k), Moment(x, k))
    ensures Dated([x] + s, k) && Descending([x] + s, k)
  {
    var xs := [x] + s;
    forall row: seq<Cell> | row in xs ensures k < |row| && row[k].Stamp? {
      if row != x {
        assert row in s;
      }
    }
    forall i, j | 0 <= i < j < |xs| ensures NotAfter(Moment(xs[j], k), Moment(xs[i], k)) {
      var later := s[j - 1];
      assert xs[j] == later;
      if i == 0 {
        assert later in s;
        assert NotAfter(Moment(later, k), Moment(x, k));
      } else {
        var earlier := s[i - 1];
        assert xs[i] == earlier;
        assert NotAfter(Moment(later, k), Moment(earlier, k));
      }
    }
  }

  /** The tail of a newest-first sequence is newest first and not later than its head. */
  lemma DescendingTail(s: seq<seq<Cell>>, k: nat)
    requires |s| > 0 && Dated(s, k) && Descending(s, k)
    ensures Dated(s[1..], k) && Descending(s[1..], k) && k < |s[0]| && s[0][k].Stamp?
    ensures forall row :: row in s[1..] ==> NotAfter(Moment(row, k), Moment(s[0], k))
  {
    assert s[0] in s;
    forall row | row in s[1..] ensures row in s { }
    forall i, j | 0 <= i < j < |s| - 1 ensures NotAfter(Moment(s[1..][j], k), Moment(s[1..][i], k)) {
      assert s[1..][j] == s[j + 1] && s[1..][i] == s[i + 1];
    }
    forall row | row in s[1..] ensures NotAfter(Moment(row, k), Moment(s[0], k)) {
      var j :| 0 <= j < |s| - 1 && s[1..][j] == row;
      assert s[j + 1] == row;
    }
  }

  // ---------------------------------------------------------------- sort_values(ascending=False)

  /** `row` placed before the first row of `rows` that is not later than it. */
  function Insert(row: seq<Cell>, rows: seq<seq<Cell>>, k: nat): (r: seq<seq<Cell>>)
    requires k < |row| && row[k].Stamp? && Dated(rows, k)
    ensures multiset(r) == multiset(rows) + multiset{row}
    ensures Dated(r, k)
  {
    if rows == [] then [row]
    else
      assert rows == [rows[0]] + rows[1..];
      assert rows[0] in rows;
      forall x | x in rows[1..] ensures x in rows { }
      if NotAfter(Moment(rows[0], k), Moment(row, k)) then [row] + rows
      else
        var rest := Insert(row, rows[1..], k);
        forall x | x in [rows[0]] + rest ensures x in rows || x == row {
          if x != rows[0] {
            assert x in multiset(rest);
          }
        }
        [rows[0]] + rest
  }

  /** The rows ordered newest first. Ties may come out in any order in pandas (its
      default sort is not stable), so only the order and the multiset are promised. */
  function SortDesc(rows: seq<seq<Cell>>, k: nat): (r: seq<seq<Cell>>)
    requires Dated(rows, k)
    ensures multiset(r) == multiset(rows)
    ensures |r| == |rows|
    ensures Dated(r, k)
  {
    if rows == [] then []
    else
      assert rows == [rows[0]] + rows[1..];
      assert rows[0] in rows;
      forall x | x in rows[1..] ensures x in rows { }
      Insert(rows[0], SortDesc(rows[1..], k), k)
  }

  lemma {:induction false} InsertDescending(row: seq<Cell>, rows: seq<seq<Cell>>, k: nat)
    requires k < |row| && row[k].Stamp? && Dated(rows, k) && Descending(rows, k)
    ensures Descending(Insert(row, rows, k), k)
  {
    if rows != [] {
      assert rows == [rows[0]] + rows[1..];
      DescendingTail(rows, k);
      if NotAfter(Moment(rows[0], k), Moment(row, k)) {
        forall x | x in rows ensures NotAfter(Moment(x, k), Moment(row, k)) {
          if x != rows[0] {
            NotAfterTrans(Moment(x, k), Moment(rows[0], k), Moment(row, k));
          }
        }
        DescendingCons(row, rows, k);
      } else {
        var rest := Insert(row, rows[1..], k);
        InsertDescending(row, rows[1..], k);
        NotAfterTotal(Moment(rows[0], k), Moment(row, k));
        forall x | x in rest ensures NotAfter(Moment(x, k), Moment(rows[0], k)) {
          assert x in multiset(rest);
          if x != row {
            assert x in rows[1..];
          }
        }
        DescendingCons(rows[0], rest, k);
      }
    }
  }

  /** The sorted rows are newest first. */
  lemma {:induction false} SortDescOrdered(rows: seq<seq<Cell>>, k: nat)
    requires Dated(rows, k)
    ensures Descending(SortDesc(rows, k), k)
  {
    if rows != [] {
      assert rows[0] in rows;
      forall x | x in rows[1..] ensures x in rows { }
      SortDescOrdered(rows[1..], k);
      InsertDescending(rows[0], SortDesc(rows[1..], k), k);
    }
  }

  /** Position of the "datetime" column of a cleaned table. */
  function DatetimeIndex(t: Table): nat
    requires "datetime" in t.columns
  {
    IndexOf(t.columns, "datetime").value
  }

  lemma CleanDated(t: Table)
    requires Clean(t)
    ensures Dated(t.rows, DatetimeIndex(t))
  {
    forall row: seq<Cell> | row in t.rows ensures DatetimeIndex(t) < |row| && row[DatetimeIndex(t)].Stamp? {
      var i :| 0 <= i < |t.rows| && t.rows[i] == row;
    }
  }

  /** `df.sort_values(by="datetime", ascending=False)`: the same rows, newest first. */
  function SortedView(t: Table): (r: Table)
    requires Clean(t)
    ensures r.columns == t.columns && multiset(r.rows) == multiset(t.rows)
    ensures Dated(r.rows, DatetimeIndex(t)) && Descending(r.rows, DatetimeIndex(t))
  {
    CleanDated(t);
    SortDescOrdered(t.rows, DatetimeIndex(t));
    Table(t.columns, SortDesc(t.rows, DatetimeIndex(t)))
  }

  /** The timestamps of a clean table have their fields in range. */
  lemma CleanInRange(t: Table)
    requires Clean(t)
    ensures Dated(t.rows, DatetimeIndex(t))
    ensures forall row :: row in t.rows ==> InRange(Moment(row, DatetimeIndex(t)))
  {
    CleanDated(t);
    forall row | row in t.rows ensures InRange(Moment(row, DatetimeIndex(t))) {
      var i :| 0 <= i < |t.rows| && t.rows[i] == row;
      ValidYear(Moment(row, DatetimeIndex(t)));
    }
  }

  /** Every timestamp of a clean table is a real instant, so newest first is Python's
      datetime order read field by field: year, month, day, hour, minute, second. */
  lemma SortedViewFieldOrder(t: Table)
    requires Clean(t)
    ensures var k := DatetimeIndex(t); var sorted := SortedView(t).rows;
      forall i, j :: 0 <= i < j < |sorted| ==> LexLe(Fields(Moment(sorted[j], k)), Fields(Moment(sorted[i], k)))
  {
    var k := DatetimeIndex(t);
    var sorted := SortedView(t).rows;
    CleanInRange(t);
    forall i, j | 0 <= i < j < |sorted|
      ensures LexLe(Fields(Moment(sorted[j], k)), Fields(Moment(sorted[i], k)))
    {
      assert sorted[i] in multiset(sorted) && sorted[j] in multiset(sorted);
      NotAfterIsLexicographic(Moment(sorted[j], k), Moment(sorted[i], k));
    }
  }

  // ---------------------------------------------------------------- sensors

  predicate IsSensor(c: string) {
    c != "datetime"
  }

  /** `[col for col in df.columns if col != "datetime"]`. */
  function Sensors(columns: seq<string>): (r: seq<string>)
    ensures forall c :: c in r <==> c in columns && c != "datetime"
  {
    Filter(columns, IsSensor)
  }

  /** With distinct labels, the sensor list is the label list with the "datetime" label
      cut out, in order. */
  lemma SensorsSkipDatetime(columns: seq<string>)
    requires Distinct(columns) && "datetime" in columns
    ensures var k := IndexOf(columns, "datetime").value;
      Sensors(columns) == columns[..k] + columns[k + 1..]
  {
    var k := IndexOf(columns, "datetime").value;
    forall i | 0 <= i < |columns| && i != k ensures IsSensor(columns[i]) {
      if i < k {
        assert columns[i] != columns[k];
      } else {
        assert columns[k] != columns[i];
      }
    }
    FilterAllBut(columns, IsSensor, k);
  }

  // ---------------------------------------------------------------- the date window

  /** The mask `(datetime >= start) & (datetime <= end)`. */
  function InWindow(k: nat, start: DateTime, end: DateTime): seq<Cell> -> bool {
    (row: seq<Cell>) => k < |row| && row[k].Stamp? && NotAfter(start, row[k].d) && NotAfter(row[k].d, end)
  }

  /** `df_sorted[(df_sorted["datetime"] >= start) & (df_sorted["datetime"] <= end)]`. */
  function Window(rows: seq<seq<Cell>>, k: nat, start: DateTime, end: DateTime): (r: seq<seq<Cell>>)
    ensures forall row: seq<Cell> :: row in r <==>
      (row in rows && k < |row| && row[k].Stamp? && NotAfter(start, row[k].d) && NotAfter(row[k].d, end))
    ensures Dated(r, k)
  {
    Filter(rows, InWindow(k, start, end))
  }

  /** The window keeps the newest-first order of the sorted view. */
  lemma {:induction false} WindowDescending(rows: seq<seq<Cell>>, k: nat, start: DateTime, end: DateTime)
    requires Dated(rows, k) && Descending(rows, k)
    ensures Descending(Window(rows, k, start, end), k)
  {
    if rows != [] {
      assert rows == [rows[0]] + rows[1..];
      DescendingTail(rows, k);
      WindowDescending(rows[1..], k, start, end);
      var rest := Window(rows[1..], k, start, end);
      if InWindow(k, start, end)(rows[0]) {
        assert Window(rows, k, start, end) == [rows[0]] + rest;
        DescendingCons(rows[0], rest, k);
      } else {
        assert Window(rows, k, start, end) == rest;
      }
    }
  }

  /** The rest of a dated sequence is dated. */
  lemma DatedTail(rows: seq<seq<Cell>>, k: nat)
    requires |rows| > 0 && Dated(rows, k)
    ensures k < |rows[0]| && rows[0][k].Stamp? && Dated(rows[1..], k)
  {
    assert rows[0] in rows;
    forall x | x in rows[1..] ensures x in rows { }
  }

  /** `df["datetime"].min()`. */
  function MinMoment(rows: seq<seq<Cell>>, k: nat): (r: DateTime)
    requires |rows| > 0 && Dated(rows, k)
    ensures exists i :: 0 <= i < |rows| && rows[i][k] == Stamp(r)
  {
    DatedTail(rows, k);
    if |rows| == 1 then Moment(rows[0], k)
    else
      var rest := MinMoment(rows[1..], k);
      assert forall i :: 0 <= i < |rows| - 1 ==> rows[1..][i] == rows[i + 1];
      if NotAfter(Moment(rows[0], k), rest) then Moment(rows[0], k) else rest
  }

  /** `df["datetime"].max()`. */
  function MaxMoment(rows: seq<seq<Cell>>, k: nat): (r: DateTime)
    requires |rows| > 0 && Dated(rows, k)
    ensures exists i :: 0 <= i < |rows| && rows[i][k] == Stamp(r)
  {
    DatedTail(rows, k);
    if |rows| == 1 then Moment(rows[0], k)
    else
      var rest := MaxMoment(rows[1..], k);
      assert forall i :: 0 <= i < |rows| - 1 ==> rows[1..][i] == rows[i + 1];
      if NotAfter(rest, Moment(rows[0], k)) then Moment(rows[0], k) else rest
  }

  /** The minimum is the timestamp of some row and not later than any row's. */
  lemma {:induction false} MinMomentLeast(rows: seq<seq<Cell>>, k: nat)
    requires |rows| > 0 && Dated(rows, k)
    ensures forall row :: row in rows ==> NotAfter(MinMoment(rows, k), Moment(row, k))
  {
    DatedTail(rows, k);
    var m, here := MinMoment(rows, k), Moment(rows[0], k);
    NotAfterTotal(here, here);
    if |rows| == 1 {
      assert rows == [rows[0]];
      assert rows[0][k] == Stamp(m);
    } else {
      var rest := MinMoment(rows[1..], k);
      MinMomentLeast(rows[1..], k);
      assert rows == [rows[0]] + rows[1..];
      NotAfterTotal(here, rest);
      forall row | row in rows ensures NotAfter(m, Moment(row, k)) {
        if row != rows[0] {
          assert row in rows[1..];
          if m == here {
            NotAfterTrans(here, rest, Moment(row, k));
          }
        }
      }
    }
  }

  /** The maximum is the timestamp of some row and not earlier than any row's. */
  lemma {:induction false} MaxMomentGreatest(rows: seq<seq<Cell>>, k: nat)
    requires |rows| > 0 && Dated(rows, k)
    ensures forall row :: row in rows ==> NotAfter(Moment(row, k), MaxMoment(rows, k))
  {
    DatedTail(rows, k);
    var m, here := MaxMoment(rows, k), Moment(rows[0], k);
    NotAfterTotal(here, here);
    if |rows| == 1 {
      assert rows == [rows[0]];
      assert rows[0][k] == Stamp(m);
    } else {
      var rest := MaxMoment(rows[1..], k);
      MaxMomentGreatest(rows[1..], k);
      assert rows == [rows[0]] + rows[1..];
      NotAfterTotal(here, rest);
      forall row | row in rows ensures NotAfter(Moment(row, k), m) {
        if row != rows[0] {
          assert row in rows[1..];
          if m == here {
            NotAfterTrans(Moment(row, k), rest, here);
          }
        }
      }
    }
  }

  /** The slider's initial window, from the earliest to the latest timestamp of `rows`,
      keeps every row of any view drawn from `rows`. */
  lemma FullWindowKeepsAll(rows: seq<seq<Cell>>, view: seq<seq<Cell>>, k: nat)
    requires |rows| > 0 && Dated(rows, k)
    requires forall row :: row in view ==> row in rows
    ensures Window(view, k, MinMoment(rows, k), MaxMoment(rows, k)) == view
  {
    var lo, hi := MinMoment(rows, k), MaxMoment(rows, k);
    MinMomentLeast(rows, k);
    MaxMomentGreatest(rows, k);
    forall i | 0 <= i < |view| ensures InWindow(k, lo, hi)(view[i]) {
      assert view[i] in rows;
    }
    FilterKeepsAll(view, InWindow(k, lo, hi));
  }

  // ---------------------------------------------------------------- the second numeric pass

  /** Every cell outside the "datetime" column is a number or NaN. */
  predicate NumericSensors(columns: seq<string>, rows: seq<seq<Cell>>) {
    forall row: seq<Cell>, c :: row in rows && 0 <= c < |columns| && columns[c] != "datetime" ==>
      c < |row| && (row[c].Num? || row[c].Missing?)
  }

  /** `pd.to_numeric(cell, errors="coerce")` on one cell of the window: a number stays,
      NaN and a timestamp become NaN, and text is read as it stands, with no ','
      rewritten first. */
  function ToNumber(c: Cell): (r: Cell)
    ensures r.Num? || r.Missing?
    ensures c.Num? ==> r == c
    ensures c.Missing? || c.Stamp? ==> r == Missing
  {
    match c
    case Str(s) => (match Numeric.ToNumeric(s) case Some(n) => Num(n) case None => Missing)
    case Num(_) => c
    case Missing => Missing
    case Stamp(_) => Missing
  }

  /** The window's coercion is the loading step's without the comma rewrite: the two
      agree on every cell but text holding a ',', which the loading step rewrites first
      and this one rejects. */
  lemma ToNumberAgainstCoerce(c: Cell)
    ensures c.Str? ==> Coerce(c) == ToNumber(Str(Text.ReplaceCommas(c.s)))
    ensures !c.Str? || ',' !in c.s ==> Coerce(c) == ToNumber(c)
    ensures c.Str? && ',' in c.s ==> ToNumber(c) == Missing
  {
    if c.Str? && ',' !in c.s {
      Numeric.ReplaceCommasNoComma(c.s);
    }
  }

  /** `df_filtered[col] = pd.to_numeric(df_filtered[col], errors="coerce")` for every
      selected label `col`: the selected columns are coerced cell by cell, every other
      cell and the shape are kept. */
  function Recoerce(columns: seq<string>, rows: seq<seq<Cell>>, selected: seq<string>): (r: seq<seq<Cell>>)
    ensures |r| == |rows|
    ensures forall i :: 0 <= i < |rows| ==> |r[i]| == |rows[i]|
    ensures forall i, c :: 0 <= i < |rows| && 0 <= c < |rows[i]| && c < |columns| && columns[c] in selected ==>
      (r[i][c].Num? || r[i][c].Missing?) && (rows[i][c].Num? ==> r[i][c] == rows[i][c])
    ensures forall i, c :: 0 <= i < |rows| && 0 <= c < |rows[i]| && !(c < |columns| && columns[c] in selected) ==>
      r[i][c] == rows[i][c]
  {
    seq(|rows|, i requires 0 <= i < |rows| =>
      seq(|rows[i]|, c requires 0 <= c < |rows[i]| =>
        if c < |columns| && columns[c] in selected then ToNumber(rows[i][c]) else rows[i][c]))
  }

  /** On numeric sensor columns the second pass changes nothing. */
  lemma RecoerceNoOp(columns: seq<string>, rows: seq<seq<Cell>>, selected: seq<string>)
    requires NumericSensors(columns, rows)
    requires forall c :: c in selected ==> c != "datetime"
    ensures Recoerce(columns, rows, selected) == rows
  {
    var r := Recoerce(columns, rows, selected);
    forall i | 0 <= i < |rows| ensures r[i] == rows[i] {
      assert rows[i] in rows;
      forall c | 0 <= c < |rows[i]| ensures r[i][c] == rows[i][c] {
        if c < |columns| && columns[c] in selected {
          assert columns[c] != "datetime";
        }
      }
    }
  }

  // ---------------------------------------------------------------- the whole view

  /** A loaded table with at least one row is clean and numeric outside "datetime". */
  lemma LoadReady(sheet: Sheet)
    requires Load(sheet).Ok? && |Load(sheet).value.rows| > 0
    ensures Clean(Load(sheet).value)
    ensures NumericSensors(Load(sheet).value.columns, Load(sheet).value.rows)
  {
    LoadClean(sheet);
    LoadSensorsNumeric(sheet);
    NumericByRow(Load(sheet).value);
  }

  /** Numeric cells stated row by row give `NumericSensors`. */
  lemma NumericByRow(t: Table)
    requires Rectangular(t)
    requires forall i, c :: 0 <= i < |t.rows| && 0 <= c < |t.columns| && t.columns[c] != "datetime" ==>
      t.rows[i][c].Num? || t.rows[i][c].Missing?
    ensures NumericSensors(t.columns, t.rows)
  {
    forall row: seq<Cell>, c | row in t.rows && 0 <= c < |t.columns| && t.columns[c] != "datetime"
      ensures c < |row| && (row[c].Num? || row[c].Missing?)
    {
      var i :| 0 <= i < |t.rows| && t.rows[i] == row;
    }
  }

  /** What the main body computes from a clean, non-empty table whose sensor columns
      are numeric: the sorted view is newest first and holds the table's rows; the
      window over it is newest first; the slider's initial window shows the whole
      sorted view; and the second numeric pass leaves any window as it is. */
  lemma ViewOfClean(t: Table, start: DateTime, end: DateTime, selected: seq<string>)
    requires Clean(t) && |t.rows| > 0 && NumericSensors(t.columns, t.rows)
    requires forall c :: c in selected ==> c in Sensors(t.columns)
    ensures Dated(t.rows, DatetimeIndex(t))
    ensures var k := DatetimeIndex(t);
      var sorted := SortedView(t).rows; var shown := Window(sorted, k, start, end);
      && multiset(sorted) == multiset(t.rows)
      && Descending(sorted, k) && Descending(shown, k)
      && Window(sorted, k, MinMoment(t.rows, k), MaxMoment(t.rows, k)) == sorted
      && Recoerce(t.columns, shown, selected) == shown
  {
    var k := DatetimeIndex(t);
    CleanDated(t);
    var sorted := SortedView(t).rows;
    var shown := Window(sorted, k, start, end);
    WindowDescending(sorted, k, start, end);
    SortedRowsFromTable(t);
    FullWindowKeepsAll(t.rows, sorted, k);
    NumericSubset(t.columns, t.rows, shown);
    RecoerceNoOp(t.columns, shown, selected);
  }

  /** The sorted view holds only rows of the table. */
  lemma SortedRowsFromTable(t: Table)
    requires Clean(t)
    ensures forall row :: row in SortedView(t).rows ==> row in t.rows
  {
    var sorted := SortedView(t).rows;
    forall row | row in sorted ensures row in t.rows {
      assert row in multiset(sorted);
    }
  }

  /** Rows taken from numeric rows are numeric. */
  lemma NumericSubset(columns: seq<string>, rows: seq<seq<Cell>>, sub: seq<seq<Cell>>)
    requires NumericSensors(columns, rows)
    requires forall row :: row in sub ==> row in rows
    ensures NumericSensors(columns, sub)
  {
  }
}
