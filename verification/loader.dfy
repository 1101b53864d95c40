/** `load_data`: export-link rewrite, header cleaning, comma-decimal coercion,
    timestamp-column detection, timestamp parsing, column pruning and row cleanup.
    The pipeline is stated once as functions on tables (`Load` and its stages) and
    once as the step-by-step updates the code performs on its data frame (`Frame`,
    `LoadData`), which are proved to compute the same thing. */
module Loader {
  import opened Wrappers
  import opened Text
  import opened Seqs
  import opened Numeric
  import opened Stamps

  /** One cell of a data frame: text as read, a number, NaN/NaT, or a timestamp. */
  datatype Cell = Str(s: string) | Num(n: Number) | Missing | Stamp(d: DateTime)

  /** A data frame: column labels and rows of cells, row-major. */
  datatype Table = Table(columns: seq<string>, rows: seq<seq<Cell>>)

  predicate Rectangular(t: Table) {
    forall i :: 0 <= i < |t.rows| ==> |t.rows[i]| == |t.columns|
  }

  /** What `pd.read_csv` hands over: every row is as wide as the header. */
  type Sheet = t: Table | Rectangular(t) witness Table([], [])

  /** The ways `load_data` ends without a table: the export cannot be read, a column
      label occurs twice after cleaning, or a label given to `drop`/`dropna` is absent. */
  datatype LoadError = FetchFailed | DuplicateColumns | KeyError(column: string)

  predicate Distinct(columns: seq<string>) {
    forall i, j :: 0 <= i < j < |columns| ==> columns[i] != columns[j]
  }

  /** Position of the label `name`, if present (the first one). */
  function IndexOf(columns: seq<string>, name: string): (r: Option<nat>)
    ensures r.Some? ==> r.value < |columns| && columns[r.value] == name
    ensures r.Some? ==> forall j :: 0 <= j < r.value ==> columns[j] != name
    ensures r.None? <==> name !in columns
  {
    if columns == [] then None
    else if columns[0] == name then Some(0)
    else match IndexOf(columns[1..], name)
      case None => None
      case Some(k) => Some(k + 1)
  }

  // ---------------------------------------------------------------- export link

  /** The CSV export address of a shared sheet: the text before the first "/edit",
      followed by "/export?format=csv"; a link without "/edit" is used as it is. */
  function ExportUrl(url: string): (r: string)
    ensures !Contains(url, "/edit") ==> r == url
    ensures forall i :: OccursAt(url, "/edit", i) && (forall j :: 0 <= j < i ==> !OccursAt(url, "/edit", j))
                        ==> r == url[..i] + "/export?format=csv"
  {
    match FirstIndexOf(url, "/edit")
    case None => url
    case Some(i) => url[..i] + "/export?format=csv"
  }

  /** An export address contains no "/edit" any more, so rewriting it again changes nothing. */
  lemma ExportUrlIdempotent(url: string)
    ensures !Contains(ExportUrl(url), "/edit")
    ensures ExportUrl(ExportUrl(url)) == ExportUrl(url)
  {
    match FirstIndexOf(url, "/edit")
    case None =>
    case Some(i) =>
      ExportHasNoEdit(url, i);
  }

  /** Cutting `url` before its first "/edit" and appending the export suffix leaves no "/edit". */
  lemma ExportHasNoEdit(url: string, i: nat)
    requires OccursAt(url, "/edit", i) && forall j :: 0 <= j < i ==> !OccursAt(url, "/edit", j)
    ensures !Contains(url[..i] + "/export?format=csv", "/edit")
  {
    var suffix := "/export?format=csv";
    var r := url[..i] + suffix;
    SuffixHasNoEdit();
    forall q | 0 <= q <= |r| ensures !OccursAt(r, "/edit", q) {
      if q + 5 <= |r| {
        if q + 5 <= i {
          OccursAtChars(r, "/edit", q);
          OccursAtChars(url, "/edit", q);
        } else if q < i {
          assert r[i] == '/';
          MismatchAt(r, "/edit", q, i - q);
        } else {
          OccursAtChars(r, "/edit", q);
          OccursAtChars(suffix, "/edit", q - i);
        }
      }
    }
  }

  /** An occurrence, character by character. */
  lemma OccursAtChars(s: string, pat: string, q: nat)
    ensures OccursAt(s, pat, q) <==> q + |pat| <= |s| && forall k :: 0 <= k < |pat| ==> s[q + k] == pat[k]
  {
    if q + |pat| <= |s| && forall k :: 0 <= k < |pat| ==> s[q + k] == pat[k] {
      assert s[q..q + |pat|] == pat;
    }
  }

  /** One mismatching character rules out an occurrence. */
  lemma MismatchAt(s: string, pat: string, q: nat, k: nat)
    requires k < |pat| && q + k < |s| && s[q + k] != pat[k]
    ensures !OccursAt(s, pat, q)
  {
    OccursAtChars(s, pat, q);
  }

  lemma SuffixHasNoEdit()
    ensures !Contains("/export?format=csv", "/edit")
  {
    var suffix := "/export?format=csv";
    forall q | 0 <= q <= |suffix| ensures !OccursAt(suffix, "/edit", q) {
      if q + 5 <= |suffix| {
        if q == 0 {
          assert suffix[2] == 'x';
          MismatchAt(suffix, "/edit", 0, 2);
        } else {
          assert suffix[q] != '/';
          MismatchAt(suffix, "/edit", q, 0);
        }
      }
    }
  }

  // ---------------------------------------------------------------- header cleaning

  /** `[c.strip().lower() for c in df.columns]`. */
  function NormaliseHeader(columns: seq<string>): (r: seq<string>)
    ensures |r| == |columns|
    ensures forall i :: 0 <= i < |r| ==> r[i] == NormaliseName(columns[i])
  {
    seq(|columns|, i requires 0 <= i < |columns| => NormaliseName(columns[i]))
  }

  /** Cleaning keeps the number and order of columns and is idempotent. */
  lemma NormaliseHeaderIdempotent(columns: seq<string>)
    ensures NormaliseHeader(NormaliseHeader(columns)) == NormaliseHeader(columns)
  {
    var once := NormaliseHeader(columns);
    forall i | 0 <= i < |columns| ensures NormaliseName(once[i]) == once[i] {
      NormaliseNameIdempotent(columns[i]);
    }
  }

  // ---------------------------------------------------------------- numeric coercion

  /** `pd.to_numeric(str(cell).replace(',', '.'), errors='coerce')` on one cell.
      NaN prints as "nan", which is not a number again; a float prints as a numeral
      that reads back as the same float; a timestamp prints with '-' and ':' and is
      not a number. */
  function Coerce(c: Cell): (r: Cell)
    ensures r.Num? || r.Missing?
    ensures c.Num? ==> r == c
    ensures c.Missing? || c.Stamp? ==> r.Missing?
  {
    match c
    case Str(s) => (match ToNumeric(ReplaceCommas(s)) case Some(n) => Num(n) case None => Missing)
    case Num(n) => c
    case Missing => Missing
    case Stamp(_) => Missing
  }

  /** The row after the loop over `temp_cols`: every column except the one labelled
      "horodateur" is coerced. */
  function CoerceRow(columns: seq<string>, row: seq<Cell>): (r: seq<Cell>)
    ensures |r| == |row|
  {
    seq(|row|, j requires 0 <= j < |row| =>
      if j < |columns| && columns[j] != "horodateur" then Coerce(row[j]) else row[j])
  }

  function CoerceColumns(t: Table): (r: Table)
    ensures r.columns == t.columns && |r.rows| == |t.rows|
    ensures Rectangular(t) ==> Rectangular(r)
  {
    Table(t.columns, seq(|t.rows|, i requires 0 <= i < |t.rows| => CoerceRow(t.columns, t.rows[i])))
  }

  /** The rewrite reaches every column whose label is not literally "horodateur",
      including a timestamp column with another label, and leaves "horodateur" as read. */
  lemma CoerceColumnsCells(t: Table, i: nat, j: nat)
    requires Rectangular(t) && i < |t.rows| && j < |t.columns|
    ensures t.columns[j] != "horodateur" ==> CoerceColumns(t).rows[i][j] == Coerce(t.rows[i][j])
    ensures t.columns[j] != "horodateur" ==> CoerceColumns(t).rows[i][j].Num? || CoerceColumns(t).rows[i][j].Missing?
    ensures t.columns[j] == "horodateur" ==> CoerceColumns(t).rows[i][j] == t.rows[i][j]
  {
  }

  // ---------------------------------------------------------------- timestamp column

  /** The test of the detection loop: the label mentions a date or a time. */
  predicate IsTimestampName(c: string) {
    Contains(c, "date") || Contains(c, "time") || Contains(c, "heure") || Contains(c, "horodateur")
  }

  function TimestampColumnFrom(columns: seq<string>, k: nat): (r: Option<nat>)
    requires k <= |columns|
    ensures r.Some? ==> k <= r.value < |columns| && IsTimestampName(columns[r.value])
    ensures r.Some? ==> forall j :: k <= j < r.value ==> !IsTimestampName(columns[j])
    ensures r.None? ==> forall j :: k <= j < |columns| ==> !IsTimestampName(columns[j])
    decreases |columns| - k
  {
    if k == |columns| then None
    else if IsTimestampName(columns[k]) then Some(k)
    else TimestampColumnFrom(columns, k + 1)
  }

  /** The first column, in order, whose label contains "date", "time", "heure" or "horodateur". */
  function TimestampColumn(columns: seq<string>): (r: Option<nat>)
    ensures r.Some? ==> r.value < |columns| && IsTimestampName(columns[r.value])
    ensures r.Some? ==> forall j :: 0 <= j < r.value ==> !IsTimestampName(columns[j])
    ensures r.None? ==> forall j :: 0 <= j < |columns| ==> !IsTimestampName(columns[j])
  {
    TimestampColumnFrom(columns, 0)
  }

  /** "horodateur" contains "date", so the fourth test of the detection never decides it. */
  lemma HorodateurMentionsDate(c: string)
    ensures IsTimestampName(c) <==> Contains(c, "date") || Contains(c, "time") || Contains(c, "heure")
  {
    if Contains(c, "horodateur") {
      var i :| 0 <= i <= |c| && OccursAt(c, "horodateur", i);
      assert |"horodateur"| == 10;
      var w := c[i..i + 10];
      assert w == "horodateur";
      forall k | 0 <= k < 4 ensures c[i + 4..i + 8][k] == "date"[k] {
        assert c[i + 4 + k] == w[4 + k];
      }
      assert OccursAt(c, "date", i + 4);
    }
  }

  // ---------------------------------------------------------------- timestamps

  /** `pd.to_datetime(..., format="%d/%m/%Y %H:%M:%S", errors="coerce")` on one cell:
      text is parsed; a number prints without '/', so it never matches; NaN is NaT. */
  function ParseCell(c: Cell): (r: Option<DateTime>)
    ensures r.Some? ==> Valid(r.value)
    ensures c.Num? || c.Missing? ==> r.None?
  {
    match c
    case Str(s) => ParseStamp(s)
    case Stamp(d) => if Valid(d) then Some(d) else None
    case _ => None
  }

  function StampCell(o: Option<DateTime>): Cell {
    match o
    case Some(d) => Stamp(d)
    case None => Missing
  }

  /** The values of the new "datetime" column, parsed from column `j`. */
  function ParsedColumn(t: Table, j: nat): (vals: seq<Cell>)
    requires Rectangular(t) && j < |t.columns|
    ensures |vals| == |t.rows|
  {
    seq(|t.rows|, i requires 0 <= i < |t.rows| => StampCell(ParseCell(t.rows[i][j])))
  }

  /** `df[name] = vals`: overwrites the column if the label exists, appends it otherwise. */
  function SetColumn(t: Table, name: string, vals: seq<Cell>): (r: Table)
    requires Rectangular(t) && |vals| == |t.rows|
    ensures Rectangular(r) && |r.rows| == |t.rows|
    ensures r.columns == if name in t.columns then t.columns else t.columns + [name]
    ensures forall i :: 0 <= i < |r.rows| ==> r.rows[i][IndexOf(r.columns, name).value] == vals[i]
    ensures forall i, j :: 0 <= i < |r.rows| && 0 <= j < |t.columns| && t.columns[j] != name
                           ==> r.rows[i][j] == t.rows[i][j]
  {
    match IndexOf(t.columns, name)
    case Some(k) =>
      Table(t.columns, seq(|t.rows|, i requires 0 <= i < |t.rows| => t.rows[i][k := vals[i]]))
    case None =>
      assert IndexOf(t.columns + [name], name) == Some(|t.columns|);
      Table(t.columns + [name], seq(|t.rows|, i requires 0 <= i < |t.rows| => t.rows[i] + [vals[i]]))
  }

  /** `df.drop(columns=[...])` of the column at position `k`. */
  function DropColumnAt(t: Table, k: nat): (r: Table)
    requires Rectangular(t) && k < |t.columns|
    ensures Rectangular(r) && |r.rows| == |t.rows|
    ensures r.columns == t.columns[..k] + t.columns[k + 1..]
  {
    Table(t.columns[..k] + t.columns[k + 1..],
          seq(|t.rows|, i requires 0 <= i < |t.rows| => t.rows[i][..k] + t.rows[i][k + 1..]))
  }

  /** The row mask of `dropna(subset=[...])` on the column at position `k`. */
  function HasStampAt(k: nat): seq<Cell> -> bool {
    (row: seq<Cell>) => k < |row| && row[k].Stamp?
  }

  /** `df.dropna(subset=[...])` on the column at position `k`. */
  function DropMissing(t: Table, k: nat): (r: Table)
    ensures r.columns == t.columns
    ensures forall i :: 0 <= i < |r.rows| ==> k < |r.rows[i]| && r.rows[i][k].Stamp?
  {
    var rows := Filter(t.rows, HasStampAt(k));
    assert forall i :: 0 <= i < |rows| ==> HasStampAt(k)(rows[i]) by {
      forall i | 0 <= i < |rows| ensures HasStampAt(k)(rows[i]) { assert rows[i] in rows; }
    }
    Table(t.columns, rows)
  }

  // ---------------------------------------------------------------- the pipeline

  /** The sheet after header cleaning and numeric coercion (lines 28-35). */
  function Coerced(sheet: Sheet): (r: Table)
    ensures Rectangular(r) && r.columns == NormaliseHeader(sheet.columns) && |r.rows| == |sheet.rows|
  {
    CoerceColumns(Table(NormaliseHeader(sheet.columns), sheet.rows))
  }

  /** The frame once the "datetime" column is added from column `j` (line 51). */
  function WithStamps(sheet: Sheet, j: nat): (r: Table)
    requires j < |sheet.columns|
    ensures Rectangular(r) && |r.rows| == |sheet.rows|
  {
    var t := Coerced(sheet);
    SetColumn(t, "datetime", ParsedColumn(t, j))
  }

  /** The frame once the "horodateur" column is dropped (line 53); `None` when there is
      no such column, where `drop` raises. */
  function Pruned(sheet: Sheet, j: nat): (r: Option<Table>)
    requires j < |sheet.columns|
    ensures r.Some? ==> Rectangular(r.value) && |r.value.rows| == |sheet.rows|
  {
    var stamped := WithStamps(sheet, j);
    match IndexOf(stamped.columns, "horodateur")
    case None => None
    case Some(h) => Some(DropColumnAt(stamped, h))
  }

  /** `load_data` after the download: the cleaned table, the empty frame when no
      column looks like a timestamp, or the error it stops with. It stops only on
      duplicate labels, which it reports exactly when the cleaned header has them, and
      on a missing "horodateur" column; the lookup of "datetime" never fails. */
  function Load(sheet: Sheet): (r: Result<Table, LoadError>)
    ensures r.Err? ==> r.error == DuplicateColumns || r.error == KeyError("horodateur")
    ensures r == Err(DuplicateColumns) <==> !Distinct(NormaliseHeader(sheet.columns))
  {
    var columns := NormaliseHeader(sheet.columns);
    if !Distinct(columns) then Err(DuplicateColumns)
    else match TimestampColumn(columns)
      case None => Ok(Table([], []))
      case Some(j) =>
        match Pruned(sheet, j)
        case None => Err(KeyError("horodateur"))
        case Some(pruned) =>
          PrunedShape(sheet, j);
          match IndexOf(pruned.columns, "datetime")
          case None => Err(KeyError("datetime"))
          case Some(k) => Ok(DropMissing(pruned, k))
  }

  // ---------------------------------------------------------------- what a load guarantees

  /** A cleaned table: distinct labels, a "datetime" column, no "horodateur" column,
      and in every row a timestamp that is a real instant pandas can hold. */
  predicate Clean(t: Table) {
    && Rectangular(t) && Distinct(t.columns)
    && "horodateur" !in t.columns && "datetime" in t.columns
    && forall i :: 0 <= i < |t.rows| ==>
      t.rows[i][IndexOf(t.columns, "datetime").value].Stamp? && Valid(t.rows[i][IndexOf(t.columns, "datetime").value].d)
  }

  lemma DistinctAppend(columns: seq<string>, name: string)
    requires Distinct(columns) && name !in columns
    ensures Distinct(columns + [name])
  {
  }

  lemma IndexOfDistinct(columns: seq<string>, c: nat)
    requires Distinct(columns) && c < |columns|
    ensures IndexOf(columns, columns[c]) == Some(c)
  {
  }

  /** The cell of row `i` in the column labelled `x`: `df[x][i]`. */
  function CellOf(t: Table, i: nat, x: string): Cell
    requires Rectangular(t) && i < |t.rows| && x in t.columns
  {
    t.rows[i][IndexOf(t.columns, x).value]
  }

  /** After `df[name] = vals`, column `name` holds `vals` and every other column is as before. */
  lemma SetColumnByLabel(t: Table, name: string, vals: seq<Cell>, i: nat, x: string)
    requires Rectangular(t) && Distinct(t.columns) && |vals| == |t.rows| && i < |t.rows|
    requires x in SetColumn(t, name, vals).columns
    ensures Distinct(SetColumn(t, name, vals).columns)
    ensures x != name ==> x in t.columns
    ensures CellOf(SetColumn(t, name, vals), i, x) == if x == name then vals[i] else CellOf(t, i, x)
  {
    var r := SetColumn(t, name, vals);
    if name !in t.columns {
      DistinctAppend(t.columns, name);
      if x != name {
        var c := IndexOf(t.columns, x).value;
        IndexOfDistinct(r.columns, c);
      }
    }
  }

  /** Dropping the column at `h` leaves every other label with the cells it had. */
  lemma DropByLabel(s: Table, h: nat, i: nat, x: string)
    requires Rectangular(s) && Distinct(s.columns) && h < |s.columns| && i < |s.rows|
    requires x in s.columns && x != s.columns[h]
    ensures Distinct(DropColumnAt(s, h).columns)
    ensures s.columns[h] !in DropColumnAt(s, h).columns
    ensures x in DropColumnAt(s, h).columns
    ensures CellOf(DropColumnAt(s, h), i, x) == CellOf(s, i, x)
  {
    var p := DropColumnAt(s, h);
    DropLabelPosition(s.columns, h, x);
    var c0 := IndexOf(s.columns, x).value;
    var row := s.rows[i];
    assert p.rows[i] == row[..h] + row[h + 1..];
    RemoveAt(row, h, if c0 < h then c0 else c0 - 1);
  }

  /** Removing label `h` moves every later label one place to the front. */
  lemma DropLabelPosition(columns: seq<string>, h: nat, x: string)
    requires Distinct(columns) && h < |columns| && x in columns && x != columns[h]
    ensures var rest := columns[..h] + columns[h + 1..]; var c0 := IndexOf(columns, x).value;
      && Distinct(rest) && columns[h] !in rest && x in rest
      && IndexOf(rest, x) == Some(if c0 < h then c0 else c0 - 1)
  {
    var rest := columns[..h] + columns[h + 1..];
    DistinctRemove(columns, h);
    var c0 := IndexOf(columns, x).value;
    var c := if c0 < h then c0 else c0 - 1;
    RemoveAt(columns, h, c);
    IndexOfDistinct(rest, c);
  }

  /** Element `c` of a sequence with position `h` removed. */
  lemma RemoveAt<T>(s: seq<T>, h: nat, c: nat)
    requires h < |s| && c + 1 < |s|
    ensures (s[..h] + s[h + 1..])[c] == if c < h then s[c] else s[c + 1]
  {
  }

  /** The columns of the frame before `dropna`: distinct labels, "datetime" present,
      "horodateur" gone, and row `i`'s timestamp parsed from row `i` of column `j`. */
  lemma PrunedShape(sheet: Sheet, j: nat)
    requires Distinct(NormaliseHeader(sheet.columns))
    requires TimestampColumn(NormaliseHeader(sheet.columns)) == Some(j)
    requires Pruned(sheet, j).Some?
    ensures var p := Pruned(sheet, j).value;
      Distinct(p.columns) && "datetime" in p.columns && "horodateur" !in p.columns
    ensures var p := Pruned(sheet, j).value;
      forall i :: 0 <= i < |p.rows| ==> CellOf(p, i, "datetime") == StampCell(ParseCell(Coerced(sheet).rows[i][j]))
    ensures var p := Pruned(sheet, j).value;
      forall i :: 0 <= i < |p.rows| && CellOf(p, i, "datetime").Stamp? ==> Valid(CellOf(p, i, "datetime").d)
  {
    var coerced := Coerced(sheet);
    var vals := ParsedColumn(coerced, j);
    var stamped := SetColumn(coerced, "datetime", vals);
    assert stamped == WithStamps(sheet, j);
    var h := IndexOf(stamped.columns, "horodateur").value;
    var p := DropColumnAt(stamped, h);
    assert p == Pruned(sheet, j).value;
    if "datetime" !in coerced.columns { DistinctAppend(coerced.columns, "datetime"); }
    DistinctRemove(stamped.columns, h);
    assert "datetime" in stamped.columns;
    forall i | 0 <= i < |p.rows|
      ensures CellOf(p, i, "datetime") == StampCell(ParseCell(coerced.rows[i][j]))
    {
      SetColumnByLabel(coerced, "datetime", vals, i, "datetime");
      DropByLabel(stamped, h, i, "datetime");
      assert vals[i] == StampCell(ParseCell(coerced.rows[i][j]));
    }
    forall i | 0 <= i < |p.rows| && CellOf(p, i, "datetime").Stamp?
      ensures Valid(CellOf(p, i, "datetime").d)
    {
      StampCellValid(CellOf(p, i, "datetime"), ParseCell(coerced.rows[i][j]));
    }
  }

  lemma DistinctRemove(columns: seq<string>, h: nat)
    requires Distinct(columns) && h < |columns|
    ensures Distinct(columns[..h] + columns[h + 1..])
    ensures columns[h] !in columns[..h] + columns[h + 1..]
    ensures forall c :: c in columns && c != columns[h] ==> c in columns[..h] + columns[h + 1..]
  {
    var r := columns[..h] + columns[h + 1..];
    forall c | c in columns && c != columns[h] ensures c in r {
      var i :| 0 <= i < |columns| && columns[i] == c;
      if i < h { assert r[i] == c; } else { assert r[i - 1] == c; }
    }
  }

  lemma StampCellValid(c: Cell, o: Option<DateTime>)
    requires c == StampCell(o) && c.Stamp? && (o.Some? ==> Valid(o.value))
    ensures Valid(c.d)
  {
  }

  /** Dropping rows keeps only rows of the table, so valid timestamps stay valid. */
  lemma DropMissingValid(t: Table, k: nat)
    requires Rectangular(t) && k < |t.columns|
    requires forall n :: 0 <= n < |t.rows| && t.rows[n][k].Stamp? ==> Valid(t.rows[n][k].d)
    ensures forall i :: 0 <= i < |DropMissing(t, k).rows| ==> Valid(DropMissing(t, k).rows[i][k].d)
  {
    var r := DropMissing(t, k);
    forall i | 0 <= i < |r.rows| ensures Valid(r.rows[i][k].d) {
      assert r.rows[i] in t.rows;
      var n :| 0 <= n < |t.rows| && t.rows[n] == r.rows[i];
    }
  }

  /** A load either yields the empty frame or a clean table; `dropna` never misses its column. */
  lemma LoadClean(sheet: Sheet)
    ensures Load(sheet).Ok? ==> Load(sheet).value == Table([], []) || Clean(Load(sheet).value)
  {
    var columns := NormaliseHeader(sheet.columns);
    if Distinct(columns) && TimestampColumn(columns).Some? {
      var j := TimestampColumn(columns).value;
      if Pruned(sheet, j).Some? {
        PrunedShape(sheet, j);
        var p := Pruned(sheet, j).value;
        var k := IndexOf(p.columns, "datetime").value;
        assert Load(sheet) == Ok(DropMissing(p, k));
        var t := DropMissing(p, k);
        assert IndexOf(t.columns, "datetime").value == k;
        assert Rectangular(t) by {
          forall i | 0 <= i < |t.rows| ensures |t.rows[i]| == |t.columns| {
            assert t.rows[i] in p.rows;
          }
        }
        DropMissingValid(p, k);
      }
    }
  }

  /** Without a timestamp-like label the load returns the empty frame, and only then. */
  lemma LoadEmptyIff(sheet: Sheet)
    requires Distinct(NormaliseHeader(sheet.columns))
    ensures Load(sheet) == Ok(Table([], [])) <==> TimestampColumn(NormaliseHeader(sheet.columns)).None?
  {
    LoadClean(sheet);
  }

  /** Once a timestamp column is found, the load fails with `KeyError("horodateur")`
      exactly when no column is labelled "horodateur". */
  lemma LoadNeedsHorodateur(sheet: Sheet)
    requires Distinct(NormaliseHeader(sheet.columns))
    requires TimestampColumn(NormaliseHeader(sheet.columns)).Some?
    ensures Load(sheet) == Err(KeyError("horodateur")) <==> "horodateur" !in NormaliseHeader(sheet.columns)
  {
    var j := TimestampColumn(NormaliseHeader(sheet.columns)).value;
    PrunedIffHorodateur(sheet, j);
  }

  /** Adding "datetime" neither adds nor removes "horodateur", so the drop finds it
      exactly when the cleaned header has it. */
  lemma PrunedIffHorodateur(sheet: Sheet, j: nat)
    requires j < |sheet.columns|
    ensures Pruned(sheet, j).None? <==> "horodateur" !in NormaliseHeader(sheet.columns)
  {
    var columns := NormaliseHeader(sheet.columns);
    var stamped := WithStamps(sheet, j);
    assert stamped.columns == if "datetime" in columns then columns else columns + ["datetime"];
    assert "horodateur" in stamped.columns <==> "horodateur" in columns;
  }

  /** `dropna` removes exactly the rows whose timestamp did not parse and keeps the
      others in order; the timestamp of row `i` is parsed from row `i` of the detected
      column, as read when that column is "horodateur" and after numeric coercion otherwise. */
  lemma LoadKeepsParsedRows(sheet: Sheet, j: nat)
    requires Distinct(NormaliseHeader(sheet.columns))
    requires TimestampColumn(NormaliseHeader(sheet.columns)) == Some(j)
    requires Pruned(sheet, j).Some?
    ensures "datetime" in Pruned(sheet, j).value.columns
    ensures var p := Pruned(sheet, j).value; var k := IndexOf(p.columns, "datetime").value;
      Load(sheet) == Ok(Table(p.columns, Filter(p.rows, HasStampAt(k))))
    ensures var p := Pruned(sheet, j).value;
      var columns := NormaliseHeader(sheet.columns);
      forall i :: 0 <= i < |p.rows| ==>
        CellOf(p, i, "datetime") == StampCell(ParseCell(
          if columns[j] == "horodateur" then sheet.rows[i][j] else Coerce(sheet.rows[i][j])))
  {
    PrunedShape(sheet, j);
    var columns := NormaliseHeader(sheet.columns);
    var p := Pruned(sheet, j).value;
    var k := IndexOf(p.columns, "datetime").value;
    assert Load(sheet) == Ok(DropMissing(p, k));
    forall i | 0 <= i < |p.rows|
      ensures CellOf(p, i, "datetime") == StampCell(ParseCell(
        if columns[j] == "horodateur" then sheet.rows[i][j] else Coerce(sheet.rows[i][j])))
    {
      CoerceColumnsCells(Table(columns, sheet.rows), i, j);
    }
  }

  /** The cell the timestamp of sheet row `i` is parsed from: column `j` as read when its
      label is "horodateur", after numeric coercion otherwise. */
  function StampSource(sheet: Sheet, j: nat, i: nat): Cell
    requires j < |sheet.columns| && i < |sheet.rows|
  {
    if NormaliseHeader(sheet.columns)[j] == "horodateur" then sheet.rows[i][j] else Coerce(sheet.rows[i][j])
  }

  /** The loaded rows are rows of the pruned frame taken in their original order: row `m`
      of the result is row `Kept(...)[m]`, and those positions increase strictly. */
  lemma LoadKeepsOrder(sheet: Sheet, j: nat)
    requires Distinct(NormaliseHeader(sheet.columns))
    requires TimestampColumn(NormaliseHeader(sheet.columns)) == Some(j)
    requires Pruned(sheet, j).Some?
    ensures "datetime" in Pruned(sheet, j).value.columns && Load(sheet).Ok?
    ensures var p := Pruned(sheet, j).value;
      var idx := Kept(p.rows, HasStampAt(IndexOf(p.columns, "datetime").value));
      && |idx| == |Load(sheet).value.rows|
      && (forall m :: 0 <= m < |idx| ==> idx[m] < |p.rows| && Load(sheet).value.rows[m] == p.rows[idx[m]])
      && (forall m, n :: 0 <= m < n < |idx| ==> idx[m] < idx[n])
  {
    LoadKeepsParsedRows(sheet, j);
    var p := Pruned(sheet, j).value;
    var k := IndexOf(p.columns, "datetime").value;
    KeptOrdered(p.rows, HasStampAt(k));
    FilterAtKept(p.rows, HasStampAt(k));
  }

  /** Sheet row `i` is among the kept positions exactly when its timestamp parses: `dropna`
      removes the rows whose timestamp did not parse and only those. */
  lemma LoadDropsUnparsed(sheet: Sheet, j: nat)
    requires Distinct(NormaliseHeader(sheet.columns))
    requires TimestampColumn(NormaliseHeader(sheet.columns)) == Some(j)
    requires Pruned(sheet, j).Some?
    ensures j < |sheet.columns| && "datetime" in Pruned(sheet, j).value.columns
    ensures |Pruned(sheet, j).value.rows| == |sheet.rows|
    ensures var p := Pruned(sheet, j).value;
      var idx := Kept(p.rows, HasStampAt(IndexOf(p.columns, "datetime").value));
      forall i :: 0 <= i < |sheet.rows| ==> (i in idx <==> ParseCell(StampSource(sheet, j, i)).Some?)
  {
    PrunedShape(sheet, j);
    var p := Pruned(sheet, j).value;
    var k := IndexOf(p.columns, "datetime").value;
    KeptExactly(p.rows, HasStampAt(k));
    forall i | 0 <= i < |p.rows|
      ensures HasStampAt(k)(p.rows[i]) <==> ParseCell(StampSource(sheet, j, i)).Some?
    {
      CoerceColumnsCells(Table(NormaliseHeader(sheet.columns), sheet.rows), i, j);
      assert Coerced(sheet).rows[i][j] == StampSource(sheet, j, i);
      assert p.rows[i][k] == CellOf(p, i, "datetime");
    }
  }

  /** A successful load had distinct labels and, once a timestamp column was found, a
      column labelled "horodateur" to drop. */
  lemma LoadOkStages(sheet: Sheet)
    requires Load(sheet).Ok?
    ensures Distinct(NormaliseHeader(sheet.columns))
    ensures var j := TimestampColumn(NormaliseHeader(sheet.columns));
      j.Some? ==> j.value < |sheet.columns| && Pruned(sheet, j.value).Some?
  {
  }

  /** Because the rewrite spares only the label "horodateur", a timestamp column with any
      other label ("date", "heure", ...) is turned into numbers or NaN before it is parsed,
      so nothing parses and every row is dropped. */
  lemma OtherTimestampLabelKeepsNoRow(sheet: Sheet)
    requires Load(sheet).Ok?
    requires TimestampColumn(NormaliseHeader(sheet.columns)).Some?
    requires NormaliseHeader(sheet.columns)[TimestampColumn(NormaliseHeader(sheet.columns)).value] != "horodateur"
    ensures Load(sheet).value.rows == []
  {
    var columns := NormaliseHeader(sheet.columns);
    var j := TimestampColumn(columns).value;
    LoadOkStages(sheet);
    LoadKeepsParsedRows(sheet, j);
    var p := Pruned(sheet, j).value;
    var k := IndexOf(p.columns, "datetime").value;
    forall i | 0 <= i < |p.rows| ensures !HasStampAt(k)(p.rows[i]) {
      var c := Coerce(sheet.rows[i][j]);
      assert ParseCell(c).None?;
      assert CellOf(p, i, "datetime") == Missing;
      assert p.rows[i][k] == CellOf(p, i, "datetime");
    }
    FilterDropsAll(p.rows, HasStampAt(k));
  }

  /** Every column of a loaded table other than "datetime" holds only numbers or NaN,
      so the second `pd.to_numeric` pass of the view (lines 99-100) finds nothing to convert. */
  lemma LoadSensorsNumeric(sheet: Sheet)
    requires Load(sheet).Ok?
    ensures Rectangular(Load(sheet).value)
    ensures var t := Load(sheet).value;
      forall i, c :: 0 <= i < |t.rows| && 0 <= c < |t.columns| && t.columns[c] != "datetime"
        ==> t.rows[i][c].Num? || t.rows[i][c].Missing?
  {
    var t := Load(sheet).value;
    LoadClean(sheet);
    if t != Table([], []) {
      var columns := NormaliseHeader(sheet.columns);
      var j := TimestampColumn(columns).value;
      PrunedShape(sheet, j);
      var coerced := Coerced(sheet);
      var vals := ParsedColumn(coerced, j);
      var stamped := SetColumn(coerced, "datetime", vals);
      assert stamped == WithStamps(sheet, j);
      var h := IndexOf(stamped.columns, "horodateur").value;
      var p := DropColumnAt(stamped, h);
      assert p == Pruned(sheet, j).value;
      var k := IndexOf(p.columns, "datetime").value;
      assert t.rows == Filter(p.rows, HasStampAt(k));
      forall i, c | 0 <= i < |t.rows| && 0 <= c < |t.columns| && t.columns[c] != "datetime"
        ensures t.rows[i][c].Num? || t.rows[i][c].Missing?
      {
        assert t.rows[i] in p.rows;
        SensorCellNumeric(sheet, j, p, t.rows[i], c);
      }
    }
  }

  /** A column other than "datetime" that survives the drop holds the cells it had
      before "datetime" was assigned. */
  lemma PrunedCell(t: Table, vals: seq<Cell>, h: nat, i: nat, x: string)
    requires Rectangular(t) && Distinct(t.columns) && |vals| == |t.rows| && i < |t.rows|
    requires h < |SetColumn(t, "datetime", vals).columns|
    requires SetColumn(t, "datetime", vals).columns[h] == "horodateur"
    requires x in DropColumnAt(SetColumn(t, "datetime", vals), h).columns && x != "datetime"
    ensures x in t.columns && x != "horodateur"
    ensures CellOf(DropColumnAt(SetColumn(t, "datetime", vals), h), i, x) == CellOf(t, i, x)
  {
    var s := SetColumn(t, "datetime", vals);
    if "datetime" !in t.columns { DistinctAppend(t.columns, "datetime"); }
    DistinctRemove(s.columns, h);
    var p := DropColumnAt(s, h);
    var c :| 0 <= c < |p.columns| && p.columns[c] == x;
    var c1 := if c < h then c else c + 1;
    assert s.columns[c1] == x;
    SetColumnByLabel(t, "datetime", vals, i, x);
    DropByLabel(s, h, i, x);
  }

  /** A row of the pruned frame holds a number or NaN under every label but "datetime". */
  lemma SensorCellNumeric(sheet: Sheet, j: nat, p: Table, row: seq<Cell>, c: nat)
    requires Distinct(NormaliseHeader(sheet.columns))
    requires TimestampColumn(NormaliseHeader(sheet.columns)) == Some(j)
    requires Pruned(sheet, j) == Some(p) && Distinct(p.columns)
    requires row in p.rows && c < |p.columns| && p.columns[c] != "datetime"
    ensures c < |row| && (row[c].Num? || row[c].Missing?)
  {
    var columns := NormaliseHeader(sheet.columns);
    var coerced := Coerced(sheet);
    var vals := ParsedColumn(coerced, j);
    var stamped := SetColumn(coerced, "datetime", vals);
    assert stamped == WithStamps(sheet, j);
    var h := IndexOf(stamped.columns, "horodateur").value;
    assert p == DropColumnAt(stamped, h);
    var x := p.columns[c];
    var i0 :| 0 <= i0 < |p.rows| && p.rows[i0] == row;
    PrunedCell(coerced, vals, h, i0, x);
    IndexOfDistinct(p.columns, c);
    var c0 := IndexOf(columns, x).value;
    CoerceColumnsCells(Table(columns, sheet.rows), i0, c0);
  }

  // ---------------------------------------------------------------- the data frame, step by step

  /** Every row with its cell in column `col` coerced, as one pass of the loop over
      `temp_cols` leaves the frame. */
  function CoerceColumnAt(rs: seq<seq<Cell>>, col: nat): (r: seq<seq<Cell>>)
    ensures |r| == |rs|
    ensures forall i :: 0 <= i < |r| && col < |rs[i]| ==> r[i] == rs[i][col := Coerce(rs[i][col])]
  {
    seq(|rs|, i requires 0 <= i < |rs| =>
      if col < |rs[i]| then rs[i][col := Coerce(rs[i][col])] else rs[i])
  }

  /** One more label of the loop: the row rewritten under the first `j + 1` labels is the
      row rewritten under the first `j`, with cell `j` coerced unless its label is
      "horodateur". */
  lemma CoerceRowStep(labels: seq<string>, row: seq<Cell>, j: nat)
    requires j < |labels| == |row|
    ensures labels[j] != "horodateur" ==>
      CoerceRow(labels[..j + 1], row) == CoerceRow(labels[..j], row)[j := Coerce(row[j])]
    ensures labels[j] == "horodateur" ==> CoerceRow(labels[..j + 1], row) == CoerceRow(labels[..j], row)
  {
  }

  /** The data frame `df` that `load_data` updates in place. */
  class Frame {
    var columns: seq<string>
    var rows: seq<seq<Cell>>

    ghost predicate Valid()
      reads this
    {
      Rectangular(Table(columns, rows))
    }

    function Value(): Table
      reads this
    {
      Table(columns, rows)
    }

    /** The frame `pd.read_csv` returns. */
    constructor (sheet: Sheet)
      ensures Valid() && Value() == sheet
    {
      columns := sheet.columns;
      rows := sheet.rows;
    }

    /** `df.columns = [c.strip().lower() for c in df.columns]` (line 28). */
    method NormaliseColumns()
      requires Valid()
      modifies this
      ensures Valid()
      ensures columns == NormaliseHeader(old(columns)) && rows == old(rows)
    {
      columns := NormaliseHeader(columns);
    }

    /** The loop over `temp_cols`, the labels other than "horodateur" in order, that
        rewrites each such column with `astype(str).str.replace(',', '.')` and
        `pd.to_numeric(errors='coerce')` (lines 30-35). */
    method CoerceNumeric()
      requires Valid()
      modifies this
      ensures Valid()
      ensures Value() == CoerceColumns(old(Value()))
    {
      ghost var before := rows;
      var labels := columns;
      var j := 0;
      while j < |labels|
        invariant 0 <= j <= |labels|
        invariant columns == labels == old(columns) && |rows| == |before|
        invariant forall i :: 0 <= i < |rows| ==> rows[i] == CoerceRow(labels[..j], before[i])
      {
        forall i | 0 <= i < |rows| ensures |before[i]| == |labels| {
          assert before[i] in old(rows);
        }
        forall i | 0 <= i < |rows| {
          CoerceRowStep(labels, before[i], j);
        }
        if labels[j] != "horodateur" {
          rows := CoerceColumnAt(rows, j);
        }
        j := j + 1;
      }
      assert labels[..j] == labels;
    }

    /** The `for`/`break` search for the first label containing "date", "time",
        "heure" or "horodateur" (lines 39-43). */
    method FindTimestampColumn() returns (found: Option<nat>)
      ensures found == TimestampColumn(columns)
    {
      found := None;
      var i := 0;
      while i < |columns|
        invariant 0 <= i <= |columns|
        invariant found == None
        invariant forall c :: 0 <= c < i ==> !IsTimestampName(columns[c])
      {
        var candidate := columns[i];
        if Contains(candidate, "date") || Contains(candidate, "time")
          || Contains(candidate, "heure") || Contains(candidate, "horodateur")
        {
          found := Some(i);
          break;
        }
        i := i + 1;
      }
    }

    /** `df[name] = vals` (line 51). */
    method AssignColumn(name: string, vals: seq<Cell>)
      requires Valid() && |vals| == |rows|
      modifies this
      ensures Valid()
      ensures Value() == SetColumn(old(Value()), name, vals)
    {
      var k := IndexOf(columns, name);
      var current := rows;
      if k.Some? {
        var at := k.value;
        rows := seq(|current|, i requires 0 <= i < |current| => current[i][at := vals[i]]);
      } else {
        columns := columns + [name];
        rows := seq(|current|, i requires 0 <= i < |current| => current[i] + [vals[i]]);
      }
    }

    /** `df.drop(columns=[name], inplace=True)` (line 53): `false`, leaving the frame as
        it is, where pandas raises `KeyError` because no column has that label. The
        labels are distinct by then, so the column found is the only one. */
    method DropColumn(name: string) returns (found: bool)
      requires Valid()
      modifies this
      ensures Valid()
      ensures found <==> name in old(columns)
      ensures found ==> Value() == DropColumnAt(old(Value()), IndexOf(old(columns), name).value)
      ensures !found ==> Value() == old(Value())
    {
      var k := IndexOf(columns, name);
      found := k.Some?;
      if found {
        var at, current := k.value, rows;
        columns := columns[..at] + columns[at + 1..];
        rows := seq(|current|, i requires 0 <= i < |current| => current[i][..at] + current[i][at + 1..]);
      }
    }

    /** `df = df.dropna(subset=[name])` (line 54), `false` where pandas raises `KeyError`. */
    method DropMissingRows(name: string) returns (found: bool)
      requires Valid()
      modifies this
      ensures Valid()
      ensures found <==> name in old(columns)
      ensures found ==> Value() == DropMissing(old(Value()), IndexOf(old(columns), name).value)
      ensures !found ==> Value() == old(Value())
    {
      var k := IndexOf(columns, name);
      found := k.Some?;
      if found {
        var kept := Filter(rows, HasStampAt(k.value));
        forall i | 0 <= i < |kept| ensures |kept[i]| == |columns| { assert kept[i] in rows; }
        rows := kept;
      }
    }
  }

  /** `load_data(sheet_url)`: rewrite the link, download the export (`fetch`, which
      yields `None` where `read_csv` raises), then clean the frame step by step. */
  method LoadData(sheetUrl: string, fetch: string -> Option<Sheet>) returns (r: Result<Table, LoadError>)
    ensures fetch(ExportUrl(sheetUrl)).None? ==> r == Err(FetchFailed)
    ensures fetch(ExportUrl(sheetUrl)).Some? ==> r == Load(fetch(ExportUrl(sheetUrl)).value)
  {
    var csvUrl := ExportUrl(sheetUrl);
    var fetched := fetch(csvUrl);
    if fetched.None? {
      return Err(FetchFailed);
    }
    var sheet := fetched.value;
    var df := new Frame(sheet);
    df.NormaliseColumns();
    if !Distinct(df.columns) {
      return Err(DuplicateColumns);
    }
    df.CoerceNumeric();
    assert df.Value() == Coerced(sheet);
    var datetimeCol := df.FindTimestampColumn();
    if datetimeCol.None? {
      return Ok(Table([], []));
    }
    var j := datetimeCol.value;
    df.AssignColumn("datetime", ParsedColumn(df.Value(), j));
    assert df.Value() == WithStamps(sheet, j);
    var dropped := df.DropColumn("horodateur");
    if !dropped {
      return Err(KeyError("horodateur"));
    }
    assert Pruned(sheet, j) == Some(df.Value());
    var kept := df.DropMissingRows("datetime");
    if !kept {
      return Err(KeyError("datetime"));
    }
    r := Ok(df.Value());
  }
}
