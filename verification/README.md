# HomeTempApp data pipeline, modelled in Dafny

`app.py` is a Streamlit dashboard over a Google Sheet of temperature readings. This
project models its data pipeline and proves properties of it. The dashboard code
around the pipeline is left out.

- `load_data`: rewrites the sheet link into its CSV export address. It then cleans the
  column labels and turns comma decimals into numbers. It finds the timestamp column,
  parses it with the pattern `%d/%m/%Y %H:%M:%S`, drops the "horodateur" column and
  removes the rows without a timestamp.
- The main body:
  - sorts the table newest first;
  - lists the sensors;
  - cuts the date window chosen on the slider;
  - runs the selected sensors through `pd.to_numeric` again;
  - restyles the chart's traces from a fixed table of colours and dashes.

Modules:

- `Wrappers`: `Option` and `Result`.
- `Seqs`: order-preserving filtering, the model of boolean masks and `dropna`.
- `Text`: `strip`, `lower`, substring search, `replace(',', '.')` and decimal digits.
- `Numeric`: the decimal numerals `pd.to_numeric` accepts, as exact mantissa and scale.
- `Stamps`: date-times. It defines their order and the pattern parser with its formatter.
- `Loader`:
  - `load_data` stated twice. `Load` and its stages are functions on tables.
  - `Frame` and `LoadData` are the step-by-step updates of the data frame. They are
    proved equal to `Load`.
- `Views`: the sorted view, the sensor list, the window, min/max and the second numeric pass.
- `Style`: the override table, the `Figure` whose traces are restyled in place, and its
  properties.

Where the code and the intended behaviour part ways, the model follows the code.

- The seconds pattern of `%S` admits 60 and 61. pandas fills its timestamp from the parsed
  fields without checking the second, so such a second runs on into the next minute
  ("01/01/2024 10:00:60" is 10:01:00) and the row is kept (`Stamps.Rollover`,
  `Stamps.LateSecondRollsOver`).
- The comma rewrite spares only the column labelled exactly "horodateur" (app.py:30). It
  does not spare the detected timestamp column. A timestamp column with another label
  ("date", "heure", ...) is therefore coerced to numbers before parsing. Every row is
  then dropped (`Loader.OtherTimestampLabelKeepsNoRow`).
- `df.drop(columns=["horodateur"])` has no `errors="ignore"`. Once a timestamp column is
  found, the load stops with `KeyError` exactly when no column is labelled "horodateur",
  whatever the timestamp column is called (`Loader.LoadNeedsHorodateur`). A sheet with
  both a "date" and a "horodateur" column loads, with "date" as its timestamp column.
- Selecting "temp homepod cuisine" recolours the trace named "temp homepod salon"
  (app.py:133-136). The kitchen trace is never touched (`Style.SalonColour`,
  `Style.CuisineUntouched`). The model keeps this behaviour as written.

## Model

| member | source | states |
|---|---|---|
| Loader.ExportUrl | app.py:22-25 | without "/edit" the link is returned unchanged; otherwise the result is the text before the first "/edit" followed by "/export?format=csv" |
| Loader.ExportUrlIdempotent | app.py:22-25 | an export address contains no "/edit", so rewriting it again changes nothing |
| Text.Strip | app.py:28 | `strip()` gives the text between the leading and trailing whitespace, and the result has no whitespace at either end |
| Text.Lower | app.py:28 | `lower()` keeps the length and lower-cases every character (Latin-1 capitals) |
| Text.NormaliseNameIdempotent | app.py:28 | a cleaned label has no whitespace at either end, is all lower case, and cleaning it again changes nothing |
| Loader.NormaliseHeader | app.py:28 | the cleaned header keeps the number and order of columns; label `i` is `strip().lower()` of label `i` |
| Loader.NormaliseHeaderIdempotent | app.py:28 | cleaning the header twice is cleaning it once |
| Loader.Frame.NormaliseColumns | app.py:28 | reassigning `df.columns` cleans the labels and leaves the rows as they were |
| Text.ReplaceCommas | app.py:34 | `replace(',', '.')` keeps the length, leaves no ',', turns each ',' into '.' and keeps every other character |
| Numeric.CommaDecimal | app.py:34-35 | a French decimal "whole,frac" becomes the exact number whole.frac after the rewrite and `to_numeric`; either side may be empty but not both (",5", "5,") |
| Numeric.UnsignedDecimal | app.py:35 | "whole.frac" reads as the number with the digits of whole and frac and a scale equal to the number of digits of frac; either side may be empty but not both (".5", "7.") |
| Numeric.ToNumeric | app.py:35 | text that reads as a number is non-empty, has only digits and '.' after an optional sign, and only a leading '-' makes it negative |
| Numeric.NotANumber | app.py:35 | "N/A" and the empty text become NaN |
| Loader.Coerce | app.py:34-35 | coercing a cell gives a number or NaN; a number stays the same number; NaN and timestamps become NaN |
| Loader.CoerceColumns | app.py:30-35 | the loop over `temp_cols` keeps the labels, the number of rows and a rectangular shape |
| Loader.CoerceColumnsCells | app.py:30-35 | every column whose label is not exactly "horodateur" is coerced, including a timestamp column with another label; "horodateur" is left as read |
| Loader.Frame.CoerceNumeric | app.py:30-35 | the loop over `temp_cols` leaves the frame equal to `CoerceColumns` of the frame before it |
| Loader.TimestampColumn | app.py:39-43 | the result is the first label that contains "date", "time", "heure" or "horodateur"; none when no label does |
| Loader.Frame.FindTimestampColumn | app.py:39-43 | the `for`/`break` search returns the position `TimestampColumn` names |
| Loader.HorodateurMentionsDate | app.py:41 | a label passes the test if and only if it contains "date", "time" or "heure": the "horodateur" test never decides |
| Stamps.ParseStamp | app.py:51 | a parsed timestamp is a valid calendar date-time within pandas' nanosecond range |
| Stamps.ParseFields | app.py:51 | the fields read from a text name a real date, an hour 0-23, a minute 0-59 and a second 0-61, and lie field by field within pandas' bounds |
| Stamps.RawValidIff | app.py:51 | for a second below 60, the field-by-field bounds check and validity of the instant agree |
| Stamps.Rollover | app.py:51 | the timestamp built from fields within bounds is a valid instant; a second below 60 leaves the fields as they are |
| Stamps.RolloverKeepsInstant | app.py:51 | carrying a second of 60 or 61 into the next minute keeps the count of seconds from day, hour, minute and second, which is how pandas builds the timestamp |
| Stamps.LateSecondRollsOver | app.py:51 | "01/01/2024 10:00:60" parses as 1 January 2024 10:01:00 |
| Stamps.ParseClock | app.py:51 | a parsed clock has hour 0-23, minute 0-59 and second 0-61 |
| Stamps.ParseClockMatches | app.py:51 | `%H:%M:%S` accepts a text if and only if it is one or two digits, ':', one or two digits, ':', one or two digits, with hour 0-23, minute 0-59 and second 0-61, and it returns the values those digits spell |
| Stamps.ParseYearClockMatches | app.py:51 | `%Y %H:%M:%S` accepts a text if and only if it is four digits, at least one whitespace character and a clock text as above, and it returns the values spelled |
| Stamps.ParseFieldsMatches | app.py:51 | the field reader returns `d` if and only if the text spells `d` as day '/' month '/' year, whitespace, hour ':' minute ':' second (one or two digits per field, or a space and a digit 1-9 for the day; four digits for the year) and `d` passes the bounds check |
| Stamps.ParseStampMatches | app.py:51 | a text parses to `d` if and only if it spells, as above, fields within bounds that roll over to `d`; in particular a valid `d` spelled with its own fields parses to `d` |
| Stamps.LenientSpelling | app.py:51 | " 1/1/2024", two tabs and "1:2:3" parse as 1 January 2024 01:02:03: padding is optional and any whitespace run separates date and time |
| Stamps.ParseFormat | app.py:51 | formatting a valid date-time as `%d/%m/%Y %H:%M:%S` and parsing it back gives the same date-time |
| Stamps.NoSlashNoStamp | app.py:51 | text without '/' never parses as a timestamp |
| Stamps.NotAfterIsLexicographic | app.py:69 | timestamps compare as their (year, month, day, hour, minute, second) fields do, lexicographically |
| Stamps.NotAfterTotal | app.py:69 | any two timestamps are ordered one way or the other |
| Stamps.NotAfterTrans | app.py:69 | the timestamp order is transitive |
| Loader.ParseCell | app.py:51 | a cell parses only to a valid date-time; numbers and NaN never parse |
| Loader.SetColumn | app.py:51 | `df[name] = vals` overwrites an existing column or appends one; the column holds `vals` and every other column is unchanged |
| Loader.Frame.AssignColumn | app.py:51 | assigning the column updates the frame as `SetColumn` does |
| Loader.DropColumnAt | app.py:53 | dropping the column at a position removes that label and keeps the others in order, with every row as wide as the header |
| Loader.Frame.DropColumn | app.py:53 | the drop reports whether the label exists; if it does, the frame loses that column; otherwise the frame is unchanged (where pandas raises) |
| Loader.DropMissing | app.py:54 | after `dropna` every row has a timestamp in the column |
| Loader.Frame.DropMissingRows | app.py:54 | the frame keeps exactly its rows with a timestamp, or is unchanged where the label is missing |
| Loader.Load | app.py:27-55 | the load stops only with `DuplicateColumns`, exactly when the cleaned labels clash, or with `KeyError("horodateur")`; looking up "datetime" never fails |
| Loader.LoadData | app.py:20-55 | a failed download is reported as such; otherwise the step-by-step load returns exactly `Load` of the downloaded sheet |
| Loader.LoadClean | app.py:51-55 | a successful load is the empty frame or a clean table: distinct labels, a "datetime" column, no "horodateur" column and in every row a valid timestamp |
| Loader.LoadEmptyIff | app.py:45-48 | the load returns the empty frame if and only if no label looks like a timestamp |
| Loader.LoadNeedsHorodateur | app.py:53 | once a timestamp column is found, the load fails with `KeyError("horodateur")` if and only if no column has that label |
| Loader.LoadKeepsParsedRows | app.py:51-54 | the result is the pruned frame filtered on its timestamp; each row's timestamp is parsed from the same row of the detected column, after coercion unless that column is "horodateur" |
| Loader.LoadKeepsOrder | app.py:53-54 | the loaded rows are rows of the pruned frame at strictly increasing positions, so the survivors keep their relative order |
| Loader.LoadDropsUnparsed | app.py:51-54 | sheet row `i` survives `dropna` if and only if its timestamp cell parses |
| Loader.OtherTimestampLabelKeepsNoRow | app.py:30-54 | a timestamp column not labelled "horodateur" is coerced before parsing, so a successful load keeps no row |
| Loader.LoadSensorsNumeric | app.py:30-54 | every cell of a loaded table outside "datetime" is a number or NaN |
| Seqs.FilterCount | app.py:54 | a filter keeps each passing element as often as it occurs and no failing element |
| Seqs.KeptOrdered | app.py:54 | the kept positions lie inside the sequence and increase strictly |
| Seqs.KeptExactly | app.py:54 | a position is kept if and only if its element passes |
| Seqs.FilterAtKept | app.py:54 | element `m` of the filtered sequence is the element at the `m`-th kept position |
| Views.SortedView | app.py:69 | the sorted view has the same columns and the same rows (as a multiset), newest first |
| Views.SortDesc | app.py:69 | the sort returns the same rows as a multiset, as many of them, each with a timestamp |
| Views.SortDescOrdered | app.py:69 | the insertion sort leaves no row later than a row before it |
| Views.SortedViewFieldOrder | app.py:69 | on a loaded (clean) table, newest first is Python's datetime order: the (year, month, day, hour, minute, second) fields of each row are lexicographically not above those of the row before |
| Views.Sensors | app.py:76 | a label is a sensor if and only if it is a column label other than "datetime" |
| Views.SensorsSkipDatetime | app.py:76 | with distinct labels, the sensor list is the label list with "datetime" cut out, in order |
| Views.MinMoment | app.py:84 | `min()` is the timestamp of some row |
| Views.MaxMoment | app.py:85 | `max()` is the timestamp of some row |
| Views.MinMomentLeast | app.py:84 | the minimum is not later than any row's timestamp |
| Views.MaxMomentGreatest | app.py:85 | the maximum is not earlier than any row's timestamp |
| Views.Window | app.py:94-96 | a row is in the window if and only if it is in the view and its timestamp lies between start and end, both included |
| Views.WindowDescending | app.py:94-96 | the window keeps the newest-first order of the sorted view |
| Views.FullWindowKeepsAll | app.py:84-96 | the slider's initial window, from the table's minimum to its maximum, keeps every row of any view drawn from the table |
| Views.ToNumber | app.py:100 | `to_numeric` on one cell gives a number or NaN; a number stays the same number; NaN and timestamps become NaN |
| Views.ToNumberAgainstCoerce | app.py:100 | the second pass differs from the loading step's coercion only by the missing comma rewrite: they agree on numbers, NaN, timestamps and text without ','; text with ',' becomes NaN here |
| Views.Recoerce | app.py:99-100 | the pass keeps the shape and every cell outside the selected columns; a selected cell becomes a number or NaN, and a number stays the same |
| Views.RecoerceNoOp | app.py:99-100 | the second `to_numeric` pass over selected sensors changes nothing when their cells are numbers or NaN |
| Views.LoadReady | app.py:51-76 | a loaded table with rows is clean and numeric outside "datetime" |
| Views.ViewOfClean | app.py:69-100 | on a clean table the sorted view holds the same rows, newest first; any window is newest first; the initial window is the whole sorted view; the second numeric pass changes nothing |
| Style.Apply | app.py:112-136 | one override block recolours, and dashes if it says so, a trace exactly when its sensor is selected and the lower-cased trace name is its target; otherwise the trace is unchanged |
| Style.StyleLine | app.py:112-136 | running the blocks over a trace keeps its name |
| Style.StyleLineSource | app.py:112-136 | a trace that no block hits is unchanged; a trace's new colour or dash is that of a block that hits it |
| Style.Restyle | app.py:112-136 | restyling keeps the number, order and names of the traces |
| Style.OnlyOutdoorDashed | app.py:112-116 | only the "temp netatmo out" trace changes dash or turns grey; it becomes grey and dashed exactly when selected |
| Style.OwnColour | app.py:118-126 | the hub and office traces get "#ab1a0f" and "#e1807a" exactly when selected, nothing else |
| Style.SalonColour | app.py:128-136 | the salon trace ends "#062951" whenever "temp homepod cuisine" is selected, else "#7979df" when salon is selected, else its own colour; its dash never changes |
| Style.CuisineUntouched | app.py:133-136 | no block changes the "temp homepod cuisine" trace |
| Style.UntargetedUnchanged | app.py:112-136 | a trace whose lower-cased name no block targets is unchanged |
| Style.Figure.ApplyOverrides | app.py:112-136 | the nested loops leave every trace as `Restyle` of the traces before them |

## Left out

- The Streamlit interface is left out: page set-up, sidebar, titles, tables, warnings, the
  multiselect and the slider. The chosen sensors and window are parameters.
- `pd.read_csv` over the network is a `fetch` parameter of `Loader.LoadData`. It returns
  nothing where the download or CSV parsing fails. `load_data` does not catch that error,
  and the model reports it as `FetchFailed`. CSV parsing itself is not modelled: the sheet
  arrives as a rectangular table of cells.
- `Numeric.ToNumeric` covers the optional sign, digits and one decimal point that sensor
  readings use. The words "inf" and "nan", exponents and surrounding whitespace that
  `pd.to_numeric` also accepts are not modelled. Floating point is replaced by an exact
  mantissa and scale.
- Text.Lower: covers Latin-1 capitals only. Other Unicode case mappings are not modelled.
- Text.Strip: strips ASCII whitespace and \x1c-\x1f (`Text.IsSpace`). The other characters
  Python's `str.strip` removes (U+0085, U+00A0, U+2000-U+200A, U+3000, ...) are not
  stripped, because the model's characters carry no Unicode properties.
- Stamps.ParseStamp: reads ASCII digits only, and its whitespace between date and time is
  `Text.IsSpace`. Python's `\d` and `\s` also accept other Unicode digits and spaces.
- `pd.to_datetime` turning the strings "now" and "today" into the current time is not
  modelled, since it depends on the clock.
- Column labels that clash after cleaning are collapsed into one `DuplicateColumns` error.
  pandas' handling of duplicate labels is not modelled.
- Views.SortDesc: pandas' default sort is not stable. The model sorts stably and promises
  only newest-first order and the same rows, not the order of rows with equal timestamps.
- Views.SortedView: promises the order and the multiset of rows, not pandas' placement of
  equal timestamps.
- Stamps.NotAfter: the order is defined through a mixed-radix key. It agrees with
  lexicographic order of the fields for fields in their calendar ranges, which is every
  parsed timestamp (`Views.SortedViewFieldOrder` for a loaded table).
- The min/mean/max statistics table (app.py:142-143) is left out. It is floating-point
  aggregation inside pandas.
- Building and rendering the Plotly figure is not modelled (app.py:103-109, 138). A trace
  is its name, colour and dash, and `Style.Figure` is built from those.
