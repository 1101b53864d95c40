/** Timestamps: `pd.to_datetime(cell, format="%d/%m/%Y %H:%M:%S", errors="coerce")` on one
    value, the formatting it inverts, and the chronological order the views sort by. */
module Stamps {
  import opened Wrappers
  import opened Text

  /** A calendar date and time of day, at one-second resolution. */
  datatype DateTime = DateTime(year: int, month: int, day: int, hour: int, minute: int, second: int)

  predicate IsLeapYear(y: int) {
    y % 4 == 0 && (y % 100 != 0 || y % 400 == 0)
  }

  function DaysInMonth(y: int, m: int): int
    requires 1 <= m <= 12
  {
    if m == 2 then (if IsLeapYear(y) then 29 else 28)
    else if m == 4 || m == 6 || m == 9 || m == 11 then 30
    else 31
  }

  // ---------------------------------------------------------------- order

  /** The fields in the order Python compares two datetimes. */
  function Fields(d: DateTime): seq<int> {
    [d.year, d.month, d.day, d.hour, d.minute, d.second]
  }

  /** Lexicographic order on equally long integer sequences: how `datetime` compares. */
  predicate LexLe(a: seq<int>, b: seq<int>)
    requires |a| == |b|
  {
    a == [] || a[0] < b[0] || (a[0] == b[0] && LexLe(a[1..], b[1..]))
  }

  /** Every field below the year within its calendar range. */
  predicate InRange(d: DateTime) {
    0 <= d.month <= 12 && 0 <= d.day <= 31 && 0 <= d.hour <= 23 && 0 <= d.minute <= 59 && 0 <= d.second <= 59
  }

  /** The timestamp as one number in mixed radix, the year being the leading digit. */
  function Key(d: DateTime): int {
    ((((d.year * 13 + d.month) * 32 + d.day) * 24 + d.hour) * 60 + d.minute) * 60 + d.second
  }

  /** `a` is not later than `b`: the comparison `a <= b` of two timestamps. */
  predicate NotAfter(a: DateTime, b: DateTime) {
    Key(a) <= Key(b)
  }

  /** One digit of a mixed-radix number: comparing `q * m + r` compares `q`, then `r`. */
  lemma MixedRadix(q1: int, r1: int, q2: int, r2: int, m: int)
    requires 0 <= r1 < m && 0 <= r2 < m
    ensures q1 * m + r1 <= q2 * m + r2 <==> q1 < q2 || (q1 == q2 && r1 <= r2)
  {
    if q1 < q2 {
      calc {
        q1 * m + r1;
      < q1 * m + m;
      == (q1 + 1) * m;
      <= { assert q1 + 1 <= q2; } q2 * m;
      <= q2 * m + r2;
      }
    } else if q1 > q2 {
      calc {
        q2 * m + r2;
      < q2 * m + m;
      == (q2 + 1) * m;
      <= { assert q2 + 1 <= q1; } q1 * m;
      <= q1 * m + r1;
      }
    }
  }

  /** Comparing sequences that start with one number each compares those numbers first. */
  lemma LexLeCons(x: int, xs: seq<int>, y: int, ys: seq<int>)
    requires |xs| == |ys|
    ensures LexLe([x] + xs, [y] + ys) <==> x < y || (x == y && LexLe(xs, ys))
  {
    assert ([x] + xs)[1..] == xs && ([y] + ys)[1..] == ys;
  }

  /** The field-by-field comparison, written out. */
  predicate FieldsLe(a: DateTime, b: DateTime) {
    a.year < b.year || (a.year == b.year && (a.month < b.month || (a.month == b.month &&
    (a.day < b.day || (a.day == b.day && (a.hour < b.hour || (a.hour == b.hour &&
    (a.minute < b.minute || (a.minute == b.minute && a.second <= b.second)))))))))
  }

  lemma {:induction false} LexLeFields(a: DateTime, b: DateTime)
    ensures LexLe(Fields(a), Fields(b)) <==> FieldsLe(a, b)
  {
    var sa, sb := [a.second], [b.second];
    var ma, mb := [a.minute] + sa, [b.minute] + sb;
    var ha, hb := [a.hour] + ma, [b.hour] + mb;
    var da, db := [a.day] + ha, [b.day] + hb;
    var na, nb := [a.month] + da, [b.month] + db;
    assert Fields(a) == [a.year] + na && Fields(b) == [b.year] + nb;
    LexLeCons(a.second, [], b.second, []);
    LexLeCons(a.minute, sa, b.minute, sb);
    LexLeCons(a.hour, ma, b.hour, mb);
    LexLeCons(a.day, ha, b.day, hb);
    LexLeCons(a.month, da, b.month, db);
    LexLeCons(a.year, na, b.year, nb);
  }

  lemma KeyFields(a: DateTime, b: DateTime)
    requires InRange(a) && InRange(b)
    ensures Key(a) <= Key(b) <==> FieldsLe(a, b)
  {
    var ya, yb := a.year * 13 + a.month, b.year * 13 + b.month;
    var da, db := ya * 32 + a.day, yb * 32 + b.day;
    var ha, hb := da * 24 + a.hour, db * 24 + b.hour;
    var ma, mb := ha * 60 + a.minute, hb * 60 + b.minute;
    MixedRadix(a.year, a.month, b.year, b.month, 13);
    MixedRadix(ya, a.day, yb, b.day, 32);
    MixedRadix(da, a.hour, db, b.hour, 24);
    MixedRadix(ha, a.minute, hb, b.minute, 60);
    MixedRadix(ma, a.second, mb, b.second, 60);
  }

  /** For timestamps whose fields are in range, comparing keys is comparing the
      fields lexicographically, which is how Python orders datetimes. */
  lemma NotAfterIsLexicographic(a: DateTime, b: DateTime)
    requires InRange(a) && InRange(b)
    ensures NotAfter(a, b) <==> LexLe(Fields(a), Fields(b))
  {
    KeyFields(a, b);
    LexLeFields(a, b);
  }

  lemma NotAfterTotal(a: DateTime, b: DateTime)
    ensures NotAfter(a, b) || NotAfter(b, a)
  {
  }

  lemma NotAfterTrans(a: DateTime, b: DateTime, c: DateTime)
    requires NotAfter(a, b) && NotAfter(b, c)
    ensures NotAfter(a, c)
  {
  }

  // ---------------------------------------------------------------- validity

  /** The earliest and latest whole-second instants a pandas nanosecond timestamp
      can hold (1677-09-21 00:12:43.145224193 and 2262-04-11 23:47:16.854775807). */
  const Earliest := DateTime(1677, 9, 21, 0, 12, 44)
  const Latest := DateTime(2262, 4, 11, 23, 47, 16)

  /** A real calendar instant that pandas can represent. */
  predicate Valid(d: DateTime) {
    && 1 <= d.month <= 12
    && 1 <= d.day <= DaysInMonth(d.year, d.month)
    && 0 <= d.hour <= 23 && 0 <= d.minute <= 59 && 0 <= d.second <= 59
    && NotAfter(Earliest, d) && NotAfter(d, Latest)
  }

  lemma ValidYear(d: DateTime)
    requires Valid(d)
    ensures 1677 <= d.year <= 2262
  {
  }

  /** What pandas checks before it builds a timestamp from parsed fields: a date that
      exists, an hour and a minute in range, a second up to 61 (all the second's
      pattern admits), and fields that compare, one by one, within the bounds. */
  predicate RawValid(d: DateTime) {
    && 1 <= d.month <= 12
    && 1 <= d.day <= DaysInMonth(d.year, d.month)
    && 0 <= d.hour <= 23 && 0 <= d.minute <= 59 && 0 <= d.second <= 61
    && FieldsLe(Earliest, d) && FieldsLe(d, Latest)
  }

  /** For a second below 60 the field-by-field bounds check is `Valid`. */
  lemma RawValidIff(d: DateTime)
    requires d.second <= 59
    ensures RawValid(d) <==> Valid(d)
  {
    if InRange(d) {
      KeyFields(Earliest, d);
      KeyFields(d, Latest);
    }
  }

  // ---------------------------------------------------------------- rollover

  /** The first second of the minute after `d`'s, keeping `d`'s second. */
  function NextMinute(d: DateTime): DateTime
    requires 1 <= d.month <= 12
  {
    if d.minute < 59 then d.(minute := d.minute + 1)
    else if d.hour < 23 then d.(hour := d.hour + 1, minute := 0)
    else if d.day < DaysInMonth(d.year, d.month) then d.(day := d.day + 1, hour := 0, minute := 0)
    else if d.month < 12 then d.(month := d.month + 1, day := 1, hour := 0, minute := 0)
    else DateTime(d.year + 1, 1, 1, 0, 0, d.second)
  }

  /** The instant the fields stand for: a second of 60 or 61 is carried into the next
      minute, since the count of seconds pandas computes from the fields does not stop
      at 59. Every other instant is its own fields. */
  function Rollover(d: DateTime): (r: DateTime)
    requires RawValid(d)
    ensures Valid(r)
    ensures d.second <= 59 ==> r == d
  {
    if d.second <= 59 then
      RawValidIff(d);
      d
    else
      LateSecondValid(d);
      NextMinute(d.(second := d.second - 60))
  }

  /** The minute after fields within bounds whose second is 60 or 61 is still a valid
      instant: the bounds' own seconds (44 and 16) lie below 60. */
  lemma LateSecondValid(d: DateTime)
    requires RawValid(d) && d.second >= 60
    ensures Valid(NextMinute(d.(second := d.second - 60)))
  {
    var n := NextMinute(d.(second := d.second - 60));
    assert InRange(n);
    KeyFields(Earliest, n);
    KeyFields(n, Latest);
  }

  /** Days from 1 January of year 1 to 1 January of year `y`, proleptic Gregorian. */
  function DaysBeforeYear(y: int): int {
    var p := y - 1;
    p * 365 + p / 4 - p / 100 + p / 400
  }

  /** Days from 1 January of year `y` to the first of month `m`. */
  function DaysBeforeMonth(y: int, m: int): int
    requires 1 <= m <= 12
  {
    [0, 31, 59, 90, 120, 151, 181, 212, 243, 273, 304, 334][m - 1] + (if m > 2 && IsLeapYear(y) then 1 else 0)
  }

  /** The fields as a count of seconds, the way pandas turns them into one number: whole
      days times 86400 plus hours, minutes and seconds, the second taken as it is.
      Counted from 1 January of year 1 rather than 1970, a constant offset. */
  function Seconds(d: DateTime): int
    requires 1 <= d.month <= 12
  {
    (DaysBeforeYear(d.year) + DaysBeforeMonth(d.year, d.month) + d.day - 1) * 86400
      + d.hour * 3600 + d.minute * 60 + d.second
  }

  lemma DaysBeforeNextMonth(y: int, m: int)
    requires 1 <= m < 12
    ensures DaysBeforeMonth(y, m + 1) == DaysBeforeMonth(y, m) + DaysInMonth(y, m)
  {
  }

  lemma DaysBeforeNextYear(y: int)
    ensures DaysBeforeYear(y + 1) == DaysBeforeYear(y) + DaysBeforeMonth(y, 12) + 31
  {
    MultiplesStep(y);
  }

  /** Going from `y - 1` to `y`, the count of multiples of 4, of 100 and of 400 each
      grows exactly when `y` is one. */
  lemma MultiplesStep(y: int)
    ensures y / 4 - (y - 1) / 4 == if y % 4 == 0 then 1 else 0
    ensures y / 100 - (y - 1) / 100 == if y % 100 == 0 then 1 else 0
    ensures y / 400 - (y - 1) / 400 == if y % 400 == 0 then 1 else 0
  {
  }

  /** Carrying a second of 60 or 61 does not move the instant: the rolled-over timestamp
      counts the same number of seconds as the fields it was read from. */
  lemma RolloverKeepsInstant(d: DateTime)
    requires RawValid(d)
    ensures Seconds(Rollover(d)) == Seconds(d)
  {
    if d.second >= 60 && d.minute == 59 && d.hour == 23 && d.day == DaysInMonth(d.year, d.month) {
      if d.month < 12 {
        DaysBeforeNextMonth(d.year, d.month);
      } else {
        DaysBeforeNextYear(d.year);
      }
    }
  }

  // ---------------------------------------------------------------- parsing

  /** Splits `s` at the first `sep`. */
  function Cut(s: string, sep: char): (r: Option<(string, string)>)
    ensures r.Some? ==> s == r.value.0 + [sep] + r.value.1 && sep !in r.value.0
    ensures r.None? ==> sep !in s
  {
    if s == [] then None
    else if s[0] == sep then Some(([], s[1..]))
    else match Cut(s[1..], sep)
      case None => None
      case Some(p) => Some(([s[0]] + p.0, p.1))
  }

  lemma {:induction false} CutAt(a: string, sep: char, b: string)
    requires sep !in a
    ensures Cut(a + [sep] + b, sep) == Some((a, b))
  {
    var s := a + [sep] + b;
    if a != [] {
      assert s[0] == a[0] != sep;
      assert s[1..] == a[1..] + [sep] + b;
      CutAt(a[1..], sep, b);
      assert [a[0]] + a[1..] == a;
    }
  }

  /** One or two digits whose value lies in `lo..hi`. For the hour, month, minute
      and second directives the regular expressions of `strptime`
      (`2[0-3]|[0-1]\d|\d`, `1[0-2]|0[1-9]|[1-9]`, `[0-5]\d|\d`, `6[0-1]|[0-5]\d|\d`)
      accept exactly these texts before their separator (or the end). The second's
      pattern admits 60 and 61; `Rollover` carries those into the next minute. */
  function NumberField(t: string, lo: int, hi: int): (r: Option<int>)
    ensures r.Some? ==> lo <= r.value <= hi
  {
    if 1 <= |t| <= 2 && AllDigits(t) && lo <= DigitsValue(t) <= hi then Some(DigitsValue(t) as int)
    else None
  }

  /** `%d`, whose pattern `3[01]|[12]\d|0[1-9]|[1-9]| [1-9]` also admits a space
      followed by a non-zero digit. */
  function DayField(t: string): (r: Option<int>)
    ensures r.Some? ==> 1 <= r.value <= 31
  {
    if |t| == 2 && t[0] == ' ' && '1' <= t[1] <= '9' then Some(t[1] as int - '0' as int)
    else NumberField(t, 1, 31)
  }

  /** `day/month/year hour:minute:second` read into fields: a four-digit year, at least
      one whitespace character between date and time, nothing after the seconds, a date
      that exists and fields within pandas' bounds. Anything else is `None` (NaT). */
  function ParseFields(s: string): (r: Option<DateTime>)
    ensures r.Some? ==> RawValid(r.value)
  {
    var dayCut :- Cut(s, '/');
    var monthCut :- Cut(dayCut.1, '/');
    var day :- DayField(dayCut.0);
    var month :- NumberField(monthCut.0, 1, 12);
    var tail :- ParseYearClock(monthCut.1);
    var d := DateTime(tail.0, month, day, tail.1, tail.2, tail.3);
    if RawValid(d) then Some(d) else None
  }

  /** The timestamp a text stands for: its fields, with a second of 60 or 61 carried
      into the next minute. `None` is pandas' NaT. */
  function ParseStamp(s: string): (r: Option<DateTime>)
    ensures r.Some? ==> Valid(r.value)
  {
    var d :- ParseFields(s);
    Some(Rollover(d))
  }

  /** `year hour:minute:second`: four digits, whitespace, and the clock time. */
  function ParseYearClock(rest: string): Option<(int, int, int, int)> {
    if |rest| < 4 || !AllDigits(rest[..4]) then None
    else
      var gap := LeadingSpace(rest[4..]);
      if gap == 0 then None
      else
        var clock :- ParseClock(rest[4 + gap..]);
        Some((DigitsValue(rest[..4]), clock.0, clock.1, clock.2))
  }

  /** `hour:minute:second` up to the end of the text. */
  function ParseClock(t: string): (r: Option<(int, int, int)>)
    ensures r.Some? ==> 0 <= r.value.0 <= 23 && 0 <= r.value.1 <= 59 && 0 <= r.value.2 <= 61
  {
    var hourCut :- Cut(t, ':');
    var minuteCut :- Cut(hourCut.1, ':');
    var hour :- NumberField(hourCut.0, 0, 23);
    var minute :- NumberField(minuteCut.0, 0, 59);
    var second :- NumberField(minuteCut.1, 0, 61);
    Some((hour, minute, second))
  }

  // ---------------------------------------------------------------- accepted texts

  /** One or two ASCII digits spelling `v`. */
  predicate FieldText(t: string, v: int) {
    1 <= |t| <= 2 && AllDigits(t) && DigitsValue(t) == v
  }

  /** The day: one or two digits, or a space and a non-zero digit. */
  predicate DayText(t: string, v: int) {
    || FieldText(t, v)
    || (|t| == 2 && t[0] == ' ' && '1' <= t[1] <= '9' && v == t[1] as int - '0' as int)
  }

  /** Exactly four ASCII digits spelling `v`. */
  predicate YearText(t: string, v: int) {
    |t| == 4 && AllDigits(t) && DigitsValue(t) == v
  }

  /** At least one whitespace character. */
  predicate GapText(w: string) {
    w != [] && AllSpace(w)
  }

  /** `t` is `hh:mi:ss` spelling the three values. */
  ghost predicate ClockMatches(t: string, hour: int, minute: int, second: int) {
    exists hh, mi, ss :: t == hh + ":" + mi + ":" + ss
      && FieldText(hh, hour) && FieldText(mi, minute) && FieldText(ss, second)
  }

  /** `t` is `yyyy`, then whitespace, then `hh:mi:ss`. */
  ghost predicate YearClockMatches(t: string, year: int, hour: int, minute: int, second: int) {
    exists yyyy, ws, clock :: t == yyyy + ws + clock
      && YearText(yyyy, year) && GapText(ws) && ClockMatches(clock, hour, minute, second)
  }

  /** `s` spells `d` as `dd/mm/yyyy<whitespace>hh:mi:ss`, each field written with the
      digits of `d`'s own field, and nothing before or after. */
  ghost predicate Matches(s: string, d: DateTime) {
    exists dd, mm, rest :: s == dd + "/" + mm + "/" + rest
      && DayText(dd, d.day) && FieldText(mm, d.month)
      && YearClockMatches(rest, d.year, d.hour, d.minute, d.second)
  }

  lemma NumberFieldText(t: string, lo: int, hi: int, v: int)
    ensures NumberField(t, lo, hi) == Some(v) <==> FieldText(t, v) && lo <= v <= hi
  {
  }

  lemma DayFieldText(t: string, v: int)
    ensures DayField(t) == Some(v) <==> DayText(t, v) && 1 <= v <= 31
  {
  }

  /** Two cuts at `sep` split `s` into three parts joined by `sep`. */
  lemma CutTwice(s: string, sep: char)
    requires Cut(s, sep).Some? && Cut(Cut(s, sep).value.1, sep).Some?
    ensures var a := Cut(s, sep).value; var b := Cut(a.1, sep).value;
      s == a.0 + [sep] + b.0 + [sep] + b.1
  {
  }

  /** Cutting `a sep b sep c` twice at `sep`, where `a` and `b` hold no `sep`, gives the
      three parts back. */
  lemma CutTwiceAt(s: string, a: string, b: string, c: string, sep: char)
    requires s == a + [sep] + b + [sep] + c && sep !in a && sep !in b
    ensures Cut(s, sep) == Some((a, b + [sep] + c))
    ensures Cut(b + [sep] + c, sep) == Some((b, c))
  {
    assert s == a + [sep] + (b + [sep] + c);
    CutAt(a, sep, b + [sep] + c);
    CutAt(b, sep, c);
  }

  /** What the clock parser accepts is `hh:mi:ss` with in-range fields. */
  lemma ParseClockSound(t: string, hour: int, minute: int, second: int)
    requires ParseClock(t) == Some((hour, minute, second))
    ensures ClockMatches(t, hour, minute, second)
    ensures 0 <= hour <= 23 && 0 <= minute <= 59 && 0 <= second <= 61
  {
    CutTwice(t, ':');
    var hourCut := Cut(t, ':').value;
    var minuteCut := Cut(hourCut.1, ':').value;
    NumberFieldText(hourCut.0, 0, 23, hour);
    NumberFieldText(minuteCut.0, 0, 59, minute);
    NumberFieldText(minuteCut.1, 0, 61, second);
  }

  /** Every `hh:mi:ss` with in-range fields is accepted, as the values it spells. */
  lemma ParseClockComplete(t: string, hour: int, minute: int, second: int)
    requires ClockMatches(t, hour, minute, second)
    requires 0 <= hour <= 23 && 0 <= minute <= 59 && 0 <= second <= 61
    ensures ParseClock(t) == Some((hour, minute, second))
  {
    var hh, mi, ss :| t == hh + ":" + mi + ":" + ss
      && FieldText(hh, hour) && FieldText(mi, minute) && FieldText(ss, second);
    DigitsExclude(hh);
    DigitsExclude(mi);
    CutTwiceAt(t, hh, mi, ss, ':');
    NumberFieldText(hh, 0, 23, hour);
    NumberFieldText(mi, 0, 59, minute);
    NumberFieldText(ss, 0, 61, second);
  }

  /** The clock parser accepts exactly the `hh:mi:ss` texts with in-range fields, and
      returns the values they spell. */
  lemma ParseClockMatches(t: string, hour: int, minute: int, second: int)
    ensures ParseClock(t) == Some((hour, minute, second)) <==>
      ClockMatches(t, hour, minute, second) && 0 <= hour <= 23 && 0 <= minute <= 59 && 0 <= second <= 61
  {
    if ParseClock(t) == Some((hour, minute, second)) {
      ParseClockSound(t, hour, minute, second);
    }
    if ClockMatches(t, hour, minute, second) && 0 <= hour <= 23 && 0 <= minute <= 59 && 0 <= second <= 61 {
      ParseClockComplete(t, hour, minute, second);
    }
  }

  /** Four characters, the whitespace run after them, and the rest. */
  lemma YearGapJoin(t: string)
    requires |t| >= 4
    ensures var gap := LeadingSpace(t[4..]);
      4 + gap <= |t| && t == t[..4] + t[4..4 + gap] + t[4 + gap..] && AllSpace(t[4..4 + gap])
  {
    var gap := LeadingSpace(t[4..]);
    assert t[4..4 + gap] == t[4..][..gap];
    assert t == t[..4] + t[4..4 + gap] + t[4 + gap..];
  }

  /** What the year-and-clock parser accepts is four digits, whitespace and a clock time. */
  lemma ParseYearClockSound(t: string, year: int, hour: int, minute: int, second: int)
    requires ParseYearClock(t) == Some((year, hour, minute, second))
    ensures YearClockMatches(t, year, hour, minute, second)
    ensures 0 <= hour <= 23 && 0 <= minute <= 59 && 0 <= second <= 61
  {
    YearGapJoin(t);
    var gap := LeadingSpace(t[4..]);
    var yyyy, ws, clock := t[..4], t[4..4 + gap], t[4 + gap..];
    assert ParseClock(clock) == Some((hour, minute, second));
    ParseClockSound(clock, hour, minute, second);
    assert YearText(yyyy, year) && GapText(ws);
  }

  /** A clock text starts with a digit. */
  lemma ClockStart(clock: string, hour: int, minute: int, second: int)
    requires ClockMatches(clock, hour, minute, second)
    ensures clock != [] && IsDigit(clock[0])
  {
    var hh, mi, ss :| clock == hh + ":" + mi + ":" + ss
      && FieldText(hh, hour) && FieldText(mi, minute) && FieldText(ss, second);
    assert clock[0] == hh[0];
  }

  /** Four digits and whitespace in front of a parsable clock time. */
  lemma YearClockParts(t: string, yyyy: string, ws: string, clock: string)
    requires t == yyyy + ws + clock && |yyyy| == 4 && AllDigits(yyyy) && GapText(ws)
    requires clock != [] && IsDigit(clock[0]) && ParseClock(clock).Some?
    ensures ParseYearClock(t) == Some((DigitsValue(yyyy), ParseClock(clock).value.0,
      ParseClock(clock).value.1, ParseClock(clock).value.2))
  {
    YearGapSplit(t, yyyy, ws, clock);
  }

  /** Where the year, the whitespace and the clock time of `yyyy + ws + clock` lie. */
  lemma YearGapSplit(t: string, yyyy: string, ws: string, clock: string)
    requires t == yyyy + ws + clock && |yyyy| == 4 && GapText(ws)
    requires clock != [] && IsDigit(clock[0])
    ensures |t| >= 4 && t[..4] == yyyy
    ensures LeadingSpace(t[4..]) == |ws| && t[4 + |ws|..] == clock
  {
    assert t[..4] == yyyy;
    assert t[4..] == ws + clock;
    LeadingSpaceOf(ws, clock);
  }

  /** Four digits, whitespace and a clock time with in-range fields are accepted. */
  lemma ParseYearClockComplete(t: string, year: int, hour: int, minute: int, second: int)
    requires YearClockMatches(t, year, hour, minute, second)
    requires 0 <= hour <= 23 && 0 <= minute <= 59 && 0 <= second <= 61
    ensures ParseYearClock(t) == Some((year, hour, minute, second))
  {
    var yyyy, ws, clock :| t == yyyy + ws + clock
      && YearText(yyyy, year) && GapText(ws) && ClockMatches(clock, hour, minute, second);
    ClockStart(clock, hour, minute, second);
    ParseClockMatches(clock, hour, minute, second);
    YearClockParts(t, yyyy, ws, clock);
  }

  /** The year-and-clock parser accepts exactly four digits, whitespace and a clock time
      with in-range fields, and returns the values they spell. */
  lemma ParseYearClockMatches(t: string, year: int, hour: int, minute: int, second: int)
    ensures ParseYearClock(t) == Some((year, hour, minute, second)) <==>
      YearClockMatches(t, year, hour, minute, second) && 0 <= hour <= 23 && 0 <= minute <= 59 && 0 <= second <= 61
  {
    if ParseYearClock(t) == Some((year, hour, minute, second)) {
      ParseYearClockSound(t, year, hour, minute, second);
    }
    if YearClockMatches(t, year, hour, minute, second) && 0 <= hour <= 23 && 0 <= minute <= 59 && 0 <= second <= 61 {
      ParseYearClockComplete(t, year, hour, minute, second);
    }
  }

  /** What the field parser accepts spells the fields it returns. */
  lemma ParseFieldsSound(s: string, d: DateTime)
    requires ParseFields(s) == Some(d)
    ensures Matches(s, d) && RawValid(d)
  {
    CutTwice(s, '/');
    var dayCut := Cut(s, '/').value;
    var monthCut := Cut(dayCut.1, '/').value;
    var dd, mm, rest := dayCut.0, monthCut.0, monthCut.1;
    assert DayField(dd) == Some(d.day) && NumberField(mm, 1, 12) == Some(d.month);
    DayFieldText(dd, d.day);
    NumberFieldText(mm, 1, 12, d.month);
    assert ParseYearClock(rest) == Some((d.year, d.hour, d.minute, d.second));
    ParseYearClockSound(rest, d.year, d.hour, d.minute, d.second);
  }

  /** A day field has no '/'. */
  lemma DayNoSlash(dd: string, v: int)
    requires DayText(dd, v)
    ensures '/' !in dd
  {
    if FieldText(dd, v) { DigitsExclude(dd); }
  }

  /** Every spelling of fields within bounds is accepted, as those fields. */
  lemma ParseFieldsComplete(s: string, d: DateTime)
    requires Matches(s, d) && RawValid(d)
    ensures ParseFields(s) == Some(d)
  {
    var dd, mm, rest :| s == dd + "/" + mm + "/" + rest
      && DayText(dd, d.day) && FieldText(mm, d.month)
      && YearClockMatches(rest, d.year, d.hour, d.minute, d.second);
    DayNoSlash(dd, d.day);
    DigitsExclude(mm);
    CutTwiceAt(s, dd, mm, rest, '/');
    DayFieldText(dd, d.day);
    NumberFieldText(mm, 1, 12, d.month);
    ParseYearClockComplete(rest, d.year, d.hour, d.minute, d.second);
  }

  /** The field parser accepts exactly the texts that spell, as
      `dd/mm/yyyy<whitespace>hh:mi:ss`, fields of a real date within pandas' bounds,
      and returns those fields. */
  lemma ParseFieldsMatches(s: string, d: DateTime)
    ensures ParseFields(s) == Some(d) <==> Matches(s, d) && RawValid(d)
  {
    if ParseFields(s) == Some(d) {
      ParseFieldsSound(s, d);
    }
    if Matches(s, d) && RawValid(d) {
      ParseFieldsComplete(s, d);
    }
  }

  /** What the timestamp parser accepts spells fields that roll over to its result. */
  lemma ParseStampSound(s: string, d: DateTime)
    requires ParseStamp(s) == Some(d)
    ensures exists raw :: Matches(s, raw) && RawValid(raw) && Rollover(raw) == d
  {
    var raw := ParseFields(s).value;
    ParseFieldsSound(s, raw);
  }

  /** Every spelling of fields within bounds parses, to the fields rolled over. */
  lemma ParseStampComplete(s: string, raw: DateTime)
    requires Matches(s, raw) && RawValid(raw)
    ensures ParseStamp(s) == Some(Rollover(raw))
  {
    ParseFieldsComplete(s, raw);
  }

  /** A text parses to `d` exactly when it spells fields within bounds that roll over
      to `d`; a valid `d` spelled with its own second parses to itself. */
  lemma ParseStampMatches(s: string, d: DateTime)
    ensures ParseStamp(s) == Some(d) <==> exists raw :: Matches(s, raw) && RawValid(raw) && Rollover(raw) == d
    ensures Valid(d) && Matches(s, d) ==> ParseStamp(s) == Some(d)
  {
    if ParseStamp(s) == Some(d) {
      ParseStampSound(s, d);
    }
    if exists raw :: Matches(s, raw) && RawValid(raw) && Rollover(raw) == d {
      ParseStampSpelled(s, d);
    }
    if Valid(d) && Matches(s, d) {
      ParseStampOwnSecond(s, d);
    }
  }

  lemma ParseStampSpelled(s: string, d: DateTime)
    requires exists raw :: Matches(s, raw) && RawValid(raw) && Rollover(raw) == d
    ensures ParseStamp(s) == Some(d)
  {
    var raw :| Matches(s, raw) && RawValid(raw) && Rollover(raw) == d;
    ParseStampComplete(s, raw);
  }

  /** A valid instant spelled with its own fields parses to itself. */
  lemma ParseStampOwnSecond(s: string, d: DateTime)
    requires Valid(d) && Matches(s, d)
    ensures ParseStamp(s) == Some(d)
  {
    RawValidIff(d);
    ParseStampComplete(s, d);
  }

  lemma LenientClock()
    ensures ClockMatches("1:2:3", 1, 2, 3)
  {
    assert "1:2:3" == "1" + ":" + "2" + ":" + "3";
    assert FieldText("1", 1) && FieldText("2", 2) && FieldText("3", 3);
  }

  lemma LenientYearClock()
    ensures YearClockMatches("2024\t\t1:2:3", 2024, 1, 2, 3)
  {
    LenientClock();
    assert "2024\t\t1:2:3" == "2024" + "\t\t" + "1:2:3";
    assert "2024"[..3] == "202" && "202"[..2] == "20" && "20"[..1] == "2";
    assert DigitsValue("20") == 20 && DigitsValue("202") == 202;
    assert YearText("2024", 2024) && GapText("\t\t");
  }

  lemma LenientDate()
    ensures Matches(" 1/1/2024\t\t1:2:3", DateTime(2024, 1, 1, 1, 2, 3))
  {
    LenientYearClock();
    assert " 1/1/2024\t\t1:2:3" == " 1" + "/" + "1" + "/" + "2024\t\t1:2:3";
    assert DayText(" 1", 1) && FieldText("1", 1);
  }

  /** A lenient spelling: a space-padded day, unpadded month and clock fields and two
      tabs between date and time still give the instant they spell. */
  lemma LenientSpelling()
    ensures ParseStamp(" 1/1/2024\t\t1:2:3") == Some(DateTime(2024, 1, 1, 1, 2, 3))
  {
    LenientDate();
    assert Valid(DateTime(2024, 1, 1, 1, 2, 3));
    ParseStampOwnSecond(" 1/1/2024\t\t1:2:3", DateTime(2024, 1, 1, 1, 2, 3));
  }

  lemma LateClock()
    ensures ClockMatches("10:00:60", 10, 0, 60)
  {
    assert "10:00:60" == "10" + ":" + "00" + ":" + "60";
    assert FieldText("10", 10) && FieldText("00", 0) && FieldText("60", 60);
  }

  lemma LateYearClock()
    ensures YearClockMatches("2024 10:00:60", 2024, 10, 0, 60)
  {
    LateClock();
    assert "2024 10:00:60" == "2024" + " " + "10:00:60";
    assert "2024"[..3] == "202" && "202"[..2] == "20" && "20"[..1] == "2";
    assert DigitsValue("20") == 20 && DigitsValue("202") == 202;
    assert YearText("2024", 2024) && GapText(" ");
  }

  lemma LateDate()
    ensures Matches("01/01/2024 10:00:60", DateTime(2024, 1, 1, 10, 0, 60))
  {
    LateYearClock();
    assert "01/01/2024 10:00:60" == "01" + "/" + "01" + "/" + "2024 10:00:60";
    assert DayText("01", 1) && FieldText("01", 1);
  }

  /** A second of 60 is the first second of the next minute, as pandas counts it. */
  lemma LateSecondRollsOver()
    ensures ParseStamp("01/01/2024 10:00:60") == Some(DateTime(2024, 1, 1, 10, 1, 0))
  {
    LateDate();
    assert RawValid(DateTime(2024, 1, 1, 10, 0, 60));
    ParseFieldsComplete("01/01/2024 10:00:60", DateTime(2024, 1, 1, 10, 0, 60));
  }

  // ---------------------------------------------------------------- formatting

  /** `strftime("%d/%m/%Y %H:%M:%S")`. */
  function FormatStamp(d: DateTime): (s: string)
    requires Valid(d)
  {
    ValidYear(d);
    Pad(d.day, 2) + ['/'] + (Pad(d.month, 2) + ['/'] + YearClockText(d.year, d.hour, d.minute, d.second))
  }

  /** `%Y %H:%M:%S`. */
  function YearClockText(year: nat, hour: nat, minute: nat, second: nat): string
    requires year <= 9999 && hour <= 99 && minute <= 99 && second <= 99
  {
    Pad(year, 4) + [' '] + ClockText(hour, minute, second)
  }

  /** `%H:%M:%S`. */
  function ClockText(hour: nat, minute: nat, second: nat): string
    requires hour <= 99 && minute <= 99 && second <= 99
  {
    Pad(hour, 2) + [':'] + (Pad(minute, 2) + [':'] + Pad(second, 2))
  }

  lemma DigitsExclude(s: string)
    requires AllDigits(s)
    ensures '/' !in s && ':' !in s && ' ' !in s
  {
    forall i | 0 <= i < |s| ensures s[i] != '/' && s[i] != ':' && s[i] != ' ' { assert IsDigit(s[i]); }
  }

  lemma PaddedField(n: nat, lo: int, hi: int)
    requires lo <= n <= hi && n < 100
    ensures NumberField(Pad(n, 2), lo, hi) == Some(n)
  {
  }

  /** Reading back a formatted clock time gives it back. */
  lemma ClockRoundTrip(hour: nat, minute: nat, second: nat)
    requires hour <= 23 && minute <= 59 && second <= 59
    ensures ParseClock(ClockText(hour, minute, second)) == Some((hour, minute, second))
  {
    var hh, mi, ss := Pad(hour, 2), Pad(minute, 2), Pad(second, 2);
    DigitsExclude(hh);
    DigitsExclude(mi);
    CutAt(hh, ':', mi + [':'] + ss);
    CutAt(mi, ':', ss);
    PaddedField(hour, 0, 23);
    PaddedField(minute, 0, 59);
    PaddedField(second, 0, 61);
  }

  /** Reading back a formatted year and clock time gives them back. */
  lemma YearClockRoundTrip(year: nat, hour: nat, minute: nat, second: nat)
    requires year <= 9999 && hour <= 23 && minute <= 59 && second <= 59
    ensures ParseYearClock(YearClockText(year, hour, minute, second)) == Some((year, hour, minute, second))
  {
    var yy, time := Pad(year, 4), ClockText(hour, minute, second);
    var rest := yy + [' '] + time;
    assert rest[..4] == yy;
    assert rest[4..] == [' '] + time;
    assert time[0] == Pad(hour, 2)[0] && IsDigit(time[0]);
    assert LeadingSpace(rest[4..]) == 1 by {
      assert IsSpace(([' '] + time)[0]);
      assert ([' '] + time)[1..] == time;
    }
    assert rest[5..] == time;
    ClockRoundTrip(hour, minute, second);
  }

  /** Parsing a formatted valid timestamp gives it back. */
  lemma ParseFormat(d: DateTime)
    requires Valid(d)
    ensures ParseStamp(FormatStamp(d)) == Some(d)
  {
    ValidYear(d);
    var dd, mm := Pad(d.day, 2), Pad(d.month, 2);
    var rest := YearClockText(d.year, d.hour, d.minute, d.second);
    DigitsExclude(dd);
    DigitsExclude(mm);
    CutAt(dd, '/', mm + ['/'] + rest);
    CutAt(mm, '/', rest);
    assert DayField(dd) == Some(d.day) by {
      assert dd[0] != ' ';
      PaddedField(d.day, 1, 31);
    }
    PaddedField(d.month, 1, 12);
    YearClockRoundTrip(d.year, d.hour, d.minute, d.second);
    RawValidIff(d);
  }

  /** Text with no '/' is never a timestamp: in particular no rendering of a float. */
  lemma NoSlashNoStamp(s: string)
    requires '/' !in s
    ensures ParseStamp(s) == None
  {
  }
}
