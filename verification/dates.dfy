/** Calendar dates and the release-date normaliser of `get_new_releases`. */
module Dates {
  import opened Wrappers
  import opened Digits

  /** A proleptic Gregorian calendar date, Python's `datetime.date`. */
  datatype Date = Date(year: int, month: int, day: int)

  /** A point in time, Python's `datetime.datetime`: a calendar date plus a
      time of day (microseconds since midnight) that only `.date()` discards. */
  datatype Instant = Instant(date: Date, timeOfDay: nat)

  predicate IsLeap(y: int) {
    y % 4 == 0 && (y % 100 != 0 || y % 400 == 0)
  }

  function DaysInMonth(y: int, m: int): (n: int)
    requires 1 <= m <= 12
    ensures 28 <= n <= 31
  {
    if m == 2 then (if IsLeap(y) then 29 else 28)
    else if m == 4 || m == 6 || m == 9 || m == 11 then 30
    else 31
  }

  /** The dates `datetime.date` can represent (years 1 to 9999). */
  predicate Valid(d: Date) {
    && 1 <= d.year <= 9999
    && 1 <= d.month <= 12
    && 1 <= d.day <= DaysInMonth(d.year, d.month)
  }

  /** Chronological order: `a < b` on Python dates. */
  predicate Before(a: Date, b: Date) {
    || a.year < b.year
    || (a.year == b.year && a.month < b.month)
    || (a.year == b.year && a.month == b.month && a.day < b.day)
  }

  lemma BeforeTotal(a: Date, b: Date)
    ensures a == b || Before(a, b) || Before(b, a)
    ensures !(Before(a, b) && Before(b, a))
  {
  }

  lemma BeforeTransitive(a: Date, b: Date, c: Date)
    requires Before(a, b) && Before(b, c)
    ensures Before(a, c)
  {
  }

  /** `strftime('%Y-%m-%d')`: four-digit year, two-digit month and day. */
  function Format(d: Date): string
    requires Valid(d)
  {
    Pad(d.year, 4) + "-" + Pad(d.month, 2) + "-" + Pad(d.day, 2)
  }

  /** `strftime('%Y-%m')` of the same date. */
  function FormatMonth(d: Date): string
    requires Valid(d)
  {
    Pad(d.year, 4) + "-" + Pad(d.month, 2)
  }

  /** `strftime('%Y')` of the same date. */
  function FormatYear(d: Date): string
    requires Valid(d)
  {
    Pad(d.year, 4)
  }

  /** The date `datetime` builds from parsed fields, or the ValueError it raises. */
  function Build(y: int, m: int, d: int): Option<Date> {
    if Valid(Date(y, m, d)) then Some(Date(y, m, d)) else None
  }

  /** `strptime(s, '%Y-%m-%d').date()` over the canonical fixed-width form. */
  function ParseDay(s: string): (r: Option<Date>)
    ensures r.Some? ==> Valid(r.value)
  {
    if |s| == 10 && s[4] == '-' && s[7] == '-'
       && AllDigits(s[..4]) && AllDigits(s[5..7]) && AllDigits(s[8..])
    then Build(Value(s[..4]), Value(s[5..7]), Value(s[8..]))
    else None
  }

  /** `strptime(s, '%Y-%m').date()`: the missing day defaults to 1. */
  function ParseMonth(s: string): (r: Option<Date>)
    ensures r.Some? ==> Valid(r.value)
  {
    if |s| == 7 && s[4] == '-' && AllDigits(s[..4]) && AllDigits(s[5..])
    then Build(Value(s[..4]), Value(s[5..]), 1)
    else None
  }

  /** `strptime(s, '%Y').date()`: the missing month and day default to 1. */
  function ParseYear(s: string): (r: Option<Date>)
    ensures r.Some? ==> Valid(r.value)
  {
    if |s| == 4 && AllDigits(s) then Build(Value(s), 1, 1) else None
  }

  /** What the normaliser makes of one release date: a calendar date, a
      precision it does not know (reported and skipped), or a string the
      parser rejects (an uncaught ValueError). */
  datatype Normalized = Dated(date: Date) | UnknownPrecision | Malformed

  predicate KnownPrecision(precision: string) {
    precision == "day" || precision == "month" || precision == "year"
  }

  /** The precision dispatch of `get_new_releases`: day dates are parsed
      whole, month dates are anchored to day 1, year dates to January 1. */
  function Normalize(raw: string, precision: string): (r: Normalized)
    ensures r.UnknownPrecision? <==> !KnownPrecision(precision)
    ensures r.Dated? ==> Valid(r.date)
    ensures r.Dated? && precision == "month" ==> r.date.day == 1
    ensures r.Dated? && precision == "year" ==> r.date.month == 1 && r.date.day == 1
  {
    if precision == "day" then
      match ParseDay(raw)
      case Some(d) => Dated(d)
      case None => Malformed
    else if precision == "month" then
      match ParseMonth(raw)
      case Some(d) => Dated(d.(day := 1))
      case None => Malformed
    else if precision == "year" then
      match ParseYear(raw)
      case Some(d) => Dated(d.(month := 1, day := 1))
      case None => Malformed
    else UnknownPrecision
  }

  lemma PadFields(d: Date)
    requires Valid(d)
    ensures Value(Pad(d.year, 4)) == d.year
    ensures Value(Pad(d.month, 2)) == d.month
    ensures Value(Pad(d.day, 2)) == d.day
  {
    ValueOfPad(d.year, 4);
    ValueOfPad(d.month, 2);
    ValueOfPad(d.day, 2);
  }

  /** A day-precision date reads back as exactly the date it renders. */
  lemma NormalizeDay(d: Date)
    requires Valid(d)
    ensures Normalize(Format(d), "day") == Dated(d)
  {
    var s := Format(d);
    PadFields(d);
    assert s[..4] == Pad(d.year, 4);
    assert s[5..7] == Pad(d.month, 2);
    assert s[8..] == Pad(d.day, 2);
  }

  /** A month-precision date normalises to day 1 of its month. */
  lemma NormalizeMonth(d: Date)
    requires Valid(d)
    ensures Normalize(FormatMonth(d), "month") == Dated(Date(d.year, d.month, 1))
  {
    var s := FormatMonth(d);
    PadFields(d);
    assert s[..4] == Pad(d.year, 4);
    assert s[5..] == Pad(d.month, 2);
  }

  /** A year-precision date normalises to January 1 of its year. */
  lemma NormalizeYear(d: Date)
    requires Valid(d)
    ensures Normalize(FormatYear(d), "year") == Dated(Date(d.year, 1, 1))
  {
    PadFields(d);
  }

  /** Conversely, the parser accepts nothing but canonical renderings of valid dates. */
  lemma NormalizeExact(raw: string, precision: string)
    requires Normalize(raw, precision).Dated?
    ensures precision == "day" ==> raw == Format(Normalize(raw, precision).date)
    ensures precision == "month" ==> raw == FormatMonth(Normalize(raw, precision).date)
    ensures precision == "year" ==> raw == FormatYear(Normalize(raw, precision).date)
  {
    var d := Normalize(raw, precision).date;
    if precision == "day" {
      PadOfValue(raw[..4]);
      PadOfValue(raw[5..7]);
      PadOfValue(raw[8..]);
      assert raw == raw[..4] + "-" + raw[5..7] + "-" + raw[8..];
    } else if precision == "month" {
      PadOfValue(raw[..4]);
      PadOfValue(raw[5..]);
      assert raw == raw[..4] + "-" + raw[5..];
    } else if precision == "year" {
      PadOfValue(raw);
    }
  }
}
