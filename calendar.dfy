/**
 * Calendar dates and date-times as Python's `datetime` module sees them: which
 * ones exist, how they are ordered, how `strptime` reads the leading
 * `YYYY-MM-DD` / `YYYY-MM-DD HH:MM:SS` of a log line, how `strftime` writes
 * them, and the day before a date (`now - timedelta(days=1)`).
 */
module Calendar {

  datatype Date = Date(year: int, month: int, day: int)

  datatype DateTime = DateTime(date: Date, hour: int, minute: int, second: int)

  /** `datetime.date.min`: the only date without a predecessor. */
  const MinDate: Date := Date(1, 1, 1)

  predicate IsLeapYear(y: int)
  {
    y % 4 == 0 && (y % 100 != 0 || y % 400 == 0)
  }

  function DaysInMonth(y: int, m: int): (r: int)
    requires 1 <= m <= 12
    ensures 28 <= r <= 31
  {
    if m == 2 then (if IsLeapYear(y) then 29 else 28)
    else if m == 4 || m == 6 || m == 9 || m == 11 then 30
    else 31
  }

  /** A date `datetime.date` accepts (years 1 to 9999). */
  predicate ValidDate(d: Date)
  {
    1 <= d.year <= 9999 && 1 <= d.month <= 12 && 1 <= d.day <= DaysInMonth(d.year, d.month)
  }

  /** A date-time `datetime.datetime` accepts (seconds 60 and 61 are refused). */
  predicate ValidDateTime(t: DateTime)
  {
    ValidDate(t.date) && 0 <= t.hour < 24 && 0 <= t.minute < 60 && 0 <= t.second < 60
  }

  /** Chronological order of dates. */
  predicate DateBefore(a: Date, b: Date)
  {
    a.year < b.year ||
    (a.year == b.year && (a.month < b.month || (a.month == b.month && a.day < b.day)))
  }

  predicate DateLe(a: Date, b: Date)
  {
    !DateBefore(b, a)
  }

  /** Chronological order of date-times (Python's `>` on `datetime`). */
  predicate DateTimeBefore(a: DateTime, b: DateTime)
  {
    DateBefore(a.date, b.date) ||
    (a.date == b.date &&
      (a.hour < b.hour ||
      (a.hour == b.hour && (a.minute < b.minute || (a.minute == b.minute && a.second < b.second)))))
  }

  predicate DateTimeLe(a: DateTime, b: DateTime)
  {
    !DateTimeBefore(b, a)
  }

  // ----- digits -----

  predicate IsDigit(c: char)
  {
    '0' <= c <= '9'
  }

  function DigitValue(c: char): int
    requires IsDigit(c)
  {
    c as int - '0' as int
  }

  function DigitChar(n: int): char
    requires 0 <= n < 10
  {
    ('0' as int + n) as char
  }

  /** `\d{n}` (ASCII digits) matches `s` at index `i`. */
  predicate DigitsAt(s: string, i: int, n: int)
  {
    0 <= i && 0 <= n && i + n <= |s| && forall k :: i <= k < i + n ==> IsDigit(s[k])
  }

  function Num2(s: string, i: int): int
    requires DigitsAt(s, i, 2)
  {
    10 * DigitValue(s[i]) + DigitValue(s[i + 1])
  }

  function Num4(s: string, i: int): int
    requires DigitsAt(s, i, 4)
  {
    100 * Num2(s, i) + Num2(s, i + 2)
  }

  // ----- the leading date and timestamp of a log line -----

  /** The regular expression `^\d{4}-\d{2}-\d{2}` matches `line`. */
  predicate HasDatePrefix(line: string)
  {
    |line| >= 10 && DigitsAt(line, 0, 4) && line[4] == '-' &&
    DigitsAt(line, 5, 2) && line[7] == '-' && DigitsAt(line, 8, 2)
  }

  /** The fields `strptime(..., '%Y-%m-%d')` reads from a date prefix (not yet checked to exist). */
  function DateOf(line: string): Date
    requires HasDatePrefix(line)
  {
    Date(Num4(line, 0), Num2(line, 5), Num2(line, 8))
  }

  /** The regular expression `^\d{4}-\d{2}-\d{2} \d{2}:\d{2}:\d{2}` matches `line`. */
  predicate HasTimestampPrefix(line: string)
  {
    |line| >= 19 && HasDatePrefix(line) && line[10] == ' ' &&
    DigitsAt(line, 11, 2) && line[13] == ':' && DigitsAt(line, 14, 2) && line[16] == ':' &&
    DigitsAt(line, 17, 2)
  }

  /** The fields `strptime(..., '%Y-%m-%d %H:%M:%S')` reads from a timestamp prefix. */
  function TimestampOf(line: string): DateTime
    requires HasTimestampPrefix(line)
  {
    DateTime(DateOf(line), Num2(line, 11), Num2(line, 14), Num2(line, 17))
  }

  // ----- strftime -----

  /** A zero-padded two-digit field (`%m`, `%d`, `%H`, `%M`, `%S`, `%y`); it reads back as `n`. */
  function Pad2(n: int): (r: string)
    requires 0 <= n < 100
    ensures |r| == 2 && DigitsAt(r, 0, 2) && Num2(r, 0) == n
  {
    [DigitChar(n / 10), DigitChar(n % 10)]
  }

  /** A zero-padded four-digit year (`%Y`); it reads back as `n`. */
  function Pad4(n: int): (r: string)
    requires 0 <= n < 10000
    ensures |r| == 4 && DigitsAt(r, 0, 4) && Num4(r, 0) == n
  {
    var hi, lo := Pad2(n / 100), Pad2(n % 100);
    assert (hi + lo)[..2] == hi && (hi + lo)[2..] == lo;
    hi + lo
  }

  /** `strftime('%Y-%m-%d')`: the text is a date prefix that `strptime` reads back as `d`. */
  function FormatDate(d: Date): (r: string)
    requires ValidDate(d)
    ensures |r| == 10 && HasDatePrefix(r) && DateOf(r) == d
  {
    var y, m, dd := Pad4(d.year), Pad2(d.month), Pad2(d.day);
    var r := y + "-" + m + "-" + dd;
    assert r[..4] == y && r[5..7] == m && r[8..10] == dd;
    r
  }

  /**
   * `d - timedelta(days=1)`: a valid date before `d` with no valid date strictly
   * between the two.  Python raises `OverflowError` below `date.min`.
   */
  function PrevDay(d: Date): (r: Date)
    requires ValidDate(d) && d != MinDate
    ensures ValidDate(r) && DateBefore(r, d)
    ensures forall x :: ValidDate(x) && DateBefore(r, x) ==> !DateBefore(x, d)
  {
    if d.day > 1 then Date(d.year, d.month, d.day - 1)
    else if d.month > 1 then Date(d.year, d.month - 1, DaysInMonth(d.year, d.month - 1))
    else Date(d.year - 1, 12, 31)
  }

  /** The lexicographic order on date-times is a strict total order. */
  lemma DateTimeOrder(a: DateTime, b: DateTime, c: DateTime)
    ensures !DateTimeBefore(a, a)
    ensures DateTimeBefore(a, b) && DateTimeBefore(b, c) ==> DateTimeBefore(a, c)
    ensures a == b || DateTimeBefore(a, b) || DateTimeBefore(b, a)
  {
  }
}
