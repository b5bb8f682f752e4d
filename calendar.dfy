/**
 * Gregorian dates as Python's `datetime` sees them, the month addition of
 * `dateutil.relativedelta`, and the two `strftime` formats used on labels.
 */
module Calendar {
  import opened Wrappers
  import opened Text

  /** Python's `datetime.MINYEAR` and `datetime.MAXYEAR`. */
  const MinYear: int := 1
  const MaxYear: int := 9999

  datatype Date = Date(year: int, month: int, day: int)

  predicate IsLeapYear(y: int) {
    y % 4 == 0 && (y % 100 != 0 || y % 400 == 0)
  }

  /** The number of days of month `m` of year `y` (`calendar.monthrange(y, m)[1]`). */
  function DaysInMonth(y: int, m: int): (n: int)
    requires 1 <= m <= 12
    ensures 28 <= n <= 31
    ensures n == 31 <==> m in {1, 3, 5, 7, 8, 10, 12}
    ensures n == 30 <==> m in {4, 6, 9, 11}
    ensures n == 29 <==> m == 2 && IsLeapYear(y)
  {
    if m == 2 then (if IsLeapYear(y) then 29 else 28)
    else if m == 4 || m == 6 || m == 9 || m == 11 then 30
    else 31
  }

  /** A date that `datetime.date` accepts. */
  predicate ValidDate(d: Date) {
    MinYear <= d.year <= MaxYear && 1 <= d.month <= 12 && 1 <= d.day <= DaysInMonth(d.year, d.month)
  }

  /** Months counted from January of year 0: adding `k` months adds `k` here. */
  function MonthIndex(d: Date): int {
    12 * d.year + (d.month - 1)
  }

  /**
   * `d + relativedelta(months=k)` for 0 <= k <= 11: move the month forward,
   * carrying into the year past December, and clamp the day to the last day
   * of the target month. A year past `MaxYear` is refused by `datetime`,
   * which is `None` here.
   */
  function AddMonths(d: Date, k: int): (r: Option<Date>)
    requires ValidDate(d) && 0 <= k <= 11
    ensures r.Some? ==> ValidDate(r.value) && MonthIndex(r.value) == MonthIndex(d) + k
    ensures r.Some? ==> r.value.day <= d.day
    ensures r.Some? ==> (r.value.day == d.day <==> d.day <= DaysInMonth(r.value.year, r.value.month))
    ensures r.Some? ==> (r.value.day < d.day ==> r.value.day == DaysInMonth(r.value.year, r.value.month))
    ensures r.None? <==> MonthIndex(d) + k >= 12 * (MaxYear + 1)
  {
    var month := d.month + k;
    var (y, m) := if month > 12 then (d.year + 1, month - 12) else (d.year, month);
    var last := DaysInMonth(y, m);
    if y > MaxYear then None
    else Some(Date(y, m, if d.day <= last then d.day else last))
  }

  /** `relativedelta(months=6)`: the use-by offset. */
  const ShelfLifeMonths: int := 6

  /**
   * Worked examples: the day is kept when the target month has it, clamped to
   * the month's end otherwise, and a result past 9999 is refused.
   */
  lemma AddSixMonthsExample()
    ensures AddMonths(Date(2025, 4, 14), ShelfLifeMonths) == Some(Date(2025, 10, 14))
    ensures AddMonths(Date(2025, 8, 31), ShelfLifeMonths) == Some(Date(2026, 2, 28))
    ensures AddMonths(Date(2023, 8, 31), ShelfLifeMonths) == Some(Date(2024, 2, 29))
    ensures AddMonths(Date(9999, 7, 1), ShelfLifeMonths) == None
  {
  }

  /** The upper-case English month abbreviation that `%b` followed by `.upper()` gives. */
  function MonthAbbrev(m: int): (a: string)
    requires 1 <= m <= 12
    ensures |a| == 3 && forall i :: 0 <= i < 3 ==> IsUpperLetter(a[i])
  {
    ["JAN", "FEB", "MAR", "APR", "MAY", "JUN", "JUL", "AUG", "SEP", "OCT", "NOV", "DEC"][m - 1]
  }

  /** The month that an upper-case abbreviation names, if any. */
  function MonthOfAbbrev(a: string): Option<int> {
    if a == "JAN" then Some(1) else if a == "FEB" then Some(2)
    else if a == "MAR" then Some(3) else if a == "APR" then Some(4)
    else if a == "MAY" then Some(5) else if a == "JUN" then Some(6)
    else if a == "JUL" then Some(7) else if a == "AUG" then Some(8)
    else if a == "SEP" then Some(9) else if a == "OCT" then Some(10)
    else if a == "NOV" then Some(11) else if a == "DEC" then Some(12)
    else None
  }

  /** `%Y`: the year in decimal (four digits for every year from 1000 on). */
  function YearText(y: int): (s: string)
    requires MinYear <= y <= MaxYear
    ensures AllDigits(s) && ParseDigits(s) == y
    ensures 1000 <= y ==> |s| == 4
  {
    NatToStringRoundTrip(y);
    if 1000 <= y then FourDigitYear(y); NatToString(y) else
    NatToString(y)
  }

  lemma FourDigitYear(y: int)
    requires 1000 <= y <= MaxYear
    ensures |NatToString(y)| == 4
  {
    assert |NatToString(y / 1000)| == 1;
    assert |NatToString(y / 100)| == 2;
    assert |NatToString(y / 10)| == 3;
  }

  /** `d.strftime('%d %b %Y').upper()`, e.g. "14 APR 2025". */
  function LabelDate(d: Date): (s: string)
    requires ValidDate(d)
    ensures 8 <= |s| && s[2] == ' ' && s[6] == ' '
    ensures 1000 <= d.year ==> |s| == 11
  {
    Pad2(d.day) + " " + MonthAbbrev(d.month) + " " + YearText(d.year)
  }

  /** Reads a label date back: two digits, a space, a month abbreviation, a space, the year. */
  function ParseLabelDate(s: string): Option<Date> {
    if |s| < 8 || s[2] != ' ' || s[6] != ' ' || !AllDigits(s[..2]) || !AllDigits(s[7..]) then None
    else match MonthOfAbbrev(s[3..6])
      case None => None
      case Some(m) => Some(Date(ParseDigits(s[7..]), m, ParseDigits(s[..2])))
  }

  /** Formatting a date for a label loses nothing: it parses back to the same date. */
  lemma LabelDateRoundTrip(d: Date)
    requires ValidDate(d)
    ensures ParseLabelDate(LabelDate(d)) == Some(d)
  {
    var s := LabelDate(d);
    assert s[..2] == Pad2(d.day);
    assert s[3..6] == MonthAbbrev(d.month);
    assert s[7..] == YearText(d.year);
  }

  /** `d.strftime('%d%m%y')`: day, month and the year's last two digits, e.g. "140425". */
  function DateCode(d: Date): (s: string)
    requires ValidDate(d)
    ensures |s| == 6 && AllDigits(s)
    ensures ParseDigits(s[..2]) == d.day
    ensures ParseDigits(s[2..4]) == d.month
    ensures ParseDigits(s[4..]) == d.year % 100
  {
    var s := Pad2(d.day) + Pad2(d.month) + Pad2(d.year % 100);
    assert s[..2] == Pad2(d.day) && s[2..4] == Pad2(d.month) && s[4..] == Pad2(d.year % 100);
    s
  }
}
