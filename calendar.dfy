/**
 * The proleptic Gregorian calendar of Python's `datetime` module, as far as
 * `calculate_next_draw` uses it: valid dates between 0001-01-01 and
 * 9999-12-31, day ordinals (`date.toordinal`), weekdays (`date.weekday`,
 * Monday is 0), adding one day at a time (`+ timedelta(days=1)`, which raises
 * OverflowError past the last date), and the `%d/%m/%Y` text form used by
 * `strptime` and `strftime`.
 */
module Calendar {
  import opened Wrappers
  import opened Strings

  datatype Date = Date(year: int, month: int, day: int)

  const MinYear := 1
  const MaxYear := 9999
  const LastDate := Date(MaxYear, 12, 31)

  const Wednesday := 2
  const Saturday := 5

  predicate IsLeap(y: int) {
    y % 4 == 0 && (y % 100 != 0 || y % 400 == 0)
  }

  function DaysInMonth(y: int, m: int): (n: int)
    requires 1 <= m <= 12
    ensures 28 <= n <= 31
    ensures m == 2 ==> (n == 29 <==> IsLeap(y))
  {
    if m == 2 then (if IsLeap(y) then 29 else 28)
    else if m == 4 || m == 6 || m == 9 || m == 11 then 30
    else 31
  }

  /** The dates `datetime` can represent. */
  predicate Valid(d: Date) {
    MinYear <= d.year <= MaxYear && 1 <= d.month <= 12 && 1 <= d.day <= DaysInMonth(d.year, d.month)
  }

  function DaysInYear(y: int): int {
    if IsLeap(y) then 366 else 365
  }

  /** Days in the years before `y`. */
  function DaysBeforeYear(y: int): int
    requires y >= 1
  {
    if y == 1 then 0 else DaysBeforeYear(y - 1) + DaysInYear(y - 1)
  }

  /** Days in the months of a common year before each month (CPython's `_DAYS_BEFORE_MONTH`). */
  const CommonDaysBefore: seq<int> := [0, 31, 59, 90, 120, 151, 181, 212, 243, 273, 304, 334]

  /** Days in the months of year `y` before month `m`. */
  function DaysBeforeMonth(y: int, m: int): int
    requires 1 <= m <= 12
  {
    CommonDaysBefore[m - 1] + (if m > 2 && IsLeap(y) then 1 else 0)
  }

  /** `date.toordinal()`: 0001-01-01 is day 1. */
  function Ordinal(d: Date): int
    requires Valid(d)
  {
    DaysBeforeYear(d.year) + DaysBeforeMonth(d.year, d.month) + d.day
  }

  const MaxOrdinal := Ordinal(LastDate)

  /** `date.weekday()`: Monday is 0, Sunday is 6. */
  function Weekday(d: Date): (w: int)
    requires Valid(d)
    ensures 0 <= w < 7
  {
    (Ordinal(d) + 6) % 7
  }

  /** The weekday `n` days after weekday `w`. */
  function WeekdayAfter(w: int, n: int): int {
    (w + n) % 7
  }

  /** `d + timedelta(days=1)`, or None where Python raises OverflowError. */
  function NextDay(d: Date): (r: Option<Date>)
    requires Valid(d)
    ensures r.Some? ==> Valid(r.value)
  {
    if d.day < DaysInMonth(d.year, d.month) then Some(Date(d.year, d.month, d.day + 1))
    else if d.month < 12 then Some(Date(d.year, d.month + 1, 1))
    else if d.year < MaxYear then Some(Date(d.year + 1, 1, 1))
    else None
  }

  /** `n` steps of `+ timedelta(days=1)`, each of which may overflow. */
  function AddDays(d: Date, n: nat): (r: Option<Date>)
    requires Valid(d)
    ensures r.Some? ==> Valid(r.value)
    decreases n
  {
    if n == 0 then Some(d)
    else
      match NextDay(d)
      case None => None
      case Some(e) => AddDays(e, n - 1)
  }

  // ---------------------------------------------------------------------
  // Ordinals.

  /** A year has `DaysInYear` days. */
  lemma YearLength(y: int)
    requires y >= 1
    ensures DaysBeforeYear(y + 1) == DaysBeforeYear(y) + DaysInYear(y)
  {
  }

  /** Year `p` adds one leap day to the closed form exactly when it is a leap year. */
  lemma LeapCount(p: int)
    requires p >= 1
    ensures var o := p - 1;
      (p / 4 - p / 100 + p / 400) - (o / 4 - o / 100 + o / 400) == DaysInYear(p) - 365
  {
    Step4(p);
    Step100(p);
    Step400(p);
  }

  lemma Step4(p: int)
    ensures p / 4 == (p - 1) / 4 + (if p % 4 == 0 then 1 else 0)
  {
  }

  lemma Step100(p: int)
    ensures p / 100 == (p - 1) / 100 + (if p % 100 == 0 then 1 else 0)
    ensures p % 100 == 0 ==> p % 4 == 0
  {
    if p % 100 == 0 {
      assert p == 100 * (p / 100);
      assert p == 4 * (25 * (p / 100));
    }
  }

  lemma Step400(p: int)
    ensures p / 400 == (p - 1) / 400 + (if p % 400 == 0 then 1 else 0)
    ensures p % 400 == 0 ==> p % 100 == 0
  {
    if p % 400 == 0 {
      assert p == 100 * (4 * (p / 400));
    }
  }

  /** The closed form CPython's `_days_before_year` computes. */
  lemma {:induction false} DaysBeforeYearFormula(y: int)
    requires y >= 1
    ensures var p := y - 1; DaysBeforeYear(y) == p * 365 + p / 4 - p / 100 + p / 400
    decreases y
  {
    if y > 1 {
      DaysBeforeYearFormula(y - 1);
      LeapCount(y - 1);
    }
  }

  /** The months of a year follow one another, and the last one ends the year. */
  lemma MonthsFill(y: int, m: int)
    requires 1 <= m <= 12
    ensures m < 12 ==> DaysBeforeMonth(y, m + 1) == DaysBeforeMonth(y, m) + DaysInMonth(y, m)
    ensures m == 12 ==> DaysBeforeMonth(y, m) + DaysInMonth(y, m) == DaysInYear(y)
  {
  }

  /** One day later is one ordinal later; there is no day after the last date. */
  lemma NextDayOrdinal(d: Date)
    requires Valid(d)
    ensures NextDay(d).None? <==> d == LastDate
    ensures NextDay(d).Some? ==> Ordinal(NextDay(d).value) == Ordinal(d) + 1
  {
    MonthsFill(d.year, d.month);
    if d.day == DaysInMonth(d.year, d.month) && d.month == 12 && d.year < MaxYear {
      YearLength(d.year);
    }
  }

  lemma {:induction false} DaysBeforeYearMonotone(y: int, z: int)
    requires 1 <= y <= z
    ensures DaysBeforeYear(y) + 365 * (z - y) <= DaysBeforeYear(z)
    decreases z - y
  {
    if y < z {
      YearLength(y);
      DaysBeforeYearMonotone(y + 1, z);
    }
  }

  /** Every valid date has an ordinal between 1 and that of the last date, which only it has. */
  lemma OrdinalRange(d: Date)
    requires Valid(d)
    ensures 1 <= Ordinal(d) <= MaxOrdinal
    ensures Ordinal(d) == MaxOrdinal <==> d == LastDate
  {
    MonthEnd(d.year, d.month);
    DaysBeforeYearMonotone(1, d.year);
    if d.year < MaxYear {
      YearLength(d.year);
      DaysBeforeYearMonotone(d.year + 1, MaxYear);
    }
  }

  /** A month ends no later than its year, strictly before it unless it is December. */
  lemma MonthEnd(y: int, m: int)
    requires 1 <= m <= 12
    ensures DaysBeforeMonth(y, m) + DaysInMonth(y, m) <= DaysInYear(y)
    ensures m < 12 ==> DaysBeforeMonth(y, m) + DaysInMonth(y, m) < DaysInYear(y)
    ensures m == 12 ==> DaysBeforeMonth(y, m) + DaysInMonth(y, m) == DaysInYear(y)
  {
  }

  /**
   * Adding `n` days succeeds exactly when the result's ordinal does not pass
   * the last date's, and then lands `n` ordinals later.
   */
  lemma {:induction false} AddDaysOrdinal(d: Date, n: nat)
    requires Valid(d)
    ensures AddDays(d, n).Some? <==> Ordinal(d) + n <= MaxOrdinal
    ensures AddDays(d, n).Some? ==> Ordinal(AddDays(d, n).value) == Ordinal(d) + n
    decreases n
  {
    OrdinalRange(d);
    if n > 0 {
      NextDayOrdinal(d);
      if NextDay(d).Some? {
        AddDaysOrdinal(NextDay(d).value, n - 1);
      }
    }
  }

  /** `n` days later is `n` weekdays later, counted modulo the week. */
  lemma AddDaysWeekday(d: Date, n: nat)
    requires Valid(d) && AddDays(d, n).Some?
    ensures Weekday(AddDays(d, n).value) == WeekdayAfter(Weekday(d), n)
  {
    AddDaysShift(d, n);
    OrdinalWeekday(d, AddDays(d, n).value, n);
  }

  /** Dates whose ordinals are n apart have weekdays n apart. */
  lemma OrdinalWeekday(d: Date, e: Date, n: int)
    requires Valid(d) && Valid(e) && Ordinal(e) == Ordinal(d) + n
    ensures Weekday(e) == WeekdayAfter(Weekday(d), n)
  {
    WeekShift(Ordinal(d), Ordinal(e), n, Weekday(d), Weekday(e));
  }

  /** A date n days later is n ordinals later. */
  lemma AddDaysShift(d: Date, n: nat)
    requires Valid(d) && AddDays(d, n).Some?
    ensures Ordinal(AddDays(d, n).value) == Ordinal(d) + n
  {
    AddDaysOrdinal(d, n);
  }

  /** Ordinals n apart are n weekdays apart: `wa` and `wb` are the weekdays of ordinals `a` and `b`. */
  lemma WeekShift(a: int, b: int, n: int, wa: int, wb: int)
    requires b == a + n && wa == (a + 6) % 7 && wb == (b + 6) % 7
    ensures wb == WeekdayAfter(wa, n)
  {
    var k, t := (a + 6) / 7, (wa + n) / 7;
    assert a + 6 == 7 * k + wa;
    assert wa + n == 7 * t + (wa + n) % 7;
    assert b + 6 == 7 * (k + t) + (wa + n) % 7;
    RemainderUnique(b + 6, k + t, (wa + n) % 7);
  }

  /** The remainder modulo 7 is the one `r` in `0..6` with `y == 7 * m + r`. */
  lemma RemainderUnique(y: int, m: int, r: int)
    requires y == 7 * m + r && 0 <= r < 7
    ensures y % 7 == r
  {
    assert y == 7 * (y / 7) + y % 7;
  }

  /** Adding one more day is one more `NextDay` step. */
  lemma {:induction false} AddDaysStep(d: Date, n: nat)
    requires Valid(d)
    ensures AddDays(d, n + 1) == match AddDays(d, n) case None => None case Some(e) => NextDay(e)
    decreases n
  {
    if n > 0 && NextDay(d).Some? {
      AddDaysStep(NextDay(d).value, n - 1);
    }
  }

  // ---------------------------------------------------------------------
  // The `%d/%m/%Y` text form.

  /** `str(n).zfill(width)`. */
  function Padded(n: nat, width: nat): string {
    ZFill(NatToString(n), width)
  }

  /** `strftime('%d/%m/%Y')`: two-digit day and month, four-digit year. */
  function FormatDate(d: Date): (s: string)
    requires Valid(d)
    ensures |s| == 10 && s[2] == '/' && s[5] == '/'
    ensures AllDigits(s[..2]) && AllDigits(s[3..5]) && AllDigits(s[6..])
  {
    PaddedFits(d.day, 2);
    PaddedFits(d.month, 2);
    PaddedFits(d.year, 4);
    var s := Padded(d.day, 2) + "/" + Padded(d.month, 2) + "/" + Padded(d.year, 4);
    assert s[..2] == Padded(d.day, 2) && s[3..5] == Padded(d.month, 2) && s[6..] == Padded(d.year, 4);
    s
  }

  /**
   * `strptime(s, '%d/%m/%Y')` on its canonical form: two day digits, two
   * month digits and four year digits between slashes, naming a valid date.
   */
  function ParseDate(s: string): (r: Option<Date>)
    ensures r.Some? ==> Valid(r.value)
  {
    if |s| == 10 && s[2] == '/' && s[5] == '/' && AllDigits(s[..2]) && AllDigits(s[3..5]) && AllDigits(s[6..]) then
      var d := Date(DecimalValue(s[6..]), DecimalValue(s[3..5]), DecimalValue(s[..2]));
      if Valid(d) then Some(d) else None
    else None
  }

  /** A padded number below 10^width is exactly `width` digits that read back as it. */
  lemma PaddedFits(n: nat, width: nat)
    requires (width == 2 && n < 100) || (width == 4 && n < 10000)
    ensures |Padded(n, width)| == width && AllDigits(Padded(n, width))
    ensures DecimalValue(Padded(n, width)) == n
  {
    NatToStringShort(n);
    PaddedValue(n, width);
  }

  /** Formatting a date and parsing the text back gives the date. */
  lemma FormatThenParse(d: Date)
    requires Valid(d)
    ensures ParseDate(FormatDate(d)) == Some(d)
  {
    PaddedFits(d.day, 2);
    PaddedFits(d.month, 2);
    PaddedFits(d.year, 4);
    var s := FormatDate(d);
    assert s[..2] == Padded(d.day, 2);
    assert s[3..5] == Padded(d.month, 2);
    assert s[6..] == Padded(d.year, 4);
  }

  /** A text that parses is the formatted form of its date. */
  lemma ParseThenFormat(s: string)
    requires ParseDate(s).Some?
    ensures FormatDate(ParseDate(s).value) == s
  {
    var d := ParseDate(s).value;
    CanonicalPadded(s[..2], 2);
    CanonicalPadded(s[3..5], 2);
    CanonicalPadded(s[6..], 4);
    assert s == s[..2] + "/" + s[3..5] + "/" + s[6..];
  }
}
