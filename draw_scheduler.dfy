/**
 * `calculate_next_draw`: the date of the next Loto Plus draw after the date
 * of the last one. Draws take place on Wednesdays and Saturdays at 22:00.
 * The base date is the `DD/MM/YYYY` text of the last draw, or the current
 * date (a parameter here) when that text does not parse.
 */
module DrawScheduler {
  import opened Wrappers
  import opened Calendar
  import opened Strings

  const DrawTime := " 22:00"

  predicate IsDrawDay(w: int) {
    w == Wednesday || w == Saturday
  }

  /** Days from a base date with weekday `w` to the first draw day after it. */
  function DrawGap(w: int): nat
    requires 0 <= w < 7
  {
    [2, 1, 3, 2, 1, 4, 3][w]
  }

  /**
   * The gap is one to four days, it lands on a draw day, and it passes no
   * draw day on the way.
   */
  lemma DrawGapSpec(w: int)
    requires 0 <= w < 7
    ensures 1 <= DrawGap(w) <= 4
    ensures IsDrawDay(WeekdayAfter(w, DrawGap(w)))
    ensures forall s :: 0 < s < DrawGap(w) ==> !IsDrawDay(WeekdayAfter(w, s))
  {
    forall s | 0 < s < DrawGap(w)
      ensures !IsDrawDay(WeekdayAfter(w, s))
    {
      assert w == 0 || w == 1 || w == 2 || w == 3 || w == 4 || w == 5 || w == 6;
    }
  }

  /** The first draw date strictly after `base`, or None when Python overflows first. */
  function NextDraw(base: Date): (r: Option<Date>)
    requires Valid(base)
    ensures r.Some? ==> Valid(r.value) && IsDrawDay(Weekday(r.value))
  {
    var gap := DrawGap(Weekday(base));
    DrawGapSpec(Weekday(base));
    var r := AddDays(base, gap);
    if r.Some? then
      AddDaysWeekday(base, gap);
      r
    else r
  }

  /** The loop of `calculate_next_draw`: one day on, then day by day to a Wednesday or Saturday. */
  method FindNextDraw(base: Date) returns (r: Option<Date>)
    requires Valid(base)
    ensures r == NextDraw(base)
  {
    var w := Weekday(base);
    var gap := DrawGap(w);
    DrawGapSpec(w);
    var next := NextDay(base);
    if next.None? {
      AddDaysPast(base, 1, gap);
      return None;
    }
    var d := next.value;
    var steps := 1;
    AddDaysWeekday(base, 1);
    while !IsDrawDay(Weekday(d))
      invariant 1 <= steps <= gap
      invariant Valid(d) && AddDays(base, steps) == Some(d)
      invariant Weekday(d) == WeekdayAfter(w, steps)
      decreases gap - steps
    {
      assert steps < gap;
      AddDaysStep(base, steps);
      next := NextDay(d);
      if next.None? {
        assert AddDays(base, steps + 1).None?;
        AddDaysPast(base, steps + 1, gap);
        return None;
      }
      d := next.value;
      steps := steps + 1;
      AddDaysWeekday(base, steps);
    }
    return Some(d);
  }

  /** Once adding days has overflowed, adding more overflows too. */
  lemma AddDaysPast(base: Date, n: nat, m: nat)
    requires Valid(base) && AddDays(base, n).None? && n <= m
    ensures AddDays(base, m).None?
  {
    AddDaysOrdinal(base, n);
    AddDaysOrdinal(base, m);
  }

  /**
   * The next draw is one to four days after the base date (so never on the
   * base date itself), falls on a Wednesday or a Saturday, and no day in
   * between is a draw day. It is missing only when the base date is within
   * those few days of 9999-12-31.
   */
  lemma NextDrawSpec(base: Date)
    requires Valid(base)
    ensures NextDraw(base).None? <==> Ordinal(base) + DrawGap(Weekday(base)) > MaxOrdinal
    ensures NextDraw(base).Some? ==>
              var d := NextDraw(base).value;
              && 1 <= Ordinal(d) - Ordinal(base) <= 4
              && d != base
              && IsDrawDay(Weekday(d))
              && forall n :: 0 < n < Ordinal(d) - Ordinal(base) ==>
                   AddDays(base, n).Some? && !IsDrawDay(Weekday(AddDays(base, n).value))
  {
    var w := Weekday(base);
    var gap := DrawGap(w);
    DrawGapSpec(w);
    AddDaysOrdinal(base, gap);
    if NextDraw(base).Some? {
      AddDaysWeekday(base, gap);
      forall n | 0 < n < gap
        ensures AddDays(base, n).Some? && !IsDrawDay(Weekday(AddDays(base, n).value))
      {
        AddDaysOrdinal(base, n);
        AddDaysWeekday(base, n);
      }
    }
  }

  /** The date `calculate_next_draw` starts from: the parsed text, or `now`. */
  function BaseDate(fecha: string, now: Date): (d: Date)
    requires Valid(now)
    ensures Valid(d)
    ensures ParseDate(fecha).Some? ==> d == ParseDate(fecha).value
    ensures ParseDate(fecha).None? ==> d == now
  {
    match ParseDate(fecha)
    case Some(d) => d
    case None => now
  }

  /** The text `calculate_next_draw` returns, or None where it raises OverflowError. */
  function NextDrawText(fecha: string, now: Date): Option<string>
    requires Valid(now)
  {
    match NextDraw(BaseDate(fecha, now))
    case None => None
    case Some(d) => Some(FormatDate(d) + DrawTime)
  }

  /** `calculate_next_draw(fecha)` with the current date passed in as `now`. */
  method CalculateNextDraw(fecha: string, now: Date) returns (r: Option<string>)
    requires Valid(now)
    ensures r == NextDrawText(fecha, now)
  {
    var base := now;
    var parsed := ParseDate(fecha);
    if parsed.Some? {
      base := parsed.value;
    }
    var d := FindNextDraw(base);
    if d.None? {
      return None;
    }
    r := Some(FormatDate(d.value) + DrawTime);
  }

  /**
   * The text returned names the next draw date after the base date at
   * 22:00, and reads back as that date.
   */
  lemma NextDrawTextSpec(fecha: string, now: Date)
    requires Valid(now)
    ensures NextDrawText(fecha, now).Some? <==> NextDraw(BaseDate(fecha, now)).Some?
    ensures NextDrawText(fecha, now).Some? ==>
              var t := NextDrawText(fecha, now).value;
              && |t| == 16
              && t[10..] == DrawTime
              && ParseDate(t[..10]) == NextDraw(BaseDate(fecha, now))
  {
    var base := BaseDate(fecha, now);
    if NextDraw(base).Some? {
      var d := NextDraw(base).value;
      FormatThenParse(d);
      var t := FormatDate(d) + DrawTime;
      assert t[..10] == FormatDate(d);
    }
  }

  /** Saturday 14/06/2025 is followed by the draw of Wednesday 18/06/2025. */
  lemma SaturdayExample(now: Date)
    requires Valid(now)
    ensures NextDrawText("14/06/2025", now) == Some("18/06/2025 22:00")
  {
    var base, draw := Date(2025, 6, 14), Date(2025, 6, 18);
    ExampleFormat();
    ExampleText(base, "14/06/2025");
    ExampleText(draw, "18/06/2025");
    ExampleSaturday();
    assert ParseDate("14/06/2025") == Some(base);
    assert NextDraw(base) == Some(draw);
    ExampleTime();
  }

  lemma ExampleTime()
    ensures "18/06/2025" + DrawTime == "18/06/2025 22:00"
  {
  }

  lemma ExampleText(d: Date, s: string)
    requires Valid(d) && FormatDate(d) == s
    ensures ParseDate(s) == Some(d)
  {
    FormatThenParse(d);
  }

  lemma ExampleFormat()
    ensures FormatDate(Date(2025, 6, 14)) == "14/06/2025"
    ensures FormatDate(Date(2025, 6, 18)) == "18/06/2025"
  {
    ExampleDay(14, "14");
    ExampleDay(18, "18");
    ExampleJune(14, "14");
    ExampleJune(18, "18");
    ExampleConcat();
  }

  lemma ExampleConcat()
    ensures "14" + "/06/2025" == "14/06/2025"
    ensures "18" + "/06/2025" == "18/06/2025"
  {
  }

  lemma ExampleJune(day: nat, s: string)
    requires 10 <= day <= 30 && Padded(day, 2) == s
    ensures FormatDate(Date(2025, 6, day)) == s + "/06/2025"
  {
    ExampleDay(6, "06");
    ExampleYear();
  }

  lemma ExampleDay(n: nat, s: string)
    requires 1 <= n < 100 && |s| == 2 && IsDigit(s[0]) && IsDigit(s[1])
    requires 10 * DigitValue(s[0]) + DigitValue(s[1]) == n
    ensures Padded(n, 2) == s
  {
    assert DecimalValue(s[..1]) == DigitValue(s[0]) by {
      assert s[..1][..0] == [] && s[..1][0] == s[0];
    }
    assert s[..|s| - 1] == s[..1];
    CanonicalPadded(s, 2);
  }

  lemma ExampleYear()
    ensures Padded(2025, 4) == "2025"
  {
    var s := "2025";
    assert DecimalValue(s[..1]) == 2 by {
      assert s[..1][..0] == [];
    }
    assert DecimalValue(s[..2]) == 20 by {
      assert s[..2][..1] == s[..1];
    }
    assert DecimalValue(s[..3]) == 202 by {
      assert s[..3][..2] == s[..2];
    }
    assert DecimalValue(s) == 2025 by {
      assert s[..3] == s[..|s| - 1];
    }
    CanonicalPadded(s, 4);
  }

  lemma ExampleSaturday()
    ensures Weekday(Date(2025, 6, 14)) == Saturday
    ensures AddDays(Date(2025, 6, 14), 4) == Some(Date(2025, 6, 18))
  {
    ExampleWeekday();
    ExampleDays();
  }

  lemma ExampleWeekday()
    ensures Weekday(Date(2025, 6, 14)) == Saturday
  {
    DaysBeforeYearFormula(2025);
    assert DaysBeforeYear(2025) == 739251;
    assert Ordinal(Date(2025, 6, 14)) == 739416;
  }

  lemma ExampleDays()
    ensures AddDays(Date(2025, 6, 14), 4) == Some(Date(2025, 6, 18))
  {
    assert AddDays(Date(2025, 6, 17), 1) == Some(Date(2025, 6, 18));
    assert AddDays(Date(2025, 6, 16), 2) == Some(Date(2025, 6, 18));
    assert AddDays(Date(2025, 6, 15), 3) == Some(Date(2025, 6, 18));
  }
}
