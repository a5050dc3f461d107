/** Calendar dates as Python's `datetime.date` arithmetic sees them. */
module Calendar {

  /** A date as its proleptic Gregorian ordinal, as `date.toordinal()` returns it:
      day 1 is Monday 0001-01-01, and `d + 1` is `d + timedelta(days=1)`. */
  type Day = int

  /** `date.weekday()`: 0 is Monday, 6 is Sunday. */
  function Weekday(d: Day): (w: int)
    ensures 0 <= w < 7
  {
    (d + 6) % 7
  }

  /** Euclidean division by 7 of `7 * q + r` for a remainder `r` in range. */
  lemma DivModSeven(q: int, r: int)
    requires 0 <= r < 7
    ensures (7 * q + r) / 7 == q && (7 * q + r) % 7 == r
  {
  }

  /** Moving a day by whole weeks keeps its weekday. */
  lemma WeekdayShift(d: Day, k: int)
    ensures Weekday(d + 7 * k) == Weekday(d)
  {
    DivModSeven((d + 6) / 7, Weekday(d));
    DivModSeven((d + 6) / 7 + k, Weekday(d));
  }

  /** The Monday of the Monday-to-Sunday week that contains `d`. */
  function MondayOnOrBefore(d: Day): (m: Day)
    ensures Weekday(m) == 0 && m <= d < m + 7
  {
    DivModSeven((d + 6) / 7, 0);
    DivModSeven((d + 6) / 7, Weekday(d));
    d - Weekday(d)
  }

  /** Number of days in the years before `y` (the proleptic Gregorian leap rule). */
  function DaysBeforeYear(y: int): int {
    var p := y - 1;
    p * 365 + p / 4 - p / 100 + p / 400
  }

  /** The calendar year of ordinal `d` (`date.fromordinal(d).year`), by the
      400/100/4/1-year cycle decomposition of the ordinal. */
  function CalendarYear(d: Day): int {
    var n := d - 1;
    var n400, r400 := n / 146097, n % 146097;
    var n100, r100 := r400 / 36524, r400 % 36524;
    var n4, r4 := r100 / 1461, r100 % 1461;
    var n1 := r4 / 365;
    var year := n400 * 400 + 1 + n100 * 100 + n4 * 4 + n1;
    if n1 == 4 || n100 == 4 then year - 1 else year
  }

  /** The Monday that starts ISO week 1 of year `y`: the week holding `y`'s first Thursday. */
  function IsoWeek1Monday(y: int): (m: Day)
    ensures Weekday(m) == 0
  {
    var firstDay := DaysBeforeYear(y) + 1;
    var firstWeekday := Weekday(firstDay);
    var monday := firstDay - firstWeekday;
    assert monday == MondayOnOrBefore(firstDay);
    WeekdayShift(monday, 1);
    if firstWeekday > 3 then monday + 7 else monday
  }

  /** `date.isocalendar()[1]`: the ISO week number of `d`, which belongs to the ISO year
      of its Thursday and so may differ from the calendar year near 1 January. */
  function IsoWeekNumber(d: Day): int {
    var y := CalendarYear(d);
    var week := (d - IsoWeek1Monday(y)) / 7;
    if week < 0 then (d - IsoWeek1Monday(y - 1)) / 7 + 1
    else if week >= 52 && d >= IsoWeek1Monday(y + 1) then 1
    else week + 1
  }

  // Two dates around the 2024/2025 year end, one fact per lemma. Day 738886 is Monday
  // 2024-01-01 and day 739250 is Monday 2024-12-30.

  lemma Year2024Starts()
    ensures CalendarYear(738886) == 2024
  {
  }

  lemma Dec30Is2024()
    ensures CalendarYear(739250) == 2024
  {
  }

  lemma IsoYear2024Starts()
    ensures IsoWeek1Monday(2024) == 738886
  {
  }

  lemma IsoYear2025Starts()
    ensures IsoWeek1Monday(2025) == 739250
  {
  }

  /** 2024-01-01 is in ISO week 1 (of ISO year 2024). */
  lemma Jan1IsWeekOne()
    ensures IsoWeekNumber(738886) == 1
  {
    Year2024Starts();
    IsoYear2024Starts();
  }

  /** 2024-12-30 is also in ISO week 1, but of ISO year 2025. */
  lemma Dec30IsWeekOne()
    ensures IsoWeekNumber(739250) == 1
  {
    Dec30Is2024();
    IsoYear2024Starts();
    IsoYear2025Starts();
  }
}
