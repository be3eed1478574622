/** The month grid shared by both calendar screens: a row of seven columns per week,
    Sunday first, with blank cells before the first day of the month. */
module MonthGrid {
  import opened Dates

  /** `new Date(y, m, 1).getDay()`: the number of blank cells before day 1. */
  function FirstDayOfMonth(y: int, m: int): (w: int)
    requires 0 <= m < 12
    ensures 0 <= w < 7
  {
    Weekday(DaysFromCivil(y, m, 1))
  }

  /** The cell of day `k` of the month (at position `FirstDayOfMonth + k - 1`) lies in the
      column of that date's weekday. */
  lemma ColumnIsWeekday(y: int, m: int, k: int)
    requires 0 <= m < 12
    ensures (FirstDayOfMonth(y, m) + k - 1) % 7 == Weekday(DaysFromCivil(y, m, k))
  {
    var first := DaysFromCivil(y, m, 1);
    DaysOfMonthConsecutive(y, m, k);
    ModShift(first + 4, k - 1);
  }

  lemma ModShift(a: int, b: int)
    ensures (a % 7 + b) % 7 == (a + b) % 7
  {
    var q := a / 7;
    assert a == 7 * q + a % 7;
    assert a + b == 7 * q + (a % 7 + b);
  }

  /** The day after the last day of the month is the first day of the next month. */
  lemma LastDayPrecedesNextMonth(y: int, m: int)
    requires 0 <= m < 12
    ensures m < 11 ==> DaysFromCivil(y, m, DaysInMonth(y, m)) + 1 == DaysFromCivil(y, m + 1, 1)
    ensures m == 11 ==> DaysFromCivil(y, m, DaysInMonth(y, m)) + 1 == DaysFromCivil(y + 1, 0, 1)
  {
    DaysInMonthIsDistanceToNextMonth(y, m);
    DaysOfMonthConsecutive(y, m, DaysInMonth(y, m));
  }
}
