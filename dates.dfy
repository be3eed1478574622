/** Calendar arithmetic. A date is a day number: the number of days since
    1970-01-01, so that each ISO `YYYY-MM-DD` key the program builds with
    `toISOString().split('T')[0]` corresponds to exactly one day number and
    comparing keys is comparing day numbers. Months are numbered from 0
    (January) as in JavaScript's `Date`. */
module Dates {

  /** Days since 1970-01-01. */
  type Day = int

  /** `Date.prototype.getDay()`: 0 for Sunday .. 6 for Saturday; 1970-01-01 was a Thursday. */
  function Weekday(d: Day): (w: int)
    ensures 0 <= w < 7
  {
    (d + 4) % 7
  }

  lemma WeekdayNext(d: Day)
    ensures Weekday(d + 1) == (Weekday(d) + 1) % 7
  {
  }

  /** The plan is indexed Monday = 0 .. Sunday = 6; JavaScript numbers Sunday = 0.
      The conversion `jsDay === 0 ? 6 : jsDay - 1` is its own module-wide concept,
      used by every screen that looks a date up in the plan. */
  function PlanDayIndex(jsDay: int): (i: int)
    requires 0 <= jsDay < 7
    ensures 0 <= i < 7
    ensures (i + 1) % 7 == jsDay
  {
    if jsDay == 0 then 6 else jsDay - 1
  }

  /** The plan index of a date. */
  function PlanIndexOf(d: Day): (i: int)
    ensures 0 <= i < 7
    ensures (i + 1) % 7 == Weekday(d)
  {
    PlanDayIndex(Weekday(d))
  }

  /** Going from a plan index to a JavaScript weekday with `(i + 1) % 7` and back is the identity. */
  lemma PlanIndexRoundTrip(i: int)
    requires 0 <= i < 7
    ensures 0 <= (i + 1) % 7 < 7 && PlanDayIndex((i + 1) % 7) == i
  {
  }

  // ---------------------------------------------------------------------------
  // The Gregorian calendar
  // ---------------------------------------------------------------------------

  predicate IsLeapYear(y: int) {
    y % 4 == 0 && (y % 100 != 0 || y % 400 == 0)
  }

  /** What `new Date(y, m + 1, 0).getDate()` yields: the length of month `m` of year `y`. */
  function DaysInMonth(y: int, m: int): (n: int)
    requires 0 <= m < 12
    ensures 28 <= n <= 31
    ensures n == 31 <==> m in {0, 2, 4, 6, 7, 9, 11}
    ensures n == 29 <==> m == 1 && IsLeapYear(y)
  {
    if m == 1 then (if IsLeapYear(y) then 29 else 28)
    else if m == 3 || m == 5 || m == 8 || m == 10 then 30
    else 31
  }

  /** The day number of 1 March of year `y`: 365 days a year plus one leap day for each
      multiple of 4, less the multiples of 100, plus the multiples of 400, counted
      from year 0 (floor division). */
  function MarchFirst(y: int): Day {
    365 * y + y / 4 - y / 100 + y / 400 - 719468
  }

  /** The day number of day `d` (1-based; 0 and overflow roll into the neighbouring months,
      as `new Date(y, m, d)` does) of month `m` of year `y`. Years are counted from
      March, so that the leap day falls at the end of the counting year. */
  function DaysFromCivil(y: int, m: int, d: int): Day
    requires 0 <= m < 12
  {
    var marchYear := if m < 2 then y - 1 else y;
    var monthsSinceMarch := if m < 2 then m + 10 else m - 2;
    MarchFirst(marchYear) + (153 * monthsSinceMarch + 2) / 5 + d - 1
  }

  lemma EpochIsThursday()
    ensures DaysFromCivil(1970, 0, 1) == 0 && Weekday(0) == 4
  {
  }

  /** One more multiple of `k` is reached going from `y` to `y + 1` exactly when `k` divides `y + 1`. */
  lemma FloorStep(y: int, k: int)
    requires k in {4, 100, 400}
    ensures (y + 1) / k - y / k == if (y + 1) % k == 0 then 1 else 0
  {
    var q, r := y / k, y % k;
    assert y == k * q + r && 0 <= r < k;
    if r == k - 1 {
      assert y + 1 == k * (q + 1) + 0;
    } else {
      assert y + 1 == k * q + (r + 1);
    }
  }

  /** The counting year that starts on 1 March of `y` has 366 days exactly when `y + 1` is a leap year. */
  lemma MarchYearLength(y: int)
    ensures MarchFirst(y + 1) - MarchFirst(y) == if IsLeapYear(y + 1) then 366 else 365
  {
    FloorStep(y, 4);
    FloorStep(y, 100);
    FloorStep(y, 400);
    var a, b, c := (y + 1) % 4 == 0, (y + 1) % 100 == 0, (y + 1) % 400 == 0;
    assert b ==> a by {
      if b { var q := (y + 1) / 100; assert y + 1 == 100 * q; assert y + 1 == 4 * (25 * q); }
    }
    assert c ==> b by {
      if c { var q := (y + 1) / 400; assert y + 1 == 400 * q; assert y + 1 == 100 * (4 * q); }
    }
  }

  /** The Gregorian month lengths are the distances between consecutive first days of months,
      which is how `new Date(y, m + 1, 0)` finds the last day of month `m`. */
  lemma {:induction false} DaysInMonthIsDistanceToNextMonth(y: int, m: int)
    requires 0 <= m < 12
    ensures m < 11 ==> DaysFromCivil(y, m + 1, 1) - DaysFromCivil(y, m, 1) == DaysInMonth(y, m)
    ensures m == 11 ==> DaysFromCivil(y + 1, 0, 1) - DaysFromCivil(y, m, 1) == DaysInMonth(y, m)
  {
    if m == 1 {
      MarchYearLength(y - 1);
    }
  }

  /** The days of one month are consecutive day numbers. */
  lemma DaysOfMonthConsecutive(y: int, m: int, d: int)
    requires 0 <= m < 12
    ensures DaysFromCivil(y, m, d) == DaysFromCivil(y, m, 1) + d - 1
  {
  }

  // ---------------------------------------------------------------------------
  // Ordering sets of days
  // ---------------------------------------------------------------------------

  lemma {:induction false} MaxExists(s: set<Day>)
    requires s != {}
    ensures exists m :: m in s && forall x :: x in s ==> x <= m
    decreases |s|
  {
    var y := PickOne(s);
    if s == {y} {
      assert forall x :: x in s ==> x <= y;
    } else {
      var rest := s - {y};
      MaxExists(rest);
      var m :| m in rest && forall x :: x in rest ==> x <= m;
      if y > m {
        assert forall x :: x in s ==> x == y || x in rest;
        assert forall x :: x in s ==> x <= y;
      } else {
        assert forall x :: x in s ==> x == y || x in rest;
        assert forall x :: x in s ==> x <= m;
      }
    }
  }

  lemma PickOne(s: set<Day>) returns (y: Day)
    requires s != {}
    ensures y in s
  {
    if forall x :: x !in s {
      assert false;
    }
    var e :| e in s;
    y := e;
  }

  /** The latest day of a non-empty set of days. */
  function Latest(s: set<Day>): (m: Day)
    requires s != {}
    ensures m in s && forall x :: x in s ==> x <= m
  {
    MaxExists(s);
    var m :| m in s && forall x :: x in s ==> x <= m; m
  }

  predicate StrictlyDescending(ds: seq<Day>) {
    forall i, j :: 0 <= i < j < |ds| ==> ds[i] > ds[j]
  }

  /** The days of `s`, most recent first (what a sort with comparator `b - a` yields
      on distinct dates). */
  function SortedDescending(s: set<Day>): (ds: seq<Day>)
    ensures StrictlyDescending(ds)
    ensures |ds| == |s|
    ensures forall d :: d in ds <==> d in s
    decreases |s|
  {
    if s == {} then []
    else
      var m := Latest(s);
      [m] + SortedDescending(s - {m})
  }
}
