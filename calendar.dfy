/** The workout calendar (components/CalendarScreen.tsx): one cell per day of the
    displayed month after the leading blanks, each shaded by the priority today,
    completed, workout day, other, with a check icon on completed days other than
    today and a trophy and a border on days with a personal record. */
module Calendar {
  import opened Dates
  import opened Types
  import opened MonthGrid

  datatype Shade = TodayShade | CompletedShade | WorkoutShade | PlainShade

  datatype DayCell = DayCell(dayOfMonth: int, date: Day, shade: Shade, checkIcon: bool, prMarker: bool)

  datatype Cell = Blank(index: int) | Filled(day: DayCell)

  /** `new Set(personalRecords.map(pr => pr.date))`. */
  function PrDays(records: seq<PR>): (s: set<Day>)
    ensures forall d :: d in s <==> exists i :: 0 <= i < |records| && records[i].date == d
  {
    set i | 0 <= i < |records| :: records[i].date
  }

  /** A plan entry exists for the date's weekday and is not a rest day. */
  predicate IsWorkoutDay(plan: WorkoutPlan, d: Day) {
    HasPlanDay(plan, PlanIndexOf(d)) && !plan.weeklyPlan[PlanIndexOf(d)].isRestDay
  }

  /** `dailyPlan?.exercises.length || 0`. */
  function PlannedCount(plan: WorkoutPlan, d: Day): (n: nat)
    ensures !HasPlanDay(plan, PlanIndexOf(d)) ==> n == 0
    ensures HasPlanDay(plan, PlanIndexOf(d)) ==> n == |plan.weeklyPlan[PlanIndexOf(d)].exercises|
  {
    if HasPlanDay(plan, PlanIndexOf(d)) then |plan.weeklyPlan[PlanIndexOf(d)].exercises| else 0
  }

  /** Completed: a workout day with at least one planned exercise and at least as many
      done entries as planned exercises. */
  predicate IsCompleted(plan: WorkoutPlan, history: WorkoutHistory, d: Day) {
    IsWorkoutDay(plan, d) && PlannedCount(plan, d) > 0 && CompletedOn(history, d) >= PlannedCount(plan, d)
  }

  /** The cell of day `k` of the month, which falls on date `d`. */
  function ClassifyDay(plan: WorkoutPlan, history: WorkoutHistory, prDays: set<Day>, today: Day, k: int, d: Day): (c: DayCell)
    ensures c.dayOfMonth == k && c.date == d
    ensures c.shade == TodayShade <==> d == today
    ensures c.shade == CompletedShade <==> d != today && IsCompleted(plan, history, d)
    ensures c.shade == WorkoutShade <==> d != today && !IsCompleted(plan, history, d) && IsWorkoutDay(plan, d)
    ensures c.shade == PlainShade <==> d != today && !IsWorkoutDay(plan, d)
    ensures c.checkIcon <==> IsCompleted(plan, history, d) && d != today
    ensures c.prMarker <==> d in prDays
  {
    var isToday := d == today;
    var isCompleted := IsCompleted(plan, history, d);
    var shade :=
      if isToday then TodayShade
      else if isCompleted then CompletedShade
      else if IsWorkoutDay(plan, d) then WorkoutShade
      else PlainShade;
    DayCell(k, d, shade, isCompleted && !isToday, d in prDays)
  }

  /** `renderDays`: the leading blanks, then day 1 .. the last day of the month, each
      classified; every day cell sits in the column of its weekday. */
  method RenderDays(plan: WorkoutPlan, history: WorkoutHistory, records: seq<PR>, today: Day, year: int, month: int)
    returns (cells: seq<Cell>)
    requires 0 <= month < 12
    ensures |cells| == FirstDayOfMonth(year, month) + DaysInMonth(year, month)
    ensures forall i :: 0 <= i < FirstDayOfMonth(year, month) ==> cells[i] == Blank(i)
    ensures forall k :: 1 <= k <= DaysInMonth(year, month) ==>
      cells[FirstDayOfMonth(year, month) + k - 1] ==
        Filled(ClassifyDay(plan, history, PrDays(records), today, k, DaysFromCivil(year, month, k)))
    ensures forall p :: 0 <= p < |cells| && cells[p].Filled? ==> p % 7 == Weekday(cells[p].day.date)
  {
    var daysInMonth := DaysInMonth(year, month);
    var firstDayOfMonth := FirstDayOfMonth(year, month);
    var prDays := PrDays(records);
    cells := [];
    var i := 0;
    while i < firstDayOfMonth
      invariant 0 <= i <= firstDayOfMonth
      invariant cells == seq(i, j => Blank(j))
    {
      cells := cells + [Blank(i)];
      i := i + 1;
    }
    var day := 1;
    while day <= daysInMonth
      invariant 1 <= day <= daysInMonth + 1
      invariant |cells| == firstDayOfMonth + day - 1
      invariant forall j :: 0 <= j < firstDayOfMonth ==> cells[j] == Blank(j)
      invariant forall k :: 1 <= k < day ==>
        cells[firstDayOfMonth + k - 1] == Filled(ClassifyDay(plan, history, prDays, today, k, DaysFromCivil(year, month, k)))
      invariant forall p :: 0 <= p < |cells| && cells[p].Filled? ==> p % 7 == Weekday(cells[p].day.date)
    {
      var date := DaysFromCivil(year, month, day);
      ColumnIsWeekday(year, month, day);
      cells := cells + [Filled(ClassifyDay(plan, history, prDays, today, day, date))];
      day := day + 1;
    }
  }

  /** A completed day is a non-rest plan day whose date has a history entry with at least
      one done exercise. */
  lemma CompletedNeedsHistory(plan: WorkoutPlan, history: WorkoutHistory, d: Day)
    requires IsCompleted(plan, history, d)
    ensures IsWorkoutDay(plan, d)
    ensures d in history && HasCompletion(history[d])
  {
  }

  /** A rest day, or a day of the week the plan has no entry for, is never completed,
      whatever the history holds. */
  lemma RestDayNeverCompleted(plan: WorkoutPlan, history: WorkoutHistory, d: Day)
    requires !HasPlanDay(plan, PlanIndexOf(d)) || plan.weeklyPlan[PlanIndexOf(d)].isRestDay
    ensures !IsCompleted(plan, history, d)
  {
  }

  /** Completed is monotone in the history: marking more exercises done on other days or on
      the same day never un-completes a date. */
  lemma CompletedMonotone(plan: WorkoutPlan, h1: WorkoutHistory, h2: WorkoutHistory, d: Day)
    requires IsCompleted(plan, h1, d)
    requires CompletedOn(h2, d) >= CompletedOn(h1, d)
    ensures IsCompleted(plan, h2, d)
  {
  }

  /** The check icon only ever sits on the completed shade, and a day has a PR marker
      exactly when some record carries its date. */
  lemma MarkersOfCell(plan: WorkoutPlan, history: WorkoutHistory, records: seq<PR>, today: Day, k: int, d: Day)
    ensures var c := ClassifyDay(plan, history, PrDays(records), today, k, d);
      && (c.checkIcon ==> c.shade == CompletedShade)
      && (c.prMarker <==> exists i :: 0 <= i < |records| && records[i].date == d)
  {
  }
}
