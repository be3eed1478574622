/** The second calendar variant (components/WorkoutPlanScreen.tsx). It shares the grid and
    the workout-day rule with the calendar screen but counts a day as completed when it
    has at least one done entry and at least as many as planned, without looking at the
    rest-day flag; it shades today, completed, default; it marks workout days that are not
    completed with a dot and PR days with a border. It also builds `weekDayMap`, from a
    plan day's name to the JavaScript weekday of its position. */
module WorkoutPlanScreen {
  import opened Dates
  import opened Types
  import opened MonthGrid
  import Calendar

  // ---------------------------------------------------------------------------
  // weekDayMap
  // ---------------------------------------------------------------------------

  /** `new Map(days.map((d, i) => [d.day, (i + 1) % 7]))` over the first `n` days: a later
      day with the same name overwrites an earlier one. */
  function WeekDayMapOf(days: seq<DailyWorkout>, n: nat): (mp: map<string, int>)
    requires n <= |days|
    ensures forall name :: name in mp <==> exists i :: 0 <= i < n && days[i].day == name
    ensures forall name :: name in mp ==>
      exists i :: 0 <= i < n && days[i].day == name && mp[name] == (i + 1) % 7 &&
        forall j :: i < j < n ==> days[j].day != name
  {
    if n == 0 then map[]
    else WeekDayMapOf(days, n - 1)[days[n - 1].day := n % 7]
  }

  function WeekDayMap(plan: WorkoutPlan): (mp: map<string, int>)
    ensures forall name :: name in mp ==> 0 <= mp[name] < 7
  {
    WeekDayMapOf(plan.weeklyPlan, |plan.weeklyPlan|)
  }

  /** The map inverts the plan index: for the last day of the plan that carries a name, at
      position `i` of the Monday-first week, the reindex of the mapped weekday is `i`. */
  lemma {:induction false} WeekDayMapInvertsPlanIndex(plan: WorkoutPlan, i: nat)
    requires i < |plan.weeklyPlan| && i < 7
    requires forall j :: i < j < |plan.weeklyPlan| ==> plan.weeklyPlan[j].day != plan.weeklyPlan[i].day
    ensures plan.weeklyPlan[i].day in WeekDayMap(plan)
    ensures WeekDayMap(plan)[plan.weeklyPlan[i].day] == (i + 1) % 7
    ensures PlanDayIndex(WeekDayMap(plan)[plan.weeklyPlan[i].day]) == i
  {
    var days := plan.weeklyPlan;
    var name := days[i].day;
    var mp := WeekDayMap(plan);
    assert name in mp;
    var k :| 0 <= k < |days| && days[k].day == name && mp[name] == (k + 1) % 7 &&
      forall j :: k < j < |days| ==> days[j].day != name;
    assert k == i;
    PlanIndexRoundTrip(i);
  }

  // ---------------------------------------------------------------------------
  // Day classification
  // ---------------------------------------------------------------------------

  datatype Shade = TodayShade | CompletedShade | DefaultShade

  datatype DayCell = DayCell(dayOfMonth: int, date: Day, shade: Shade, dot: bool, prBorder: bool)

  datatype Cell = Blank(index: int) | Filled(day: DayCell)

  /** At least one done entry, and no fewer than the planned exercises (0 without a plan
      entry). */
  predicate IsCompleted(plan: WorkoutPlan, history: WorkoutHistory, d: Day) {
    CompletedOn(history, d) > 0 && CompletedOn(history, d) >= Calendar.PlannedCount(plan, d)
  }

  function ClassifyDay(plan: WorkoutPlan, history: WorkoutHistory, prDays: set<Day>, today: Day, k: int, d: Day): (c: DayCell)
    ensures c.dayOfMonth == k && c.date == d
    ensures c.shade == TodayShade <==> d == today
    ensures c.shade == CompletedShade <==> d != today && IsCompleted(plan, history, d)
    ensures c.dot <==> Calendar.IsWorkoutDay(plan, d) && !IsCompleted(plan, history, d)
    ensures c.prBorder <==> d in prDays
  {
    var isCompleted := IsCompleted(plan, history, d);
    var shade := if d == today then TodayShade else if isCompleted then CompletedShade else DefaultShade;
    DayCell(k, d, shade, Calendar.IsWorkoutDay(plan, d) && !isCompleted, d in prDays)
  }

  method RenderDays(plan: WorkoutPlan, history: WorkoutHistory, records: seq<PR>, today: Day, year: int, month: int)
    returns (cells: seq<Cell>)
    requires 0 <= month < 12
    ensures |cells| == FirstDayOfMonth(year, month) + DaysInMonth(year, month)
    ensures forall i :: 0 <= i < FirstDayOfMonth(year, month) ==> cells[i] == Blank(i)
    ensures forall k :: 1 <= k <= DaysInMonth(year, month) ==>
      cells[FirstDayOfMonth(year, month) + k - 1] ==
        Filled(ClassifyDay(plan, history, Calendar.PrDays(records), today, k, DaysFromCivil(year, month, k)))
    ensures forall p :: 0 <= p < |cells| && cells[p].Filled? ==> p % 7 == Weekday(cells[p].day.date)
  {
    var daysInMonth := DaysInMonth(year, month);
    var firstDayOfMonth := FirstDayOfMonth(year, month);
    var prDays := Calendar.PrDays(records);
    cells := [];
    var i := 0;
    while i < firstDayOfMonth
      invariant 0 <= i <= firstDayOfMonth
      invariant cells == seq(i, j => Blank(j))
    {
      cells := cells + [Blank(i)];
      i := i + 1;
    }
    var day := 1;
    while day <= daysInMonth
      invariant 1 <= day <= daysInMonth + 1
      invariant |cells| == firstDayOfMonth + day - 1
      invariant forall j :: 0 <= j < firstDayOfMonth ==> cells[j] == Blank(j)
      invariant forall k :: 1 <= k < day ==>
        cells[firstDayOfMonth + k - 1] == Filled(ClassifyDay(plan, history, prDays, today, k, DaysFromCivil(year, month, k)))
      invariant forall p :: 0 <= p < |cells| && cells[p].Filled? ==> p % 7 == Weekday(cells[p].day.date)
    {
      var date := DaysFromCivil(year, month, day);
      ColumnIsWeekday(year, month, day);
      cells := cells + [Filled(ClassifyDay(plan, history, prDays, today, day, date))];
      day := day + 1;
    }
  }

  // ---------------------------------------------------------------------------
  // The two completion rules compared
  // ---------------------------------------------------------------------------

  /** Every day the calendar screen counts as completed, this screen counts as completed too. */
  lemma CalendarCompletedImpliesCompleted(plan: WorkoutPlan, history: WorkoutHistory, d: Day)
    requires Calendar.IsCompleted(plan, history, d)
    ensures IsCompleted(plan, history, d)
  {
  }

  /** The converse fails: a rest day, or a weekday the plan has no entry for, with a done
      entry and no fewer than its planned exercises is completed here and not there. */
  lemma RestDayCompletedOnlyHere(plan: WorkoutPlan, history: WorkoutHistory, d: Day)
    requires !HasPlanDay(plan, PlanIndexOf(d)) || plan.weeklyPlan[PlanIndexOf(d)].isRestDay
    requires CompletedOn(history, d) > 0 && CompletedOn(history, d) >= Calendar.PlannedCount(plan, d)
    ensures IsCompleted(plan, history, d) && !Calendar.IsCompleted(plan, history, d)
  {
  }

  /** The two rules agree on workout days with at least one planned exercise. */
  lemma RulesAgreeOnWorkoutDays(plan: WorkoutPlan, history: WorkoutHistory, d: Day)
    requires Calendar.IsWorkoutDay(plan, d) && Calendar.PlannedCount(plan, d) > 0
    ensures IsCompleted(plan, history, d) <==> Calendar.IsCompleted(plan, history, d)
  {
  }

  /** A dot marks exactly the workout days still to do; a completed day never has one. */
  lemma DotMarksPendingWorkouts(plan: WorkoutPlan, history: WorkoutHistory, prDays: set<Day>, today: Day, k: int, d: Day)
    ensures var c := ClassifyDay(plan, history, prDays, today, k, d);
      c.dot ==> c.shade != CompletedShade && HasPlanDay(plan, PlanIndexOf(d)) && !plan.weeklyPlan[PlanIndexOf(d)].isRestDay
  {
  }
}
