/** Today's workout screen (components/TodaysWorkoutScreen.tsx): the plan entry of
    today's weekday, today's history record (empty if absent), the completed and total
    counts, and the choice between the error view, the rest-day view and the list of
    exercise cards. */
module TodaysWorkout {
  import opened Dates
  import opened Types

  datatype ExerciseRow = ExerciseRow(exercise: Exercise, completed: bool)

  datatype TodayView =
    | LoadError
    | RestDay(dayName: string)
    | Training(dayName: string, completedCount: nat, totalCount: nat, showProgress: bool, rows: seq<ExerciseRow>)

  /** `history[todayStr] || {}`. */
  function TodaysLog(history: WorkoutHistory, today: Day): (log: DayLog)
    ensures today !in history ==> log == map[]
    ensures forall id :: (id in log && log[id]) <==> IsDone(history, today, id)
  {
    if today in history then history[today] else map[]
  }

  /** The progress percentage, 0 when there are no exercises. */
  function Progress(completedCount: nat, totalCount: nat): (p: real)
    ensures totalCount == 0 ==> p == 0.0
    ensures totalCount > 0 ==> p * totalCount as real == completedCount as real * 100.0
    ensures totalCount > 0 && completedCount >= totalCount ==> p >= 100.0
  {
    if totalCount > 0 then completedCount as real / totalCount as real * 100.0 else 0.0
  }

  function TodayScreen(plan: WorkoutPlan, history: WorkoutHistory, today: Day): (v: TodayView)
    ensures v.LoadError? <==> !HasPlanDay(plan, PlanIndexOf(today))
    ensures v.RestDay? <==> HasPlanDay(plan, PlanIndexOf(today)) && plan.weeklyPlan[PlanIndexOf(today)].isRestDay
    ensures v.Training? ==>
      var exercises := plan.weeklyPlan[PlanIndexOf(today)].exercises;
      && v.completedCount == CompletedCount(TodaysLog(history, today))
      && v.totalCount == |exercises|
      && (v.showProgress <==> |exercises| > 0)
      && |v.rows| == |exercises|
      && forall i :: 0 <= i < |exercises| ==>
           v.rows[i].exercise == exercises[i] && (v.rows[i].completed <==> IsDone(history, today, exercises[i].id))
  {
    var index := PlanIndexOf(today);
    if !HasPlanDay(plan, index) then LoadError
    else
      var daily := plan.weeklyPlan[index];
      var log := TodaysLog(history, today);
      if daily.isRestDay then RestDay(daily.day)
      else
        var exercises := daily.exercises;
        Training(daily.day, CompletedCount(log), |exercises|, |exercises| > 0,
          seq(|exercises|, i requires 0 <= i < |exercises| => ExerciseRow(exercises[i], exercises[i].id in log && log[exercises[i].id])))
  }

  /** The completed count is today's count of done entries, the same count the calendar and
      the toggle use. */
  lemma CompletedCountIsTodays(plan: WorkoutPlan, history: WorkoutHistory, today: Day)
    requires TodayScreen(plan, history, today).Training?
    ensures TodayScreen(plan, history, today).completedCount == CompletedOn(history, today)
  {
  }

  /** The count includes done ids that are not in today's plan: a history holding only an
      id foreign to the plan shows one completed exercise while no card is completed. */
  lemma CountIncludesForeignIds(plan: WorkoutPlan, history: WorkoutHistory, today: Day, foreign: string)
    requires TodayScreen(plan, history, today).Training?
    requires history == map[today := map[foreign := true]]
    requires forall e :: e in plan.weeklyPlan[PlanIndexOf(today)].exercises ==> e.id != foreign
    ensures TodayScreen(plan, history, today).completedCount == 1
    ensures forall r :: r in TodayScreen(plan, history, today).rows ==> !r.completed
  {
    var log := map[foreign := true];
    assert CompletedIds(log) == {foreign};
    var v := TodayScreen(plan, history, today);
    var exercises := plan.weeklyPlan[PlanIndexOf(today)].exercises;
    forall r | r in v.rows ensures !r.completed {
      var i :| 0 <= i < |v.rows| && v.rows[i] == r;
      assert exercises[i] in exercises;
    }
  }

  /** Hence the progress passes 100% whenever today has more done entries than planned
      exercises. */
  lemma ProgressCanExceedHundred(completedCount: nat, totalCount: nat)
    requires 0 < totalCount < completedCount
    ensures Progress(completedCount, totalCount) > 100.0
  {
  }
}
