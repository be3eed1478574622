/** The domain records of the application and the completion counts every
    screen derives from the workout history. */
module Types {
  import opened Dates

  datatype Level = Beginner | Intermediate | Advanced
  datatype Goal = Strength | Hypertrophy | Endurance | General

  datatype UserProfile = UserProfile(name: string, level: Level, goal: Goal, days: int, equipment: string)

  datatype Exercise = Exercise(id: string, name: string, sets: int, reps: string, description: string)

  datatype DailyWorkout = DailyWorkout(day: string, isRestDay: bool, exercises: seq<Exercise>)

  /** `weeklyPlan` is Monday-first: index 0 is Monday, index 6 is Sunday. */
  datatype WorkoutPlan = WorkoutPlan(weeklyPlan: seq<DailyWorkout>)

  /** exercise id -> completed, for one date. */
  type DayLog = map<string, bool>

  /** date -> the completion record of that date. */
  type WorkoutHistory = map<Day, DayLog>

  datatype Role = User | Model

  /** A chat message; the program stores its text as the single element of `parts`. */
  datatype ChatMessage = ChatMessage(role: Role, text: string)

  datatype FoodItem = FoodItem(name: string, calories: int, protein: real, carbs: real, fat: real)

  datatype Totals = Totals(calories: int, protein: real, carbs: real, fat: real)

  datatype DailyFoodLog = DailyFoodLog(items: seq<FoodItem>, totals: Totals)

  type NutritionHistory = map<Day, DailyFoodLog>

  datatype PR = PR(id: string, date: Day, exerciseName: string, weight: real, reps: int)

  /** What the records form hands to `addPR`: a record without its id and date. */
  datatype PRInput = PRInput(exerciseName: string, weight: real, reps: int)

  /** Looking a date's plan entry up the way the screens do (`plan.weeklyPlan[i]`,
      undefined when the plan is shorter). */
  predicate HasPlanDay(plan: WorkoutPlan, i: int) {
    0 <= i < |plan.weeklyPlan|
  }

  // ---------------------------------------------------------------------------
  // Completion counts
  // ---------------------------------------------------------------------------

  /** `Object.values(log).some(Boolean)`. */
  predicate HasCompletion(log: DayLog) {
    exists id :: id in log && log[id]
  }

  /** The ids a day's record marks as done. */
  function CompletedIds(log: DayLog): set<string> {
    set id | id in log && log[id]
  }

  /** `Object.values(log).filter(Boolean).length`: the number of true values. */
  function CompletedCount(log: DayLog): (n: nat)
    ensures n <= |log|
    ensures n == 0 <==> !HasCompletion(log)
  {
    CompletedIdsFacts(log);
    |CompletedIds(log)|
  }

  lemma CompletedIdsFacts(log: DayLog)
    ensures |CompletedIds(log)| <= |log|
    ensures CompletedIds(log) == {} <==> !HasCompletion(log)
  {
    SubsetCardinality(CompletedIds(log), log.Keys);
    if HasCompletion(log) {
      var id :| id in log && log[id];
      assert id in CompletedIds(log);
    }
  }

  lemma SubsetCardinality<T>(a: set<T>, b: set<T>)
    requires a <= b
    ensures |a| <= |b|
  {
    if a != b {
      assert |b| == |a| + |b - a|;
    }
  }

  /** Whether the history marks `id` as done on `d` (an absent entry counts as not done). */
  predicate IsDone(h: WorkoutHistory, d: Day, id: string) {
    d in h && id in h[d] && h[d][id]
  }

  /** `history[d] ? Object.values(history[d]).filter(Boolean).length : 0`. */
  function CompletedOn(history: WorkoutHistory, d: Day): (n: nat)
    ensures n > 0 <==> d in history && HasCompletion(history[d])
  {
    if d in history then CompletedCount(history[d]) else 0
  }

  /** Marking an id done that was not done adds one to the count, whether or not
      the id belongs to the plan; marking a done id undone takes one away. */
  lemma CompletedCountAfterSet(log: DayLog, id: string, value: bool)
    ensures var was := id in log && log[id];
      CompletedCount(log[id := value]) ==
        CompletedCount(log) + (if value && !was then 1 else 0) - (if !value && was then 1 else 0)
  {
    var was := id in log && log[id];
    var before, after := CompletedIds(log), CompletedIds(log[id := value]);
    var expected := if value then before + {id} else before - {id};
    forall x ensures x in after <==> x in expected {
    }
    assert after == expected;
    assert was <==> id in before;
  }
}
