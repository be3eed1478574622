/** The post-processing of a generated plan (services/geminiService.ts): after the
    service's text is parsed, each exercise of each day that has an exercises array gets
    the id `<slug of the day name>-<index>-<timestamp>`, in place; any failure of the call,
    of the parse or of the loop is replaced by one fixed error. The call itself and the
    parse are inputs: `parsed` is the parsed text, or `None` when either failed. */
module Gemini {
  import opened Wrappers
  import opened Text
  import opened Types

  /** A day as it comes out of `JSON.parse`: its `exercises` array may be missing. */
  datatype RawDay = RawDay(day: string, isRestDay: bool, exercises: Option<seq<Exercise>>)

  /** The parsed text: its `weeklyPlan` array may be missing. */
  datatype RawPlan = RawPlan(weeklyPlan: Option<seq<RawDay>>)

  const PlanFailureMessage := "Failed to get a valid workout plan from the AI. Please try adjusting your inputs."

  /** `s.toLowerCase()`. */
  function LowerCase(s: string): (r: string)
    ensures |r| == |s| && forall i :: 0 <= i < |s| ==> r[i] == ToLower(s[i])
  {
    seq(|s|, i requires 0 <= i < |s| => ToLower(s[i]))
  }

  /** `s.replace(/\s/g, '-')`. */
  function DashWhitespace(s: string): (r: string)
    ensures |r| == |s|
    ensures forall i :: 0 <= i < |s| ==> r[i] == if IsWhitespace(s[i]) then '-' else s[i]
  {
    seq(|s|, i requires 0 <= i < |s| => if IsWhitespace(s[i]) then '-' else s[i])
  }

  function Slug(dayName: string): string {
    DashWhitespace(LowerCase(dayName))
  }

  /** The slug keeps the length, has neither whitespace nor upper-case letters, and keeps
      every other character of the day name lower-cased. */
  lemma SlugFacts(dayName: string)
    ensures |Slug(dayName)| == |dayName|
    ensures forall i :: 0 <= i < |dayName| ==> !IsWhitespace(Slug(dayName)[i]) && !IsUpper(Slug(dayName)[i])
    ensures forall i :: 0 <= i < |dayName| ==>
      Slug(dayName)[i] == if IsWhitespace(dayName[i]) then '-' else ToLower(dayName[i])
  {
  }

  /** `${slug}-${index}-${Date.now()}`. */
  function ExerciseId(dayName: string, index: nat, now: nat): string {
    Slug(dayName) + "-" + NatToString(index) + "-" + NatToString(now)
  }

  /** For one timestamp, the ids of a day's exercises are pairwise distinct. */
  lemma IdsDistinctWithinDay(dayName: string, i: nat, j: nat, now: nat)
    requires i != j
    ensures ExerciseId(dayName, i, now) != ExerciseId(dayName, j, now)
  {
    var a, b := ExerciseId(dayName, i, now), ExerciseId(dayName, j, now);
    var p := |Slug(dayName)| + 1;
    var si, sj := NatToString(i), NatToString(j);
    if a == b {
      assert |si| == |sj|;
      assert a[p..p + |si|] == si;
      assert b[p..p + |sj|] == sj;
      NatToStringInjective(i, j);
    }
  }

  /** A day after the loop: with an exercises array, exercise `k` gets the id of index `k`;
      without one, the day is left as it is. */
  function WithIds(d: RawDay, now: nat): (r: RawDay)
    ensures r.day == d.day && r.isRestDay == d.isRestDay
    ensures d.exercises.None? ==> r == d
    ensures d.exercises.Some? ==>
      && r.exercises.Some? && |r.exercises.value| == |d.exercises.value|
      && forall k :: 0 <= k < |d.exercises.value| ==>
           r.exercises.value[k] == d.exercises.value[k].(id := ExerciseId(d.day, k, now))
  {
    match d.exercises
    case None => d
    case Some(exs) =>
      d.(exercises := Some(seq(|exs|, k requires 0 <= k < |exs| => exs[k].(id := ExerciseId(d.day, k, now)))))
  }

  /** After the loop every exercise of a day with an exercises array has an id distinct
      from the ids of the other exercises of that day, and keeps its other fields. */
  lemma WithIdsDistinct(d: RawDay, now: nat, k1: nat, k2: nat)
    requires d.exercises.Some? && k1 < k2 < |d.exercises.value|
    ensures var exs := WithIds(d, now).exercises.value;
      && exs[k1].id != exs[k2].id
      && exs[k1].name == d.exercises.value[k1].name && exs[k1].sets == d.exercises.value[k1].sets
      && exs[k1].reps == d.exercises.value[k1].reps && exs[k1].description == d.exercises.value[k1].description
  {
    IdsDistinctWithinDay(d.day, k1, k2, now);
  }

  /** The nested `forEach` loops, assigning `exercise.id` in place. */
  method AssignIds(weeklyPlan: array<RawDay>, now: nat)
    modifies weeklyPlan
    ensures forall i :: 0 <= i < weeklyPlan.Length ==> weeklyPlan[i] == WithIds(old(weeklyPlan[i]), now)
  {
    for i := 0 to weeklyPlan.Length
      invariant forall j :: 0 <= j < i ==> weeklyPlan[j] == WithIds(old(weeklyPlan[j]), now)
      invariant forall j :: i <= j < weeklyPlan.Length ==> weeklyPlan[j] == old(weeklyPlan[j])
    {
      var day := weeklyPlan[i];
      if day.exercises.Some? {
        var original := day.exercises.value;
        var exercises := original;
        for index := 0 to |exercises|
          invariant |exercises| == |original|
          invariant forall k :: 0 <= k < index ==> exercises[k] == original[k].(id := ExerciseId(day.day, k, now))
          invariant forall k :: index <= k < |exercises| ==> exercises[k] == original[k]
        {
          exercises := exercises[index := exercises[index].(id := ExerciseId(day.day, index, now))];
        }
        assert exercises == WithIds(day, now).exercises.value;
        weeklyPlan[i] := day.(exercises := Some(exercises));
      }
    }
  }

  /** `generateWorkoutPlan` from the parse onwards: a missing parse or a missing
      `weeklyPlan` array fails with the fixed message; otherwise the days come back with
      their ids assigned. */
  method GenerateWorkoutPlan(parsed: Option<RawPlan>, now: nat) returns (r: Result<seq<RawDay>, string>)
    ensures (parsed.None? || parsed.value.weeklyPlan.None?) <==> r.Failure?
    ensures r.Failure? ==> r.error == PlanFailureMessage
    ensures r.Success? ==>
      var days := parsed.value.weeklyPlan.value;
      |r.value| == |days| && forall i :: 0 <= i < |days| ==> r.value[i] == WithIds(days[i], now)
  {
    if parsed.None? || parsed.value.weeklyPlan.None? {
      return Failure(PlanFailureMessage);
    }
    var days := parsed.value.weeklyPlan.value;
    var weeklyPlan := new RawDay[|days|](i requires 0 <= i < |days| => days[i]);
    AssignIds(weeklyPlan, now);
    r := Success(weeklyPlan[..]);
  }
}
