/** The workout streak derived from the workout history (`workoutStreak` in
    hooks/useWorkout.ts): the completed dates are sorted most recent first and
    scanned while each lies exactly one day before the previous one. */
module WorkoutStreak {
  import opened Dates
  import opened Types

  /** The dates with at least one exercise marked done. */
  function CompletedDates(history: WorkoutHistory): (r: set<Day>)
    ensures r <= history.Keys
    ensures forall d :: d in r <==> CompletedOn(history, d) > 0
  {
    set d | d in history && HasCompletion(history[d])
  }

  /** The length of the run of consecutive days that `ds` starts with. */
  function Run(ds: seq<Day>): (n: nat)
    ensures |ds| > 0 ==> 1 <= n <= |ds|
    ensures |ds| == 0 ==> n == 0
  {
    if |ds| <= 1 then |ds|
    else if ds[0] - ds[1] == 1 then 1 + Run(ds[1..])
    else 1
  }

  /** The streak the scan computes: 0 without completed dates or when the latest one is
      neither today nor yesterday, otherwise the run the latest one starts. It never
      exceeds the number of completed dates. */
  function Streak(history: WorkoutHistory, today: Day): (n: nat)
    ensures n <= |CompletedDates(history)|
  {
    StreakOf(SortedDescending(CompletedDates(history)), today)
  }

  /** The streak of a most-recent-first list of dates: at most its length, and positive
      only when the first date is today or yesterday. */
  function StreakOf(dates: seq<Day>, today: Day): (n: nat)
    ensures n <= |dates|
    ensures n > 0 ==> dates[0] == today || dates[0] == today - 1
  {
    if |dates| == 0 then 0
    else if dates[0] != today && dates[0] != today - 1 then 0
    else Run(dates)
  }

  /** The descending scan with a counter and a break on the first gap. */
  method ComputeStreak(history: WorkoutHistory, today: Day) returns (streak: nat)
    ensures streak == Streak(history, today)
  {
    var dates := SortedDescending(CompletedDates(history));
    streak := ScanStreak(dates, today);
  }

  method ScanStreak(dates: seq<Day>, today: Day) returns (streak: nat)
    ensures streak == StreakOf(dates, today)
  {
    if |dates| == 0 {
      return 0;
    }
    if dates[0] != today && dates[0] != today - 1 {
      return 0;
    }
    streak := 1;
    var lastDate := dates[0];
    var i := 1;
    while i < |dates|
      invariant 1 <= i <= |dates|
      invariant streak == i && lastDate == dates[i - 1]
      invariant Run(dates) == i - 1 + Run(dates[i - 1..])
    {
      RunStep(dates, i - 1);
      if lastDate - dates[i] == 1 {
        streak := streak + 1;
        lastDate := dates[i];
      } else {
        break;
      }
      i := i + 1;
    }
  }

  lemma RunStep(ds: seq<Day>, k: nat)
    requires k + 1 < |ds|
    ensures Run(ds[k..]) == if ds[k] - ds[k + 1] == 1 then 1 + Run(ds[k + 1..]) else 1
  {
    assert ds[k..][1..] == ds[k + 1..];
  }

  /** What the run of a strictly descending sequence is: its first `n` entries are
      consecutive days and the next entry, if any, is not the day before. */
  lemma {:induction false} RunIsConsecutivePrefix(ds: seq<Day>)
    requires StrictlyDescending(ds) && |ds| > 0
    ensures forall j :: 0 <= j < Run(ds) ==> ds[j] == ds[0] - j
    ensures Run(ds) < |ds| ==> ds[Run(ds)] < ds[0] - Run(ds)
  {
    if |ds| > 1 && ds[0] - ds[1] == 1 {
      var tail := ds[1..];
      RunIsConsecutivePrefix(tail);
      forall j | 0 <= j < Run(ds) ensures ds[j] == ds[0] - j {
        if j > 0 { assert ds[j] == tail[j - 1]; }
      }
      if Run(ds) < |ds| {
        assert ds[Run(ds)] == tail[Run(tail)];
      }
    }
  }

  /** The most recent completed date heads the sorted list. */
  lemma LatestHeadsSorted(s: set<Day>)
    requires s != {}
    ensures |SortedDescending(s)| > 0 && SortedDescending(s)[0] == Latest(s)
  {
    var ds := SortedDescending(s);
    assert ds[0] in s;
    assert Latest(s) in ds;
    var k :| 0 <= k < |ds| && ds[k] == Latest(s);
  }

  /** The days of the run are in the set. */
  lemma RunDaysPresent(ds: seq<Day>, d: Day)
    requires StrictlyDescending(ds) && |ds| > 0
    requires ds[0] - Run(ds) < d <= ds[0]
    ensures d in ds
  {
    RunIsConsecutivePrefix(ds);
    assert ds[ds[0] - d] == d;
  }

  /** The day before the run is not in the set. */
  lemma DayBeforeRunAbsent(ds: seq<Day>)
    requires StrictlyDescending(ds) && |ds| > 0
    ensures ds[0] - Run(ds) !in ds
  {
    RunIsConsecutivePrefix(ds);
    var n, top := Run(ds), ds[0];
    forall k | 0 <= k < |ds| ensures ds[k] != top - n {
      if k < n {
        assert ds[k] == top - k;
      } else if k > n {
        assert ds[k] < ds[n];
      }
    }
  }

  /** Over the set a list enumerates: the run that the list starts with covers exactly
      the consecutive days ending at its first day. */
  lemma RunCoversConsecutiveDays(ds: seq<Day>, s: set<Day>)
    requires StrictlyDescending(ds) && |ds| > 0
    requires forall x :: x in ds <==> x in s
    ensures forall d :: ds[0] - Run(ds) < d <= ds[0] ==> d in s
    ensures ds[0] - Run(ds) !in s
  {
    forall d | ds[0] - Run(ds) < d <= ds[0] ensures d in s {
      RunDaysPresent(ds, d);
    }
    DayBeforeRunAbsent(ds);
  }

  /** What a streak of `n` days means over the set `s` of completed dates: it is 0 exactly
      when no date is completed or the latest completed date is neither today nor
      yesterday; otherwise the `n` days ending at the latest completed date are all
      completed and the day before them is not. */
  predicate StreakMeaning(s: set<Day>, n: nat, today: Day) {
    && (n == 0 <==> s == {} || (Latest(s) != today && Latest(s) != today - 1))
    && (n > 0 ==>
          && (forall d :: Latest(s) - n < d <= Latest(s) ==> d in s)
          && Latest(s) - n !in s)
  }

  /** The streak of a list enumerating a set, most recent first, has that meaning. */
  lemma StreakOfSet(ds: seq<Day>, s: set<Day>, today: Day)
    requires StrictlyDescending(ds) && |ds| == |s|
    requires forall x :: x in ds <==> x in s
    requires s != {} ==> ds[0] == Latest(s)
    ensures StreakMeaning(s, StreakOf(ds, today), today)
  {
    if s != {} {
      RunCoversConsecutiveDays(ds, s);
    }
  }

  /** The streak, stated over the set of completed dates. */
  lemma StreakCharacterization(history: WorkoutHistory, today: Day)
    ensures StreakMeaning(CompletedDates(history), Streak(history, today), today)
  {
    var done := CompletedDates(history);
    var ds := SortedDescending(done);
    if done != {} {
      LatestHeadsSorted(done);
    }
    StreakOfSet(ds, done, today);
  }

  /** If today, yesterday and the day before are completed and nothing later is, the
      streak is at least 3. */
  lemma ThreeDayStreak(history: WorkoutHistory, today: Day)
    requires today in CompletedDates(history)
    requires today - 1 in CompletedDates(history)
    requires today - 2 in CompletedDates(history)
    requires forall d :: d in CompletedDates(history) ==> d <= today
    ensures Streak(history, today) >= 3
  {
    StreakCharacterization(history, today);
    ThreeDaysMeaning(CompletedDates(history), Streak(history, today), today);
  }

  /** The same over any set of completed dates. */
  lemma ThreeDaysMeaning(s: set<Day>, n: nat, today: Day)
    requires today in s && today - 1 in s && today - 2 in s
    requires forall d :: d in s ==> d <= today
    requires StreakMeaning(s, n, today)
    ensures n >= 3
  {
    assert Latest(s) == today;
    assert today - n !in s;
  }

  /** A single completed date yesterday gives a streak of 1; a single completed date two
      days ago gives 0. */
  lemma SingleDateStreak(history: WorkoutHistory, today: Day, d: Day)
    requires CompletedDates(history) == {d}
    ensures d == today - 1 ==> Streak(history, today) == 1
    ensures d == today - 2 ==> Streak(history, today) == 0
  {
    StreakCharacterization(history, today);
    assert Latest({d}) == d;
  }
}
