/** The settings screen's analytics and personal-record section
    (components/ProfileScreen.tsx): the workout and exercise totals, the seven-bar
    weekly chart, the validation of the record form, and the newest-first record list. */
module ProfileScreen {
  import opened Wrappers
  import opened Text
  import opened Dates
  import opened Types
  import AppLogic
  import WorkoutStreak

  // ---------------------------------------------------------------------------
  // Totals
  // ---------------------------------------------------------------------------

  /** `Object.keys(history).length`: every recorded date, including dates whose entries
      are all false. */
  function TotalWorkouts(h: WorkoutHistory): (n: nat)
    ensures n == |WorkoutStreak.CompletedDates(h)| + |IdleDates(h)|
    ensures n >= |WorkoutStreak.CompletedDates(h)|
  {
    var done, idle := WorkoutStreak.CompletedDates(h), IdleDates(h);
    assert h.Keys == done + idle;
    assert done * idle == {};
    |h.Keys|
  }

  /** The recorded dates none of whose entries is true. */
  function IdleDates(h: WorkoutHistory): set<Day> {
    set d | d in h && !HasCompletion(h[d])
  }

  /** The workout total bounds the streak: every day of the streak is a recorded date. */
  lemma StreakAtMostTotalWorkouts(h: WorkoutHistory, today: Day)
    ensures WorkoutStreak.Streak(h, today) <= TotalWorkouts(h)
  {
  }

  /** The sum of the done counts of the dates in `s`, taken latest date first (addition
      being commutative, any order of `reduce` gives the same sum). It is at least each
      date's count, and 0 exactly when no date of the set has a done entry. */
  function SumOver(h: WorkoutHistory, s: set<Day>): (r: nat)
    ensures forall d :: d in s ==> r >= CompletedOn(h, d)
    ensures r == 0 <==> forall d :: d in s ==> CompletedOn(h, d) == 0
    decreases |s|
  {
    if s == {} then 0
    else
      var d := Latest(s);
      CompletedOn(h, d) + SumOver(h, s - {d})
  }

  /** `dates.reduce((acc, date) => acc + <done count of date>, 0)`: at least each date's
      count, and 0 exactly when nothing was ever marked done. */
  function TotalExercises(h: WorkoutHistory): (r: nat)
    ensures forall d :: r >= CompletedOn(h, d)
    ensures r == 0 <==> forall x :: x in h ==> !HasCompletion(h[x])
  {
    SumOver(h, h.Keys)
  }

  /** Any date of the set can be taken out of the sum first. */
  lemma {:induction false} SumOverSplit(h: WorkoutHistory, s: set<Day>, d: Day)
    requires d in s
    ensures SumOver(h, s) == CompletedOn(h, d) + SumOver(h, s - {d})
    decreases |s|
  {
    var m := Latest(s);
    if m != d {
      SumOverSplit(h, s - {m}, d);
      var l := Latest(s - {d});
      assert m in s - {d} && l in s;
      assert l == m;
      assert s - {d} - {m} == s - {m} - {d};
    }
  }

  /** The sum only depends on the done counts of the dates in the set. */
  lemma {:induction false} SumOverFrame(h1: WorkoutHistory, h2: WorkoutHistory, s: set<Day>)
    requires forall d :: d in s ==> CompletedOn(h1, d) == CompletedOn(h2, d)
    ensures SumOver(h1, s) == SumOver(h2, s)
    decreases |s|
  {
    if s != {} {
      SumOverFrame(h1, h2, s - {Latest(s)});
    }
  }

  /** Toggling an exercise changes the exercise total by exactly one. */
  lemma ToggleChangesTotalByOne(h: WorkoutHistory, today: Day, id: string)
    ensures var after := AppLogic.ToggledHistory(h, today, id);
      TotalExercises(after) == if IsDone(h, today, id) then TotalExercises(h) - 1 else TotalExercises(h) + 1
  {
    var after := AppLogic.ToggledHistory(h, today, id);
    var rest := h.Keys - {today};
    assert after.Keys - {today} == rest;
    TotalExercisesWithout(after, today);
    TotalExercisesWithout(h, today);
    RestUnchangedByToggle(h, today, id);
    AppLogic.ToggleChangesCountByOne(h, today, id);
  }

  /** A toggle leaves the sum over the other dates alone. */
  lemma RestUnchangedByToggle(h: WorkoutHistory, today: Day, id: string)
    ensures SumOver(AppLogic.ToggledHistory(h, today, id), h.Keys - {today}) == SumOver(h, h.Keys - {today})
  {
    var after := AppLogic.ToggledHistory(h, today, id);
    var rest := h.Keys - {today};
    forall d | d in rest ensures CompletedOn(after, d) == CompletedOn(h, d) {
      assert after[d] == h[d];
    }
    SumOverFrame(after, h, rest);
  }

  /** The total is the date's count plus the sum over the other dates. */
  lemma TotalExercisesWithout(h: WorkoutHistory, d: Day)
    ensures TotalExercises(h) == CompletedOn(h, d) + SumOver(h, h.Keys - {d})
  {
    if d in h {
      SumOverSplit(h, h.Keys, d);
    } else {
      assert h.Keys - {d} == h.Keys;
    }
  }

  /** Toggling an exercise on and off again leaves its date recorded: the workout total
      counts it although none of its entries is true. */
  lemma ToggleTwiceKeepsDate(h: WorkoutHistory, today: Day, id: string)
    requires today !in h
    ensures var after := AppLogic.ToggledHistory(AppLogic.ToggledHistory(h, today, id), today, id);
      && TotalWorkouts(after) == TotalWorkouts(h) + 1
      && !HasCompletion(after[today])
  {
    var once := AppLogic.ToggledHistory(h, today, id);
    var after := AppLogic.ToggledHistory(once, today, id);
    assert after.Keys == h.Keys + {today};
    assert after[today].Keys == {id};
  }

  // ---------------------------------------------------------------------------
  // The weekly chart
  // ---------------------------------------------------------------------------

  /** The entries of a JavaScript `Map` in insertion order: key, value. */
  type Entries = seq<(Day, nat)>

  /** The position of key `k`, or -1. */
  function Find(e: Entries, k: Day): (i: int)
    ensures -1 <= i < |e|
    ensures i >= 0 ==> e[i].0 == k && forall j :: 0 <= j < i ==> e[j].0 != k
    ensures i == -1 ==> forall j :: 0 <= j < |e| ==> e[j].0 != k
  {
    if e == [] then -1
    else if e[0].0 == k then 0
    else
      var r := Find(e[1..], k);
      if r == -1 then -1 else r + 1
  }

  /** `map.get(k) || 0`. */
  function Get(e: Entries, k: Day): nat {
    var i := Find(e, k);
    if i >= 0 then e[i].1 else 0
  }

  /** `map.set(k, v)`: an existing key keeps its position, a new one goes last. */
  function Put(e: Entries, k: Day, v: nat): (r: Entries)
    ensures Find(e, k) >= 0 ==> r == e[Find(e, k) := (k, v)]
    ensures Find(e, k) == -1 ==> r == e + [(k, v)]
  {
    var i := Find(e, k);
    if i >= 0 then e[i := (k, v)] else e + [(k, v)]
  }

  /** The seven buckets, six days ago first, after tallying the dates of `ks`: a bucket
      holds its date's done count once its date has been tallied, 0 before. */
  function Window(h: WorkoutHistory, today: Day, ks: seq<Day>): (r: Entries)
    ensures |r| == 7
    ensures forall i :: 0 <= i < 7 ==> r[i] == (today - 6 + i, Bucket(h, today - 6 + i, ks))
  {
    seq(7, i => (today - 6 + i, Bucket(h, today - 6 + i, ks)))
  }

  function Bucket(h: WorkoutHistory, d: Day, ks: seq<Day>): nat {
    if d in ks then CompletedOn(h, d) else 0
  }

  /** The entries that dates after today add, in the order of `ks`. */
  function Later(h: WorkoutHistory, today: Day, ks: seq<Day>): (r: Entries)
    ensures forall j :: 0 <= j < |r| ==> r[j].0 > today && r[j].0 in ks
  {
    if ks == [] then []
    else
      var last := ks[|ks| - 1];
      Later(h, today, ks[..|ks| - 1]) + (if last > today then [(last, CompletedOn(h, last))] else [])
  }

  lemma LaterSnoc(h: WorkoutHistory, today: Day, ks: seq<Day>, k: Day)
    ensures Later(h, today, ks + [k]) == Later(h, today, ks) + (if k > today then [(k, CompletedOn(h, k))] else [])
  {
    assert (ks + [k])[..|ks|] == ks;
  }

  /** One step of the `forEach`: tallying a date not tallied before. A date before six
      days ago is skipped, a date of the window fills its bucket, a later date is
      appended. */
  lemma TallyStep(h: WorkoutHistory, today: Day, ks: seq<Day>, k: Day)
    requires k !in ks
    ensures var e := Window(h, today, ks) + Later(h, today, ks);
      var e' := Window(h, today, ks + [k]) + Later(h, today, ks + [k]);
      (k >= today - 6 ==> Put(e, k, Get(e, k) + CompletedOn(h, k)) == e') && (k < today - 6 ==> e == e')
  {
    LaterSnoc(h, today, ks, k);
    if k < today - 6 {
      WindowUnchanged(h, today, ks, k);
    } else if k <= today {
      TallyInWindow(h, today, ks, k);
    } else {
      WindowUnchanged(h, today, ks, k);
      TallyAfterToday(h, today, ks, k);
    }
  }

  lemma WindowUnchanged(h: WorkoutHistory, today: Day, ks: seq<Day>, k: Day)
    requires k < today - 6 || k > today
    ensures Window(h, today, ks + [k]) == Window(h, today, ks)
  {
    var w, w' := Window(h, today, ks), Window(h, today, ks + [k]);
    forall i | 0 <= i < 7 ensures w'[i] == w[i] {
      assert today - 6 + i != k;
      assert (today - 6 + i in ks + [k]) == (today - 6 + i in ks);
    }
  }

  lemma TallyInWindow(h: WorkoutHistory, today: Day, ks: seq<Day>, k: Day)
    requires k !in ks && today - 6 <= k <= today
    ensures var w, l := Window(h, today, ks), Later(h, today, ks);
      Put(w + l, k, Get(w + l, k) + CompletedOn(h, k)) == Window(h, today, ks + [k]) + l
  {
    var w, l := Window(h, today, ks), Later(h, today, ks);
    var e := w + l;
    var idx := k - (today - 6);
    assert e[idx] == w[idx];
    forall j | 0 <= j < idx ensures e[j].0 != k {
      assert e[j] == w[j];
    }
    assert Find(e, k) == idx;
    assert Get(e, k) == 0;
    var w' := Window(h, today, ks + [k]);
    assert w' == w[idx := (k, CompletedOn(h, k))] by {
      forall i | 0 <= i < 7 ensures w'[i] == w[idx := (k, CompletedOn(h, k))][i] {
      }
    }
    assert e[idx := (k, CompletedOn(h, k))] == w[idx := (k, CompletedOn(h, k))] + l;
  }

  lemma TallyAfterToday(h: WorkoutHistory, today: Day, ks: seq<Day>, k: Day)
    requires k !in ks && k > today
    ensures var e := Window(h, today, ks) + Later(h, today, ks);
      Put(e, k, Get(e, k) + CompletedOn(h, k)) == e + [(k, CompletedOn(h, k))]
  {
    var w, l := Window(h, today, ks), Later(h, today, ks);
    var e := w + l;
    forall j | 0 <= j < |e| ensures e[j].0 != k {
      if j < 7 {
        assert e[j] == w[j] && w[j].0 == today - 6 + j;
      } else {
        assert e[j] == l[j - 7];
      }
    }
    assert Find(e, k) == -1;
  }

  datatype Bar = Bar(name: string, exercises: nat)

  const DayNames: seq<string> := ["Sun", "Mon", "Tue", "Wed", "Thu", "Fri", "Sat"]

  /** `.map(([key, exercises]) => ({ name: <day name part of key>, exercises })).slice(-7)`. */
  function Bars(e: Entries): (bars: seq<Bar>)
    ensures |bars| == if |e| <= 7 then |e| else 7
    ensures forall i :: 0 <= i < |bars| ==>
      var src := e[|e| - |bars| + i];
      bars[i] == Bar(DayNames[Weekday(src.0)], src.1)
  {
    var tail := if |e| <= 7 then e else e[|e| - 7..];
    seq(|tail|, i requires 0 <= i < |tail| => Bar(DayNames[Weekday(tail[i].0)], tail[i].1))
  }

  /** The `useMemo` computing the chart: seven zero buckets for six days ago .. today,
      then each history date (in `Object.keys` order, `keys`) from six days ago on adds
      its done count to its bucket; a date after today gets a new entry at the end. The
      last seven entries are charted. */
  method WeeklyData(h: WorkoutHistory, today: Day, keys: seq<Day>) returns (bars: seq<Bar>)
    requires forall i, j :: 0 <= i < j < |keys| ==> keys[i] != keys[j]
    ensures bars == Bars(Window(h, today, keys) + Later(h, today, keys))
  {
    var entries: Entries := [];
    var i := 6;
    while i >= 0
      invariant -1 <= i <= 6
      invariant entries == seq(6 - i, j => (today - 6 + j, 0))
    {
      assert Find(entries, today - i) == -1;
      entries := Put(entries, today - i, 0);
      i := i - 1;
    }
    assert forall j :: 0 <= j < 7 ==> Window(h, today, [])[j] == (today - 6 + j, 0);
    assert entries == Window(h, today, []) + Later(h, today, []);
    var n := 0;
    while n < |keys|
      invariant 0 <= n <= |keys|
      invariant entries == Window(h, today, keys[..n]) + Later(h, today, keys[..n])
    {
      var dateStr := keys[n];
      assert dateStr !in keys[..n];
      TallyStep(h, today, keys[..n], dateStr);
      assert keys[..n + 1] == keys[..n] + [dateStr];
      if dateStr >= today - 6 {
        entries := Put(entries, dateStr, Get(entries, dateStr) + CompletedOn(h, dateStr));
      }
      n := n + 1;
    }
    assert keys[..n] == keys;
    bars := Bars(entries);
  }

  /** The chart always has seven bars. */
  lemma SevenBars(h: WorkoutHistory, today: Day, keys: seq<Day>)
    ensures |Bars(Window(h, today, keys) + Later(h, today, keys))| == 7
  {
  }

  /** When `keys` lists the history and no date lies after today, bar `i` is the day
      `6 - i` days ago, with that day's done count. */
  lemma BarsOfPastWeek(h: WorkoutHistory, today: Day, keys: seq<Day>, i: int)
    requires forall d :: d in keys <==> d in h
    requires forall d :: d in keys ==> d <= today
    requires 0 <= i < 7
    ensures Bars(Window(h, today, keys) + Later(h, today, keys))[i] ==
      Bar(DayNames[Weekday(today - 6 + i)], CompletedOn(h, today - 6 + i))
  {
    LaterEmpty(h, today, keys);
    assert Window(h, today, keys) + [] == Window(h, today, keys);
  }

  lemma {:induction false} LaterEmpty(h: WorkoutHistory, today: Day, ks: seq<Day>)
    requires forall d :: d in ks ==> d <= today
    ensures Later(h, today, ks) == []
  {
    if ks != [] {
      var init := ks[..|ks| - 1];
      assert forall d :: d in init ==> d in ks;
      assert ks[|ks| - 1] in ks;
      LaterEmpty(h, today, init);
    }
  }

  /** A date after today pushes the oldest bucket off the chart: the first bar then no
      longer belongs to six days ago. */
  lemma FutureDateShiftsChart(h: WorkoutHistory, today: Day, keys: seq<Day>)
    requires exists k :: k in keys && k > today
    ensures var e := Window(h, today, keys) + Later(h, today, keys);
      |e| > 7 && e[|e| - 7].0 != today - 6
  {
    var k :| k in keys && k > today;
    LaterHasDate(h, today, keys, k);
  }

  lemma {:induction false} LaterHasDate(h: WorkoutHistory, today: Day, ks: seq<Day>, k: Day)
    requires k in ks && k > today
    ensures |Later(h, today, ks)| > 0
  {
    var init := ks[..|ks| - 1];
    if ks[|ks| - 1] != k {
      assert k in init by { assert ks == init + [ks[|ks| - 1]]; }
      LaterHasDate(h, today, init, k);
    }
  }

  // ---------------------------------------------------------------------------
  // The record form
  // ---------------------------------------------------------------------------

  /** The check in `handleSubmit`: a record is made when the trimmed name is non-empty and
      weight and reps parse as numbers; the stored name is the trimmed one. */
  function Validate(exerciseName: string, weight: string, reps: string): (r: Option<PRInput>)
    ensures r.Some? <==> Trim(exerciseName) != [] && ParseFloat(weight).Some? && ParseInt(reps).Some?
    ensures r.Some? ==> r.value.exerciseName == Trim(exerciseName)
    ensures r.Some? ==> r.value.weight == ParseFloat(weight).value && r.value.reps == ParseInt(reps).value
  {
    var weightNum := ParseFloat(weight);
    var repsNum := ParseInt(reps);
    if Trim(exerciseName) != [] && weightNum.Some? && repsNum.Some? then
      Some(PRInput(Trim(exerciseName), weightNum.value, repsNum.value))
    else None
  }

  /** A name of nothing but whitespace is refused; an accepted name neither starts nor
      ends with whitespace. */
  lemma ValidatedName(exerciseName: string, weight: string, reps: string)
    ensures (forall i :: 0 <= i < |exerciseName| ==> IsWhitespace(exerciseName[i])) ==>
      Validate(exerciseName, weight, reps).None?
    ensures Validate(exerciseName, weight, reps).Some? ==>
      var n := Validate(exerciseName, weight, reps).value.exerciseName;
      |n| > 0 && !IsWhitespace(n[0]) && !IsWhitespace(n[|n| - 1])
  {
    TrimEmptyIff(exerciseName);
  }

  /** The form's three text fields. */
  class PRForm {
    var exerciseName: string
    var weight: string
    var reps: string

    constructor ()
      ensures exerciseName == "" && weight == "" && reps == ""
    {
      exerciseName := "";
      weight := "";
      reps := "";
    }

    /** `handleSubmit`: returns what is passed to `addPR`, if anything; a submitted form is
        cleared, a refused one keeps its text. */
    method HandleSubmit() returns (submitted: Option<PRInput>)
      modifies this
      ensures submitted == Validate(old(exerciseName), old(weight), old(reps))
      ensures submitted.Some? ==> exerciseName == "" && weight == "" && reps == ""
      ensures submitted.None? ==> exerciseName == old(exerciseName) && weight == old(weight) && reps == old(reps)
    {
      var weightNum := ParseFloat(weight);
      var repsNum := ParseInt(reps);
      if Trim(exerciseName) != [] && weightNum.Some? && repsNum.Some? {
        submitted := Some(PRInput(Trim(exerciseName), weightNum.value, repsNum.value));
        exerciseName := "";
        weight := "";
        reps := "";
      } else {
        submitted := None;
      }
    }
  }

  // ---------------------------------------------------------------------------
  // The records, newest first
  // ---------------------------------------------------------------------------

  predicate NewestFirst(s: seq<PR>) {
    forall i, j :: 0 <= i < j < |s| ==> s[i].date >= s[j].date
  }

  /** The records of `s` dated `d`, in order. */
  function OnDate(s: seq<PR>, d: Day): seq<PR> {
    if s == [] then [] else (if s[0].date == d then [s[0]] else []) + OnDate(s[1..], d)
  }

  /** Insert `x` before the first record not newer than it. */
  function InsertByDate(x: PR, s: seq<PR>): (r: seq<PR>)
    ensures multiset(r) == multiset(s) + multiset{x}
    ensures forall y :: y in r ==> y == x || y in s
  {
    if s == [] || s[0].date <= x.date then [x] + s
    else
      var rest := InsertByDate(x, s[1..]);
      assert s == [s[0]] + s[1..];
      [s[0]] + rest
  }

  /** `[...personalRecords].sort((a, b) => date(b) - date(a))` on a copy. */
  function SortByDate(s: seq<PR>): (r: seq<PR>)
    ensures multiset(r) == multiset(s)
    ensures NewestFirst(r)
  {
    if s == [] then []
    else
      assert s == [s[0]] + s[1..];
      InsertByDateSorted(s[0], SortByDate(s[1..]));
      InsertByDate(s[0], SortByDate(s[1..]))
  }

  /** Inserting into a newest-first list keeps it newest first. */
  lemma {:induction false} InsertByDateSorted(x: PR, s: seq<PR>)
    requires NewestFirst(s)
    ensures NewestFirst(InsertByDate(x, s))
  {
    if s == [] || s[0].date <= x.date {
      ConsNewestFirst(x, s);
    } else {
      var rest := InsertByDate(x, s[1..]);
      InsertByDateSorted(x, s[1..]);
      forall y | y in rest ensures y.date <= s[0].date {
        if y != x {
          var j :| 0 <= j < |s[1..]| && s[1..][j] == y;
          assert s[j + 1] == y;
        }
      }
      ConsNewestFirst(s[0], rest);
    }
  }

  lemma ConsNewestFirst(a: PR, r: seq<PR>)
    requires NewestFirst(r) && forall y :: y in r ==> y.date <= a.date
    ensures NewestFirst([a] + r)
  {
    var t := [a] + r;
    forall i, j | 0 <= i < j < |t| ensures t[i].date >= t[j].date {
      assert t[j] == r[j - 1];
      if i > 0 {
        assert t[i] == r[i - 1];
      } else {
        assert r[j - 1] in r;
      }
    }
  }

  lemma {:induction false} InsertByDateOnDate(x: PR, s: seq<PR>, d: Day)
    ensures OnDate(InsertByDate(x, s), d) == (if x.date == d then [x] else []) + OnDate(s, d)
  {
    if !(s == [] || s[0].date <= x.date) {
      InsertByDateOnDate(x, s[1..], d);
      assert ([s[0]] + InsertByDate(x, s[1..]))[1..] == InsertByDate(x, s[1..]);
    } else {
      assert ([x] + s)[1..] == s;
    }
  }

  /** The sort is stable, as JavaScript's is: records of the same date keep their order. */
  lemma {:induction false} SortByDateStable(s: seq<PR>, d: Day)
    ensures OnDate(SortByDate(s), d) == OnDate(s, d)
  {
    if s != [] {
      SortByDateStable(s[1..], d);
      InsertByDateOnDate(s[0], SortByDate(s[1..]), d);
    }
  }
}
