# GeminiFit local logic in Dafny

GeminiFit is a browser fitness coach. A generative-AI service writes a weekly
workout plan, answers chat questions and estimates nutrition. Everything else
the app does is local, and that local part is what this project models and
proves:

- **The application state controller** (`useAppLogic`). It is a class,
  `AppLogic.AppState`, with the same fields as the React state: profile,
  plan, workout history, nutrition history, chat history, personal records,
  the loading flag, the error, and a key/value store standing in for
  `localStorage`. Each operation is a method whose `ensures` gives the new
  memory and the new store. Each operation also keeps memory and store in
  agreement (`Synced`). Reloading an agreeing store gives the memory back
  (`ReloadRestoresMemory`).
- **The workout streak.** The descending scan with a counter and a break on
  the first gap is a method. It is proved equal to a specification function,
  and that function is characterised over the set of completed dates.
- **The two calendar screens.** Per-day classification with shade priority,
  check icon, dot and PR marker, and the month grid of leading blanks
  followed by the days. Every day cell is proved to sit in the column of its
  weekday. The two screens' completion rules are compared.
- **Today's workout screen.** The error, rest-day and training views, the
  counts and the progress.
- **The settings screen's analytics.**
  - Workout and exercise totals.
  - The weekly chart, built in an insertion-ordered `Map` as the source does.
  - PR form validation.
  - The newest-first PR sort, proved a stable permutation.
- **Plan post-processing in the AI gateway.** The in-place nested loop that
  gives every exercise the id `slug(day)-index-timestamp`, and its single
  error outcome.
- **The top-level screen choice** (`renderContent`, `showNav`).

Dates are day numbers, counted as days since 1970-01-01 (`Dates.Day`). The
program keys its maps by the ISO text `YYYY-MM-DD`. That text and the day
number determine each other one-to-one. So comparing keys for equality is
comparing day numbers, and the histories and PR dates are keyed by day
number. The weekday is `(d + 4) % 7`, because 1970-01-01 was a Thursday
(see `Dates.EpochIsThursday`). Months are 0-based as in JavaScript. Month
lengths follow the Gregorian rule, and `Dates.DaysInMonthIsDistanceToNextMonth`
proves that this is what `new Date(y, m + 1, 0).getDate()` computes.

The service's results are parameters of the methods:

- a `Result` holding a plan, food items or a thrown value;
- a `Reply` holding streamed chunks and whether the stream completed.

"today" is also a parameter (a day number), and so is "now" (a millisecond
timestamp).

The modules follow the source files:

| module | file |
|---|---|
| `AppLogic` | hooks/useWorkout.ts, except the streak |
| `WorkoutStreak` | the streak in hooks/useWorkout.ts |
| `Calendar` | components/CalendarScreen.tsx |
| `WorkoutPlanScreen` | components/WorkoutPlanScreen.tsx |
| `MonthGrid` | the grid both calendar screens share |
| `TodaysWorkout` | components/TodaysWorkoutScreen.tsx |
| `ProfileScreen` | components/ProfileScreen.tsx |
| `Gemini` | services/geminiService.ts |
| `App` | App.tsx |
| `Types` | types.ts and the completion counts every screen uses |
| `Dates` | calendar arithmetic |
| `Text` | the JavaScript string primitives the program relies on |
| `Wrappers` | `Option` and `Result` |

Some observations follow from the model as written:

- Toggling an exercise on and then off leaves its date in the history, and
  the workout total still counts that date (`ProfileScreen.ToggleTwiceKeepsDate`).
- Today's completed count includes ids that are not in today's plan, so the
  progress can pass 100% (`TodaysWorkout.CountIncludesForeignIds`,
  `TodaysWorkout.ProgressCanExceedHundred`).
- A history date after today is appended to the weekly chart's map. It then
  pushes the oldest bucket off the seven charted bars
  (`ProfileScreen.FutureDateShiftsChart`).
- The plan calendar counts a rest day with a done entry as completed. The
  main calendar does not (`WorkoutPlanScreen.RestDayCompletedOnlyHere`).

## Model

| member | source | states |
|---|---|---|
| Text.ToLower | services/geminiService.ts:89 | ASCII `toLowerCase` of one character: an upper-case letter becomes its lower-case letter (32 code points on), every other character is kept, and the result is never upper case |
| Text.NatToString | services/geminiService.ts:89 | `${n}` for a timestamp or index: at least one character, all decimal digits, one digit exactly when n < 10, no leading zero, and the digits denote n |
| Text.NatToStringInjective | services/geminiService.ts:89 | distinct numbers have distinct decimal texts |
| Text.Trim | components/ProfileScreen.tsx:150-151 | `trim()`: a contiguous slice of the input starting after its leading whitespace, everything after it is whitespace, and it is empty or neither starts nor ends with whitespace |
| Text.TrimEmptyIff | components/ProfileScreen.tsx:150 | the trimmed name is empty exactly when the name is all whitespace |
| Text.TrimIdempotent | components/ProfileScreen.tsx:151 | trimming an already trimmed name changes nothing |
| Text.ParseInt | components/ProfileScreen.tsx:149-150 | `parseInt(reps, 10)` is a number (not NaN) exactly when a digit follows the leading whitespace and optional sign |
| Text.ParseFloat | components/ProfileScreen.tsx:148-150 | `parseFloat(weight)` is a number exactly when a digit, or a point and a digit, follows the leading whitespace and optional sign |
| Text.ParseIntOfDecimal | components/ProfileScreen.tsx:149-150 | `parseInt` of the decimal text of n, with or without a leading `-` and followed by anything not a digit, is n or -n |
| Text.ParseFloatOfDecimal | components/ProfileScreen.tsx:148-150 | `parseFloat` of the decimal text of n, followed by anything that is neither a digit nor a point, is n |
| Text.ParseFloatOfParts | components/ProfileScreen.tsx:148-150 | `parseFloat` of digits, a point and more digits is the whole part plus the fraction digits' value scaled down by ten per digit |
| Text.ParseFloatTenths | components/ProfileScreen.tsx:148-150 | `parseFloat` of `n.k` for one digit k is n + k/10 |
| Dates.Weekday | components/CalendarScreen.tsx:39 | `getDay()` of a date lies in 0..6 |
| Dates.WeekdayNext | components/CalendarScreen.tsx:36-39 | consecutive dates have consecutive weekdays modulo 7 |
| Dates.EpochIsThursday | components/CalendarScreen.tsx:37-39 | day 0 is 1 January 1970 and falls on a Thursday (weekday 4) |
| Dates.PlanDayIndex | components/CalendarScreen.tsx:41 | the Monday-first plan index of a JavaScript weekday lies in 0..6, and `(index + 1) % 7` gives the weekday back |
| Dates.PlanIndexOf | components/TodaysWorkoutScreen.tsx:15-16 | a date's plan index lies in 0..6, and shifting it by one day mod 7 gives the date's `getDay()` (Monday is 0, Sunday 6) |
| Dates.PlanIndexRoundTrip | components/WorkoutPlanScreen.tsx:19 | `(i + 1) % 7` followed by the reindex is the identity on 0..6 |
| Dates.DaysInMonth | components/CalendarScreen.tsx:15 | month lengths lie in 28..31; 31 days for January, March, May, July, August, October and December; 29 exactly for February of a leap year |
| Dates.MarchYearLength | components/CalendarScreen.tsx:15 | the year from 1 March of y has 366 days exactly when y + 1 is a Gregorian leap year |
| Dates.DaysInMonthIsDistanceToNextMonth | components/CalendarScreen.tsx:15 | the month length is the distance from its first day to the first day of the next month, which is what day 0 of the next month denotes |
| Dates.DaysOfMonthConsecutive | components/CalendarScreen.tsx:36-37 | day k of a month is k - 1 days after day 1 |
| Dates.SortedDescending | hooks/useWorkout.ts:227-229 | the date sort yields the given set of dates, each once, strictly most recent first |
| Types.CompletedCount | components/CalendarScreen.tsx:46 | the count of true values is at most the number of entries and is 0 exactly when no entry is true |
| Types.CompletedOn | components/CalendarScreen.tsx:46 | a date's done count is positive exactly when the history has the date with a true entry (0 without an entry) |
| Types.CompletedCountAfterSet | hooks/useWorkout.ts:123-124 | setting an id true that was not true adds one to the count, setting a true id false takes one away, and anything else leaves it |
| WorkoutStreak.ComputeStreak | hooks/useWorkout.ts:226-262 | the streak of the history is `Streak`: the scan over the completed dates, sorted most recent first |
| WorkoutStreak.ScanStreak | hooks/useWorkout.ts:231-261 | the loop with the counter and the break on a gap computes 0 for no dates or a first date that is neither today nor yesterday, and otherwise the run of consecutive days the sorted list starts with |
| WorkoutStreak.Run | hooks/useWorkout.ts:245-258 | the run a non-empty list starts with has length between 1 and the list's length |
| WorkoutStreak.RunStep | hooks/useWorkout.ts:250-257 | one loop step: the run from position k extends by one exactly when the next date is one day earlier |
| WorkoutStreak.RunIsConsecutivePrefix | hooks/useWorkout.ts:249-258 | on a strictly descending list the run covers the consecutive days ending at the first date, and the next date, if any, is earlier than the day before the run |
| WorkoutStreak.LatestHeadsSorted | hooks/useWorkout.ts:227-229 | the sorted list starts with the most recent completed date |
| WorkoutStreak.RunDaysPresent | hooks/useWorkout.ts:249-258 | every day of the run is in the list |
| WorkoutStreak.DayBeforeRunAbsent | hooks/useWorkout.ts:249-258 | the day before the run is not in the list |
| WorkoutStreak.RunCoversConsecutiveDays | hooks/useWorkout.ts:245-258 | over the set the list enumerates, the run is exactly the consecutive days ending at the first date: all are in the set, and the day before them is not |
| WorkoutStreak.StreakOfSet | hooks/useWorkout.ts:231-261 | the streak of a sorted enumeration of a set has `StreakMeaning` over that set |
| WorkoutStreak.StreakCharacterization | hooks/useWorkout.ts:226-262 | the streak is 0 exactly when no date has a true entry or the most recent one is neither today nor yesterday; otherwise the streak days ending at the most recent completed date are all completed and the day before them is not |
| WorkoutStreak.CompletedDates | hooks/useWorkout.ts:227-228 | the dates kept by the `some(Boolean)` filter: recorded dates whose done count is positive |
| WorkoutStreak.StreakOf | hooks/useWorkout.ts:231-261 | the streak of a newest-first list is at most its length, and positive only when the first date is today or yesterday |
| WorkoutStreak.Streak | hooks/useWorkout.ts:226-262 | the streak never exceeds the number of completed dates; `StreakCharacterization` gives its meaning |
| WorkoutStreak.ThreeDayStreak | hooks/useWorkout.ts:240-258 | with today, yesterday and the day before completed and nothing later, the streak is at least 3 |
| WorkoutStreak.ThreeDaysMeaning | hooks/useWorkout.ts:240-258 | the same statement over any set of completed dates |
| WorkoutStreak.SingleDateStreak | hooks/useWorkout.ts:240-243 | a single completed date yesterday gives a streak of 1; a single completed date two days ago gives 0 |
| AppLogic.FirstCorrupt | hooks/useWorkout.ts:28-47 | the position in load order of the first stored text that does not parse: all keys before it parse or are absent, and that key does not parse |
| AppLogic.LoadInto | hooks/useWorkout.ts:27-52 | an absent key keeps memory's value of its field (the `if (saved…)` guards), and an unparsable profile text keeps all of memory |
| AppLogic.LoadStopsAtFirstCorrupt | hooks/useWorkout.ts:27-52 | the startup load keeps what every key before the first unparsable one holds, and leaves that key's field and all later ones at their defaults |
| AppLogic.ReloadRestoresMemory | hooks/useWorkout.ts:27-52 | loading a store that agrees with memory yields that memory |
| AppLogic.ClearedStoreSynced | hooks/useWorkout.ts:109-114 | a store without the six keys agrees with the initial (null and empty) state |
| AppLogic.PutProfileSynced | hooks/useWorkout.ts:71-72 | writing the profile to memory and to its key keeps memory and store in agreement |
| AppLogic.PutPlanSynced | hooks/useWorkout.ts:76-81 | setting the plan and writing its key, or removing the key for null, keeps them in agreement |
| AppLogic.PutHistorySynced | hooks/useWorkout.ts:130-131 | writing the workout history to memory and its key keeps them in agreement |
| AppLogic.ClearHistorySynced | hooks/useWorkout.ts:90-91 | emptying the workout history and removing its key keeps them in agreement |
| AppLogic.PutNutritionSynced | hooks/useWorkout.ts:149-151 | writing the nutrition history to memory and its key keeps them in agreement |
| AppLogic.PutChatSynced | hooks/useWorkout.ts:202-204 | writing the chat history to memory and its key keeps them in agreement |
| AppLogic.PutRecordsSynced | hooks/useWorkout.ts:220-222 | writing the record list to memory and its key keeps them in agreement |
| AppLogic.ErrorMessage | hooks/useWorkout.ts:94 | the message of a thrown `Error`, otherwise the fixed unknown-error text; the failure branches of `GeneratePlan`, `LogFood` and `LogFoodFromImage` prefix it |
| AppLogic.ToggledHistory | hooks/useWorkout.ts:118-131 | toggling creates today's entry if absent and flips the id's done value (absent counts as not done); today's entry gains only that id, and every other date and every other id is unchanged |
| AppLogic.ToggleTwiceRestores | hooks/useWorkout.ts:117-132 | toggling the same id twice restores its done value, every other id of today and every other date |
| AppLogic.ToggleChangesCountByOne | hooks/useWorkout.ts:123-124 | a toggle raises today's done count by one when the exercise becomes done and lowers it by one when it becomes undone |
| AppLogic.SumTotalsConcat | hooks/useWorkout.ts:141-147 | the field sums over two batches of items add up |
| AppLogic.SumTotalsOrderIndependent | hooks/useWorkout.ts:141-147 | the order in which batches are appended does not change the totals |
| AppLogic.LogOrEmpty | hooks/useWorkout.ts:139 | an existing log for the date is the one extended, with its items and totals; a date without a log starts from no items and zero totals |
| AppLogic.WithItems | hooks/useWorkout.ts:139-149 | after appending, the old items come first and the new items follow in order, and each of calories, protein, carbs and fat grows by that field's sum over the new items |
| AppLogic.AppendItems | hooks/useWorkout.ts:141-147 | the `forEach` pushing each item and adding its four fields into the totals computes `WithItems` |
| AppLogic.WithItemsKeepsConsistent | hooks/useWorkout.ts:139-149 | when the totals were the field sums of the items before, they still are afterwards |
| AppLogic.WithItemsTwice | hooks/useWorkout.ts:141-147 | appending two batches one after the other is appending their concatenation |
| AppLogic.TwoItemsExample | hooks/useWorkout.ts:139-147 | items of 100 and 50 calories logged on a day without a log give 150 calories |
| AppLogic.StreamChunks | hooks/useWorkout.ts:194-199 | the full response is the concatenation of the chunks, and the i-th `onStream` call receives the concatenation of the first i + 1 chunks |
| AppLogic.UpdatesGrow | hooks/useWorkout.ts:197-198 | each streamed text extends the one before it |
| AppLogic.RecordId | hooks/useWorkout.ts:216 | a record id is `pr-` followed by the decimal text of the timestamp |
| AppLogic.RecordIdsDistinct | hooks/useWorkout.ts:216 | records created at different milliseconds get different ids |
| AppLogic.AppState.constructor | hooks/useWorkout.ts:14-22 | the initial state: no profile, no plan, empty collections, initializing, not loading, no error |
| AppLogic.AppState.Load | hooks/useWorkout.ts:27-52 | the startup load: reads the six keys in order, replaces each field whose key parses and keeps it when the key is absent, stops at the first unparsable text, and ends initialization in every case without touching the store |
| AppLogic.AppState.Login | hooks/useWorkout.ts:70-73 | the profile is set and written to its key; nothing else changes, and agreement is kept |
| AppLogic.AppState.SetWorkoutPlan | hooks/useWorkout.ts:75-82 | the plan is set; a plan is written to its key and null removes the key; agreement is kept |
| AppLogic.AppState.GeneratePlan | hooks/useWorkout.ts:84-100 | on success the plan is replaced and persisted, the history emptied and its key removed, and the plan returned; on failure plan, history and store are unchanged, the error is `Failed to generate workout plan. ` plus the message (or `An unknown error occurred.`), and null is returned; loading ends false either way |
| AppLogic.AppState.ResetApp | hooks/useWorkout.ts:102-115 | profile and plan are null, history, nutrition, chat and records are empty, all six keys are removed, and memory and store agree |
| AppLogic.AppState.ToggleExerciseComplete | hooks/useWorkout.ts:117-133 | the history becomes `ToggledHistory` and is written to its key; the returned vibrate flag is true exactly when the exercise became done; agreement is kept |
| AppLogic.AppState.UpdateNutritionHistory | hooks/useWorkout.ts:135-153 | today's log (empty if absent) becomes `WithItems` of the items, other dates are unchanged, and the new history is written to its key; agreement is kept |
| AppLogic.AppState.LogFood | hooks/useWorkout.ts:155-167 | on success the items are logged as above and the error cleared; on failure nothing but the error changes (`Could not log food. ` plus the message); loading ends false |
| AppLogic.AppState.LogFoodFromImage | hooks/useWorkout.ts:169-181 | as `LogFood`, with the prefix `Could not log food from image. ` |
| AppLogic.AppState.SendMessageToCoach | hooks/useWorkout.ts:183-211 | without a chat session only the error is set; otherwise the i-th update is the concatenation of the first i + 1 chunks; on a completed stream the chat history becomes the old history, the user message and the full reply, and is persisted; on a failed one an apology follows the user message and the store is unchanged |
| AppLogic.AppState.AddPR | hooks/useWorkout.ts:213-224 | exactly one record is appended, dated today with id `pr-<now>`; the old list is a prefix of the new one, the new list is written to its key, and agreement is kept |
| MonthGrid.FirstDayOfMonth | components/CalendarScreen.tsx:16 | the number of leading blanks lies in 0..6 |
| MonthGrid.ColumnIsWeekday | components/CalendarScreen.tsx:31-39 | the cell of day k, at position firstDayOfMonth + k - 1, lies in column weekday(date) of the Sunday-first grid |
| MonthGrid.LastDayPrecedesNextMonth | components/CalendarScreen.tsx:15 | the day after the last day of the month is the first day of the next month, across the year end too |
| Calendar.PrDays | components/CalendarScreen.tsx:18 | a date is in the PR set exactly when some record carries it |
| Calendar.IsWorkoutDay | components/CalendarScreen.tsx:41-43 | the plan has an entry for the date's weekday and it is not a rest day; `RestDayNeverCompleted` and `ClassifyDay` use it |
| Calendar.PlannedCount | components/CalendarScreen.tsx:45 | the planned count is the number of exercises of the weekday's plan entry, and 0 when the plan has no entry for it |
| Calendar.IsCompleted | components/CalendarScreen.tsx:46-47 | a workout day with at least one planned exercise and a done count no smaller; `CompletedNeedsHistory` and `CompletedMonotone` give its consequences |
| Calendar.ClassifyDay | components/CalendarScreen.tsx:41-71 | the shade is today, else completed, else workout day, else plain, each exactly under its condition; the check icon appears exactly on completed days other than today; the PR marker appears exactly on PR dates |
| Calendar.RenderDays | components/CalendarScreen.tsx:28-80 | the grid is firstDayOfMonth blanks followed by the classified cells of days 1..daysInMonth in order, and every day cell sits in the column of its weekday |
| Calendar.CompletedNeedsHistory | components/CalendarScreen.tsx:43-47 | a completed day is a non-rest plan day whose date has a true entry in the history |
| Calendar.RestDayNeverCompleted | components/CalendarScreen.tsx:43-47 | a rest day, or a weekday the plan has no entry for, is never completed |
| Calendar.CompletedMonotone | components/CalendarScreen.tsx:46-47 | a higher done count never uncompletes a day |
| Calendar.MarkersOfCell | components/CalendarScreen.tsx:49-75 | a check icon only ever sits on the completed shade, and a day has the PR marker exactly when some record has its date |
| WorkoutPlanScreen.WeekDayMapOf | components/WorkoutPlanScreen.tsx:19 | the map built from the first n days has exactly their names as keys, and each name maps to (i + 1) % 7 for the last position i carrying it |
| WorkoutPlanScreen.WeekDayMap | components/WorkoutPlanScreen.tsx:19 | every mapped weekday lies in 0..6 |
| WorkoutPlanScreen.WeekDayMapInvertsPlanIndex | components/WorkoutPlanScreen.tsx:19 | for the last plan day with a given name, at plan index i, the name maps to (i + 1) % 7, whose reindex is i again |
| WorkoutPlanScreen.ClassifyDay | components/WorkoutPlanScreen.tsx:41-59 | the shade is today, else completed, else default, each exactly under its condition; the dot appears exactly on workout days that are not completed; the PR border appears exactly on PR dates |
| WorkoutPlanScreen.RenderDays | components/WorkoutPlanScreen.tsx:30-72 | the grid is firstDayOfMonth blanks followed by the classified cells of days 1..daysInMonth in order, and every day cell sits in the column of its weekday |
| WorkoutPlanScreen.IsCompleted | components/WorkoutPlanScreen.tsx:46-48 | a positive done count no smaller than the planned count, with no rest-day test; `RestDayCompletedOnlyHere` shows where it differs from the main calendar |
| WorkoutPlanScreen.CalendarCompletedImpliesCompleted | components/WorkoutPlanScreen.tsx:46-48 | a day the main calendar counts as completed is completed here too |
| WorkoutPlanScreen.RestDayCompletedOnlyHere | components/WorkoutPlanScreen.tsx:44-48 | a rest day, or a weekday without a plan entry, with a done entry and at least its planned count is completed here and not in the main calendar |
| WorkoutPlanScreen.RulesAgreeOnWorkoutDays | components/WorkoutPlanScreen.tsx:44-48 | on workout days with at least one planned exercise the two rules agree |
| WorkoutPlanScreen.DotMarksPendingWorkouts | components/WorkoutPlanScreen.tsx:66 | a dot never sits on a completed day and only on a non-rest plan day |
| TodaysWorkout.TodaysLog | components/TodaysWorkoutScreen.tsx:19-20 | today's record is empty when the history has no entry for today, and marks an id done exactly when the history does |
| TodaysWorkout.Progress | components/TodaysWorkoutScreen.tsx:33 | the progress is 0 without exercises and completed / total × 100 otherwise, so at least 100 once all are done |
| TodaysWorkout.TodayScreen | components/TodaysWorkoutScreen.tsx:15-68 | the error view exactly when the plan has no entry for today's index; the rest view exactly on a rest day, whatever its exercises; otherwise the completed count of today's record, the total of today's exercises, the progress bar exactly when there are exercises, and one card per exercise in order, completed exactly when today's record marks its id done |
| TodaysWorkout.CompletedCountIsTodays | components/TodaysWorkoutScreen.tsx:31 | the completed count is today's done count, the one the calendars use |
| TodaysWorkout.CountIncludesForeignIds | components/TodaysWorkoutScreen.tsx:31-32 | a done id that is not in today's plan counts as completed, while no card shows completed |
| TodaysWorkout.ProgressCanExceedHundred | components/TodaysWorkoutScreen.tsx:31-33 | more done entries than planned exercises put the progress above 100% |
| ProfileScreen.TotalWorkouts | components/ProfileScreen.tsx:16-17 | total workouts is the number of dates with a done entry plus the number of recorded dates without one, so at least the former; `ToggleTwiceKeepsDate` shows the inequality can be strict |
| ProfileScreen.StreakAtMostTotalWorkouts | components/ProfileScreen.tsx:16-17 | the streak shown beside it never exceeds total workouts |
| ProfileScreen.SumOverSplit | components/ProfileScreen.tsx:18 | any date of the set can be taken out of the sum first, so the reduce order does not matter |
| ProfileScreen.SumOverFrame | components/ProfileScreen.tsx:18 | the sum depends only on the done counts of the dates summed |
| ProfileScreen.SumOver | components/ProfileScreen.tsx:18 | the sum over a set of dates is at least each date's done count, and 0 exactly when no date summed has a done entry |
| ProfileScreen.TotalExercises | components/ProfileScreen.tsx:18 | total exercises is at least each date's done count, and 0 exactly when nothing was ever marked done |
| ProfileScreen.TotalExercisesWithout | components/ProfileScreen.tsx:18 | total exercises is one date's done count plus the sum over the other dates |
| ProfileScreen.ToggleChangesTotalByOne | components/ProfileScreen.tsx:18 | a toggle changes total exercises by exactly one, up when the exercise becomes done and down when it becomes undone |
| ProfileScreen.ToggleTwiceKeepsDate | components/ProfileScreen.tsx:16-17 | toggling on and off on a new date adds one to the workout total although the date has no true entry |
| ProfileScreen.Find | components/ProfileScreen.tsx:38 | the lookup in an insertion-ordered map gives the first position holding the key, or -1 when no position does |
| ProfileScreen.Put | components/ProfileScreen.tsx:27 | `Map.set` overwrites an existing key in its position and appends a new one at the end |
| ProfileScreen.Window | components/ProfileScreen.tsx:20-28 | seven buckets for six days ago through today, oldest first, each holding its date's done count once that date has been tallied and 0 before |
| ProfileScreen.Later | components/ProfileScreen.tsx:30-40 | the extra entries only ever hold history dates after today |
| ProfileScreen.LaterSnoc | components/ProfileScreen.tsx:30-40 | tallying one more date appends an entry exactly when it lies after today |
| ProfileScreen.TallyStep | components/ProfileScreen.tsx:30-40 | one `forEach` step: a date before six days ago changes nothing; any other date adds its done count to its entry (`get || 0` plus the count), which fills a window bucket or appends a date after today |
| ProfileScreen.WindowUnchanged | components/ProfileScreen.tsx:30-40 | a date outside the window leaves the seven buckets as they are |
| ProfileScreen.TallyInWindow | components/ProfileScreen.tsx:35-39 | a date of the window fills its own bucket and nothing else |
| ProfileScreen.TallyAfterToday | components/ProfileScreen.tsx:35-39 | a date after today is appended as a new entry |
| ProfileScreen.Bars | components/ProfileScreen.tsx:42-44 | the chart holds the last min(7, entries) entries in order, each named by its date's weekday with its count |
| ProfileScreen.WeeklyData | components/ProfileScreen.tsx:20-44 | the two loops build exactly the window followed by the later entries, and the chart is their last seven |
| ProfileScreen.SevenBars | components/ProfileScreen.tsx:42-44 | the chart always has seven bars |
| ProfileScreen.BarsOfPastWeek | components/ProfileScreen.tsx:20-44 | with no history date after today, bar i is the day 6 - i days ago, with its weekday name and its done count |
| ProfileScreen.LaterEmpty | components/ProfileScreen.tsx:30-40 | with no date after today nothing is appended to the window |
| ProfileScreen.FutureDateShiftsChart | components/ProfileScreen.tsx:30-44 | a history date after today pushes six days ago off the chart |
| ProfileScreen.LaterHasDate | components/ProfileScreen.tsx:30-40 | a history date after today yields an appended entry |
| ProfileScreen.Validate | components/ProfileScreen.tsx:146-151 | a record is produced exactly when the trimmed name is non-empty and weight and reps both parse, with the trimmed name and the parsed numbers |
| ProfileScreen.ValidatedName | components/ProfileScreen.tsx:150-151 | an all-whitespace name is refused, and an accepted name neither starts nor ends with whitespace |
| ProfileScreen.PRForm.constructor | components/ProfileScreen.tsx:142-144 | the three form fields start empty |
| ProfileScreen.PRForm.HandleSubmit | components/ProfileScreen.tsx:146-156 | the submitted record is `Validate` of the fields; a submitted form is cleared and a refused one keeps its text |
| ProfileScreen.InsertByDate | components/ProfileScreen.tsx:158 | inserting a record adds exactly that record to the multiset of records |
| ProfileScreen.SortByDate | components/ProfileScreen.tsx:158 | the sorted copy is a permutation of the records, newest first |
| ProfileScreen.InsertByDateSorted | components/ProfileScreen.tsx:158 | inserting into a newest-first list keeps it newest first |
| ProfileScreen.ConsNewestFirst | components/ProfileScreen.tsx:158 | a record no older than any of a newest-first list can go in front of it |
| ProfileScreen.InsertByDateOnDate | components/ProfileScreen.tsx:158 | an insertion puts the new record before every record of its own date that was already there |
| ProfileScreen.SortByDateStable | components/ProfileScreen.tsx:158 | the sort is stable: records of one date keep their original order |
| Gemini.LowerCase | services/geminiService.ts:89 | `toLowerCase` keeps the length and lowers each character |
| Gemini.DashWhitespace | services/geminiService.ts:89 | `replace(/\s/g, '-')` keeps the length, replaces every whitespace character by `-` and keeps all others |
| Gemini.SlugFacts | services/geminiService.ts:89 | the slug has the day name's length, contains neither whitespace nor upper-case letters, and is the lower-cased name with whitespace turned into `-` |
| Gemini.Slug | services/geminiService.ts:89 | `day.toLowerCase().replace(/\s/g, '-')`; `SlugFacts` states what it yields |
| Gemini.ExerciseId | services/geminiService.ts:89 | `${slug}-${index}-${Date.now()}`; `IdsDistinctWithinDay` states what it guarantees |
| Gemini.IdsDistinctWithinDay | services/geminiService.ts:88-89 | for one timestamp, exercises of one day at different indices get different ids |
| Gemini.WithIds | services/geminiService.ts:86-92 | a day without an exercises array is left as it is; otherwise exercise k gets the id `slug(day)-k-now`, and name, order, count and the day's fields are kept |
| Gemini.WithIdsDistinct | services/geminiService.ts:86-92 | after the loop the ids within a day are pairwise distinct and every other exercise field is unchanged |
| Gemini.AssignIds | services/geminiService.ts:86-92 | the in-place nested loop leaves every day of the array as `WithIds` of its old value |
| Gemini.GenerateWorkoutPlan | services/geminiService.ts:84-98 | a failed parse or a missing `weeklyPlan` array fails with exactly the message `Failed to get a valid workout plan from the AI. Please try adjusting your inputs.`; otherwise every day comes back with its ids assigned |
| App.ViewScreen | App.tsx:58-71 | the active view always selects one of the five view screens, and any value other than the four named views selects today's |
| App.RenderContent | App.tsx:45-72 | the splash screen whenever the splash runs or the state is initializing; otherwise the sign-in screen without a profile; otherwise the setup screen without a plan; otherwise the active view's screen |
| App.ShowNav | App.tsx:74 | no splash, initialization over, a profile and a plan; `NavExactlyOnViewScreens` ties it to the rendered screen |
| App.NavExactlyOnViewScreens | App.tsx:74 | the navigation bar is shown exactly when a view screen is rendered: no splash, initialization over, profile and plan present |
| App.ViewsDistinct | App.tsx:58-68 | the five view names select five different screens |

## Left out

- The generative-AI service is not modelled: prompts, the response schemas, the client and the creation of the chat session. The outcome of each call is a parameter. The chat session is taken to exist exactly when there is a profile (`AppState.ChatReady`), which is when the effect at hooks/useWorkout.ts:55-67 creates it.
- Asynchrony is not modelled. A chat turn is a sequential fold over a given list of chunks. Overlapping calls, which only the loading flag guards, are left out.
- `JSON.stringify`, `JSON.parse` and `localStorage` are abstract. A stored value is the record it encodes, or text that does not parse. Valid JSON of the wrong shape is treated as not parsing; the source would accept it.
- An empty stored text, which the load skips as falsy, is not modelled. The program never writes one.
- AppLogic.AppState.SendMessageToCoach: memory and store are not proved to agree after a failed stream. They do not agree: the apology is in memory but not persisted, as in the source.
- AppLogic.AppState.SendMessageToCoach: the new history is built from the chat history at call time. The source reads `chatHistory` through the callback's closure, which a stale render could make older.
- The state-updater functions are taken to run once. React's development double invocation is not modelled.
- In-place aliasing is not modelled. `{...prev}` is a shallow copy, so toggling an exercise and appending food also mutate the previous state's record for today.
- AppLogic.AppState.ToggleExerciseComplete: vibration is only the returned flag. Whether `navigator.vibrate` exists is not modelled.
- Numbers are modelled as integers or reals. Calories, sets and reps are integers, and protein, carbs, fat and weight are reals. Floating-point rounding and drift are left out, and so is the display of the progress percentage.
- Text.ParseFloat: exponents and `Infinity` are not modelled, and only the ASCII range is. The same ASCII restriction applies to `Text.ToLower`, `Gemini.LowerCase` and the whitespace class.
- Time zones are left out: the model assumes the local time zone is UTC, so every date is one day number with one weekday. The program mixes local `getDay`, `setDate` and `setHours` with UTC `toISOString` keys and parses ISO keys as UTC midnight with `new Date(dateStr)`. Outside UTC this shifts keys all day, every day, and the model does not capture it:
  - both calendar screens build local midnight and key it with `toISOString()` (components/CalendarScreen.tsx:37-38, components/WorkoutPlanScreen.tsx:39-40); east of UTC that is the previous UTC date, so every cell is looked up one day early against the history keys written at hooks/useWorkout.ts:118;
  - the weekly chart parses each history key as UTC midnight (components/ProfileScreen.tsx:31) but names it with the local `getDay()` (line 36); west of UTC that is the previous weekday, so the key built at line 38 never matches one seeded at line 27, each charted date is appended as an extra entry, and real days are pushed off the seven bars.
- `changeMonth` and the month rollover of `setMonth` are not modelled. The rendered month is a parameter, and so is "today".
- Gemini.WithIds: `Date.now()` is read once for the whole loop, as one timestamp. The source reads it once per exercise, so ids of one plan can carry different timestamps.
- Gemini.IdsDistinctWithinDay: ids are proved distinct only within one day. Two days whose names have the same slug get equal ids at equal indices.
- Gemini.GenerateWorkoutPlan: every parsed day has a name. A day without a `day` text but with a non-empty exercises array, for which `day.day.toLowerCase()` would throw (services/geminiService.ts:87-89), is not modelled; a day without exercises never reaches that call.
- The cast `parsedPlan as WorkoutPlan` is not checked in the source, and the result is not linked to the controller's plan. Days of the gateway's result may lack an exercises array; `AppState.GeneratePlan` receives an already well-formed plan.
- ProfileScreen.WeeklyData: the order of `Object.keys` is a parameter (`keys`, distinct dates). Integer-like keys aside, that is insertion order, which a map value does not record.
- The weekly chart's map keys `${date}_${dayName}` are represented by the date alone. The day name is a function of the date.
- Rendering, styling, icons, camera capture, notifications and scrolling are left out, as are the form and plumbing screens: NutritionScreen, ChatScreen, AuthScreen, SetupScreen, ExerciseCard, BottomNav, SplashScreen and SimpleBarChart. constants.ts holds only static option lists.
