/** The application state controller (`useAppLogic` in hooks/useWorkout.ts):
    the in-memory state, the key/value store standing in for `localStorage`,
    and the operations, each of which updates memory and then writes or
    removes the store key of what it changed. Results of the generative-AI
    service are passed in as parameters; "today" is a day number and "now" a
    millisecond timestamp passed in by the caller. */
module AppLogic {
  import opened Wrappers
  import opened Text
  import opened Dates
  import opened Types

  // ---------------------------------------------------------------------------
  // The store
  // ---------------------------------------------------------------------------

  datatype StoreKey = ProfileKey | PlanKey | HistoryKey | NutritionKey | ChatKey | RecordsKey

  /** The `localStorage` key names. */
  function KeyName(k: StoreKey): string {
    match k
    case ProfileKey => "geminiUserProfile"
    case PlanKey => "geminiWorkoutPlan"
    case HistoryKey => "geminiWorkoutHistory"
    case NutritionKey => "geminiNutritionHistory"
    case ChatKey => "geminiChatHistory"
    case RecordsKey => "geminiPersonalRecords"
  }

  /** A stored JSON text, modelled by the record it encodes, or text that does not parse.
      A record of another kind than the key's counts as not parsing. */
  datatype Blob =
    | ProfileBlob(profile: UserProfile)
    | PlanBlob(plan: WorkoutPlan)
    | HistoryBlob(history: WorkoutHistory)
    | NutritionBlob(nutrition: NutritionHistory)
    | ChatBlob(chat: seq<ChatMessage>)
    | RecordsBlob(records: seq<PR>)
    | Unparsable

  type Store = map<StoreKey, Blob>

  /** The outcome of `getItem` followed by `JSON.parse`. */
  datatype Read<T> = Absent | Parsed(value: T) | Corrupt

  function Decoded<T>(r: Read<T>, fallback: T): T {
    if r.Parsed? then r.value else fallback
  }

  function ReadProfile(st: Store): Read<Option<UserProfile>> {
    if ProfileKey !in st then Absent
    else match st[ProfileKey] case ProfileBlob(p) => Parsed(Some(p)) case _ => Corrupt
  }

  function ReadPlan(st: Store): Read<Option<WorkoutPlan>> {
    if PlanKey !in st then Absent
    else match st[PlanKey] case PlanBlob(p) => Parsed(Some(p)) case _ => Corrupt
  }

  function ReadHistory(st: Store): Read<WorkoutHistory> {
    if HistoryKey !in st then Absent
    else match st[HistoryKey] case HistoryBlob(h) => Parsed(h) case _ => Corrupt
  }

  function ReadNutrition(st: Store): Read<NutritionHistory> {
    if NutritionKey !in st then Absent
    else match st[NutritionKey] case NutritionBlob(n) => Parsed(n) case _ => Corrupt
  }

  function ReadChat(st: Store): Read<seq<ChatMessage>> {
    if ChatKey !in st then Absent
    else match st[ChatKey] case ChatBlob(c) => Parsed(c) case _ => Corrupt
  }

  function ReadRecords(st: Store): Read<seq<PR>> {
    if RecordsKey !in st then Absent
    else match st[RecordsKey] case RecordsBlob(r) => Parsed(r) case _ => Corrupt
  }

  /** The persisted part of the controller's state. */
  datatype Memory = Memory(
    profile: Option<UserProfile>,
    plan: Option<WorkoutPlan>,
    history: WorkoutHistory,
    nutrition: NutritionHistory,
    chat: seq<ChatMessage>,
    records: seq<PR>)

  /** The initial values of the state hooks. */
  const Defaults := Memory(None, None, map[], map[], [], [])

  /** The order in which the startup load reads the keys. */
  const LoadOrder: seq<StoreKey> := [ProfileKey, PlanKey, HistoryKey, NutritionKey, ChatKey, RecordsKey]

  predicate IsCorrupt(st: Store, k: StoreKey) {
    match k
    case ProfileKey => ReadProfile(st).Corrupt?
    case PlanKey => ReadPlan(st).Corrupt?
    case HistoryKey => ReadHistory(st).Corrupt?
    case NutritionKey => ReadNutrition(st).Corrupt?
    case ChatKey => ReadChat(st).Corrupt?
    case RecordsKey => ReadRecords(st).Corrupt?
  }

  /** The position in the load order of the first key whose text does not parse (6 if none). */
  function FirstCorrupt(st: Store): (n: nat)
    ensures n <= |LoadOrder|
    ensures forall i :: 0 <= i < n ==> !IsCorrupt(st, LoadOrder[i])
    ensures n < |LoadOrder| ==> IsCorrupt(st, LoadOrder[n])
  {
    if IsCorrupt(st, ProfileKey) then 0
    else if IsCorrupt(st, PlanKey) then 1
    else if IsCorrupt(st, HistoryKey) then 2
    else if IsCorrupt(st, NutritionKey) then 3
    else if IsCorrupt(st, ChatKey) then 4
    else if IsCorrupt(st, RecordsKey) then 5
    else 6
  }

  /** The startup load applied to memory `m`: the keys are read in load order, each present
      key that parses replaces its field, an absent key leaves it, and the first key that
      does not parse ends the load (the `try` block is left), leaving that field and all
      later ones as they were. So an absent key always keeps memory's value, and a
      profile text that does not parse keeps all of memory. */
  function LoadInto(st: Store, m: Memory): (r: Memory)
    ensures ReadProfile(st).Absent? ==> r.profile == m.profile
    ensures ReadPlan(st).Absent? ==> r.plan == m.plan
    ensures ReadHistory(st).Absent? ==> r.history == m.history
    ensures ReadNutrition(st).Absent? ==> r.nutrition == m.nutrition
    ensures ReadChat(st).Absent? ==> r.chat == m.chat
    ensures ReadRecords(st).Absent? ==> r.records == m.records
    ensures IsCorrupt(st, ProfileKey) ==> r == m
  {
    var n := FirstCorrupt(st);
    Memory(
      if n > 0 then Decoded(ReadProfile(st), m.profile) else m.profile,
      if n > 1 then Decoded(ReadPlan(st), m.plan) else m.plan,
      if n > 2 then Decoded(ReadHistory(st), m.history) else m.history,
      if n > 3 then Decoded(ReadNutrition(st), m.nutrition) else m.nutrition,
      if n > 4 then Decoded(ReadChat(st), m.chat) else m.chat,
      if n > 5 then Decoded(ReadRecords(st), m.records) else m.records)
  }

  /** Field `k` of `m` holds what the store holds under `k` (its default when the key is absent). */
  predicate FieldStored(m: Memory, st: Store, k: StoreKey) {
    !IsCorrupt(st, k) &&
    match k
    case ProfileKey => m.profile == Decoded(ReadProfile(st), Defaults.profile)
    case PlanKey => m.plan == Decoded(ReadPlan(st), Defaults.plan)
    case HistoryKey => m.history == Decoded(ReadHistory(st), Defaults.history)
    case NutritionKey => m.nutrition == Decoded(ReadNutrition(st), Defaults.nutrition)
    case ChatKey => m.chat == Decoded(ReadChat(st), Defaults.chat)
    case RecordsKey => m.records == Decoded(ReadRecords(st), Defaults.records)
  }

  /** Field `k` of `m` has its initial value. */
  predicate FieldDefault(m: Memory, k: StoreKey) {
    match k
    case ProfileKey => m.profile == Defaults.profile
    case PlanKey => m.plan == Defaults.plan
    case HistoryKey => m.history == Defaults.history
    case NutritionKey => m.nutrition == Defaults.nutrition
    case ChatKey => m.chat == Defaults.chat
    case RecordsKey => m.records == Defaults.records
  }

  /** Memory and store agree on every key. */
  predicate SyncedWith(m: Memory, st: Store) {
    forall k :: FieldStored(m, st, k)
  }

  /** Loading at startup keeps every key read before the first one that does not parse,
      and leaves that one and all later ones at their defaults. */
  lemma LoadStopsAtFirstCorrupt(st: Store)
    ensures forall i :: 0 <= i < FirstCorrupt(st) ==> FieldStored(LoadInto(st, Defaults), st, LoadOrder[i])
    ensures forall i :: FirstCorrupt(st) <= i < |LoadOrder| ==> FieldDefault(LoadInto(st, Defaults), LoadOrder[i])
  {
  }

  /** Reloading a store that agrees with memory gives back that memory: what the operations
      persist is what the next startup load restores. */
  lemma ReloadRestoresMemory(m: Memory, st: Store)
    requires SyncedWith(m, st)
    ensures LoadInto(st, Defaults) == m
  {
    assert FieldStored(m, st, ProfileKey) && FieldStored(m, st, PlanKey) && FieldStored(m, st, HistoryKey);
    assert FieldStored(m, st, NutritionKey) && FieldStored(m, st, ChatKey) && FieldStored(m, st, RecordsKey);
    assert FirstCorrupt(st) == 6;
  }

  /** A store without any of the keys agrees with the initial memory. */
  lemma ClearedStoreSynced(st: Store)
    ensures SyncedWith(Defaults, st - {ProfileKey, PlanKey, HistoryKey, NutritionKey, ChatKey, RecordsKey})
  {
  }

  // Each write the operations perform keeps memory and store in agreement.

  lemma PutProfileSynced(m: Memory, st: Store, p: UserProfile)
    requires SyncedWith(m, st)
    ensures SyncedWith(m.(profile := Some(p)), st[ProfileKey := ProfileBlob(p)])
  {
    var m2, st2 := m.(profile := Some(p)), st[ProfileKey := ProfileBlob(p)];
    forall k ensures FieldStored(m2, st2, k) {
      assert FieldStored(m, st, k);
    }
  }

  lemma PutPlanSynced(m: Memory, st: Store, plan: Option<WorkoutPlan>)
    requires SyncedWith(m, st)
    ensures SyncedWith(m.(plan := plan), if plan.Some? then st[PlanKey := PlanBlob(plan.value)] else st - {PlanKey})
  {
    var st2 := if plan.Some? then st[PlanKey := PlanBlob(plan.value)] else st - {PlanKey};
    var m2 := m.(plan := plan);
    forall k ensures FieldStored(m2, st2, k) {
      assert FieldStored(m, st, k);
    }
  }

  lemma PutHistorySynced(m: Memory, st: Store, h: WorkoutHistory)
    requires SyncedWith(m, st)
    ensures SyncedWith(m.(history := h), st[HistoryKey := HistoryBlob(h)])
  {
    var m2, st2 := m.(history := h), st[HistoryKey := HistoryBlob(h)];
    forall k ensures FieldStored(m2, st2, k) {
      assert FieldStored(m, st, k);
    }
  }

  lemma ClearHistorySynced(m: Memory, st: Store)
    requires SyncedWith(m, st)
    ensures SyncedWith(m.(history := map[]), st - {HistoryKey})
  {
    var m2, st2 := m.(history := map[]), st - {HistoryKey};
    forall k ensures FieldStored(m2, st2, k) {
      assert FieldStored(m, st, k);
    }
  }

  lemma PutNutritionSynced(m: Memory, st: Store, n: NutritionHistory)
    requires SyncedWith(m, st)
    ensures SyncedWith(m.(nutrition := n), st[NutritionKey := NutritionBlob(n)])
  {
    var m2, st2 := m.(nutrition := n), st[NutritionKey := NutritionBlob(n)];
    forall k ensures FieldStored(m2, st2, k) {
      assert FieldStored(m, st, k);
    }
  }

  lemma PutChatSynced(m: Memory, st: Store, c: seq<ChatMessage>)
    requires SyncedWith(m, st)
    ensures SyncedWith(m.(chat := c), st[ChatKey := ChatBlob(c)])
  {
    var m2, st2 := m.(chat := c), st[ChatKey := ChatBlob(c)];
    forall k ensures FieldStored(m2, st2, k) {
      assert FieldStored(m, st, k);
    }
  }

  lemma PutRecordsSynced(m: Memory, st: Store, r: seq<PR>)
    requires SyncedWith(m, st)
    ensures SyncedWith(m.(records := r), st[RecordsKey := RecordsBlob(r)])
  {
    var m2, st2 := m.(records := r), st[RecordsKey := RecordsBlob(r)];
    forall k ensures FieldStored(m2, st2, k) {
      assert FieldStored(m, st, k);
    }
  }

  // ---------------------------------------------------------------------------
  // Errors raised by the service calls
  // ---------------------------------------------------------------------------

  /** What a rejected call throws: an `Error` with a message, or some other value. */
  datatype Thrown = ErrorValue(message: string) | OtherValue

  /** `e instanceof Error ? e.message : 'An unknown error occurred.'` */
  function ErrorMessage(e: Thrown): string {
    match e
    case ErrorValue(msg) => msg
    case OtherValue => "An unknown error occurred."
  }

  const PlanErrorPrefix := "Failed to generate workout plan. "
  const FoodErrorPrefix := "Could not log food. "
  const ImageErrorPrefix := "Could not log food from image. "
  const ChatNotInitialized := "Chat not initialized. Please refresh the page."
  const ChatApology := "Sorry, I encountered an error. Please try again."

  // ---------------------------------------------------------------------------
  // Workout history: toggling an exercise
  // ---------------------------------------------------------------------------

  /** The history after toggling `id` on `today`: today's record is created if absent and
      the id's value flipped. */
  function ToggledHistory(h: WorkoutHistory, today: Day, id: string): (r: WorkoutHistory)
    ensures r.Keys == h.Keys + {today}
    ensures IsDone(r, today, id) == !IsDone(h, today, id)
    ensures id in r[today]
    ensures forall d :: d in h && d != today ==> r[d] == h[d]
    ensures today in h ==> r[today].Keys == h[today].Keys + {id}
    ensures today !in h ==> r[today].Keys == {id}
    ensures forall x :: x != id && today in h && x in h[today] ==> r[today][x] == h[today][x]
  {
    var log := if today in h then h[today] else map[];
    h[today := log[id := !(id in log && log[id])]]
  }

  /** Toggling the same id twice on the same day restores its value, and every other
      date and id is as it was. */
  lemma ToggleTwiceRestores(h: WorkoutHistory, today: Day, id: string)
    ensures var r := ToggledHistory(ToggledHistory(h, today, id), today, id);
      && IsDone(r, today, id) == IsDone(h, today, id)
      && (forall d :: d in h && d != today ==> r[d] == h[d])
      && (forall x :: x != id ==> (IsDone(r, today, x) <==> IsDone(h, today, x)))
  {
    var once := ToggledHistory(h, today, id);
    var r := ToggledHistory(once, today, id);
    forall x | x != id ensures IsDone(r, today, x) <==> IsDone(h, today, x) {
    }
  }

  /** A toggle changes today's completed count by exactly one. */
  lemma ToggleChangesCountByOne(h: WorkoutHistory, today: Day, id: string)
    ensures CompletedOn(ToggledHistory(h, today, id), today) ==
      if IsDone(h, today, id) then CompletedOn(h, today) - 1 else CompletedOn(h, today) + 1
  {
    var log := if today in h then h[today] else map[];
    CompletedCountAfterSet(log, id, !IsDone(h, today, id));
    assert today !in h ==> CompletedCount(log) == 0;
  }

  // ---------------------------------------------------------------------------
  // Nutrition history: appending food items
  // ---------------------------------------------------------------------------

  const ZeroTotals := Totals(0, 0.0, 0.0, 0.0)
  const EmptyLog := DailyFoodLog([], ZeroTotals)

  function AddTotals(a: Totals, b: Totals): Totals {
    Totals(a.calories + b.calories, a.protein + b.protein, a.carbs + b.carbs, a.fat + b.fat)
  }

  function ItemTotals(item: FoodItem): Totals {
    Totals(item.calories, item.protein, item.carbs, item.fat)
  }

  /** The field sums over a list of items. */
  function SumTotals(items: seq<FoodItem>): Totals {
    if items == [] then ZeroTotals else AddTotals(ItemTotals(items[0]), SumTotals(items[1..]))
  }

  lemma {:induction false} SumTotalsConcat(a: seq<FoodItem>, b: seq<FoodItem>)
    ensures SumTotals(a + b) == AddTotals(SumTotals(a), SumTotals(b))
  {
    if a != [] {
      assert (a + b)[1..] == a[1..] + b;
      SumTotalsConcat(a[1..], b);
    } else {
      assert a + b == b;
    }
  }

  /** The order in which items are appended does not change the totals. */
  lemma SumTotalsOrderIndependent(a: seq<FoodItem>, b: seq<FoodItem>)
    ensures SumTotals(a + b) == SumTotals(b + a)
  {
    SumTotalsConcat(a, b);
    SumTotalsConcat(b, a);
  }

  /** The totals agree with the items. */
  predicate Consistent(log: DailyFoodLog) {
    log.totals == SumTotals(log.items)
  }

  /** Today's log, or an empty one with zero totals. An existing log (an object, so
      never falsy) is the one extended. */
  function LogOrEmpty(n: NutritionHistory, today: Day): (log: DailyFoodLog)
    ensures today in n ==> log == n[today]
    ensures today !in n ==> log.items == [] && log.totals == ZeroTotals
  {
    if today in n then n[today] else EmptyLog
  }

  /** A day's log after the items are appended: the items follow the old ones in order and
      every total grows by that field's sum over the items. */
  function WithItems(log: DailyFoodLog, items: seq<FoodItem>): (r: DailyFoodLog)
    ensures |r.items| == |log.items| + |items|
    ensures r.items[..|log.items|] == log.items && r.items[|log.items|..] == items
    ensures r.totals.calories == log.totals.calories + SumTotals(items).calories
    ensures r.totals.protein == log.totals.protein + SumTotals(items).protein
    ensures r.totals.carbs == log.totals.carbs + SumTotals(items).carbs
    ensures r.totals.fat == log.totals.fat + SumTotals(items).fat
  {
    DailyFoodLog(log.items + items, AddTotals(log.totals, SumTotals(items)))
  }

  /** The `forEach` over the items: each is pushed onto the log and its fields added into
      the totals. */
  method AppendItems(log: DailyFoodLog, items: seq<FoodItem>) returns (r: DailyFoodLog)
    ensures r == WithItems(log, items)
  {
    r := log;
    var i := 0;
    while i < |items|
      invariant 0 <= i <= |items|
      invariant r == WithItems(log, items[..i])
    {
      var item := items[i];
      WithItemsTwice(log, items[..i], [item]);
      assert items[..i + 1] == items[..i] + [item];
      assert [item][1..] == [];
      r := r.(items := r.items + [item]);
      r := r.(totals := r.totals.(calories := r.totals.calories + item.calories));
      r := r.(totals := r.totals.(protein := r.totals.protein + item.protein));
      r := r.(totals := r.totals.(carbs := r.totals.carbs + item.carbs));
      r := r.(totals := r.totals.(fat := r.totals.fat + item.fat));
      i := i + 1;
    }
    assert items[..i] == items;
  }

  /** Appending keeps the totals equal to the field sums of the items. */
  lemma WithItemsKeepsConsistent(log: DailyFoodLog, items: seq<FoodItem>)
    requires Consistent(log)
    ensures Consistent(WithItems(log, items))
  {
    SumTotalsConcat(log.items, items);
  }

  /** Appending in two batches is appending once. */
  lemma WithItemsTwice(log: DailyFoodLog, a: seq<FoodItem>, b: seq<FoodItem>)
    ensures WithItems(WithItems(log, a), b) == WithItems(log, a + b)
  {
    SumTotalsConcat(a, b);
    assert log.items + a + b == log.items + (a + b);
  }

  /** Two items of 100 and 50 calories logged on a day without a log give 150 calories. */
  lemma TwoItemsExample(n: NutritionHistory, today: Day, x: FoodItem, y: FoodItem)
    requires today !in n && x.calories == 100 && y.calories == 50
    ensures WithItems(LogOrEmpty(n, today), [x, y]).totals.calories == 150
  {
    assert [x, y][1..] == [y];
    assert [y][1..] == [];
    assert SumTotals([y]).calories == 50;
    assert SumTotals([x, y]).calories == 150;
  }

  // ---------------------------------------------------------------------------
  // Chat: the streamed reply
  // ---------------------------------------------------------------------------

  /** The concatenation of the chunks. */
  function Concat(chunks: seq<string>): string {
    if chunks == [] then "" else Concat(chunks[..|chunks| - 1]) + chunks[|chunks| - 1]
  }

  /** The stream the service returns: the chunks it delivered, and whether it then ended
      normally (`false`: the call or the iteration threw after these chunks). */
  datatype Reply = Reply(chunks: seq<string>, completed: bool)

  /** The streaming loop: `fullResponse += chunk.text; onStream(fullResponse)`. Returns the
      full text and the argument of each `onStream` call. */
  method StreamChunks(chunks: seq<string>) returns (full: string, updates: seq<string>)
    ensures full == Concat(chunks)
    ensures |updates| == |chunks|
    ensures forall i :: 0 <= i < |chunks| ==> updates[i] == Concat(chunks[..i + 1])
  {
    full := "";
    updates := [];
    var i := 0;
    while i < |chunks|
      invariant 0 <= i <= |chunks|
      invariant full == Concat(chunks[..i])
      invariant |updates| == i
      invariant forall j :: 0 <= j < i ==> updates[j] == Concat(chunks[..j + 1])
    {
      assert chunks[..i + 1][..i] == chunks[..i];
      full := full + chunks[i];
      updates := updates + [full];
      i := i + 1;
    }
    assert chunks[..|chunks|] == chunks;
  }

  /** Each update extends the one before it: the stream shows a growing prefix. */
  lemma UpdatesGrow(chunks: seq<string>, i: nat)
    requires i + 1 < |chunks|
    ensures Concat(chunks[..i + 1]) <= Concat(chunks[..i + 2])
  {
    assert chunks[..i + 2][..i + 1] == chunks[..i + 1];
  }

  // ---------------------------------------------------------------------------
  // Personal records
  // ---------------------------------------------------------------------------

  /** The id `pr-${Date.now()}`. */
  function RecordId(now: nat): (id: string)
    ensures |id| == 3 + |NatToString(now)|
    ensures id[..3] == "pr-" && id[3..] == NatToString(now)
  {
    "pr-" + NatToString(now)
  }

  /** Records created at different times have different ids. */
  lemma RecordIdsDistinct(a: nat, b: nat)
    requires a != b
    ensures RecordId(a) != RecordId(b)
  {
    // RecordId's contract exposes the decimal text, whose value is the timestamp.
  }

  // ---------------------------------------------------------------------------
  // The controller
  // ---------------------------------------------------------------------------

  /** The non-persisted status flags. */
  datatype Status = Status(isInitializing: bool, loading: bool, error: Option<string>)

  class AppState {
    var isInitializing: bool
    var userProfile: Option<UserProfile>
    var workoutPlan: Option<WorkoutPlan>
    var workoutHistory: WorkoutHistory
    var nutritionHistory: NutritionHistory
    var chatHistory: seq<ChatMessage>
    var personalRecords: seq<PR>
    var loading: bool
    var error: Option<string>
    /** `localStorage`. */
    var store: Store

    function Mem(): Memory
      reads this
    {
      Memory(userProfile, workoutPlan, workoutHistory, nutritionHistory, chatHistory, personalRecords)
    }

    function StatusOf(): Status
      reads this
    {
      Status(isInitializing, loading, error)
    }

    /** Memory and store agree. */
    predicate Synced()
      reads this
    {
      SyncedWith(Mem(), store)
    }

    /** The chat session exists exactly when there is a profile (it is created whenever
        the profile changes and dropped when it becomes null). */
    predicate ChatReady()
      reads this
    {
      userProfile.Some?
    }

    /** The state hooks' initial values, over whatever `localStorage` holds. */
    constructor (initialStore: Store)
      ensures Mem() == Defaults && StatusOf() == Status(true, false, None)
      ensures store == initialStore
    {
      isInitializing := true;
      userProfile := None;
      workoutPlan := None;
      workoutHistory := map[];
      nutritionHistory := map[];
      chatHistory := [];
      personalRecords := [];
      loading := false;
      error := None;
      store := initialStore;
    }

    /** The startup effect: read profile, plan, workout history, nutrition history, chat
        history and records in that order, stopping at the first text that does not parse;
        initialization ends in every case. */
    method Load()
      modifies this
      ensures Mem() == LoadInto(old(store), old(Mem()))
      ensures StatusOf() == old(StatusOf()).(isInitializing := false)
      ensures store == old(store)
    {
      var rProfile := ReadProfile(store);
      if rProfile.Corrupt? {
        assert FirstCorrupt(store) == 0;
        isInitializing := false;
        return;
      }
      userProfile := Decoded(rProfile, userProfile);

      var rPlan := ReadPlan(store);
      if rPlan.Corrupt? {
        assert FirstCorrupt(store) == 1;
        isInitializing := false;
        return;
      }
      workoutPlan := Decoded(rPlan, workoutPlan);

      var rHistory := ReadHistory(store);
      if rHistory.Corrupt? {
        assert FirstCorrupt(store) == 2;
        isInitializing := false;
        return;
      }
      workoutHistory := Decoded(rHistory, workoutHistory);

      var rNutrition := ReadNutrition(store);
      if rNutrition.Corrupt? {
        assert FirstCorrupt(store) == 3;
        isInitializing := false;
        return;
      }
      nutritionHistory := Decoded(rNutrition, nutritionHistory);

      var rChat := ReadChat(store);
      if rChat.Corrupt? {
        assert FirstCorrupt(store) == 4;
        isInitializing := false;
        return;
      }
      chatHistory := Decoded(rChat, chatHistory);

      var rRecords := ReadRecords(store);
      if rRecords.Corrupt? {
        assert FirstCorrupt(store) == 5;
        isInitializing := false;
        return;
      }
      personalRecords := Decoded(rRecords, personalRecords);
      assert FirstCorrupt(store) == 6;

      isInitializing := false;
    }

    method Login(profile: UserProfile)
      modifies this
      ensures Mem() == old(Mem()).(profile := Some(profile))
      ensures store == old(store)[ProfileKey := ProfileBlob(profile)]
      ensures StatusOf() == old(StatusOf())
      ensures old(Synced()) ==> Synced()
    {
      ghost var m0, st0 := Mem(), store;
      userProfile := Some(profile);
      store := store[ProfileKey := ProfileBlob(profile)];
      if SyncedWith(m0, st0) { PutProfileSynced(m0, st0, profile); }
    }

    method SetWorkoutPlan(plan: Option<WorkoutPlan>)
      modifies this
      ensures Mem() == old(Mem()).(plan := plan)
      ensures store == if plan.Some? then old(store)[PlanKey := PlanBlob(plan.value)] else old(store) - {PlanKey}
      ensures StatusOf() == old(StatusOf())
      ensures old(Synced()) ==> Synced()
    {
      ghost var m0, st0 := Mem(), store;
      workoutPlan := plan;
      if plan.Some? {
        store := store[PlanKey := PlanBlob(plan.value)];
      } else {
        store := store - {PlanKey};
      }
      if SyncedWith(m0, st0) { PutPlanSynced(m0, st0, plan); }
    }

    /** `generatePlan`, with the outcome of the service call passed in. On success the plan
        is replaced and persisted and the workout history emptied and its key removed; on
        failure only the error is set. Loading ends false either way. */
    method GeneratePlan(response: Result<WorkoutPlan, Thrown>) returns (r: Option<WorkoutPlan>)
      modifies this
      ensures !loading && isInitializing == old(isInitializing)
      ensures response.Success? ==>
        && r == Some(response.value)
        && Mem() == old(Mem()).(plan := Some(response.value), history := map[])
        && store == old(store)[PlanKey := PlanBlob(response.value)] - {HistoryKey}
        && error == None
      ensures response.Failure? ==>
        && r == None
        && Mem() == old(Mem()) && store == old(store)
        && error == Some(PlanErrorPrefix + ErrorMessage(response.error))
      ensures old(Synced()) ==> Synced()
    {
      loading := true;
      error := None;
      match response {
        case Success(plan) =>
          SetWorkoutPlan(Some(plan));
          ghost var m1, st1 := Mem(), store;
          workoutHistory := map[];
          store := store - {HistoryKey};
          if SyncedWith(m1, st1) { ClearHistorySynced(m1, st1); }
          r := Some(plan);
        case Failure(e) =>
          error := Some(PlanErrorPrefix + ErrorMessage(e));
          r := None;
      }
      loading := false;
    }

    /** `resetApp`: every collection back to its initial value and all six keys removed. */
    method ResetApp()
      modifies this
      ensures Mem() == Defaults
      ensures store == old(store) - {ProfileKey, PlanKey, HistoryKey, NutritionKey, ChatKey, RecordsKey}
      ensures StatusOf() == old(StatusOf())
      ensures Synced()
    {
      userProfile := None;
      SetWorkoutPlan(None);
      workoutHistory := map[];
      nutritionHistory := map[];
      chatHistory := [];
      personalRecords := [];
      store := store - {HistoryKey, NutritionKey, ChatKey, RecordsKey, ProfileKey};
      ClearedStoreSynced(old(store));
    }

    /** `toggleExerciseComplete` on `today`; `vibrate` tells whether the exercise became done
        (the device vibrates then). */
    method ToggleExerciseComplete(today: Day, exerciseId: string) returns (vibrate: bool)
      modifies this
      ensures Mem() == old(Mem()).(history := ToggledHistory(old(workoutHistory), today, exerciseId))
      ensures store == old(store)[HistoryKey := HistoryBlob(workoutHistory)]
      ensures vibrate == IsDone(workoutHistory, today, exerciseId)
      ensures StatusOf() == old(StatusOf())
      ensures old(Synced()) ==> Synced()
    {
      var newHistory := workoutHistory;
      if today !in newHistory {
        newHistory := newHistory[today := map[]];
      }
      var isCompleting := !(exerciseId in newHistory[today] && newHistory[today][exerciseId]);
      newHistory := newHistory[today := newHistory[today][exerciseId := isCompleting]];
      vibrate := isCompleting;
      ghost var m0, st0 := Mem(), store;
      store := store[HistoryKey := HistoryBlob(newHistory)];
      workoutHistory := newHistory;
      if SyncedWith(m0, st0) { PutHistorySynced(m0, st0, newHistory); }
    }

    /** `updateNutritionHistory`: append the items, one at a time, to today's log (created
        empty if absent), adding each item's fields into the totals; then persist. */
    method UpdateNutritionHistory(today: Day, foodItems: seq<FoodItem>)
      modifies this
      ensures Mem() == old(Mem()).(nutrition := old(nutritionHistory)[today := WithItems(LogOrEmpty(old(nutritionHistory), today), foodItems)])
      ensures store == old(store)[NutritionKey := NutritionBlob(nutritionHistory)]
      ensures StatusOf() == old(StatusOf())
      ensures old(Synced()) ==> Synced()
    {
      var todaysLog := AppendItems(LogOrEmpty(nutritionHistory, today), foodItems);
      var newHistory := nutritionHistory[today := todaysLog];
      ghost var m0, st0 := Mem(), store;
      store := store[NutritionKey := NutritionBlob(newHistory)];
      nutritionHistory := newHistory;
      if SyncedWith(m0, st0) { PutNutritionSynced(m0, st0, newHistory); }
    }

    /** `logFood`, with the outcome of the nutrition lookup passed in. */
    method LogFood(today: Day, response: Result<seq<FoodItem>, Thrown>)
      modifies this
      ensures !loading && isInitializing == old(isInitializing)
      ensures response.Success? ==>
        && Mem() == old(Mem()).(nutrition := old(nutritionHistory)[today := WithItems(LogOrEmpty(old(nutritionHistory), today), response.value)])
        && store == old(store)[NutritionKey := NutritionBlob(nutritionHistory)]
        && error == None
      ensures response.Failure? ==>
        && Mem() == old(Mem()) && store == old(store)
        && error == Some(FoodErrorPrefix + ErrorMessage(response.error))
      ensures old(Synced()) ==> Synced()
    {
      loading := true;
      error := None;
      match response {
        case Success(items) => UpdateNutritionHistory(today, items);
        case Failure(e) => error := Some(FoodErrorPrefix + ErrorMessage(e));
      }
      loading := false;
    }

    /** `logFoodFromImage`, with the outcome of the image lookup passed in. */
    method LogFoodFromImage(today: Day, response: Result<seq<FoodItem>, Thrown>)
      modifies this
      ensures !loading && isInitializing == old(isInitializing)
      ensures response.Success? ==>
        && Mem() == old(Mem()).(nutrition := old(nutritionHistory)[today := WithItems(LogOrEmpty(old(nutritionHistory), today), response.value)])
        && store == old(store)[NutritionKey := NutritionBlob(nutritionHistory)]
        && error == None
      ensures response.Failure? ==>
        && Mem() == old(Mem()) && store == old(store)
        && error == Some(ImageErrorPrefix + ErrorMessage(response.error))
      ensures old(Synced()) ==> Synced()
    {
      loading := true;
      error := None;
      match response {
        case Success(items) => UpdateNutritionHistory(today, items);
        case Failure(e) => error := Some(ImageErrorPrefix + ErrorMessage(e));
      }
      loading := false;
    }

    /** `sendMessageToCoach`, with the service's stream passed in; `updates` are the
        arguments of the `onStream` calls. On a completed stream the history becomes the
        old history, the user message and the full reply, and is persisted; when the stream
        throws, an apology follows the user message and nothing is persisted. Without a
        chat session only the error is set. */
    method SendMessageToCoach(message: string, reply: Reply) returns (updates: seq<string>)
      modifies this
      ensures !old(ChatReady()) ==>
        && updates == []
        && Mem() == old(Mem()) && store == old(store)
        && StatusOf() == old(StatusOf()).(error := Some(ChatNotInitialized))
      ensures old(ChatReady()) ==>
        && |updates| == |reply.chunks|
        && (forall i :: 0 <= i < |reply.chunks| ==> updates[i] == Concat(reply.chunks[..i + 1]))
        && StatusOf() == old(StatusOf())
      ensures old(ChatReady()) && reply.completed ==>
        && Mem() == old(Mem()).(chat := old(chatHistory) + [ChatMessage(User, message), ChatMessage(Model, Concat(reply.chunks))])
        && store == old(store)[ChatKey := ChatBlob(chatHistory)]
      ensures old(ChatReady()) && !reply.completed ==>
        && Mem() == old(Mem()).(chat := old(chatHistory) + [ChatMessage(User, message), ChatMessage(Model, ChatApology)])
        && store == old(store)
      ensures reply.completed && old(Synced()) ==> Synced()
    {
      if userProfile.None? {
        error := Some(ChatNotInitialized);
        return [];
      }
      var history := chatHistory;
      var userMessage := ChatMessage(User, message);
      chatHistory := chatHistory + [userMessage];
      var fullResponse;
      fullResponse, updates := StreamChunks(reply.chunks);
      if reply.completed {
        var newHistory := history + [userMessage, ChatMessage(Model, fullResponse)];
        chatHistory := newHistory;
        store := store[ChatKey := ChatBlob(newHistory)];
        if SyncedWith(old(Mem()), old(store)) { PutChatSynced(old(Mem()), old(store), newHistory); }
      } else {
        chatHistory := chatHistory + [ChatMessage(Model, ChatApology)];
      }
    }

    /** `addPR`: one record, dated today and with id `pr-<now>`, appended and persisted. */
    method AddPR(today: Day, now: nat, input: PRInput)
      modifies this
      ensures Mem() == old(Mem()).(records := old(personalRecords) + [PR(RecordId(now), today, input.exerciseName, input.weight, input.reps)])
      ensures store == old(store)[RecordsKey := RecordsBlob(personalRecords)]
      ensures |personalRecords| == |old(personalRecords)| + 1
      ensures old(personalRecords) <= personalRecords
      ensures StatusOf() == old(StatusOf())
      ensures old(Synced()) ==> Synced()
    {
      var newPR := PR(RecordId(now), today, input.exerciseName, input.weight, input.reps);
      var newPRs := personalRecords + [newPR];
      store := store[RecordsKey := RecordsBlob(newPRs)];
      personalRecords := newPRs;
      if SyncedWith(old(Mem()), old(store)) { PutRecordsSynced(old(Mem()), old(store), newPRs); }
    }
  }
}
