/** The owner's store checklist overview (src/components/OwnerStorePage.tsx):
    a station filter with an "all" choice, the opening/closing split and the
    completion counters. */
module OwnerStore {
  import opened Common
  import opened Seqs
  import opened App

  datatype StoreTask = StoreTask(
    id: string,
    name: string,
    station: Station,
    category: Category,
    status: TaskStatus,
    completedBy: Option<string>,
    completedAt: Option<string>)

  /** `selectedStation`: `'all'` or one station. */
  datatype StationFilter = AllStations | OnlyStation(station: Station)

  /** What the page shows for one filter choice. */
  datatype StoreView = StoreView(
    opening: seq<StoreTask>,
    closing: seq<StoreTask>,
    completedOpening: nat,
    completedClosing: nat,
    kitchenTotal: nat,
    coffeeBarTotal: nat)

  function AtStation(st: Station): StoreTask -> bool
  {
    (t: StoreTask) => t.station == st
  }

  function InCategory(c: Category): StoreTask -> bool
  {
    (t: StoreTask) => t.category == c
  }

  function AnyTask(t: StoreTask): bool
  {
    true
  }

  function IsDone(t: StoreTask): bool
  {
    t.status == Completed
  }

  /** `filteredTasks`: everything for `'all'`, else that station's tasks in order. */
  function FilteredTasks(tasks: seq<StoreTask>, f: StationFilter): (r: seq<StoreTask>)
    ensures f == AllStations ==> r == tasks
    ensures f.OnlyStation? ==>
      && (forall t :: t in r ==> t in tasks && t.station == f.station)
      && (forall t :: t in tasks && t.station == f.station ==> t in r)
      && |r| == CountIf(tasks, AtStation(f.station))
    ensures IsSubseq(r, tasks)
  {
    match f
    case AllStations =>
      FilterAll(tasks, AnyTask);
      tasks
    case OnlyStation(st) => Filter(tasks, AtStation(st))
  }

  /** `openingTasks` / `closingTasks`: the shown tasks of one category, in order. */
  function CategoryTasks(shown: seq<StoreTask>, c: Category): (r: seq<StoreTask>)
    ensures forall t :: t in r ==> t in shown && t.category == c
    ensures forall t :: t in shown && t.category == c ==> t in r
    ensures IsSubseq(r, shown)
    ensures |r| == CountIf(shown, InCategory(c))
  {
    Filter(shown, InCategory(c))
  }

  /** The page for a filter choice. The two station totals count the whole
      list whatever the filter. */
  function View(tasks: seq<StoreTask>, f: StationFilter): (v: StoreView)
    ensures v.opening == CategoryTasks(FilteredTasks(tasks, f), Opening)
    ensures v.closing == CategoryTasks(FilteredTasks(tasks, f), Closing)
    ensures v.completedOpening <= |v.opening| && v.completedClosing <= |v.closing|
    ensures v.completedOpening == CountIf(v.opening, IsDone)
    ensures v.completedClosing == CountIf(v.closing, IsDone)
    ensures v.kitchenTotal + v.coffeeBarTotal == |tasks|
    ensures v.kitchenTotal == CountIf(tasks, AtStation(Kitchen))
  {
    var shown := FilteredTasks(tasks, f);
    var opening := CategoryTasks(shown, Opening);
    var closing := CategoryTasks(shown, Closing);
    CountComplement(tasks, AtStation(Kitchen), AtStation(CoffeeBar));
    StoreView(opening, closing, CountIf(opening, IsDone), CountIf(closing, IsDone),
              CountIf(tasks, AtStation(Kitchen)), CountIf(tasks, AtStation(CoffeeBar)))
  }

  /** The opening and closing lists share no task and together hold every
      shown task. */
  lemma OpeningClosingSplit(tasks: seq<StoreTask>, f: StationFilter)
    ensures forall t :: t in View(tasks, f).opening ==> t !in View(tasks, f).closing
    ensures |View(tasks, f).opening| + |View(tasks, f).closing| == |FilteredTasks(tasks, f)|
  {
    CountComplement(FilteredTasks(tasks, f), InCategory(Opening), InCategory(Closing));
  }

  function DoneIn(c: Category): StoreTask -> bool
  {
    (t: StoreTask) => t.category == c && t.status == Completed
  }

  /** Each completed counter counts the completed tasks of its category among
      the shown tasks. */
  lemma CompletedCounters(tasks: seq<StoreTask>, f: StationFilter)
    ensures View(tasks, f).completedOpening == CountIf(FilteredTasks(tasks, f), DoneIn(Opening))
    ensures View(tasks, f).completedClosing == CountIf(FilteredTasks(tasks, f), DoneIn(Closing))
  {
    var shown := FilteredTasks(tasks, f);
    CountFilter(shown, InCategory(Opening), IsDone, DoneIn(Opening));
    CountFilter(shown, InCategory(Closing), IsDone, DoneIn(Closing));
  }

  /** Switching the filter never changes the two station totals. */
  lemma TotalsIgnoreFilter(tasks: seq<StoreTask>, f: StationFilter, g: StationFilter)
    ensures View(tasks, f).kitchenTotal == View(tasks, g).kitchenTotal
    ensures View(tasks, f).coffeeBarTotal == View(tasks, g).coffeeBarTotal
  {
  }

  /** The "By … at …" line under a task: only for a completed task with a
      non-empty `completedBy`. */
  predicate ShowsCompletedBy(t: StoreTask)
  {
    t.status == Completed && t.completedBy.Some? && t.completedBy.value != ""
  }

  /** A pending task never shows who completed it, even if a name is stored. */
  lemma PendingShowsNoCompleter(t: StoreTask)
    requires t.status == Pending
    ensures !ShowsCompletedBy(t)
  {
  }
}
