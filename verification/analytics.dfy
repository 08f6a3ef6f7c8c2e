/** The analytics aggregator (src/utils/analyticsUtils.js): pure counting and
    partition functions over the task and link collections. */
module Analytics {

  import opened Wrappers
  import opened Seqs
  import opened Calendar
  import opened Records

  predicate IsDone(t: Task) {
    t.isCompleted
  }

  function TaskCategoryIds(tasks: seq<Task>): (r: seq<string>)
    ensures |r| == |tasks|
    ensures forall i :: 0 <= i < |tasks| ==> r[i] == tasks[i].categoryId
  {
    seq(|tasks|, i requires 0 <= i < |tasks| => tasks[i].categoryId)
  }

  function TaskPriorityIds(tasks: seq<Task>): (r: seq<string>)
    ensures |r| == |tasks|
    ensures forall i :: 0 <= i < |tasks| ==> r[i] == tasks[i].priority
  {
    seq(|tasks|, i requires 0 <= i < |tasks| => tasks[i].priority)
  }

  function LinkCategoryIds(links: seq<Link>): (r: seq<string>)
    ensures |r| == |links|
    ensures forall i :: 0 <= i < |links| ==> r[i] == links[i].categoryId
  {
    seq(|links|, i requires 0 <= i < |links| => links[i].categoryId)
  }

  // ---------------------------------------------------------------------
  // Fixed-length breakdowns: getLinksByCategory, getTasksByPriority
  // ---------------------------------------------------------------------

  /** One chart's worth of aligned names, counts and colors. */
  datatype Breakdown = Breakdown(names: seq<string>, counts: seq<nat>, colors: seq<string>)

  /** A counter per row of `table`, over `keys`, with the rows' names and
      colors alongside; keys no row has are ignored. */
  function TableBreakdown(table: seq<Entry>, keys: seq<string>): (r: Breakdown)
    requires Distinct(Ids(table))
    ensures |r.names| == |table| && |r.counts| == |table| && |r.colors| == |table|
    ensures forall i :: 0 <= i < |table| ==>
              && r.names[i] == table[i].name
              && r.colors[i] == table[i].color
              && r.counts[i] == Occurrences(keys, table[i].id)
    ensures Sum(r.counts) == CountIn(keys, Ids(table)) <= |keys|
  {
    CountInBound(keys, Ids(table));
    Breakdown(Names(table), Tally(keys, Ids(table)), Colors(table))
  }

  /** `getLinksByCategory`: always seven entries in table order; the counts
      add up to the number of links whose category id is known. */
  function LinksByCategory(links: seq<Link>): (r: Breakdown)
    ensures |r.names| == NumCategories && |r.counts| == NumCategories && |r.colors| == NumCategories
    ensures forall i :: 0 <= i < NumCategories ==>
              && r.names[i] == Categories[i].name
              && r.colors[i] == Categories[i].color
              && r.counts[i] == Occurrences(LinkCategoryIds(links), Categories[i].id)
    ensures Sum(r.counts) <= |links|
    ensures Sum(r.counts) == |links| <==> forall i :: 0 <= i < |links| ==> links[i].categoryId in Ids(Categories)
  {
    TablesWellFormed();
    CountInBound(LinkCategoryIds(links), Ids(Categories));
    TableBreakdown(Categories, LinkCategoryIds(links))
  }

  /** `getTasksByPriority`: always three counts, low, medium, high; tasks with
      another priority are not counted. */
  function TasksByPriority(tasks: seq<Task>): (r: Breakdown)
    ensures |r.names| == NumPriorities && |r.counts| == NumPriorities && |r.colors| == NumPriorities
    ensures forall i :: 0 <= i < NumPriorities ==>
              && r.names[i] == Priorities[i].name
              && r.colors[i] == Priorities[i].color
              && r.counts[i] == Occurrences(TaskPriorityIds(tasks), Priorities[i].id)
    ensures Sum(r.counts) <= |tasks|
    ensures Sum(r.counts) == |tasks| <==> forall i :: 0 <= i < |tasks| ==> tasks[i].priority in Ids(Priorities)
  {
    TablesWellFormed();
    CountInBound(TaskPriorityIds(tasks), Ids(Priorities));
    TableBreakdown(Priorities, TaskPriorityIds(tasks))
  }

  /** A link whose category id is not in the table changes nothing. */
  lemma {:induction false} UnknownLinkIgnored(links: seq<Link>, l: Link)
    requires l.categoryId !in Ids(Categories)
    ensures LinksByCategory(links + [l]) == LinksByCategory(links)
  {
    var keys := LinkCategoryIds(links + [l]);
    assert keys[..|keys| - 1] == LinkCategoryIds(links);
    var a := LinksByCategory(links + [l]);
    var b := LinksByCategory(links);
    forall i | 0 <= i < NumCategories
      ensures a.counts[i] == b.counts[i]
    {
      assert keys[|keys| - 1] != Categories[i].id;
    }
  }

  // ---------------------------------------------------------------------
  // Status partition: getTaskCompletionStatus
  // ---------------------------------------------------------------------

  datatype Status = Completed | Overdue | Pending

  datatype StatusCounts = StatusCounts(completed: nat, overdue: nat, pending: nat)

  /** The one bucket a task belongs in at instant `now`: overdue means not
      completed and `now` strictly after the due date. */
  function StatusOf(t: Task, now: int): (s: Status)
    ensures s == Completed <==> t.isCompleted
    ensures s == Overdue <==> !t.isCompleted && t.dueDate < now
    ensures s == Pending <==> !t.isCompleted && now <= t.dueDate
  {
    if t.isCompleted then Completed
    else if now > t.dueDate then Overdue
    else Pending
  }

  function Statuses(tasks: seq<Task>, now: int): (r: seq<Status>)
    ensures |r| == |tasks|
    ensures forall i :: 0 <= i < |tasks| ==> r[i] == StatusOf(tasks[i], now)
  {
    seq(|tasks|, i requires 0 <= i < |tasks| => StatusOf(tasks[i], now))
  }

  /** A filter that selects exactly one status counts exactly that status. */
  lemma {:induction false} FilterCountsStatus(tasks: seq<Task>, now: int, p: Task -> bool, st: Status)
    requires forall t :: p(t) <==> StatusOf(t, now) == st
    ensures Count(tasks, p) == Occurrences(Statuses(tasks, now), st)
  {
    if tasks != [] {
      var front := tasks[..|tasks| - 1];
      FilterCountsStatus(front, now, p, st);
      assert Statuses(tasks, now)[..|tasks| - 1] == Statuses(front, now);
    }
  }

  /** Every status is one of the three. */
  lemma {:induction false} StatusesPartition(ss: seq<Status>)
    ensures Occurrences(ss, Completed) + Occurrences(ss, Overdue) + Occurrences(ss, Pending) == |ss|
  {
    if ss != [] {
      var front := ss[..|ss| - 1];
      StatusesPartition(front);
      assert Occurrences(ss, Completed) == Occurrences(front, Completed) + (if ss[|ss| - 1] == Completed then 1 else 0);
      assert Occurrences(ss, Overdue) == Occurrences(front, Overdue) + (if ss[|ss| - 1] == Overdue then 1 else 0);
      assert Occurrences(ss, Pending) == Occurrences(front, Pending) + (if ss[|ss| - 1] == Pending then 1 else 0);
    }
  }

  /** `getTaskCompletionStatus` at instant `now`: three independent filters,
      which nevertheless put each task in exactly one bucket. */
  function CompletionStatus(tasks: seq<Task>, now: int): (r: StatusCounts)
    ensures r.completed == Occurrences(Statuses(tasks, now), Completed)
    ensures r.overdue == Occurrences(Statuses(tasks, now), Overdue)
    ensures r.pending == Occurrences(Statuses(tasks, now), Pending)
    ensures r.completed + r.overdue + r.pending == |tasks|
  {
    var completed := (t: Task) => t.isCompleted;
    var overdue := (t: Task) => !t.isCompleted && now > t.dueDate;
    var pending := (t: Task) => !t.isCompleted && !(now > t.dueDate);
    FilterCountsStatus(tasks, now, completed, Completed);
    FilterCountsStatus(tasks, now, overdue, Overdue);
    FilterCountsStatus(tasks, now, pending, Pending);
    StatusesPartition(Statuses(tasks, now));
    StatusCounts(Count(tasks, completed), Count(tasks, overdue), Count(tasks, pending))
  }

  /** A task due exactly now is not yet overdue. */
  lemma DueNowIsPending(t: Task, now: int)
    requires !t.isCompleted && t.dueDate == now
    ensures StatusOf(t, now) == Pending
  {
  }

  // ---------------------------------------------------------------------
  // Per-category completion: getTaskCompletionByCategory
  // ---------------------------------------------------------------------

  /** One bar of the category-performance chart. */
  datatype CategoryScore = CategoryScore(name: string, percent: int, color: string)

  /** `Math.round(done / total * 100)` in exact arithmetic: the integer
      nearest to 100 * done / total, halves rounded up. */
  function RoundPercent(done: nat, total: nat): (p: int)
    requires total > 0
    ensures 2 * total * p <= 200 * done + total < 2 * total * (p + 1)
    ensures done <= total ==> 0 <= p <= 100
  {
    var p := (200 * done + total) / (2 * total);
    assert done <= total ==> 200 * done + total < 2 * total * 101;
    p
  }

  /** Per table row, how many tasks have that category id. */
  function CategoryTotals(tasks: seq<Task>): (r: seq<nat>)
    ensures |r| == NumCategories
    ensures forall i :: 0 <= i < NumCategories ==> r[i] == Occurrences(TaskCategoryIds(tasks), Categories[i].id)
  {
    TablesWellFormed();
    Tally(TaskCategoryIds(tasks), Ids(Categories))
  }

  /** Per table row, how many completed tasks have that category id. */
  function CategoryDones(tasks: seq<Task>): (r: seq<nat>)
    ensures |r| == NumCategories
    ensures forall i :: 0 <= i < NumCategories ==> r[i] == Occurrences(TaskCategoryIds(Filter(tasks, IsDone)), Categories[i].id)
    ensures forall i :: 0 <= i < NumCategories ==> r[i] <= CategoryTotals(tasks)[i]
  {
    TablesWellFormed();
    forall i | 0 <= i < NumCategories {
      DoneAtMostTotal(tasks, Categories[i].id);
    }
    Tally(TaskCategoryIds(Filter(tasks, IsDone)), Ids(Categories))
  }

  /** `e` is the bar of table row `i`, which has tasks, given the per-row tallies. */
  predicate IsRowScore(totals: seq<nat>, dones: seq<nat>, i: int, e: CategoryScore) {
    && 0 <= i < NumCategories && i < |totals| && i < |dones| && totals[i] > 0
    && e == ScoreRow(i, dones[i], totals[i])
  }

  /** The bar for row `i` of the table. */
  function ScoreRow(i: nat, done: nat, total: nat): CategoryScore
    requires i < NumCategories && total > 0
  {
    CategoryScore(Categories[i].name, RoundPercent(done, total), Categories[i].color)
  }

  /** Position of a category name in the table (the table's length if absent). */
  function Rank(name: string): nat {
    match IndexOf(Names(Categories), name)
    case None => NumCategories
    case Some(i) => i
  }

  lemma RankOfCategory(i: nat)
    requires i < NumCategories
    ensures Rank(Categories[i].name) == i
  {
    TablesWellFormed();
  }

  /** Completed tasks of a category never outnumber its tasks. */
  lemma {:induction false} DoneAtMostTotal(tasks: seq<Task>, id: string)
    ensures Occurrences(TaskCategoryIds(Filter(tasks, IsDone)), id) <= Occurrences(TaskCategoryIds(tasks), id)
  {
    if tasks != [] {
      var front := tasks[..|tasks| - 1];
      var t := tasks[|tasks| - 1];
      assert tasks == front + [t];
      DoneAtMostTotal(front, id);
      CategoryIdsSnoc(front, t);
      OccurrencesSnoc(TaskCategoryIds(front), t.categoryId, id);
      var doneFront := Filter(front, IsDone);
      FilterSnoc(front, t, IsDone);
      if IsDone(t) {
        assert Filter(tasks, IsDone) == doneFront + [t];
        CategoryIdsSnoc(doneFront, t);
        OccurrencesSnoc(TaskCategoryIds(doneFront), t.categoryId, id);
      } else {
        assert Filter(tasks, IsDone) == doneFront;
      }
    }
  }

  lemma CategoryIdsSnoc(tasks: seq<Task>, t: Task)
    ensures TaskCategoryIds(tasks + [t]) == TaskCategoryIds(tasks) + [t.categoryId]
  {
  }

  /** The table rows from `from` onward that have tasks, in increasing order. */
  function ActiveFrom(totals: seq<nat>, from: nat): (idx: seq<nat>)
    requires from <= |totals|
    ensures forall j :: 0 <= j < |idx| ==> from <= idx[j] < |totals| && totals[idx[j]] > 0
    ensures forall i :: from <= i < |totals| && totals[i] > 0 ==> i in idx
    ensures forall j, k :: 0 <= j < k < |idx| ==> idx[j] < idx[k]
    decreases |totals| - from
  {
    if from == |totals| then []
    else if totals[from] > 0 then [from] + ActiveFrom(totals, from + 1)
    else ActiveFrom(totals, from + 1)
  }

  /** A strictly increasing sequence below `n` has at most `n` elements. */
  lemma {:induction false} IncreasingBounded(idx: seq<nat>, n: nat)
    requires forall j :: 0 <= j < |idx| ==> idx[j] < n
    requires forall j, k :: 0 <= j < k < |idx| ==> idx[j] < idx[k]
    ensures |idx| <= n
  {
    if idx != [] {
      var front := idx[..|idx| - 1];
      IncreasingBounded(front, idx[|idx| - 1]);
    }
  }

  /** Bars named after increasing table rows appear in table order, and a
      row has a bar exactly when it is one of those rows. */
  lemma ScoresInTableOrder(totals: seq<nat>, idx: seq<nat>, r: seq<CategoryScore>)
    requires |totals| == NumCategories
    requires forall j :: 0 <= j < |idx| ==> idx[j] < NumCategories && totals[idx[j]] > 0
    requires forall i :: 0 <= i < NumCategories && totals[i] > 0 ==> i in idx
    requires forall j, k :: 0 <= j < k < |idx| ==> idx[j] < idx[k]
    requires |r| == |idx| && forall j :: 0 <= j < |r| ==> r[j].name == Categories[idx[j]].name
    ensures |r| <= NumCategories
    ensures forall i :: 0 <= i < NumCategories ==>
              (totals[i] > 0 <==> exists j :: 0 <= j < |r| && r[j].name == Categories[i].name)
    ensures forall j, k :: 0 <= j < k < |r| ==> Rank(r[j].name) < Rank(r[k].name)
    ensures forall j :: 0 <= j < |r| ==> Rank(r[j].name) == idx[j]
  {
    IncreasingBounded(idx, NumCategories);
    RanksOfRows(idx, r);
    RowsWithBars(totals, idx, r);
  }

  /** A bar named after table row `idx[j]` has rank `idx[j]`. */
  lemma RanksOfRows(idx: seq<nat>, r: seq<CategoryScore>)
    requires forall j :: 0 <= j < |idx| ==> idx[j] < NumCategories
    requires |r| == |idx| && forall j :: 0 <= j < |r| ==> r[j].name == Categories[idx[j]].name
    ensures forall j :: 0 <= j < |r| ==> Rank(r[j].name) == idx[j]
  {
    forall j | 0 <= j < |r| ensures Rank(r[j].name) == idx[j] {
      RankOfCategory(idx[j]);
    }
  }

  /** A row has a bar exactly when it is one of the listed rows. */
  lemma RowsWithBars(totals: seq<nat>, idx: seq<nat>, r: seq<CategoryScore>)
    requires |totals| == NumCategories
    requires forall j :: 0 <= j < |idx| ==> idx[j] < NumCategories && totals[idx[j]] > 0
    requires forall i :: 0 <= i < NumCategories && totals[i] > 0 ==> i in idx
    requires |r| == |idx| && forall j :: 0 <= j < |r| ==> r[j].name == Categories[idx[j]].name
    ensures forall i :: 0 <= i < NumCategories ==>
              (totals[i] > 0 <==> exists j :: 0 <= j < |r| && r[j].name == Categories[i].name)
  {
    forall i | 0 <= i < NumCategories
      ensures totals[i] > 0 <==> exists j :: 0 <= j < |r| && r[j].name == Categories[i].name
    {
      RankOfCategory(i);
      if totals[i] > 0 {
        var j :| 0 <= j < |idx| && idx[j] == i;
        assert r[j].name == Categories[i].name;
      } else {
        forall j | 0 <= j < |r| ensures r[j].name != Categories[i].name {
          RankOfCategory(idx[j]);
        }
      }
    }
  }

  /** The bars for the rows with `totals[i] > 0`, in table order. */
  function Scores(totals: seq<nat>, dones: seq<nat>): (r: seq<CategoryScore>)
    requires |totals| == NumCategories && |dones| == NumCategories
    requires forall i :: 0 <= i < NumCategories ==> dones[i] <= totals[i]
    ensures |r| <= NumCategories
    ensures forall j :: 0 <= j < |r| ==> 0 <= r[j].percent <= 100
    ensures forall j :: 0 <= j < |r| ==>
              IsRowScore(totals, dones, Rank(r[j].name), r[j])
    ensures forall i :: 0 <= i < NumCategories ==>
              (totals[i] > 0 <==> exists j :: 0 <= j < |r| && r[j].name == Categories[i].name)
    ensures forall j, k :: 0 <= j < k < |r| ==> Rank(r[j].name) < Rank(r[k].name)
  {
    var idx := ActiveFrom(totals, 0);
    var r := seq(|idx|, j requires 0 <= j < |idx| => ScoreRow(idx[j], dones[idx[j]], totals[idx[j]]));
    ScoresInTableOrder(totals, idx, r);
    r
  }

  /** `getTaskCompletionByCategory`: one bar per table category that has at
      least one task, in table order, valued at its rounded completion
      percentage; tasks of unknown categories are ignored. */
  function TaskCompletionByCategory(tasks: seq<Task>): (r: seq<CategoryScore>)
    ensures |r| <= NumCategories
    ensures forall j :: 0 <= j < |r| ==> 0 <= r[j].percent <= 100
    ensures forall j :: 0 <= j < |r| ==>
              IsRowScore(CategoryTotals(tasks), CategoryDones(tasks), Rank(r[j].name), r[j])
    ensures forall i :: 0 <= i < NumCategories ==>
              (CategoryTotals(tasks)[i] > 0 <==> exists j :: 0 <= j < |r| && r[j].name == Categories[i].name)
    ensures forall j, k :: 0 <= j < k < |r| ==> Rank(r[j].name) < Rank(r[k].name)
  {
    Scores(CategoryTotals(tasks), CategoryDones(tasks))
  }

  /** A task whose category id is not in the table changes no bar. */
  lemma UnknownTaskIgnored(tasks: seq<Task>, t: Task)
    requires t.categoryId !in Ids(Categories)
    ensures TaskCompletionByCategory(tasks + [t]) == TaskCompletionByCategory(tasks)
  {
    TotalsIgnoreUnknown(tasks, t);
    DonesIgnoreUnknown(tasks, t);
  }

  lemma TotalsIgnoreUnknown(tasks: seq<Task>, t: Task)
    requires t.categoryId !in Ids(Categories)
    ensures CategoryTotals(tasks + [t]) == CategoryTotals(tasks)
  {
    CategoryIdsSnoc(tasks, t);
    forall i | 0 <= i < NumCategories
      ensures CategoryTotals(tasks + [t])[i] == CategoryTotals(tasks)[i]
    {
      OccurrencesSnoc(TaskCategoryIds(tasks), t.categoryId, Categories[i].id);
    }
  }

  lemma DonesIgnoreUnknown(tasks: seq<Task>, t: Task)
    requires t.categoryId !in Ids(Categories)
    ensures CategoryDones(tasks + [t]) == CategoryDones(tasks)
  {
    var doneFront := Filter(tasks, IsDone);
    FilterSnoc(tasks, t, IsDone);
    if IsDone(t) {
      assert Filter(tasks + [t], IsDone) == doneFront + [t];
      CategoryIdsSnoc(doneFront, t);
      forall i | 0 <= i < NumCategories
        ensures CategoryDones(tasks + [t])[i] == CategoryDones(tasks)[i]
      {
        OccurrencesSnoc(TaskCategoryIds(doneFront), t.categoryId, Categories[i].id);
      }
    } else {
      assert Filter(tasks + [t], IsDone) == doneFront;
    }
  }

  // ---------------------------------------------------------------------
  // The 14-day activity series: getTimeAnalytics
  // ---------------------------------------------------------------------

  const WindowLength: nat := 14

  /** What the task series becomes when the real one is all zero. */
  const TaskDemo: seq<nat> := [0, 0, 0, 0, 0, 1, 0, 0, 2, 0, 3, 0, 1, 2]

  /** What the link series becomes when the real one is all zero. */
  const LinkDemo: seq<nat> := [0, 0, 0, 0, 1, 0, 2, 0, 0, 1, 0, 2, 0, 1]

  predicate AllZero(xs: seq<nat>) {
    forall i :: 0 <= i < |xs| ==> xs[i] == 0
  }

  /** The days of the window, oldest first: index 13 is today and index 0 is
      thirteen days earlier. */
  function Window(today: int): (days: seq<int>)
    ensures |days| == WindowLength && Distinct(days)
    ensures days[WindowLength - 1] == DayOf(today)
    ensures forall j, k :: 0 <= j < k < WindowLength ==> days[k] - days[j] == k - j
  {
    seq(WindowLength, j requires 0 <= j < WindowLength => DayOf(today) - (WindowLength - 1 - j))
  }

  /** When a task counts as completed: `completedAt`, else `createdAt`. */
  function EffectiveCompletedAt(t: Task): (c: int)
    ensures t.completedAt.Some? ==> c == t.completedAt.value
    ensures t.completedAt.None? ==> c == t.createdAt
  {
    t.completedAt.GetOr(t.createdAt)
  }

  /** The completion day of every completed task, in task order. */
  function CompletionDays(tasks: seq<Task>): (r: seq<int>)
    ensures |r| == Count(tasks, IsDone)
  {
    Map(Filter(tasks, IsDone), (t: Task) => DayOf(EffectiveCompletedAt(t)))
  }

  /** The creation day of every link, in link order. */
  function CreationDays(links: seq<Link>): (r: seq<int>)
    ensures |r| == |links|
  {
    Map(links, (l: Link) => DayOf(l.createdAt))
  }

  /** Tasks completed on calendar day `d`. */
  function CompletedOn(tasks: seq<Task>, d: int): nat {
    Occurrences(CompletionDays(tasks), d)
  }

  /** Links created on calendar day `d`. */
  function CreatedOn(links: seq<Link>, d: int): nat {
    Occurrences(CreationDays(links), d)
  }

  /** The task-series fallback: an all-zero series is overwritten at the
      fixed positions counted from its end. */
  function WithTaskFallback(raw: seq<nat>): (r: seq<nat>)
    requires |raw| == WindowLength
    ensures AllZero(raw) ==> r == TaskDemo
    ensures !AllZero(raw) ==> r == raw
    ensures |r| == WindowLength && !AllZero(r)
  {
    if AllZero(raw) then
      var r := raw[|raw| - 1 := 2][|raw| - 2 := 1][|raw| - 4 := 3][|raw| - 6 := 2][|raw| - 9 := 1];
      assert r[|r| - 1] != 0;
      r
    else raw
  }

  /** The link-series fallback, likewise with its own positions. */
  function WithLinkFallback(raw: seq<nat>): (r: seq<nat>)
    requires |raw| == WindowLength
    ensures AllZero(raw) ==> r == LinkDemo
    ensures !AllZero(raw) ==> r == raw
    ensures |r| == WindowLength && !AllZero(r)
  {
    if AllZero(raw) then
      var r := raw[|raw| - 1 := 1][|raw| - 3 := 2][|raw| - 5 := 1][|raw| - 8 := 2][|raw| - 10 := 1];
      assert r[|r| - 1] != 0;
      r
    else raw
  }

  /** The chart's days (standing in for the formatted labels) and its two series. */
  datatype Activity = Activity(days: seq<int>, taskSeries: seq<nat>, linkSeries: seq<nat>)

  /** `getTimeAnalytics` with "today" as a parameter: per window day, the
      completed tasks and the created links, each series replaced by its
      fixed pattern when it is all zero. */
  function TimeAnalytics(tasks: seq<Task>, links: seq<Link>, today: int): (r: Activity)
    ensures |r.days| == WindowLength && |r.taskSeries| == WindowLength && |r.linkSeries| == WindowLength
    ensures forall j :: 0 <= j < WindowLength ==> r.days[j] == DayOf(today) - (WindowLength - 1 - j)
    ensures (exists j :: 0 <= j < WindowLength && CompletedOn(tasks, r.days[j]) > 0) ==>
              forall j :: 0 <= j < WindowLength ==> r.taskSeries[j] == CompletedOn(tasks, r.days[j])
    ensures (forall j :: 0 <= j < WindowLength ==> CompletedOn(tasks, r.days[j]) == 0) ==> r.taskSeries == TaskDemo
    ensures (exists j :: 0 <= j < WindowLength && CreatedOn(links, r.days[j]) > 0) ==>
              forall j :: 0 <= j < WindowLength ==> r.linkSeries[j] == CreatedOn(links, r.days[j])
    ensures (forall j :: 0 <= j < WindowLength ==> CreatedOn(links, r.days[j]) == 0) ==> r.linkSeries == LinkDemo
    ensures !AllZero(r.taskSeries) && !AllZero(r.linkSeries)
  {
    var days := Window(today);
    Activity(days,
             WithTaskFallback(Tally(CompletionDays(tasks), days)),
             WithLinkFallback(Tally(CreationDays(links), days)))
  }

  /** Unless the fallback fires, the task series counts each completed task
      at most once, and the link series each link at most once. */
  lemma SeriesCountEachRecordOnce(tasks: seq<Task>, links: seq<Link>, today: int)
    ensures var r := TimeAnalytics(tasks, links, today);
            (exists j :: 0 <= j < WindowLength && CompletedOn(tasks, r.days[j]) > 0) ==>
              Sum(r.taskSeries) <= Count(tasks, IsDone)
    ensures var r := TimeAnalytics(tasks, links, today);
            (exists j :: 0 <= j < WindowLength && CreatedOn(links, r.days[j]) > 0) ==>
              Sum(r.linkSeries) <= |links|
  {
    var days := Window(today);
    CountInBound(CompletionDays(tasks), days);
    CountInBound(CreationDays(links), days);
  }

  /** A task that is not completed never shows up in the activity series. */
  lemma {:induction false} OpenTaskNotCounted(tasks: seq<Task>, t: Task, links: seq<Link>, today: int)
    requires !t.isCompleted
    ensures TimeAnalytics(tasks + [t], links, today) == TimeAnalytics(tasks, links, today)
  {
    var s := tasks + [t];
    assert s[..|s| - 1] == tasks;
    assert Filter(s, IsDone) == Filter(tasks, IsDone);
  }
}
