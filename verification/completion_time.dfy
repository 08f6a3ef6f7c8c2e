/** The time-to-completion summary (`getTaskCompletionTime` in
    src/utils/analyticsUtils.js): average days from creation to completion,
    and the categories with the lowest and highest per-category average. */
module CompletionTime {

  import opened Wrappers
  import opened Seqs
  import opened Calendar
  import opened Records
  import opened Reductions
  import Analytics

  datatype Summary = Summary(averageDays: real, quickest: Option<string>, slowest: Option<string>)

  /** What is shown when no task has been completed. */
  const Placeholder := Summary(3.2, Some("work"), Some("personal"))

  /** When a completed task counts as completed. A missing `completedAt` is
      made up as `createdAt` plus a delay the source draws at random; here
      the delay is supplied by the caller. */
  function CompletedInstant(t: Task, mockDelay: Task -> nat): (c: int)
    ensures t.completedAt.Some? ==> c == t.completedAt.value
    ensures t.completedAt.None? ==> t.createdAt <= c
  {
    match t.completedAt
    case Some(c) => c
    case None => t.createdAt + mockDelay(t)
  }

  /** `differenceInDays(completed, created) || 1`: whole days taken, where a
      difference of zero counts as one day and a negative one is kept. */
  function DaysToComplete(t: Task, mockDelay: Task -> nat): (d: int)
    ensures d != 0
    ensures var elapsed := CompletedInstant(t, mockDelay) - t.createdAt;
            && (-MsPerDay < elapsed < MsPerDay ==> d == 1)
            && (elapsed >= MsPerDay ==> d >= 1 && d * MsPerDay <= elapsed < (d + 1) * MsPerDay)
            && (elapsed <= -MsPerDay ==> d <= -1 && -d * MsPerDay <= -elapsed < (-d + 1) * MsPerDay)
  {
    var diff := DaysBetween(CompletedInstant(t, mockDelay), t.createdAt);
    if diff == 0 then 1 else diff
  }

  /** One completed task's category and days taken. */
  datatype Sample = Sample(categoryId: string, days: int)

  function Samples(tasks: seq<Task>, mockDelay: Task -> nat): (r: seq<Sample>)
    ensures |r| == Count(tasks, Analytics.IsDone)
    ensures var done := Filter(tasks, Analytics.IsDone);
            forall i :: 0 <= i < |r| ==>
              r[i] == Sample(done[i].categoryId, DaysToComplete(done[i], mockDelay))
  {
    Map(Filter(tasks, Analytics.IsDone), (t: Task) => Sample(t.categoryId, DaysToComplete(t, mockDelay)))
  }

  function SampleKeys(samples: seq<Sample>): (r: seq<string>)
    ensures |r| == |samples|
    ensures forall i :: 0 <= i < |samples| ==> r[i] == samples[i].categoryId
  {
    seq(|samples|, i requires 0 <= i < |samples| => samples[i].categoryId)
  }

  function SampleDays(samples: seq<Sample>): (r: seq<int>)
    ensures |r| == |samples|
    ensures forall i :: 0 <= i < |samples| ==> r[i] == samples[i].days
  {
    seq(|samples|, i requires 0 <= i < |samples| => samples[i].days)
  }

  /** Days taken, summed over the samples of one category. */
  function DaysFor(samples: seq<Sample>, key: string): int {
    if samples == [] then 0
    else
      var s := samples[|samples| - 1];
      DaysFor(samples[..|samples| - 1], key) + (if s.categoryId == key then s.days else 0)
  }

  /** Where a key first occurs (the length of `keys` when it does not). */
  function FirstSeen(keys: seq<string>, k: string): nat {
    match IndexOf(keys, k)
    case None => |keys|
    case Some(i) => i
  }

  /** The running totals the source keeps per category id. */
  datatype Group = Group(categoryId: string, total: int, count: nat)

  function GroupKeys(gs: seq<Group>): (r: seq<string>)
    ensures |r| == |gs|
    ensures forall j :: 0 <= j < |gs| ==> r[j] == gs[j].categoryId
  {
    seq(|gs|, j requires 0 <= j < |gs| => gs[j].categoryId)
  }

  /** One group per category id that occurs among the samples, and no other. */
  predicate CoversKeys(samples: seq<Sample>, gs: seq<Group>) {
    && Distinct(GroupKeys(gs))
    && (forall j :: 0 <= j < |gs| ==> gs[j].categoryId in SampleKeys(samples))
    && (forall i :: 0 <= i < |samples| ==> samples[i].categoryId in GroupKeys(gs))
  }

  /** Each group holds its category's sample count and summed days. */
  predicate Tallied(samples: seq<Sample>, gs: seq<Group>) {
    forall j :: 0 <= j < |gs| ==>
      && gs[j].count == Occurrences(SampleKeys(samples), gs[j].categoryId)
      && gs[j].count > 0
      && gs[j].total == DaysFor(samples, gs[j].categoryId)
  }

  /** The groups are in order of their category's first appearance. */
  predicate InFirstSeenOrder(samples: seq<Sample>, gs: seq<Group>) {
    forall j, k :: 0 <= j < k < |gs| ==>
      FirstSeen(SampleKeys(samples), gs[j].categoryId) < FirstSeen(SampleKeys(samples), gs[k].categoryId)
  }

  /** `gs` is the grouping of `samples`. */
  predicate GroupsOf(samples: seq<Sample>, gs: seq<Group>) {
    CoversKeys(samples, gs) && Tallied(samples, gs) && InFirstSeenOrder(samples, gs)
  }

  /** The source's per-sample step: start a group for a new category, or
      add to the existing one. */
  function AddSample(gs: seq<Group>, s: Sample): seq<Group> {
    match IndexOf(GroupKeys(gs), s.categoryId)
    case None => gs + [Group(s.categoryId, s.days, 1)]
    case Some(j) => gs[j := Group(s.categoryId, gs[j].total + s.days, gs[j].count + 1)]
  }

  /** What one step does: afterwards the sample's category has a group; a
      new category gets a group at the end holding just the sample, and a
      known one's first group gains the sample's days and one more count,
      with no other group changing. */
  lemma AddSampleEffect(gs: seq<Group>, s: Sample)
    ensures s.categoryId in GroupKeys(AddSample(gs, s))
    ensures s.categoryId !in GroupKeys(gs) ==> AddSample(gs, s) == gs + [Group(s.categoryId, s.days, 1)]
    ensures s.categoryId in GroupKeys(gs) ==>
              && GroupKeys(AddSample(gs, s)) == GroupKeys(gs)
              && forall j :: 0 <= j < |gs| ==>
                   AddSample(gs, s)[j] == if j == FirstSeen(GroupKeys(gs), s.categoryId)
                                          then Group(s.categoryId, gs[j].total + s.days, gs[j].count + 1)
                                          else gs[j]
  {
    var r := AddSample(gs, s);
    if s.categoryId in GroupKeys(gs) {
      assert GroupKeys(r) == GroupKeys(gs);
    } else {
      assert GroupKeys(r)[|gs|] == s.categoryId;
    }
  }

  /** Facts about the keys of `front + [s]` shared by both cases of the step. */
  lemma {:induction false} AppendedKeys(front: seq<Sample>, s: Sample)
    ensures SampleKeys(front + [s]) == SampleKeys(front) + [s.categoryId]
    ensures forall k :: k in SampleKeys(front) ==>
              FirstSeen(SampleKeys(front + [s]), k) == FirstSeen(SampleKeys(front), k) < |front|
    ensures s.categoryId !in SampleKeys(front) ==> FirstSeen(SampleKeys(front + [s]), s.categoryId) == |front|
    ensures forall key ::
              && Occurrences(SampleKeys(front + [s]), key)
                   == Occurrences(SampleKeys(front), key) + (if s.categoryId == key then 1 else 0)
              && DaysFor(front + [s], key) == DaysFor(front, key) + (if s.categoryId == key then s.days else 0)
  {
    var keys := SampleKeys(front + [s]);
    assert keys == SampleKeys(front) + [s.categoryId];
    assert keys[..|keys| - 1] == SampleKeys(front);
    assert (front + [s])[..|front|] == front;
    forall k | k in SampleKeys(front)
      ensures FirstSeen(keys, k) == FirstSeen(SampleKeys(front), k) < |front|
    {
      IndexOfAppend(SampleKeys(front), s.categoryId, k);
    }
    IndexOfAppend(SampleKeys(front), s.categoryId, s.categoryId);
  }

  /** A category with no samples has no count and no days. */
  lemma {:induction false} AbsentCategory(samples: seq<Sample>, key: string)
    requires key !in SampleKeys(samples)
    ensures Occurrences(SampleKeys(samples), key) == 0 && DaysFor(samples, key) == 0
  {
    if samples != [] {
      var front := samples[..|samples| - 1];
      var s := samples[|samples| - 1];
      assert samples == front + [s];
      AppendedKeys(front, s);
      AbsentCategory(front, key);
    }
  }

  /** A category id that no group has does not occur among the samples. */
  lemma NewCategoryUnseen(front: seq<Sample>, prev: seq<Group>, c: string)
    requires CoversKeys(front, prev)
    requires c !in GroupKeys(prev)
    ensures c !in SampleKeys(front)
  {
  }

  lemma {:induction false} AddNewCategory(front: seq<Sample>, s: Sample, prev: seq<Group>)
    requires GroupsOf(front, prev)
    requires s.categoryId !in GroupKeys(prev)
    ensures GroupsOf(front + [s], AddSample(prev, s))
  {
    var samples := front + [s];
    var c := s.categoryId;
    var gs := prev + [Group(c, s.days, 1)];
    assert AddSample(prev, s) == gs;
    NewCategoryUnseen(front, prev, c);
    NewCategoryCovers(front, s, prev);
    NewCategoryTallied(front, s, prev);
    NewCategoryOrder(front, s, prev);
  }

  lemma NewCategoryCovers(front: seq<Sample>, s: Sample, prev: seq<Group>)
    requires CoversKeys(front, prev)
    requires s.categoryId !in GroupKeys(prev)
    ensures CoversKeys(front + [s], prev + [Group(s.categoryId, s.days, 1)])
  {
    var samples := front + [s];
    var gs := prev + [Group(s.categoryId, s.days, 1)];
    assert SampleKeys(samples) == SampleKeys(front) + [s.categoryId];
    assert GroupKeys(gs) == GroupKeys(prev) + [s.categoryId];
    forall i | 0 <= i < |samples| ensures samples[i].categoryId in GroupKeys(gs) {
      if i < |front| {
        assert samples[i] == front[i];
      }
    }
  }

  lemma NewCategoryTallied(front: seq<Sample>, s: Sample, prev: seq<Group>)
    requires Tallied(front, prev)
    requires s.categoryId !in GroupKeys(prev) && s.categoryId !in SampleKeys(front)
    ensures Tallied(front + [s], prev + [Group(s.categoryId, s.days, 1)])
  {
    var samples := front + [s];
    var gs := prev + [Group(s.categoryId, s.days, 1)];
    AppendedKeys(front, s);
    AbsentCategory(front, s.categoryId);
    forall j | 0 <= j < |gs|
      ensures gs[j].count == Occurrences(SampleKeys(samples), gs[j].categoryId)
      ensures gs[j].total == DaysFor(samples, gs[j].categoryId)
    {
      if j < |prev| {
        assert GroupKeys(prev)[j] == prev[j].categoryId;
      }
    }
  }

  lemma NewCategoryOrder(front: seq<Sample>, s: Sample, prev: seq<Group>)
    requires InFirstSeenOrder(front, prev)
    requires forall j :: 0 <= j < |prev| ==> prev[j].categoryId in SampleKeys(front)
    requires s.categoryId !in SampleKeys(front)
    ensures InFirstSeenOrder(front + [s], prev + [Group(s.categoryId, s.days, 1)])
  {
    AppendedKeys(front, s);
  }

  lemma {:induction false} AddKnownCategory(front: seq<Sample>, s: Sample, prev: seq<Group>)
    requires GroupsOf(front, prev)
    requires s.categoryId in GroupKeys(prev)
    ensures GroupsOf(front + [s], AddSample(prev, s))
  {
    var j0 := KnownCategoryStep(prev, s);
    KnownCategoryCovers(front, s, prev, j0);
    KnownCategoryTallied(front, s, prev, j0);
    KnownCategoryOrder(front, s, prev, j0);
  }

  /** For a category that has a group, the step bumps that group. */
  lemma KnownCategoryStep(prev: seq<Group>, s: Sample) returns (j0: nat)
    requires s.categoryId in GroupKeys(prev)
    ensures j0 < |prev| && prev[j0].categoryId == s.categoryId
    ensures AddSample(prev, s) == Bumped(prev, s, j0)
  {
    j0 := IndexOf(GroupKeys(prev), s.categoryId).value;
    assert GroupKeys(prev)[j0] == s.categoryId;
  }

  /** The group with the sample's category, bumped by the sample. */
  function Bumped(prev: seq<Group>, s: Sample, j0: nat): seq<Group>
    requires j0 < |prev|
  {
    prev[j0 := Group(s.categoryId, prev[j0].total + s.days, prev[j0].count + 1)]
  }

  lemma KnownCategoryCovers(front: seq<Sample>, s: Sample, prev: seq<Group>, j0: nat)
    requires CoversKeys(front, prev)
    requires j0 < |prev| && prev[j0].categoryId == s.categoryId
    ensures CoversKeys(front + [s], Bumped(prev, s, j0))
  {
    var samples := front + [s];
    var gs := Bumped(prev, s, j0);
    assert GroupKeys(gs) == GroupKeys(prev);
    assert SampleKeys(samples) == SampleKeys(front) + [s.categoryId];
    forall i | 0 <= i < |samples| ensures samples[i].categoryId in GroupKeys(gs) {
      if i < |front| {
        assert samples[i] == front[i];
      }
    }
  }

  lemma KnownCategoryTallied(front: seq<Sample>, s: Sample, prev: seq<Group>, j0: nat)
    requires Tallied(front, prev) && Distinct(GroupKeys(prev))
    requires j0 < |prev| && prev[j0].categoryId == s.categoryId
    ensures Tallied(front + [s], Bumped(prev, s, j0))
  {
    var samples := front + [s];
    var gs := Bumped(prev, s, j0);
    AppendedKeys(front, s);
    forall j | 0 <= j < |gs|
      ensures gs[j].count == Occurrences(SampleKeys(samples), gs[j].categoryId)
      ensures gs[j].total == DaysFor(samples, gs[j].categoryId)
    {
      if j != j0 {
        assert GroupKeys(prev)[j] != GroupKeys(prev)[j0];
      }
    }
  }

  lemma KnownCategoryOrder(front: seq<Sample>, s: Sample, prev: seq<Group>, j0: nat)
    requires InFirstSeenOrder(front, prev)
    requires forall j :: 0 <= j < |prev| ==> prev[j].categoryId in SampleKeys(front)
    requires j0 < |prev| && prev[j0].categoryId == s.categoryId
    ensures InFirstSeenOrder(front + [s], Bumped(prev, s, j0))
  {
    var samples := front + [s];
    var gs := Bumped(prev, s, j0);
    AppendedKeys(front, s);
    forall j, k | 0 <= j < k < |gs|
      ensures FirstSeen(SampleKeys(samples), gs[j].categoryId) < FirstSeen(SampleKeys(samples), gs[k].categoryId)
    {
      assert gs[j].categoryId == prev[j].categoryId && gs[k].categoryId == prev[k].categoryId;
    }
  }

  /** The per-category grouping of the samples, built one sample at a time
      (the order in which the source's object acquires its keys). */
  function GroupBy(samples: seq<Sample>): (gs: seq<Group>)
    ensures GroupsOf(samples, gs)
  {
    if samples == [] then []
    else
      var front := samples[..|samples| - 1];
      var s := samples[|samples| - 1];
      var prev := GroupBy(front);
      assert samples == front + [s];
      if s.categoryId in GroupKeys(prev) then
        AddKnownCategory(front, s, prev);
        AddSample(prev, s)
      else
        AddNewCategory(front, s, prev);
        AddSample(prev, s)
  }

  /** One category's mean days taken. */
  datatype CategoryAverage = CategoryAverage(categoryId: string, average: real)

  /** `categoryAverages`: per category of the samples, in order of first
      appearance, the mean days taken. */
  function CategoryAverages(samples: seq<Sample>): (r: seq<CategoryAverage>)
    ensures |r| == 0 <==> |samples| == 0
    ensures Distinct(AverageKeys(r))
    ensures forall i :: 0 <= i < |samples| ==> samples[i].categoryId in AverageKeys(r)
    ensures forall j :: 0 <= j < |r| ==>
              var n := Occurrences(SampleKeys(samples), r[j].categoryId);
              n > 0 && r[j].average == DaysFor(samples, r[j].categoryId) as real / n as real
    ensures forall j, k :: 0 <= j < k < |r| ==>
              FirstSeen(SampleKeys(samples), r[j].categoryId) < FirstSeen(SampleKeys(samples), r[k].categoryId)
  {
    var gs := GroupBy(samples);
    assert |samples| > 0 ==> samples[0].categoryId in GroupKeys(gs);
    AveragesOf(gs)
  }

  /** One mean per group, keyed like the group. */
  function AveragesOf(gs: seq<Group>): (r: seq<CategoryAverage>)
    requires forall j :: 0 <= j < |gs| ==> gs[j].count > 0
    ensures |r| == |gs| && AverageKeys(r) == GroupKeys(gs)
    ensures forall j :: 0 <= j < |gs| ==> r[j].average == gs[j].total as real / gs[j].count as real
  {
    var r := seq(|gs|, j requires 0 <= j < |gs| => CategoryAverage(gs[j].categoryId, gs[j].total as real / gs[j].count as real));
    assert AverageKeys(r) == GroupKeys(gs);
    r
  }

  function Averages(avgs: seq<CategoryAverage>): (r: seq<real>)
    ensures |r| == |avgs|
    ensures forall j :: 0 <= j < |avgs| ==> r[j] == avgs[j].average
  {
    seq(|avgs|, j requires 0 <= j < |avgs| => avgs[j].average)
  }

  function AverageKeys(avgs: seq<CategoryAverage>): (r: seq<string>)
    ensures |r| == |avgs|
    ensures forall j :: 0 <= j < |avgs| ==> r[j] == avgs[j].categoryId
  {
    seq(|avgs|, j requires 0 <= j < |avgs| => avgs[j].categoryId)
  }

  /** Position of a category among the averages (their length if absent). */
  function Position(avgs: seq<CategoryAverage>, key: string): nat {
    FirstSeen(AverageKeys(avgs), key)
  }

  /** With one entry per category, a category's position is where it is. */
  lemma PositionOfEntry(avgs: seq<CategoryAverage>)
    requires Distinct(AverageKeys(avgs))
    ensures forall k :: 0 <= k < |avgs| ==> Position(avgs, avgs[k].categoryId) == k
  {
    var keys := AverageKeys(avgs);
    forall k | 0 <= k < |avgs| ensures Position(avgs, avgs[k].categoryId) == k {
      assert keys[k] == avgs[k].categoryId;
    }
  }

  /** The quickest category: the search from `Infinity` with `<` keeps the
      first category with the lowest mean, and always finds one. */
  function Quickest(avgs: seq<CategoryAverage>): (q: string)
    requires |avgs| > 0 && Distinct(AverageKeys(avgs))
    ensures IsFirstMin(Averages(avgs), Position(avgs, q))
  {
    var values := Averages(avgs);
    MinBelowInfinity(values);
    var k := MinBelow(values, PosInf).value;
    PositionOfEntry(avgs);
    avgs[k].categoryId
  }

  /** The slowest category: the search from -1 with `>` keeps the first
      category with the highest mean, if that mean is above -1. */
  function Slowest(avgs: seq<CategoryAverage>): (w: Option<string>)
    requires Distinct(AverageKeys(avgs))
    ensures w.None? <==> forall j :: 0 <= j < |avgs| ==> avgs[j].average <= -1.0
    ensures w.Some? ==>
              && IsFirstMax(Averages(avgs), Position(avgs, w.value))
              && avgs[Position(avgs, w.value)].average > -1.0
  {
    PositionOfEntry(avgs);
    match MaxAbove(Averages(avgs), -1.0)
    case None => None
    case Some(k) => Some(avgs[k].categoryId)
  }

  /** The summary of a non-empty set of samples: the mean days taken, the
      first category with the lowest mean (the search starts from
      `Infinity`, so there always is one) and the first category with the
      highest mean, provided that mean is above the search's starting value
      of -1. */
  function Summarize(samples: seq<Sample>): (r: Summary)
    requires |samples| > 0
    ensures r.averageDays == Sum(SampleDays(samples)) as real / |samples| as real
    ensures var avgs := CategoryAverages(samples);
            && r.quickest.Some?
            && IsFirstMin(Averages(avgs), Position(avgs, r.quickest.value))
    ensures var avgs := CategoryAverages(samples);
            && (r.slowest.None? <==> forall j :: 0 <= j < |avgs| ==> avgs[j].average <= -1.0)
            && (r.slowest.Some? ==>
                  && IsFirstMax(Averages(avgs), Position(avgs, r.slowest.value))
                  && avgs[Position(avgs, r.slowest.value)].average > -1.0)
  {
    var avgs := CategoryAverages(samples);
    Summary(Sum(SampleDays(samples)) as real / |samples| as real, Some(Quickest(avgs)), Slowest(avgs))
  }

  /** `getTaskCompletionTime`: the placeholder when no task is completed,
      otherwise the summary of the completed tasks' days taken. */
  function TaskCompletionTime(tasks: seq<Task>, mockDelay: Task -> nat): (r: Summary)
    ensures Count(tasks, Analytics.IsDone) == 0 ==> r == Placeholder
    ensures Count(tasks, Analytics.IsDone) > 0 ==> r == Summarize(Samples(tasks, mockDelay))
  {
    var samples := Samples(tasks, mockDelay);
    if |samples| == 0 then Placeholder else Summarize(samples)
  }
}
