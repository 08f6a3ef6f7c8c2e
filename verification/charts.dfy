/** The two chart components that compute something of their own:
    CategoryPerformanceChart (best and worst category) and LinkUsageChart
    (most-used category and total), each fed by the aggregator. */
module Charts {

  import opened Wrappers
  import opened Seqs
  import opened Records
  import opened Reductions
  import opened Analytics

  /** A category named in a headline, with its completion percentage. */
  datatype Standing = Standing(name: string, percent: int)

  /** The reductions' seeds: what is shown when no category beats them. */
  const NoBest := Standing("None", 0)
  const NoWorst := Standing("None", 100)

  function StandingOf(e: CategoryScore): Standing {
    Standing(e.name, e.percent)
  }

  function Percents(series: seq<CategoryScore>): (r: seq<real>)
    ensures |r| == |series|
    ensures forall j :: 0 <= j < |series| ==> r[j] == series[j].percent as real
  {
    seq(|series|, j requires 0 <= j < |series| => series[j].percent as real)
  }

  /** The best-performing category: the first bar with the highest
      percentage, if that percentage is above 0; otherwise the seed. */
  function BestCategory(series: seq<CategoryScore>): (b: Standing)
    ensures (forall j :: 0 <= j < |series| ==> series[j].percent <= 0) ==> b == NoBest
    ensures (exists j :: 0 <= j < |series| && series[j].percent > 0) ==>
              exists k: nat :: IsFirstMax(Percents(series), k) && b == StandingOf(series[k])
    ensures forall j :: 0 <= j < |series| ==> series[j].percent <= b.percent
  {
    if |series| > 0 then
      match MaxAbove(Percents(series), 0.0)
      case None => NoBest
      case Some(k) =>
        assert IsFirstMax(Percents(series), k);
        StandingOf(series[k])
    else NoBest
  }

  /** The category that needs improvement: the first bar with the lowest
      percentage, if that percentage is below 100; otherwise the seed. */
  function WorstCategory(series: seq<CategoryScore>): (w: Standing)
    ensures (forall j :: 0 <= j < |series| ==> series[j].percent >= 100) ==> w == NoWorst
    ensures (exists j :: 0 <= j < |series| && series[j].percent < 100) ==>
              exists k: nat :: IsFirstMin(Percents(series), k) && w == StandingOf(series[k])
    ensures forall j :: 0 <= j < |series| ==> w.percent <= series[j].percent
  {
    if |series| > 0 then
      match MinBelow(Percents(series), Finite(100.0))
      case None => NoWorst
      case Some(k) =>
        assert IsFirstMin(Percents(series), k);
        StandingOf(series[k])
    else NoWorst
  }

  /** What CategoryPerformanceChart shows once its effect has run. */
  datatype Performance = Performance(series: seq<CategoryScore>, best: Standing, worst: Standing)

  /** The chart's series is exactly the aggregator's, its headlines are the
      best and worst standings of that series, and they bound every bar from
      above and below. */
  function CategoryPerformance(tasks: seq<Task>): (p: Performance)
    ensures p.series == TaskCompletionByCategory(tasks)
    ensures p.best == BestCategory(p.series) && p.worst == WorstCategory(p.series)
    ensures forall j :: 0 <= j < |p.series| ==> p.worst.percent <= p.series[j].percent <= p.best.percent
  {
    var series := TaskCompletionByCategory(tasks);
    Performance(series, BestCategory(series), WorstCategory(series))
  }

  /** Without tasks both headlines are the seeds. */
  lemma NoTasksNoStandings()
    ensures CategoryPerformance([]).best == NoBest
    ensures CategoryPerformance([]).worst == NoWorst
  {
  }

  /** Rounding 0 of `t` gives 0%. */
  lemma RoundNone(t: nat)
    requires t > 0
    ensures RoundPercent(0, t) == 0
  {
  }

  /** Rounding `t` of `t` gives 100%. */
  lemma RoundAll(t: nat)
    requires t > 0
    ensures RoundPercent(t, t) == 100
  {
    var p := RoundPercent(t, t);
    assert 2 * t * p <= 200 * t + t < 2 * t * (p + 1);
    CancelFactor(t, 2 * p, 202);
    CancelFactor(t, 200, 2 * p + 2);
  }

  /** A positive factor can be cancelled from a strict inequality. */
  lemma CancelFactor(t: nat, a: int, b: int)
    requires t > 0 && t * a < t * b
    ensures a < b
  {
  }

  /** With nothing completed every category has zero completed tasks. */
  lemma DonesWhenNoneDone(tasks: seq<Task>)
    requires forall i :: 0 <= i < |tasks| ==> !tasks[i].isCompleted
    ensures forall i :: 0 <= i < NumCategories ==> CategoryDones(tasks)[i] == 0
  {
    FilterKeepsNone(tasks, IsDone);
  }

  /** With everything completed every category's completed count is its total. */
  lemma DonesWhenAllDone(tasks: seq<Task>)
    requires forall i :: 0 <= i < |tasks| ==> tasks[i].isCompleted
    ensures forall i :: 0 <= i < NumCategories ==> CategoryDones(tasks)[i] == CategoryTotals(tasks)[i]
  {
    FilterKeepsAll(tasks, IsDone);
  }

  /** With nothing completed every bar is at 0%, so there is no best category. */
  lemma NothingDoneNoBest(tasks: seq<Task>)
    requires forall i :: 0 <= i < |tasks| ==> !tasks[i].isCompleted
    ensures CategoryPerformance(tasks).best == NoBest
  {
    var series := TaskCompletionByCategory(tasks);
    DonesWhenNoneDone(tasks);
    forall j | 0 <= j < |series| ensures series[j].percent <= 0 {
      RowAtZero(CategoryTotals(tasks), CategoryDones(tasks), Rank(series[j].name), series[j]);
    }
  }

  /** A bar whose category has nothing completed is at 0%. */
  lemma RowAtZero(totals: seq<nat>, dones: seq<nat>, i: int, e: CategoryScore)
    requires IsRowScore(totals, dones, i, e) && dones[i] == 0
    ensures e.percent == 0
  {
    RoundNone(totals[i]);
  }

  /** With everything completed every bar is at 100%, so there is no worst category. */
  lemma AllDoneNoWorst(tasks: seq<Task>)
    requires forall i :: 0 <= i < |tasks| ==> tasks[i].isCompleted
    ensures CategoryPerformance(tasks).worst == NoWorst
  {
    AllRowsFull(tasks);
  }

  lemma AllRowsFull(tasks: seq<Task>)
    requires forall i :: 0 <= i < |tasks| ==> tasks[i].isCompleted
    ensures forall j :: 0 <= j < |TaskCompletionByCategory(tasks)| ==> TaskCompletionByCategory(tasks)[j].percent >= 100
  {
    var series := TaskCompletionByCategory(tasks);
    DonesWhenAllDone(tasks);
    forall j | 0 <= j < |series| ensures series[j].percent >= 100 {
      RowAtFull(CategoryTotals(tasks), CategoryDones(tasks), Rank(series[j].name), series[j]);
    }
  }

  /** A bar whose category has everything completed is at 100%. */
  lemma RowAtFull(totals: seq<nat>, dones: seq<nat>, i: int, e: CategoryScore)
    requires IsRowScore(totals, dones, i, e) && dones[i] == totals[i]
    ensures e.percent == 100
  {
    RoundAll(totals[i]);
  }

  // ---------------------------------------------------------------------
  // LinkUsageChart
  // ---------------------------------------------------------------------

  /** What LinkUsageChart shows once its effect has run. */
  datatype LinkUsage = LinkUsage(series: seq<nat>, labels: seq<string>, colors: seq<string>,
                                 total: nat, mostUsed: string)

  /** The donut's series, labels and colors come from `getLinksByCategory`
      and stay aligned; the most-used category is the label at the first
      index holding the largest count, which always exists because the
      series has seven entries; the total is the number of links. */
  function LinkUsageOf(links: seq<Link>): (u: LinkUsage)
    ensures u.series == LinksByCategory(links).counts
    ensures u.labels == LinksByCategory(links).names && u.colors == LinksByCategory(links).colors
    ensures |u.series| == NumCategories && |u.labels| == NumCategories && |u.colors| == NumCategories
    ensures u.mostUsed != "None"
    ensures exists k: nat :: IsFirstLargest(u.series, k) && u.mostUsed == Categories[k].name
    ensures u.total == |links| && Sum(u.series) <= u.total
  {
    var data := LinksByCategory(links);
    var k := IndexOfMax(data.counts);
    var most := if k != -1 then data.names[k] else "None";
    NoCategoryNamedNone();
    assert IsFirstLargest(data.counts, k) && most == Categories[k].name;
    LinkUsage(data.counts, data.names, data.colors, |links|, most)
  }

  lemma NoCategoryNamedNone()
    ensures forall i :: 0 <= i < NumCategories ==> Categories[i].name != "None"
  {
  }

  /** With no links every count is zero, so the first category is reported. */
  lemma NoLinksReportsFirstCategory()
    ensures LinkUsageOf([]).mostUsed == "Self Help"
  {
    var u := LinkUsageOf([]);
    assert forall i :: 0 <= i < NumCategories ==> u.series[i] == 0;
    TablesWellFormed();
  }

  /** A link with an unknown category id is in the total but in no slice. */
  lemma UnknownLinkWidensGap(links: seq<Link>, i: nat)
    requires i < |links| && links[i].categoryId !in Ids(Categories)
    ensures Sum(LinkUsageOf(links).series) < LinkUsageOf(links).total
  {
  }
}
