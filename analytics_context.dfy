/** Analytics (`AnalyticsContext`): user dashboards with their widgets, the
    compliance trend of a customer over a time window, and industry
    benchmarks with their quartiles. The trend and benchmark records are
    the ones loaded from storage; nothing in the context adds to them. */
module AnalyticsContext {
  import opened Common
  import opened Text
  import opened Dicts
  import opened Sorting
  import opened Nis2Compliance
  import opened RiskContext
  import opened ProjectContext

  /** The risk status `analyzeTrends` counts as treated. */
  const TREATED := "treated"
  /** The inherent score from which a risk counts as high priority. */
  const HIGH_PRIORITY_SCORE: nat := 15

  datatype Widget = Widget(id: string, widgetType: string, config: string, createdAt: int)

  datatype Dashboard = Dashboard(
    name: string,
    layout: string,
    userId: string,
    widgets: seq<Widget>,
    createdAt: int,
    updatedAt: int)

  /** A stored trend record; timestamps are milliseconds. */
  datatype TrendEntry = TrendEntry(customerId: string, kind: string, timestamp: int, score: int)

  datatype TrendPoint = TrendPoint(timestamp: int, score: int)

  datatype ComplianceTrend = ComplianceTrend(current: nat, history: seq<TrendPoint>, improvement: int)
  datatype RiskTrend = RiskTrend(total: nat, treated: nat, highPriority: nat)
  datatype TaskTrend = TaskTrend(completionRate: nat, total: nat)
  datatype TrendData = TrendData(compliance: ComplianceTrend, risks: RiskTrend, tasks: TaskTrend)

  /** A stored benchmark record of one organisation. */
  datatype Benchmark = Benchmark(
    industry: string,
    hasOT: bool,
    complianceScore: nat,
    riskTreatmentRate: nat,
    taskCompletionRate: nat)

  /** An average kept exact: `total / count`. */
  datatype Ratio = Ratio(total: nat, count: nat)

  datatype Quartiles = Quartiles(p25: int, p50: int, p75: int)

  datatype Averages = Averages(complianceScore: Ratio, riskTreatmentRate: Ratio, taskCompletionRate: Ratio)
  datatype Percentiles = Percentiles(complianceScore: Quartiles, riskTreatmentRate: Quartiles, taskCompletionRate: Quartiles)
  datatype BenchmarkSummary = BenchmarkSummary(averages: Averages, percentiles: Percentiles, sampleSize: nat)

  /** `{ ...d, widgets: [...d.widgets, w], updatedAt }`. */
  function WithWidget(d: Dashboard, w: Widget, now: int): (e: Dashboard)
    ensures |e.widgets| == |d.widgets| + 1
    ensures e.widgets[..|d.widgets|] == d.widgets && e.widgets[|d.widgets|] == w
    ensures e.name == d.name && e.layout == d.layout && e.userId == d.userId && e.createdAt == d.createdAt
  {
    d.(widgets := d.widgets + [w], updatedAt := now)
  }

  // ---- trend analysis ----

  function InWindow(customerId: string, startDate: int, endDate: int): TrendEntry -> bool
  {
    (t: TrendEntry) => t.customerId == customerId && t.kind == "compliance" &&
                       startDate <= t.timestamp && t.timestamp <= endDate
  }

  /** `(a, b) => new Date(a.timestamp) - new Date(b.timestamp)`. */
  function ByTimestamp(): (TrendEntry, TrendEntry) -> bool
  {
    (a: TrendEntry, b: TrendEntry) => a.timestamp - b.timestamp <= 0
  }

  /** `complianceHistory`: the customer's compliance records in the window,
      oldest first. */
  function ComplianceHistory(trends: seq<TrendEntry>, customerId: string, startDate: int, endDate: int): seq<TrendEntry>
  {
    Sort(Filter(trends, InWindow(customerId, startDate, endDate)), ByTimestamp())
  }

  function Points(h: seq<TrendEntry>): (ps: seq<TrendPoint>)
    ensures |ps| == |h|
    ensures forall i :: 0 <= i < |h| ==> ps[i] == TrendPoint(h[i].timestamp, h[i].score)
  {
    seq(|h|, i requires 0 <= i < |h| => TrendPoint(h[i].timestamp, h[i].score))
  }

  /** The last score minus the first when there are two points or more. */
  function Improvement(ps: seq<TrendPoint>): int
  {
    if |ps| > 1 then ps[|ps| - 1].score - ps[0].score else 0
  }

  /** The score changes between neighbouring points, added up. */
  function SumOfSteps(ps: seq<TrendPoint>): int
  {
    if |ps| < 2 then 0
    else SumOfSteps(ps[..|ps| - 1]) + (ps[|ps| - 1].score - ps[|ps| - 2].score)
  }

  /** The improvement is the sum of the step-by-step changes, so it is
      positive when no step goes down and at least one goes up. */
  lemma {:induction false} ImprovementIsSumOfSteps(ps: seq<TrendPoint>)
    ensures Improvement(ps) == SumOfSteps(ps)
  {
    if |ps| > 2 {
      var init := ps[..|ps| - 1];
      ImprovementIsSumOfSteps(init);
      assert init[0] == ps[0] && init[|init| - 1] == ps[|ps| - 2];
    }
  }

  /** The history holds exactly the customer's compliance records within
      the window, each once as often as stored, ordered by timestamp. */
  lemma ComplianceHistoryWindow(trends: seq<TrendEntry>, customerId: string, startDate: int, endDate: int)
    ensures var h := ComplianceHistory(trends, customerId, startDate, endDate);
      multiset(h) == multiset(Filter(trends, InWindow(customerId, startDate, endDate))) &&
      (forall t :: t in h <==>
                     (t in trends && t.customerId == customerId && t.kind == "compliance" &&
                      startDate <= t.timestamp <= endDate)) &&
      (forall i, j :: 0 <= i < j < |h| ==> h[i].timestamp <= h[j].timestamp)
  {
    var p := InWindow(customerId, startDate, endDate);
    var f := Filter(trends, p);
    var h := ComplianceHistory(trends, customerId, startDate, endDate);
    forall t ensures t in h <==> t in trends && p(t) {
      FilterMember(trends, p, t);
      assert t in h <==> t in multiset(h);
      assert t in f <==> t in multiset(f);
    }
    assert TotalPreorder(ByTimestamp());
    SortSorted(f, ByTimestamp());
  }

  /** `calculateBenchmarks` helpers. */
  function Matches(industry: string, hasOT: bool): Benchmark -> bool
  {
    (b: Benchmark) => b.industry == industry && b.hasOT == hasOT
  }

  function ComplianceScoreOf(): Benchmark -> nat { (b: Benchmark) => b.complianceScore }
  function RiskTreatmentRateOf(): Benchmark -> nat { (b: Benchmark) => b.riskTreatmentRate }
  function TaskCompletionRateOf(): Benchmark -> nat { (b: Benchmark) => b.taskCompletionRate }

  function Column(bs: seq<Benchmark>, f: Benchmark -> nat): (vs: seq<int>)
    ensures |vs| == |bs|
    ensures forall i :: 0 <= i < |bs| ==> vs[i] == f(bs[i])
  {
    seq(|bs|, i requires 0 <= i < |bs| => f(bs[i]) as int)
  }

  /** `(a, b) => a - b`. */
  function Ascending(): (int, int) -> bool
  {
    (a: int, b: int) => a - b <= 0
  }

  /** `calculatePercentiles`: the values at a quarter, half and three
      quarters of the ascending order; none for no values. */
  function CalculatePercentiles(values: seq<int>): (q: Option<Quartiles>)
    ensures q.None? <==> |values| == 0
  {
    if |values| == 0 then None
    else
      var sorted := Sort(values, Ascending());
      Some(Quartiles(sorted[|sorted| / 4], sorted[|sorted| / 2], sorted[3 * |sorted| / 4]))
  }

  /** The quartiles are input values and ordered: p25 <= p50 <= p75. */
  lemma PercentilesOrdered(values: seq<int>)
    requires |values| > 0
    ensures var q := CalculatePercentiles(values).value;
      q.p25 <= q.p50 <= q.p75 &&
      q.p25 in values && q.p50 in values && q.p75 in values
  {
    var sorted := Sort(values, Ascending());
    assert TotalPreorder(Ascending());
    SortSorted(values, Ascending());
    var n := |values|;
    SortMembers(values, Ascending(), n / 4);
    SortMembers(values, Ascending(), n / 2);
    SortMembers(values, Ascending(), 3 * n / 4);
    assert sorted[n / 4] <= sorted[n / 2];
    if n / 2 < 3 * n / 4 {
      assert sorted[n / 2] <= sorted[3 * n / 4];
    }
  }

  function Average(bs: seq<Benchmark>, f: Benchmark -> nat): Ratio
  {
    Ratio(Sum(bs, f), |bs|)
  }

  /** The three quartile triples of a non-empty sample. */
  function SamplePercentiles(bs: seq<Benchmark>): Percentiles
    requires |bs| > 0
  {
    Percentiles(CalculatePercentiles(Column(bs, ComplianceScoreOf())).value,
                CalculatePercentiles(Column(bs, RiskTreatmentRateOf())).value,
                CalculatePercentiles(Column(bs, TaskCompletionRateOf())).value)
  }

  /** `calculateBenchmarks` over the stored records. */
  function CalculateBenchmarks(benchmarks: seq<Benchmark>, industry: string, hasOT: bool): Option<BenchmarkSummary>
  {
    var sample := Filter(benchmarks, Matches(industry, hasOT));
    if |sample| == 0 then None
    else
      Some(BenchmarkSummary(
        Averages(Average(sample, ComplianceScoreOf()), Average(sample, RiskTreatmentRateOf()),
                 Average(sample, TaskCompletionRateOf())),
        SamplePercentiles(sample),
        |sample|))
  }

  /** No summary iff no record matches both the industry and the OT flag;
      otherwise the sample size is the number of matching records, every
      average is over exactly those records, and the compliance-score
      quartiles are ordered scores of matching records. */
  lemma BenchmarksCases(benchmarks: seq<Benchmark>, industry: string, hasOT: bool)
    ensures var r := CalculateBenchmarks(benchmarks, industry, hasOT);
      (r.None? <==> forall i :: 0 <= i < |benchmarks| ==> benchmarks[i].industry != industry || benchmarks[i].hasOT != hasOT) &&
      (r.Some? ==>
         var sample := Filter(benchmarks, Matches(industry, hasOT));
         r.value.sampleSize == |sample| > 0 &&
         r.value.averages.complianceScore.count == r.value.sampleSize &&
         r.value.averages.riskTreatmentRate.count == r.value.sampleSize &&
         r.value.averages.taskCompletionRate.count == r.value.sampleSize &&
         ((forall b :: b in benchmarks ==> b.complianceScore <= 100) ==>
            r.value.averages.complianceScore.total <= 100 * r.value.sampleSize))
    ensures var r := CalculateBenchmarks(benchmarks, industry, hasOT);
      r.Some? ==>
        var q := r.value.percentiles.complianceScore;
        q.p25 <= q.p50 <= q.p75 &&
        exists b :: b in benchmarks && b.industry == industry && b.hasOT == hasOT && b.complianceScore == q.p50
  {
    var p := Matches(industry, hasOT);
    var sample := Filter(benchmarks, p);
    if |sample| == 0 {
      forall i | 0 <= i < |benchmarks| ensures benchmarks[i].industry != industry || benchmarks[i].hasOT != hasOT {
        FilterMember(benchmarks, p, benchmarks[i]);
      }
    } else {
      assert sample[0] in benchmarks;
      if forall b :: b in benchmarks ==> b.complianceScore <= 100 {
        SumBound(sample, ComplianceScoreOf(), 100);
      }
      var col := Column(sample, ComplianceScoreOf());
      PercentilesOrdered(col);
      var q := CalculatePercentiles(col).value;
      var k :| 0 <= k < |col| && col[k] == q.p50;
      assert sample[k] in benchmarks && p(sample[k]);
    }
  }

  /** The analytics state. */
  class AnalyticsStore {
    var dashboards: Dict<string, Dashboard>
    var trends: Dict<string, TrendEntry>
    var benchmarks: Dict<string, Benchmark>

    ghost predicate Valid()
      reads this
    {
      dashboards.Valid() && trends.Valid() && benchmarks.Valid()
    }

    /** The state after loading: no dashboards yet, the stored trend and
        benchmark records. */
    constructor(trends: Dict<string, TrendEntry>, benchmarks: Dict<string, Benchmark>)
      requires trends.Valid() && benchmarks.Valid()
      ensures Valid() && dashboards.keys == [] && this.trends == trends && this.benchmarks == benchmarks
    {
      dashboards := Empty();
      this.trends := trends;
      this.benchmarks := benchmarks;
    }

    /** `createDashboard`: a dashboard without widgets under
        `${userId}_${now}`; a second one in the same millisecond replaces
        the first. */
    method CreateDashboard(userId: string, name: string, layout: string, now: nat) returns (id: string)
      requires Valid()
      modifies this
      ensures Valid() && id == userId + "_" + NatToString(now)
      ensures dashboards == old(dashboards).Put(id, Dashboard(name, layout, userId, [], now, now))
      ensures dashboards.vals[id].widgets == []
      ensures trends == old(trends) && benchmarks == old(benchmarks)
    {
      id := userId + "_" + NatToString(now);
      var d := Dashboard(name, layout, userId, [], now, now);
      PutValid(dashboards, id, d);
      dashboards := dashboards.Put(id, d);
    }

    /** `addWidget`: appends one widget to the dashboard. For an unknown
        dashboard the state update fails and nothing changes. */
    method AddWidget(dashboardId: string, widgetType: string, config: string, now: nat) returns (widgetId: string)
      requires Valid()
      modifies this
      ensures Valid() && widgetId == "widget_" + NatToString(now)
      ensures dashboardId in old(dashboards).vals ==>
                dashboards == old(dashboards).Put(dashboardId,
                  WithWidget(old(dashboards).vals[dashboardId], Widget(widgetId, widgetType, config, now), now))
      ensures dashboardId !in old(dashboards).vals ==> dashboards == old(dashboards)
      ensures trends == old(trends) && benchmarks == old(benchmarks)
    {
      widgetId := "widget_" + NatToString(now);
      var d := dashboards.Get(dashboardId);
      if d.Some? {
        var e := WithWidget(d.value, Widget(widgetId, widgetType, config, now), now);
        PutValid(dashboards, dashboardId, e);
        dashboards := dashboards.Put(dashboardId, e);
      }
    }

    /** `getDashboards`. */
    function DashboardsOf(userId: string): (r: seq<Dashboard>)
      reads this
      requires Valid()
      ensures forall d :: d in r <==> d in dashboards.Values() && d.userId == userId
    {
      var p := (d: Dashboard) => d.userId == userId;
      var r := Filter(dashboards.Values(), p);
      forall d ensures d in r <==> d in dashboards.Values() && p(d) {
        FilterMember(dashboards.Values(), p, d);
      }
      r
    }

    /** `analyzeTrends`, given the customer's compliance result
        (`calculateComplianceStatus`) and the risk and project stores. */
    function AnalyzeTrends(customerId: string, startDate: int, endDate: int,
                           compliance: Option<ComplianceStatus>, risks: RiskStore, projects: ProjectStore): (t: TrendData)
      reads this, risks, projects
      requires Valid() && risks.Valid() && projects.Valid()
      ensures t.risks.treated <= t.risks.total && t.risks.highPriority <= t.risks.total
      ensures t.tasks.completionRate <= 100
      ensures t.risks.total == |risks.RisksByCustomer(customerId)|
      ensures t.tasks.total == |projects.TasksByCustomer(customerId)|
    {
      var history := ComplianceHistory(trends.Values(), customerId, startDate, endDate);
      var points := Points(history);
      var register := risks.RiskRegister(customerId);
      var prioritized := risks.PrioritizeRisks(customerId);
      var current := if compliance.Some? && compliance.value.overallScore.Some? then compliance.value.overallScore.value else 0;
      TrendData(
        ComplianceTrend(current, points, Improvement(points)),
        RiskTrend(|register|,
                  |Filter(register, (e: RegisterEntry) => e.risk.status == TREATED)|,
                  |Filter(prioritized, (e: RegisterEntry) => InherentScore(e.risk) >= HIGH_PRIORITY_SCORE)|),
        TaskTrend(projects.CalculateCompletion(customerId), |projects.TasksByCustomer(customerId)|))
    }

    /** The trend's history is the customer's in-window compliance records,
        oldest first, and its improvement the sum of the score steps. */
    lemma AnalyzeTrendsHistory(customerId: string, startDate: int, endDate: int,
                               compliance: Option<ComplianceStatus>, risks: RiskStore, projects: ProjectStore)
      requires Valid() && risks.Valid() && projects.Valid()
      ensures var c := AnalyzeTrends(customerId, startDate, endDate, compliance, risks, projects).compliance;
        (forall i :: 0 <= i < |c.history| ==>
           exists t :: t in trends.Values() && t.customerId == customerId && t.kind == "compliance" &&
                       startDate <= t.timestamp <= endDate && c.history[i] == TrendPoint(t.timestamp, t.score)) &&
        (forall i, j :: 0 <= i < j < |c.history| ==> c.history[i].timestamp <= c.history[j].timestamp) &&
        c.improvement == SumOfSteps(c.history)
    {
      var h := ComplianceHistory(trends.Values(), customerId, startDate, endDate);
      ComplianceHistoryWindow(trends.Values(), customerId, startDate, endDate);
      var c := AnalyzeTrends(customerId, startDate, endDate, compliance, risks, projects).compliance;
      forall i | 0 <= i < |c.history|
        ensures exists t :: t in trends.Values() && t.customerId == customerId && t.kind == "compliance" &&
                            startDate <= t.timestamp <= endDate && c.history[i] == TrendPoint(t.timestamp, t.score)
      {
        assert h[i] in h;
      }
      ImprovementIsSumOfSteps(c.history);
    }
  }
}
