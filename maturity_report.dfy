/** The maturity report (`MaturityReport`): the compliance result and the
    roadmap for the customer, shown only when a designation exists, with
    a description and recommendations for the maturity level, the gap
    count, the first high- and medium-priority tasks, and the control
    statuses grouped by family. */
module MaturityReport {
  import opened Common
  import opened Dicts
  import opened Nis2Designation
  import opened Nis2Scoring
  import opened Nis2Compliance
  import opened Nis2Roadmap

  /** How many tasks of each priority the report lists. */
  const LISTED_TASKS: nat := 5
  /** The family of a status whose control is not among the designation's. */
  const UNKNOWN_FAMILY := "Unknown"

  /** The level as the report switches on it. */
  function MaturityName(m: Maturity): string
  {
    match m
    case Advanced => "advanced"
    case Intermediate => "intermediate"
    case Basic => "basic"
  }

  predicate KnownLevel(level: string)
  {
    level == "advanced" || level == "intermediate" || level == "basic"
  }

  const ADVANCED_DESCRIPTION := "Your organization demonstrates advanced cybersecurity maturity with comprehensive controls and processes in place."
  const INTERMEDIATE_DESCRIPTION := "Your organization shows good cybersecurity practices but has opportunities for improvement in some areas."
  const BASIC_DESCRIPTION := "Your organization is in the early stages of cybersecurity maturity and requires significant improvements to meet NIS2 requirements."
  const UNKNOWN_DESCRIPTION := "Unable to determine maturity level."

  /** `getMaturityDescription(level)`. */
  function MaturityDescription(level: string): (d: string)
    ensures d == UNKNOWN_DESCRIPTION <==> !KnownLevel(level)
  {
    if level == "advanced" then ADVANCED_DESCRIPTION
    else if level == "intermediate" then INTERMEDIATE_DESCRIPTION
    else if level == "basic" then BASIC_DESCRIPTION
    else UNKNOWN_DESCRIPTION
  }

  const ADVANCED_RECOMMENDATIONS := [
    "Continue to maintain and improve existing controls",
    "Focus on continuous monitoring and optimization",
    "Consider becoming a cybersecurity leader in your industry",
    "Share best practices with industry peers"]
  const INTERMEDIATE_RECOMMENDATIONS := [
    "Prioritize addressing identified gaps in critical controls",
    "Implement regular security assessments and reviews",
    "Enhance incident response and recovery capabilities",
    "Strengthen staff training and awareness programs"]
  const BASIC_RECOMMENDATIONS := [
    "Immediately address high-priority security gaps",
    "Establish fundamental cybersecurity governance",
    "Implement basic security controls and monitoring",
    "Develop incident response and business continuity plans"]

  /** `getMaturityRecommendations(level)`. */
  function MaturityRecommendations(level: string): (r: seq<string>)
    ensures KnownLevel(level) ==> |r| == 4
    ensures !KnownLevel(level) ==> r == []
  {
    if level == "advanced" then ADVANCED_RECOMMENDATIONS
    else if level == "intermediate" then INTERMEDIATE_RECOMMENDATIONS
    else if level == "basic" then BASIC_RECOMMENDATIONS
    else []
  }

  /** Every level the compliance calculation produces has a description
      and four recommendations. */
  lemma EveryMaturityHasRecommendations(m: Maturity)
    ensures KnownLevel(MaturityName(m))
    ensures |MaturityRecommendations(MaturityName(m))| == 4
    ensures MaturityDescription(MaturityName(m)) != UNKNOWN_DESCRIPTION
  {
  }

  /** Whether the report is shown rather than "No Report Data". */
  predicate ReportShown(reportData: Option<ComplianceStatus>, designation: Option<Designation>)
  {
    reportData.Some? && designation.Some?
  }

  /** Computed from the same state, the report is shown exactly when there
      is a compliance result: the calculation already needs the
      designation. */
  lemma ReportShownIffCompliance(designation: Option<Designation>, assessments: seq<Assessment>,
                                 customerId: string, now: int)
    requires ResponsesValid(assessments)
    ensures ReportShown(CalculateComplianceStatus(designation, assessments, customerId, now), designation) <==>
              designation.Some? && exists i :: 0 <= i < |assessments| && assessments[i].customerId == customerId
  {
    ComplianceShape(designation, assessments, customerId, now);
  }

  /** The test `task.priority === priority`. */
  function HasPriority(priority: string): RoadmapTask -> bool
  {
    (t: RoadmapTask) => t.priority == priority
  }

  /** `roadmap?.tasks.filter(task => task.priority === priority).slice(0, 5) || []`. */
  function TasksWithPriority(roadmap: Option<Roadmap>, priority: string): (r: seq<RoadmapTask>)
    ensures roadmap.None? ==> r == []
    ensures |r| <= LISTED_TASKS
    ensures forall i :: 0 <= i < |r| ==> r[i].priority == priority
    ensures roadmap.Some? ==> r <= Filter(roadmap.value.tasks, HasPriority(priority))
    ensures roadmap.Some? ==>
              |r| == if |Filter(roadmap.value.tasks, HasPriority(priority))| < LISTED_TASKS
                     then |Filter(roadmap.value.tasks, HasPriority(priority))| else LISTED_TASKS
  {
    if roadmap.None? then []
    else
      var all := Filter(roadmap.value.tasks, HasPriority(priority));
      var r := Take(all, LISTED_TASKS);
      assert forall i :: 0 <= i < |r| ==> r[i] == all[i];
      r
  }

  function PriorityTasks(roadmap: Option<Roadmap>): seq<RoadmapTask>
  {
    TasksWithPriority(roadmap, "high")
  }

  function MediumTasks(roadmap: Option<Roadmap>): seq<RoadmapTask>
  {
    TasksWithPriority(roadmap, "medium")
  }

  /** A listed task is one of the roadmap's tasks. */
  lemma ListedTaskOrigin(customerId: string, compliance: ComplianceStatus, now: int, priority: string, t: RoadmapTask)
    requires t in TasksWithPriority(RoadmapFor(customerId, Some(compliance), now), priority)
    ensures exists k :: 0 <= k < |RoadmapFor(customerId, Some(compliance), now).value.tasks| &&
                        RoadmapFor(customerId, Some(compliance), now).value.tasks[k] == t
  {
    var tasks := RoadmapFor(customerId, Some(compliance), now).value.tasks;
    FilterMember(tasks, HasPriority(priority), t);
  }

  /** A listed task comes from a control that is not compliant, and it
      is of high priority exactly when that control is non-compliant. */
  lemma ListedTaskStatus(customerId: string, compliance: ComplianceStatus, now: int, priority: string, t: RoadmapTask)
    requires t in TasksWithPriority(RoadmapFor(customerId, Some(compliance), now), priority)
    ensures t.priority == priority
    ensures exists i :: 0 <= i < |compliance.controlStatuses| &&
              compliance.controlStatuses[i].controlId == t.controlId &&
              compliance.controlStatuses[i].status != Compliant &&
              (priority == "high" <==> compliance.controlStatuses[i].status == NonCompliant)
  {
    var tasks := RoadmapFor(customerId, Some(compliance), now).value.tasks;
    ListedTaskOrigin(customerId, compliance, now, priority, t);
    var k :| 0 <= k < |tasks| && tasks[k] == t;
    TaskPriorities(customerId, compliance, now, k);
  }

  /** The priority tasks come from non-compliant controls, the medium
      tasks from partially compliant or unassessed ones. */
  lemma ListedTasksByControlStatus(customerId: string, compliance: ComplianceStatus, now: int, t: RoadmapTask)
    ensures t in PriorityTasks(RoadmapFor(customerId, Some(compliance), now)) ==>
              exists i :: 0 <= i < |compliance.controlStatuses| &&
                compliance.controlStatuses[i].controlId == t.controlId &&
                compliance.controlStatuses[i].status == NonCompliant
    ensures t in MediumTasks(RoadmapFor(customerId, Some(compliance), now)) ==>
              exists i :: 0 <= i < |compliance.controlStatuses| &&
                compliance.controlStatuses[i].controlId == t.controlId &&
                compliance.controlStatuses[i].status in {PartiallyCompliant, NotAssessed}
  {
    if t in PriorityTasks(RoadmapFor(customerId, Some(compliance), now)) {
      ListedTaskStatus(customerId, compliance, now, "high", t);
    }
    if t in MediumTasks(RoadmapFor(customerId, Some(compliance), now)) {
      ListedTaskStatus(customerId, compliance, now, "medium", t);
    }
  }

  /** "Gaps to address": `totalControls - compliantControls`. */
  function GapsToAddress(c: ComplianceStatus): int
  {
    c.totalControls - c.compliantControls
  }

  /** For a calculated result, the gap count is the number of controls
      that are not compliant. */
  lemma GapsToAddressCountsOpenControls(customerId: string, statuses: seq<ControlStatus>, now: int)
    ensures GapsToAddress(Aggregate(customerId, statuses, now)) == |Filter(statuses, Complement(IsCompliant()))|
    ensures GapsToAddress(Aggregate(customerId, statuses, now)) >= 0
  {
    FilterComplementCounts(statuses, IsCompliant());
  }

  /** The family a status is listed under: its control's family, found by
      id among the designation's controls, or 'Unknown' when there is no
      such control or its family is the empty string (`||` treats "" as
      falsy). */
  function FamilyOf(controls: seq<Control>): ControlStatus -> string
  {
    (s: ControlStatus) =>
      var control := Find(controls, (c: Control) => c.id == s.controlId);
      if control.Some? && control.value.family != "" then control.value.family else UNKNOWN_FAMILY
  }

  /** The `reduce` that groups the control statuses by family. */
  function FamilyBreakdown(c: ComplianceStatus, controls: seq<Control>): (d: Dict<string, seq<ControlStatus>>)
    ensures d.Valid()
  {
    GroupBy(c.controlStatuses, FamilyOf(controls))
  }

  /** `compliantCount`. */
  function CompliantCount(group: seq<ControlStatus>): (n: nat)
    ensures n <= |group|
  {
    |Filter(group, IsCompliant())|
  }

  /** `Math.round(familyScore)`: the rounded mean score of the group. */
  function FamilyScore(group: seq<ControlStatus>): nat
    requires |group| > 0
  {
    RoundDiv(Sum(group, ScoreOf()), |group|)
  }

  /** The grouping is a partition: a family has a group iff some status
      belongs to it; the group holds exactly the statuses of that family,
      in report order, and is never empty; every status is in the group of
      its own family. */
  lemma FamilyBreakdownPartition(c: ComplianceStatus, controls: seq<Control>, family: string)
    ensures var d := FamilyBreakdown(c, controls);
      (family in d.vals <==> exists i :: 0 <= i < |c.controlStatuses| && FamilyOf(controls)(c.controlStatuses[i]) == family) &&
      (family in d.vals ==>
         d.vals[family] == Filter(c.controlStatuses, KeyIs(FamilyOf(controls), family)) &&
         |d.vals[family]| > 0 &&
         forall s :: s in d.vals[family] ==> FamilyOf(controls)(s) == family)
    ensures forall i :: 0 <= i < |c.controlStatuses| ==>
              var f := FamilyOf(controls)(c.controlStatuses[i]);
              f in FamilyBreakdown(c, controls).vals && c.controlStatuses[i] in FamilyBreakdown(c, controls).vals[f]
  {
    var statuses, key := c.controlStatuses, FamilyOf(controls);
    GroupByDomain(statuses, key, family);
    if family in GroupBy(statuses, key).vals {
      GroupByGroup(statuses, key, family);
      var i :| 0 <= i < |statuses| && key(statuses[i]) == family;
      FilterMember(statuses, KeyIs(key, family), statuses[i]);
      forall s | s in GroupBy(statuses, key).vals[family] ensures key(s) == family {
        FilterMember(statuses, KeyIs(key, family), s);
      }
    }
    forall i | 0 <= i < |statuses|
      ensures key(statuses[i]) in GroupBy(statuses, key).vals && statuses[i] in GroupBy(statuses, key).vals[key(statuses[i])]
    {
      GroupByDomain(statuses, key, key(statuses[i]));
      GroupByGroup(statuses, key, key(statuses[i]));
      FilterMember(statuses, KeyIs(key, key(statuses[i])), statuses[i]);
    }
  }

  /** A status of one of the designation's controls is listed under that
      control's family (the first control with its id), or under 'Unknown'
      when that family is empty. */
  lemma KnownControlFamily(controls: seq<Control>, s: ControlStatus, i: nat)
    requires i < |controls| && controls[i].id == s.controlId
    requires forall j :: 0 <= j < i ==> controls[j].id != s.controlId
    ensures FamilyOf(controls)(s) == if controls[i].family != "" then controls[i].family else UNKNOWN_FAMILY
  {
    var p := (c: Control) => c.id == s.controlId;
    var k := FindIndex(controls, p);
    assert p(controls[i]);
  }

  /** A status whose control is not among the designation's controls is
      listed under 'Unknown'. */
  lemma UnlistedControlFamily(controls: seq<Control>, s: ControlStatus)
    requires forall j :: 0 <= j < |controls| ==> controls[j].id != s.controlId
    ensures FamilyOf(controls)(s) == UNKNOWN_FAMILY
  {
    var p := (c: Control) => c.id == s.controlId;
    assert Find(controls, p).None?;
  }

  /** The family figures: no more compliant statuses than statuses, and a
      family score of at most 100 when every score is at most 100, which
      holds for every calculated result. */
  lemma FamilyFigures(designation: Designation, assessments: seq<Assessment>, customerId: string, now: int,
                      family: string)
    requires ResponsesValid(assessments)
    requires CalculateComplianceStatus(Some(designation), assessments, customerId, now).Some?
    ensures var c := CalculateComplianceStatus(Some(designation), assessments, customerId, now).value;
      var d := FamilyBreakdown(c, designation.applicableControls);
      family in d.vals ==>
        |d.vals[family]| > 0 &&
        CompliantCount(d.vals[family]) <= |d.vals[family]| &&
        FamilyScore(d.vals[family]) <= 100
  {
    var c := CalculateComplianceStatus(Some(designation), assessments, customerId, now).value;
    var controls := designation.applicableControls;
    var d := FamilyBreakdown(c, controls);
    StatusScoresCapped(designation, assessments, customerId, now);
    FamilyBreakdownPartition(c, controls, family);
    if family in d.vals {
      var group := d.vals[family];
      forall i | 0 <= i < |group| ensures group[i].score <= 100 {
        assert group[i] in c.controlStatuses;
      }
      SumBound(group, ScoreOf(), 100);
      var r := FamilyScore(group);
      assert 2 * |group| * r < 2 * |group| * 101;
      MulCancel(2 * |group|, r, 101);
    }
  }

  /** Every calculated control score is at most 100. */
  lemma StatusScoresCapped(designation: Designation, assessments: seq<Assessment>, customerId: string, now: int)
    requires ResponsesValid(assessments)
    requires CalculateComplianceStatus(Some(designation), assessments, customerId, now).Some?
    ensures var c := CalculateComplianceStatus(Some(designation), assessments, customerId, now).value;
      forall s :: s in c.controlStatuses ==> s.score <= 100
  {
    ComplianceShape(Some(designation), assessments, customerId, now);
    var i :| 0 <= i < |assessments| && assessments[i].customerId == customerId;
    ComplianceUsesLatest(designation, assessments, customerId, now);
    var latest := Latest(Filter(assessments, OfCustomer(customerId)));
    var statuses := ControlStatuses(designation.applicableControls, latest.responses);
    forall k | 0 <= k < |statuses| ensures statuses[k].score <= 100 {
      ControlStatusCases(designation.applicableControls[k], latest.responses);
    }
  }
}
