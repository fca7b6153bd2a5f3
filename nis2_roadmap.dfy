/** The remediation roadmap (`generateComplianceRoadmap`): one task per
    suggestion of every gap of every control that is not compliant, due
    one week apart, of which the first twenty are kept. */
module Nis2Roadmap {
  import opened Common
  import opened Text
  import opened Nis2Scoring
  import opened Nis2Compliance

  /** One week in milliseconds. */
  const WEEK_MS: int := 7 * 24 * 60 * 60 * 1000

  /** `tasks.slice(0, 20)`. */
  const MAX_TASKS: nat := 20

  datatype RoadmapTask = RoadmapTask(
    id: string,
    title: string,
    description: string,
    controlId: string,
    priority: string,
    effort: string,
    assignedRole: string,
    status: string,
    dependencies: seq<string>,
    dueDate: int)

  datatype Roadmap = Roadmap(customerId: string, tasks: seq<RoadmapTask>, generatedAt: int)

  /** What one push into `tasks` is made from: the indices of the control,
      gap and suggestion, and the values read from them. */
  datatype Emission = Emission(
    controlIndex: nat,
    gapIndex: nat,
    suggestionIndex: nat,
    suggestion: string,
    reason: string,
    controlId: string,
    nonCompliant: bool)

  /** The pushes for suggestions `from..` of gap `gi` of control `ci`. */
  function SuggestionEmissions(cs: ControlStatus, ci: nat, gi: nat, from: nat): (r: seq<Emission>)
    requires gi < |cs.gaps| && from <= |cs.gaps[gi].suggestions|
    ensures |r| == |cs.gaps[gi].suggestions| - from
    decreases |cs.gaps[gi].suggestions| - from
  {
    var gap := cs.gaps[gi];
    if from == |gap.suggestions| then []
    else
      [Emission(ci, gi, from, gap.suggestions[from], gap.reason, cs.controlId, cs.status == NonCompliant)] +
      SuggestionEmissions(cs, ci, gi, from + 1)
  }

  /** The pushes for gaps `from..` of control `ci`. */
  function GapEmissions(cs: ControlStatus, ci: nat, from: nat): seq<Emission>
    requires from <= |cs.gaps|
    decreases |cs.gaps| - from
  {
    if from == |cs.gaps| then []
    else SuggestionEmissions(cs, ci, from, 0) + GapEmissions(cs, ci, from + 1)
  }

  /** The pushes for control `ci`: none when it is compliant. */
  function ControlEmissions(cs: ControlStatus, ci: nat): seq<Emission>
  {
    if cs.status == Compliant then [] else GapEmissions(cs, ci, 0)
  }

  /** The pushes for controls `from..`, in order. */
  function Emissions(statuses: seq<ControlStatus>, from: nat): seq<Emission>
    requires from <= |statuses|
    decreases |statuses| - from
  {
    if from == |statuses| then []
    else ControlEmissions(statuses[from], from) + Emissions(statuses, from + 1)
  }

  /** `task-${index}-${gapIndex}-${suggestionIndex}`. */
  function TaskId(ci: nat, gi: nat, si: nat): string
  {
    "task-" + (NatToString(ci) + "-" + (NatToString(gi) + "-" + NatToString(si)))
  }

  /** The task pushed for emission `e` when the counter `taskPriority` is
      `k`. */
  function TaskOf(e: Emission, k: nat, now: int): RoadmapTask
  {
    RoadmapTask(
      TaskId(e.controlIndex, e.gapIndex, e.suggestionIndex),
      e.suggestion,
      "Address gap: " + e.reason,
      e.controlId,
      if e.nonCompliant then "high" else "medium",
      "medium",
      "CISO",
      "pending",
      [],
      now + Weeks(k))
  }

  /** `k * 7 * 24 * 60 * 60 * 1000`. */
  function Weeks(k: nat): (ms: int)
    ensures ms >= 0
  {
    k * WEEK_MS
  }

  lemma WeeksStep(k: nat)
    ensures Weeks(k + 1) == Weeks(k) + WEEK_MS
  {
  }

  /** The tasks for a list of emissions, the counter starting at 1. */
  function TasksOf(es: seq<Emission>, now: int): (r: seq<RoadmapTask>)
    ensures |r| == |es|
    ensures forall i :: 0 <= i < |es| ==> r[i] == TaskOf(es[i], i + 1, now)
  {
    if es == [] then []
    else TasksOf(es[..|es| - 1], now) + [TaskOf(es[|es| - 1], |es|, now)]
  }

  /** The roadmap `generateComplianceRoadmap` returns for a compliance
      status (`None` for `null`). */
  function RoadmapFor(customerId: string, compliance: Option<ComplianceStatus>, now: int): Option<Roadmap>
  {
    if compliance.None? then None
    else Some(Roadmap(customerId,
      Take(TasksOf(Emissions(compliance.value.controlStatuses, 0), now), MAX_TASKS), now))
  }

  lemma TasksOfSnoc(es: seq<Emission>, e: Emission, now: int)
    ensures TasksOf(es + [e], now) == TasksOf(es, now) + [TaskOf(e, |es| + 1, now)]
  {
    assert (es + [e])[..|es|] == es;
  }

  /** Moving the next emission from `todo` to `done` keeps their
      concatenation and appends its task. */
  lemma PushStep(done: seq<Emission>, todo: seq<Emission>, all: seq<Emission>, e: Emission, now: int)
    requires done + todo == all && todo != [] && e == todo[0]
    ensures (done + [e]) + todo[1..] == all
    ensures TasksOf(done + [e], now) == TasksOf(done, now) + [TaskOf(e, |done| + 1, now)]
  {
    assert todo == [e] + todo[1..];
    TasksOfSnoc(done, e, now);
  }

  /** The pushes for one gap (`gap.suggestions.forEach`): one task per
      suggestion, each taking the next value of the counter. */
  method PushGapTasks(cs: ControlStatus, index: nat, gapIndex: nat, now: int,
                      tasks: seq<RoadmapTask>, taskPriority: nat, ghost done: seq<Emission>)
    returns (tasks': seq<RoadmapTask>, taskPriority': nat)
    requires gapIndex < |cs.gaps|
    requires tasks == TasksOf(done, now) && taskPriority == |done| + 1
    ensures tasks' == TasksOf(done + SuggestionEmissions(cs, index, gapIndex, 0), now)
    ensures taskPriority' == taskPriority + |cs.gaps[gapIndex].suggestions|
  {
    var gap := cs.gaps[gapIndex];
    tasks', taskPriority' := tasks, taskPriority;
    ghost var d := done;
    var suggestionIndex := 0;
    while suggestionIndex < |gap.suggestions|
      invariant 0 <= suggestionIndex <= |gap.suggestions|
      invariant d + SuggestionEmissions(cs, index, gapIndex, suggestionIndex)
                == done + SuggestionEmissions(cs, index, gapIndex, 0)
      invariant tasks' == TasksOf(d, now) && taskPriority' == |d| + 1
    {
      var suggestion := gap.suggestions[suggestionIndex];
      var e := Emission(index, gapIndex, suggestionIndex, suggestion, gap.reason,
        cs.controlId, cs.status == NonCompliant);
      tasks' := tasks' + [TaskOf(e, taskPriority', now)];
      PushStep(d, SuggestionEmissions(cs, index, gapIndex, suggestionIndex),
        done + SuggestionEmissions(cs, index, gapIndex, 0), e, now);
      d := d + [e];
      taskPriority' := taskPriority' + 1;
      suggestionIndex := suggestionIndex + 1;
    }
  }

  /** Finishing gap `gi` moves its suggestions' pushes to those done. */
  lemma GapStep(cs: ControlStatus, ci: nat, gi: nat, d: seq<Emission>)
    requires gi < |cs.gaps|
    ensures d + GapEmissions(cs, ci, gi) == (d + SuggestionEmissions(cs, ci, gi, 0)) + GapEmissions(cs, ci, gi + 1)
  {
    var a, b := SuggestionEmissions(cs, ci, gi, 0), GapEmissions(cs, ci, gi + 1);
    calc {
      d + GapEmissions(cs, ci, gi);
      d + (a + b);
      (d + a) + b;
    }
  }

  /** The pushes for one control that is not compliant
      (`controlStatus.gaps.forEach`). */
  method PushControlTasks(cs: ControlStatus, index: nat, now: int,
                          tasks: seq<RoadmapTask>, taskPriority: nat, ghost done: seq<Emission>)
    returns (tasks': seq<RoadmapTask>, taskPriority': nat)
    requires tasks == TasksOf(done, now) && taskPriority == |done| + 1
    ensures tasks' == TasksOf(done + GapEmissions(cs, index, 0), now)
    ensures taskPriority' == |done + GapEmissions(cs, index, 0)| + 1
  {
    tasks', taskPriority' := tasks, taskPriority;
    ghost var d := done;
    var gapIndex := 0;
    while gapIndex < |cs.gaps|
      invariant 0 <= gapIndex <= |cs.gaps|
      invariant d + GapEmissions(cs, index, gapIndex) == done + GapEmissions(cs, index, 0)
      invariant tasks' == TasksOf(d, now) && taskPriority' == |d| + 1
    {
      tasks', taskPriority' := PushGapTasks(cs, index, gapIndex, now, tasks', taskPriority', d);
      GapStep(cs, index, gapIndex, d);
      d := d + SuggestionEmissions(cs, index, gapIndex, 0);
      gapIndex := gapIndex + 1;
    }
  }

  /** `generateComplianceRoadmap`, given the compliance status it computes
      first: a loop over the control statuses that pushes the tasks of every
      control that is not compliant, then keeps the first twenty. */
  method GenerateComplianceRoadmap(customerId: string, compliance: Option<ComplianceStatus>, now: int)
    returns (r: Option<Roadmap>)
    ensures r == RoadmapFor(customerId, compliance, now)
  {
    if compliance.None? {
      return None;
    }
    var statuses := compliance.value.controlStatuses;
    var tasks: seq<RoadmapTask> := [];
    var taskPriority: nat := 1;
    ghost var done: seq<Emission> := [];
    var index := 0;
    while index < |statuses|
      invariant 0 <= index <= |statuses|
      invariant done + Emissions(statuses, index) == Emissions(statuses, 0)
      invariant tasks == TasksOf(done, now) && taskPriority == |done| + 1
    {
      var controlStatus := statuses[index];
      ghost var c := ControlEmissions(controlStatus, index);
      assert done + Emissions(statuses, index) == (done + c) + Emissions(statuses, index + 1);
      if controlStatus.status != Compliant {
        tasks, taskPriority := PushControlTasks(controlStatus, index, now, tasks, taskPriority, done);
      } else {
        assert done + c == done;
      }
      done := done + c;
      index := index + 1;
    }
    assert done == Emissions(statuses, 0);
    return Some(Roadmap(customerId, Take(tasks, MAX_TASKS), now));
  }

  /** The roadmap is null exactly when the compliance status is; otherwise
      it holds the first (at most twenty) generated tasks, in generation
      order. */
  lemma RoadmapIsFirstTwenty(customerId: string, compliance: Option<ComplianceStatus>, now: int)
    ensures var r := RoadmapFor(customerId, compliance, now);
      (r.None? <==> compliance.None?) &&
      (r.Some? ==>
         var all := TasksOf(Emissions(compliance.value.controlStatuses, 0), now);
         |r.value.tasks| == (if |all| < MAX_TASKS then |all| else MAX_TASKS) &&
         r.value.tasks <= all)
  {
  }

  /** The k-th task (from 0) is due k + 1 weeks after `now`, so due dates
      are exactly one week apart. */
  lemma DueDatesWeekly(customerId: string, compliance: Option<ComplianceStatus>, now: int)
    requires compliance.Some?
    ensures var ts := RoadmapFor(customerId, compliance, now).value.tasks;
      (forall k :: 0 <= k < |ts| ==> ts[k].dueDate == now + Weeks(k + 1)) &&
      (forall k :: 0 < k < |ts| ==> ts[k].dueDate == ts[k - 1].dueDate + WEEK_MS)
  {
    var ts := RoadmapFor(customerId, compliance, now).value.tasks;
    forall k | 0 < k < |ts| ensures ts[k].dueDate == ts[k - 1].dueDate + WEEK_MS {
      WeeksStep(k);
    }
  }

  /** Every emission comes from a control that is not compliant, carries
      that control's id, and is high priority iff the control is
      non-compliant (so a `NotAssessed` control yields medium tasks). */
  lemma {:induction false} EmissionsFromOpenControls(statuses: seq<ControlStatus>, from: nat, k: nat)
    requires from <= |statuses| && k < |Emissions(statuses, from)|
    ensures var e := Emissions(statuses, from)[k];
      from <= e.controlIndex < |statuses| &&
      statuses[e.controlIndex].status != Compliant &&
      e.controlId == statuses[e.controlIndex].controlId &&
      (e.nonCompliant <==> statuses[e.controlIndex].status == NonCompliant) &&
      e.gapIndex < |statuses[e.controlIndex].gaps| &&
      e.suggestionIndex < |statuses[e.controlIndex].gaps[e.gapIndex].suggestions| &&
      e.suggestion == statuses[e.controlIndex].gaps[e.gapIndex].suggestions[e.suggestionIndex] &&
      e.reason == statuses[e.controlIndex].gaps[e.gapIndex].reason
    decreases |statuses| - from
  {
    var head := ControlEmissions(statuses[from], from);
    if k < |head| {
      GapEmissionsFields(statuses[from], from, 0, k);
    } else {
      EmissionsFromOpenControls(statuses, from + 1, k - |head|);
    }
  }

  lemma {:induction false} GapEmissionsFields(cs: ControlStatus, ci: nat, from: nat, k: nat)
    requires from <= |cs.gaps| && k < |GapEmissions(cs, ci, from)|
    ensures var e := GapEmissions(cs, ci, from)[k];
      e.controlIndex == ci && e.controlId == cs.controlId &&
      (e.nonCompliant <==> cs.status == NonCompliant) &&
      from <= e.gapIndex < |cs.gaps| &&
      e.suggestionIndex < |cs.gaps[e.gapIndex].suggestions| &&
      e.suggestion == cs.gaps[e.gapIndex].suggestions[e.suggestionIndex] &&
      e.reason == cs.gaps[e.gapIndex].reason
    decreases |cs.gaps| - from
  {
    var head := SuggestionEmissions(cs, ci, from, 0);
    if k < |head| {
      SuggestionEmissionsFields(cs, ci, from, 0, k);
    } else {
      GapEmissionsFields(cs, ci, from + 1, k - |head|);
    }
  }

  lemma {:induction false} SuggestionEmissionsFields(cs: ControlStatus, ci: nat, gi: nat, from: nat, k: nat)
    requires gi < |cs.gaps| && from <= |cs.gaps[gi].suggestions|
    requires k < |SuggestionEmissions(cs, ci, gi, from)|
    ensures var e := SuggestionEmissions(cs, ci, gi, from)[k];
      e == Emission(ci, gi, from + k, cs.gaps[gi].suggestions[from + k], cs.gaps[gi].reason,
                    cs.controlId, cs.status == NonCompliant)
    decreases |cs.gaps[gi].suggestions| - from
  {
    if k > 0 {
      SuggestionEmissionsFields(cs, ci, gi, from + 1, k - 1);
    }
  }

  /** When every control is compliant the roadmap has no tasks. */
  lemma {:induction false} AllCompliantNoTasks(statuses: seq<ControlStatus>, from: nat)
    requires from <= |statuses|
    requires forall i :: 0 <= i < |statuses| ==> statuses[i].status == Compliant
    ensures Emissions(statuses, from) == []
    decreases |statuses| - from
  {
    if from < |statuses| {
      AllCompliantNoTasks(statuses, from + 1);
    }
  }

  /** Each task's priority is 'high' iff its control is non-compliant, and
      it names that control. */
  lemma TaskPriorities(customerId: string, compliance: ComplianceStatus, now: int, k: nat)
    requires k < |RoadmapFor(customerId, Some(compliance), now).value.tasks|
    ensures var t := RoadmapFor(customerId, Some(compliance), now).value.tasks[k];
      var es := Emissions(compliance.controlStatuses, 0);
      k < |es| && es[k].controlIndex < |compliance.controlStatuses| &&
      var e := es[k];
      t.controlId == compliance.controlStatuses[e.controlIndex].controlId &&
      compliance.controlStatuses[e.controlIndex].status != Compliant &&
      (t.priority == "high" <==> compliance.controlStatuses[e.controlIndex].status == NonCompliant) &&
      t.status == "pending" && t.assignedRole == "CISO"
  {
    EmissionsFromOpenControls(compliance.controlStatuses, 0, k);
  }

  /** The traversal order of the loops: by control, then gap, then
      suggestion. */
  predicate Before(e1: Emission, e2: Emission)
  {
    e1.controlIndex < e2.controlIndex ||
    (e1.controlIndex == e2.controlIndex &&
      (e1.gapIndex < e2.gapIndex ||
       (e1.gapIndex == e2.gapIndex && e1.suggestionIndex < e2.suggestionIndex)))
  }

  predicate Ordered(es: seq<Emission>)
  {
    forall i, j :: 0 <= i < j < |es| ==> Before(es[i], es[j])
  }

  lemma OrderedConcat(a: seq<Emission>, b: seq<Emission>)
    requires Ordered(a) && Ordered(b)
    requires forall i, j :: 0 <= i < |a| && 0 <= j < |b| ==> Before(a[i], b[j])
    ensures Ordered(a + b)
  {
    var ab := a + b;
    forall i, j | 0 <= i < j < |ab| ensures Before(ab[i], ab[j]) {
      if j < |a| {
        assert ab[i] == a[i] && ab[j] == a[j];
      } else if i < |a| {
        assert ab[i] == a[i] && ab[j] == b[j - |a|];
      } else {
        assert ab[i] == b[i - |a|] && ab[j] == b[j - |a|];
      }
    }
  }

  lemma SuggestionEmissionsOrdered(cs: ControlStatus, ci: nat, gi: nat, from: nat)
    requires gi < |cs.gaps| && from <= |cs.gaps[gi].suggestions|
    ensures Ordered(SuggestionEmissions(cs, ci, gi, from))
  {
    var es := SuggestionEmissions(cs, ci, gi, from);
    forall i, j | 0 <= i < j < |es| ensures Before(es[i], es[j]) {
      SuggestionEmissionsFields(cs, ci, gi, from, i);
      SuggestionEmissionsFields(cs, ci, gi, from, j);
    }
  }

  lemma {:induction false} GapEmissionsOrdered(cs: ControlStatus, ci: nat, from: nat)
    requires from <= |cs.gaps|
    ensures Ordered(GapEmissions(cs, ci, from))
    decreases |cs.gaps| - from
  {
    if from < |cs.gaps| {
      var a, b := SuggestionEmissions(cs, ci, from, 0), GapEmissions(cs, ci, from + 1);
      SuggestionEmissionsOrdered(cs, ci, from, 0);
      GapEmissionsOrdered(cs, ci, from + 1);
      forall i, j | 0 <= i < |a| && 0 <= j < |b| ensures Before(a[i], b[j]) {
        SuggestionEmissionsFields(cs, ci, from, 0, i);
        GapEmissionsFields(cs, ci, from + 1, j);
      }
      OrderedConcat(a, b);
    }
  }

  lemma {:induction false} EmissionsOrdered(statuses: seq<ControlStatus>, from: nat)
    requires from <= |statuses|
    ensures Ordered(Emissions(statuses, from))
    decreases |statuses| - from
  {
    if from < |statuses| {
      var a, b := ControlEmissions(statuses[from], from), Emissions(statuses, from + 1);
      if statuses[from].status != Compliant {
        GapEmissionsOrdered(statuses[from], from, 0);
      }
      EmissionsOrdered(statuses, from + 1);
      forall i, j | 0 <= i < |a| && 0 <= j < |b| ensures Before(a[i], b[j]) {
        GapEmissionsFields(statuses[from], from, 0, i);
        EmissionsFromOpenControls(statuses, from + 1, j);
      }
      OrderedConcat(a, b);
    }
  }

  /** Task ids name their control, gap and suggestion indices unambiguously. */
  lemma TaskIdInjective(ci: nat, gi: nat, si: nat, ci2: nat, gi2: nat, si2: nat)
    requires TaskId(ci, gi, si) == TaskId(ci2, gi2, si2)
    ensures ci == ci2 && gi == gi2 && si == si2
  {
    var t1 := NatToString(ci) + "-" + (NatToString(gi) + "-" + NatToString(si));
    var t2 := NatToString(ci2) + "-" + (NatToString(gi2) + "-" + NatToString(si2));
    assert t1 == TaskId(ci, gi, si)[5..];
    assert t2 == TaskId(ci2, gi2, si2)[5..];
    NumberPrefixUnique(ci, ci2, '-', NatToString(gi) + "-" + NatToString(si), NatToString(gi2) + "-" + NatToString(si2));
    NumberPrefixUnique(gi, gi2, '-', NatToString(si), NatToString(si2));
    if si != si2 {
      NatToStringInjective(si, si2);
    }
  }

  /** No two tasks of a roadmap share an id, so a status recorded against
      a task id refers to exactly one task. */
  lemma TaskIdsDistinct(customerId: string, compliance: ComplianceStatus, now: int)
    ensures var ts := RoadmapFor(customerId, Some(compliance), now).value.tasks;
      forall i, j :: 0 <= i < j < |ts| ==> ts[i].id != ts[j].id
  {
    var es := Emissions(compliance.controlStatuses, 0);
    var ts := RoadmapFor(customerId, Some(compliance), now).value.tasks;
    EmissionsOrdered(compliance.controlStatuses, 0);
    forall i, j | 0 <= i < j < |ts| ensures ts[i].id != ts[j].id {
      assert ts[i] == TaskOf(es[i], i + 1, now) && ts[j] == TaskOf(es[j], j + 1, now);
      assert Before(es[i], es[j]);
      if ts[i].id == ts[j].id {
        TaskIdInjective(es[i].controlIndex, es[i].gapIndex, es[i].suggestionIndex,
                        es[j].controlIndex, es[j].gapIndex, es[j].suggestionIndex);
      }
    }
  }
}
