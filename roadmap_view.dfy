/** The roadmap page (`ComplianceRoadmap`): the generated roadmap, the
    task statuses the user sets on it (kept beside the roadmap, keyed by
    task id), the priority and status filters, the Start / Complete /
    Reopen buttons and the progress figure. */
module RoadmapView {
  import opened Common
  import opened Dicts
  import opened Nis2Compliance
  import opened Nis2Roadmap
  import opened Nis2Store

  const PENDING := "pending"
  const IN_PROGRESS_TASK := "in_progress"
  const COMPLETED := "completed"
  /** The filter value that lets everything through. */
  const ALL := "all"

  /** `taskStatuses[task.id] || task.status`: the status the user set,
      unless there is none or it is the empty string. */
  function CurrentStatus(overrides: Dict<string, string>, t: RoadmapTask): string
  {
    if t.id in overrides.vals && overrides.vals[t.id] != "" then overrides.vals[t.id] else t.status
  }

  /** The filter test: the priority filter and the status filter each
      match everything when set to 'all'. */
  function Shows(overrides: Dict<string, string>, filterPriority: string, filterStatus: string): RoadmapTask -> bool
  {
    (t: RoadmapTask) => (filterPriority == ALL || t.priority == filterPriority) &&
         (filterStatus == ALL || CurrentStatus(overrides, t) == filterStatus)
  }

  /** `filteredTasks`. */
  function FilteredTasks(tasks: seq<RoadmapTask>, overrides: Dict<string, string>,
                         filterPriority: string, filterStatus: string): seq<RoadmapTask>
  {
    Filter(tasks, Shows(overrides, filterPriority, filterStatus))
  }

  /** The status a task's button moves it to: Start, Complete, Reopen;
      a task in any other status has no button. */
  function NextStatus(status: string): (next: Option<string>)
    ensures next.Some? <==> status in {PENDING, IN_PROGRESS_TASK, COMPLETED}
    ensures next.Some? ==> next.value in {PENDING, IN_PROGRESS_TASK, COMPLETED} && next.value != status
  {
    if status == PENDING then Some(IN_PROGRESS_TASK)
    else if status == IN_PROGRESS_TASK then Some(COMPLETED)
    else if status == COMPLETED then Some(PENDING)
    else None
  }

  /** `completedTasks`: the stored statuses equal to 'completed'. */
  function CompletedCount(overrides: Dict<string, string>): (n: nat)
    requires overrides.Valid()
    ensures n <= |overrides.keys|
  {
    |Filter(overrides.Values(), s => s == COMPLETED)|
  }

  /** `progressPercentage`: completed statuses over the number of tasks,
      rounded, 0 without tasks. */
  function ProgressPercentage(tasks: seq<RoadmapTask>, overrides: Dict<string, string>): nat
    requires overrides.Valid()
  {
    Percent(CompletedCount(overrides), |tasks|)
  }

  function TaskIdOf(): RoadmapTask -> string
  {
    (t: RoadmapTask) => t.id
  }

  /** Every stored status belongs to a task of the roadmap (what the
      buttons, which only ever pass a shown task's id, maintain). */
  predicate OverridesOnTasks(overrides: Dict<string, string>, tasks: seq<RoadmapTask>)
  {
    forall k :: k in overrides.vals ==> exists i :: 0 <= i < |tasks| && tasks[i].id == k
  }

  /** A task is shown iff it is on the roadmap and passes both filters;
      the shown tasks keep the roadmap's order; 'all'/'all' shows the
      whole roadmap. */
  lemma FilteredTasksMembers(tasks: seq<RoadmapTask>, overrides: Dict<string, string>,
                             filterPriority: string, filterStatus: string, t: RoadmapTask)
    ensures t in FilteredTasks(tasks, overrides, filterPriority, filterStatus) <==>
              t in tasks && (filterPriority == ALL || t.priority == filterPriority) &&
              (filterStatus == ALL || CurrentStatus(overrides, t) == filterStatus)
    ensures IsSubseq(FilteredTasks(tasks, overrides, filterPriority, filterStatus), tasks)
    ensures FilteredTasks(tasks, overrides, ALL, ALL) == tasks
  {
    FilterMember(tasks, Shows(overrides, filterPriority, filterStatus), t);
    FilterIsSubseq(tasks, Shows(overrides, filterPriority, filterStatus));
    FilterAll(tasks, Shows(overrides, ALL, ALL));
  }

  /** The buttons cycle pending, in progress, completed and back. */
  lemma StatusCycle(status: string)
    requires status in {PENDING, IN_PROGRESS_TASK, COMPLETED}
    ensures NextStatus(NextStatus(NextStatus(status).value).value).value == status
  {
  }

  /** Setting a non-empty status for one id makes it that task's current
      status and leaves every other task's current status as it was. */
  lemma SetStatusAffectsOnlyThatTask(overrides: Dict<string, string>, taskId: string, status: string, t: RoadmapTask)
    requires status != ""
    ensures t.id == taskId ==> CurrentStatus(overrides.Put(taskId, status), t) == status
    ensures t.id != taskId ==> CurrentStatus(overrides.Put(taskId, status), t) == CurrentStatus(overrides, t)
  {
  }

  /** A stored key as it is compared with task ids. */
  function KeyOf(): string -> string
  {
    (k: string) => k
  }

  /** The ids stored are ids of tasks. */
  lemma KeysWithinTaskIds(tasks: seq<RoadmapTask>, overrides: Dict<string, string>)
    requires overrides.Valid() && OverridesOnTasks(overrides, tasks)
    ensures Image(overrides.keys, KeyOf()) <= Image(tasks, TaskIdOf())
  {
    forall k | k in Image(overrides.keys, KeyOf()) ensures k in Image(tasks, TaskIdOf()) {
      var i :| 0 <= i < |overrides.keys| && overrides.keys[i] == k;
      var j :| 0 <= j < |tasks| && tasks[j].id == k;
      assert TaskIdOf()(tasks[j]) == k;
    }
  }

  /** Every task id is stored. */
  lemma TaskIdsWithinKeys(tasks: seq<RoadmapTask>, overrides: Dict<string, string>)
    requires overrides.Valid()
    requires forall i :: 0 <= i < |tasks| ==> tasks[i].id in overrides.vals
    ensures Image(tasks, TaskIdOf()) <= Image(overrides.keys, KeyOf())
  {
    forall k | k in Image(tasks, TaskIdOf()) ensures k in Image(overrides.keys, KeyOf()) {
      var i :| 0 <= i < |overrides.keys| && overrides.keys[i] == k;
      assert KeyOf()(overrides.keys[i]) == k;
    }
  }

  /** The progress figure stays within 100% while every stored status
      belongs to a task of the roadmap. */
  lemma ProgressAtMostHundred(tasks: seq<RoadmapTask>, overrides: Dict<string, string>)
    requires overrides.Valid() && OverridesOnTasks(overrides, tasks)
    ensures ProgressPercentage(tasks, overrides) <= 100
  {
    KeysWithinTaskIds(tasks, overrides);
    DistinctImageCard(overrides.keys, KeyOf());
    SubsetCard(Image(overrides.keys, KeyOf()), Image(tasks, TaskIdOf()));
    ImageCard(tasks, TaskIdOf());
  }

  /** With distinct task ids and every task marked completed, the
      progress figure is 100%. */
  lemma AllCompletedIsHundred(tasks: seq<RoadmapTask>, overrides: Dict<string, string>)
    requires overrides.Valid() && OverridesOnTasks(overrides, tasks) && |tasks| > 0
    requires forall i, j :: 0 <= i < j < |tasks| ==> tasks[i].id != tasks[j].id
    requires forall i :: 0 <= i < |tasks| ==> tasks[i].id in overrides.vals && overrides.vals[tasks[i].id] == COMPLETED
    ensures ProgressPercentage(tasks, overrides) == 100
  {
    AllStoredCompleted(tasks, overrides);
    StoredKeysCount(tasks, overrides);
  }

  /** Every stored status is 'completed' when every task is. */
  lemma AllStoredCompleted(tasks: seq<RoadmapTask>, overrides: Dict<string, string>)
    requires overrides.Valid() && OverridesOnTasks(overrides, tasks)
    requires forall i :: 0 <= i < |tasks| ==> tasks[i].id in overrides.vals && overrides.vals[tasks[i].id] == COMPLETED
    ensures CompletedCount(overrides) == |overrides.keys|
  {
    var vs := overrides.Values();
    forall i | 0 <= i < |vs| ensures vs[i] == COMPLETED {
      var k := overrides.keys[i];
      assert k in overrides.vals;
      var j :| 0 <= j < |tasks| && tasks[j].id == k;
      assert vs[i] == overrides.vals[tasks[j].id];
    }
    FilterAll(vs, s => s == COMPLETED);
  }

  /** With distinct task ids, all of them stored, there are as many
      stored ids as tasks. */
  lemma StoredKeysCount(tasks: seq<RoadmapTask>, overrides: Dict<string, string>)
    requires overrides.Valid() && OverridesOnTasks(overrides, tasks)
    requires forall i, j :: 0 <= i < j < |tasks| ==> tasks[i].id != tasks[j].id
    requires forall i :: 0 <= i < |tasks| ==> tasks[i].id in overrides.vals
    ensures |overrides.keys| == |tasks|
  {
    KeysWithinTaskIds(tasks, overrides);
    TaskIdsWithinKeys(tasks, overrides);
    StoredKeyImageCard(overrides);
    TaskIdImageCard(tasks);
    MutualSubsetCard(Image(overrides.keys, KeyOf()), Image(tasks, TaskIdOf()));
  }

  /** The stored ids are as many as the keys. */
  lemma StoredKeyImageCard(overrides: Dict<string, string>)
    requires overrides.Valid()
    ensures |Image(overrides.keys, KeyOf())| == |overrides.keys|
  {
    forall i, j | 0 <= i < j < |overrides.keys|
      ensures KeyOf()(overrides.keys[i]) != KeyOf()(overrides.keys[j])
    {
    }
    DistinctImageCard(overrides.keys, KeyOf());
  }

  /** Distinct task ids are as many as the tasks. */
  lemma TaskIdImageCard(tasks: seq<RoadmapTask>)
    requires forall i, j :: 0 <= i < j < |tasks| ==> tasks[i].id != tasks[j].id
    ensures |Image(tasks, TaskIdOf())| == |tasks|
  {
    forall i, j | 0 <= i < j < |tasks|
      ensures TaskIdOf()(tasks[i]) != TaskIdOf()(tasks[j])
    {
    }
    DistinctImageCard(tasks, TaskIdOf());
  }

  /** The page's state. */
  class RoadmapPanel {
    var roadmap: Option<Roadmap>
    var filterPriority: string
    var filterStatus: string
    var taskStatuses: Dict<string, string>

    ghost predicate Valid()
      reads this
    {
      taskStatuses.Valid()
    }

    constructor()
      ensures Valid() && roadmap.None? && taskStatuses.keys == []
      ensures filterPriority == ALL && filterStatus == ALL
    {
      roadmap := None;
      filterPriority := ALL;
      filterStatus := ALL;
      taskStatuses := Empty();
    }

    /** The effect: for a non-empty customer id, the roadmap generated
        from the store's current state; the stored statuses stay. */
    method Load(customerId: string, store: Nis2Store, now: int)
      requires Valid() && store.Valid()
      modifies this
      ensures Valid() && taskStatuses == old(taskStatuses)
      ensures filterPriority == old(filterPriority) && filterStatus == old(filterStatus)
      ensures roadmap == if customerId == "" then old(roadmap)
        else RoadmapFor(customerId,
          CalculateComplianceStatus(store.designations.Get(customerId), store.assessments.Values(), customerId, now), now)
    {
      if customerId != "" {
        roadmap := store.GenerateComplianceRoadmap(customerId, now);
      }
    }

    /** Whether the task list is shown rather than "No Roadmap Available". */
    predicate HasTasks()
      reads this
    {
      roadmap.Some? && |roadmap.value.tasks| > 0
    }

    /** The tasks listed on the page. */
    function Shown(): (shown: seq<RoadmapTask>)
      reads this
      ensures !HasTasks() ==> shown == []
      ensures HasTasks() ==> IsSubseq(shown, roadmap.value.tasks)
      ensures forall t :: t in shown ==>
                (filterPriority == ALL || t.priority == filterPriority) &&
                (filterStatus == ALL || CurrentStatus(taskStatuses, t) == filterStatus)
    {
      if HasTasks() then
        var shown := FilteredTasks(roadmap.value.tasks, taskStatuses, filterPriority, filterStatus);
        FilterIsSubseq(roadmap.value.tasks, Shows(taskStatuses, filterPriority, filterStatus));
        shown
      else []
    }

    /** `updateTaskStatus(taskId, status)`. */
    method UpdateTaskStatus(taskId: string, status: string)
      requires Valid()
      modifies this
      ensures Valid() && taskStatuses == old(taskStatuses).Put(taskId, status)
      ensures roadmap == old(roadmap)
      ensures filterPriority == old(filterPriority) && filterStatus == old(filterStatus)
    {
      PutValid(taskStatuses, taskId, status);
      taskStatuses := taskStatuses.Put(taskId, status);
    }

    /** A click on a listed task's button: the task moves to the next
        status of the cycle; a task whose status has no button is left. */
    method ClickTaskButton(t: RoadmapTask)
      requires Valid() && t in Shown()
      modifies this
      ensures Valid() && roadmap == old(roadmap)
      ensures filterPriority == old(filterPriority) && filterStatus == old(filterStatus)
      ensures OverridesOnTasks(old(taskStatuses), roadmap.value.tasks) ==>
                OverridesOnTasks(taskStatuses, roadmap.value.tasks)
      ensures var next := NextStatus(CurrentStatus(old(taskStatuses), t));
              taskStatuses == if next.Some? then old(taskStatuses).Put(t.id, next.value) else old(taskStatuses)
      ensures NextStatus(CurrentStatus(old(taskStatuses), t)).Some? ==>
                CurrentStatus(taskStatuses, t) == NextStatus(CurrentStatus(old(taskStatuses), t)).value
    {
      SubseqMember(Shown(), roadmap.value.tasks);
      var next := NextStatus(CurrentStatus(taskStatuses, t));
      if next.Some? {
        var i :| 0 <= i < |roadmap.value.tasks| && roadmap.value.tasks[i] == t;
        UpdateTaskStatus(t.id, next.value);
      }
    }

    /** The progress figure in the page header. */
    function Progress(): nat
      reads this
      requires Valid() && roadmap.Some?
    {
      ProgressPercentage(roadmap.value.tasks, taskStatuses)
    }
  }
}
