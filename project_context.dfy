/** Project tasks (`ProjectContext`): tasks, comments and dependencies by
    id; tasks generated from the compliance roadmap and from risk
    treatments; the per-task queries and the completion figure. Ids
    (`uuidv4()`) and the clock are parameters. */
module ProjectContext {
  import opened Common
  import opened Dicts
  import opened Sorting
  import opened Nis2Roadmap
  import opened RiskContext

  const TODO := "todo"
  const DONE := "completed"
  const FROM_COMPLIANCE := "compliance"
  const FROM_TREATMENT := "risk_treatment"
  const IMPLEMENT := "Implement: "
  const NO_ROADMAP := "Cannot read properties of null (reading 'tasks')"

  datatype ProjectTask = ProjectTask(
    id: string,
    customerId: string,
    title: string,
    description: string,
    status: string,
    priority: string,
    effort: Option<string>,
    assignedRole: Option<string>,
    dueDate: Option<int>,
    source: Option<string>,
    controlId: Option<string>,
    riskId: Option<string>,
    treatmentId: Option<string>,
    progress: nat,
    createdAt: int,
    updatedAt: int)

  /** The fields a caller passes to `addTask`; `status` and `progress`
      among them are overridden. */
  datatype TaskData = TaskData(
    title: string,
    description: string,
    priority: string,
    effort: Option<string>,
    assignedRole: Option<string>,
    dueDate: Option<int>,
    status: Option<string>,
    progress: Option<nat>)

  /** The fields an `updateTask` call sets. */
  datatype TaskUpdate = TaskUpdate(
    title: Option<string>,
    description: Option<string>,
    status: Option<string>,
    priority: Option<string>,
    progress: Option<nat>,
    dueDate: Option<int>)

  datatype Comment = Comment(id: string, taskId: string, userId: string, content: string, createdAt: int)

  datatype Dependency = Dependency(id: string, taskId: string, dependsOn: string, createdAt: int)

  /** The task generated from a roadmap task. */
  function ComplianceTask(customerId: string, rt: RoadmapTask, id: string, now: int): ProjectTask
  {
    ProjectTask(id, customerId, rt.title, rt.description, TODO, rt.priority, Some(rt.effort),
      Some(rt.assignedRole), Some(rt.dueDate), Some(FROM_COMPLIANCE), Some(rt.controlId), None, None, 0, now, now)
  }

  /** The task generated from a treatment of a risk: it carries over the
      treatment's effort, role and due date, unset where the treatment
      left them unset. */
  function TreatmentTask(customerId: string, risk: Risk, t: Treatment, id: string, now: int): ProjectTask
  {
    ProjectTask(id, customerId, IMPLEMENT + t.strategy + " - " + risk.title, t.description, TODO, "high",
      t.effort, t.assignedRole, t.dueDate, Some(FROM_TREATMENT), None, Some(risk.id), Some(t.id), 0, now, now)
  }

  /** A treatment task carries over the treatment's effort, role and due date. */
  predicate CarriesPlan(task: ProjectTask, t: Treatment)
  {
    task.effort == t.effort && task.assignedRole == t.assignedRole && task.dueDate == t.dueDate
  }

  /** The tasks of the roadmap, the k-th with the k-th generated id. */
  function ComplianceTasks(customerId: string, rts: seq<RoadmapTask>, idOf: nat -> string, now: int): (r: seq<ProjectTask>)
    ensures |r| == |rts|
  {
    seq(|rts|, i requires 0 <= i < |rts| => ComplianceTask(customerId, rts[i], idOf(i), now))
  }

  /** The tasks of one risk's treatments, numbered from `start`. */
  function EntryTasks(customerId: string, e: RegisterEntry, idOf: nat -> string, start: nat, now: int): (r: seq<ProjectTask>)
    ensures |r| == |e.treatments|
  {
    seq(|e.treatments|, j requires 0 <= j < |e.treatments| =>
          TreatmentTask(customerId, e.risk, e.treatments[j], idOf(start + j), now))
  }

  /** The tasks of the treatments of the register's risks, risk by risk;
      `base` ids were generated before. */
  function TreatmentTasks(customerId: string, register: seq<RegisterEntry>, idOf: nat -> string, base: nat, now: int)
    : seq<ProjectTask>
  {
    if register == [] then []
    else
      var prev := TreatmentTasks(customerId, register[..|register| - 1], idOf, base, now);
      prev + EntryTasks(customerId, register[|register| - 1], idOf, base + |prev|, now)
  }

  /** Everything `generateTasks` creates, in creation order. */
  function GeneratedTasks(customerId: string, rts: seq<RoadmapTask>, register: seq<RegisterEntry>,
                          idOf: nat -> string, now: int): seq<ProjectTask>
  {
    ComplianceTasks(customerId, rts, idOf, now) + TreatmentTasks(customerId, register, idOf, |rts|, now)
  }

  /** The number of treatments over the register. */
  function TreatmentCount(register: seq<RegisterEntry>): nat
  {
    if register == [] then 0
    else TreatmentCount(register[..|register| - 1]) + |register[|register| - 1].treatments|
  }

  /** Storing each task under its id, in order. */
  function PutAll(d: Dict<string, ProjectTask>, ts: seq<ProjectTask>): (e: Dict<string, ProjectTask>)
    ensures d.Valid() ==> e.Valid()
  {
    if ts == [] then d
    else
      var e := PutAll(d, ts[..|ts| - 1]);
      e.Put(ts[|ts| - 1].id, ts[|ts| - 1])
  }

  lemma PutAllSnoc(d: Dict<string, ProjectTask>, ts: seq<ProjectTask>, t: ProjectTask)
    ensures PutAll(d, ts + [t]) == PutAll(d, ts).Put(t.id, t)
  {
    assert (ts + [t])[..|ts|] == ts;
  }

  /** Storing a list of tasks with distinct new ids appends them. */
  lemma {:induction false} PutAllFresh(d: Dict<string, ProjectTask>, ts: seq<ProjectTask>)
    requires d.Valid()
    requires forall i, j :: 0 <= i < j < |ts| ==> ts[i].id != ts[j].id
    requires forall i :: 0 <= i < |ts| ==> ts[i].id !in d.vals
    ensures PutAll(d, ts).Values() == d.Values() + ts
  {
    if ts != [] {
      var init, last := ts[..|ts| - 1], ts[|ts| - 1];
      var e := PutAll(d, init);
      calc {
        PutAll(d, ts).Values();
        e.Put(last.id, last).Values();
      == { LastIdIsNew(d, ts); PutNewValues(e, last.id, last); }
        e.Values() + [last];
      == { assert forall i :: 0 <= i < |init| ==> init[i] == ts[i]; PutAllFresh(d, init); }
        (d.Values() + init) + [last];
      == { assert init + [last] == ts; }
        d.Values() + ts;
      }
    }
  }

  /** The last of a list of fresh, distinct tasks is not among those
      stored before it. */
  lemma LastIdIsNew(d: Dict<string, ProjectTask>, ts: seq<ProjectTask>)
    requires ts != []
    requires forall i, j :: 0 <= i < j < |ts| ==> ts[i].id != ts[j].id
    requires forall i :: 0 <= i < |ts| ==> ts[i].id !in d.vals
    ensures ts[|ts| - 1].id !in PutAll(d, ts[..|ts| - 1]).vals
  {
    var init, last := ts[..|ts| - 1], ts[|ts| - 1];
    forall i | 0 <= i < |init| ensures init[i].id != last.id {
      assert init[i] == ts[i];
    }
    PutAllDomain(d, init, last.id);
  }

  lemma {:induction false} PutAllDomain(d: Dict<string, ProjectTask>, ts: seq<ProjectTask>, k: string)
    ensures k in PutAll(d, ts).vals <==> k in d.vals || exists i :: 0 <= i < |ts| && ts[i].id == k
  {
    if ts != [] {
      var init := ts[..|ts| - 1];
      PutAllDomain(d, init, k);
      if exists i :: 0 <= i < |init| && init[i].id == k {
        var i :| 0 <= i < |init| && init[i].id == k;
        assert ts[i].id == k;
      }
      if exists i :: 0 <= i < |ts| && ts[i].id == k {
        var i :| 0 <= i < |ts| && ts[i].id == k;
        if i < |init| {
          assert init[i].id == k;
        }
      }
    }
  }

  lemma ComplianceTasksSnoc(customerId: string, rts: seq<RoadmapTask>, i: nat, idOf: nat -> string, now: int)
    requires i < |rts|
    ensures ComplianceTasks(customerId, rts[..i + 1], idOf, now) ==
            ComplianceTasks(customerId, rts[..i], idOf, now) + [ComplianceTask(customerId, rts[i], idOf(i), now)]
  {
  }

  lemma TreatmentTasksSnoc(customerId: string, register: seq<RegisterEntry>, e: RegisterEntry,
                           idOf: nat -> string, base: nat, now: int)
    ensures var prev := TreatmentTasks(customerId, register, idOf, base, now);
      TreatmentTasks(customerId, register + [e], idOf, base, now) ==
        prev + EntryTasks(customerId, e, idOf, base + |prev|, now)
  {
    assert (register + [e])[..|register|] == register;
  }

  lemma TreatmentTasksPrefix(customerId: string, register: seq<RegisterEntry>, r: nat,
                             idOf: nat -> string, base: nat, now: int)
    requires r < |register|
    ensures TreatmentTasks(customerId, register[..r + 1], idOf, base, now) ==
            TreatmentTasks(customerId, register[..r], idOf, base, now) +
            EntryTasks(customerId, register[r], idOf, base + |TreatmentTasks(customerId, register[..r], idOf, base, now)|, now)
  {
    assert register[..r + 1] == register[..r] + [register[r]];
    TreatmentTasksSnoc(customerId, register[..r], register[r], idOf, base, now);
  }

  lemma GeneratedTasksStart(customerId: string, rts: seq<RoadmapTask>, register: seq<RegisterEntry>,
                             idOf: nat -> string, now: int)
    ensures GeneratedTasks(customerId, rts, register[..0], idOf, now) == ComplianceTasks(customerId, rts, idOf, now)
  {
    assert register[..0] == [];
  }

  lemma GeneratedTasksSnoc(customerId: string, rts: seq<RoadmapTask>, register: seq<RegisterEntry>, r: nat,
                            idOf: nat -> string, now: int)
    requires r < |register|
    ensures GeneratedTasks(customerId, rts, register[..r + 1], idOf, now) ==
            GeneratedTasks(customerId, rts, register[..r], idOf, now) +
            EntryTasks(customerId, register[r], idOf, |GeneratedTasks(customerId, rts, register[..r], idOf, now)|, now)
  {
    var first := ComplianceTasks(customerId, rts, idOf, now);
    var prev := TreatmentTasks(customerId, register[..r], idOf, |rts|, now);
    var more := EntryTasks(customerId, register[r], idOf, |rts| + |prev|, now);
    TreatmentTasksPrefix(customerId, register, r, idOf, |rts|, now);
    assert (first + prev) + more == first + (prev + more);
  }

  lemma {:induction false} PutAllConcat(d: Dict<string, ProjectTask>, xs: seq<ProjectTask>, ys: seq<ProjectTask>)
    ensures PutAll(d, xs + ys) == PutAll(PutAll(d, xs), ys)
  {
    if ys == [] {
      assert xs + ys == xs;
    } else {
      var init, last := ys[..|ys| - 1], ys[|ys| - 1];
      PutAllConcat(d, xs, init);
      assert (xs + ys)[..|xs + ys| - 1] == xs + init;
    }
  }

  /** The first loop of `generateTasks`: each roadmap task's task stored
      under a new id. */
  method PutComplianceTasks(customerId: string, rts: seq<RoadmapTask>, idOf: nat -> string, now: int,
                            d: Dict<string, ProjectTask>) returns (nt: Dict<string, ProjectTask>)
    ensures nt == PutAll(d, ComplianceTasks(customerId, rts, idOf, now))
  {
    nt := d;
    var i := 0;
    while i < |rts|
      invariant 0 <= i <= |rts|
      invariant nt == PutAll(d, ComplianceTasks(customerId, rts[..i], idOf, now))
    {
      var t := ComplianceTask(customerId, rts[i], idOf(i), now);
      PutAllSnoc(d, ComplianceTasks(customerId, rts[..i], idOf, now), t);
      ComplianceTasksSnoc(customerId, rts, i, idOf, now);
      nt := nt.Put(t.id, t);
      i := i + 1;
    }
    assert rts[..i] == rts;
  }

  /** The inner loop of `generateTasks`: each treatment's task of one
      risk stored under a new id. */
  method PutEntryTasks(customerId: string, e: RegisterEntry, idOf: nat -> string, start: nat, now: int,
                       d: Dict<string, ProjectTask>) returns (nt: Dict<string, ProjectTask>)
    ensures nt == PutAll(d, EntryTasks(customerId, e, idOf, start, now))
  {
    nt := d;
    var j := 0;
    while j < |e.treatments|
      invariant 0 <= j <= |e.treatments|
      invariant nt == PutAll(d, EntryTasks(customerId, e, idOf, start, now)[..j])
    {
      var t := TreatmentTask(customerId, e.risk, e.treatments[j], idOf(start + j), now);
      var done := EntryTasks(customerId, e, idOf, start, now)[..j];
      PutAllSnoc(d, done, t);
      assert EntryTasks(customerId, e, idOf, start, now)[..j + 1] == done + [t];
      nt := nt.Put(t.id, t);
      j := j + 1;
    }
    assert EntryTasks(customerId, e, idOf, start, now)[..j] == EntryTasks(customerId, e, idOf, start, now);
  }

  /** Generation yields one task per roadmap task and one per treatment;
      the roadmap's come first, as 'todo' tasks with the roadmap task's
      title, priority and control; then the treatments', as 'todo' tasks
      of priority 'high' naming their risk and treatment. */
  lemma {:induction false} GeneratedTasksShape(customerId: string, rts: seq<RoadmapTask>, register: seq<RegisterEntry>,
                                               idOf: nat -> string, now: int, k: nat)
    ensures |GeneratedTasks(customerId, rts, register, idOf, now)| == |rts| + TreatmentCount(register)
    ensures k < |GeneratedTasks(customerId, rts, register, idOf, now)| ==>
      var t := GeneratedTasks(customerId, rts, register, idOf, now)[k];
      t.id == idOf(k) && t.customerId == customerId && t.status == TODO && t.progress == 0 &&
      (k < |rts| ==> t.source == Some(FROM_COMPLIANCE) && t.title == rts[k].title &&
                     t.priority == rts[k].priority && t.controlId == Some(rts[k].controlId)) &&
      (k >= |rts| ==> t.source == Some(FROM_TREATMENT) && t.priority == "high" &&
                      exists i, j :: 0 <= i < |register| && 0 <= j < |register[i].treatments| &&
                        t.riskId == Some(register[i].risk.id) && t.treatmentId == Some(register[i].treatments[j].id) &&
                        CarriesPlan(t, register[i].treatments[j]))
  {
    TreatmentTasksFacts(customerId, register, idOf, |rts|, now, if k >= |rts| then k - |rts| else 0);
  }

  lemma {:induction false} TreatmentTasksFacts(customerId: string, register: seq<RegisterEntry>,
                                               idOf: nat -> string, base: nat, now: int, k: nat)
    ensures |TreatmentTasks(customerId, register, idOf, base, now)| == TreatmentCount(register)
    ensures k < |TreatmentTasks(customerId, register, idOf, base, now)| ==>
      var t := TreatmentTasks(customerId, register, idOf, base, now)[k];
      t.id == idOf(base + k) && t.customerId == customerId && t.status == TODO && t.progress == 0 &&
      t.source == Some(FROM_TREATMENT) && t.priority == "high" &&
      exists i, j :: 0 <= i < |register| && 0 <= j < |register[i].treatments| &&
        t.riskId == Some(register[i].risk.id) && t.treatmentId == Some(register[i].treatments[j].id) &&
        CarriesPlan(t, register[i].treatments[j])
  {
    if register != [] {
      var init := register[..|register| - 1];
      TreatmentTasksFacts(customerId, init, idOf, base, now, k);
      var prev := TreatmentTasks(customerId, init, idOf, base, now);
      if |prev| <= k < |TreatmentTasks(customerId, register, idOf, base, now)| {
        LastEntryTask(customerId, register, idOf, base, now, k);
      } else if k < |prev| {
        var t := prev[k];
        var i, j :| 0 <= i < |init| && 0 <= j < |init[i].treatments| &&
          t.riskId == Some(init[i].risk.id) && t.treatmentId == Some(init[i].treatments[j].id) &&
          CarriesPlan(t, init[i].treatments[j]);
        assert init[i] == register[i];
      }
    }
  }

  /** A task past those of the register's earlier risks is one of the last
      risk's treatment tasks. */
  lemma LastEntryTask(customerId: string, register: seq<RegisterEntry>, idOf: nat -> string, base: nat, now: int, k: nat)
    requires register != []
    requires |TreatmentTasks(customerId, register[..|register| - 1], idOf, base, now)| <= k <
             |TreatmentTasks(customerId, register, idOf, base, now)|
    ensures var i, j := |register| - 1, k - |TreatmentTasks(customerId, register[..|register| - 1], idOf, base, now)|;
      j < |register[i].treatments| &&
      TreatmentTasks(customerId, register, idOf, base, now)[k] ==
        TreatmentTask(customerId, register[i].risk, register[i].treatments[j], idOf(base + k), now)
  {
  }

  /** The task `addTask` stores: the caller's fields, status 'todo' and
      progress 0 forced. */
  function NewTask(customerId: string, data: TaskData, id: string, now: int): (t: ProjectTask)
    ensures t.id == id && t.customerId == customerId && t.status == TODO && t.progress == 0
    ensures t.title == data.title && t.priority == data.priority && t.dueDate == data.dueDate
  {
    ProjectTask(id, customerId, data.title, data.description, TODO, data.priority, data.effort,
      data.assignedRole, data.dueDate, None, None, None, None, 0, now, now)
  }

  /** `{ ...task, ...updates, updatedAt }`. */
  function ApplyTaskUpdate(t: ProjectTask, u: TaskUpdate, now: int): (s: ProjectTask)
    ensures s.id == t.id && s.customerId == t.customerId && s.createdAt == t.createdAt && s.updatedAt == now
    ensures s.status == (if u.status.Some? then u.status.value else t.status)
    ensures s.progress == (if u.progress.Some? then u.progress.value else t.progress)
    ensures u == TaskUpdate(None, None, None, None, None, None) ==> s == t.(updatedAt := now)
  {
    t.(title := if u.title.Some? then u.title.value else t.title,
       description := if u.description.Some? then u.description.value else t.description,
       status := if u.status.Some? then u.status.value else t.status,
       priority := if u.priority.Some? then u.priority.value else t.priority,
       progress := if u.progress.Some? then u.progress.value else t.progress,
       dueDate := if u.dueDate.Some? then u.dueDate else t.dueDate,
       updatedAt := now)
  }

  /** Copy of `d` without the entries whose value satisfies `drop`: the
      `Object.keys(...).forEach(k => { if (...) delete copy[k] })` loop. */
  method RemoveWhere<V>(d: Dict<string, V>, drop: V -> bool) returns (e: Dict<string, V>)
    requires d.Valid()
    ensures e.Valid()
    ensures forall k :: k in e.vals <==> k in d.vals && !drop(d.vals[k])
    ensures forall k :: k in e.vals ==> e.vals[k] == d.vals[k]
    ensures e.keys == Filter(d.keys, KeptKey(d, drop))
  {
    e := d;
    var keys := d.keys;
    ghost var seen: set<string> := {};
    var i := 0;
    SweptStart(d, drop);
    while i < |keys|
      invariant Swept(d, e, seen, i, drop)
    {
      var k := keys[i];
      SweepStep(d, e, seen, i, drop);
      if drop(d.vals[k]) {
        e := e.Remove(k);
      }
      seen := seen + {k};
      i := i + 1;
    }
    SweptAll(d, e, seen, drop);
  }

  /** The invariant of the `RemoveWhere` loop after `i` keys: the entries
      seen are swept, and the remaining keys are the kept keys seen, then
      the keys not yet seen, in their order. */
  ghost predicate Swept<V>(d: Dict<string, V>, e: Dict<string, V>, seen: set<string>, i: nat, drop: V -> bool)
  {
    i <= |d.keys| &&
    (forall j :: 0 <= j < i ==> d.keys[j] in seen) &&
    Kept(d, e, seen, drop) &&
    e.keys == Filter(d.keys[..i], KeptKey(d, drop)) + d.keys[i..]
  }

  /** Before the loop nothing is swept. */
  lemma SweptStart<V>(d: Dict<string, V>, drop: V -> bool)
    requires d.Valid()
    ensures Swept(d, d, {}, 0, drop)
  {
    assert d.keys[..0] == [] && d.keys[0..] == d.keys;
  }

  /** One step of the `RemoveWhere` loop keeps its invariant. */
  lemma SweepStep<V>(d: Dict<string, V>, e: Dict<string, V>, seen: set<string>, i: nat, drop: V -> bool)
    requires d.Valid() && i < |d.keys| && Swept(d, e, seen, i, drop)
    ensures Swept(d, if drop(d.vals[d.keys[i]]) then e.Remove(d.keys[i]) else e, seen + {d.keys[i]}, i + 1, drop)
  {
    RemoveStep(d, e, seen, d.keys[i], drop);
    RemoveKeysStep(d, e, i, drop);
    SeenGrows(d.keys, seen, i);
  }

  /** After the last key the invariant gives the postcondition. */
  lemma SweptAll<V>(d: Dict<string, V>, e: Dict<string, V>, seen: set<string>, drop: V -> bool)
    requires d.Valid() && Swept(d, e, seen, |d.keys|, drop)
    ensures e.Valid()
    ensures forall k :: k in e.vals <==> k in d.vals && !drop(d.vals[k])
    ensures forall k :: k in e.vals ==> e.vals[k] == d.vals[k]
    ensures e.keys == Filter(d.keys, KeptKey(d, drop))
  {
    KeptAll(d, e, seen, drop);
    assert d.keys[..|d.keys|] == d.keys && d.keys[|d.keys|..] == [];
  }

  /** The keys `RemoveWhere` keeps: those whose value is not dropped. */
  function KeptKey<V>(d: Dict<string, V>, drop: V -> bool): string -> bool
  {
    k => k in d.vals && !drop(d.vals[k])
  }

  /** One step of the `RemoveWhere` loop keeps the remaining keys in order:
      the kept keys seen so far, then the keys not yet seen. */
  lemma RemoveKeysStep<V>(d: Dict<string, V>, e: Dict<string, V>, i: nat, drop: V -> bool)
    requires d.Valid() && i < |d.keys|
    requires e.keys == Filter(d.keys[..i], KeptKey(d, drop)) + d.keys[i..]
    ensures (if drop(d.vals[d.keys[i]]) then e.Remove(d.keys[i]) else e).keys ==
            Filter(d.keys[..i + 1], KeptKey(d, drop)) + d.keys[i + 1..]
  {
    var k := d.keys[i];
    if drop(d.vals[k]) {
      SweepDrops(d.keys, i, KeptKey(d, drop));
    } else {
      SweepKeeps(d.keys, i, KeptKey(d, drop));
    }
  }

  /** The loop invariant of `RemoveWhere`: `e` is a well-formed copy of `d`
      without the entries of the keys in `seen` whose value satisfies `drop`. */
  ghost predicate Kept<V>(d: Dict<string, V>, e: Dict<string, V>, seen: set<string>, drop: V -> bool)
  {
    e.Valid() &&
    (forall k :: k in e.vals <==> k in d.vals && !(k in seen && drop(d.vals[k]))) &&
    (forall k :: k in e.vals ==> e.vals[k] == d.vals[k])
  }

  lemma SeenGrows(keys: seq<string>, seen: set<string>, i: nat)
    requires i < |keys| && forall j :: 0 <= j < i ==> keys[j] in seen
    ensures forall j :: 0 <= j < i + 1 ==> keys[j] in seen + {keys[i]}
  {
  }

  /** Once every key has been seen, the invariant is the postcondition. */
  lemma KeptAll<V>(d: Dict<string, V>, e: Dict<string, V>, seen: set<string>, drop: V -> bool)
    requires d.Valid() && Kept(d, e, seen, drop)
    requires forall j :: 0 <= j < |d.keys| ==> d.keys[j] in seen
    ensures e.Valid()
    ensures forall k :: k in e.vals <==> k in d.vals && !drop(d.vals[k])
    ensures forall k :: k in e.vals ==> e.vals[k] == d.vals[k]
  {
    forall k | k in d.vals
      ensures k in seen
    {
      var j :| 0 <= j < |d.keys| && d.keys[j] == k;
    }
  }

  /** One step of the `RemoveWhere` loop keeps its invariant. */
  lemma RemoveStep<V>(d: Dict<string, V>, e: Dict<string, V>, seen: set<string>, k: string, drop: V -> bool)
    requires d.Valid() && k in d.vals && Kept(d, e, seen, drop)
    ensures Kept(d, if drop(d.vals[k]) then e.Remove(k) else e, seen + {k}, drop)
  {
    if drop(d.vals[k]) {
      RemoveValid(e, k);
    }
  }

  function CommentTime(): (Comment, Comment) -> bool
  {
    (a: Comment, b: Comment) => a.createdAt - b.createdAt <= 0
  }

  /** The tasks `generateTasks` collects in `newTasks`: the roadmap's,
      then the treatments' of each risk in the register, each under the
      next generated id. */
  method CreateTasks(customerId: string, rts: seq<RoadmapTask>, register: seq<RegisterEntry>, idOf: nat -> string, now: int)
    returns (newTasks: Dict<string, ProjectTask>)
    ensures newTasks == PutAll(Empty(), GeneratedTasks(customerId, rts, register, idOf, now))
  {
    newTasks := PutComplianceTasks(customerId, rts, idOf, now, Empty());
    var n: nat := |rts|;
    var r := 0;
    GeneratedTasksStart(customerId, rts, register, idOf, now);
    while r < |register|
      invariant 0 <= r <= |register|
      invariant n == |GeneratedTasks(customerId, rts, register[..r], idOf, now)|
      invariant newTasks == PutAll(Empty(), GeneratedTasks(customerId, rts, register[..r], idOf, now))
    {
      ghost var made := GeneratedTasks(customerId, rts, register[..r], idOf, now);
      ghost var more := EntryTasks(customerId, register[r], idOf, n, now);
      GeneratedTasksSnoc(customerId, rts, register, r, idOf, now);
      newTasks := PutEntryTasks(customerId, register[r], idOf, n, now, newTasks);
      PutAllConcat(Empty(), made, more);
      n := n + |register[r].treatments|;
      r := r + 1;
    }
    assert register[..r] == register;
  }

  class ProjectStore {
    var tasks: Dict<string, ProjectTask>
    var comments: Dict<string, Comment>
    var dependencies: Dict<string, Dependency>

    ghost predicate Valid()
      reads this
    {
      tasks.Valid() && comments.Valid() && dependencies.Valid()
    }

    constructor()
      ensures Valid() && tasks.keys == [] && comments.keys == [] && dependencies.keys == []
    {
      tasks := Empty();
      comments := Empty();
      dependencies := Empty();
    }

    /** `generateTasks`: a task per roadmap task, then a task per treatment
        of each of the customer's risks, all stored; the created tasks are
        returned. Without a roadmap, `roadmap.tasks` throws and nothing
        changes. */
    method GenerateTasks(customerId: string, roadmap: Option<Roadmap>, risks: RiskStore, idOf: nat -> string, now: int)
      returns (created: Result<seq<ProjectTask>>)
      requires Valid() && risks.Valid()
      modifies this
      ensures Valid() && comments == old(comments) && dependencies == old(dependencies)
      ensures roadmap.None? ==> created.Err? && tasks == old(tasks)
      ensures roadmap.Some? ==>
        var all := GeneratedTasks(customerId, roadmap.value.tasks, risks.RiskRegister(customerId), idOf, now);
        created == Ok(PutAll(Empty(), all).Values()) &&
        tasks == PutAll(old(tasks), PutAll(Empty(), all).Values())
    {
      if roadmap.None? {
        return Err(NO_ROADMAP);
      }
      var register := risks.RiskRegister(customerId);
      var values := StoreGenerated(customerId, roadmap.value.tasks, register, idOf, now);
      created := Ok(values);
    }

    /** The tasks generated from a roadmap and a register, stored. */
    method StoreGenerated(customerId: string, rts: seq<RoadmapTask>, register: seq<RegisterEntry>, idOf: nat -> string, now: int)
      returns (values: seq<ProjectTask>)
      requires Valid()
      modifies this
      ensures Valid() && comments == old(comments) && dependencies == old(dependencies)
      ensures values == PutAll(Empty(), GeneratedTasks(customerId, rts, register, idOf, now)).Values()
      ensures tasks == PutAll(old(tasks), values)
    {
      var newTasks := CreateTasks(customerId, rts, register, idOf, now);
      assert newTasks.Valid();
      values := newTasks.Values();
      tasks := PutAll(tasks, values);
    }

    /** `addTask`. */
    method AddTask(customerId: string, data: TaskData, id: string, now: int) returns (t: ProjectTask)
      requires Valid()
      modifies this
      ensures Valid() && t == NewTask(customerId, data, id, now)
      ensures tasks == old(tasks).Put(id, t)
      ensures comments == old(comments) && dependencies == old(dependencies)
    {
      t := NewTask(customerId, data, id, now);
      PutValid(tasks, id, t);
      tasks := tasks.Put(id, t);
    }

    /** `updateTask`: merges the update into that task only. */
    method UpdateTask(taskId: string, u: TaskUpdate, now: int)
      requires Valid()
      modifies this
      ensures Valid() && comments == old(comments) && dependencies == old(dependencies)
      ensures taskId in old(tasks).vals ==>
                tasks == old(tasks).Put(taskId, ApplyTaskUpdate(old(tasks).vals[taskId], u, now))
      ensures taskId !in old(tasks).vals ==> tasks == old(tasks)
      ensures forall k :: k != taskId ==> tasks.Get(k) == old(tasks).Get(k)
    {
      var current := tasks.Get(taskId);
      if current.Some? {
        var updated := ApplyTaskUpdate(current.value, u, now);
        PutValid(tasks, taskId, updated);
        tasks := tasks.Put(taskId, updated);
      }
    }

    /** `deleteTask`: the task, its comments, and every dependency from or
        on it. */
    method DeleteTask(taskId: string)
      requires Valid()
      modifies this
      ensures Valid()
      ensures tasks == old(tasks).Remove(taskId)
      ensures forall k :: k in comments.vals <==> k in old(comments).vals && old(comments).vals[k].taskId != taskId
      ensures forall k :: k in comments.vals ==> comments.vals[k] == old(comments).vals[k]
      ensures forall k :: k in dependencies.vals <==>
                k in old(dependencies).vals &&
                old(dependencies).vals[k].taskId != taskId && old(dependencies).vals[k].dependsOn != taskId
      ensures forall k :: k in dependencies.vals ==> dependencies.vals[k] == old(dependencies).vals[k]
      ensures comments.keys == Filter(old(comments).keys, KeptKey(old(comments), (c: Comment) => c.taskId == taskId))
      ensures dependencies.keys ==
        Filter(old(dependencies).keys, KeptKey(old(dependencies), (d: Dependency) => d.taskId == taskId || d.dependsOn == taskId))
    {
      RemoveValid(tasks, taskId);
      tasks := tasks.Remove(taskId);
      comments := RemoveWhere(comments, (c: Comment) => c.taskId == taskId);
      dependencies := RemoveWhere(dependencies, (d: Dependency) => d.taskId == taskId || d.dependsOn == taskId);
    }

    /** `addComment`. */
    method AddComment(taskId: string, userId: string, content: string, id: string, now: int) returns (c: Comment)
      requires Valid()
      modifies this
      ensures Valid() && c == Comment(id, taskId, userId, content, now)
      ensures comments == old(comments).Put(id, c)
      ensures tasks == old(tasks) && dependencies == old(dependencies)
    {
      c := Comment(id, taskId, userId, content, now);
      PutValid(comments, id, c);
      comments := comments.Put(id, c);
    }

    /** `addDependency`. */
    method AddDependency(taskId: string, dependsOnTaskId: string, id: string, now: int) returns (d: Dependency)
      requires Valid()
      modifies this
      ensures Valid() && d == Dependency(id, taskId, dependsOnTaskId, now)
      ensures dependencies == old(dependencies).Put(id, d)
      ensures tasks == old(tasks) && comments == old(comments)
    {
      d := Dependency(id, taskId, dependsOnTaskId, now);
      PutValid(dependencies, id, d);
      dependencies := dependencies.Put(id, d);
    }

    /** `removeDependency`. */
    method RemoveDependency(dependencyId: string)
      requires Valid()
      modifies this
      ensures Valid() && dependencies == old(dependencies).Remove(dependencyId)
      ensures dependencyId !in dependencies.vals
      ensures tasks == old(tasks) && comments == old(comments)
    {
      RemoveValid(dependencies, dependencyId);
      dependencies := dependencies.Remove(dependencyId);
    }

    /** `getTasksByCustomer`. */
    function TasksByCustomer(customerId: string): (r: seq<ProjectTask>)
      reads this
      requires Valid()
      ensures IsSubseq(r, tasks.Values())
      ensures forall t :: t in r <==> t in tasks.Values() && t.customerId == customerId
    {
      var r := Filter(tasks.Values(), (t: ProjectTask) => t.customerId == customerId);
      FilterIsSubseq(tasks.Values(), (t: ProjectTask) => t.customerId == customerId);
      forall t ensures t in r <==> t in tasks.Values() && t.customerId == customerId {
        FilterMember(tasks.Values(), (t: ProjectTask) => t.customerId == customerId, t);
      }
      r
    }

    /** `getTaskDependencies`: the dependencies from or on the task. */
    function TaskDependencies(taskId: string): (r: seq<Dependency>)
      reads this
      requires Valid()
      ensures forall d :: d in r <==> d in dependencies.Values() && (d.taskId == taskId || d.dependsOn == taskId)
    {
      var p := (d: Dependency) => d.taskId == taskId || d.dependsOn == taskId;
      var r := Filter(dependencies.Values(), p);
      forall d ensures d in r <==> d in dependencies.Values() && p(d) {
        FilterMember(dependencies.Values(), p, d);
      }
      r
    }

    /** `getTaskComments`: the task's comments, oldest first. */
    function TaskComments(taskId: string): (r: seq<Comment>)
      reads this
      requires Valid()
      ensures forall c :: c in r <==> c in comments.Values() && c.taskId == taskId
      ensures forall i, j :: 0 <= i < j < |r| ==> r[i].createdAt <= r[j].createdAt
    {
      var p := (c: Comment) => c.taskId == taskId;
      var mine := Filter(comments.Values(), p);
      var r := Sort(mine, CommentTime());
      forall c ensures c in r <==> c in comments.Values() && p(c) {
        FilterMember(comments.Values(), p, c);
        assert c in r <==> c in multiset(r);
        assert c in mine <==> c in multiset(mine);
      }
      assert TotalPreorder(CommentTime());
      SortSorted(mine, CommentTime());
      r
    }

    /** `calculateCompletion`: completed tasks over the customer's tasks,
        rounded, 0 without tasks. */
    function CalculateCompletion(customerId: string): (pct: nat)
      reads this
      requires Valid()
      ensures pct == Percent(|Filter(TasksByCustomer(customerId), IsDone())|, |TasksByCustomer(customerId)|)
      ensures pct <= 100
      ensures |TasksByCustomer(customerId)| == 0 ==> pct == 0
      ensures |TasksByCustomer(customerId)| > 0 ==>
                (forall t :: t in TasksByCustomer(customerId) ==> t.status == DONE) ==> pct == 100
    {
      var mine := TasksByCustomer(customerId);
      var done := Filter(mine, IsDone());
      assert (forall t :: t in mine ==> t.status == DONE) ==> |done| == |mine| by {
        if forall t :: t in mine ==> t.status == DONE {
          FilterAll(mine, IsDone());
        }
      }
      Percent(|done|, |mine|)
    }
  }

  /** Whether a task is done. */
  function IsDone(): ProjectTask -> bool
  {
    (t: ProjectTask) => t.status == DONE
  }

  /** With distinct generated ids, all of them new, `generateTasks`
      returns exactly the created tasks and appends them to the store. */
  lemma GeneratedTasksFresh(d: Dict<string, ProjectTask>, all: seq<ProjectTask>)
    requires d.Valid()
    requires forall i, j :: 0 <= i < j < |all| ==> all[i].id != all[j].id
    requires forall i :: 0 <= i < |all| ==> all[i].id !in d.vals
    ensures PutAll(Empty(), all).Values() == all
    ensures PutAll(d, PutAll(Empty(), all).Values()).Values() == d.Values() + all
  {
    PutAllFresh(Empty(), all);
    PutAllFresh(d, all);
  }
}
