/** The customer's project page (`ProjectManagement`): the board columns
    by status, the counts above them and each project's task counter. */
module ProjectManagement {
  import opened Common
  import opened Text

  datatype ProjectTask = ProjectTask(id: nat, title: string, completed: bool)

  datatype Project = Project(
    id: nat,
    title: string,
    description: string,
    status: string,
    priority: string,
    assignee: string,
    dueDate: string,
    progress: nat,
    tasks: seq<ProjectTask>)

  datatype StatusColumn = StatusColumn(title: string, status: string)

  /** The board's columns. */
  const STATUS_COLUMNS: seq<StatusColumn> := [
    StatusColumn("Planning", "planning"),
    StatusColumn("In Progress", "in progress"),
    StatusColumn("Completed", "completed"),
    StatusColumn("On Hold", "on hold")
  ]

  /** A column's cards: the projects whose lower-cased status is the
      column's status, in order. */
  function ColumnProjects(projects: seq<Project>, status: string): (r: seq<Project>)
    ensures IsSubseq(r, projects)
    ensures forall p :: p in r <==> p in projects && Lower(p.status) == status
  {
    var q := (p: Project) => Lower(p.status) == status;
    FilterIsSubseq(projects, q);
    forall p
      ensures p in Filter(projects, q) <==> p in projects && q(p)
    {
      FilterMember(projects, q, p);
    }
    Filter(projects, q)
  }

  /** The column statuses are distinct, so a project is on at most one
      column. */
  lemma AtMostOneColumn(projects: seq<Project>, p: Project, i: nat, j: nat)
    requires i < |STATUS_COLUMNS| && j < |STATUS_COLUMNS|
    requires p in ColumnProjects(projects, STATUS_COLUMNS[i].status)
    requires p in ColumnProjects(projects, STATUS_COLUMNS[j].status)
    ensures i == j
  {
    assert STATUS_COLUMNS[i].status == Lower(p.status) == STATUS_COLUMNS[j].status;
  }

  /** A project whose status is none of the columns' appears on no column. */
  lemma OtherStatusOnNoColumn(projects: seq<Project>, p: Project)
    requires forall i :: 0 <= i < |STATUS_COLUMNS| ==> Lower(p.status) != STATUS_COLUMNS[i].status
    ensures forall i :: 0 <= i < |STATUS_COLUMNS| ==> p !in ColumnProjects(projects, STATUS_COLUMNS[i].status)
  {
  }

  /** The counts above the board. */
  datatype ProjectStats = ProjectStats(total: nat, inProgress: nat, completed: nat, overdue: nat)

  /** Total projects, 'In Progress' and 'Completed' status (compared
      exactly), and an overdue count that is always 0. */
  function Stats(projects: seq<Project>): (s: ProjectStats)
    ensures s.total == |projects|
    ensures s.inProgress + s.completed <= s.total
    ensures s.overdue == 0
  {
    var inProgress := (p: Project) => p.status == "In Progress";
    var completed := (p: Project) => p.status == "Completed";
    FilterDisjointCounts(projects, inProgress, completed);
    ProjectStats(|projects|, |Filter(projects, inProgress)|, |Filter(projects, completed)|, 0)
  }

  /** A card's 'completed/total tasks' counter. */
  function TaskCounter(p: Project): (c: (nat, nat))
    ensures c.1 == |p.tasks|
    ensures c.0 <= c.1
    ensures c.0 == c.1 <==> forall i :: 0 <= i < |p.tasks| ==> p.tasks[i].completed
  {
    var done := (t: ProjectTask) => t.completed;
    FilterComplementCounts(p.tasks, done);
    assert (forall i :: 0 <= i < |p.tasks| ==> p.tasks[i].completed) ==> |Filter(p.tasks, done)| == |p.tasks| by {
      if forall i :: 0 <= i < |p.tasks| ==> p.tasks[i].completed {
        FilterAll(p.tasks, done);
      }
    }
    assert |Filter(p.tasks, done)| == |p.tasks| ==> forall i :: 0 <= i < |p.tasks| ==> p.tasks[i].completed by {
      if |Filter(p.tasks, done)| == |p.tasks| {
        assert |Filter(p.tasks, Complement(done))| == 0;
      }
    }
    (|Filter(p.tasks, done)|, |p.tasks|)
  }
}
