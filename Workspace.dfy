/**
 * The workspace page of js/controllers/workspace-controller.js: per-task time
 * totals, per-project task counts and totals, the scheduled (not yet started)
 * tasks, and the list edits made when a project or a task is deleted.
 * The stored lists are the controller's state; `confirm` is a parameter.
 */
module Workspace {
  import opened Common

  /** The fields of a task that the workspace reads or rewrites. */
  datatype WorkTask = WorkTask(id: string, title: string, projectId: Option<string>, archived: bool, createdAt: string)

  datatype WorkProject = WorkProject(id: string, name: string)

  /** A time entry as the workspace sees it: its task and its stored duration, if any. */
  datatype WorkEntry = WorkEntry(taskId: string, durationSeconds: Option<int>)

  /** `e.durationSeconds || 0`: a missing (or zero) duration counts as 0. */
  function Duration(e: WorkEntry): (r: int)
    ensures e.durationSeconds.None? ==> r == 0
    ensures e.durationSeconds.Some? ==> r == e.durationSeconds.value
  {
    if e.durationSeconds.Some? then e.durationSeconds.value else 0
  }

  // ---------------------------------------------------------------------
  // Task time

  /** The per-task time map after the first `n` entries of the loop. */
  function TaskTimeOf(es: seq<WorkEntry>, n: nat): map<string, int>
    requires n <= |es|
  {
    if n == 0 then map[]
    else
      var m := TaskTimeOf(es, n - 1);
      var k := es[n - 1].taskId;
      m[k := (if k in m then m[k] else 0) + Duration(es[n - 1])]
  }

  /** Some of the first `n` entries belong to task `k`. */
  predicate HasEntry(es: seq<WorkEntry>, n: nat, k: string)
    requires n <= |es|
  {
    exists i :: 0 <= i < n && es[i].taskId == k
  }

  /** The durations of the first `n` entries whose task is in `ids`, added up. */
  function SumIn(es: seq<WorkEntry>, n: nat, ids: set<string>): int
    requires n <= |es|
  {
    if n == 0 then 0 else SumIn(es, n - 1, ids) + (if es[n - 1].taskId in ids then Duration(es[n - 1]) else 0)
  }

  /**
   * The map has a key for exactly the tasks that have an entry, and each key's
   * value is the sum of that task's durations.
   */
  lemma {:induction false} TaskTimeIsSum(es: seq<WorkEntry>, n: nat, k: string)
    requires n <= |es|
    ensures k in TaskTimeOf(es, n) <==> HasEntry(es, n, k)
    ensures k in TaskTimeOf(es, n) ==> TaskTimeOf(es, n)[k] == SumIn(es, n, {k})
    ensures k !in TaskTimeOf(es, n) ==> SumIn(es, n, {k}) == 0
  {
    if n > 0 {
      TaskTimeIsSum(es, n - 1, k);
      if es[n - 1].taskId != k {
        if HasEntry(es, n, k) {
          var i :| 0 <= i < n && es[i].taskId == k;
          assert i < n - 1;
        }
      } else {
        assert HasEntry(es, n, k);
      }
    }
  }

  /** `calculateTaskTime()`: one pass over the entries, adding each duration under its task. */
  method CalculateTaskTime(timeEntries: seq<WorkEntry>) returns (taskTime: map<string, int>)
    ensures taskTime == TaskTimeOf(timeEntries, |timeEntries|)
    ensures forall k :: k in taskTime <==> HasEntry(timeEntries, |timeEntries|, k)
    ensures forall k :: k in taskTime ==> taskTime[k] == SumIn(timeEntries, |timeEntries|, {k})
  {
    taskTime := map[];
    for i := 0 to |timeEntries|
      invariant taskTime == TaskTimeOf(timeEntries, i)
    {
      var entry := timeEntries[i];
      var current := if entry.taskId in taskTime then taskTime[entry.taskId] else 0;
      taskTime := taskTime[entry.taskId := current + Duration(entry)];
    }
    forall k {
      TaskTimeIsSum(timeEntries, |timeEntries|, k);
    }
  }

  /** `tasks.filter(t => !taskTimeMap.has(t.id))`, in order. */
  function Unstarted(ts: seq<WorkTask>, taskTime: map<string, int>): (r: seq<WorkTask>)
    ensures |r| <= |ts|
    ensures forall t :: t in r <==> t in ts && t.id !in taskTime
  {
    if ts == [] then []
    else (if ts[0].id !in taskTime then [ts[0]] else []) + Unstarted(ts[1..], taskTime)
  }

  /** `Unstarted` of a list with a known head. */
  lemma UnstartedCons(x: WorkTask, t: seq<WorkTask>, taskTime: map<string, int>)
    ensures Unstarted([x] + t, taskTime) == (if x.id !in taskTime then [x] else []) + Unstarted(t, taskTime)
  {
    assert ([x] + t)[0] == x && ([x] + t)[1..] == t;
  }

  /** Filtering keeps order and multiplicity: it distributes over concatenation. */
  lemma {:induction false} UnstartedConcat(a: seq<WorkTask>, b: seq<WorkTask>, taskTime: map<string, int>)
    ensures Unstarted(a + b, taskTime) == Unstarted(a, taskTime) + Unstarted(b, taskTime)
  {
    if a == [] {
      assert a + b == b;
    } else {
      var t := a[1..];
      var h := if a[0].id !in taskTime then [a[0]] else [];
      calc {
        Unstarted(a + b, taskTime);
        { HeadTail(a, b); }
        Unstarted([a[0]] + (t + b), taskTime);
        { UnstartedCons(a[0], t + b, taskTime); }
        h + Unstarted(t + b, taskTime);
        { UnstartedConcat(t, b, taskTime); }
        h + (Unstarted(t, taskTime) + Unstarted(b, taskTime));
        { AppendAssoc(h, Unstarted(t, taskTime), Unstarted(b, taskTime)); }
        (h + Unstarted(t, taskTime)) + Unstarted(b, taskTime);
        { UnstartedCons(a[0], t, taskTime); }
        Unstarted(a, taskTime) + Unstarted(b, taskTime);
      }
    }
  }

  /** A one-element list keeps its element exactly when it passes the test. */
  lemma UnstartedSingleton(x: WorkTask, taskTime: map<string, int>)
    ensures Unstarted([x], taskTime) == (if x.id !in taskTime then [x] else [])
  {
    UnstartedCons(x, [], taskTime);
    assert [x] + [] == [x];
  }

  /** The scheduled tasks `refresh` shows: those with no time entry at all. */
  method ScheduledTasks(tasks: seq<WorkTask>, timeEntries: seq<WorkEntry>) returns (scheduled: seq<WorkTask>)
    ensures forall t :: t in scheduled <==> t in tasks && !HasEntry(timeEntries, |timeEntries|, t.id)
  {
    var taskTime := CalculateTaskTime(timeEntries);
    scheduled := Unstarted(tasks, taskTime);
  }

  // ---------------------------------------------------------------------
  // Project statistics

  datatype ProjectStat = ProjectStat(taskCount: nat, totalSeconds: int)

  /** `tasks.filter(t => t.projectId === pid && !t.archived)` over the first `n` tasks. */
  function ProjectTasks(ts: seq<WorkTask>, n: nat, pid: string): (r: seq<WorkTask>)
    requires n <= |ts|
    ensures |r| <= n
  {
    if n == 0 then []
    else
      var t := ts[n - 1];
      ProjectTasks(ts, n - 1, pid) + (if t.projectId == Some(pid) && !t.archived then [t] else [])
  }

  /** `new Set(projectTasks.map(t => t.id))` */
  function TaskIds(ts: seq<WorkTask>): set<string> {
    set t | t in ts :: t.id
  }

  /** `timeEntries.filter(e => taskIds.has(e.taskId))` over the first `n` entries. */
  function EntriesOf(es: seq<WorkEntry>, n: nat, ids: set<string>): (r: seq<WorkEntry>)
    requires n <= |es|
    ensures |r| <= n
  {
    if n == 0 then []
    else
      EntriesOf(es, n - 1, ids) + (if es[n - 1].taskId in ids then [es[n - 1]] else [])
  }

  /** A project's tasks are exactly its non-archived tasks. */
  lemma {:induction false} ProjectTasksMembers(ts: seq<WorkTask>, n: nat, pid: string)
    requires n <= |ts|
    ensures forall t :: t in ProjectTasks(ts, n, pid) <==> t in ts[..n] && t.projectId == Some(pid) && !t.archived
  {
    if n > 0 {
      ProjectTasksMembers(ts, n - 1, pid);
      assert ts[..n] == ts[..n - 1] + [ts[n - 1]];
    }
  }

  /** A project's entries are exactly the entries of its tasks. */
  lemma {:induction false} EntriesOfMembers(es: seq<WorkEntry>, n: nat, ids: set<string>)
    requires n <= |es|
    ensures forall e :: e in EntriesOf(es, n, ids) <==> e in es[..n] && e.taskId in ids
  {
    if n > 0 {
      EntriesOfMembers(es, n - 1, ids);
      assert es[..n] == es[..n - 1] + [es[n - 1]];
    }
  }

  /** `entries.reduce((sum, e) => sum + (e.durationSeconds || 0), 0)` */
  function Total(es: seq<WorkEntry>): int {
    if es == [] then 0 else Total(es[..|es| - 1]) + Duration(es[|es| - 1])
  }

  /** The value `calculateProjectStats` stores for a project with id `pid`. */
  function StatOf(pid: string, ts: seq<WorkTask>, es: seq<WorkEntry>): ProjectStat {
    var pts := ProjectTasks(ts, |ts|, pid);
    ProjectStat(|pts|, Total(EntriesOf(es, |es|, TaskIds(pts))))
  }

  /** Appending one entry adds its duration to the total. */
  lemma TotalAppend(s: seq<WorkEntry>, e: WorkEntry)
    ensures Total(s + [e]) == Total(s) + Duration(e)
  {
    assert (s + [e])[..|s|] == s;
  }

  /** Summing the filtered entries is summing the durations of the entries that pass the filter. */
  lemma {:induction false} TotalOfEntriesOf(es: seq<WorkEntry>, n: nat, ids: set<string>)
    requires n <= |es|
    ensures Total(EntriesOf(es, n, ids)) == SumIn(es, n, ids)
  {
    if n > 0 {
      TotalOfEntriesOf(es, n - 1, ids);
      var prev := EntriesOf(es, n - 1, ids);
      if es[n - 1].taskId in ids {
        assert EntriesOf(es, n, ids) == prev + [es[n - 1]];
        TotalAppend(prev, es[n - 1]);
      } else {
        assert EntriesOf(es, n, ids) == prev + [];
        assert prev + [] == prev;
      }
    }
  }

  /** The stats of a project: its non-archived task count, and the entry durations of those tasks. */
  lemma ProjectStatMeaning(pid: string, ts: seq<WorkTask>, es: seq<WorkEntry>)
    ensures var pts := ProjectTasks(ts, |ts|, pid);
      StatOf(pid, ts, es).taskCount == |pts|
      && (forall t :: t in pts <==> t in ts && t.projectId == Some(pid) && !t.archived)
      && StatOf(pid, ts, es).totalSeconds == SumIn(es, |es|, TaskIds(pts))
  {
    assert ts[..|ts|] == ts;
    ProjectTasksMembers(ts, |ts|, pid);
    var pts := ProjectTasks(ts, |ts|, pid);
    TotalOfEntriesOf(es, |es|, TaskIds(pts));
  }

  /** The ids of a list of projects. */
  function ProjectIds(ps: seq<WorkProject>): (r: set<string>)
    ensures forall k :: k in r <==> exists p :: p in ps && p.id == k
  {
    set p | p in ps :: p.id
  }

  lemma ProjectIdsAppend(ps: seq<WorkProject>, p: WorkProject)
    ensures ProjectIds(ps + [p]) == ProjectIds(ps) + {p.id}
  {
    assert forall q :: q in ps + [p] <==> q in ps || q == p;
  }

  /** `calculateProjectStats()`: one entry per project id, holding that project's stats. */
  method CalculateProjectStats(projects: seq<WorkProject>, tasks: seq<WorkTask>, timeEntries: seq<WorkEntry>)
    returns (stats: map<string, ProjectStat>)
    ensures forall k :: k in stats <==> exists p :: p in projects && p.id == k
    ensures forall k :: k in stats ==> stats[k] == StatOf(k, tasks, timeEntries)
  {
    stats := map[];
    for i := 0 to |projects|
      invariant stats.Keys == ProjectIds(projects[..i])
      invariant forall k :: k in stats ==> stats[k] == StatOf(k, tasks, timeEntries)
    {
      var project := projects[i];
      var projectTasks := ProjectTasks(tasks, |tasks|, project.id);
      var taskIds := TaskIds(projectTasks);
      var projectEntries := EntriesOf(timeEntries, |timeEntries|, taskIds);
      var totalSeconds := Total(projectEntries);
      assert ProjectStat(|projectTasks|, totalSeconds) == StatOf(project.id, tasks, timeEntries);
      ProjectIdsAppend(projects[..i], project);
      assert projects[..i + 1] == projects[..i] + [project];
      stats := stats[project.id := ProjectStat(|projectTasks|, totalSeconds)];
    }
    assert projects[..|projects|] == projects;
  }

  // ---------------------------------------------------------------------
  // A project's total seen through the per-task time map

  lemma {:induction false} SumInEmpty(es: seq<WorkEntry>, n: nat)
    requires n <= |es|
    ensures SumIn(es, n, {}) == 0
  {
    if n > 0 {
      SumInEmpty(es, n - 1);
    }
  }

  /** Summing over two disjoint sets of tasks is summing over each. */
  lemma {:induction false} SumInDisjointUnion(es: seq<WorkEntry>, n: nat, a: set<string>, b: set<string>)
    requires n <= |es|
    requires a !! b
    ensures SumIn(es, n, a + b) == SumIn(es, n, a) + SumIn(es, n, b)
  {
    if n > 0 {
      SumInDisjointUnion(es, n - 1, a, b);
    }
  }

  ghost function Pick(s: set<string>): (k: string)
    requires s != {}
    ensures k in s
  {
    var k :| k in s; k
  }

  /** The map's values over the ids in `ids`, a missing id counting as 0. */
  ghost function SumOverIds(m: map<string, int>, ids: set<string>): int
    decreases ids
  {
    if ids == {} then 0
    else
      var k := Pick(ids);
      (if k in m then m[k] else 0) + SumOverIds(m, ids - {k})
  }

  lemma {:induction false} SumInIsSumOverIds(es: seq<WorkEntry>, ids: set<string>)
    ensures SumIn(es, |es|, ids) == SumOverIds(TaskTimeOf(es, |es|), ids)
    decreases ids
  {
    if ids == {} {
      SumInEmpty(es, |es|);
    } else {
      var k := Pick(ids);
      var rest := ids - {k};
      assert ids == {k} + rest;
      SumInDisjointUnion(es, |es|, {k}, rest);
      TaskTimeIsSum(es, |es|, k);
      SumInIsSumOverIds(es, rest);
    }
  }

  /**
   * The two maps agree: a project's `totalSeconds` is the per-task time map summed over
   * the ids of the project's non-archived tasks.
   */
  lemma ProjectTotalFromTaskTime(pid: string, ts: seq<WorkTask>, es: seq<WorkEntry>)
    ensures StatOf(pid, ts, es).totalSeconds
         == SumOverIds(TaskTimeOf(es, |es|), TaskIds(ProjectTasks(ts, |ts|, pid)))
  {
    var ids := TaskIds(ProjectTasks(ts, |ts|, pid));
    TotalOfEntriesOf(es, |es|, ids);
    SumInIsSumOverIds(es, ids);
  }

  // ---------------------------------------------------------------------
  // Deleting

  /**
   * `tasks.map(...)` of `handleDeleteProject`: a task of the deleted project is rebuilt
   * by `new Task(toJSON())` with its `projectId` cleared, so it also gets a fresh
   * `createdAt` and its title trimmed again; every other task is kept as is.
   */
  function Unassign(ts: seq<WorkTask>, id: string, now: string): (r: seq<WorkTask>)
    ensures |r| == |ts|
  {
    seq(|ts|, i requires 0 <= i < |ts| =>
      if ts[i].projectId == Some(id) then ts[i].(title := Trim(ts[i].title), projectId := None, createdAt := now)
      else ts[i])
  }

  /** `projects.filter(p => p.id !== id)` */
  function RemoveProject(ps: seq<WorkProject>, id: string): (r: seq<WorkProject>)
    ensures |r| <= |ps|
    ensures forall p :: p in r <==> p in ps && p.id != id
  {
    if ps == [] then []
    else (if ps[0].id != id then [ps[0]] else []) + RemoveProject(ps[1..], id)
  }

  /** `RemoveProject` of a list with a known head. */
  lemma RemoveProjectCons(x: WorkProject, t: seq<WorkProject>, id: string)
    ensures RemoveProject([x] + t, id) == (if x.id != id then [x] else []) + RemoveProject(t, id)
  {
    assert ([x] + t)[0] == x && ([x] + t)[1..] == t;
  }

  /** Filtering keeps order and multiplicity: it distributes over concatenation. */
  lemma {:induction false} RemoveProjectConcat(a: seq<WorkProject>, b: seq<WorkProject>, id: string)
    ensures RemoveProject(a + b, id) == RemoveProject(a, id) + RemoveProject(b, id)
  {
    if a == [] {
      assert a + b == b;
    } else {
      var t := a[1..];
      var h := if a[0].id != id then [a[0]] else [];
      calc {
        RemoveProject(a + b, id);
        { HeadTail(a, b); }
        RemoveProject([a[0]] + (t + b), id);
        { RemoveProjectCons(a[0], t + b, id); }
        h + RemoveProject(t + b, id);
        { RemoveProjectConcat(t, b, id); }
        h + (RemoveProject(t, id) + RemoveProject(b, id));
        { AppendAssoc(h, RemoveProject(t, id), RemoveProject(b, id)); }
        (h + RemoveProject(t, id)) + RemoveProject(b, id);
        { RemoveProjectCons(a[0], t, id); }
        RemoveProject(a, id) + RemoveProject(b, id);
      }
    }
  }

  /** A one-element list keeps its element exactly when it passes the test. */
  lemma RemoveProjectSingleton(x: WorkProject, id: string)
    ensures RemoveProject([x], id) == (if x.id != id then [x] else [])
  {
    RemoveProjectCons(x, [], id);
    assert [x] + [] == [x];
  }

  /** `tasks.filter(t => t.id !== id)` */
  function RemoveTask(ts: seq<WorkTask>, id: string): (r: seq<WorkTask>)
    ensures |r| <= |ts|
    ensures forall t :: t in r <==> t in ts && t.id != id
  {
    if ts == [] then []
    else (if ts[0].id != id then [ts[0]] else []) + RemoveTask(ts[1..], id)
  }

  /** `RemoveTask` of a list with a known head. */
  lemma RemoveTaskCons(x: WorkTask, t: seq<WorkTask>, id: string)
    ensures RemoveTask([x] + t, id) == (if x.id != id then [x] else []) + RemoveTask(t, id)
  {
    assert ([x] + t)[0] == x && ([x] + t)[1..] == t;
  }

  /** Filtering keeps order and multiplicity: it distributes over concatenation. */
  lemma {:induction false} RemoveTaskConcat(a: seq<WorkTask>, b: seq<WorkTask>, id: string)
    ensures RemoveTask(a + b, id) == RemoveTask(a, id) + RemoveTask(b, id)
  {
    if a == [] {
      assert a + b == b;
    } else {
      var t := a[1..];
      var h := if a[0].id != id then [a[0]] else [];
      calc {
        RemoveTask(a + b, id);
        { HeadTail(a, b); }
        RemoveTask([a[0]] + (t + b), id);
        { RemoveTaskCons(a[0], t + b, id); }
        h + RemoveTask(t + b, id);
        { RemoveTaskConcat(t, b, id); }
        h + (RemoveTask(t, id) + RemoveTask(b, id));
        { AppendAssoc(h, RemoveTask(t, id), RemoveTask(b, id)); }
        (h + RemoveTask(t, id)) + RemoveTask(b, id);
        { RemoveTaskCons(a[0], t, id); }
        RemoveTask(a, id) + RemoveTask(b, id);
      }
    }
  }

  /** A one-element list keeps its element exactly when it passes the test. */
  lemma RemoveTaskSingleton(x: WorkTask, id: string)
    ensures RemoveTask([x], id) == (if x.id != id then [x] else [])
  {
    RemoveTaskCons(x, [], id);
    assert [x] + [] == [x];
  }

  /**
   * After unassigning, no task belongs to the deleted project, every task keeps its
   * id, archived flag and position, and the tasks of other projects are untouched.
   */
  lemma UnassignMeaning(ts: seq<WorkTask>, id: string, now: string)
    ensures var r := Unassign(ts, id, now);
      (forall i :: 0 <= i < |r| ==> r[i].projectId != Some(id))
      && (forall i :: 0 <= i < |r| ==> r[i].id == ts[i].id && r[i].archived == ts[i].archived)
      && (forall i :: 0 <= i < |r| && ts[i].projectId != Some(id) ==> r[i] == ts[i])
      && (forall i :: 0 <= i < |r| && ts[i].projectId == Some(id) ==> r[i].projectId.None?)
  {
  }

  lemma {:induction false} ProjectTasksAfterUnassign(ts: seq<WorkTask>, n: nat, id: string, now: string, pid: string)
    requires n <= |ts|
    requires pid != id
    ensures ProjectTasks(Unassign(ts, id, now), n, pid) == ProjectTasks(ts, n, pid)
  {
    if n > 0 {
      ProjectTasksAfterUnassign(ts, n - 1, id, now, pid);
      var u := Unassign(ts, id, now);
      if ts[n - 1].projectId == Some(id) {
        assert u[n - 1].projectId.None?;
      } else {
        assert u[n - 1] == ts[n - 1];
      }
    }
  }

  /** Deleting a project changes the stats of no other project. */
  lemma OtherProjectsUnchanged(ts: seq<WorkTask>, es: seq<WorkEntry>, id: string, now: string, pid: string)
    requires pid != id
    ensures StatOf(pid, Unassign(ts, id, now), es) == StatOf(pid, ts, es)
  {
    ProjectTasksAfterUnassign(ts, |ts|, id, now, pid);
  }

  /** After the delete, the deleted project's id would count no tasks and no time. */
  lemma {:induction false} DeletedProjectIsEmpty(ts: seq<WorkTask>, n: nat, id: string, now: string)
    requires n <= |ts|
    ensures ProjectTasks(Unassign(ts, id, now), n, id) == []
  {
    if n > 0 {
      DeletedProjectIsEmpty(ts, n - 1, id, now);
    }
  }

  // ---------------------------------------------------------------------
  // The controller

  /** The lists the controller loads on every `refresh` and writes back through its handlers. */
  class WorkspaceController {
    var projects: seq<WorkProject>
    var tasks: seq<WorkTask>
    var timeEntries: seq<WorkEntry>

    constructor (projects: seq<WorkProject>, tasks: seq<WorkTask>, timeEntries: seq<WorkEntry>)
      ensures this.projects == projects && this.tasks == tasks && this.timeEntries == timeEntries
    {
      this.projects := projects;
      this.tasks := tasks;
      this.timeEntries := timeEntries;
    }

    /**
     * `handleDeleteProject(id)`: when confirmed, the project's tasks are unassigned and
     * the project alone is removed; the time entries are kept. Declined, nothing changes.
     */
    method HandleDeleteProject(id: string, confirmed: bool, now: string)
      modifies this
      ensures !confirmed ==> projects == old(projects) && tasks == old(tasks)
      ensures confirmed ==> projects == RemoveProject(old(projects), id) && tasks == Unassign(old(tasks), id, now)
      ensures timeEntries == old(timeEntries)
    {
      if !confirmed {
        return;
      }
      var updatedTasks := Unassign(tasks, id, now);
      tasks := updatedTasks;
      projects := RemoveProject(projects, id);
    }

    /** `handleDeleteTask(id)`: when confirmed, that task is dropped and its time entries are kept. */
    method HandleDeleteTask(id: string, confirmed: bool)
      modifies this
      ensures !confirmed ==> tasks == old(tasks)
      ensures confirmed ==> tasks == RemoveTask(old(tasks), id)
      ensures projects == old(projects) && timeEntries == old(timeEntries)
    {
      if !confirmed {
        return;
      }
      tasks := RemoveTask(tasks, id);
    }
  }
}
