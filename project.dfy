/**
 * Projects: `Project` in electron-tracker/src/shared/Project.js. A project groups task ids,
 * keeps a completion percentage and a deadline, and is stored as a flat record whose optional
 * entries fall back to defaults when read.
 */
module Projects {
  import opened Wrappers
  import opened Timestamps
  import opened TaskSerialization

  /** The colour used for a new project and for any status or priority without one of its own. */
  const DefaultColor: string := "#81a1c1"
  const DefaultPriority: string := "medium"

  const Active: string := "active"
  const OnHold: string := "on_hold"
  const Done: string := "completed"
  const Archived: string := "archived"

  /**
   * The fields of a project. Status and priority are kept as the strings the source keeps:
   * `fromJSON` copies whatever the record holds.
   */
  datatype ProjectFields = ProjectFields(
    id: string,
    name: string,
    description: string,
    workspaceId: Option<string>,
    status: string,
    createdAt: Time,
    updatedAt: Time,
    color: string,
    tasks: seq<string>,
    priority: string,
    deadline: Option<Time>,
    progress: int)

  /** `new Project(name, description, workspaceId)`, with the generated id and the clock passed in. */
  function NewProject(id: string, name: string, description: string, workspaceId: Option<string>, now: Time): ProjectFields {
    ProjectFields(id, name, description, workspaceId, Active, now, now, DefaultColor, [], DefaultPriority, None, 0)
  }

  // ---------------------------------------------------------------------------------------
  // Progress

  /** `Math.round(x)`: the nearest integer, halves rounded up. */
  function Round(x: real): int {
    (x + 0.5).Floor
  }

  /** The percentage `updateProgress(completed, total)` stores; no division when there are no tasks. */
  function Progress(completed: int, total: int): int {
    if total == 0 then 0 else Round((completed as real / total as real) * 100.0)
  }

  /** Rounding stays within the integers around its argument. */
  lemma RoundBounds(x: real, lo: int, hi: int)
    requires lo as real <= x <= hi as real
    ensures lo <= Round(x) <= hi
  {
  }

  /**
   * With no more tasks done than there are, the progress is a percentage: 0 when none is done,
   * 100 when all are.
   */
  lemma ProgressBounds(completed: int, total: int)
    requires 0 <= completed <= total
    ensures 0 <= Progress(completed, total) <= 100
    ensures completed == 0 ==> Progress(completed, total) == 0
    ensures completed == total && total > 0 ==> Progress(completed, total) == 100
  {
    if total > 0 {
      var q := completed as real / total as real;
      assert q * total as real == completed as real;
      assert 0.0 <= q <= 1.0;
      RoundBounds(q * 100.0, 0, 100);
      if completed == total {
        assert q == 1.0;
      }
    }
  }

  // ---------------------------------------------------------------------------------------
  // The task list

  /** `addTask(taskId)`: the id is appended unless it is already there. */
  function Added(ts: seq<string>, id: string): seq<string> {
    if id in ts then ts else ts + [id]
  }

  /** `tasks.indexOf(id)`: the first index holding `id`, or -1. */
  function IndexOf(ts: seq<string>, id: string): (r: int)
    ensures -1 <= r < |ts|
    ensures r >= 0 ==> ts[r] == id && forall i :: 0 <= i < r ==> ts[i] != id
    ensures r < 0 <==> id !in ts
  {
    if ts == [] then -1
    else if ts[0] == id then 0
    else var r := IndexOf(ts[1..], id); if r < 0 then -1 else r + 1
  }

  /** `removeTask(taskId)`: the first occurrence of the id is spliced out, if there is one. */
  function Removed(ts: seq<string>, id: string): seq<string> {
    var i := IndexOf(ts, id);
    if i > -1 then ts[..i] + ts[i + 1..] else ts
  }

  /** No id occurs twice. */
  ghost predicate NoRepeats(ts: seq<string>) {
    forall x :: multiset(ts)[x] <= 1
  }

  /**
   * After `addTask(id)` the id is in the list exactly once when it was at most once before, and
   * no other id changes its count: the list never gains a duplicate.
   */
  lemma AddedOnce(ts: seq<string>, id: string)
    requires multiset(ts)[id] <= 1
    ensures multiset(Added(ts, id))[id] == 1
    ensures forall x :: x != id ==> multiset(Added(ts, id))[x] == multiset(ts)[x]
    ensures NoRepeats(ts) ==> NoRepeats(Added(ts, id))
  {
    if id !in ts {
      assert multiset(ts + [id]) == multiset(ts) + multiset{id};
    }
  }

  /** Adding an id a second time changes nothing. */
  lemma AddedIdempotent(ts: seq<string>, id: string)
    ensures Added(Added(ts, id), id) == Added(ts, id)
  {
  }

  /** `removeTask(id)` takes exactly one occurrence of a present id out, and leaves a list without it as it is. */
  lemma RemovedOne(ts: seq<string>, id: string)
    ensures multiset(Removed(ts, id)) == multiset(ts) - multiset{id}
    ensures id !in ts ==> Removed(ts, id) == ts
    ensures NoRepeats(ts) ==> id !in Removed(ts, id)
  {
    var i := IndexOf(ts, id);
    if i > -1 {
      Splice(ts, i);
    }
    if NoRepeats(ts) {
      assert multiset(ts)[id] <= 1;
      assert multiset(Removed(ts, id))[id] == 0;
    }
  }

  /** Taking out the element at `i` takes one of it out of the multiset. */
  lemma Splice(ts: seq<string>, i: nat)
    requires i < |ts|
    ensures multiset(ts[..i] + ts[i + 1..]) == multiset(ts) - multiset{ts[i]}
  {
    assert ts == ts[..i] + [ts[i]] + ts[i + 1..];
    assert multiset(ts) == multiset(ts[..i]) + multiset{ts[i]} + multiset(ts[i + 1..]);
  }

  /** Adding an id that was not in the list and then removing it gives the list back. */
  lemma RemoveAfterAdd(ts: seq<string>, id: string)
    requires id !in ts
    ensures Removed(Added(ts, id), id) == ts
  {
    var ts' := ts + [id];
    assert ts'[|ts|] == id;
    assert IndexOf(ts', id) == |ts|;
    assert ts'[..|ts|] == ts;
  }

  // ---------------------------------------------------------------------------------------
  // Colours and deadline

  /** `getStatusColor()`: a fixed colour per status, and the default colour for any other text. */
  function StatusColor(status: string): (c: string)
    ensures c == DefaultColor <==> status !in {Active, OnHold, Done, Archived}
  {
    if status == Active then "#a3be8c"
    else if status == OnHold then "#ebcb8b"
    else if status == Done then "#88c0d0"
    else if status == Archived then "#4c566a"
    else DefaultColor
  }

  /** `getPriorityColor()`: a fixed colour per priority, and the default colour for any other text. */
  function PriorityColor(priority: string): (c: string)
    ensures c == DefaultColor <==> priority !in {"high", "medium", "low"}
  {
    if priority == "high" then "#bf616a"
    else if priority == "medium" then "#ebcb8b"
    else if priority == "low" then "#88c0d0"
    else DefaultColor
  }

  /** `isOverdue()` at time `now`: a deadline has passed and the project is not completed. */
  function IsOverdue(p: ProjectFields, now: Time): bool {
    p.deadline.Some? && now > p.deadline.value && p.status != Done
  }

  /**
   * Once overdue, a project stays overdue as time goes on; a project without a deadline or a
   * completed one never is.
   */
  lemma OverdueStays(p: ProjectFields, now: Time, later: Time)
    requires IsOverdue(p, now) && now <= later
    ensures IsOverdue(p, later)
    ensures p.deadline.Some? && p.status != Done && later > p.deadline.value
  {
  }

  // ---------------------------------------------------------------------------------------
  // The stored record

  /** A project record as parsed from the store; optional entries are `None` when missing. */
  datatype ProjectJson = ProjectJson(
    id: string,
    name: string,
    description: Option<string>,
    workspaceId: Option<string>,
    status: string,
    createdAt: string,
    updatedAt: string,
    color: Option<string>,
    tasks: Option<seq<string>>,
    priority: Option<string>,
    deadline: Option<string>,
    progress: Option<int>)

  /** `toJSON()` */
  function ProjectToJson(p: ProjectFields): ProjectJson {
    ProjectJson(p.id, p.name, Some(p.description), p.workspaceId, p.status, Format(p.createdAt), Format(p.updatedAt),
                Some(p.color), Some(p.tasks), Some(p.priority), StampOut(p.deadline), Some(p.progress))
  }

  /** `s || fallback` on a text that may be missing: an empty text is falsy too. */
  function TextOr(s: Option<string>, fallback: string): string {
    if s.None? || s.value == "" then fallback else s.value
  }

  /**
   * `Project.fromJSON(data)`: missing entries take the constructor's defaults, and an empty colour
   * or priority is replaced as well. `None` when a timestamp cannot be read (the source would keep
   * an invalid date).
   */
  function ProjectFromJson(j: ProjectJson): Option<ProjectFields> {
    var created := Parse(j.createdAt);
    var updated := Parse(j.updatedAt);
    var deadline := StampIn(j.deadline);
    if created.None? || updated.None? || deadline.None? then None
    else Some(ProjectFields(j.id, j.name, j.description.GetOr(""), j.workspaceId, j.status, created.value, updated.value,
                            TextOr(j.color, DefaultColor), j.tasks.GetOr([]), TextOr(j.priority, DefaultPriority),
                            deadline.value, j.progress.GetOr(0)))
  }

  /** Reading a written project gives back every field, except that an empty colour or priority takes its default. */
  lemma ProjectRoundTrip(p: ProjectFields)
    ensures ProjectFromJson(ProjectToJson(p)) ==
      Some(p.(color := TextOr(Some(p.color), DefaultColor), priority := TextOr(Some(p.priority), DefaultPriority)))
    ensures ProjectFromJson(ProjectToJson(p)) == Some(p) <==> p.color != "" && p.priority != ""
  {
    ParseFormat(p.createdAt);
    ParseFormat(p.updatedAt);
    StampRoundTrip(p.deadline);
    var q := p.(color := TextOr(Some(p.color), DefaultColor), priority := TextOr(Some(p.priority), DefaultPriority));
    if q == p {
      assert q.color == p.color && q.priority == p.priority;
    }
  }

  /** A record without colour, tasks, priority or progress reads with the defaults of a new project. */
  lemma ProjectDefaults(j: ProjectJson)
    requires ProjectFromJson(j).Some? && j.color.None? && j.tasks.None? && j.priority.None? && j.progress.None?
    ensures var p := ProjectFromJson(j).value;
      p.color == DefaultColor && p.tasks == [] && p.priority == DefaultPriority && p.progress == 0
  {
  }

  // ---------------------------------------------------------------------------------------
  // The project object

  class Project {
    var id: string
    var name: string
    var description: string
    var workspaceId: Option<string>
    var status: string
    var createdAt: Time
    var updatedAt: Time
    var color: string
    var tasks: seq<string>
    var priority: string
    var deadline: Option<Time>
    var progress: int

    function Fields(): ProjectFields
      reads this
    {
      ProjectFields(id, name, description, workspaceId, status, createdAt, updatedAt, color, tasks, priority, deadline, progress)
    }

    /** `new Project(name, description, workspaceId)` */
    constructor (id: string, name: string, description: string, workspaceId: Option<string>, now: Time)
      ensures Fields() == NewProject(id, name, description, workspaceId, now)
    {
      this.id, this.name, this.description, this.workspaceId := id, name, description, workspaceId;
      status, createdAt, updatedAt, color := Active, now, now, DefaultColor;
      tasks, priority, deadline, progress := [], DefaultPriority, None, 0;
    }

    /** `updateProgress(completedTasks, totalTasks)`: the progress is recomputed and the project touched. */
    method UpdateProgress(completed: int, total: int, now: Time)
      modifies this
      ensures Fields() == old(Fields()).(progress := Progress(completed, total), updatedAt := now)
    {
      progress := Progress(completed, total);
      updatedAt := now;
    }

    /** `addTask(taskId)`: the project is touched only when the id is new. */
    method AddTask(taskId: string, now: Time)
      modifies this
      ensures tasks == Added(old(tasks), taskId)
      ensures Fields() == old(Fields()).(tasks := tasks, updatedAt := if taskId in old(tasks) then old(updatedAt) else now)
    {
      if taskId !in tasks {
        tasks := tasks + [taskId];
        updatedAt := now;
      }
    }

    /** `removeTask(taskId)`: the project is touched only when the id was there. */
    method RemoveTask(taskId: string, now: Time)
      modifies this
      ensures tasks == Removed(old(tasks), taskId)
      ensures Fields() == old(Fields()).(tasks := tasks, updatedAt := if taskId in old(tasks) then now else old(updatedAt))
    {
      var index := IndexOf(tasks, taskId);
      if index > -1 {
        tasks := tasks[..index] + tasks[index + 1..];
        updatedAt := now;
      }
    }
  }
}
