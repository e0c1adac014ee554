/**
 * The task entity: `Task` in electron-tracker/src/shared/Task.js and in src/traker/task.py.
 * Both files implement the same state machine, subtask scaffolding, time-block log and
 * derived figures; the two differ only in how they are serialized (see task_json.dfy and
 * py_records.dfy).
 *
 * A task is an object whose methods update its fields in place, and whose `subtasks` list holds
 * references to other task objects (the task manager puts the same object both in that list and in
 * its own map). Each method is specified by a pure function on `TaskFields`, the record of every
 * field except `subtasks`; the properties of the state machine are lemmas about those functions.
 */
module TaskEntity {
  import opened Wrappers
  import opened Timestamps

  datatype TaskStatus = Pending | InProgress | Paused | Completed

  datatype TaskType = Main | Subtask | Context

  /** One logged interval of work or break, `{duration, isBreak, timestamp}` in the source. */
  datatype TimeBlock = TimeBlock(duration: int, isBreak: bool, timestamp: Time)

  /** Estimate of a task made by the constructor, in minutes. */
  const DefaultEstimate: int := 30
  /** Estimate of the "Subdivide" and "Context Recovery" scaffolding subtasks. */
  const ScaffoldEstimate: int := 25
  /** Largest estimate an explicitly created subtask may have. */
  const MaxSubtaskEstimate: int := 50
  /** Minutes of work since the last break after which a break is suggested. */
  const BreakThreshold: int := 50

  const SubdividePrefix: string := "Subdivide: "
  const SubdivideDescription: string := "Break down this task into smaller subtasks"
  const ContextTitle: string := "Context Recovery"
  const ContextDescription: string := "Get back into context of what was being done"

  /** Every field of a task object except its list of subtask objects. */
  datatype TaskFields = TaskFields(
    id: string,
    title: string,
    description: string,
    parentId: Option<string>,
    workspaceId: Option<string>,
    status: TaskStatus,
    taskType: TaskType,
    createdAt: Time,
    startedAt: Option<Time>,
    completedAt: Option<Time>,
    estimatedDuration: int,
    actualDuration: real,
    timeBlocks: seq<TimeBlock>,
    isResumed: bool)

  /** The constructor's choice of type: a task without a parent is a main task. */
  function TypeFor(parentId: Option<string>): TaskType {
    if parentId.None? then Main else Subtask
  }

  /** The fields of `new Task(title, description, parentId)` made with id `id` at time `now`. */
  function NewTask(id: string, title: string, description: string, parentId: Option<string>, now: Time): TaskFields {
    TaskFields(id, title, description, parentId, None, Pending, TypeFor(parentId), now,
               None, None, DefaultEstimate, 0.0, [], false)
  }

  lemma NewTaskDefaults(id: string, title: string, description: string, parentId: Option<string>, now: Time)
    ensures var f := NewTask(id, title, description, parentId, now);
      && f.status == Pending && f.estimatedDuration == DefaultEstimate
      && (f.taskType == Main <==> parentId.None?) && (f.taskType == Subtask <==> parentId.Some?)
      && f.startedAt.None? && f.completedAt.None? && f.timeBlocks == [] && !f.isResumed
  {
  }

  // ---------------------------------------------------------------------------------------
  // The state machine

  /** `start()`: only a pending task starts, and its start time is recorded. */
  function AfterStart(f: TaskFields, now: Time): TaskFields {
    if f.status == Pending then f.(status := InProgress, startedAt := Some(now)) else f
  }

  /** `pause()`: only a running task pauses. */
  function AfterPause(f: TaskFields): TaskFields {
    if f.status == InProgress then f.(status := Paused) else f
  }

  /** `resume()`: only a paused task resumes, and it is marked as resumed. */
  function AfterResume(f: TaskFields): TaskFields {
    if f.status == Paused then f.(status := InProgress, isResumed := true) else f
  }

  /** `complete()`: from any status; the duration is measured only when a start time is known. */
  function AfterComplete(f: TaskFields, now: Time): TaskFields {
    f.(status := Completed, completedAt := Some(now),
       actualDuration := if f.startedAt.Some? then ElapsedMinutes(f.startedAt.value, now) else f.actualDuration)
  }

  /** `addTimeBlock(duration, isBreak)`: one block is appended to the log. */
  function AfterTimeBlock(f: TaskFields, duration: int, isBreak: bool, now: Time): TaskFields {
    f.(timeBlocks := f.timeBlocks + [TimeBlock(duration, isBreak, now)])
  }

  lemma StartGuard(f: TaskFields, now: Time)
    ensures f.status == Pending ==> AfterStart(f, now).status == InProgress && AfterStart(f, now).startedAt == Some(now)
    ensures AfterStart(f, now) != f <==> f.status == Pending
  {
  }

  lemma PauseGuard(f: TaskFields)
    ensures f.status == InProgress ==> AfterPause(f).status == Paused
    ensures AfterPause(f) != f <==> f.status == InProgress
  {
  }

  lemma ResumeGuard(f: TaskFields)
    ensures f.status == Paused ==> AfterResume(f).status == InProgress && AfterResume(f).isResumed
    ensures AfterResume(f) != f <==> f.status == Paused
  {
  }

  lemma CompleteFromAnyStatus(f: TaskFields, now: Time)
    ensures AfterComplete(f, now).status == Completed && AfterComplete(f, now).completedAt == Some(now)
    ensures f.startedAt.Some? ==> AfterComplete(f, now).actualDuration == ElapsedMinutes(f.startedAt.value, now)
    ensures f.startedAt.None? ==> AfterComplete(f, now).actualDuration == f.actualDuration
  {
  }

  lemma TimeBlockAppended(f: TaskFields, duration: int, isBreak: bool, now: Time)
    ensures var g := AfterTimeBlock(f, duration, isBreak, now);
      && |g.timeBlocks| == |f.timeBlocks| + 1
      && g.timeBlocks[..|f.timeBlocks|] == f.timeBlocks
      && g.timeBlocks[|f.timeBlocks|].duration == duration && g.timeBlocks[|f.timeBlocks|].isBreak == isBreak
      && g.(timeBlocks := f.timeBlocks) == f
  {
  }

  /** A call of one of the task's field-changing methods. */
  datatype TaskEvent =
    | Start(at: Time)
    | Pause
    | Resume
    | Complete(at: Time)
    | LogBlock(duration: int, isBreak: bool, at: Time)

  function Apply(f: TaskFields, e: TaskEvent): TaskFields {
    match e
    case Start(at) => AfterStart(f, at)
    case Pause => AfterPause(f)
    case Resume => AfterResume(f)
    case Complete(at) => AfterComplete(f, at)
    case LogBlock(d, b, at) => AfterTimeBlock(f, d, b, at)
  }

  /** The fields after a sequence of method calls, first call first. */
  function Run(f: TaskFields, events: seq<TaskEvent>): TaskFields
    decreases |events|
  {
    if events == [] then f else Run(Apply(f, events[0]), events[1..])
  }

  /** The edges of the status diagram: pending to running, running and paused back and forth, anything to completed. */
  predicate LegalEdge(from: TaskStatus, to: TaskStatus) {
    || from == to
    || (from == Pending && to == InProgress)
    || (from == InProgress && to == Paused)
    || (from == Paused && to == InProgress)
    || to == Completed
  }

  lemma ApplyFollowsLegalEdge(f: TaskFields, e: TaskEvent)
    ensures LegalEdge(f.status, Apply(f, e).status)
  {
  }

  /** Completed is absorbing: no sequence of calls takes a completed task out of that status. */
  lemma {:induction false} CompletedIsTerminal(f: TaskFields, events: seq<TaskEvent>)
    requires f.status == Completed
    ensures Run(f, events).status == Completed
    decreases |events|
  {
    if events != [] {
      CompletedIsTerminal(Apply(f, events[0]), events[1..]);
    }
  }

  /** Once a task has left the pending status it never returns to it. */
  lemma {:induction false} NeverPendingAgain(f: TaskFields, events: seq<TaskEvent>)
    requires f.status != Pending
    ensures Run(f, events).status != Pending
    decreases |events|
  {
    if events != [] {
      NeverPendingAgain(Apply(f, events[0]), events[1..]);
    }
  }

  /** No call changes what a task is: its id, title, parent, type, creation time and estimate. */
  lemma {:induction false} RunKeepsIdentity(f: TaskFields, events: seq<TaskEvent>)
    ensures var g := Run(f, events);
      && g.id == f.id && g.title == f.title && g.description == f.description && g.parentId == f.parentId
      && g.taskType == f.taskType && g.createdAt == f.createdAt && g.estimatedDuration == f.estimatedDuration
    decreases |events|
  {
    if events != [] {
      RunKeepsIdentity(Apply(f, events[0]), events[1..]);
    }
  }

  /** The time-block log only grows: every earlier block is kept, in order. */
  lemma {:induction false} RunExtendsLog(f: TaskFields, events: seq<TaskEvent>)
    ensures |f.timeBlocks| <= |Run(f, events).timeBlocks|
    ensures Run(f, events).timeBlocks[..|f.timeBlocks|] == f.timeBlocks
    decreases |events|
  {
    if events != [] {
      var g := Apply(f, events[0]);
      assert |f.timeBlocks| <= |g.timeBlocks| && g.timeBlocks[..|f.timeBlocks|] == f.timeBlocks;
      RunExtendsLog(g, events[1..]);
      var h := Run(g, events[1..]);
      assert h.timeBlocks[..|f.timeBlocks|] == h.timeBlocks[..|g.timeBlocks|][..|f.timeBlocks|];
    }
  }

  // ---------------------------------------------------------------------------------------
  // Scaffolding and explicit subtasks

  /** The subtask `subdivide()` creates: "Subdivide: <title>", 25 minutes, type subtask. */
  function SubdivisionTask(parent: TaskFields, newId: string, now: Time): TaskFields {
    NewTask(newId, SubdividePrefix + parent.title, SubdivideDescription, Some(parent.id), now)
      .(taskType := Subtask, estimatedDuration := ScaffoldEstimate)
  }

  /** The subtask `addContextTask()` creates: "Context Recovery", 25 minutes, type context. */
  function ContextTask(parent: TaskFields, newId: string, now: Time): TaskFields {
    NewTask(newId, ContextTitle, ContextDescription, Some(parent.id), now)
      .(taskType := Context, estimatedDuration := ScaffoldEstimate)
  }

  /** The subtask `createSubtask(title, description, duration)` creates: its estimate is capped at 50. */
  function ExplicitSubtask(parent: TaskFields, newId: string, title: string, description: string, duration: int, now: Time): TaskFields {
    NewTask(newId, title, description, Some(parent.id), now)
      .(taskType := Subtask, estimatedDuration := if duration < MaxSubtaskEstimate then duration else MaxSubtaskEstimate)
  }

  lemma SubdivisionTaskShape(parent: TaskFields, newId: string, now: Time)
    ensures var s := SubdivisionTask(parent, newId, now);
      && s.title == SubdividePrefix + parent.title && s.title[..|SubdividePrefix|] == SubdividePrefix
      && s.estimatedDuration == ScaffoldEstimate && s.taskType == Subtask
      && s.parentId == Some(parent.id) && s.status == Pending
  {
  }

  lemma ContextTaskShape(parent: TaskFields, newId: string, now: Time)
    ensures var s := ContextTask(parent, newId, now);
      && s.title == ContextTitle && s.estimatedDuration == ScaffoldEstimate && s.taskType == Context
      && s.parentId == Some(parent.id) && s.status == Pending
  {
  }

  /** The cap has no lower bound: a duration of at most 50 is kept as it is, even a negative one. */
  lemma ExplicitSubtaskEstimate(parent: TaskFields, newId: string, title: string, description: string, duration: int, now: Time)
    ensures var s := ExplicitSubtask(parent, newId, title, description, duration, now);
      && s.estimatedDuration <= MaxSubtaskEstimate
      && (duration <= MaxSubtaskEstimate ==> s.estimatedDuration == duration)
      && (duration >= MaxSubtaskEstimate ==> s.estimatedDuration == MaxSubtaskEstimate)
      && s.parentId == Some(parent.id) && s.taskType == Subtask && s.title == title
  {
  }

  // ---------------------------------------------------------------------------------------
  // The break heuristic

  /**
   * Minutes of work logged since the most recent break, read from the end of the log:
   * a break ends the count, a work block adds its duration.
   */
  function WorkSinceLastBreak(blocks: seq<TimeBlock>): int
    decreases |blocks|
  {
    if blocks == [] then 0
    else if blocks[|blocks| - 1].isBreak then 0
    else WorkSinceLastBreak(blocks[..|blocks| - 1]) + blocks[|blocks| - 1].duration
  }

  /** `shouldTakeBreak()`, stated declaratively. */
  predicate BreakDue(blocks: seq<TimeBlock>) {
    WorkSinceLastBreak(blocks) >= BreakThreshold
  }

  /** Logging one more block adds its duration to the work total, or nothing for a break. */
  lemma WorkTotalSnoc(blocks: seq<TimeBlock>, b: TimeBlock)
    ensures WorkTotal(blocks + [b]) == WorkTotal(blocks) + (if b.isBreak then 0 else b.duration)
  {
    assert (blocks + [b])[..|blocks|] == blocks;
  }

  predicate HasWork(blocks: seq<TimeBlock>) {
    exists i :: 0 <= i < |blocks| && !blocks[i].isBreak
  }

  /** Total duration of the work blocks of a stretch of the log, breaks ignored. */
  function WorkTotal(blocks: seq<TimeBlock>): int
    decreases |blocks|
  {
    if blocks == [] then 0
    else WorkTotal(blocks[..|blocks| - 1]) + (if blocks[|blocks| - 1].isBreak then 0 else blocks[|blocks| - 1].duration)
  }

  /** A log with no work block suggests no break: the early exits of the source agree with `BreakDue`. */
  lemma {:induction false} NoWorkNoBreak(blocks: seq<TimeBlock>)
    requires !HasWork(blocks)
    ensures WorkSinceLastBreak(blocks) == 0 && !BreakDue(blocks)
  {
    if blocks != [] {
      assert !blocks[|blocks| - 1].isBreak ==> HasWork(blocks);
    }
  }

  /**
   * When `lastBreak` is the index of the last break (or -1 if there is none), the work since
   * the last break is the work total of the blocks after it.
   */
  lemma {:induction false} WorkAfterLastBreak(blocks: seq<TimeBlock>, lastBreak: int)
    requires -1 <= lastBreak < |blocks|
    requires lastBreak >= 0 ==> blocks[lastBreak].isBreak
    requires forall j :: lastBreak < j < |blocks| ==> !blocks[j].isBreak
    ensures WorkSinceLastBreak(blocks) == WorkTotal(blocks[lastBreak + 1..])
    decreases |blocks|
  {
    if blocks == [] {
    } else if lastBreak == |blocks| - 1 {
      assert blocks[lastBreak + 1..] == [];
    } else {
      var n := |blocks|;
      var front := blocks[..n - 1];
      WorkAfterLastBreak(front, lastBreak);
      assert blocks[lastBreak + 1..][..n - lastBreak - 2] == front[lastBreak + 1..];
    }
  }

  /** The first loop of `shouldTakeBreak()`: the index of the last break, scanning backwards, or -1. */
  method LastBreakIndex(blocks: seq<TimeBlock>) returns (lastBreak: int)
    ensures -1 <= lastBreak < |blocks|
    ensures lastBreak >= 0 ==> blocks[lastBreak].isBreak
    ensures forall j :: lastBreak < j < |blocks| ==> !blocks[j].isBreak
  {
    lastBreak := -1;
    var i := |blocks| - 1;
    while i >= 0
      invariant -1 <= i < |blocks|
      invariant lastBreak == -1
      invariant forall j :: i < j < |blocks| ==> !blocks[j].isBreak
      decreases i + 1
    {
      if blocks[i].isBreak {
        lastBreak := i;
        break;
      }
      i := i - 1;
    }
  }

  /** The second loop of `shouldTakeBreak()`: the work logged from index `start` on. */
  method WorkFrom(blocks: seq<TimeBlock>, start: nat) returns (work: int)
    requires start <= |blocks|
    ensures work == WorkTotal(blocks[start..])
  {
    work := 0;
    var k := start;
    while k < |blocks|
      invariant start <= k <= |blocks|
      invariant work == WorkTotal(blocks[start..k])
    {
      assert blocks[start..k + 1] == blocks[start..k] + [blocks[k]];
      WorkTotalSnoc(blocks[start..k], blocks[k]);
      if !blocks[k].isBreak {
        work := work + blocks[k].duration;
      }
      k := k + 1;
    }
    assert blocks[start..k] == blocks[start..];
  }

  /** A break resets the count: only the blocks after the last break matter. */
  lemma {:induction false} BreakResetsWork(before: seq<TimeBlock>, pause: TimeBlock, after: seq<TimeBlock>)
    requires pause.isBreak
    ensures WorkSinceLastBreak(before + [pause] + after) == WorkSinceLastBreak(after)
    decreases |after|
  {
    var all := before + [pause] + after;
    if after == [] {
      assert all[|all| - 1] == pause;
    } else {
      var n := |after|;
      assert all[..|all| - 1] == before + [pause] + after[..n - 1];
      assert all[|all| - 1] == after[n - 1];
      BreakResetsWork(before, pause, after[..n - 1]);
    }
  }

  /** Logging a work block adds its duration to the count; logging a break clears it. */
  lemma LoggingUpdatesWork(blocks: seq<TimeBlock>, b: TimeBlock)
    ensures WorkSinceLastBreak(blocks + [b]) == if b.isBreak then 0 else WorkSinceLastBreak(blocks) + b.duration
  {
    assert (blocks + [b])[..|blocks|] == blocks;
  }

  /** The examples of the break heuristic: no log, 30 + 25 minutes of work, and 30, a break, 15. */
  lemma BreakExamples(t: Time)
    ensures !BreakDue([])
    ensures BreakDue([TimeBlock(30, false, t), TimeBlock(25, false, t)])
    ensures !BreakDue([TimeBlock(30, false, t), TimeBlock(10, true, t), TimeBlock(15, false, t)])
  {
    var a := [TimeBlock(30, false, t), TimeBlock(25, false, t)];
    assert a[..1] == [TimeBlock(30, false, t)];
    var b := [TimeBlock(30, false, t), TimeBlock(10, true, t), TimeBlock(15, false, t)];
    assert b[..2] == [TimeBlock(30, false, t), TimeBlock(10, true, t)];
    assert WorkSinceLastBreak(b[..2]) == 0;
  }

  /** A share of a whole lies between 0 and 1, and is 1 exactly when it is the whole. */
  lemma ShareBounds(k: real, n: real)
    requires 0.0 <= k <= n && n > 0.0
    ensures 0.0 <= k / n <= 1.0
    ensures k / n == 1.0 <==> k == n
    ensures k / n == 0.0 <==> k == 0.0
  {
    assert k / n * n == k;
  }

  // ---------------------------------------------------------------------------------------
  // Counting over lists of subtask objects

  /** Number of completed tasks in a list, the `filter(...).length` of the source. */
  function CountCompleted(ts: seq<Task>): (n: nat)
    reads ts`status
    ensures n <= |ts|
    decreases |ts|
  {
    if ts == [] then 0 else (if ts[0].status == Completed then 1 else 0) + CountCompleted(ts[1..])
  }

  predicate AllCompleted(ts: seq<Task>)
    reads ts`status
  {
    forall i :: 0 <= i < |ts| ==> ts[i].status == Completed
  }

  predicate NoneCompleted(ts: seq<Task>)
    reads ts`status
  {
    forall i :: 0 <= i < |ts| ==> ts[i].status != Completed
  }

  lemma {:induction false} CountCompletedExtremes(ts: seq<Task>)
    ensures CountCompleted(ts) == |ts| <==> AllCompleted(ts)
    ensures CountCompleted(ts) == 0 <==> NoneCompleted(ts)
    decreases |ts|
  {
    if ts != [] {
      CountCompletedExtremes(ts[1..]);
      assert forall i :: 1 <= i < |ts| ==> ts[i] == ts[1..][i - 1];
    }
  }

  /** The ids of a list of tasks. */
  function IdsOf(ts: seq<Task>): set<string> {
    set i | 0 <= i < |ts| :: ts[i].id
  }

  /** Number of context-recovery tasks in a list. */
  function CountContext(ts: seq<Task>): nat
    reads ts`taskType
    decreases |ts|
  {
    if ts == [] then 0 else (if ts[0].taskType == Context then 1 else 0) + CountContext(ts[1..])
  }

  /** The `subtasks.some(st => st.taskType === 'context')` of the source. */
  predicate HasContext(ts: seq<Task>)
    reads ts`taskType
  {
    exists i :: 0 <= i < |ts| && ts[i].taskType == Context
  }

  lemma {:induction false} HasContextCount(ts: seq<Task>)
    ensures HasContext(ts) <==> CountContext(ts) > 0
    decreases |ts|
  {
    if ts != [] {
      HasContextCount(ts[1..]);
      if ts[0].taskType != Context {
        assert HasContext(ts) ==> HasContext(ts[1..]) by {
          if HasContext(ts) {
            var i :| 0 <= i < |ts| && ts[i].taskType == Context;
            assert ts[1..][i - 1] == ts[i];
          }
        }
        assert HasContext(ts[1..]) ==> HasContext(ts) by {
          if HasContext(ts[1..]) {
            var i :| 0 <= i < |ts| - 1 && ts[1..][i].taskType == Context;
            assert ts[i + 1] == ts[1..][i];
          }
        }
      }
    }
  }

  // ---------------------------------------------------------------------------------------
  // Well-founded subtask graphs

  /**
   * `rank` numbers a set of task objects so that every subtask of a numbered task is numbered
   * and ranks lower than its parent: the subtask graph over those objects has no cycle, so the
   * recursive walks of the source (`getTotalEstimatedTime`, `toJSON`) terminate.
   */
  ghost predicate Ranked(rank: map<Task, nat>)
    reads rank.Keys`subtasks
  {
    forall t, i :: t in rank && 0 <= i < |t.subtasks| ==> t.subtasks[i] in rank && rank[t.subtasks[i]] < rank[t]
  }

  /** The sum of the total estimates of a list of subtasks, each ranked below `bound`. */
  function SubtasksTotal(ts: seq<Task>, ghost rank: map<Task, nat>, ghost bound: nat): int
    reads rank.Keys
    requires Ranked(rank)
    requires forall i :: 0 <= i < |ts| ==> ts[i] in rank && rank[ts[i]] < bound
    decreases bound, 0, |ts|
  {
    if ts == [] then 0 else ts[0].TotalEstimatedTime(rank) + SubtasksTotal(ts[1..], rank, bound)
  }

  /** The total estimate does not depend on which ranking proves that the walk terminates. */
  lemma {:induction false} TotalRankIrrelevant(t: Task, r1: map<Task, nat>, r2: map<Task, nat>)
    requires t in r1 && Ranked(r1) && t in r2 && Ranked(r2)
    ensures t.TotalEstimatedTime(r1) == t.TotalEstimatedTime(r2)
    decreases r1[t], 1
  {
    SubtasksTotalRankIrrelevant(t.subtasks, r1, r1[t], r2, r2[t]);
  }

  lemma {:induction false} SubtasksTotalRankIrrelevant(ts: seq<Task>, r1: map<Task, nat>, b1: nat, r2: map<Task, nat>, b2: nat)
    requires Ranked(r1) && Ranked(r2)
    requires forall i :: 0 <= i < |ts| ==> ts[i] in r1 && r1[ts[i]] < b1
    requires forall i :: 0 <= i < |ts| ==> ts[i] in r2 && r2[ts[i]] < b2
    ensures SubtasksTotal(ts, r1, b1) == SubtasksTotal(ts, r2, b2)
    decreases b1, 0, |ts|
  {
    if ts != [] {
      TotalRankIrrelevant(ts[0], r1, r2);
      SubtasksTotalRankIrrelevant(ts[1..], r1, b1, r2, b2);
    }
  }

  // ---------------------------------------------------------------------------------------
  // The task object

  class Task {
    const id: string
    var title: string
    var description: string
    const parentId: Option<string>
    var workspaceId: Option<string>
    var status: TaskStatus
    var taskType: TaskType
    var createdAt: Time
    var startedAt: Option<Time>
    var completedAt: Option<Time>
    var estimatedDuration: int
    var actualDuration: real
    var timeBlocks: seq<TimeBlock>
    var subtasks: seq<Task>
    var isResumed: bool

    /** The object's fields other than its subtask list, as a value. */
    function Fields(): TaskFields
      reads this`title, this`description, this`workspaceId, this`status, this`taskType, this`createdAt,
            this`startedAt, this`completedAt, this`estimatedDuration, this`actualDuration, this`timeBlocks, this`isResumed
    {
      TaskFields(id, title, description, parentId, workspaceId, status, taskType, createdAt,
                 startedAt, completedAt, estimatedDuration, actualDuration, timeBlocks, isResumed)
    }

    /** `new Task(title, description, parentId)`, with the generated id and the clock passed in. */
    constructor (id: string, title: string, description: string, parentId: Option<string>, now: Time)
      ensures Fields() == NewTask(id, title, description, parentId, now)
      ensures subtasks == []
    {
      this.id := id;
      this.title := title;
      this.description := description;
      this.parentId := parentId;
      this.workspaceId := None;
      this.status := Pending;
      this.taskType := if parentId.None? then Main else Subtask;
      this.createdAt := now;
      this.startedAt := None;
      this.completedAt := None;
      this.estimatedDuration := DefaultEstimate;
      this.actualDuration := 0.0;
      this.timeBlocks := [];
      this.subtasks := [];
      this.isResumed := false;
    }

    /**
     * A task rebuilt from stored fields, as `fromJSON` and `_dict_to_task` do: they construct a
     * task and then overwrite its fields one by one. The subtask list starts empty.
     */
    constructor Restore(f: TaskFields)
      ensures Fields() == f && subtasks == []
    {
      id, title, description, parentId, workspaceId := f.id, f.title, f.description, f.parentId, f.workspaceId;
      status, taskType, createdAt, startedAt, completedAt := f.status, f.taskType, f.createdAt, f.startedAt, f.completedAt;
      estimatedDuration, actualDuration, timeBlocks, isResumed := f.estimatedDuration, f.actualDuration, f.timeBlocks, f.isResumed;
      subtasks := [];
    }

    method Start(now: Time)
      modifies this
      ensures Fields() == AfterStart(old(Fields()), now) && subtasks == old(subtasks)
    {
      if status == Pending {
        status := InProgress;
        startedAt := Some(now);
      }
    }

    method Pause()
      modifies this
      ensures Fields() == AfterPause(old(Fields())) && subtasks == old(subtasks)
    {
      if status == InProgress {
        status := Paused;
      }
    }

    method Resume()
      modifies this
      ensures Fields() == AfterResume(old(Fields())) && subtasks == old(subtasks)
    {
      if status == Paused {
        status := InProgress;
        isResumed := true;
      }
    }

    method Complete(now: Time)
      modifies this
      ensures Fields() == AfterComplete(old(Fields()), now) && subtasks == old(subtasks)
    {
      status := Completed;
      completedAt := Some(now);
      if startedAt.Some? {
        actualDuration := ElapsedMinutes(startedAt.value, now);
      }
    }

    method AddTimeBlock(duration: int, isBreak: bool, now: Time)
      modifies this
      ensures Fields() == AfterTimeBlock(old(Fields()), duration, isBreak, now) && subtasks == old(subtasks)
    {
      timeBlocks := timeBlocks + [TimeBlock(duration, isBreak, now)];
    }

    /**
     * `subdivide()`: a task with no subtasks gets the single scaffolding subtask; a task that has
     * subtasks is left as it is, so a second call changes nothing. Returns the subtask list.
     */
    method Subdivide(newId: string, now: Time) returns (list: seq<Task>)
      modifies this
      ensures Fields() == old(Fields())
      ensures old(subtasks) == [] ==>
        |subtasks| == 1 && fresh(subtasks[0]) && subtasks[0].subtasks == []
        && subtasks[0].Fields() == SubdivisionTask(Fields(), newId, now)
      ensures old(subtasks) != [] ==> subtasks == old(subtasks)
      ensures list == subtasks
    {
      if |subtasks| == 0 {
        var s := new Task(newId, SubdividePrefix + title, SubdivideDescription, Some(id), now);
        s.taskType := Subtask;
        s.estimatedDuration := ScaffoldEstimate;
        subtasks := subtasks + [s];
      }
      list := subtasks;
    }

    /**
     * `addContextTask()`: a resumed task without a context subtask gets one, inserted in front;
     * otherwise nothing changes. So a resumed task ends with at least one context subtask, and
     * with exactly one when it had none.
     */
    method AddContextTask(newId: string, now: Time)
      modifies this
      ensures Fields() == old(Fields())
      ensures old(isResumed) && !old(HasContext(subtasks)) ==>
        |subtasks| == |old(subtasks)| + 1 && subtasks[1..] == old(subtasks)
        && fresh(subtasks[0]) && subtasks[0].subtasks == []
        && subtasks[0].Fields() == ContextTask(Fields(), newId, now)
      ensures !(old(isResumed) && !old(HasContext(subtasks))) ==> subtasks == old(subtasks)
      ensures old(isResumed) ==> CountContext(subtasks) == if old(CountContext(subtasks)) == 0 then 1 else old(CountContext(subtasks))
    {
      HasContextCount(subtasks);
      if isResumed && !HasContext(subtasks) {
        var c := new Task(newId, ContextTitle, ContextDescription, Some(id), now);
        c.taskType := Context;
        c.estimatedDuration := ScaffoldEstimate;
        ghost var before := subtasks;
        subtasks := [c] + subtasks;
        assert subtasks[1..] == before;
      }
    }

    /** `createSubtask(title, description, duration)`: appends one subtask, estimate capped at 50. */
    method CreateSubtask(newId: string, title: string, description: string, duration: int, now: Time) returns (s: Task)
      modifies this
      ensures fresh(s) && s.subtasks == []
      ensures s.Fields() == ExplicitSubtask(Fields(), newId, title, description, duration, now)
      ensures subtasks == old(subtasks) + [s]
      ensures Fields() == old(Fields())
    {
      s := new Task(newId, title, description, Some(id), now);
      s.taskType := Subtask;
      s.estimatedDuration := if duration < MaxSubtaskEstimate then duration else MaxSubtaskEstimate;
      subtasks := subtasks + [s];
    }

    /**
     * `getProgressPercentage()`: a leaf is 100 when completed and 0 otherwise; a task with
     * subtasks is the completed share of its direct subtasks, in percent.
     */
    function ProgressPercentage(): (p: real)
      reads this, subtasks`status
      ensures 0.0 <= p <= 100.0
      ensures subtasks == [] ==> (p == 100.0 <==> status == Completed) && (p == 0.0 <==> status != Completed)
      ensures subtasks != [] ==> (p == 100.0 <==> AllCompleted(subtasks)) && (p == 0.0 <==> NoneCompleted(subtasks))
    {
      if |subtasks| == 0 then
        (if status == Completed then 100.0 else 0.0)
      else
        var k, n := CountCompleted(subtasks) as real, |subtasks| as real;
        CountCompletedExtremes(subtasks);
        ShareBounds(k, n);
        (k / n) * 100.0
    }

    /**
     * `shouldTakeBreak()`: scans the log backwards for the last break, then sums the work
     * blocks after it.
     */
    method ShouldTakeBreak() returns (due: bool)
      ensures due == BreakDue(timeBlocks)
    {
      var blocks := timeBlocks;
      if |blocks| == 0 {
        return false;
      }
      if !(exists i :: 0 <= i < |blocks| && !blocks[i].isBreak) {
        NoWorkNoBreak(blocks);
        return false;
      }
      var lastBreak := LastBreakIndex(blocks);
      var work := WorkFrom(blocks, lastBreak + 1);
      WorkAfterLastBreak(blocks, lastBreak);
      return work >= BreakThreshold;
    }

    /** `getTotalEstimatedTime()`: the task's own estimate plus the totals of all its subtasks, recursively. */
    function TotalEstimatedTime(ghost rank: map<Task, nat>): int
      reads rank.Keys
      requires this in rank && Ranked(rank)
      decreases rank[this], 1
    {
      estimatedDuration + SubtasksTotal(subtasks, rank, rank[this])
    }

    /** The source's accumulator loop over the subtasks, with a recursive call per subtask. */
    method GetTotalEstimatedTime(ghost rank: map<Task, nat>) returns (total: int)
      requires this in rank && Ranked(rank)
      ensures total == TotalEstimatedTime(rank)
      decreases rank[this]
    {
      total := estimatedDuration;
      for i := 0 to |subtasks|
        invariant total + SubtasksTotal(subtasks[i..], rank, rank[this]) == TotalEstimatedTime(rank)
      {
        assert subtasks[i..][1..] == subtasks[i + 1..];
        var sub := subtasks[i].GetTotalEstimatedTime(rank);
        total := total + sub;
      }
    }
  }
}
