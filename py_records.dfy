/**
 * The persisted form of a task in the Python implementation: `_task_to_dict` and `_dict_to_task`
 * in src/traker/task_manager.py. Unlike the Electron record, the Python record is flat (no
 * subtasks, no workspace), and reading it back rebuilds the task through the `Task` constructor,
 * so the task type is recomputed from the parent id.
 */
module PyRecords {
  import opened Wrappers
  import opened Timestamps
  import opened TaskEntity
  import opened TaskSerialization

  /**
   * A task record as parsed from the Python data file. An entry is `None` when the key is
   * missing or holds `null`: the model does not tell the two apart, although the source does
   * (a present `null` is loaded as `None` where the model would read a default or stop).
   * `_task_to_dict` writes every key, and writes `null` only for the parent id and the two
   * optional timestamps. Time blocks are kept as the values the task holds.
   */
  datatype PyRecord = PyRecord(
    id: Option<string>,
    title: Option<string>,
    description: Option<string>,
    parentId: Option<string>,
    status: Option<string>,
    taskType: Option<string>,
    createdAt: Option<string>,
    startedAt: Option<string>,
    completedAt: Option<string>,
    estimatedDuration: Option<int>,
    actualDuration: Option<real>,
    timeBlocks: Option<seq<TimeBlock>>,
    isResumed: Option<bool>)

  /** The data file: one record per registered task, under its key, in insertion order. */
  type PyDocument = seq<(string, PyRecord)>

  /** The keys of a document of records of any kind, in the order of the file. */
  function RecordKeys<R>(d: seq<(string, R)>): (ks: seq<string>)
    ensures |ks| == |d| && forall i :: 0 <= i < |d| ==> ks[i] == d[i].0
  {
    seq(|d|, i requires 0 <= i < |d| => d[i].0)
  }

  /** `_task_to_dict(task)`: every field but the workspace and the subtask list, which are not written. */
  function TaskToDict(f: TaskFields): PyRecord {
    PyRecord(Some(f.id), Some(f.title), Some(f.description), f.parentId, Some(StatusName(f.status)),
             Some(TypeName(f.taskType)), Some(Format(f.createdAt)), StampOut(f.startedAt), StampOut(f.completedAt),
             Some(f.estimatedDuration), Some(f.actualDuration), Some(f.timeBlocks), Some(f.isResumed))
  }

  /**
   * `_dict_to_task(data)`: `None` where the source raises, that is when a required key is
   * missing, the status is not a status name or a timestamp does not parse. The task type is not
   * read: the constructor derives it from the parent id. The workspace is not kept.
   */
  function DictToTask(rec: PyRecord): Option<TaskFields> {
    var status := if rec.status.Some? then StatusFromName(rec.status.value) else None;
    var created := if rec.createdAt.Some? then Parse(rec.createdAt.value) else None;
    var started := StampIn(rec.startedAt);
    var completed := StampIn(rec.completedAt);
    if rec.title.None? || rec.description.None? || rec.id.None? || status.None? || created.None?
       || started.None? || completed.None? || rec.estimatedDuration.None? || rec.actualDuration.None?
    then None
    else Some(TaskFields(rec.id.value, rec.title.value, rec.description.value, rec.parentId, None,
                         status.value, TypeFor(rec.parentId), created.value, started.value, completed.value,
                         rec.estimatedDuration.value, rec.actualDuration.value,
                         rec.timeBlocks.GetOr([]), rec.isResumed.GetOr(false)))
  }

  /** The fields a task with fields `f` has after being written and read back. */
  function Reloaded(f: TaskFields): TaskFields {
    f.(taskType := TypeFor(f.parentId), workspaceId := None)
  }

  /**
   * Writing a task and reading it back keeps every field except two: the task type is derived
   * again from the parent id, and the workspace is lost.
   */
  lemma DictRoundTrip(f: TaskFields)
    ensures DictToTask(TaskToDict(f)) == Some(Reloaded(f))
  {
    NamesRoundTrip(f.status, f.taskType);
    ParseFormat(f.createdAt);
    StampRoundTrip(f.startedAt);
    StampRoundTrip(f.completedAt);
  }

  /**
   * A task comes back exactly as it was if and only if its type is the one the constructor would
   * give it and it has no workspace: a context-recovery task, which has a parent, comes back as an
   * ordinary subtask.
   */
  lemma DictRoundTripExact(f: TaskFields)
    ensures DictToTask(TaskToDict(f)) == Some(f) <==> f.taskType == TypeFor(f.parentId) && f.workspaceId.None?
    ensures f.taskType == Context && f.parentId.Some? ==> DictToTask(TaskToDict(f)).value.taskType == Subtask
  {
    DictRoundTrip(f);
    if Reloaded(f) == f {
      assert Reloaded(f).taskType == f.taskType && Reloaded(f).workspaceId == f.workspaceId;
    }
  }

  /** A record read back carries its required keys, and the type follows the parent id. */
  lemma DictNeedsRequired(rec: PyRecord)
    requires DictToTask(rec).Some?
    ensures rec.id.Some? && rec.title.Some? && rec.description.Some? && rec.status.Some? && rec.createdAt.Some?
    ensures rec.estimatedDuration.Some? && rec.actualDuration.Some?
    ensures var f := DictToTask(rec).value;
      && f.id == rec.id.value && f.parentId == rec.parentId && f.workspaceId.None?
      && (f.taskType == Main <==> rec.parentId.None?)
      && f.timeBlocks == rec.timeBlocks.GetOr([]) && f.isResumed == rec.isResumed.GetOr(false)
  {
  }

  /**
   * How far the loop of `load_tasks()` gets: the number of leading records `_dict_to_task`
   * reads before the first one on which it raises, which ends the loop.
   */
  function ReadCount(d: PyDocument): (n: nat)
    ensures n <= |d|
    ensures forall j :: 0 <= j < n ==> DictToTask(d[j].1).Some?
    ensures n < |d| ==> DictToTask(d[n].1).None?
    decreases |d|
  {
    if d == [] || DictToTask(d[0].1).None? then 0 else 1 + ReadCount(d[1..])
  }
}
