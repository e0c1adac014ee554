/**
 * The persisted form of a task in the Electron implementation: `Task.toJSON()` and
 * `Task.fromJSON(data)` in electron-tracker/src/shared/Task.js. The record nests the records of
 * the subtasks, recursively. Statuses and types are written as their string names and
 * timestamps in their textual form; `fromJSON` falls back to defaults for missing lists and flags.
 */
module TaskSerialization {
  import opened Wrappers
  import opened Timestamps
  import opened TaskEntity

  /** A time block as written: `{...block, timestamp: block.timestamp.toISOString()}`. */
  datatype BlockJson = BlockJson(duration: int, isBreak: bool, timestamp: string)

  /** The `subtasks` entry of a record: missing, or a list of nested records. */
  datatype SubtaskRecords = Absent | Present(records: seq<TaskJson>)

  /**
   * A task record as parsed from the document. The lists and the resumed flag may be missing
   * from a record (`None`); `toJSON` always writes them.
   */
  datatype TaskJson = TaskJson(
    id: string,
    title: string,
    description: string,
    parentId: Option<string>,
    workspaceId: Option<string>,
    status: string,
    taskType: string,
    createdAt: string,
    startedAt: Option<string>,
    completedAt: Option<string>,
    estimatedDuration: int,
    actualDuration: real,
    timeBlocks: Option<seq<BlockJson>>,
    subtasks: SubtaskRecords,
    isResumed: Option<bool>)

  function StatusName(s: TaskStatus): string {
    match s
    case Pending => "pending"
    case InProgress => "in_progress"
    case Paused => "paused"
    case Completed => "completed"
  }

  function StatusFromName(name: string): Option<TaskStatus> {
    if name == "pending" then Some(Pending)
    else if name == "in_progress" then Some(InProgress)
    else if name == "paused" then Some(Paused)
    else if name == "completed" then Some(Completed)
    else None
  }

  function TypeName(t: TaskType): string {
    match t
    case Main => "main"
    case Subtask => "subtask"
    case Context => "context"
  }

  function TypeFromName(name: string): Option<TaskType> {
    if name == "main" then Some(Main)
    else if name == "subtask" then Some(Subtask)
    else if name == "context" then Some(Context)
    else None
  }

  /** The status and type names are read back as what was written, and no two share a name. */
  lemma NamesRoundTrip(s: TaskStatus, t: TaskType)
    ensures StatusFromName(StatusName(s)) == Some(s)
    ensures TypeFromName(TypeName(t)) == Some(t)
  {
  }

  /** `x ? x.toISOString() : null` */
  function StampOut(t: Option<Time>): Option<string> {
    match t
    case None => None
    case Some(v) => Some(Format(v))
  }

  /**
   * `data.x ? new Date(data.x) : null`: a missing or empty text is no timestamp; `None` when the
   * text is not a timestamp at all.
   */
  function StampIn(s: Option<string>): Option<Option<Time>> {
    if s.None? || s.value == "" then Some(None)
    else match Parse(s.value)
      case None => None
      case Some(t) => Some(Some(t))
  }

  lemma StampRoundTrip(t: Option<Time>)
    ensures StampIn(StampOut(t)) == Some(t)
  {
    if t.Some? {
      ParseFormat(t.value);
    }
  }

  function BlockToJson(b: TimeBlock): BlockJson {
    BlockJson(b.duration, b.isBreak, Format(b.timestamp))
  }

  predicate BlocksReadable(bs: seq<BlockJson>) {
    forall i :: 0 <= i < |bs| ==> Parse(bs[i].timestamp).Some?
  }

  function BlocksFromJson(bs: seq<BlockJson>): seq<TimeBlock>
    requires BlocksReadable(bs)
  {
    seq(|bs|, i requires 0 <= i < |bs| => TimeBlock(bs[i].duration, bs[i].isBreak, Parse(bs[i].timestamp).value))
  }

  function BlocksToJson(blocks: seq<TimeBlock>): (bs: seq<BlockJson>)
    ensures |bs| == |blocks|
  {
    seq(|blocks|, i requires 0 <= i < |blocks| => BlockToJson(blocks[i]))
  }

  lemma BlocksRoundTrip(blocks: seq<TimeBlock>)
    ensures BlocksReadable(BlocksToJson(blocks)) && BlocksFromJson(BlocksToJson(blocks)) == blocks
  {
    forall i | 0 <= i < |blocks| {
      ParseFormat(blocks[i].timestamp);
    }
  }

  /** The record `toJSON()` writes for a task with fields `f` whose subtasks are written as `subs`. */
  function FieldsToJson(f: TaskFields, subs: seq<TaskJson>): TaskJson {
    TaskJson(f.id, f.title, f.description, f.parentId, f.workspaceId, StatusName(f.status), TypeName(f.taskType),
             Format(f.createdAt), StampOut(f.startedAt), StampOut(f.completedAt), f.estimatedDuration, f.actualDuration,
             Some(BlocksToJson(f.timeBlocks)), Present(subs), Some(f.isResumed))
  }

  /**
   * The fields `fromJSON(data)` gives a task, before its subtasks are attached. `None` when a status,
   * a type or a timestamp cannot be read (the source would keep the unreadable value as it is).
   */
  function FieldsFromJson(j: TaskJson): Option<TaskFields> {
    var status := StatusFromName(j.status);
    var taskType := TypeFromName(j.taskType);
    var created := Parse(j.createdAt);
    var started := StampIn(j.startedAt);
    var completed := StampIn(j.completedAt);
    var blocks := j.timeBlocks.GetOr([]);
    if status.None? || taskType.None? || created.None? || started.None? || completed.None? || !BlocksReadable(blocks) then None
    else Some(TaskFields(j.id, j.title, j.description, j.parentId, j.workspaceId, status.value, taskType.value,
                         created.value, started.value, completed.value, j.estimatedDuration, j.actualDuration,
                         BlocksFromJson(blocks), j.isResumed.GetOr(false)))
  }

  /** Reading a written record gives back every field of the task (the subtasks apart). */
  lemma FieldsRoundTrip(f: TaskFields, subs: seq<TaskJson>)
    ensures FieldsFromJson(FieldsToJson(f, subs)) == Some(f)
  {
    NamesRoundTrip(f.status, f.taskType);
    ParseFormat(f.createdAt);
    StampRoundTrip(f.startedAt);
    StampRoundTrip(f.completedAt);
    BlocksRoundTrip(f.timeBlocks);
  }

  /** Missing optional entries take the defaults of `fromJSON`: no blocks, and not resumed. */
  lemma MissingEntriesDefault(j: TaskJson)
    requires FieldsFromJson(j).Some? && j.timeBlocks.None? && j.isResumed.None?
    ensures FieldsFromJson(j).value.timeBlocks == [] && !FieldsFromJson(j).value.isResumed
  {
  }

  /** `data.subtasks || []` */
  function NestedRecords(j: TaskJson): seq<TaskJson> {
    match j.subtasks
    case Absent => []
    case Present(ss) => ss
  }

  /** Every record in the tree can be read. */
  predicate Readable(j: TaskJson)
    decreases j
  {
    && FieldsFromJson(j).Some?
    && match j.subtasks
       case Absent => true
       case Present(ss) => forall i :: 0 <= i < |ss| ==> Readable(ss[i])
  }

  /** The record as `fromJSON` understands it, written back by `toJSON`: defaults filled in, recursively. */
  function Canonical(j: TaskJson): TaskJson
    requires Readable(j)
    decreases j, 1
  {
    FieldsToJson(FieldsFromJson(j).value, CanonicalNested(j))
  }

  /** The nested records of `j`, each made canonical; none when the entry is missing. */
  function CanonicalNested(j: TaskJson): (r: seq<TaskJson>)
    requires Readable(j)
    ensures |r| == |NestedRecords(j)|
    decreases j, 0
  {
    match j.subtasks
    case Absent => []
    case Present(ss) => seq(|ss|, i requires 0 <= i < |ss| => Canonical(ss[i]))
  }

  // ---------------------------------------------------------------------------------------
  // Writing a tree of task objects

  /** `toJSON()` of a task object: its fields, with its subtasks' records nested in order. */
  function ToJson(t: Task, ghost rank: map<Task, nat>): TaskJson
    reads rank.Keys
    requires t in rank && Ranked(rank)
    decreases rank[t], 1
  {
    FieldsToJson(t.Fields(), SubtasksToJson(t.subtasks, rank, rank[t]))
  }

  function SubtasksToJson(ts: seq<Task>, ghost rank: map<Task, nat>, ghost bound: nat): (r: seq<TaskJson>)
    reads rank.Keys
    requires Ranked(rank)
    requires forall i :: 0 <= i < |ts| ==> ts[i] in rank && rank[ts[i]] < bound
    ensures |r| == |ts|
    decreases bound, 0, |ts|
  {
    if ts == [] then [] else [ToJson(ts[0], rank)] + SubtasksToJson(ts[1..], rank, bound)
  }

  lemma {:induction false} SubtasksToJsonAt(ts: seq<Task>, rank: map<Task, nat>, bound: nat, k: nat)
    requires Ranked(rank)
    requires forall i :: 0 <= i < |ts| ==> ts[i] in rank && rank[ts[i]] < bound
    requires k < |ts|
    ensures SubtasksToJson(ts, rank, bound)[k] == ToJson(ts[k], rank)
    decreases k
  {
    if k > 0 {
      SubtasksToJsonAt(ts[1..], rank, bound, k - 1);
    }
  }

  /** What is written does not depend on which ranking proves that the walk terminates. */
  lemma {:induction false} ToJsonRankIrrelevant(t: Task, r1: map<Task, nat>, r2: map<Task, nat>)
    requires t in r1 && Ranked(r1) && t in r2 && Ranked(r2)
    ensures ToJson(t, r1) == ToJson(t, r2)
    decreases r1[t], 1
  {
    SubtasksToJsonRankIrrelevant(t.subtasks, r1, r1[t], r2, r2[t]);
  }

  lemma {:induction false} SubtasksToJsonRankIrrelevant(ts: seq<Task>, r1: map<Task, nat>, b1: nat, r2: map<Task, nat>, b2: nat)
    requires Ranked(r1) && Ranked(r2)
    requires forall i :: 0 <= i < |ts| ==> ts[i] in r1 && r1[ts[i]] < b1
    requires forall i :: 0 <= i < |ts| ==> ts[i] in r2 && r2[ts[i]] < b2
    ensures SubtasksToJson(ts, r1, b1) == SubtasksToJson(ts, r2, b2)
    decreases b1, 0, |ts|
  {
    if ts != [] {
      ToJsonRankIrrelevant(ts[0], r1, r2);
      SubtasksToJsonRankIrrelevant(ts[1..], r1, b1, r2, b2);
    }
  }

  /** What `toJSON` writes can be read, and reading it changes nothing: it is already canonical. */
  lemma {:induction false} ToJsonCanonical(t: Task, rank: map<Task, nat>)
    requires t in rank && Ranked(rank)
    ensures Readable(ToJson(t, rank)) && Canonical(ToJson(t, rank)) == ToJson(t, rank)
    decreases rank[t]
  {
    var subs := SubtasksToJson(t.subtasks, rank, rank[t]);
    FieldsRoundTrip(t.Fields(), subs);
    forall i | 0 <= i < |subs|
      ensures Readable(subs[i]) && Canonical(subs[i]) == subs[i]
    {
      SubtasksToJsonAt(t.subtasks, rank, rank[t], i);
      ToJsonCanonical(t.subtasks[i], rank);
    }
    var j := ToJson(t, rank);
    assert j.subtasks == Present(subs);
    assert CanonicalNested(j) == subs;
  }

  lemma RankedUnion(r1: map<Task, nat>, r2: map<Task, nat>)
    requires Ranked(r1) && Ranked(r2) && r1.Keys !! r2.Keys
    ensures Ranked(r1 + r2)
  {
    forall t, i | t in r1 + r2 && 0 <= i < |t.subtasks|
      ensures t.subtasks[i] in r1 + r2 && (r1 + r2)[t.subtasks[i]] < (r1 + r2)[t]
    {
      if t in r1 {
        assert t.subtasks[i] in r1;
      } else {
        assert t.subtasks[i] in r2;
      }
    }
  }

  // ---------------------------------------------------------------------------------------
  // Reading a tree of task objects

  /**
   * `Task.fromJSON(data)`: builds a fresh task object and, recursively, fresh objects for the
   * nested subtask records. `objs` is the set of objects built and `rank` a ranking of them.
   * Writing the result gives the record back, with `fromJSON`'s defaults filled in; so
   * `fromJSON(toJSON(t))` reproduces every field of `t` and, recursively, of its subtasks.
   */
  method FromJson(j: TaskJson) returns (t: Task, ghost objs: set<Task>, ghost rank: map<Task, nat>)
    requires Readable(j)
    ensures fresh(objs) && t in objs && rank.Keys == objs && Ranked(rank)
    ensures forall o :: o in rank ==> rank[o] <= rank[t]
    ensures t.Fields() == FieldsFromJson(j).value
    ensures ToJson(t, rank) == Canonical(j)
    decreases j, 1
  {
    t := new Task.Restore(FieldsFromJson(j).value);
    var children, childRank, top := SubtasksFromJson(j);
    t.subtasks := children;
    ReadBack(t, childRank, top, j);
    rank := childRank[t := top];
    objs := rank.Keys;
  }

  /** A task whose fields were read from `j` and whose subtasks write `j`'s nested records writes `j`. */
  lemma ReadBack(t: Task, childRank: map<Task, nat>, top: nat, j: TaskJson)
    requires Readable(j) && Ranked(childRank) && t !in childRank
    requires t.Fields() == FieldsFromJson(j).value
    requires forall k :: 0 <= k < |t.subtasks| ==> t.subtasks[k] in childRank && childRank[t.subtasks[k]] < top
    requires SubtasksToJson(t.subtasks, childRank, top) == CanonicalNested(j)
    ensures Ranked(childRank[t := top]) && ToJson(t, childRank[t := top]) == Canonical(j)
  {
    SubtasksToJsonRankIrrelevant(t.subtasks, childRank, top, childRank[t := top], top);
  }

  lemma NestedCanonical(j: TaskJson)
    requires Readable(j)
    ensures forall i :: 0 <= i < |NestedRecords(j)| ==> Readable(NestedRecords(j)[i]) && CanonicalNested(j)[i] == Canonical(NestedRecords(j)[i])
  {
  }

  /** `(data.subtasks || []).map(st => Task.fromJSON(st))`, with a ranking of every object built. */
  method SubtasksFromJson(j: TaskJson) returns (children: seq<Task>, ghost rank: map<Task, nat>, ghost top: nat)
    requires Readable(j)
    ensures fresh(rank.Keys) && Ranked(rank)
    ensures forall o :: o in rank ==> rank[o] < top
    ensures forall k :: 0 <= k < |children| ==> children[k] in rank && rank[children[k]] < top
    ensures SubtasksToJson(children, rank, top) == CanonicalNested(j)
    decreases j, 0
  {
    var records := NestedRecords(j);
    ghost var canon := CanonicalNested(j);
    NestedCanonical(j);
    children := [];
    rank := map[];
    top := 0;
    for i := 0 to |records|
      invariant |children| == i
      invariant fresh(rank.Keys) && Ranked(rank)
      invariant forall o :: o in rank ==> rank[o] < top
      invariant forall k :: 0 <= k < i ==> children[k] in rank && rank[children[k]] < top
      invariant SubtasksToJson(children, rank, top) == canon[..i]
    {
      NestedBelow(j, i);
      var c, cObjs, cRank := FromJson(records[i]);
      ghost var top' := if top > cRank[c] + 1 then top else cRank[c] + 1;
      AppendWritten(children, rank, top, c, cRank, top');
      PrefixStep(canon, i);
      rank, top := rank + cRank, top';
      children := children + [c];
    }
    PrefixStep(canon, |canon|);
  }

  /** The list of `t` has one object per nested record of `j`, each with the fields read from its record. */
  ghost predicate NestedAs(list: seq<Task>, j: TaskJson)
    reads list
    requires Readable(j)
  {
    && |list| == |NestedRecords(j)|
    && forall n :: 0 <= n < |list| ==> FieldsFromJson(NestedRecords(j)[n]) == Some(list[n].Fields())
  }

  /**
   * A task that writes the record `j` read back has the fields of `j`, and one subtask per nested
   * record of `j`, with that record's fields.
   */
  lemma WrittenParts(t: Task, rank: map<Task, nat>, j: TaskJson)
    requires t in rank && Ranked(rank) && Readable(j)
    requires ToJson(t, rank) == Canonical(j)
    ensures t.Fields() == FieldsFromJson(j).value && NestedAs(t.subtasks, j)
  {
    var subs := SubtasksToJson(t.subtasks, rank, rank[t]);
    FieldsRoundTrip(t.Fields(), subs);
    FieldsRoundTrip(FieldsFromJson(j).value, CanonicalNested(j));
    assert subs == CanonicalNested(j);
    NestedCanonical(j);
    forall n | 0 <= n < |t.subtasks|
      ensures t.subtasks[n].Fields() == FieldsFromJson(NestedRecords(j)[n]).value
    {
      SubtasksToJsonAt(t.subtasks, rank, rank[t], n);
      var c := t.subtasks[n];
      FieldsRoundTrip(c.Fields(), SubtasksToJson(c.subtasks, rank, rank[c]));
      ghost var r := NestedRecords(j)[n];
      FieldsRoundTrip(FieldsFromJson(r).value, CanonicalNested(r));
    }
  }

  /** A nested record is smaller than the record it is nested in. */
  lemma NestedBelow(j: TaskJson, i: nat)
    requires i < |NestedRecords(j)|
    ensures NestedRecords(j)[i] < j
  {
    assert NestedRecords(j)[i] in j.subtasks.records;
  }

  lemma PrefixStep<T>(s: seq<T>, i: nat)
    requires i <= |s|
    ensures i < |s| ==> s[..i + 1] == s[..i] + [s[i]]
    ensures s[..|s|] == s
  {
  }

  /** Appending a newly built subtask, with its own ranking, appends its record to what is written. */
  lemma AppendWritten(ts: seq<Task>, r1: map<Task, nat>, b1: nat, c: Task, r2: map<Task, nat>, b2: nat)
    requires Ranked(r1) && Ranked(r2) && r1.Keys !! r2.Keys
    requires forall i :: 0 <= i < |ts| ==> ts[i] in r1 && r1[ts[i]] < b1
    requires c in r2 && b1 <= b2 && r2[c] < b2
    ensures Ranked(r1 + r2)
    ensures forall i :: 0 <= i < |ts + [c]| ==> (ts + [c])[i] in r1 + r2 && (r1 + r2)[(ts + [c])[i]] < b2
    ensures SubtasksToJson(ts + [c], r1 + r2, b2) == SubtasksToJson(ts, r1, b1) + [ToJson(c, r2)]
  {
    RankedUnion(r1, r2);
    SubtasksToJsonRankIrrelevant(ts, r1, b1, r1 + r2, b2);
    ToJsonRankIrrelevant(c, r2, r1 + r2);
    SubtasksToJsonSnoc(ts, c, r1 + r2, b2);
  }

  lemma {:induction false} SubtasksToJsonSnoc(ts: seq<Task>, c: Task, rank: map<Task, nat>, bound: nat)
    requires Ranked(rank)
    requires forall i :: 0 <= i < |ts| ==> ts[i] in rank && rank[ts[i]] < bound
    requires c in rank && rank[c] < bound
    ensures SubtasksToJson(ts + [c], rank, bound) == SubtasksToJson(ts, rank, bound) + [ToJson(c, rank)]
    decreases |ts|
  {
    if ts != [] {
      assert (ts + [c])[1..] == ts[1..] + [c];
      SubtasksToJsonSnoc(ts[1..], c, rank, bound);
    }
  }
}
