/**
 * The task manager: `TaskManager` in electron-tracker/src/shared/TaskManager.js and in
 * src/traker/task_manager.py. The two implement the same operations over a flat map from id to
 * task object plus a reference to the running task; they differ only in how tasks are stored and
 * read back: the Electron manager nests subtask records (task_json.dfy), the Python manager
 * writes flat records (py_records.dfy) and stops loading at the first record it cannot read.
 *
 * The map keeps insertion order (a JavaScript `Map`, a Python `dict`), modelled by `keys`. The
 * objects in the map are shared: `addSubtask` puts the same object in the map and in its parent's
 * subtask list, so an operation on one is seen through the other.
 */
module TaskManagement {
  import opened Wrappers
  import opened Timestamps
  import opened TaskEntity
  import opened TaskSerialization
  import opened TaskLinks
  import opened PyRecords

  predicate Distinct(ks: seq<string>) {
    forall i, j :: 0 <= i < j < |ks| ==> ks[i] != ks[j]
  }

  /** The keys of `ks` that are not in `drop`, in their order: a key order after deleting `drop`. */
  function Without(ks: seq<string>, drop: set<string>): (r: seq<string>)
    ensures forall k :: k in r <==> k in ks && k !in drop
    ensures |r| <= |ks|
    decreases |ks|
  {
    if ks == [] then []
    else
      var rest := Without(ks[1..], drop);
      if ks[0] in drop then rest else [ks[0]] + rest
  }

  lemma {:induction false} WithoutDistinct(ks: seq<string>, drop: set<string>)
    requires Distinct(ks)
    ensures Distinct(Without(ks, drop))
    decreases |ks|
  {
    if ks != [] {
      WithoutDistinct(ks[1..], drop);
      assert ks[0] !in ks[1..];
    }
  }

  lemma {:induction false} WithoutNothing(ks: seq<string>)
    ensures Without(ks, {}) == ks
    decreases |ks|
  {
    if ks != [] {
      WithoutNothing(ks[1..]);
    }
  }

  lemma {:induction false} WithoutTwice(ks: seq<string>, a: set<string>, b: set<string>)
    ensures Without(Without(ks, a), b) == Without(ks, a + b)
    decreases |ks|
  {
    if ks != [] {
      WithoutTwice(ks[1..], a, b);
      if ks[0] !in a {
        assert Without(ks, a)[1..] == Without(ks[1..], a);
      }
    }
  }

  /** `ks` lists the keys of `m`, each once: the iteration order of a map. */
  predicate KeyOrder(ks: seq<string>, m: map<string, Task>) {
    (forall k :: k in ks ==> k in m) && (forall k :: k in m ==> k in ks) && Distinct(ks)
  }

  /** Deleting keys from a map deletes them from its iteration order, and keeps the rest in order. */
  lemma DeleteKeys(ks: seq<string>, m: map<string, Task>, drop: set<string>)
    requires KeyOrder(ks, m)
    ensures KeyOrder(Without(ks, drop), m - drop) && (m - drop).Values <= m.Values
  {
    WithoutDistinct(ks, drop);
  }

  /**
   * The manager's invariant, on the values of its fields: the key order lists the map's keys,
   * every registered task is ranked (so the subtask graph has no cycle), and the current task,
   * when there is one, is running.
   */
  ghost predicate Wellformed(keys: seq<string>, tasks: map<string, Task>, current: Task?, rank: map<Task, nat>)
    reads rank.Keys
  {
    && KeyOrder(keys, tasks)
    && tasks.Values <= rank.Keys
    && Ranked(rank)
    && (current != null ==> current in rank && current.status == InProgress)
  }

  lemma DeleteKeepsWellformed(keys: seq<string>, tasks: map<string, Task>, current: Task?, rank: map<Task, nat>, drop: set<string>, current': Task?)
    requires Wellformed(keys, tasks, current, rank)
    requires current' == current || current' == null
    ensures Wellformed(Without(keys, drop), tasks - drop, current', rank)
  {
    DeleteKeys(keys, tasks, drop);
  }

  lemma IdsOfStep(ts: seq<Task>, i: nat)
    requires i <= |ts|
    ensures i < |ts| ==> IdsOf(ts[..i + 1]) == IdsOf(ts[..i]) + {ts[i].id}
    ensures IdsOf(ts[..|ts|]) == IdsOf(ts)
  {
    assert ts[..|ts|] == ts;
    if i < |ts| {
      assert forall k :: 0 <= k < i ==> ts[..i + 1][k] == ts[..i][k];
      assert ts[..i + 1][i] == ts[i];
    }
  }

  /** The rank of every object raised by one, leaving rank 0 free for a new leaf. */
  ghost function Shifted(rank: map<Task, nat>): (r: map<Task, nat>)
    ensures r.Keys == rank.Keys
  {
    map t | t in rank :: rank[t] + 1
  }

  /**
   * A fresh leaf `c` has just been put into the subtask list of `p`, and no other list changed:
   * the ranking with every old object raised by one and `c` at 0 is a ranking again.
   */
  lemma AddLeaf(rank: map<Task, nat>, p: Task, c: Task)
    requires c !in rank && p in rank && c.subtasks == []
    requires forall t, i :: t in rank && t != p && 0 <= i < |t.subtasks| ==> t.subtasks[i] in rank && rank[t.subtasks[i]] < rank[t]
    requires forall i :: 0 <= i < |p.subtasks| ==> p.subtasks[i] == c || (p.subtasks[i] in rank && rank[p.subtasks[i]] < rank[p])
    ensures Ranked(Shifted(rank)[c := 0])
  {
  }

  /** Changing no task type in a list keeps its number of context tasks. */
  twostate lemma {:induction false} CountContextKept(ts: seq<Task>)
    requires forall i :: 0 <= i < |ts| ==> ts[i].taskType == old(ts[i].taskType)
    ensures CountContext(ts) == old(CountContext(ts))
    decreases |ts|
  {
    if ts != [] {
      CountContextKept(ts[1..]);
    }
  }

  /** `after` is `before` with one more task, a leaf, in front. */
  ghost predicate FrontLeaf(before: seq<Task>, after: seq<Task>)
    reads after
  {
    |after| == |before| + 1 && after[1..] == before && after[0].subtasks == []
  }

  /** `keys` after `id` is set in a map with keys `ks`: a new key goes to the end, a present one keeps its place. */
  function SetKey(ks: seq<string>, m: map<string, Task>, id: string): seq<string>
  {
    if id in m then ks else ks + [id]
  }

  /**
   * Registering a fresh root `p` whose only subtask is a fresh leaf `c` keeps the invariant,
   * with `p` ranked above `c` and above nothing else.
   */
  lemma RegisterRoot(keys: seq<string>, tasks: map<string, Task>, current: Task?, rank: map<Task, nat>, id: string, p: Task, c: Task)
    requires Wellformed(keys, tasks, current, rank) && p !in rank && c !in rank && p != c
    requires c.subtasks == [] && p.subtasks == [c]
    ensures Wellformed(SetKey(keys, tasks, id), tasks[id := p], current, rank[c := 0][p := 1])
  {
  }

  /** Replacing the map by one whose objects are ranked apart from the old ones keeps the invariant. */
  lemma LoadKeepsWellformed(keys: seq<string>, tasks: map<string, Task>, current: Task?, rank: map<Task, nat>,
                            ks: seq<string>, m: map<string, Task>, linked: map<Task, nat>)
    requires Wellformed(keys, tasks, current, rank)
    requires KeyOrder(ks, m) && Ranked(linked) && m.Values <= linked.Keys && rank.Keys !! linked.Keys
    ensures Wellformed(ks, m, current, rank + linked)
  {
    RankedUnion(rank, linked);
  }

  /** Task-list queries of the manager, each a filter over the map's values. */
  datatype Selector =
    | MainTasks       // `parentId === null`
    | ActiveTasks     // running or paused
    | CompletedTasks
    | PendingTasks
    | NeedingBreak    // `shouldTakeBreak()`

  predicate Selects(s: Selector, t: Task)
    reads t
  {
    match s
    case MainTasks => t.parentId.None?
    case ActiveTasks => t.status == InProgress || t.status == Paused
    case CompletedTasks => t.status == Completed
    case PendingTasks => t.status == Pending
    case NeedingBreak => BreakDue(t.timeBlocks)
  }

  /** `ts.filter(...)`: the selected tasks, in their order. */
  function Filter(ts: seq<Task>, s: Selector): (r: seq<Task>)
    reads ts
    ensures |r| <= |ts|
    ensures forall t :: t in r ==> t in ts && Selects(s, t)
    ensures forall i :: 0 <= i < |ts| && Selects(s, ts[i]) ==> ts[i] in r
    decreases |ts|
  {
    if ts == [] then []
    else
      var rest := Filter(ts[1..], s);
      assert forall i :: 1 <= i < |ts| ==> ts[i] == ts[1..][i - 1];
      if Selects(s, ts[0]) then [ts[0]] + rest else rest
  }

  /** Every task is exactly one of pending, active or completed. */
  lemma {:induction false} StatusesPartition(ts: seq<Task>)
    ensures |Filter(ts, PendingTasks)| + |Filter(ts, ActiveTasks)| + |Filter(ts, CompletedTasks)| == |ts|
    decreases |ts|
  {
    if ts != [] {
      StatusesPartition(ts[1..]);
    }
  }

  /** No task is both active and completed. */
  lemma ActiveCompletedDisjoint(ts: seq<Task>)
    ensures forall t :: t in Filter(ts, ActiveTasks) ==> t !in Filter(ts, CompletedTasks)
  {
  }

  /** The sum of `actualDuration` over a list, the `reduce` of `getStatistics`. */
  function TimeSpent(ts: seq<Task>): real
    reads ts
    decreases |ts|
  {
    if ts == [] then 0.0 else ts[0].actualDuration + TimeSpent(ts[1..])
  }

  datatype Statistics = Statistics(totalTasks: nat, completedTasks: nat, activeTasks: nat, pendingTasks: nat, totalTimeSpent: real)

  /**
   * The steps `resumeTask` takes on task objects: the other running task, if any, is paused;
   * then `task.resume()` and `task.addContextTask()`.
   */
  method ResumeSteps(task: Task, running: Task?, contextId: string, now: Time, ghost rank: map<Task, nat>)
    returns (ghost rank': map<Task, nat>)
    requires task.status == Paused && running != task
    requires Ranked(rank) && task in rank
    modifies task, running
    ensures Ranked(rank') && rank'.Keys >= rank.Keys
    ensures task.Fields() == AfterResume(old(task.Fields())) && task.status == InProgress && task.isResumed
    ensures running != null ==> running.Fields() == AfterPause(old(running.Fields())) && running.subtasks == old(running.subtasks)
    ensures old(CountContext(task.subtasks)) > 0 ==> task.subtasks == old(task.subtasks)
    ensures old(CountContext(task.subtasks)) == 0 ==>
      FrontLeaf(old(task.subtasks), task.subtasks) && fresh(task.subtasks[0])
      && task.subtasks[0].Fields() == ContextTask(task.Fields(), contextId, now)
    ensures CountContext(task.subtasks) == if old(CountContext(task.subtasks)) == 0 then 1 else old(CountContext(task.subtasks))
  {
    if running != null {
      running.Pause();
    }
    task.Resume();
    CountContextKept(task.subtasks);
    HasContextCount(task.subtasks);
    ghost var before := task.subtasks;
    task.AddContextTask(contextId, now);
    if task.subtasks == before {
      rank' := rank;
    } else {
      forall i | 1 <= i < |task.subtasks|
        ensures task.subtasks[i] in rank && rank[task.subtasks[i]] < rank[task]
      {
        assert task.subtasks[i] == before[i - 1];
      }
      AddLeaf(rank, task, task.subtasks[0]);
      rank' := Shifted(rank)[task.subtasks[0] := 0];
    }
  }

  /** What `toJSON` writes for a ranked task reads back as its fields and its list's fields, and is canonical. */
  lemma WrittenReadsBack(t: Task, rank: map<Task, nat>)
    requires t in rank && Ranked(rank)
    ensures Readable(ToJson(t, rank)) && Canonical(ToJson(t, rank)) == ToJson(t, rank)
    ensures FieldsFromJson(ToJson(t, rank)) == Some(t.Fields()) && NestedAs(t.subtasks, ToJson(t, rank))
  {
    ToJsonCanonical(t, rank);
    WrittenParts(t, rank, ToJson(t, rank));
  }

  /** A parsed document: the records under their keys, in the order of the file. */
  type Document = seq<(string, TaskJson)>

  predicate AllReadable(d: Document) {
    forall i :: 0 <= i < |d| ==> Readable(d[i].1)
  }

  /**
   * Each registered task is the root of a tree of objects (`treeOf` says which tree an object
   * belongs to), closed under subtask lists and ranked by `inner` below `bound`.
   */
  ghost predicate Forest(m: map<string, Task>, inner: map<Task, nat>, treeOf: map<Task, string>, bound: nat)
    reads inner.Keys
  {
    && inner.Keys == treeOf.Keys && Ranked(inner)
    && (forall o :: o in inner ==> treeOf[o] in m && inner[o] < bound)
    && (forall o, n :: o in inner && 0 <= n < |o.subtasks| ==> treeOf[o.subtasks[n]] == treeOf[o])
    && (forall k :: k in m ==> m[k] in inner && treeOf[m[k]] == k)
    && (forall o :: o in inner ==> inner[o] <= inner[m[treeOf[o]]])
  }

  /** The objects in the lists of the roots of a forest are not roots themselves. */
  lemma NestedNotRegistered(m: map<string, Task>, inner: map<Task, nat>, treeOf: map<Task, string>, bound: nat)
    requires Forest(m, inner, treeOf, bound)
    ensures forall k, n :: k in m && 0 <= n < |m[k].subtasks| ==> m[k].subtasks[n] !in m.Values
  {
  }

  /** Registering under a new key the root `t` of a tree of other objects, ranked by `tRank`, keeps a forest. */
  lemma ForestAdd(m: map<string, Task>, inner: map<Task, nat>, treeOf: map<Task, string>, bound: nat,
                  key: string, t: Task, tRank: map<Task, nat>)
    requires Forest(m, inner, treeOf, bound) && key !in m
    requires Ranked(tRank) && t in tRank && inner.Keys !! tRank.Keys
    requires forall o :: o in tRank ==> tRank[o] <= tRank[t]
    ensures Forest(m[key := t], inner + tRank, treeOf + map o | o in tRank :: key,
                   if bound > tRank[t] + 1 then bound else tRank[t] + 1)
  {
    RankedUnion(inner, tRank);
  }

  /** The first `i` records of `d` are read: each key holds a task with the record's fields and nested records. */
  ghost predicate ReadAs(d: Document, i: nat, m: map<string, Task>)
    reads m.Values, set k, n | k in m && 0 <= n < |m[k].subtasks| :: m[k].subtasks[n]
  {
    && i <= |d| && AllReadable(d)
    && forall j :: 0 <= j < i ==>
         d[j].0 in m && m[d[j].0].Fields() == FieldsFromJson(d[j].1).value && NestedAs(m[d[j].0].subtasks, d[j].1)
  }

  lemma ReadAsAdd(d: Document, i: nat, m: map<string, Task>, t: Task)
    requires ReadAs(d, i, m) && i < |d| && Distinct(RecordKeys(d))
    requires forall j :: 0 <= j < i ==> d[j].0 != d[i].0
    requires t.Fields() == FieldsFromJson(d[i].1).value && NestedAs(t.subtasks, d[i].1)
    ensures ReadAs(d, i + 1, m[d[i].0 := t])
  {
  }

  /** The next key of a list of distinct keys is not registered yet, and registering it keeps the key order. */
  lemma FreshKey(all: seq<string>, i: nat, ks: seq<string>, m: map<string, Task>, t: Task)
    requires i < |all| && Distinct(all) && ks == all[..i] && KeyOrder(ks, m)
    ensures all[i] !in m && forall j :: 0 <= j < i ==> all[j] != all[i]
    ensures KeyOrder(ks + [all[i]], m[all[i] := t])
  {
    assert forall j :: 0 <= j < i ==> ks[j] == all[j];
  }

  /** One turn of the loop of `loadTasks()`: `this.tasks.set(taskId, Task.fromJSON(taskData))` for the record `d[i]`. */
  method ReadOne(d: Document, i: nat, ks: seq<string>, m: map<string, Task>,
                 ghost inner: map<Task, nat>, ghost treeOf: map<Task, string>, ghost bound: nat)
    returns (ks': seq<string>, m': map<string, Task>,
             ghost inner': map<Task, nat>, ghost treeOf': map<Task, string>, ghost bound': nat)
    requires i < |d| && Distinct(RecordKeys(d))
    requires ks == RecordKeys(d)[..i] && KeyOrder(ks, m) && ReadAs(d, i, m) && Forest(m, inner, treeOf, bound)
    ensures ks' == RecordKeys(d)[..i + 1] && KeyOrder(ks', m') && ReadAs(d, i + 1, m') && Forest(m', inner', treeOf', bound')
    ensures inner.Keys <= inner'.Keys && fresh(inner'.Keys - inner.Keys)
  {
    var key := d[i].0;
    PrefixStep(RecordKeys(d), i);
    var t, objs, tRank := FromJson(d[i].1);
    FreshKey(RecordKeys(d), i, ks, m, t);
    WrittenParts(t, tRank, d[i].1);
    ForestAdd(m, inner, treeOf, bound, key, t, tRank);
    ReadAsAdd(d, i, m, t);
    treeOf' := treeOf + map o | o in tRank :: key;
    inner' := inner + tRank;
    bound' := if bound > tRank[t] + 1 then bound else tRank[t] + 1;
    m' := m[key := t];
    ks' := ks + [key];
  }

  /**
   * The loop of `loadTasks()`: `Task.fromJSON` on every record of the document, registered under
   * its key in document order. Each registered task is the root of a tree of fresh objects.
   */
  method ReadTasks(d: Document)
    returns (ks: seq<string>, m: map<string, Task>, ghost inner: map<Task, nat>, ghost treeOf: map<Task, string>, ghost bound: nat)
    requires AllReadable(d) && Distinct(RecordKeys(d))
    ensures ks == RecordKeys(d) && KeyOrder(ks, m)
    ensures ReadAs(d, |d|, m)
    ensures fresh(inner.Keys) && Forest(m, inner, treeOf, bound)
  {
    ks, m := [], map[];
    inner, treeOf, bound := map[], map[], 0;
    for i := 0 to |d|
      invariant ks == RecordKeys(d)[..i] && KeyOrder(ks, m)
      invariant ReadAs(d, i, m) && Forest(m, inner, treeOf, bound)
      invariant fresh(inner.Keys)
    {
      ks, m, inner, treeOf, bound := ReadOne(d, i, ks, m, inner, treeOf, bound);
    }
    PrefixStep(RecordKeys(d), |d|);
  }

  /**
   * The end of `loadTasks()`: when the parent links of the registered tasks have no cycle, the
   * walk with rule `r` (`rebuildTaskRelationships()` as written with `ById`, corrected with
   * `Relink`); `linked` ranks every object read, links included.
   */
  method LinkLoaded(r: Rule, ks: seq<string>, m: map<string, Task>, ghost inner: map<Task, nat>, ghost treeOf: map<Task, string>, ghost bound: nat)
    returns (ghost linked: map<Task, nat>)
    requires KeyOrder(ks, m) && Forest(m, inner, treeOf, bound)
    modifies m.Values
    ensures Ranked(linked) && linked.Keys == inner.Keys
    ensures forall k :: k in m ==> m[k].Fields() == old(m[k].Fields())
    ensures LinkedFrom(r, ks, m, ListsOf(m), old(ListsOf(m)))
  {
    RootsInjective(m, treeOf);
    if Acyclic(m) {
      linked := Stack(m, inner, treeOf, bound);
      StackRanked(m, inner, treeOf, bound);
      StackLinks(m, inner, treeOf, bound);
      Rebuild(r, ks, m, linked);
    } else {
      linked := inner;
    }
  }

  /**
   * The subtask lists of the registered tasks are what the walk with rule `r` makes of `nested`
   * when the parent links have no cycle, and `nested` itself when they have one.
   */
  ghost predicate LinkedFrom(r: Rule, ks: seq<string>, m: map<string, Task>, lists: map<string, seq<Task>>, nested: map<string, seq<Task>>)
    requires m.Keys <= nested.Keys
  {
    lists == if Acyclic(m) then Walk(r, ks, m, nested) else nested
  }

  /**
   * What reading document `d` leaves behind: the keys in document order, under each a task with
   * the record's fields whose list `nested` was, as `Task.fromJSON` built it, the record's nested
   * records read in order (none of them a registered object), and whose list is now `lists`.
   * `objs` holds every object involved.
   */
  ghost predicate Loaded(d: Document, ks: seq<string>, m: map<string, Task>, nested: map<string, seq<Task>>,
                         lists: map<string, seq<Task>>, objs: set<Task>)
    reads objs
    requires AllReadable(d)
  {
    && ks == RecordKeys(d) && KeyOrder(ks, m) && nested.Keys == m.Keys && m.Values <= objs
    && (forall k, n :: k in nested && 0 <= n < |nested[k]| ==> nested[k][n] in objs && nested[k][n] !in m.Values)
    && (forall i :: 0 <= i < |d| ==>
          m[d[i].0].Fields() == FieldsFromJson(d[i].1).value && NestedAs(nested[d[i].0], d[i].1))
    && ListsOf(m) == lists
  }

  /** What `Loaded` says of the task read from the record `d[i]`. */
  lemma LoadedRecord(d: Document, ks: seq<string>, m: map<string, Task>, nested: map<string, seq<Task>>,
                     lists: map<string, seq<Task>>, objs: set<Task>, i: nat)
    requires AllReadable(d) && Loaded(d, ks, m, nested, lists, objs) && i < |d|
    ensures d[i].0 in m && m[d[i].0].Fields() == FieldsFromJson(d[i].1).value && m[d[i].0].subtasks == lists[d[i].0]
    ensures NestedAs(nested[d[i].0], d[i].1) && forall n :: 0 <= n < |nested[d[i].0]| ==> nested[d[i].0][n] !in m.Values
  {
    assert ListsOf(m)[d[i].0] == m[d[i].0].subtasks;
  }

  /**
   * After a load by the Electron manager, as written or corrected, no task's subtask list holds
   * two entries with one id, as long as the nested records read into each list had distinct ids.
   */
  lemma LoadedIdsDistinct(r: Rule, d: Document, ks: seq<string>, m: map<string, Task>, nested: map<string, seq<Task>>,
                          lists: map<string, seq<Task>>, objs: set<Task>)
    requires r != ByIdentity && AllReadable(d)
    requires Loaded(d, ks, m, nested, lists, objs) && LinkedFrom(r, ks, m, lists, nested)
    requires forall k :: k in nested ==> IdsDistinct(nested[k])
    ensures forall k :: k in m ==> IdsDistinct(m[k].subtasks)
  {
    if Acyclic(m) {
      WalkKeepsIdsDistinct(r, ks, m, nested);
    }
    forall k | k in m
      ensures IdsDistinct(m[k].subtasks)
    {
      assert ListsOf(m)[k] == m[k].subtasks;
    }
  }

  /**
   * The body of `loadTasks()` once the file is parsed: every record read into a fresh task under
   * its key, then, when the parent links have no cycle, the walk with rule `r`. `linked` ranks
   * every object built.
   */
  method ReadDocument(r: Rule, d: Document)
    returns (ks: seq<string>, m: map<string, Task>, ghost nested: map<string, seq<Task>>,
             ghost lists: map<string, seq<Task>>, ghost linked: map<Task, nat>)
    requires AllReadable(d) && Distinct(RecordKeys(d))
    ensures fresh(linked.Keys) && Ranked(linked)
    ensures Loaded(d, ks, m, nested, lists, linked.Keys) && LinkedFrom(r, ks, m, lists, nested)
  {
    ghost var inner, treeOf, bound;
    ks, m, inner, treeOf, bound := ReadTasks(d);
    nested := ListsOf(m);
    NestedNotRegistered(m, inner, treeOf, bound);
    assert forall k, n :: k in nested && 0 <= n < |nested[k]| ==> nested[k][n] in inner;
    linked := LinkLoaded(r, ks, m, inner, treeOf, bound);
    lists := ListsOf(m);
  }

  // ---------------------------------------------------------------------------------------------
  // Loading in the Python manager

  /** The empty subtask list under every key of `m`: what `_dict_to_task` gives each task. */
  function NoLists(m: map<string, Task>): (lists: map<string, seq<Task>>)
    ensures lists.Keys == m.Keys && forall k :: k in lists ==> lists[k] == []
  {
    map k | k in m :: []
  }

  /** The first `n` records of `d` are read, each under its key into a task with the record's fields and no subtasks. */
  ghost predicate PyReadAs(d: PyDocument, n: nat, m: map<string, Task>)
    reads m.Values
  {
    && n <= |d|
    && (forall j :: 0 <= j < n ==> d[j].0 in m && DictToTask(d[j].1).Some? && m[d[j].0].Fields() == DictToTask(d[j].1).value)
    && forall k :: k in m ==> m[k].subtasks == []
  }

  /** Registering a fresh task read from the next record keeps the records read so far. */
  lemma PyReadAsAdd(d: PyDocument, i: nat, m: map<string, Task>, t: Task)
    requires PyReadAs(d, i, m) && i < |d| && forall j :: 0 <= j < i ==> d[j].0 != d[i].0
    requires DictToTask(d[i].1).Some? && t.Fields() == DictToTask(d[i].1).value && t.subtasks == []
    ensures PyReadAs(d, i + 1, m[d[i].0 := t])
  {
  }

  /** The loop of `load_tasks()` has read the first `i` records into `ks` and `m`; each task read is a tree of its own. */
  ghost predicate Reading(d: PyDocument, i: nat, ks: seq<string>, m: map<string, Task>, inner: map<Task, nat>, treeOf: map<Task, string>)
    reads m.Values, inner.Keys
  {
    i <= |d| && ks == RecordKeys(d)[..i] && KeyOrder(ks, m) && PyReadAs(d, i, m) && Forest(m, inner, treeOf, 1)
  }

  /**
   * One turn of the loop of `load_tasks()`, for a record `_dict_to_task` reads:
   * `self.tasks[task_id] = task` with a fresh task, which has no subtasks yet.
   */
  method ReadRecord(d: PyDocument, i: nat, ks: seq<string>, m: map<string, Task>,
                    ghost inner: map<Task, nat>, ghost treeOf: map<Task, string>)
    returns (ks': seq<string>, m': map<string, Task>, ghost inner': map<Task, nat>, ghost treeOf': map<Task, string>)
    requires i < |d| && Distinct(RecordKeys(d)) && DictToTask(d[i].1).Some?
    requires Reading(d, i, ks, m, inner, treeOf)
    ensures Reading(d, i + 1, ks', m', inner', treeOf')
    ensures inner.Keys <= inner'.Keys && fresh(inner'.Keys - inner.Keys)
  {
    var t := new Task.Restore(DictToTask(d[i].1).value);
    ReadingAdd(d, i, ks, m, inner, treeOf, t);
    inner' := inner[t := 0];
    treeOf' := treeOf[t := d[i].0];
    m' := m[d[i].0 := t];
    ks' := ks + [d[i].0];
  }

  /** Registering a new task with the fields of the next record, and no subtasks, as a tree of its own. */
  lemma ReadingAdd(d: PyDocument, i: nat, ks: seq<string>, m: map<string, Task>,
                   inner: map<Task, nat>, treeOf: map<Task, string>, t: Task)
    requires i < |d| && Distinct(RecordKeys(d)) && DictToTask(d[i].1).Some?
    requires Reading(d, i, ks, m, inner, treeOf) && t !in inner
    requires t.Fields() == DictToTask(d[i].1).value && t.subtasks == []
    ensures Reading(d, i + 1, ks + [d[i].0], m[d[i].0 := t], inner[t := 0], treeOf[t := d[i].0])
  {
    var key := d[i].0;
    PrefixStep(RecordKeys(d), i);
    FreshKey(RecordKeys(d), i, ks, m, t);
    PyReadAsAdd(d, i, m, t);
    ForestLeaf(m, inner, treeOf, key, t);
  }

  /** Registering under a new key a new task with no subtasks keeps a forest of single tasks. */
  lemma ForestLeaf(m: map<string, Task>, inner: map<Task, nat>, treeOf: map<Task, string>, key: string, t: Task)
    requires Forest(m, inner, treeOf, 1) && key !in m && t !in inner && t.subtasks == []
    ensures Forest(m[key := t], inner[t := 0], treeOf[t := key], 1)
  {
  }

  /** The loop of `load_tasks()`: the records are read in order until `_dict_to_task` raises on one. */
  method ReadLeading(d: PyDocument)
    returns (ks: seq<string>, m: map<string, Task>, ghost inner: map<Task, nat>, ghost treeOf: map<Task, string>, i: nat)
    requires Distinct(RecordKeys(d))
    ensures i <= |d| && (i < |d| ==> DictToTask(d[i].1).None?)
    ensures ks == RecordKeys(d)[..i] && KeyOrder(ks, m)
    ensures PyReadAs(d, i, m) && Forest(m, inner, treeOf, 1) && fresh(inner.Keys)
  {
    ks, m := [], map[];
    inner, treeOf := map[], map[];
    i := 0;
    while i < |d| && DictToTask(d[i].1).Some?
      invariant Reading(d, i, ks, m, inner, treeOf) && fresh(inner.Keys)
      decreases |d| - i
    {
      ks, m, inner, treeOf := ReadRecord(d, i, ks, m, inner, treeOf);
      i := i + 1;
    }
  }

  /** Where the loop stops, the tasks read have their fields and no subtasks. */
  lemma PyReadAll(d: PyDocument, n: nat, m: map<string, Task>)
    requires PyReadAs(d, n, m) && (n < |d| ==> DictToTask(d[n].1).None?)
    ensures n == ReadCount(d) && ListsOf(m) == NoLists(m)
    ensures forall j :: 0 <= j < n ==> d[j].0 in m && m[d[j].0].Fields() == DictToTask(d[j].1).value
  {
    ReadCountIs(d, n);
  }

  /** The loop stops where `ReadCount` says. */
  lemma ReadCountIs(d: PyDocument, i: nat)
    requires i <= |d| && forall j :: 0 <= j < i ==> DictToTask(d[j].1).Some?
    requires i < |d| ==> DictToTask(d[i].1).None?
    ensures i == ReadCount(d)
  {
  }

  /**
   * What `load_tasks()` leaves behind: the keys and lists `PyRead` describes, and under each key
   * read a task with the fields `_dict_to_task` gives its record. `objs` holds every task.
   */
  ghost predicate PyLoaded(d: PyDocument, ks: seq<string>, m: map<string, Task>, lists: map<string, seq<Task>>, objs: set<Task>)
    reads objs
  {
    && m.Values <= objs && PyRead(d, ks, m, lists)
    && (forall j :: 0 <= j < ReadCount(d) ==> d[j].0 in m && m[d[j].0].Fields() == DictToTask(d[j].1).value)
    && ListsOf(m) == lists
  }

  /**
   * The keys and lists `load_tasks()` leaves: the keys of the records read before the first one
   * `_dict_to_task` refuses, each holding its own object. The lists are the walk by identity
   * from empty lists when every record was read and the parent links have no cycle, and stay
   * empty otherwise: an exception skips `_rebuild_task_relationships()`.
   */
  predicate PyRead(d: PyDocument, ks: seq<string>, m: map<string, Task>, lists: map<string, seq<Task>>)
  {
    && ks == RecordKeys(d)[..ReadCount(d)] && KeyOrder(ks, m) && Injective(m)
    && lists == if ReadCount(d) == |d| && Acyclic(m) then Walk(ByIdentity, ks, m, NoLists(m)) else NoLists(m)
  }

  /**
   * The body of `load_tasks()` once the file is parsed: the records read until `_dict_to_task`
   * raises; when none raises, `_rebuild_task_relationships()` follows. `linked` ranks every
   * object built.
   */
  method ReadRecords(d: PyDocument) returns (ks: seq<string>, m: map<string, Task>, ghost linked: map<Task, nat>)
    requires Distinct(RecordKeys(d))
    ensures fresh(linked.Keys) && Ranked(linked) && m.Values <= linked.Keys
    ensures PyLoaded(d, ks, m, ListsOf(m), linked.Keys)
  {
    ghost var inner, treeOf;
    var n;
    ks, m, inner, treeOf, n := ReadLeading(d);
    PyReadAll(d, n, m);
    RootsInjective(m, treeOf);
    if ReadCount(d) == |d| {
      linked := LinkLoaded(ByIdentity, ks, m, inner, treeOf, 1);
    } else {
      linked := inner;
    }
  }

  /**
   * After a complete load without a parent cycle, the list of each registered task holds its
   * registered children, in insertion order, each exactly once: the check `task not in
   * parent.subtasks` never lets a child in twice.
   */
  lemma PyChildren(ks: seq<string>, m: map<string, Task>, lists: map<string, seq<Task>>)
    requires KeyOrder(ks, m) && Injective(m) && lists == Walk(ByIdentity, ks, m, NoLists(m))
    ensures forall p :: p in m ==> lists[p] == Children(ks, m, p)
    ensures forall p, i, j :: p in m && 0 <= i < j < |lists[p]| ==> lists[p][i] != lists[p][j]
  {
    WalkCollects(ks, m, NoLists(m));
    forall p | p in m {
      ChildrenDistinct(ks, m, p);
    }
  }

  class TaskManager {
    /** The keys of `tasks` in insertion order. */
    var keys: seq<string>
    var tasks: map<string, Task>
    var currentTask: Task?
    /** A ranking of every task object the manager has reached, witnessing that no subtask list leads back to itself. */
    ghost var rank: map<Task, nat>

    /** The key order lists exactly the keys of the map, each once. */
    predicate Consistent()
      reads this
    {
      KeyOrder(keys, tasks)
    }

    ghost predicate Valid()
      reads this, rank.Keys
    {
      Wellformed(keys, tasks, currentTask, rank)
    }

    /** The registered task for `id`, as a set of at most one object. */
    function Registered(id: string): set<Task>
      reads this
    {
      if id in tasks then {tasks[id]} else {}
    }

    function Current(): set<Task>
      reads this
    {
      if currentTask == null then {} else {currentTask}
    }

    /** `new TaskManager()`: no tasks and no current task. */
    constructor ()
      ensures Valid() && keys == [] && tasks == map[] && currentTask == null
    {
      keys := [];
      tasks := map[];
      currentTask := null;
      rank := map[];
    }

    /**
     * `TaskManager(data_file)` of the Python manager: an empty manager that then runs
     * `load_tasks()` on `doc`, the parsed file (`None` when there is none or it does not parse).
     */
    constructor Open(doc: Option<PyDocument>)
      requires doc.Some? ==> Distinct(RecordKeys(doc.value))
      ensures Valid() && currentTask == null
      ensures doc.None? ==> keys == [] && tasks == map[]
      ensures doc.Some? ==> PyLoaded(doc.value, keys, tasks, ListsOf(tasks), rank.Keys)
    {
      keys, tasks, currentTask, rank := [], map[], null, map[];
      new;
      ghost var lists, built := LoadRecords(doc);
    }

    /** `Array.from(this.tasks.values())`: the registered tasks in insertion order. */
    function Values(): (r: seq<Task>)
      reads this
      requires Consistent()
      ensures |r| == |keys| && forall i :: 0 <= i < |keys| ==> r[i] == tasks[keys[i]]
      ensures forall t :: t in r ==> t in tasks.Values
    {
      var ks, m := keys, tasks;
      seq(|ks|, i requires 0 <= i < |ks| && ks[i] in m => m[ks[i]])
    }

    /** `getTask(taskId)`: the registered task, or null for an unknown id. */
    function GetTask(id: string): (t: Task?)
      reads this
      ensures t == null <==> id !in tasks
      ensures t != null ==> t == tasks[id]
    {
      if id in tasks then tasks[id] else null
    }

    /** `getAllTasks()`: the registered tasks without a parent, in insertion order. */
    function GetAllTasks(): (r: seq<Task>)
      reads this, tasks.Values
      requires Consistent()
      ensures forall t :: t in r ==> t in tasks.Values && t.parentId.None?
      ensures forall k :: k in tasks && tasks[k].parentId.None? ==> tasks[k] in r
    {
      Filter(Values(), MainTasks)
    }

    /** `getSubtasks(parentId)`: the parent's own list (the same objects), or empty for an unknown parent. */
    function GetSubtasks(parentId: string): (r: seq<Task>)
      reads this, tasks.Values
      ensures parentId !in tasks ==> r == []
      ensures parentId in tasks ==> r == tasks[parentId].subtasks
    {
      if parentId in tasks then tasks[parentId].subtasks else []
    }

    /** `getActiveTasks()`, `getCompletedTasks()`, `getTasksNeedingBreak()`. */
    function Query(s: Selector): (r: seq<Task>)
      reads this, tasks.Values
      requires Consistent()
      ensures forall t :: t in r ==> t in tasks.Values && Selects(s, t)
      ensures forall k :: k in tasks && Selects(s, tasks[k]) ==> tasks[k] in r
    {
      Filter(Values(), s)
    }

    /** `getStatistics()`: counts over the main tasks, which split into pending, active and completed; time over all tasks. */
    function GetStatistics(): (s: Statistics)
      reads this, tasks.Values
      requires Consistent()
      ensures s.totalTasks == |GetAllTasks()|
      ensures s.pendingTasks + s.activeTasks + s.completedTasks == s.totalTasks
    {
      var main := GetAllTasks();
      StatusesPartition(main);
      Statistics(|main|, |Filter(main, CompletedTasks)|, |Filter(main, ActiveTasks)|, |Filter(main, PendingTasks)|,
                 TimeSpent(Values()))
    }

    /**
     * `createTask(title, description)`: registers one new main task under its id and gives it its
     * "Subdivide" subtask, which is in the task's list but not in the map.
     */
    method CreateTask(newId: string, scaffoldId: string, title: string, description: string, now: Time) returns (task: Task)
      requires Valid()
      modifies this
      ensures Valid()
      ensures fresh(task) && task.Fields() == NewTask(newId, title, description, None, now)
      ensures |task.subtasks| == 1 && fresh(task.subtasks[0]) && task.subtasks[0].subtasks == []
      ensures task.subtasks[0].Fields() == SubdivisionTask(task.Fields(), scaffoldId, now)
      ensures task.subtasks[0] !in tasks.Values
      ensures tasks == old(tasks)[newId := task]
      ensures keys == SetKey(old(keys), old(tasks), newId)
      ensures currentTask == old(currentTask)
    {
      task := new Task(newId, title, description, None, now);
      if newId !in tasks {
        keys := keys + [newId];
      }
      tasks := tasks[newId := task];
      var list := task.Subdivide(scaffoldId, now);
      RegisterRoot(old(keys), old(tasks), currentTask, rank, newId, task, list[0]);
      rank := rank[list[0] := 0][task := 1];
    }

    /**
     * `startTask(taskId)`: succeeds exactly for a registered pending task; the running task, if any,
     * is paused first, and the started task becomes the current one.
     */
    method StartTask(id: string, now: Time) returns (ok: bool)
      requires Valid()
      modifies this, Registered(id), Current()
      ensures Valid()
      ensures ok <==> id in old(tasks) && old(tasks[id].status) == Pending
      ensures tasks == old(tasks) && keys == old(keys) && rank == old(rank)
      ensures ok ==> currentTask == tasks[id] && tasks[id].Fields() == AfterStart(old(tasks[id].Fields()), now)
      ensures ok && old(currentTask) != null ==> old(currentTask).Fields() == AfterPause(old(currentTask.Fields()))
      ensures !ok ==> currentTask == old(currentTask) && unchanged(old(Registered(id))) && unchanged(old(Current()))
      ensures forall t :: t in rank ==> t.subtasks == old(t.subtasks)
    {
      if id in tasks && tasks[id].status == Pending {
        var task := tasks[id];
        if currentTask != null {
          currentTask.Pause();
        }
        task.Start(now);
        currentTask := task;
        ok := true;
      } else {
        ok := false;
      }
    }

    /**
     * `resumeTask(taskId)`: succeeds exactly for a registered paused task; a different running task
     * is paused, the task runs again, is marked resumed and has a context subtask, and is current.
     */
    method ResumeTask(id: string, contextId: string, now: Time) returns (ok: bool)
      requires Valid()
      modifies this, Registered(id), Current()
      ensures Valid()
      ensures ok <==> id in old(tasks) && old(tasks[id].status) == Paused
      ensures tasks == old(tasks) && keys == old(keys)
      ensures ok ==> currentTask == tasks[id] && tasks[id].Fields() == AfterResume(old(tasks[id].Fields()))
      ensures ok ==> tasks[id].status == InProgress && tasks[id].isResumed
      ensures ok ==> CountContext(tasks[id].subtasks) == if old(CountContext(tasks[id].subtasks)) == 0 then 1 else old(CountContext(tasks[id].subtasks))
      ensures ok && old(CountContext(tasks[id].subtasks)) > 0 ==> tasks[id].subtasks == old(tasks[id].subtasks)
      ensures ok && old(CountContext(tasks[id].subtasks)) == 0 ==>
        FrontLeaf(old(tasks[id].subtasks), tasks[id].subtasks) && fresh(tasks[id].subtasks[0])
        && tasks[id].subtasks[0].Fields() == ContextTask(tasks[id].Fields(), contextId, now)
      ensures ok && old(currentTask) != null ==> old(currentTask) != tasks[id] && old(currentTask).Fields() == AfterPause(old(currentTask.Fields()))
      ensures ok && old(currentTask) != null ==> old(currentTask).subtasks == old(currentTask.subtasks)
      ensures !ok ==> currentTask == old(currentTask) && unchanged(old(Registered(id))) && unchanged(old(Current()))
    {
      if id in tasks && tasks[id].status == Paused {
        var task := tasks[id];
        rank := ResumeSteps(task, if currentTask != task then currentTask else null, contextId, now, rank);
        currentTask := task;
        ok := true;
      } else {
        ok := false;
      }
    }

    /** `pauseCurrentTask()`: fails when nothing runs; otherwise pauses the running task and clears it. */
    method PauseCurrentTask() returns (ok: bool)
      requires Valid()
      modifies this, Current()
      ensures Valid()
      ensures ok <==> old(currentTask) != null
      ensures tasks == old(tasks) && keys == old(keys) && rank == old(rank) && currentTask == null
      ensures ok ==> old(currentTask).Fields() == AfterPause(old(currentTask.Fields())) && old(currentTask).status == Paused
      ensures ok ==> old(currentTask).subtasks == old(currentTask.subtasks)
    {
      if currentTask != null {
        currentTask.Pause();
        currentTask := null;
        ok := true;
      } else {
        ok := false;
      }
    }

    /**
     * `completeTask(taskId)`: fails for an unknown id; otherwise completes the task whatever its
     * status, and clears the current task only when it was this one.
     */
    method CompleteTask(id: string, now: Time) returns (ok: bool)
      requires Valid()
      modifies this, Registered(id)
      ensures Valid()
      ensures ok <==> id in old(tasks)
      ensures tasks == old(tasks) && keys == old(keys) && rank == old(rank)
      ensures ok ==> tasks[id].Fields() == AfterComplete(old(tasks[id].Fields()), now)
      ensures ok ==> tasks[id].subtasks == old(tasks[id].subtasks)
      ensures ok ==> currentTask == if old(currentTask) == tasks[id] then null else old(currentTask)
      ensures !ok ==> currentTask == old(currentTask)
    {
      if id in tasks {
        var task := tasks[id];
        task.Complete(now);
        if currentTask == task {
          currentTask := null;
        }
        ok := true;
      } else {
        ok := false;
      }
    }

    /**
     * `deleteTask(taskId)`: fails for an unknown id; otherwise removes the keys of the task and
     * of its direct subtasks, and no other (grandchildren stay registered). The current task is
     * cleared when its id is the deleted one.
     */
    method DeleteTask(id: string) returns (ok: bool)
      requires Valid()
      modifies this
      ensures Valid()
      ensures ok <==> id in old(tasks)
      ensures ok ==> tasks == old(tasks) - old(IdsOf(tasks[id].subtasks)) - {id}
      ensures ok ==> keys == Without(old(keys), old(IdsOf(tasks[id].subtasks)) + {id})
      ensures ok ==> currentTask == if old(currentTask) != null && old(currentTask.id) == id then null else old(currentTask)
      ensures !ok ==> tasks == old(tasks) && keys == old(keys) && currentTask == old(currentTask)
      ensures rank == old(rank)
    {
      if id !in tasks {
        return false;
      }
      var subs := tasks[id].subtasks;
      ghost var ids := IdsOf(subs);
      var deleted: set<string> := {};
      for i := 0 to |subs|
        invariant deleted == IdsOf(subs[..i])
        invariant tasks == old(tasks) - deleted
        invariant keys == old(keys) && rank == old(rank) && currentTask == old(currentTask)
        invariant IdsOf(subs) == ids
      {
        IdsOfStep(subs, i);
        tasks := tasks - {subs[i].id};
        deleted := deleted + {subs[i].id};
      }
      IdsOfStep(subs, |subs|);
      tasks := tasks - {id};
      // the iteration order loses the deleted keys and keeps the others in place
      keys := Without(keys, deleted + {id});
      if currentTask != null && currentTask.id == id {
        currentTask := null;
      }
      DeleteKeepsWellformed(old(keys), old(tasks), old(currentTask), rank, deleted + {id}, currentTask);
      ok := true;
    }

    /**
     * `addSubtask(parentId, title, description, duration)`: null for an unknown parent, with nothing
     * changed; otherwise one new subtask, appended to the parent's list and registered under its id:
     * the same object in both places.
     */
    method AddSubtask(parentId: string, newId: string, title: string, description: string, duration: int, now: Time)
      returns (sub: Task?)
      requires Valid()
      modifies this, Registered(parentId)
      ensures Valid()
      ensures sub == null <==> parentId !in old(tasks)
      ensures sub == null ==> tasks == old(tasks) && keys == old(keys)
      ensures sub != null ==>
        && fresh(sub) && sub.subtasks == []
        && sub.Fields() == ExplicitSubtask(old(tasks[parentId].Fields()), newId, title, description, duration, now)
        && old(tasks[parentId]).subtasks == old(tasks[parentId].subtasks) + [sub]
        && old(tasks[parentId]).Fields() == old(tasks[parentId].Fields())
        && tasks == old(tasks)[newId := sub]
        && keys == (if newId in old(tasks) then old(keys) else old(keys) + [newId])
      ensures currentTask == old(currentTask)
    {
      if parentId !in tasks {
        return null;
      }
      var parent := tasks[parentId];
      sub := parent.CreateSubtask(newId, title, description, duration, now);
      AddLeaf(rank, parent, sub);
      rank := Shifted(rank)[sub := 0];
      if newId !in tasks {
        keys := keys + [newId];
      }
      tasks := tasks[newId := sub];
    }

    /**
     * `loadTasks()`, as written with `r == ById`, corrected with `r == Relink`: `doc` is the parsed file, `None` when there is none or it does not
     * parse, and then nothing changes. Otherwise the map is cleared and refilled from the
     * records, in document order, each with the fields of its record and a fresh copy of its
     * nested records (`nested`); the current task is kept. When the parent links of the records
     * have no cycle, `rebuildTaskRelationships()` then walks them with rule `r`.
     */
    method LoadTasks(r: Rule, doc: Option<Document>)
      returns (loaded: bool, ghost nested: map<string, seq<Task>>, ghost lists: map<string, seq<Task>>, ghost built: set<Task>)
      requires Valid()
      requires doc.Some? ==> Distinct(RecordKeys(doc.value))
      modifies this
      ensures Valid()
      ensures loaded <==> doc.Some? && AllReadable(doc.value)
      ensures !loaded ==> keys == old(keys) && tasks == old(tasks) && rank == old(rank)
      ensures currentTask == old(currentTask)
      ensures loaded ==> fresh(built) && built <= rank.Keys && Loaded(doc.value, keys, tasks, nested, lists, built)
      ensures loaded ==> LinkedFrom(r, keys, tasks, lists, nested)
    {
      if doc.None? || !AllReadable(doc.value) {
        return false, map[], map[], {};
      }
      var ks, m;
      ghost var linked;
      ks, m, nested, lists, linked := ReadDocument(r, doc.value);
      built := linked.Keys;
      Install(ks, m, linked);
      loaded := true;
    }

    /**
     * `load_tasks()` as the Python constructor runs it, on a manager with no tasks: `doc` is the
     * parsed file, `None` when there is none or it does not parse, and then nothing changes.
     */
    method LoadRecords(doc: Option<PyDocument>) returns (ghost lists: map<string, seq<Task>>, ghost built: set<Task>)
      requires Valid() && keys == [] && currentTask == null
      requires doc.Some? ==> Distinct(RecordKeys(doc.value))
      modifies this
      ensures Valid() && currentTask == null
      ensures doc.None? ==> keys == [] && tasks == old(tasks)
      ensures doc.Some? ==> fresh(built) && built <= rank.Keys && PyLoaded(doc.value, keys, tasks, lists, built)
    {
      if doc.None? {
        return map[], {};
      }
      var ks, m;
      ghost var linked;
      ks, m, linked := ReadRecords(doc.value);
      lists, built := ListsOf(m), linked.Keys;
      Install(ks, m, linked);
    }

    /** Replaces the registered tasks by those read; `linked` ranks the objects read, all new. */
    method Install(ks: seq<string>, m: map<string, Task>, ghost linked: map<Task, nat>)
      requires Valid() && KeyOrder(ks, m) && Ranked(linked) && m.Values <= linked.Keys && rank.Keys !! linked.Keys
      modifies this
      ensures Valid() && keys == ks && tasks == m && rank == old(rank) + linked && currentTask == old(currentTask)
    {
      LoadKeepsWellformed(keys, tasks, currentTask, rank, ks, m, linked);
      rank := rank + linked;
      keys, tasks := ks, m;
    }

    /**
     * `saveTasks()`: the document to write, one record per registered task under its key, in
     * insertion order, each the task's `toJSON()`. Every record reads back as the task's fields
     * and its list's fields, and is canonical, so writing what was read gives the same record.
     */
    method SaveTasks() returns (d: Document)
      requires Valid()
      ensures RecordKeys(d) == keys && Distinct(RecordKeys(d)) && AllReadable(d)
      ensures forall i :: 0 <= i < |d| ==> d[i].1 == ToJson(tasks[keys[i]], rank) && Canonical(d[i].1) == d[i].1
      ensures forall i :: 0 <= i < |d| ==>
        FieldsFromJson(d[i].1) == Some(tasks[keys[i]].Fields()) && NestedAs(tasks[keys[i]].subtasks, d[i].1)
    {
      d := [];
      for i := 0 to |keys|
        invariant |d| == i
        invariant forall j :: 0 <= j < i ==> d[j] == (keys[j], ToJson(tasks[keys[j]], rank))
      {
        d := d + [(keys[i], ToJson(tasks[keys[i]], rank))];
      }
      forall j | 0 <= j < |d|
        ensures Readable(d[j].1) && Canonical(d[j].1) == d[j].1
        ensures FieldsFromJson(d[j].1) == Some(tasks[keys[j]].Fields()) && NestedAs(tasks[keys[j]].subtasks, d[j].1)
      {
        WrittenReadsBack(tasks[keys[j]], rank);
      }
    }

    /**
     * `save_tasks()` of the Python manager: the data to write, one `_task_to_dict` record per
     * registered task under its key, in insertion order. Every record reads back, so a load of
     * what was saved reads all of it, each task with its fields but the type derived again from
     * the parent id and no workspace.
     */
    method SaveRecords() returns (d: PyDocument)
      requires Valid()
      ensures RecordKeys(d) == keys && Distinct(RecordKeys(d))
      ensures forall i :: 0 <= i < |d| ==> d[i].1 == TaskToDict(tasks[keys[i]].Fields())
      ensures ReadCount(d) == |d|
      ensures forall i :: 0 <= i < |d| ==> DictToTask(d[i].1) == Some(Reloaded(tasks[keys[i]].Fields()))
    {
      d := [];
      for i := 0 to |keys|
        invariant |d| == i
        invariant forall j :: 0 <= j < i ==> d[j] == (keys[j], TaskToDict(tasks[keys[j]].Fields()))
      {
        d := d + [(keys[i], TaskToDict(tasks[keys[i]].Fields()))];
      }
      forall j | 0 <= j < |d|
        ensures DictToTask(d[j].1) == Some(Reloaded(tasks[keys[j]].Fields()))
      {
        DictRoundTrip(tasks[keys[j]].Fields());
      }
      ReadCountIs(d, |d|);
    }

    /** `logTimeBlock(taskId, duration, isBreak)`: appends a block to a registered task; nothing for an unknown id. */
    method LogTimeBlock(id: string, duration: int, isBreak: bool, now: Time)
      requires Valid()
      modifies Registered(id)
      ensures Valid()
      ensures id in tasks ==> tasks[id].Fields() == AfterTimeBlock(old(tasks[id].Fields()), duration, isBreak, now)
      ensures id in tasks ==> tasks[id].subtasks == old(tasks[id].subtasks)
      ensures id !in tasks ==> unchanged(old(Registered(id)))
    {
      if id in tasks {
        tasks[id].AddTimeBlock(duration, isBreak, now);
      }
    }
  }
}
