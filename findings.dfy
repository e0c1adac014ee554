/**
 * A document on which `rebuildTaskRelationships` in electron-tracker/src/shared/TaskManager.js,
 * as written, leaves a parent pointing at a stale copy of its subtask.
 *
 * `saveTasks` writes every registered task with its subtasks nested, and a subtask created by
 * `addSubtask` is registered as well; so the file holds the subtask twice, nested in its parent's
 * record and under its own key. `loadTasks` builds a fresh object for each, and the rebuild, which
 * only appends a registered task when the parent's list has no entry with its id, keeps the
 * nested copy: the parent's list and the map now hold different objects for one id, and
 * completing the registered subtask is not seen in the parent's progress.
 */
module StaleCopy {
  import opened Wrappers
  import opened TaskEntity
  import opened TaskSerialization
  import opened TaskLinks
  import opened TaskManagement

  /**
   * As written: when the record of one task nests a record with the id of another registered
   * task (as `saveTasks` writes a parent and a subtask added by `addSubtask`), the registered
   * object never gets into the first task's list: the list keeps the copy read from the file.
   */
  lemma StaleCopyKept(d: Document, keys: seq<string>, tasks: map<string, Task>, nested: map<string, seq<Task>>,
                      lists: map<string, seq<Task>>, objs: set<Task>, i: nat, j: nat, n: nat)
    requires AllReadable(d) && Loaded(d, keys, tasks, nested, lists, objs) && LinkedFrom(ById, keys, tasks, lists, nested)
    requires i < |d| && j < |d| && n < |NestedRecords(d[i].1)| && NestedRecords(d[i].1)[n].id == d[j].1.id
    ensures tasks[d[j].0] !in tasks[d[i].0].subtasks
  {
    var kp, kc := d[i].0, d[j].0;
    LoadedRecord(d, keys, tasks, nested, lists, objs, i);
    LoadedRecord(d, keys, tasks, nested, lists, objs, j);
    assert nested[kp][n].id == tasks[kc].id;
    if Acyclic(tasks) {
      CopyBlocks(keys, tasks, nested, kp, tasks[kc]);
    }
  }

  /** A list that holds an entry with the id of `t`, but not `t`, still does not hold `t` after the walk as written. */
  lemma CopyBlocks(keys: seq<string>, tasks: map<string, Task>, lists: map<string, seq<Task>>, k: string, t: Task)
    requires tasks.Keys <= lists.Keys && k in lists
    requires t.id in IdsOf(lists[k]) && t !in lists[k]
    ensures t !in Walk(ById, keys, tasks, lists)[k]
  {
    WalkGrowsFromStart(ById, keys, tasks, lists);
  }

  /**
   * Corrected: when the parent links have no cycle and the registered tasks carry distinct ids,
   * every registered task whose parent is registered is, after loading, in its parent's list:
   * the very object, so what is done to it through the map is seen through the parent.
   */
  lemma RelinkedAfterLoad(d: Document, keys: seq<string>, tasks: map<string, Task>, nested: map<string, seq<Task>>,
                          lists: map<string, seq<Task>>, objs: set<Task>)
    requires AllReadable(d) && Loaded(d, keys, tasks, nested, lists, objs) && LinkedFrom(Relink, keys, tasks, lists, nested)
    requires Acyclic(tasks) && UniqueIds(tasks)
    ensures forall k :: Linked(tasks, k) ==> tasks[k] in ParentOf(tasks, k).subtasks
  {
    RelinkedLists(keys, tasks, nested, lists);
    forall k | Linked(tasks, k)
      ensures tasks[k] in ParentOf(tasks, k).subtasks
    {
      assert ListsOf(tasks)[ParentKeyOf(tasks, k)] == ParentOf(tasks, k).subtasks;
    }
  }

  /** The corrected walk over every registered key puts each linked task into its parent's list. */
  lemma RelinkedLists(keys: seq<string>, tasks: map<string, Task>, nested: map<string, seq<Task>>,
                      lists: map<string, seq<Task>>)
    requires KeyOrder(keys, tasks) && tasks.Keys <= nested.Keys && UniqueIds(tasks)
    requires lists == Walk(Relink, keys, tasks, nested)
    ensures forall k :: Linked(tasks, k) ==> tasks[k] in lists[ParentKeyOf(tasks, k)]
  {
    WalkLinks(Relink, keys, tasks, nested);
    forall k | Linked(tasks, k)
      ensures tasks[k] in lists[ParentKeyOf(tasks, k)]
    {
      var j :| 0 <= j < |keys| && keys[j] == k;
      HoldsIn(Relink, lists[ParentKeyOf(tasks, k)], tasks[k]);
    }
  }
}
