/**
 * Re-linking parents to their registered subtasks after a load: `rebuildTaskRelationships` in
 * electron-tracker/src/shared/TaskManager.js and `_rebuild_task_relationships` in
 * src/traker/task_manager.py. Both walk the manager's map in insertion order and, for each task
 * whose `parentId` names a registered task, put the task into that parent's subtask list unless
 * the list already has it; they differ in what "has it" means (same id, same object).
 *
 * The walks work on the manager's key order and map, passed in; they change subtask lists only.
 */
module TaskLinks {
  import opened Wrappers
  import opened TaskEntity

  /** `if (task.parentId)`: the parent key of a task, when its `parentId` is truthy (present and not empty). */
  function ParentKey(t: Task): (r: Option<string>)
    ensures r.Some? <==> t.parentId.Some? && t.parentId.value != ""
    ensures r.Some? ==> r == t.parentId
  {
    if t.parentId.Some? && t.parentId.value != "" then t.parentId else None
  }

  /** The task under `k` names a parent, and the parent is registered. */
  predicate Linked(tasks: map<string, Task>, k: string)
  {
    k in tasks && ParentKey(tasks[k]).Some? && ParentKey(tasks[k]).value in tasks
  }

  function ParentOf(tasks: map<string, Task>, k: string): Task
    requires Linked(tasks, k)
  {
    tasks[ParentKey(tasks[k]).value]
  }

  /** No object is registered under two keys. */
  predicate Injective(tasks: map<string, Task>) {
    forall k1, k2 :: k1 in tasks && k2 in tasks && k1 != k2 ==> tasks[k1] != tasks[k2]
  }

  /** No two registered tasks carry the same id. */
  predicate UniqueIds(tasks: map<string, Task>)
  {
    forall k1, k2 :: k1 in tasks && k2 in tasks && k1 != k2 ==> tasks[k1].id != tasks[k2].id
  }

  /** Every link a walk can make goes from a parent down to a lower-ranked task. */
  ghost predicate LinksRanked(tasks: map<string, Task>, rank: map<Task, nat>)
  {
    tasks.Values <= rank.Keys && forall k :: Linked(tasks, k) ==> rank[tasks[k]] < rank[ParentOf(tasks, k)]
  }

  /** `subtasks.some(st => st.id === id)` */
  predicate HasId(ts: seq<Task>, id: string)
  {
    exists i :: 0 <= i < |ts| && ts[i].id == id
  }

  /** The key order lists the keys of the map. */
  predicate Covers(keys: seq<string>, tasks: map<string, Task>) {
    (forall i :: 0 <= i < |keys| ==> keys[i] in tasks) && (forall k :: k in tasks ==> k in keys)
  }

  /**
   * The three ways a walk puts a child into its parent's list: the Electron manager's check by
   * id, the Python manager's check by identity, and the corrected Electron rule, which puts the
   * registered object in place of the first entry with its id.
   */
  datatype Rule = ById | ByIdentity | Relink

  /** `subtasks.findIndex(st => st.id === id)`: the first index with `id`, or -1. */
  function FirstId(ts: seq<Task>, id: string): (r: int)
    ensures -1 <= r < |ts|
    ensures r >= 0 ==> ts[r].id == id && forall i :: 0 <= i < r ==> ts[i].id != id
    ensures r < 0 <==> !HasId(ts, id)
  {
    if ts == [] then -1
    else if ts[0].id == id then 0
    else var r := FirstId(ts[1..], id); if r < 0 then -1 else r + 1
  }

  /** What one step of the walk does to the parent's list `list` for the child `t`. */
  function Place(r: Rule, list: seq<Task>, t: Task): (l: seq<Task>)
    ensures forall x :: x in l ==> x in list || x == t
  {
    match r
    case ById => if HasId(list, t.id) then list else list + [t]
    case ByIdentity => if t in list then list else list + [t]
    case Relink => var j := FirstId(list, t.id); if j < 0 then list + [t] else list[j := t]
  }

  /** The walk at key `k`, on the lists as values. */
  function Step(r: Rule, tasks: map<string, Task>, k: string, lists: map<string, seq<Task>>): (m: map<string, seq<Task>>)
    requires tasks.Keys <= lists.Keys
    ensures m.Keys == lists.Keys
  {
    if Linked(tasks, k) then
      var p := ParentKey(tasks[k]).value;
      lists[p := Place(r, lists[p], tasks[k])]
    else lists
  }

  /** The whole walk over `keys`, in order, on the lists as values. */
  function Walk(r: Rule, keys: seq<string>, tasks: map<string, Task>, lists: map<string, seq<Task>>): (m: map<string, seq<Task>>)
    requires tasks.Keys <= lists.Keys
    ensures m.Keys == lists.Keys
    decreases |keys|
  {
    if keys == [] then lists else Walk(r, keys[1..], tasks, Step(r, tasks, keys[0], lists))
  }

  /** The subtask lists of the registered tasks. */
  function ListsOf(tasks: map<string, Task>): (m: map<string, seq<Task>>)
    reads tasks.Values`subtasks
    ensures m.Keys == tasks.Keys
    ensures forall k :: k in tasks ==> m[k] == tasks[k].subtasks
  {
    map k | k in tasks :: tasks[k].subtasks
  }

  // ---------------------------------------------------------------------------------------------
  // What a walk does to each list

  /** The child `t` counts as being in `list`, as rule `r` sees it. */
  predicate Holds(r: Rule, list: seq<Task>, t: Task)
  {
    match r
    case ById => HasId(list, t.id)
    case ByIdentity => t in list
    case Relink => 0 <= FirstId(list, t.id) && list[FirstId(list, t.id)] == t
  }

  /** Rule `r` would put `t` into a list that did not have it before: by id, or by identity. */
  predicate New(r: Rule, before: seq<Task>, t: Task)
  {
    if r == ByIdentity then t !in before else t.id !in IdsOf(before)
  }

  /**
   * What the walk may have done to a list that was `before`: the entries of `before` stay where
   * they were (under `Relink`, an entry may be replaced by a registered child of `k` with the
   * same id), and the entries after them are registered children of `k` that are new to `before`.
   */
  predicate Grown(r: Rule, tasks: map<string, Task>, k: string, list: seq<Task>, before: seq<Task>)
  {
    && |before| <= |list|
    && (forall i :: 0 <= i < |before| ==>
          list[i] == before[i] ||
          (r == Relink && list[i] in tasks.Values && ParentKey(list[i]) == Some(k) && list[i].id == before[i].id))
    && (forall i :: |before| <= i < |list| ==>
          list[i] in tasks.Values && ParentKey(list[i]) == Some(k) && New(r, before, list[i]))
  }

  lemma GrownRefl(r: Rule, tasks: map<string, Task>, k: string, list: seq<Task>)
    ensures Grown(r, tasks, k, list, list)
  {
  }

  /** Each id of `before` is still the id of an entry at the same place of `list`. */
  lemma GrownIds(r: Rule, tasks: map<string, Task>, k: string, list: seq<Task>, before: seq<Task>, id: string)
    requires Grown(r, tasks, k, list, before) && id in IdsOf(before)
    ensures HasId(list, id)
  {
    var i :| 0 <= i < |before| && before[i].id == id;
    assert list[i].id == id;
  }

  /** One placement of a registered child of `k` keeps a list grown from `before`. */
  lemma PlaceGrows(r: Rule, tasks: map<string, Task>, k: string, list: seq<Task>, before: seq<Task>, t: Task)
    requires Grown(r, tasks, k, list, before)
    requires t in tasks.Values && ParentKey(t) == Some(k)
    ensures Grown(r, tasks, k, Place(r, list, t), before)
  {
    var list' := Place(r, list, t);
    if list' != list && |list'| > |list| {
      assert list' == list + [t];
      match r
      case ById =>
        if t.id in IdsOf(before) { GrownIds(r, tasks, k, list, before, t.id); }
      case ByIdentity =>
        assert t !in list;
      case Relink =>
        if t.id in IdsOf(before) { GrownIds(r, tasks, k, list, before, t.id); }
    } else if list' != list {
      var j := FirstId(list, t.id);
      assert r == Relink && 0 <= j && list' == list[j := t];
      if j >= |before| {
        assert New(r, before, list[j]);
      }
    }
  }

  /** The walk only grows each list, as `Grown` allows. */
  lemma {:induction false} WalkGrows(r: Rule, keys: seq<string>, tasks: map<string, Task>,
                                     lists: map<string, seq<Task>>, before: map<string, seq<Task>>)
    requires tasks.Keys <= lists.Keys && lists.Keys == before.Keys
    requires forall k :: k in lists ==> Grown(r, tasks, k, lists[k], before[k])
    ensures forall k :: k in lists ==> Grown(r, tasks, k, Walk(r, keys, tasks, lists)[k], before[k])
    decreases |keys|
  {
    if keys != [] {
      var lists' := Step(r, tasks, keys[0], lists);
      if Linked(tasks, keys[0]) {
        var p := ParentKey(tasks[keys[0]]).value;
        PlaceGrows(r, tasks, p, lists[p], before[p], tasks[keys[0]]);
      }
      WalkGrows(r, keys[1..], tasks, lists', before);
    }
  }

  /** Whatever the walk started from, each list it ends with has grown from where it started. */
  lemma WalkGrowsFromStart(r: Rule, keys: seq<string>, tasks: map<string, Task>, lists: map<string, seq<Task>>)
    requires tasks.Keys <= lists.Keys
    ensures forall k :: k in lists ==> Grown(r, tasks, k, Walk(r, keys, tasks, lists)[k], lists[k])
  {
    forall k | k in lists { GrownRefl(r, tasks, k, lists[k]); }
    WalkGrows(r, keys, tasks, lists, lists);
  }

  // ---------------------------------------------------------------------------------------------
  // What a walk guarantees about each child

  /** After a step for `t`, `t` is in the list as the rule sees it. */
  lemma PlaceHolds(r: Rule, list: seq<Task>, t: Task)
    ensures Holds(r, Place(r, list, t), t)
  {
    var list' := Place(r, list, t);
    match r
    case ById =>
      if !HasId(list, t.id) { assert list'[|list|] == t; }
    case ByIdentity =>
      if t !in list { assert list'[|list|] == t; }
    case Relink =>
      var j := FirstId(list, t.id);
      if j < 0 {
        assert list'[|list|] == t;
        assert FirstId(list', t.id) == |list| by {
          assert forall i :: 0 <= i < |list| ==> list'[i] == list[i];
          FirstIdIs(list', t.id, |list|);
        }
      } else {
        FirstIdIs(list', t.id, j);
      }
  }

  /** `FirstId` finds the first place with the id. */
  lemma FirstIdIs(ts: seq<Task>, id: string, j: int)
    requires 0 <= j < |ts| && ts[j].id == id && forall i :: 0 <= i < j ==> ts[i].id != id
    ensures FirstId(ts, id) == j
  {
  }

  /**
   * A later step for another registered child `t` leaves `x` in the list. Under `Relink` this
   * needs registered tasks to carry distinct ids: otherwise `t` may take the place of `x`.
   */
  lemma PlaceKeeps(r: Rule, tasks: map<string, Task>, list: seq<Task>, t: Task, x: Task)
    requires Holds(r, list, x)
    requires t in tasks.Values && x in tasks.Values
    requires r == Relink ==> UniqueIds(tasks)
    ensures Holds(r, Place(r, list, t), x)
  {
    var list' := Place(r, list, t);
    match r
    case ById =>
      if !HasId(list, t.id) {
        var i :| 0 <= i < |list| && list[i].id == x.id;
        assert list'[i] == list[i];
      }
    case ByIdentity =>
      if t !in list {
        var i :| 0 <= i < |list| && list[i] == x;
        assert list'[i] == list[i];
      }
    case Relink =>
      var jx := FirstId(list, x.id);
      var j := FirstId(list, t.id);
      if t.id == x.id {
        var kt :| kt in tasks && tasks[kt] == t;
        var kx :| kx in tasks && tasks[kx] == x;
        assert t == x;
        assert j == jx && list' == list;
      } else if j < 0 {
        assert forall i :: 0 <= i < |list| ==> list'[i] == list[i];
        FirstIdIs(list', x.id, jx);
      } else {
        assert list'[j].id == t.id;
        assert forall i :: 0 <= i < |list| && i != j ==> list'[i] == list[i];
        FirstIdIs(list', x.id, jx);
      }
  }

  /** The parent key the walk uses for the child under `k`. */
  function ParentKeyOf(tasks: map<string, Task>, k: string): string
    requires Linked(tasks, k)
  {
    ParentKey(tasks[k]).value
  }

  /** A walk keeps what already holds for the registered child under `k`. */
  lemma {:induction false} WalkKeeps(r: Rule, keys: seq<string>, tasks: map<string, Task>,
                                     lists: map<string, seq<Task>>, k: string)
    requires tasks.Keys <= lists.Keys && Linked(tasks, k)
    requires r == Relink ==> UniqueIds(tasks)
    requires Holds(r, lists[ParentKeyOf(tasks, k)], tasks[k])
    ensures Holds(r, Walk(r, keys, tasks, lists)[ParentKeyOf(tasks, k)], tasks[k])
    decreases |keys|
  {
    if keys != [] {
      if Linked(tasks, keys[0]) {
        var p := ParentKey(tasks[keys[0]]).value;
        if p == ParentKeyOf(tasks, k) {
          PlaceKeeps(r, tasks, lists[p], tasks[keys[0]], tasks[k]);
        }
      }
      WalkKeeps(r, keys[1..], tasks, Step(r, tasks, keys[0], lists), k);
    }
  }

  /**
   * After the walk, every task walked whose parent is registered is in its parent's list, as the
   * rule sees it (for `Relink`, when registered tasks carry distinct ids).
   */
  lemma {:induction false} WalkLinks(r: Rule, keys: seq<string>, tasks: map<string, Task>, lists: map<string, seq<Task>>)
    requires tasks.Keys <= lists.Keys
    requires r == Relink ==> UniqueIds(tasks)
    ensures forall j :: 0 <= j < |keys| && Linked(tasks, keys[j]) ==>
      Holds(r, Walk(r, keys, tasks, lists)[ParentKeyOf(tasks, keys[j])], tasks[keys[j]])
    decreases |keys|
  {
    if keys != [] {
      var lists' := Step(r, tasks, keys[0], lists);
      WalkLinks(r, keys[1..], tasks, lists');
      if Linked(tasks, keys[0]) {
        PlaceHolds(r, lists[ParentKeyOf(tasks, keys[0])], tasks[keys[0]]);
        WalkKeeps(r, keys[1..], tasks, lists', keys[0]);
      }
      forall j | 1 <= j < |keys| && Linked(tasks, keys[j])
        ensures Holds(r, Walk(r, keys, tasks, lists)[ParentKeyOf(tasks, keys[j])], tasks[keys[j]])
      {
        assert keys[j] == keys[1..][j - 1];
      }
    }
  }

  /** The registered tasks whose parent is registered under `p`, in the order of `keys`. */
  function Children(keys: seq<string>, tasks: map<string, Task>, p: string): seq<Task>
    requires forall i :: 0 <= i < |keys| ==> keys[i] in tasks
    decreases |keys|
  {
    if keys == [] then []
    else
      var rest := Children(keys[1..], tasks, p);
      if Linked(tasks, keys[0]) && ParentKeyOf(tasks, keys[0]) == p then [tasks[keys[0]]] + rest else rest
  }

  /** The children of `p` are exactly the tasks under the keys whose parent key is `p`. */
  lemma {:induction false} ChildrenAre(keys: seq<string>, tasks: map<string, Task>, p: string, x: Task)
    requires forall i :: 0 <= i < |keys| ==> keys[i] in tasks
    ensures x in Children(keys, tasks, p) <==>
      exists i :: 0 <= i < |keys| && Linked(tasks, keys[i]) && ParentKeyOf(tasks, keys[i]) == p && x == tasks[keys[i]]
    decreases |keys|
  {
    if keys != [] {
      ChildrenAre(keys[1..], tasks, p, x);
      if x in Children(keys[1..], tasks, p) {
        var i :| 0 <= i < |keys[1..]| && Linked(tasks, keys[1..][i]) && ParentKeyOf(tasks, keys[1..][i]) == p && x == tasks[keys[1..][i]];
        assert keys[1..][i] == keys[i + 1];
      }
      forall i | 1 <= i < |keys| && Linked(tasks, keys[i]) && ParentKeyOf(tasks, keys[i]) == p && x == tasks[keys[i]]
        ensures x in Children(keys[1..], tasks, p)
      {
        assert keys[1..][i - 1] == keys[i];
      }
    }
  }

  /** Distinct keys holding distinct objects give lists of children without repeats. */
  lemma {:induction false} ChildrenDistinct(keys: seq<string>, tasks: map<string, Task>, p: string)
    requires forall i :: 0 <= i < |keys| ==> keys[i] in tasks
    requires Injective(tasks) && forall i, j :: 0 <= i < j < |keys| ==> keys[i] != keys[j]
    ensures var cs := Children(keys, tasks, p); forall i, j :: 0 <= i < j < |cs| ==> cs[i] != cs[j]
    decreases |keys|
  {
    if keys != [] {
      ChildrenDistinct(keys[1..], tasks, p);
      var rest := Children(keys[1..], tasks, p);
      forall i | 0 <= i < |keys[1..]|
        ensures tasks[keys[1..][i]] != tasks[keys[0]]
      {
        assert keys[1..][i] == keys[i + 1];
      }
      ChildrenAre(keys[1..], tasks, p, tasks[keys[0]]);
    }
  }

  /**
   * The walk by identity from lists that hold none of the registered tasks appends to each list
   * the registered children of its key, in key order, each exactly once.
   */
  lemma {:induction false} WalkCollects(keys: seq<string>, tasks: map<string, Task>, lists: map<string, seq<Task>>)
    requires tasks.Keys <= lists.Keys && Injective(tasks)
    requires forall i :: 0 <= i < |keys| ==> keys[i] in tasks
    requires forall i, j :: 0 <= i < j < |keys| ==> keys[i] != keys[j]
    requires forall p, i :: p in lists && 0 <= i < |keys| ==> tasks[keys[i]] !in lists[p]
    ensures forall p :: p in lists ==> Walk(ByIdentity, keys, tasks, lists)[p] == lists[p] + Children(keys, tasks, p)
    decreases |keys|
  {
    if keys != [] {
      var t := tasks[keys[0]];
      var lists' := Step(ByIdentity, tasks, keys[0], lists);
      StepKeepsOut(keys, tasks, lists);
      WalkCollects(keys[1..], tasks, lists');
      assert Walk(ByIdentity, keys, tasks, lists) == Walk(ByIdentity, keys[1..], tasks, lists');
      forall p | p in lists
        ensures Walk(ByIdentity, keys, tasks, lists)[p] == lists[p] + Children(keys, tasks, p)
      {
        StepCollects(keys, tasks, lists, p);
      }
    }
  }

  /** The step for the first key adds to the list of `p` what `Children` takes from that key. */
  lemma StepCollects(keys: seq<string>, tasks: map<string, Task>, lists: map<string, seq<Task>>, p: string)
    requires keys != [] && tasks.Keys <= lists.Keys && p in lists
    requires forall i :: 0 <= i < |keys| ==> keys[i] in tasks
    requires tasks[keys[0]] !in lists[p]
    ensures Step(ByIdentity, tasks, keys[0], lists)[p] + Children(keys[1..], tasks, p) == lists[p] + Children(keys, tasks, p)
  {
  }

  /** After the step for the first key, the lists still hold none of the tasks under the later keys. */
  lemma StepKeepsOut(keys: seq<string>, tasks: map<string, Task>, lists: map<string, seq<Task>>)
    requires keys != [] && tasks.Keys <= lists.Keys && Injective(tasks)
    requires forall i :: 0 <= i < |keys| ==> keys[i] in tasks
    requires forall i, j :: 0 <= i < j < |keys| ==> keys[i] != keys[j]
    requires forall p, i :: p in lists && 0 <= i < |keys| ==> tasks[keys[i]] !in lists[p]
    ensures var lists' := Step(ByIdentity, tasks, keys[0], lists);
      forall p, i :: p in lists' && 0 <= i < |keys[1..]| ==> tasks[keys[1..][i]] !in lists'[p]
  {
    var lists' := Step(ByIdentity, tasks, keys[0], lists);
    forall p, i | p in lists' && 0 <= i < |keys[1..]|
      ensures tasks[keys[1..][i]] !in lists'[p]
    {
      assert keys[1..][i] == keys[i + 1];
      assert keys[0] != keys[i + 1];
    }
  }

  /** No two entries of the list carry the same id. */
  predicate IdsDistinct(ts: seq<Task>)
  {
    forall i, j :: 0 <= i < j < |ts| ==> ts[i].id != ts[j].id
  }

  /**
   * The id check of the Electron walk, as written or corrected, never puts a second entry with
   * one id into a list.
   */
  lemma PlaceDistinct(r: Rule, list: seq<Task>, t: Task)
    requires r != ByIdentity && IdsDistinct(list)
    ensures IdsDistinct(Place(r, list, t))
  {
    var l := Place(r, list, t);
    if r == ById && !HasId(list, t.id) {
      forall i, j | 0 <= i < j < |l|
        ensures l[i].id != l[j].id
      {
        if j == |list| {
          assert l[i] == list[i];
        }
      }
    }
  }

  /**
   * Walking with the Electron rules keeps every list free of repeated ids: whatever records
   * share an id, the walk never adds an entry whose id a list already holds.
   */
  lemma {:induction false} WalkKeepsIdsDistinct(r: Rule, keys: seq<string>, tasks: map<string, Task>, lists: map<string, seq<Task>>)
    requires r != ByIdentity && tasks.Keys <= lists.Keys
    requires forall p :: p in lists ==> IdsDistinct(lists[p])
    ensures forall p :: p in lists ==> IdsDistinct(Walk(r, keys, tasks, lists)[p])
    decreases |keys|
  {
    if keys != [] {
      var lists' := Step(r, tasks, keys[0], lists);
      forall p | p in lists'
        ensures IdsDistinct(lists'[p])
      {
        if Linked(tasks, keys[0]) && ParentKey(tasks[keys[0]]).value == p {
          PlaceDistinct(r, lists[p], tasks[keys[0]]);
        }
      }
      WalkKeepsIdsDistinct(r, keys[1..], tasks, lists');
    }
  }

  /** `Holds` for the identity rules means the very object is in the list. */
  lemma HoldsIn(r: Rule, list: seq<Task>, t: Task)
    requires r != ById && Holds(r, list, t)
    ensures t in list
  {
  }

  /** A step whose child already holds changes nothing. */
  lemma PlaceHeld(r: Rule, list: seq<Task>, t: Task)
    requires Holds(r, list, t)
    ensures Place(r, list, t) == list
  {
    if r == Relink {
      var j := FirstId(list, t.id);
      assert list[j := t] == list;
    }
  }

  /** A walk over keys whose children all hold already changes nothing. */
  lemma {:induction false} WalkHeld(r: Rule, keys: seq<string>, tasks: map<string, Task>, lists: map<string, seq<Task>>)
    requires tasks.Keys <= lists.Keys
    requires forall j :: 0 <= j < |keys| && Linked(tasks, keys[j]) ==>
      Holds(r, lists[ParentKeyOf(tasks, keys[j])], tasks[keys[j]])
    ensures Walk(r, keys, tasks, lists) == lists
    decreases |keys|
  {
    if keys != [] {
      if Linked(tasks, keys[0]) {
        PlaceHeld(r, lists[ParentKeyOf(tasks, keys[0])], tasks[keys[0]]);
        assert lists[ParentKeyOf(tasks, keys[0]) := lists[ParentKeyOf(tasks, keys[0])]] == lists;
      }
      assert Step(r, tasks, keys[0], lists) == lists;
      forall j | 0 <= j < |keys[1..]| && Linked(tasks, keys[1..][j])
        ensures Holds(r, lists[ParentKeyOf(tasks, keys[1..][j])], tasks[keys[1..][j]])
      {
        assert keys[1..][j] == keys[j + 1];
      }
      WalkHeld(r, keys[1..], tasks, lists);
    }
  }

  /** Walking twice is walking once (for `Relink`, when registered tasks carry distinct ids). */
  lemma WalkIdempotent(r: Rule, keys: seq<string>, tasks: map<string, Task>, lists: map<string, seq<Task>>)
    requires tasks.Keys <= lists.Keys
    requires r == Relink ==> UniqueIds(tasks)
    ensures Walk(r, keys, tasks, Walk(r, keys, tasks, lists)) == Walk(r, keys, tasks, lists)
  {
    WalkLinks(r, keys, tasks, lists);
    WalkHeld(r, keys, tasks, Walk(r, keys, tasks, lists));
  }

  // ---------------------------------------------------------------------------------------------
  // Parent links without a cycle, and a ranking that puts each registered tree below its parent's

  /**
   * The number of parent links from the task under `k` up to a task whose parent is not
   * registered, following at most `fuel` links; `None` when `fuel` runs out first.
   */
  function Depth(tasks: map<string, Task>, k: string, fuel: nat): (d: Option<nat>)
    ensures d.Some? ==> d.value <= fuel
    ensures d == Some(0) <==> !Linked(tasks, k)
    decreases fuel
  {
    if !Linked(tasks, k) then Some(0)
    else if fuel == 0 then None
    else match Depth(tasks, ParentKey(tasks[k]).value, fuel - 1)
      case None => None
      case Some(n) => Some(n + 1)
  }

  /** Following parent links from any registered task ends: the links have no cycle. */
  predicate Acyclic(tasks: map<string, Task>)
  {
    forall k :: k in tasks ==> Depth(tasks, k, |tasks|).Some?
  }

  /** More fuel does not change a depth that was found. */
  lemma {:induction false} DepthMore(tasks: map<string, Task>, k: string, fuel: nat)
    requires Depth(tasks, k, fuel).Some?
    ensures Depth(tasks, k, fuel + 1) == Depth(tasks, k, fuel)
    decreases fuel
  {
    if Linked(tasks, k) {
      DepthMore(tasks, ParentKey(tasks[k]).value, fuel - 1);
    }
  }

  /** How high a registered task stands in a forest of links without cycles: its parent stands higher. */
  function Level(tasks: map<string, Task>, k: string): nat
    requires Acyclic(tasks) && k in tasks
  {
    |tasks| - Depth(tasks, k, |tasks|).value
  }

  lemma LevelDrops(tasks: map<string, Task>, k: string)
    requires Acyclic(tasks) && Linked(tasks, k)
    ensures Level(tasks, k) < Level(tasks, ParentKey(tasks[k]).value)
  {
    var p := ParentKey(tasks[k]).value;
    var n := |tasks|;
    assert n > 0;
    DepthMore(tasks, p, n - 1);
  }

  /** `level * bound`, by repeated addition: where the trees of one level start. */
  function Stride(level: nat, bound: nat): nat {
    if level == 0 then 0 else Stride(level - 1, bound) + bound
  }

  /** A tree at a lower level ends below where a tree at a higher level starts. */
  lemma {:induction false} StrideBelow(a: nat, b: nat, bound: nat)
    requires a < b
    ensures Stride(a, bound) + bound <= Stride(b, bound)
    decreases b - a
  {
    if a < b - 1 {
      StrideBelow(a, b - 1, bound);
    }
  }

  /**
   * Each registered task is the root of its own tree of objects (`treeOf` says which), ranked by
   * `inner` below `bound`. Stacking each tree at its level gives one ranking of all of them.
   */
  ghost function Stack(tasks: map<string, Task>, inner: map<Task, nat>, treeOf: map<Task, string>, bound: nat): (rank: map<Task, nat>)
    requires Acyclic(tasks) && inner.Keys == treeOf.Keys
    requires forall o :: o in inner ==> treeOf[o] in tasks
    ensures rank.Keys == inner.Keys
  {
    map o | o in inner :: inner[o] + Stride(Level(tasks, treeOf[o]), bound)
  }

  /** Within a tree the stacked ranking orders objects as `inner` does, so it is a ranking. */
  lemma StackRanked(tasks: map<string, Task>, inner: map<Task, nat>, treeOf: map<Task, string>, bound: nat)
    requires Acyclic(tasks) && inner.Keys == treeOf.Keys
    requires forall o :: o in inner ==> treeOf[o] in tasks
    requires Ranked(inner)
    requires forall o, n :: o in inner && 0 <= n < |o.subtasks| ==> treeOf[o.subtasks[n]] == treeOf[o]
    ensures Ranked(Stack(tasks, inner, treeOf, bound))
  {
  }

  /** With the parent links free of cycles, every link a walk can make goes down the stacked ranking. */
  lemma StackLinks(tasks: map<string, Task>, inner: map<Task, nat>, treeOf: map<Task, string>, bound: nat)
    requires Acyclic(tasks) && inner.Keys == treeOf.Keys
    requires forall o :: o in inner ==> treeOf[o] in tasks && inner[o] < bound
    requires forall k :: k in tasks ==> tasks[k] in inner && treeOf[tasks[k]] == k
    ensures LinksRanked(tasks, Stack(tasks, inner, treeOf, bound))
  {
    var rank := Stack(tasks, inner, treeOf, bound);
    forall k | Linked(tasks, k)
      ensures rank[tasks[k]] < rank[ParentOf(tasks, k)]
    {
      var p := ParentKey(tasks[k]).value;
      LevelDrops(tasks, k);
      StrideBelow(Level(tasks, k), Level(tasks, p), bound);
    }
  }

  /** Registered tasks that are the roots of their own trees are distinct objects. */
  lemma RootsInjective(tasks: map<string, Task>, treeOf: map<Task, string>)
    requires forall k :: k in tasks ==> tasks[k] in treeOf && treeOf[tasks[k]] == k
    ensures Injective(tasks)
  {
  }

  // ---------------------------------------------------------------------------------------------
  // The walks over the objects

  /**
   * Puts `list`, whose entries all rank below the task under `p`, in place of that task's subtask
   * list; no other registered task's list changes.
   */
  method SetSubtasks(tasks: map<string, Task>, p: string, list: seq<Task>, ghost rank: map<Task, nat>)
    requires p in tasks && Injective(tasks)
    requires Ranked(rank) && tasks[p] in rank
    requires forall i :: 0 <= i < |list| ==> list[i] in rank && rank[list[i]] < rank[tasks[p]]
    modifies tasks[p]
    ensures forall k :: k in tasks ==> tasks[k].Fields() == old(tasks[k].Fields())
    ensures ListsOf(tasks) == old(ListsOf(tasks))[p := list]
    ensures Ranked(rank)
  {
    ghost var before := ListsOf(tasks);
    tasks[p].subtasks := list;
    forall k | k in tasks
      ensures ListsOf(tasks)[k] == before[p := list][k]
    {
      if k != p {
        assert tasks[k] != tasks[p];
      }
    }
  }

  /** Placing a linked child in its parent's list keeps every entry of the list below the parent. */
  lemma PlaceRanked(r: Rule, tasks: map<string, Task>, k: string, rank: map<Task, nat>)
    requires Linked(tasks, k) && Ranked(rank) && LinksRanked(tasks, rank)
    ensures var parent := ParentOf(tasks, k); var l := Place(r, parent.subtasks, tasks[k]);
      forall i :: 0 <= i < |l| ==> l[i] in rank && rank[l[i]] < rank[parent]
  {
    var parent := ParentOf(tasks, k);
    var l := Place(r, parent.subtasks, tasks[k]);
    forall i | 0 <= i < |l|
      ensures l[i] in rank && rank[l[i]] < rank[parent]
    {
      assert l[i] in l;
      if l[i] != tasks[k] {
        var j :| 0 <= j < |parent.subtasks| && parent.subtasks[j] == l[i];
      }
    }
  }

  /**
   * The body of the walk for the task under `k`, when its parent is registered: `ById` appends it
   * unless an entry with its id is there (`!parent.subtasks.some(st => st.id === task.id)`),
   * `ByIdentity` appends it unless the object is there (`task not in parent.subtasks`), `Relink`
   * puts it in place of the first entry with its id (`findIndex`), or appends it when none has.
   */
  method RebuildStep(r: Rule, k: string, tasks: map<string, Task>, ghost rank: map<Task, nat>)
    requires k in tasks && Injective(tasks)
    requires Ranked(rank) && LinksRanked(tasks, rank)
    modifies tasks.Values
    ensures Ranked(rank)
    ensures forall k :: k in tasks ==> tasks[k].Fields() == old(tasks[k].Fields())
    ensures ListsOf(tasks) == Step(r, tasks, k, old(ListsOf(tasks)))
  {
    var task := tasks[k];
    if task.parentId.Some? && task.parentId.value != "" && task.parentId.value in tasks {
      var p := task.parentId.value;
      var parent := tasks[p];
      assert Linked(tasks, k) && ParentKey(task) == Some(p);
      ghost var lists := ListsOf(tasks);
      assert Step(r, tasks, k, lists) == lists[p := Place(r, lists[p], task)];
      PlaceRanked(r, tasks, k, rank);
      SetSubtasks(tasks, p, Place(r, parent.subtasks, task), rank);
    } else {
      assert !Linked(tasks, k);
    }
  }

  /**
   * The walk over the registered tasks in the order of `keys` that re-links children to their
   * parents after a load, under rule `r`: `rebuildTaskRelationships()` of the Electron manager
   * as written (`ById`), `_rebuild_task_relationships()` of the Python manager (`ByIdentity`), and
   * the corrected Electron walk (`Relink`). The lists end as `Walk` of the lists they started as;
   * nothing else changes, and the ranking that makes the subtask graph acyclic is kept.
   */
  method Rebuild(r: Rule, keys: seq<string>, tasks: map<string, Task>, ghost rank: map<Task, nat>)
    requires Covers(keys, tasks) && Injective(tasks)
    requires Ranked(rank) && LinksRanked(tasks, rank)
    modifies tasks.Values
    ensures Ranked(rank)
    ensures forall k :: k in tasks ==> tasks[k].Fields() == old(tasks[k].Fields())
    ensures ListsOf(tasks) == Walk(r, keys, tasks, old(ListsOf(tasks)))
  {
    ghost var final := Walk(r, keys, tasks, ListsOf(tasks));
    for i := 0 to |keys|
      invariant Ranked(rank)
      invariant forall k :: k in tasks ==> tasks[k].Fields() == old(tasks[k].Fields())
      invariant Walk(r, keys[i..], tasks, ListsOf(tasks)) == final
    {
      assert keys[i..][1..] == keys[i + 1..];
      RebuildStep(r, keys[i], tasks, rank);
    }
  }
}
