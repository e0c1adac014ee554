# Tracker task model in Dafny

This project models the in-memory core of Tracker, a time-boxed task tracker. Tracker exists twice: as an Electron app (`electron-tracker/src/shared/`) and as a GTK app (`src/traker/`). Both share one task model, which is what this project models:

- **Tasks** follow a state machine: pending, then in progress, then paused or completed.
- Tasks get **scaffolding subtasks**:
  - a "Subdivide: …" subtask when the task is created;
  - a "Context Recovery" subtask in front of the list when the task is resumed.
- Each task keeps a **time-block log**, from which a break is suggested after 50 minutes of work.
- A **task manager** keeps a flat map from id to task object, plus a reference to the running task.
  - A subtask added through the manager is the same object in its parent's list and in the map.
  - Reloading a saved file re-links parents to their registered children in the Python manager. The Electron manager as written keeps stale nested copies instead (see Findings).

The Electron app also has **projects** and **workspaces**. These are small records with progress rounding, a task-id list, colour lookups and JSON round-trips with defaults.

## Modules

- `TaskEntity` (task.dfy): the `Task` class, whose methods update its fields in place.
  - Each method is specified by a pure function on `TaskFields`, the record of every field but the subtask list.
  - `Run` replays any sequence of calls; the lemmas about the state machine are stated over `Run`.
  - The subtask graph is kept acyclic by a ghost ranking (`Ranked`). The recursive walks over it (total estimate, `toJSON`) terminate on that ranking.
- `TaskSerialization` (task_json.dfy): the Electron record of a task (`toJSON` / `fromJSON`), with subtask records nested recursively.
- `PyRecords` (py_records.dfy): the flat Python record (`_task_to_dict` / `_dict_to_task`).
- `TaskLinks` (task_links.dfy): the walk that re-links children to parents after a load. It comes under three rules:
  - `ById`, the Electron check as written;
  - `ByIdentity`, the Python check;
  - `Relink`, the corrected Electron walk.
- `TaskManagement` (task_manager.dfy): the `TaskManager` class. Its fields are:
  - `keys`, the map's insertion order;
  - `tasks`, the map;
  - `currentTask`;
  - a ghost ranking.

  It also holds the load and save transforms of both apps.
- `StaleCopy` (findings.dfy): the finding below, with its corrected counterpart.
- `Projects` (project.dfy) and `Workspaces` (workspace.dfy): the project and workspace records.
- `Timestamps` and `Wrappers`:
  - a clock value is a whole number of milliseconds;
  - its text is an injective decimal encoding, standing in for ISO-8601;
  - `Option` is the usual optional type.

Generated ids and the current time are parameters: `newId`, `scaffoldId`, `contextId`, `now`.

## Model

| member | source | states |
|---|---|---|
| Timestamps.ParseFormat | electron-tracker/src/shared/Task.js:185-187 | A written timestamp reads back as the same instant. |
| Timestamps.FormatInjective | electron-tracker/src/shared/Task.js:164-166 | Two different instants are never written as the same text. |
| TaskEntity.NewTaskDefaults | src/traker/task.py:18-32 | A new task has these properties: <ul><li>it is pending;</li><li>its estimate is 30;</li><li>it is a main task iff it has no parent id, and a subtask otherwise;</li><li>it has no start or completion time, no time blocks, and is not resumed.</li></ul> |
| TaskEntity.Task.constructor | electron-tracker/src/shared/Task.js:19-35 | The new object has the fields of `NewTask` and an empty subtask list. |
| TaskEntity.Task.Restore | electron-tracker/src/shared/Task.js:180-189 | A task rebuilt from stored fields has exactly those fields and no subtasks. |
| TaskEntity.StartGuard | electron-tracker/src/shared/Task.js:37-42 | `start` changes a task iff the task is pending. Then the task runs and its start time is `now`. |
| TaskEntity.PauseGuard | electron-tracker/src/shared/Task.js:44-48 | `pause` changes a task iff the task is running. Then it is paused. |
| TaskEntity.ResumeGuard | electron-tracker/src/shared/Task.js:50-55 | `resume` changes a task iff the task is paused. Then it runs and is marked resumed. |
| TaskEntity.CompleteFromAnyStatus | electron-tracker/src/shared/Task.js:57-63 | From any status, `complete` makes the task completed at `now`. <ul><li>With a start time, the actual duration becomes the elapsed minutes.</li><li>Without one, the actual duration is unchanged.</li></ul> |
| TaskEntity.TimeBlockAppended | src/traker/task.py:54-60 | Logging appends exactly one block with the given duration and break flag. Earlier blocks and every other field are unchanged. |
| TaskEntity.Task.Start | electron-tracker/src/shared/Task.js:37-42 | The new fields are `AfterStart` of the old ones. The subtask list is kept. |
| TaskEntity.Task.Pause | electron-tracker/src/shared/Task.js:44-48 | The new fields are `AfterPause` of the old ones. The subtask list is kept. |
| TaskEntity.Task.Resume | electron-tracker/src/shared/Task.js:50-55 | The new fields are `AfterResume` of the old ones. The subtask list is kept. |
| TaskEntity.Task.Complete | electron-tracker/src/shared/Task.js:57-63 | The new fields are `AfterComplete` of the old ones. The subtask list is kept. |
| TaskEntity.Task.AddTimeBlock | electron-tracker/src/shared/Task.js:65-72 | The new fields are `AfterTimeBlock` of the old ones. The subtask list is kept. |
| TaskEntity.ApplyFollowsLegalEdge | electron-tracker/src/shared/Task.js:37-63 | Every call moves the status along an edge of the diagram: <ul><li>pending to running;</li><li>running to paused, and paused to running;</li><li>anything to completed;</li><li>or no change.</li></ul> |
| TaskEntity.CompletedIsTerminal | electron-tracker/src/shared/Task.js:37-63 | No sequence of calls takes a completed task out of completed. |
| TaskEntity.NeverPendingAgain | electron-tracker/src/shared/Task.js:37-63 | A task that has left pending never returns to it. |
| TaskEntity.RunKeepsIdentity | electron-tracker/src/shared/Task.js:37-72 | No sequence of calls changes a task's id, title, description, parent, type, creation time or estimate. |
| TaskEntity.RunExtendsLog | electron-tracker/src/shared/Task.js:65-72 | The time-block log only grows: earlier blocks stay, in order. |
| TaskEntity.SubdivisionTaskShape | electron-tracker/src/shared/Task.js:74-86 | The subdivide subtask: <ul><li>is titled "Subdivide: " + the parent's title;</li><li>has estimate 25 and type subtask;</li><li>has the parent's id as its parent;</li><li>is pending.</li></ul> |
| TaskEntity.Task.Subdivide | electron-tracker/src/shared/Task.js:74-86 | On an empty list it adds exactly one fresh subdivide subtask. On a non-empty list it changes nothing, so a second call is idempotent. It returns the list. |
| TaskEntity.ContextTaskShape | electron-tracker/src/shared/Task.js:88-99 | The context subtask is titled "Context Recovery", with estimate 25, type context, the parent's id as its parent, and pending. |
| TaskEntity.Task.AddContextTask | src/traker/task.py:75-84 | It inserts a fresh context subtask in front iff the task is resumed and has no context subtask; otherwise nothing changes. A resumed task then has exactly one context subtask if it had none, so two calls never make two. |
| TaskEntity.ExplicitSubtaskEstimate | src/traker/task.py:86-91 | The estimate is at most 50, and equals the duration whenever the duration is at most 50. That includes a negative duration: there is no lower bound. |
| TaskEntity.Task.CreateSubtask | electron-tracker/src/shared/Task.js:101-107 | It appends exactly one fresh subtask with this task's id as its parent. Earlier subtasks are unchanged. |
| TaskEntity.Task.ProgressPercentage | electron-tracker/src/shared/Task.js:117-124 | The result is in [0, 100]. <ul><li>A leaf scores 100 iff it is completed, and 0 otherwise.</li><li>A task with subtasks scores 100 iff all subtasks are completed, and 0 iff none is.</li></ul> |
| TaskEntity.CountCompletedExtremes | electron-tracker/src/shared/Task.js:122 | The completed count equals the list length iff every subtask is completed, and is 0 iff none is. |
| TaskEntity.HasContextCount | electron-tracker/src/shared/Task.js:89 | A list has a context subtask iff its count of context subtasks is positive. |
| TaskEntity.Task.ShouldTakeBreak | electron-tracker/src/shared/Task.js:126-152 | The early exits, then the two loops (`LastBreakIndex`, `WorkFrom`), return exactly `BreakDue`: the work since the last break is at least 50. |
| TaskEntity.LastBreakIndex | electron-tracker/src/shared/Task.js:136-142 | The backward scan returns the index of the last break, or -1 when the log has none: no block after it is a break. |
| TaskEntity.WorkFrom | electron-tracker/src/shared/Task.js:144-149 | The summing loop returns the work total of the blocks from the start index on, breaks ignored. |
| TaskEntity.NoWorkNoBreak | electron-tracker/src/shared/Task.js:127-134 | A log without work blocks has no work since the last break, so the early exits agree with `BreakDue`. |
| TaskEntity.WorkAfterLastBreak | electron-tracker/src/shared/Task.js:136-149 | The work since the last break is the work total of the blocks after the last break index, or of all blocks when there is no break. |
| TaskEntity.BreakResetsWork | src/traker/task.py:114-125 | Everything before the last break is irrelevant to the count. |
| TaskEntity.LoggingUpdatesWork | electron-tracker/src/shared/Task.js:144-151 | Logging a work block adds its duration to the count. Logging a break resets the count to 0. |
| TaskEntity.BreakExamples | src/traker/task.py:106-125 | An empty log gives false. Work 30 + 25 gives true. Work 30, a break, then work 15 gives false. |
| TaskEntity.Task.GetTotalEstimatedTime | electron-tracker/src/shared/Task.js:109-115 | The accumulator loop, with one recursive call per subtask, returns the task's estimate plus the totals of its subtasks, recursively. |
| TaskEntity.TotalRankIrrelevant | src/traker/task.py:93-97 | The recursive total is the same under any ranking that proves the walk terminates. |
| TaskSerialization.NamesRoundTrip | electron-tracker/src/shared/Task.js:162-184 | Status and type names read back as the status and type that were written. |
| TaskSerialization.StampRoundTrip | electron-tracker/src/shared/Task.js:165-187 | An optional timestamp (written as text, or as null) reads back as it was. |
| TaskSerialization.BlocksRoundTrip | electron-tracker/src/shared/Task.js:169-193 | Written time blocks are readable and read back as the same blocks. |
| TaskSerialization.FieldsRoundTrip | electron-tracker/src/shared/Task.js:155-197 | Reading a written record gives back every field of the task: id, title, description, parent, workspace, status, type, timestamps, durations, blocks and resumed flag. |
| TaskSerialization.MissingEntriesDefault | electron-tracker/src/shared/Task.js:190-195 | A record without time blocks or resumed flag reads as no blocks and not resumed. |
| TaskSerialization.ToJsonCanonical | electron-tracker/src/shared/Task.js:155-176 | Whatever `toJSON` writes, nested records included, is readable, and reading it and writing it again gives the same record. |
| TaskSerialization.FromJson | electron-tracker/src/shared/Task.js:179-197 | It builds fresh, acyclically ranked objects, and the root has the record's fields. Writing the result gives the record back with the defaults filled in, recursively. So `fromJSON(toJSON(t))` reproduces `t` and its subtasks. |
| TaskSerialization.SubtasksFromJson | electron-tracker/src/shared/Task.js:194 | It builds one fresh object per nested record, in order. Together they write the nested records back with the defaults filled in. |
| TaskSerialization.WrittenParts | electron-tracker/src/shared/Task.js:179-197 | A task that writes a record has that record's fields, and one subtask per nested record with that record's fields. |
| TaskLinks.ParentKey | electron-tracker/src/shared/TaskManager.js:175 | A task is walked iff its parent id is present and not empty. The walk then uses that parent id. |
| TaskLinks.Place | electron-tracker/src/shared/TaskManager.js:176-179 | One step of the walk adds nothing to a parent's list but the child. |
| TaskLinks.WalkGrowsFromStart | electron-tracker/src/shared/TaskManager.js:172-182 | The walk keeps every earlier entry of each list in place. Every entry it adds is a registered child of that list's owner and new to the list. |
| TaskLinks.PlaceHolds | electron-tracker/src/shared/TaskManager.js:177-178 | After a step for a child, the child is in its parent's list, as the rule sees it. |
| TaskLinks.WalkLinks | electron-tracker/src/shared/TaskManager.js:172-182 | After the walk, every registered task whose parent is registered is in the parent's list, as the rule sees it. |
| TaskLinks.PlaceDistinct | electron-tracker/src/shared/TaskManager.js:176-179 | Under the Electron id check, as written or corrected, one step never adds a second entry with an id the list holds. |
| TaskLinks.WalkKeepsIdsDistinct | electron-tracker/src/shared/TaskManager.js:172-182 | Under the Electron rules, lists without repeated ids stay without repeated ids through the whole walk, even when several registered tasks share an id. |
| TaskLinks.WalkIdempotent | electron-tracker/src/shared/TaskManager.js:172-182 | Running the walk a second time changes nothing. |
| TaskLinks.RebuildStep | electron-tracker/src/shared/TaskManager.js:174-180 | One turn of the loop changes the lists as `Step` does and changes no other field. |
| TaskLinks.Rebuild | electron-tracker/src/shared/TaskManager.js:172-182 | The loop over the keys leaves the lists as `Walk` makes them and changes no other field. The subtask graph stays acyclic. |
| TaskLinks.ChildrenAre | src/traker/task_manager.py:166-171 | `Children(keys, tasks, p)` holds exactly the registered tasks whose parent key is `p`. |
| TaskLinks.ChildrenDistinct | src/traker/task_manager.py:170 | With one object per key, no child is listed twice. |
| TaskLinks.WalkCollects | src/traker/task_manager.py:166-171 | Suppose no list starts out holding a registered task. Then the walk by identity appends to each list exactly its registered children, in insertion order. |
| TaskManagement.Without | electron-tracker/src/shared/TaskManager.js:94-97 | After a deletion, the key order holds exactly the keys not deleted. |
| TaskManagement.DeleteKeys | electron-tracker/src/shared/TaskManager.js:90-105 | Deleting keys from the map keeps the key order a listing of the map's keys, each once. |
| TaskManagement.Filter | electron-tracker/src/shared/TaskManager.js:130-137 | A filter returns exactly the selected tasks of the list, and no others. |
| TaskManagement.StatusesPartition | electron-tracker/src/shared/TaskManager.js:185-197 | The pending, active and completed filters split any list: their sizes add up to its length. |
| TaskManagement.ActiveCompletedDisjoint | src/traker/task_manager.py:104-109 | No task is both active and completed. |
| TaskManagement.ResumeSteps | electron-tracker/src/shared/TaskManager.js:52-65 | It pauses the other running task, which keeps its list, and resumes the task. A task without a context subtask gets a fresh context leaf in front of its old list; one with a context subtask keeps its list. |
| TaskManagement.WrittenReadsBack | electron-tracker/src/shared/TaskManager.js:143-144 | A task's written record reads back as its fields and its list's fields, and is canonical. |
| TaskManagement.ReadOne | electron-tracker/src/shared/TaskManager.js:160-163 | One record is read into a fresh tree of objects under the record's key. The records read so far are kept. |
| TaskManagement.ReadTasks | electron-tracker/src/shared/TaskManager.js:159-163 | Every record is read in document order under its key. Each task has its record's fields and nested records. |
| TaskManagement.LinkLoaded | electron-tracker/src/shared/TaskManager.js:165 | When the parent links have no cycle, the lists become the walk of the nested lists; otherwise they stay the nested lists. No other field changes. |
| TaskManagement.ReadDocument | electron-tracker/src/shared/TaskManager.js:159-165 | It reads the document and then walks it. The result satisfies `Loaded` and `LinkedFrom`. |
| TaskManagement.LoadedIdsDistinct | electron-tracker/src/shared/TaskManager.js:152-182 | After an Electron load, as written or corrected, no task's subtask list holds two entries with one id, provided each record's nested records had distinct ids. |
| TaskManagement.ReadRecord | src/traker/task_manager.py:128-130 | One Python record is read into a fresh task without subtasks, under its key. |
| TaskManagement.ReadLeading | src/traker/task_manager.py:128-130 | The records are read in order until the first one `_dict_to_task` refuses. |
| TaskManagement.ReadRecords | src/traker/task_manager.py:122-134 | These are the keys and tasks `load_tasks` leaves. If every record was read, the lists are the identity walk from empty lists; otherwise they are empty. |
| TaskManagement.PyChildren | src/traker/task_manager.py:166-171 | After a complete Python load, each list holds exactly its registered children, in insertion order, each once. |
| TaskManagement.TaskManager.constructor | electron-tracker/src/shared/TaskManager.js:7-11 | A new manager has no tasks and no current task. |
| TaskManagement.TaskManager.Open | src/traker/task_manager.py:9-13 | The Python constructor is an empty manager followed by `load_tasks`. Without a file it stays empty; with one it is as `PyLoaded` describes. |
| TaskManagement.TaskManager.GetTask | electron-tracker/src/shared/TaskManager.js:25-27 | It returns the registered task, or null iff the id is unknown. |
| TaskManagement.TaskManager.GetAllTasks | electron-tracker/src/shared/TaskManager.js:29-31 | It returns exactly the registered tasks without a parent. |
| TaskManagement.TaskManager.GetSubtasks | electron-tracker/src/shared/TaskManager.js:33-36 | It returns the parent's own list, or empty for an unknown parent. |
| TaskManagement.TaskManager.Query | electron-tracker/src/shared/TaskManager.js:126-138 | Each query returns exactly the registered tasks it selects. |
| TaskManagement.TaskManager.GetStatistics | electron-tracker/src/shared/TaskManager.js:185-198 | The total counts the main tasks, and the pending, active and completed counts add up to that total. |
| TaskManagement.TaskManager.CreateTask | electron-tracker/src/shared/TaskManager.js:17-23 | It registers exactly one new main task under its id. The task's one subdivide subtask is in its list but not in the map. The current task is kept. |
| TaskManagement.TaskManager.StartTask | electron-tracker/src/shared/TaskManager.js:38-50 | It succeeds iff the task is registered and pending. On success the previous current task is paused, the task is started, and it becomes current. On failure nothing changes. |
| TaskManagement.TaskManager.ResumeTask | electron-tracker/src/shared/TaskManager.js:52-65 | It succeeds iff the task is registered and paused. On failure nothing changes. On success: <ul><li>a different running task is paused and keeps its subtask list;</li><li>the task runs, is marked resumed and is current;</li><li>if it had no context subtask, a fresh context leaf (`ContextTask` of its fields) stands in front of its old list;</li><li>otherwise its list is unchanged.</li></ul> |
| TaskManagement.TaskManager.PauseCurrentTask | electron-tracker/src/shared/TaskManager.js:67-75 | It fails iff nothing is current. Otherwise it pauses the current task, whose subtask list is unchanged, and clears it. |
| TaskManagement.TaskManager.CompleteTask | electron-tracker/src/shared/TaskManager.js:77-88 | It fails iff the id is unknown. Otherwise it completes the task, keeps its subtask list, and clears the current task only if it was this one. |
| TaskManagement.TaskManager.DeleteTask | electron-tracker/src/shared/TaskManager.js:90-105 | It fails iff the id is unknown. Otherwise it removes exactly the key and the ids of the task's direct subtasks: grandchildren stay. It clears the current task iff its id matches. |
| TaskManagement.TaskManager.AddSubtask | electron-tracker/src/shared/TaskManager.js:107-116 | For an unknown parent it returns null and the map is unchanged. Otherwise one fresh subtask is registered under its id and appended to the parent's list: the same object in both places. |
| TaskManagement.TaskManager.LoadTasks | electron-tracker/src/shared/TaskManager.js:152-170 | If the file is missing or unreadable, nothing changes. Otherwise the map is refilled in document order with each record's fields and fresh nested copies, and the lists are walked. The current task is kept. |
| TaskManagement.TaskManager.LoadRecords | src/traker/task_manager.py:122-134 | On an empty manager it leaves exactly what `PyLoaded` describes; without a file it stays empty. |
| TaskManagement.TaskManager.SaveTasks | electron-tracker/src/shared/TaskManager.js:140-150 | It writes one canonical record per registered task, in insertion order. Each record reads back as the task's fields and its list's fields. |
| TaskManagement.TaskManager.SaveRecords | src/traker/task_manager.py:111-120 | It writes one record per registered task, in insertion order. A later load reads all of them, each with the task's fields, except that the type is derived again and the workspace is dropped. |
| TaskManagement.TaskManager.LogTimeBlock | electron-tracker/src/shared/TaskManager.js:118-124 | It appends a block to a registered task and keeps its subtask list. For an unknown id nothing changes. |
| PyRecords.DictRoundTrip | src/traker/task_manager.py:136-164 | A written record reads back as the task, with the type derived from the parent id and no workspace. |
| PyRecords.DictRoundTripExact | src/traker/task_manager.py:153-164 | The round trip is exact iff the type is the derived one and there is no workspace. A context task with a parent comes back as a subtask. |
| PyRecords.DictNeedsRequired | src/traker/task_manager.py:153-163 | A record that reads has its required keys. It reads as a main task iff it has no parent id. Missing blocks and flag take their defaults. |
| PyRecords.ReadCount | src/traker/task_manager.py:128-130 | The records before the count all read, and the record at the count does not. |
| StaleCopy.StaleCopyKept | electron-tracker/src/shared/TaskManager.js:177 | As written: when a record nests a record with a registered task's id, that registered object never gets into the first task's list. |
| StaleCopy.CopyBlocks | electron-tracker/src/shared/TaskManager.js:177 | A list that holds a same-id copy keeps the registered object out, through the whole walk. |
| StaleCopy.RelinkedAfterLoad | electron-tracker/src/shared/TaskManager.js:172-182 | Corrected: with acyclic parent links and distinct ids, every registered task with a registered parent is the very object in that parent's list. |
| StaleCopy.RelinkedLists | electron-tracker/src/shared/TaskManager.js:172-182 | The corrected walk puts each linked task into its parent's list. |
| Projects.Project.constructor | electron-tracker/src/shared/Project.js:11-24 | A new project: <ul><li>is active;</li><li>has created = updated = now;</li><li>has colour `#81a1c1`, no tasks and priority medium;</li><li>has no deadline and progress 0.</li></ul> |
| Projects.ProgressBounds | electron-tracker/src/shared/Project.js:27-34 | For 0 ≤ c ≤ t the progress is in [0, 100]. It is 0 when nothing is done and 100 when everything is done. |
| Projects.Project.UpdateProgress | electron-tracker/src/shared/Project.js:27-34 | Progress becomes `Progress(c, t)` and the project is touched. No other field changes. |
| Projects.AddedOnce | electron-tracker/src/shared/Project.js:73-78 | After `addTask` the id occurs exactly once and other ids keep their counts, so a list without repeats stays without repeats. |
| Projects.AddedIdempotent | electron-tracker/src/shared/Project.js:73-78 | Adding the same id twice is adding it once. |
| Projects.Project.AddTask | electron-tracker/src/shared/Project.js:73-78 | The list becomes `Added`. The project is touched iff the id was new. |
| Projects.IndexOf | electron-tracker/src/shared/Project.js:82 | It returns the first index holding the id, or -1 iff the id is absent. |
| Projects.RemovedOne | electron-tracker/src/shared/Project.js:81-87 | `removeTask` removes exactly one occurrence of the id. An absent id leaves the list as it is. In a list without repeats the id is gone afterwards. |
| Projects.RemoveAfterAdd | electron-tracker/src/shared/Project.js:73-87 | Adding an absent id and then removing it restores the list. |
| Projects.Project.RemoveTask | electron-tracker/src/shared/Project.js:81-87 | The list becomes `Removed`. The project is touched iff the id was present. |
| Projects.StatusColor | electron-tracker/src/shared/Project.js:37-50 | The colour is `#81a1c1` iff the status is none of the four known ones. |
| Projects.PriorityColor | electron-tracker/src/shared/Project.js:53-64 | The colour is `#81a1c1` iff the priority is none of high, medium, low. |
| Projects.OverdueStays | electron-tracker/src/shared/Project.js:67-70 | An overdue project has a deadline and is not completed, and it stays overdue at any later time. |
| Projects.ProjectRoundTrip | electron-tracker/src/shared/Project.js:90-120 | Reading a written project gives back every field, except that an empty colour or priority takes its default. The round trip is exact iff neither is empty. |
| Projects.ProjectDefaults | electron-tracker/src/shared/Project.js:108-120 | A record without colour, tasks, priority or progress reads with colour `#81a1c1`, no tasks, priority medium and progress 0. |
| Workspaces.NewWorkspace | electron-tracker/src/shared/Workspace.js:4-10 | A new workspace is not the default one. Its colour is `#81a1c1` unless one is given. |
| Workspaces.WorkspaceRoundTrip | electron-tracker/src/shared/Workspace.js:12-28 | Reading a written workspace gives back its id, name, colour, creation time and default flag. |
| Workspaces.WorkspaceRecordRoundTrip | electron-tracker/src/shared/Workspace.js:12-28 | A record holding all five fields is written back exactly as it was read. |
| Workspaces.WorkspaceDefaults | electron-tracker/src/shared/Workspace.js:13-16 | A missing colour reads as `#81a1c1`. A record reads as the default workspace iff its flag says so. |

## Left out

**Environment**
- File I/O, the JSON text, `fs`/`open`, async writes and the swallowed exceptions are not modelled. Loading starts from a parsed document, given as `None` when the file is missing or does not parse, and saving ends with the document to write.
- `saveTasks` / `save_tasks` are not called after each operation. The manager operations model the in-memory effect only.
- uuid generation and the clock are parameters.
- Time is whole milliseconds. ISO-8601 text is replaced by an injective decimal encoding with a proved round trip.
- Actual durations and task progress are `real`, not floating point. Project progress rounds an exact real (`Math.round` as floor(x + 0.5)).
- Renderer, Electron main process and GTK UI files are not part of this model. That includes the workspace and project manager operations that main.js calls, whose bodies are not in the shared TaskManager.js.

**Loading and records**
- TaskManagement.TaskManager.LoadTasks: a document with a record whose status, type or timestamp cannot be read (or whose time-block timestamps cannot be) changes nothing.
  - The source instead keeps the raw value (an unknown status string, an invalid `Date`).
  - This is modelled as "not loaded", because the model's statuses are a closed type.
- TaskManagement.TaskManager.LoadTasks: when the parent ids of the loaded tasks form a cycle, the model does not run the walk. The source would run it.
  - Such a document cannot come from `saveTasks`: parent ids are fixed at creation.
  - A cyclic subtask graph would make the recursive `toJSON` diverge.
- TaskManagement.TaskManager.LoadRecords: it is modelled only on an empty manager, which is how the Python constructor calls `load_tasks`.
  - The JavaScript `loadTasks` clears the map first.
  - The Python one only adds to it.
- TaskManagement.TaskManager.LoadRecords: a cycle in the parent ids of the records skips the walk, as for LoadTasks.
- PyRecords.DictToTask: a key present with a `null` value is read as a missing one.
  - For `time_blocks` and `is_resumed` the source then stores `None`, where the model takes the default.
  - For `description`, `estimated_duration` and `actual_duration` the source loads `None`, where the model stops the load.
  - `_task_to_dict` never writes `null` under these keys, so only a hand-edited file shows the difference.
- PyRecords.DictToTask: the model carries time blocks as values. The Python file writes their `datetime` timestamps through `default=str` and reads them back as strings.
- TaskSerialization.FieldsFromJson: a record whose `id`, `title`, `description`, `status`, `taskType`, `createdAt`, `estimatedDuration` or `actualDuration` is missing is not modelled. `TaskJson` holds these as always present, since `toJSON` always writes them. A time block's `duration`, `isBreak` and `timestamp` are held the same way. In the source a missing entry gives:
  - `description`: `''`, the constructor's default, which replaces `undefined`;
  - `id`, `title`, `status`, `taskType`, `estimatedDuration`, `actualDuration`: `undefined`, kept as it is;
  - `createdAt`, or a block's `timestamp`: an invalid `Date`;
  - `workspaceId`: `undefined`, where the model reads `null`. A missing `parentId` reads as `null`, as in the model.
- Projects.ProjectFromJson: an unreadable `createdAt` or `updatedAt` gives `None`. The source keeps an invalid `Date`.
  - A `null` description (rather than a missing one) is read as empty, whereas the source keeps `null`.
- Workspaces.WorkspaceFromJson: a `null` colour is read as a missing one and takes the default. The source passes `null` through, because a default parameter replaces only `undefined`.

**Not checked**
- The default arguments are not modelled as defaults: `description = ''`, `duration = 50` and `isBreak = false` of `createTask`, `addSubtask`, `createSubtask`, `addTimeBlock` and `logTimeBlock` (and their Python counterparts). Every model operation takes them explicitly, so a call that omits them is the call with those values.
- `toString` / `__repr__` of Task and Project are left out: they are display text only.
- Projects.IsOverdue has no contract beyond its definition, as `isOverdue` is itself that definition. Its partner is `OverdueStays`.

**Deliberate modelling choices**
- `getAllTasks` and `getStatistics` select by `parentId` only, not by project or workspace.
- Tasks carry no project id.
- Project status and priority are free strings, not closed types.
- A reload as written does not rebuild the tree exactly (see Findings).

## Findings

| source | as written | input that shows it | evidently intended | confidence | as-written member | corrected member |
|---|---|---|---|---|---|---|
| electron-tracker/src/shared/TaskManager.js:177 | The rebuild appends a registered task only when no entry of its parent's list has the same id. | A parent with a subtask added by `addSubtask`, saved and loaded again. The parent's record nests a copy of the subtask, and the subtask is also stored under its own key. The loaded parent keeps the copy, and the registered subtask never enters the list, so completing it does not change the parent's progress. | After a load, a parent's list holds the registered objects of its children: the registered object takes the place of the copy. | not executed | StaleCopy.StaleCopyKept | StaleCopy.RelinkedAfterLoad |
