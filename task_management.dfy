/** The task-management hook (lib/hooks/use-task-management.ts): a local copy of the
    project's tasks kept in step with refetched snapshots and realtime change events,
    the selected task and its modal, the filtered-list comparator and the drag-end
    handler that reorders a column or moves a task to another column. */
module TaskManagement {
  import opened Wrappers
  import opened Strings
  import opened Sequences
  import opened TaskTypes
  import opened OrderKeys
  import opened KanbanColumn

  // ---------------------------------------------------------------------------
  // The id-keyed map the snapshot merge builds (a JS Map: insertion-ordered keys)

  datatype TaskMap = TaskMap(keys: seq<string>, entries: map<string, Task>)

  /** Keys listed once each, exactly the map's keys, and every entry stored under its own id. */
  predicate ValidMap(m: TaskMap) {
    (forall i, j :: 0 <= i < j < |m.keys| ==> m.keys[i] != m.keys[j])
    && (forall k :: k in m.entries ==> k in m.keys)
    && (forall i :: 0 <= i < |m.keys| ==> m.keys[i] in m.entries)
    && (forall k :: k in m.entries ==> m.entries[k].id == k)
  }

  /** `map.set(t.id, t)`: a new key goes to the end, an existing key keeps its place. */
  function MapSet(m: TaskMap, t: Task): (r: TaskMap)
    requires ValidMap(m)
    ensures ValidMap(r)
    ensures r.entries == m.entries[t.id := t]
    ensures forall k :: k in m.keys ==> k in r.keys
  {
    if t.id in m.entries then TaskMap(m.keys, m.entries[t.id := t])
    else TaskMap(m.keys + [t.id], m.entries[t.id := t])
  }

  /** `new Map(tasks.map(t => [t.id, t]))`: a later task with a repeated id wins. */
  function FromList(tasks: seq<Task>): (r: TaskMap)
    ensures ValidMap(r)
    ensures forall t :: t in tasks ==> t.id in r.entries
    decreases |tasks|
  {
    if tasks == [] then TaskMap([], map[])
    else MapSet(FromList(tasks[..|tasks| - 1]), tasks[|tasks| - 1])
  }

  /** One step of the merge loop: take the incoming task when its id is absent
      or the held task's `updated_at` is strictly earlier. */
  function MergeStep(m: TaskMap, t: Task): (r: TaskMap)
    requires ValidMap(m)
    ensures ValidMap(r)
  {
    if t.id !in m.entries || LexLess(m.entries[t.id].updatedAt, t.updatedAt) then MapSet(m, t)
    else m
  }

  /** The merge loop over the incoming snapshot, in its order. */
  function MergeAll(m: TaskMap, incoming: seq<Task>): (r: TaskMap)
    requires ValidMap(m)
    ensures ValidMap(r)
    decreases |incoming|
  {
    if incoming == [] then m
    else MergeStep(MergeAll(m, incoming[..|incoming| - 1]), incoming[|incoming| - 1])
  }

  /** `Array.from(map.values())`: the entries in key order. */
  function Values(m: TaskMap): (r: seq<Task>)
    requires ValidMap(m)
    ensures |r| == |m.keys| && forall i :: 0 <= i < |r| ==> r[i] == m.entries[m.keys[i]]
  {
    seq(|m.keys|, i requires 0 <= i < |m.keys| => m.entries[m.keys[i]])
  }

  /** The task list after merging a refetched snapshot into the held list. */
  function MergedTasks(held: seq<Task>, incoming: seq<Task>): seq<Task> {
    SortByOrder(Values(MergeAll(FromList(held), incoming)))
  }

  lemma {:induction false} MergeAllKeepsKeys(m: TaskMap, incoming: seq<Task>)
    requires ValidMap(m)
    ensures forall k :: k in m.entries ==> k in MergeAll(m, incoming).entries
    ensures forall t :: t in incoming ==> t.id in MergeAll(m, incoming).entries
    decreases |incoming|
  {
    if incoming != [] {
      var front := incoming[..|incoming| - 1];
      MergeAllKeepsKeys(m, front);
      forall t | t in incoming ensures t.id in MergeAll(m, incoming).entries {
        if t != incoming[|incoming| - 1] {
          var j :| 0 <= j < |incoming| && incoming[j] == t;
          assert front[j] == t;
        }
      }
    }
  }

  /** For an id already held, the merged task is the held one or one with a strictly later
      `updated_at`: a newer snapshot never overwrites a fresher realtime update. */
  lemma {:induction false} MergeAllOnlyNewer(m: TaskMap, incoming: seq<Task>, k: string)
    requires ValidMap(m) && k in m.entries
    ensures k in MergeAll(m, incoming).entries
    ensures MergeAll(m, incoming).entries[k] == m.entries[k]
         || LexLess(m.entries[k].updatedAt, MergeAll(m, incoming).entries[k].updatedAt)
    decreases |incoming|
  {
    MergeAllKeepsKeys(m, incoming);
    if incoming != [] {
      var front := incoming[..|incoming| - 1];
      MergeAllOnlyNewer(m, front, k);
      var before := MergeAll(m, front).entries[k];
      var after := MergeAll(m, incoming).entries[k];
      if after != before {
        assert LexLess(before.updatedAt, after.updatedAt);
        if before != m.entries[k] {
          LexLessTransitive(m.entries[k].updatedAt, before.updatedAt, after.updatedAt);
        }
      }
    }
  }

  /** The other half of last-write-wins: for every incoming task, the merged task with its
      id is at least as new, so a held copy older than the snapshot is always replaced. */
  lemma {:induction false} MergeAllNewerWins(m: TaskMap, incoming: seq<Task>, t: Task)
    requires ValidMap(m) && t in incoming
    ensures t.id in MergeAll(m, incoming).entries
    ensures !LexLess(MergeAll(m, incoming).entries[t.id].updatedAt, t.updatedAt)
    decreases |incoming|
  {
    MergeAllKeepsKeys(m, incoming);
    var front := incoming[..|incoming| - 1];
    var last := incoming[|incoming| - 1];
    var after := MergeAll(m, incoming).entries[t.id];
    if t in front {
      MergeAllNewerWins(m, front, t);
      var before := MergeAll(m, front).entries[t.id];
      if after != before {
        assert after == last && LexLess(before.updatedAt, last.updatedAt);
        if LexLess(after.updatedAt, t.updatedAt) {
          LexLessTransitive(before.updatedAt, after.updatedAt, t.updatedAt);
        }
      }
    } else {
      assert t == last;
      if after == t {
        LexLessIrreflexive(t.updatedAt);
      }
    }
  }

  /** Every merged task is a held task or an incoming one. */
  lemma {:induction false} MergeAllFrom(m: TaskMap, incoming: seq<Task>, k: string)
    requires ValidMap(m) && k in MergeAll(m, incoming).entries
    ensures MergeAll(m, incoming).entries[k] in incoming
         || (k in m.entries && MergeAll(m, incoming).entries[k] == m.entries[k])
    decreases |incoming|
  {
    if incoming != [] {
      var front := incoming[..|incoming| - 1];
      var last := incoming[|incoming| - 1];
      if MergeAll(m, incoming).entries[k] != last {
        MergeAllFrom(m, front, k);
        if MergeAll(m, front).entries[k] in front {
          var j :| 0 <= j < |front| && front[j] == MergeAll(m, front).entries[k];
          assert incoming[j] == front[j];
        }
      }
    }
  }

  /** The entries of a valid map, listed in key order, carry pairwise-distinct ids. */
  lemma ValuesDistinct(m: TaskMap)
    requires ValidMap(m)
    ensures DistinctIds(Values(m))
  {
  }

  /** After a merge every held task's id is still present, and the list has distinct ids
      and is ascending by `task_order`. */
  lemma MergeKeepsHeldIds(held: seq<Task>, incoming: seq<Task>)
    ensures forall t :: t in held ==> exists u :: u in MergedTasks(held, incoming) && u.id == t.id
    ensures forall t :: t in incoming ==> exists u :: u in MergedTasks(held, incoming) && u.id == t.id
    ensures DistinctIds(MergedTasks(held, incoming)) && SortedByOrder(MergedTasks(held, incoming))
  {
    var m := MergeAll(FromList(held), incoming);
    MergeAllKeepsKeys(FromList(held), incoming);
    ValuesDistinct(m);
    var vs := Values(m);
    var r := MergedTasks(held, incoming);
    forall k | k in m.entries ensures exists u :: u in r && u.id == k {
      var i :| 0 <= i < |m.keys| && m.keys[i] == k;
      assert vs[i] in multiset(vs);
      assert vs[i] in r;
    }
  }

  /** A held task is replaced by the merge only when the incoming copy is strictly newer:
      the merged task with that id is the held one or has a later `updated_at`, and in
      every case it is one of the held or incoming tasks. */
  lemma MergeReplacesOnlyNewer(held: seq<Task>, incoming: seq<Task>, u: Task)
    requires u in MergedTasks(held, incoming)
    ensures u in held || u in incoming
    ensures u.id in FromList(held).entries ==>
      u == FromList(held).entries[u.id] || LexLess(FromList(held).entries[u.id].updatedAt, u.updatedAt)
  {
    var h := FromList(held);
    var m := MergeAll(h, incoming);
    assert u in multiset(Values(m));
    var i :| 0 <= i < |m.keys| && Values(m)[i] == u;
    var k := m.keys[i];
    MergeAllFrom(h, incoming, k);
    if k in h.entries {
      MergeAllOnlyNewer(h, incoming, k);
      FromListHolds(held, k);
    }
  }

  /** A task of the refetched snapshot is never lost to an older held copy: the merged
      list has a task with its id whose `updated_at` is not earlier than its own. */
  lemma MergeNewerWins(held: seq<Task>, incoming: seq<Task>, t: Task)
    requires t in incoming
    ensures exists u :: u in MergedTasks(held, incoming) && u.id == t.id && !LexLess(u.updatedAt, t.updatedAt)
  {
    var m := MergeAll(FromList(held), incoming);
    MergeAllNewerWins(FromList(held), incoming, t);
    var i :| 0 <= i < |m.keys| && m.keys[i] == t.id;
    assert Values(m)[i] in multiset(Values(m));
    assert Values(m)[i] in MergedTasks(held, incoming);
  }

  lemma {:induction false} FromListHolds(tasks: seq<Task>, k: string)
    requires k in FromList(tasks).entries
    ensures FromList(tasks).entries[k] in tasks
    decreases |tasks|
  {
    if tasks != [] {
      var front := tasks[..|tasks| - 1];
      if FromList(tasks).entries[k] != tasks[|tasks| - 1] {
        FromListHolds(front, k);
        var j :| 0 <= j < |front| && front[j] == FromList(tasks).entries[k];
        assert tasks[j] == front[j];
      }
    }
  }

  // ---------------------------------------------------------------------------
  // Realtime change events on the project's tasks

  /** A change event as the handler reads it: UPDATE carries the new row and the old
      status when the old row image has one (by default it holds only the id), DELETE the
      old id and (when the row image has it) the old status. */
  datatype TaskEvent =
    | Updated(newRow: TaskRow, oldStatus: Option<TaskStatus>)
    | Deleted(oldId: string, deletedStatus: Option<TaskStatus>)
    | Inserted(row: TaskRow)

  /** UPDATE: the row's columns are spread over every task with that id. */
  function ApplyUpdate(tasks: seq<Task>, row: TaskRow): (r: seq<Task>)
    ensures |r| == |tasks|
    ensures forall i :: 0 <= i < |tasks| && tasks[i].id != row.id ==> r[i] == tasks[i]
    ensures forall i :: 0 <= i < |tasks| && tasks[i].id == row.id ==>
      Columns(r[i]) == row && r[i].assignedTo == tasks[i].assignedTo
      && r[i].completedAt == tasks[i].completedAt
  {
    Map((t: Task) => if t.id == row.id then SpreadRow(t, row) else t, tasks)
  }

  /** An UPDATE for an id no task has changes nothing. */
  lemma UpdateUnknownIdIsNoOp(tasks: seq<Task>, row: TaskRow)
    requires forall t :: t in tasks ==> t.id != row.id
    ensures ApplyUpdate(tasks, row) == tasks
  {
  }

  /** Receiving the same UPDATE twice has the effect of receiving it once. */
  lemma UpdateIdempotent(tasks: seq<Task>, row: TaskRow)
    ensures ApplyUpdate(ApplyUpdate(tasks, row), row) == ApplyUpdate(tasks, row)
  {
    var once := ApplyUpdate(tasks, row);
    forall i | 0 <= i < |tasks| ensures ApplyUpdate(once, row)[i] == once[i] {
      if tasks[i].id == row.id {
        SpreadRowIdempotent(tasks[i], row);
      }
    }
  }

  /** DELETE: every task with the id is dropped, the others keep their order. */
  function RemoveId(tasks: seq<Task>, id: string): (r: seq<Task>)
    ensures forall t :: t in r <==> t in tasks && t.id != id
  {
    Filter((t: Task) => t.id != id, tasks)
  }

  /** A DELETE for an id no task has changes nothing. */
  lemma RemoveUnknownIdIsNoOp(tasks: seq<Task>, id: string)
    requires forall i :: 0 <= i < |tasks| ==> tasks[i].id != id
    ensures RemoveId(tasks, id) == tasks
  {
    FilterKeepsAll((t: Task) => t.id != id, tasks);
  }

  /** With distinct ids a DELETE of a present id shortens the list by exactly one. */
  lemma {:induction false} RemovePresentIdShortensByOne(tasks: seq<Task>, id: string)
    requires DistinctIds(tasks)
    requires exists t :: t in tasks && t.id == id
    ensures |RemoveId(tasks, id)| == |tasks| - 1
    decreases |tasks|
  {
    if tasks[0].id == id {
      forall i | 0 <= i < |tasks[1..]| ensures tasks[1..][i].id != id {
        assert tasks[1..][i] == tasks[i + 1];
      }
      RemoveUnknownIdIsNoOp(tasks[1..], id);
    } else {
      var t :| t in tasks && t.id == id;
      assert t in tasks[1..];
      assert DistinctIds(tasks[1..]) by {
        forall i, j | 0 <= i < j < |tasks[1..]| ensures tasks[1..][i].id != tasks[1..][j].id {
          assert tasks[1..][i] == tasks[i + 1] && tasks[1..][j] == tasks[j + 1];
        }
      }
      RemovePresentIdShortensByOne(tasks[1..], id);
    }
  }

  // ---------------------------------------------------------------------------
  // The filtered list's comparator

  function PriorityRank(p: TaskPriority): int {
    match p
    case High => 3
    case Medium => 2
    case Low => 1
  }

  /** The `filteredTasks` sort comparator: first by the active filter (priority, then
      assignee), then, for tasks of the same status, by `task_order`; negated for 'desc'.
      Tasks of different statuses with no filter decision compare equal. */
  function TaskCompare(a: Task, b: Task, priorityFilter: string, assigneeFilter: string, ascending: bool): int {
    var byFilter :=
      if priorityFilter != "all" then PriorityRank(b.priority) - PriorityRank(a.priority)
      else if assigneeFilter != "all" then
        if assigneeFilter == "unassigned" then
          (if a.assignedTo.Some? then 1 else -1) - (if b.assignedTo.Some? then 1 else -1)
        else
          (if a.assignedTo.Some? && a.assignedTo.value.id == assigneeFilter then -1 else 1)
          - (if b.assignedTo.Some? && b.assignedTo.value.id == assigneeFilter then -1 else 1)
      else 0;
    var c := if byFilter == 0 && a.status == b.status then Compare(a.taskOrder, b.taskOrder) else byFilter;
    if ascending then c else -c
  }

  lemma CompareAntisymmetric(x: string, y: string)
    ensures Compare(x, y) == -Compare(y, x)
  {
    if x != y {
      LexLessTotal(x, y);
      if LexLess(x, y) { LexLessAsymmetric(x, y); } else { LexLessAsymmetric(y, x); }
    }
  }

  /** Swapping the two tasks negates the comparison. */
  lemma TaskCompareAntisymmetric(a: Task, b: Task, priorityFilter: string, assigneeFilter: string, ascending: bool)
    ensures TaskCompare(a, b, priorityFilter, assigneeFilter, ascending)
         == -TaskCompare(b, a, priorityFilter, assigneeFilter, ascending)
  {
    CompareAntisymmetric(a.taskOrder, b.taskOrder);
  }

  /** With no priority or assignee filter, tasks of one status are ordered by `task_order`,
      and the order is reversed for 'desc'. */
  lemma CompareWithoutFiltersByOrder(a: Task, b: Task, ascending: bool)
    requires a.status == b.status
    ensures ascending ==> (TaskCompare(a, b, "all", "all", ascending) < 0 <==> LexLess(a.taskOrder, b.taskOrder))
    ensures !ascending ==> (TaskCompare(a, b, "all", "all", ascending) < 0 <==> LexLess(b.taskOrder, a.taskOrder))
  {
  }

  /** The comparator is not a consistent order: with no filters, tasks of different
      statuses compare equal, so two same-status tasks in the wrong key order can both be
      "equal" to a third task. The order `sort` produces is then engine-defined. */
  lemma CompareNotTransitive()
    ensures exists a: Task, b: Task, c: Task ::
      TaskCompare(a, b, "all", "all", true) == 0 && TaskCompare(b, c, "all", "all", true) == 0
      && TaskCompare(a, c, "all", "all", true) > 0
  {
    var a := Task("a", "", None, Todo, Low, "2", "", None, "", "", "", None, None);
    var b := Task("b", "", None, Done, Low, "5", "", None, "", "", "", None, None);
    var c := Task("c", "", None, Todo, Low, "1", "", None, "", "", "", None, None);
    assert LexLess("1", "2");
    LexLessAsymmetric("1", "2");
    assert Compare("2", "1") > 0;
    assert TaskCompare(a, b, "all", "all", true) == 0;
    assert TaskCompare(b, c, "all", "all", true) == 0;
    assert TaskCompare(a, c, "all", "all", true) > 0;
  }

  // ---------------------------------------------------------------------------
  // Drag end

  /** The first index holding a task with the id, as `findIndex` gives it. */
  function FindIndex(tasks: seq<Task>, id: string): (r: Option<nat>)
    ensures r.Some? ==> r.value < |tasks| && tasks[r.value].id == id
                        && forall j :: 0 <= j < r.value ==> tasks[j].id != id
    ensures r.None? ==> forall j :: 0 <= j < |tasks| ==> tasks[j].id != id
    decreases |tasks|
  {
    if tasks == [] then None
    else if tasks[0].id == id then Some(0)
    else match FindIndex(tasks[1..], id)
      case None => None
      case Some(j) => Some(j + 1)
  }

  /** The tasks of one status, ascending by `task_order`. */
  function StatusColumn(tasks: seq<Task>, s: TaskStatus): seq<Task> {
    SortByOrder(Filter((t: Task) => t.status == s, tasks))
  }

  function Ids(tasks: seq<Task>): seq<string> {
    Map((t: Task) => t.id, tasks)
  }

  /** What the drag end sends: the new keys of a reordered column, or a status change. */
  datatype DragRequest =
    | ReorderColumn(ids: seq<string>, orders: seq<string>, status: TaskStatus)
    | ChangeStatus(id: string, status: TaskStatus)

  function SetStatus(tasks: seq<Task>, i: nat, s: TaskStatus): (r: seq<Task>)
    requires i < |tasks|
    ensures |r| == |tasks| && r[i].status == s && r[i].id == tasks[i].id
    ensures forall j :: 0 <= j < |tasks| && j != i ==> r[j] == tasks[j]
  {
    tasks[i := tasks[i].(status := s)]
  }

  /** When the ids are distinct, a drop onto a task never changes a status: the dragged
      task is found in the target task's column only if it already has that status. */
  lemma DropOnTaskKeepsStatus(tasks: seq<Task>, ai: nat, over: Task)
    requires DistinctIds(tasks) && ai < |tasks|
    requires FindIndex(StatusColumn(tasks, over.status), tasks[ai].id).Some?
    ensures tasks[ai].status == over.status
  {
    var col := StatusColumn(tasks, over.status);
    var k := FindIndex(col, tasks[ai].id).value;
    assert col[k] in multiset(Filter((t: Task) => t.status == over.status, tasks));
    var j :| 0 <= j < |tasks| && tasks[j] == col[k];
  }

  /** The keys a reorder sends are five characters long and ascend with the index. */
  lemma ReorderKeysAscend(n: nat, i: nat, j: nat)
    requires i < j < n <= 99999
    ensures |PaddedKeys(n)[i]| == 5 && LexLess(PaddedKeys(n)[i], PaddedKeys(n)[j])
  {
    PaddedKeysOrdered(i, j);
  }

  // ---------------------------------------------------------------------------
  // The hook's state

  /** `new Map(prevTasks.map(task => [task.id, task]))`, entry by entry. */
  method BuildMap(tasks: seq<Task>) returns (m: TaskMap)
    ensures m == FromList(tasks)
  {
    m := TaskMap([], map[]);
    var i := 0;
    while i < |tasks|
      invariant 0 <= i <= |tasks|
      invariant m == FromList(tasks[..i])
    {
      assert tasks[..i + 1][..i] == tasks[..i];
      m := MapSet(m, tasks[i]);
      i := i + 1;
    }
    assert tasks[..|tasks|] == tasks;
  }

  /** The `initialTasks.forEach` loop: an incoming task is stored when its id is absent
      or the held task's `updated_at` is strictly earlier. */
  method MergeSnapshot(held: TaskMap, incoming: seq<Task>) returns (m: TaskMap)
    requires ValidMap(held)
    ensures m == MergeAll(held, incoming)
  {
    m := held;
    var i := 0;
    while i < |incoming|
      invariant 0 <= i <= |incoming|
      invariant m == MergeAll(held, incoming[..i])
    {
      assert incoming[..i + 1][..i] == incoming[..i];
      var t := incoming[i];
      if t.id !in m.entries || LexLess(m.entries[t.id].updatedAt, t.updatedAt) {
        m := MapSet(m, t);
      }
      i := i + 1;
    }
    assert incoming[..|incoming|] == incoming;
  }

  /** `Array.from(taskMap.values())`. */
  method ListValues(m: TaskMap) returns (values: seq<Task>)
    requires ValidMap(m)
    ensures values == Values(m)
  {
    values := [];
    var i := 0;
    while i < |m.keys|
      invariant 0 <= i <= |m.keys|
      invariant values == Values(m)[..i]
    {
      values := values + [m.entries[m.keys[i]]];
      i := i + 1;
    }
  }

  class TaskBoardState {
    var tasks: seq<Task>
    var selectedTask: Option<Task>
    var isTaskModalOpen: bool

    /** `useState(initialTasks)`, nothing selected, modal closed. */
    constructor(initial: seq<Task>)
      ensures tasks == initial && selectedTask.None? && !isTaskModalOpen
    {
      tasks := initial;
      selectedTask := None;
      isTaskModalOpen := false;
    }

    /** The effect run on a new `initialTasks`: build the id map from the held tasks, take
        each incoming task that is new or strictly newer, then list the map's values
        ascending by `task_order`. */
    method MergeInitial(incoming: seq<Task>)
      modifies this
      ensures tasks == MergedTasks(old(tasks), incoming)
      ensures selectedTask == old(selectedTask) && isTaskModalOpen == old(isTaskModalOpen)
    {
      var held := BuildMap(tasks);
      var merged := MergeSnapshot(held, incoming);
      var values := ListValues(merged);
      tasks := SortByOrder(values);
    }

    /** The realtime handler. UPDATE spreads the row over the tasks with its id (and over the
        selected task when it has that id) and reports a status change. DELETE with an id and
        a status drops every task with the id, closes the modal when the selected task is
        the one deleted, and reports the old status. INSERT with an id appends the row
        without looking for an existing task with that id. An UPDATE whose old image lacks
        the status compares it as undefined, so it is reported as a move whatever changed. */
    method OnTaskEvent(e: TaskEvent) returns (moved: Option<(string, TaskStatus)>)
      modifies this
      ensures e.Updated? ==>
        tasks == ApplyUpdate(old(tasks), e.newRow)
        && isTaskModalOpen == old(isTaskModalOpen)
        && selectedTask == (if old(selectedTask).Some? && old(selectedTask).value.id == e.newRow.id
                            then Some(SpreadRow(old(selectedTask).value, e.newRow)) else old(selectedTask))
        && moved == (if e.oldStatus != Some(e.newRow.status) then Some((e.newRow.id, e.newRow.status)) else None)
      ensures e.Deleted? && (e.oldId == [] || e.deletedStatus.None?) ==>
        tasks == old(tasks) && selectedTask == old(selectedTask)
        && isTaskModalOpen == old(isTaskModalOpen) && moved.None?
      ensures e.Deleted? && e.oldId != [] && e.deletedStatus.Some? ==>
        tasks == RemoveId(old(tasks), e.oldId)
        && moved == Some((e.oldId, e.deletedStatus.value))
        && (if old(selectedTask).Some? && old(selectedTask).value.id == e.oldId
            then selectedTask.None? && !isTaskModalOpen
            else selectedTask == old(selectedTask) && isTaskModalOpen == old(isTaskModalOpen))
      ensures e.Inserted? && e.row.id == [] ==>
        tasks == old(tasks) && selectedTask == old(selectedTask)
        && isTaskModalOpen == old(isTaskModalOpen) && moved.None?
      ensures e.Inserted? && e.row.id != [] ==>
        tasks == old(tasks) + [RowAsTask(e.row)] && |tasks| == |old(tasks)| + 1
        && selectedTask == old(selectedTask) && isTaskModalOpen == old(isTaskModalOpen)
        && moved == Some((e.row.id, e.row.status))
    {
      moved := None;
      match e {
        case Updated(row, oldStatus) =>
          tasks := ApplyUpdate(tasks, row);
          if selectedTask.Some? && selectedTask.value.id == row.id {
            selectedTask := Some(SpreadRow(selectedTask.value, row));
          }
          if oldStatus != Some(row.status) {
            moved := Some((row.id, row.status));
          }
        case Deleted(id, status) =>
          if id != [] && status.Some? {
            tasks := RemoveId(tasks, id);
            if selectedTask.Some? && selectedTask.value.id == id {
              selectedTask := None;
              isTaskModalOpen := false;
            }
            moved := Some((id, status.value));
          }
        case Inserted(row) =>
          if row.id != [] {
            tasks := tasks + [RowAsTask(row)];
            moved := Some((row.id, row.status));
          }
      }
    }

    /** `handleDragEnd`. `overId` is what the task was dropped on (a task id or a column id);
        `remoteOk` is whether the remote call, if one is made, succeeds. A drop onto a task
        whose column holds the dragged task sends the column's ids, reordered by `arrayMove`,
        with keys '00001', '00002', ...; a drop onto another column sends the status change
        and sets the local status only after it succeeds. A failure raises the toast and
        leaves the list as it was. */
    method HandleDragEnd(activeId: string, overId: Option<string>, remoteOk: bool)
      returns (request: Option<DragRequest>, toast: bool, moved: Option<(string, TaskStatus)>)
      modifies this
      ensures selectedTask == old(selectedTask) && isTaskModalOpen == old(isTaskModalOpen)
      ensures request.None? ==> !toast
      ensures toast <==> request.Some? && !remoteOk
      ensures toast ==> tasks == old(tasks) && moved.None?
      ensures overId.None? || FindIndex(old(tasks), activeId).None?
              || (FindIndex(old(tasks), overId.value).None? && ParseStatus(overId.value).None?) ==>
        tasks == old(tasks) && request.None? && moved.None?
      ensures overId.Some? && FindIndex(old(tasks), activeId).Some? && FindIndex(old(tasks), overId.value).Some? ==>
        var ai := FindIndex(old(tasks), activeId).value;
        var over := old(tasks)[FindIndex(old(tasks), overId.value).value];
        var col := StatusColumn(old(tasks), over.status);
        match FindIndex(col, activeId)
        case None =>
          request.None? && tasks == old(tasks) && moved == Some((activeId, old(tasks)[ai].status))
        case Some(oldIndex) =>
          FindIndex(col, over.id).Some?
          && request == Some(ReorderColumn(Ids(ArrayMove(col, oldIndex, FindIndex(col, over.id).value)),
                                           PaddedKeys(|col|), over.status))
          && (remoteOk ==> tasks == SetStatus(old(tasks), ai, over.status) && moved == Some((activeId, over.status)))
      ensures overId.Some? && FindIndex(old(tasks), activeId).Some? && FindIndex(old(tasks), overId.value).None?
              && ParseStatus(overId.value).Some? ==>
        var ai := FindIndex(old(tasks), activeId).value;
        var s := ParseStatus(overId.value).value;
        if old(tasks)[ai].status == s then
          request.None? && tasks == old(tasks) && moved == Some((activeId, s))
        else
          request == Some(ChangeStatus(activeId, s))
          && (remoteOk ==> tasks == SetStatus(old(tasks), ai, s) && moved == Some((activeId, s)))
    {
      request, toast, moved := None, false, None;
      if overId.None? {
        return;
      }
      var ai := FindIndex(tasks, activeId);
      if ai.None? {
        return;
      }
      var activeTask := tasks[ai.value];
      var overIndex := FindIndex(tasks, overId.value);
      var overColumn := ParseStatus(overId.value);
      if overIndex.None? && overColumn.None? {
        return;
      }
      var updated := tasks;
      if overIndex.Some? {
        var overTask := tasks[overIndex.value];
        var col := StatusColumn(tasks, overTask.status);
        assert overTask in multiset(Filter((t: Task) => t.status == overTask.status, tasks));
        var oldIndex := FindIndex(col, activeTask.id);
        var newIndex := FindIndex(col, overTask.id);
        if oldIndex.Some? && newIndex.Some? {
          var newStatus := overTask.status;
          if activeTask.status != newStatus {
            updated := SetStatus(updated, ai.value, newStatus);
          }
          var reordered := ArrayMove(col, oldIndex.value, newIndex.value);
          request := Some(ReorderColumn(Ids(reordered), PaddedKeys(|col|), newStatus));
          if !remoteOk {
            toast := true;
            return;
          }
        }
      } else {
        var newStatus := overColumn.value;
        if activeTask.status != newStatus {
          request := Some(ChangeStatus(activeTask.id, newStatus));
          if !remoteOk {
            toast := true;
            return;
          }
          updated := SetStatus(updated, ai.value, newStatus);
        }
      }
      tasks := updated;
      moved := Some((activeTask.id, updated[ai.value].status));
    }

    /** `handleTaskClick`: a known id selects its first task and opens the modal. */
    method HandleTaskClick(taskId: string)
      modifies this
      ensures tasks == old(tasks)
      ensures FindIndex(tasks, taskId).None? ==>
        selectedTask == old(selectedTask) && isTaskModalOpen == old(isTaskModalOpen)
      ensures FindIndex(tasks, taskId).Some? ==>
        selectedTask == Some(tasks[FindIndex(tasks, taskId).value]) && isTaskModalOpen
    {
      var i := FindIndex(tasks, taskId);
      if i.Some? {
        selectedTask := Some(tasks[i.value]);
        isTaskModalOpen := true;
      }
    }
  }
}
