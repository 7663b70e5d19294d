/** The project service (lib/services/project-service.ts): the shaping of fetched rows into
    tasks and members, the order key chosen when a task changes column, and the padded keys
    sent when a column is reordered. The queries themselves are outside the model. */
module ProjectService {
  import opened Wrappers
  import opened Strings
  import opened Sequences
  import opened TaskTypes
  import opened ProjectTypes
  import opened OrderKeys

  /** A fetched task row with the `assigned_user` join. */
  datatype TaskQueryRow = TaskQueryRow(columns: TaskRow, assignedUser: Option<AssignedUser>)

  /** A fetched membership row; the join carries the user's id, name, email and avatar, and
      is absent when it found no user. */
  datatype MemberQueryRow = MemberQueryRow(
    id: string, projectId: string, userId: string, role: string, createdAt: string, user: Option<MemberUser>)

  /** The `TypeError` thrown by reading a field of a missing user join. */
  const MissingUserJoin := "TypeError: member.user is null"

  /** One task: the columns copied, `assignedTo` built from the join when present. */
  function TransformTask(q: TaskQueryRow): (t: Task)
    ensures Columns(t) == q.columns && t.completedAt.None?
    ensures t.assignedTo.None? <==> q.assignedUser.None?
    ensures q.assignedUser.Some? ==>
              t.assignedTo.value.id == q.assignedUser.value.id
              && t.assignedTo.value.name == q.assignedUser.value.name
              && t.assignedTo.value.avatarUrl == q.assignedUser.value.avatarUrl
  {
    var c := q.columns;
    Task(c.id, c.title, c.description, c.status, c.priority, c.taskOrder, c.createdById,
         c.assignedToId, c.projectId, c.createdAt, c.updatedAt, None,
         match q.assignedUser
         case None => None
         case Some(u) => Some(AssignedUser(u.id, u.name, u.avatarUrl)))
  }

  /** `tasksData.map(...)`: one task per row, in the fetched order. */
  function TransformTasks(rows: seq<TaskQueryRow>): (r: seq<Task>)
    ensures |r| == |rows|
    ensures forall i :: 0 <= i < |rows| ==> r[i] == TransformTask(rows[i])
  {
    Map(TransformTask, rows)
  }

  /** The transform keeps each row's id at its position, and a task has an assignee
      exactly when its row had a joined user. */
  lemma TransformKeepsIdsAndAssignees(rows: seq<TaskQueryRow>, i: nat)
    requires i < |rows|
    ensures TransformTasks(rows)[i].id == rows[i].columns.id
    ensures TransformTasks(rows)[i].assignedTo.None? <==> rows[i].assignedUser.None?
  {
  }

  /** The transform works row by row, so the order of rows is the order of tasks. */
  lemma TransformTasksAppend(a: seq<TaskQueryRow>, b: seq<TaskQueryRow>)
    ensures TransformTasks(a + b) == TransformTasks(a) + TransformTasks(b)
  {
    MapAppend(TransformTask, a, b);
  }

  /** One member: `joined_at` is the row's `created_at`, the rest is copied, and the user
      is rebuilt from the join. The source reads the join's fields unguarded, so a row
      without a user has no member: reading it throws. */
  function TransformMember(q: MemberQueryRow): (m: Option<ProjectMember>)
    ensures m.None? <==> q.user.None?
    ensures m.Some? ==>
      m.value.id == q.id && m.value.projectId == q.projectId && m.value.userId == q.userId
      && m.value.role == q.role && m.value.joinedAt == Some(q.createdAt) && m.value.user == q.user
  {
    match q.user
    case None => None
    case Some(u) => Some(ProjectMember(q.id, q.projectId, q.userId, q.role, Some(q.createdAt),
                                       Some(MemberUser(u.id, u.name, u.email, u.avatarUrl))))
  }

  /** `membersData.map(...)`: one member per row, in order, or the `TypeError` the first
      row without a user join throws, which fails the whole project load. */
  function TransformMembers(rows: seq<MemberQueryRow>): (r: Result<seq<ProjectMember>, string>)
    ensures r.Failure? <==> exists i :: 0 <= i < |rows| && rows[i].user.None?
    ensures r.Failure? ==> r.error == MissingUserJoin
    ensures r.Success? ==>
      |r.value| == |rows|
      && forall i :: 0 <= i < |rows| ==> Some(r.value[i]) == TransformMember(rows[i])
  {
    if exists i :: 0 <= i < |rows| && rows[i].user.None? then Failure(MissingUserJoin)
    else Success(seq(|rows|, i requires 0 <= i < |rows| => TransformMember(rows[i]).value))
  }

  /** The update `updateTaskStatus` sends: the new status and the new order key. */
  datatype StatusUpdate = StatusUpdate(taskId: string, status: string, taskOrder: real)

  /** `updateTaskStatus`. `columnKeys` is the target column's keys as integers, in ascending
      order, or the fetch error, which is rethrown before anything is sent. */
  method UpdateTaskStatus(taskId: string, newStatus: string, columnKeys: Result<seq<int>, string>)
    returns (r: Result<StatusUpdate, string>)
    ensures columnKeys.Failure? ==> r == Failure(columnKeys.error)
    ensures columnKeys.Success? ==> r.Success? && r.value.taskId == taskId && r.value.status == newStatus
    ensures columnKeys.Success? && |columnKeys.value| == 0 ==> r.value.taskOrder == 1000.0
    ensures columnKeys.Success? && |columnKeys.value| == 1 ==>
      r.value.taskOrder == columnKeys.value[0] as real + 1000.0
    ensures columnKeys.Success? && |columnKeys.value| >= 2 ==>
      var keys := columnKeys.value;
      r.value.taskOrder * 2.0 == keys[|keys| - 2] as real + keys[|keys| - 1] as real
  {
    match columnKeys {
      case Failure(e) =>
        r := Failure(e);
      case Success(keys) =>
        var newOrder := ServiceNewOrder(keys);
        r := Success(StatusUpdate(taskId, newStatus, newOrder));
    }
  }

  /** The arguments of the `update_task_orders` call. */
  datatype OrderRequest = OrderRequest(taskIds: seq<string>, taskOrders: seq<string>, status: string)

  /** `updateTaskOrder`: the i-th id gets `(i+1)` left-padded with '0' to five characters. */
  function UpdateTaskOrder(status: string, taskIds: seq<string>): (r: OrderRequest)
    ensures r.taskIds == taskIds && r.status == status && |r.taskOrders| == |taskIds|
    ensures forall i :: 0 <= i < |taskIds| ==> r.taskOrders[i] == PaddedKey(i)
  {
    OrderRequest(taskIds, PaddedKeys(|taskIds|), status)
  }

  /** For fewer than 100000 ids every key is five characters long, and the keys sort in
      the same order as the ids were given. */
  lemma UpdateTaskOrderKeysSortAsGiven(status: string, taskIds: seq<string>, i: nat, j: nat)
    requires i < j < |taskIds| <= 99999
    ensures |UpdateTaskOrder(status, taskIds).taskOrders[i]| == 5
    ensures LexLess(UpdateTaskOrder(status, taskIds).taskOrders[i], UpdateTaskOrder(status, taskIds).taskOrders[j])
  {
    PaddedKeysOrdered(i, j);
  }
}
