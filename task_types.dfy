/** The task record, its two enumerations and their label and colour tables (types/task.ts). */
module TaskTypes {
  import opened Wrappers

  datatype TaskStatus = Todo | InProgress | InReview | Done

  datatype TaskPriority = Low | Medium | High

  /** The string each status is stored and sent as. */
  function StatusWire(s: TaskStatus): string {
    match s
    case Todo => "todo"
    case InProgress => "in_progress"
    case InReview => "in_review"
    case Done => "done"
  }

  function PriorityWire(p: TaskPriority): string {
    match p
    case Low => "low"
    case Medium => "medium"
    case High => "high"
  }

  /** Reading a stored status string back: exactly the four wire strings are statuses. */
  function ParseStatus(w: string): (r: Option<TaskStatus>)
    ensures r.Some? ==> StatusWire(r.value) == w
    ensures r.None? ==> forall s: TaskStatus :: StatusWire(s) != w
  {
    if w == "todo" then Some(Todo)
    else if w == "in_progress" then Some(InProgress)
    else if w == "in_review" then Some(InReview)
    else if w == "done" then Some(Done)
    else None
  }

  function ParsePriority(w: string): (r: Option<TaskPriority>)
    ensures r.Some? ==> PriorityWire(r.value) == w
    ensures r.None? ==> forall p: TaskPriority :: PriorityWire(p) != w
  {
    if w == "low" then Some(Low)
    else if w == "medium" then Some(Medium)
    else if w == "high" then Some(High)
    else None
  }

  /** Parsing the wire string of a status gives the status back, so the wire strings are distinct. */
  lemma StatusRoundTrip(s: TaskStatus)
    ensures ParseStatus(StatusWire(s)) == Some(s)
  {
  }

  lemma PriorityRoundTrip(p: TaskPriority)
    ensures ParsePriority(PriorityWire(p)) == Some(p)
  {
  }

  /** TASK_STATUS_LABELS. */
  function StatusLabel(s: TaskStatus): string {
    match s
    case Todo => "Yapılacak"
    case InProgress => "Devam Eden"
    case InReview => "İncelemede"
    case Done => "Tamamlandı"
  }

  /** TASK_PRIORITY_LABELS. */
  function PriorityLabel(p: TaskPriority): string {
    match p
    case Low => "Düşük"
    case Medium => "Orta"
    case High => "Yüksek"
  }

  /** TASK_STATUS_COLORS. */
  function StatusColor(s: TaskStatus): string {
    match s
    case Todo => "#94a3b8"
    case InProgress => "#3b82f6"
    case InReview => "#f59e0b"
    case Done => "#22c55e"
  }

  /** TASK_PRIORITY_COLORS. */
  function PriorityColor(p: TaskPriority): string {
    match p
    case Low => "#94a3b8"
    case Medium => "#f59e0b"
    case High => "#ef4444"
  }

  /** Every status has a label and no two statuses share one. */
  lemma StatusLabelsDistinct(a: TaskStatus, b: TaskStatus)
    ensures |StatusLabel(a)| > 0
    ensures a != b ==> StatusLabel(a) != StatusLabel(b)
  {
  }

  lemma PriorityLabelsDistinct(a: TaskPriority, b: TaskPriority)
    ensures |PriorityLabel(a)| > 0
    ensures a != b ==> PriorityLabel(a) != PriorityLabel(b)
  {
  }

  /** Both colour tables give every value a seven-character `#rrggbb` colour. */
  lemma ColorsAreTotal(s: TaskStatus, p: TaskPriority)
    ensures |StatusColor(s)| == 7 && StatusColor(s)[0] == '#'
    ensures |PriorityColor(p)| == 7 && PriorityColor(p)[0] == '#'
  {
  }

  datatype AssignedUser = AssignedUser(id: string, name: string, avatarUrl: Option<string>)

  /** The task record the board works on. `assignedTo` is joined in from the users table and
      `completedAt` is optional; neither is a column of the tasks table. */
  datatype Task = Task(
    id: string,
    title: string,
    description: Option<string>,
    status: TaskStatus,
    priority: TaskPriority,
    taskOrder: string,
    createdById: string,
    assignedToId: Option<string>,
    projectId: string,
    createdAt: string,
    updatedAt: string,
    completedAt: Option<string>,
    assignedTo: Option<AssignedUser>)

  /** A row of the tasks table as a change event carries it: the columns only. */
  datatype TaskRow = TaskRow(
    id: string,
    title: string,
    description: Option<string>,
    status: TaskStatus,
    priority: TaskPriority,
    taskOrder: string,
    createdById: string,
    assignedToId: Option<string>,
    projectId: string,
    createdAt: string,
    updatedAt: string)

  /** The columns of the tasks table a task carries: everything but the joined assignee
      and the completion date. */
  function Columns(t: Task): TaskRow {
    TaskRow(t.id, t.title, t.description, t.status, t.priority, t.taskOrder, t.createdById,
            t.assignedToId, t.projectId, t.createdAt, t.updatedAt)
  }

  /** A row used where a task is expected: the fields it lacks read as absent. */
  function RowAsTask(r: TaskRow): (t: Task)
    ensures Columns(t) == r
    ensures t.assignedTo.None? && t.completedAt.None?
  {
    Task(r.id, r.title, r.description, r.status, r.priority, r.taskOrder, r.createdById,
         r.assignedToId, r.projectId, r.createdAt, r.updatedAt, None, None)
  }

  /** `{ ...task, ...row }`: every column comes from the row, the joined fields stay. */
  function SpreadRow(t: Task, r: TaskRow): (u: Task)
    ensures Columns(u) == r
    ensures u.assignedTo == t.assignedTo && u.completedAt == t.completedAt
  {
    Task(r.id, r.title, r.description, r.status, r.priority, r.taskOrder, r.createdById,
         r.assignedToId, r.projectId, r.createdAt, r.updatedAt, t.completedAt, t.assignedTo)
  }

  /** Spreading the same row twice is spreading it once. */
  lemma SpreadRowIdempotent(t: Task, r: TaskRow)
    ensures SpreadRow(SpreadRow(t, r), r) == SpreadRow(t, r)
  {
  }
}
