/** The task form dialog (components/task/task-modal.tsx): its fields, how they are filled
    for a new or an existing task, which members can be assigned, the gating of fields and
    buttons by the caller's permissions, and the submit and delete handlers. The clock is a
    parameter and remote answers are parameters. */
module TaskForm {
  import opened Wrappers
  import opened Strings
  import opened Sequences
  import opened TaskTypes

  /** The permissions the dialog is given; an absent record grants nothing. */
  datatype TaskPermissions = TaskPermissions(canEditTask: bool, canDeleteTask: bool, canAssignTasks: bool)

  predicate CanEdit(p: Option<TaskPermissions>) { p.Some? && p.value.canEditTask }
  predicate CanDelete(p: Option<TaskPermissions>) { p.Some? && p.value.canDeleteTask }
  predicate CanAssign(p: Option<TaskPermissions>) { p.Some? && p.value.canAssignTasks }

  /** Every input is disabled while loading, and for an existing task without edit permission. */
  predicate FieldsDisabled(loading: bool, existing: Option<Task>, p: Option<TaskPermissions>) {
    loading || (existing.Some? && !CanEdit(p))
  }

  /** The submit button is shown for a new task or with edit permission. */
  predicate SubmitShown(existing: Option<Task>, p: Option<TaskPermissions>) {
    existing.None? || CanEdit(p)
  }

  /** The delete button is shown for an existing task with delete permission. */
  predicate DeleteShown(existing: Option<Task>, p: Option<TaskPermissions>) {
    existing.Some? && CanDelete(p)
  }

  /** A user who can edit has the submit button exactly when the inputs are enabled once
      loading ends; a user who cannot edit an existing task has neither. */
  lemma SubmitShownIffEditable(existing: Option<Task>, p: Option<TaskPermissions>)
    ensures SubmitShown(existing, p) <==> !FieldsDisabled(false, existing, p)
    ensures FieldsDisabled(true, existing, p)
  {
  }

  const Unassigned := "unassigned"

  /** The assignee selector's value: the assignee id, or 'unassigned' for none (or an empty id). */
  function AssigneeValue(assignedToId: Option<string>): (r: string)
    ensures assignedToId.Some? && assignedToId.value != [] ==> r == assignedToId.value
    ensures assignedToId.None? || assignedToId.value == [] ==> r == Unassigned
  {
    if assignedToId.Some? && assignedToId.value != [] then assignedToId.value else Unassigned
  }

  /** Choosing in the selector: 'unassigned' stores none, anything else stores that id. */
  function AssigneeChoice(value: string): (r: Option<string>)
    ensures r.None? <==> value == Unassigned
    ensures r.Some? ==> r.value == value
  {
    if value == Unassigned then None else Some(value)
  }

  /** Choosing what the selector shows gives back the stored assignee, and showing a choice
      gives back the chosen value, for every id other than '' and 'unassigned'. */
  lemma AssigneeRoundTrip(a: Option<string>, value: string)
    ensures a.None? || (a.value != [] && a.value != Unassigned) ==> AssigneeChoice(AssigneeValue(a)) == a
    ensures value != [] ==> AssigneeValue(AssigneeChoice(value)) == value
  {
  }

  /** A membership row of the project as the member query returns it, before filtering. */
  datatype MemberOption = MemberOption(role: string, user: Option<(string, string)>)

  /** The assignable members: rows whose role is not 'VIEWER' (the query's condition) and
      that carry a user. */
  function AssignableMembers(rows: seq<MemberOption>): (r: seq<MemberOption>)
    ensures forall m :: m in r <==> m in rows && m.role != "VIEWER" && m.user.Some?
  {
    Filter((m: MemberOption) => m.user.Some?, Filter((m: MemberOption) => m.role != "VIEWER", rows))
  }

  /** The fields an insert or update sends. */
  datatype TaskData = TaskData(
    title: string, description: string, status: TaskStatus, priority: TaskPriority,
    assignedToId: Option<string>, updatedAt: string)

  datatype TaskWrite =
    | UpdateTask(id: string, data: TaskData)
    | InsertTask(data: TaskData, projectId: string, taskOrder: string)

  datatype Outcome = Ok | Failed(message: string)

  const BlankTitleError := "Görev başlığı boş olamaz"
  const SubmitFailed := "İşlem sırasında bir hata oluştu"
  const DeleteFailed := "Görev silinirken bir hata oluştu"

  class TaskFormState {
    var title: string
    var description: string
    var status: TaskStatus
    var priority: TaskPriority
    var assignedToId: Option<string>
    var loading: bool

    /** The initial field values: the existing task's (a missing description or an empty
        assignee read as empty), or an empty form with the given status (else todo),
        medium priority and no assignee. */
    constructor(existing: Option<Task>, initialStatus: Option<TaskStatus>)
      ensures !loading
      ensures existing.Some? ==>
        title == existing.value.title && description == existing.value.description.GetOr([])
        && status == existing.value.status && priority == existing.value.priority
        && assignedToId == (if existing.value.assignedToId == Some([]) then None else existing.value.assignedToId)
      ensures existing.None? ==>
        title == [] && description == [] && status == initialStatus.GetOr(Todo)
        && priority == Medium && assignedToId.None?
    {
      loading := false;
      match existing {
        case Some(t) =>
          title := t.title;
          description := t.description.GetOr([]);
          status := t.status;
          priority := t.priority;
          assignedToId := if t.assignedToId == Some([]) then None else t.assignedToId;
        case None =>
          title := [];
          description := [];
          status := initialStatus.GetOr(Todo);
          priority := Medium;
          assignedToId := None;
      }
    }

    /** The reset effect, run when the task or the initial status changes. Unlike the initial
        values it keeps an existing task's assignee id as it is. */
    method Reset(existing: Option<Task>, initialStatus: Option<TaskStatus>)
      modifies this
      ensures loading == old(loading)
      ensures existing.Some? ==>
        title == existing.value.title && description == existing.value.description.GetOr([])
        && status == existing.value.status && priority == existing.value.priority
        && assignedToId == existing.value.assignedToId
      ensures existing.None? ==>
        title == [] && description == [] && status == initialStatus.GetOr(Todo)
        && priority == Medium && assignedToId.None?
    {
      match existing {
        case Some(t) =>
          title, description := t.title, t.description.GetOr([]);
          status, priority, assignedToId := t.status, t.priority, t.assignedToId;
        case None =>
          title, description := [], [];
          status, priority, assignedToId := initialStatus.GetOr(Todo), Medium, None;
      }
    }

    /** `handleSubmit`. A title that is blank after trimming raises the error toast and sends
        nothing. Otherwise a task with a non-empty id is updated and any other is inserted
        with the current time in milliseconds as its order. Returns the write, whether the
        dialog closes, and the error toast text if any; loading ends cleared. */
    method Submit(existing: Option<Task>, projectId: string, nowIso: string, nowMillis: string, outcome: Outcome)
      returns (write: Option<TaskWrite>, closed: bool, errorToast: Option<string>)
      modifies this
      ensures title == old(title) && description == old(description) && status == old(status)
      ensures priority == old(priority) && assignedToId == old(assignedToId)
      ensures IsBlank(title) ==> write.None? && !closed && errorToast == Some(BlankTitleError) && loading == old(loading)
      ensures !IsBlank(title) ==>
        !loading && write.Some?
        && write.value.data == TaskData(title, description, status, priority, assignedToId, nowIso)
        && (existing.Some? && existing.value.id != [] ==> write.value == UpdateTask(existing.value.id, write.value.data))
        && (existing.None? || existing.value.id == [] ==>
              write.value == InsertTask(write.value.data, projectId, nowMillis))
        && closed == outcome.Ok?
        && errorToast == (if outcome.Ok? then None else Some(if outcome.message == [] then SubmitFailed else outcome.message))
    {
      write, closed, errorToast := None, false, None;
      if IsBlank(title) {
        errorToast := Some(BlankTitleError);
        return;
      }
      loading := true;
      var data := TaskData(title, description, status, priority, assignedToId, nowIso);
      if existing.Some? && existing.value.id != [] {
        write := Some(UpdateTask(existing.value.id, data));
      } else {
        write := Some(InsertTask(data, projectId, nowMillis));
      }
      if outcome.Ok? {
        closed := true;
      } else {
        errorToast := Some(if outcome.message == [] then SubmitFailed else outcome.message);
      }
      loading := false;
    }

    /** `handleDelete`: nothing without an existing task id and delete permission, or when
        the confirmation is declined; otherwise the delete is sent, a success closes and a
        failure raises the fixed error toast. */
    method Delete(existing: Option<Task>, p: Option<TaskPermissions>, confirmed: bool, outcome: Outcome)
      returns (deletedId: Option<string>, closed: bool, errorToast: Option<string>)
      modifies this
      ensures title == old(title) && description == old(description) && status == old(status)
      ensures priority == old(priority) && assignedToId == old(assignedToId)
      ensures existing.None? || existing.value.id == [] || !CanDelete(p) || !confirmed ==>
        deletedId.None? && !closed && errorToast.None? && loading == old(loading)
      ensures existing.Some? && existing.value.id != [] && CanDelete(p) && confirmed ==>
        deletedId == Some(existing.value.id) && closed == outcome.Ok? && !loading
        && errorToast == (if outcome.Ok? then None else Some(DeleteFailed))
    {
      deletedId, closed, errorToast := None, false, None;
      if existing.None? || existing.value.id == [] || !CanDelete(p) {
        return;
      }
      if !confirmed {
        return;
      }
      loading := true;
      deletedId := Some(existing.value.id);
      closed := outcome.Ok?;
      if !outcome.Ok? {
        errorToast := Some(DeleteFailed);
      }
      loading := false;
    }
  }
}
