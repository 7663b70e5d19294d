/** The task dialog of the project page (components/modals/task-modal.tsx): its form fields,
    their reset and population from an existing task, the edit/assign/delete gating by the
    project permissions, and the submit and delete handlers. The clock, the signed-in user
    and remote answers are parameters. */
module TaskDialog {
  import opened Wrappers
  import opened TaskTypes
  import opened ProjectPermissions

  /** `canEdit`: creating is always allowed, editing needs the edit permission. */
  predicate CanEdit(existing: Option<Task>, p: Option<Permissions>) {
    existing.None? || (p.Some? && p.value.canEditTasks)
  }

  /** `canAssign`. */
  predicate CanAssign(p: Option<Permissions>) {
    p.Some? && p.value.canAssignTasks
  }

  /** The delete button is shown for an existing task with the delete permission. */
  predicate DeleteShown(existing: Option<Task>, p: Option<Permissions>) {
    existing.Some? && p.Some? && p.value.canDeleteTasks
  }

  /** The role table decides the gating: an OWNER, ADMIN or MEMBER may edit and assign; a
      VIEWER may only create; only OWNER and ADMIN see the delete button. */
  lemma GatingByRole(existing: Task, role: string)
    ensures CanEdit(Some(existing), Some(PermissionsFor(Some(role)))) <==> role == Owner || role == Admin || role == Member
    ensures CanAssign(Some(PermissionsFor(Some(role)))) <==> role == Owner || role == Admin || role == Member
    ensures DeleteShown(Some(existing), Some(PermissionsFor(Some(role)))) <==> role == Owner || role == Admin
    ensures CanEdit(None, Some(PermissionsFor(Some(role))))
  {
  }

  /** The fields an insert or update sends. */
  datatype TaskData = TaskData(
    title: string, description: string, status: string, priority: string, taskOrder: string,
    projectId: string, assignedToId: Option<string>, createdById: Option<string>, updatedAt: string)

  datatype TaskWrite = UpdateTask(id: string, data: TaskData) | InsertTask(data: TaskData, createdAt: string)

  /** How a remote call ended: success, a thrown `Error` with its message, or any other throw. */
  datatype Outcome = Ok | ThrewError(message: string) | ThrewOther

  const UnexpectedError := "Beklenmeyen bir hata oluştu. Lütfen tekrar deneyin."
  const DeleteError := "Görev silinirken bir hata oluştu."

  function SubmitErrorText(o: Outcome): (r: Option<string>)
    ensures o.Ok? <==> r.None?
    ensures o.ThrewError? ==> r == Some("İşlem hatası: " + o.message)
    ensures o.ThrewOther? ==> r == Some(UnexpectedError)
  {
    match o
    case Ok => None
    case ThrewError(m) => Some("İşlem hatası: " + m)
    case ThrewOther => Some(UnexpectedError)
  }

  class TaskDialogState {
    var title: string
    var description: string
    var status: string
    var priority: string
    var assignedToId: string
    var loading: bool
    var error: Option<string>
    var isDeleteModalOpen: bool
    var deleteLoading: bool

    /** The values `resetForm` gives the form fields. */
    predicate FormIsReset()
      reads this
    {
      title == [] && description == [] && status == "todo" && priority == "medium"
      && assignedToId == [] && error.None?
    }

    constructor()
      ensures FormIsReset() && !loading && !isDeleteModalOpen && !deleteLoading
    {
      title, description, status, priority, assignedToId := [], [], "todo", "medium", [];
      loading, error, isDeleteModalOpen, deleteLoading := false, None, false, false;
    }

    /** `resetForm`: the form fields and the error go back to their reset values. */
    method ResetForm()
      modifies this
      ensures FormIsReset()
      ensures loading == old(loading) && isDeleteModalOpen == old(isDeleteModalOpen)
      ensures deleteLoading == old(deleteLoading)
    {
      title, description, status, priority, assignedToId := [], [], "todo", "medium", [];
      error := None;
    }

    /** The effect run when the task changes: an existing task's title, status and priority,
        its description or '', its assignee's id or ''; without a task the form is reset. */
    method Populate(existing: Option<Task>)
      modifies this
      ensures loading == old(loading) && isDeleteModalOpen == old(isDeleteModalOpen)
      ensures deleteLoading == old(deleteLoading)
      ensures existing.None? ==> FormIsReset()
      ensures existing.Some? ==>
        title == existing.value.title && description == existing.value.description.GetOr([])
        && status == StatusWire(existing.value.status) && priority == PriorityWire(existing.value.priority)
        && assignedToId == (if existing.value.assignedTo.Some? then existing.value.assignedTo.value.id else [])
        && error == old(error)
    {
      match existing {
        case Some(t) =>
          title := t.title;
          description := t.description.GetOr([]);
          status := StatusWire(t.status);
          priority := PriorityWire(t.priority);
          assignedToId := if t.assignedTo.Some? then t.assignedTo.value.id else [];
        case None =>
          ResetForm();
      }
    }

    /** The effect run when the open flag changes: closing resets the form. */
    method OnOpenChange(isOpen: bool)
      modifies this
      ensures !isOpen ==> FormIsReset()
      ensures isOpen ==>
        title == old(title) && description == old(description) && status == old(status)
        && priority == old(priority) && assignedToId == old(assignedToId) && error == old(error)
      ensures loading == old(loading) && isDeleteModalOpen == old(isDeleteModalOpen)
      ensures deleteLoading == old(deleteLoading)
    {
      if !isOpen {
        ResetForm();
      }
    }

    /** `handleSubmit`: sends the form as an update of the existing task or as an insert. An
        edit keeps the task's order key (a new or empty key becomes the current time in
        milliseconds) and an empty assignee is sent as none. The handler itself checks
        neither the title nor the permissions. A success closes the dialog; a failure sets
        the error; loading ends cleared. */
    method Submit(existing: Option<Task>, projectId: string, userId: Option<string>,
                  nowIso: string, nowMillis: string, outcome: Outcome)
      returns (write: TaskWrite, closed: bool)
      modifies this
      ensures title == old(title) && description == old(description) && status == old(status)
      ensures priority == old(priority) && assignedToId == old(assignedToId)
      ensures !loading && isDeleteModalOpen == old(isDeleteModalOpen) && deleteLoading == old(deleteLoading)
      ensures write.data.taskOrder ==
        (if existing.Some? && existing.value.taskOrder != [] then existing.value.taskOrder else nowMillis)
      ensures write.data.assignedToId == (if assignedToId == [] then None else Some(assignedToId))
      ensures write.data.title == title && write.data.description == description
      ensures write.data.status == status && write.data.priority == priority
      ensures write.data.projectId == projectId && write.data.createdById == userId
      ensures write.data.updatedAt == nowIso
      ensures existing.Some? ==> write == UpdateTask(existing.value.id, write.data)
      ensures existing.None? ==> write == InsertTask(write.data, nowIso)
      ensures closed == outcome.Ok? && error == SubmitErrorText(outcome)
    {
      loading := true;
      error := None;
      var order := if existing.Some? && existing.value.taskOrder != [] then existing.value.taskOrder else nowMillis;
      var data := TaskData(title, description, status, priority, order, projectId,
                           if assignedToId == [] then None else Some(assignedToId), userId, nowIso);
      if existing.Some? {
        write := UpdateTask(existing.value.id, data);
      } else {
        write := InsertTask(data, nowIso);
      }
      closed := outcome.Ok?;
      error := SubmitErrorText(outcome);
      loading := false;
    }

    /** The delete button opens the confirmation, and only where it is shown. */
    method RequestDelete(existing: Option<Task>, p: Option<Permissions>)
      modifies this
      ensures isDeleteModalOpen == (old(isDeleteModalOpen) || DeleteShown(existing, p))
      ensures title == old(title) && description == old(description) && status == old(status)
      ensures priority == old(priority) && assignedToId == old(assignedToId) && error == old(error)
      ensures loading == old(loading) && deleteLoading == old(deleteLoading)
    {
      if DeleteShown(existing, p) {
        isDeleteModalOpen := true;
      }
    }

    /** `handleDelete`: a no-op without an existing task; otherwise the delete is sent, a
        success closes the dialog, a failure sets the error, and the confirmation closes. */
    method Delete(existing: Option<Task>, outcome: Outcome) returns (deletedId: Option<string>, closed: bool)
      modifies this
      ensures title == old(title) && description == old(description) && status == old(status)
      ensures priority == old(priority) && assignedToId == old(assignedToId) && loading == old(loading)
      ensures existing.None? ==>
        deletedId.None? && !closed && error == old(error)
        && isDeleteModalOpen == old(isDeleteModalOpen) && deleteLoading == old(deleteLoading)
      ensures existing.Some? ==>
        deletedId == Some(existing.value.id) && closed == outcome.Ok?
        && error == (if outcome.Ok? then old(error) else Some(DeleteError))
        && !isDeleteModalOpen && !deleteLoading
    {
      deletedId, closed := None, false;
      if existing.None? {
        return;
      }
      deleteLoading := true;
      deletedId := Some(existing.value.id);
      if outcome.Ok? {
        closed := true;
      } else {
        error := Some(DeleteError);
      }
      deleteLoading := false;
      isDeleteModalOpen := false;
    }
  }
}
