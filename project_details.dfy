/** The project-details hook (lib/hooks/use-project-details.ts): the project, its tasks and
    its members, loaded once and then kept in step with change events, and the task move
    that asks the service to change a status before changing it locally. */
module ProjectDetails {
  import opened Wrappers
  import opened Sequences
  import opened TaskTypes
  import opened ProjectTypes

  /** `list.map(x => key(x) === id ? v : x)`: every element with the id becomes `v`. */
  function ReplaceById<T>(s: seq<T>, key: T -> string, id: string, v: T): (r: seq<T>)
    ensures |r| == |s|
    ensures forall i :: 0 <= i < |s| && key(s[i]) != id ==> r[i] == s[i]
    ensures forall i :: 0 <= i < |s| && key(s[i]) == id ==> r[i] == v
  {
    Map((x: T) => if key(x) == id then v else x, s)
  }

  /** A replacement for an id no element has changes nothing. */
  lemma ReplaceUnknownIdIsNoOp<T>(s: seq<T>, key: T -> string, id: string, v: T)
    requires forall i :: 0 <= i < |s| ==> key(s[i]) != id
    ensures ReplaceById(s, key, id, v) == s
  {
  }

  /** Replacing with a value that carries the id twice is replacing it once. */
  lemma ReplaceIdempotent<T>(s: seq<T>, key: T -> string, id: string, v: T)
    requires key(v) == id
    ensures ReplaceById(ReplaceById(s, key, id, v), key, id, v) == ReplaceById(s, key, id, v)
  {
  }

  /** `list.filter(x => key(x) !== id)`. */
  function RemoveById<T>(s: seq<T>, key: T -> string, id: string): (r: seq<T>)
    ensures forall i :: 0 <= i < |r| ==> r[i] in s && key(r[i]) != id
    ensures forall i :: 0 <= i < |s| && key(s[i]) != id ==> s[i] in r
    ensures |r| <= |s|
  {
    Filter((x: T) => key(x) != id, s)
  }

  /** A removal for an id no element has changes nothing. */
  lemma RemoveUnknownIdIsNoOp<T>(s: seq<T>, key: T -> string, id: string)
    requires forall i :: 0 <= i < |s| ==> key(s[i]) != id
    ensures RemoveById(s, key, id) == s
  {
    FilterKeepsAll((x: T) => key(x) != id, s);
  }

  /** Removal keeps the survivors in their order: removing from two halves and joining
      them equals removing from the whole. */
  lemma RemoveKeepsOrder<T>(a: seq<T>, b: seq<T>, key: T -> string, id: string)
    ensures RemoveById(a + b, key, id) == RemoveById(a, key, id) + RemoveById(b, key, id)
  {
    FilterAppend((x: T) => key(x) != id, a, b);
  }

  function TaskId(t: Task): string { t.id }
  function MemberId(m: ProjectMember): string { m.id }

  /** A change event on a table: INSERT and UPDATE carry the new row, DELETE the old id. */
  datatype Change<R> = Insert(newRow: R) | Update(updatedRow: R) | Delete(oldId: string)

  datatype ChangeKind = InsertKind | UpdateKind | DeleteKind

  /** A change event on the projects table; `newProject` is absent when it carries no new row. */
  datatype ProjectChange = ProjectChange(kind: ChangeKind, newProject: Option<Project>)

  /** The loaded project, tasks and members, as `getProjectDetails` returns them. */
  datatype Details = Details(project: Project, tasks: seq<Task>, members: seq<ProjectMember>)

  const LoadError := "Beklenmeyen bir hata oluştu."
  const DeleteError := "Proje silinirken bir hata oluştu."

  class ProjectDetailsState {
    var project: Option<Project>
    var tasks: seq<Task>
    var members: seq<ProjectMember>
    var loading: bool
    var error: Option<string>
    var deleteLoading: bool

    /** Nothing loaded yet, loading. */
    constructor()
      ensures project.None? && tasks == [] && members == []
      ensures loading && error.None? && !deleteLoading
    {
      project, tasks, members := None, [], [];
      loading, error, deleteLoading := true, None, false;
    }

    /** `fetchProjectDetails`: success stores all three; failure stores the error message
        and keeps the old data. Either way loading ends; a success does not clear an
        earlier error. */
    method FetchProjectDetails(result: Result<Details, string>)
      modifies this
      ensures !loading && deleteLoading == old(deleteLoading)
      ensures result.Success? ==>
        project == Some(result.value.project) && tasks == result.value.tasks
        && members == result.value.members && error == old(error)
      ensures result.Failure? ==>
        project == old(project) && tasks == old(tasks) && members == old(members)
        && error == Some(LoadError)
    {
      match result {
        case Success(d) =>
          project := Some(d.project);
          tasks := d.tasks;
          members := d.members;
          loading := false;
        case Failure(_) =>
          error := Some(LoadError);
          loading := false;
      }
    }

    /** `handleTaskMove`: after the service call succeeds, every task with the id gets the
        new status; when it fails nothing changes. */
    method HandleTaskMove(taskId: string, newStatus: TaskStatus, remoteOk: bool)
      modifies this
      ensures members == old(members) && project == old(project) && loading == old(loading)
      ensures error == old(error) && deleteLoading == old(deleteLoading)
      ensures |tasks| == |old(tasks)|
      ensures !remoteOk ==> tasks == old(tasks)
      ensures remoteOk ==> forall i :: 0 <= i < |tasks| ==>
        if old(tasks)[i].id == taskId then tasks[i] == old(tasks)[i].(status := newStatus)
        else tasks[i] == old(tasks)[i]
    {
      if remoteOk {
        tasks := Map((t: Task) => if t.id == taskId then t.(status := newStatus) else t, tasks);
      }
    }

    /** `handleProjectDelete`: without a project nothing happens; otherwise the delete is
        attempted, a failure stores the message, and the delete flag ends cleared. Returns
        whether the page navigates to the dashboard. */
    method HandleProjectDelete(remoteOk: bool) returns (navigate: bool)
      modifies this
      ensures project == old(project) && tasks == old(tasks) && members == old(members)
      ensures loading == old(loading)
      ensures project.None? ==> !navigate && error == old(error) && deleteLoading == old(deleteLoading)
      ensures project.Some? ==>
                !deleteLoading && navigate == remoteOk
                && error == (if remoteOk then old(error) else Some(DeleteError))
    {
      navigate := false;
      if project.None? {
        return;
      }
      deleteLoading := true;
      if remoteOk {
        navigate := true;
      } else {
        error := Some(DeleteError);
      }
      deleteLoading := false;
    }

    /** `handleRealtimeTaskUpdate`: INSERT appends the row, UPDATE replaces every task with
        its id by the row (dropping the joined assignee), DELETE drops every task with the id. */
    method OnTaskChange(e: Change<TaskRow>)
      modifies this
      ensures members == old(members) && project == old(project)
      ensures loading == old(loading) && error == old(error) && deleteLoading == old(deleteLoading)
      ensures e.Insert? ==> tasks == old(tasks) + [RowAsTask(e.newRow)]
      ensures e.Update? ==> tasks == ReplaceById(old(tasks), TaskId, e.updatedRow.id, RowAsTask(e.updatedRow))
      ensures e.Delete? ==> tasks == RemoveById(old(tasks), TaskId, e.oldId)
    {
      match e {
        case Insert(row) => tasks := tasks + [RowAsTask(row)];
        case Update(row) => tasks := ReplaceById(tasks, TaskId, row.id, RowAsTask(row));
        case Delete(id) => tasks := RemoveById(tasks, TaskId, id);
      }
    }

    /** `handleRealtimeMemberUpdate`: the same three rules on the member list. */
    method OnMemberChange(e: Change<MemberRow>)
      modifies this
      ensures tasks == old(tasks) && project == old(project)
      ensures loading == old(loading) && error == old(error) && deleteLoading == old(deleteLoading)
      ensures e.Insert? ==> members == old(members) + [RowAsMember(e.newRow)]
      ensures e.Update? ==> members == ReplaceById(old(members), MemberId, e.updatedRow.id, RowAsMember(e.updatedRow))
      ensures e.Delete? ==> members == RemoveById(old(members), MemberId, e.oldId)
    {
      match e {
        case Insert(row) => members := members + [RowAsMember(row)];
        case Update(row) => members := ReplaceById(members, MemberId, row.id, RowAsMember(row));
        case Delete(id) => members := RemoveById(members, MemberId, id);
      }
    }

    /** `handleRealtimeProjectUpdate`: an UPDATE or INSERT that carries a new row replaces
        the project; anything else leaves it. */
    method OnProjectChange(e: ProjectChange)
      modifies this
      ensures tasks == old(tasks) && members == old(members)
      ensures loading == old(loading) && error == old(error) && deleteLoading == old(deleteLoading)
      ensures (e.kind == UpdateKind || e.kind == InsertKind) && e.newProject.Some? ==> project == e.newProject
      ensures e.kind == DeleteKind || e.newProject.None? ==> project == old(project)
    {
      if (e.kind == UpdateKind || e.kind == InsertKind) && e.newProject.Some? {
        project := e.newProject;
      }
    }
  }
}
