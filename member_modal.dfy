/** The member dialog (components/modals/member-modal.tsx): choosing a user and a role to
    add to the project or to change, and removing a member, with the duplicate-membership
    and last-admin refusals. Remote answers are parameters; the requests sent are results. */
module MemberModal {
  import opened Wrappers
  import opened Sequences

  datatype User = User(id: string, name: string, email: string)

  /** The member being edited, as the dialog receives it. */
  datatype ExistingMember = ExistingMember(id: string, role: string, userId: string)

  /** How a remote call ended; a failure carries the error's message (possibly empty). */
  datatype Outcome = Ok | Failed(message: string)

  /** What the dialog asks of the project_members table, in the order it asks. */
  datatype MemberRequest =
    | UpdateRole(memberId: string, projectId: string, role: string)
    | FindMembership(projectId: string, userId: string)
    | InsertMember(projectId: string, userId: string, role: string)
    | CountAdmins(projectId: string)
    | DeleteMember(memberId: string, projectId: string)

  const DefaultRole := "member"
  const AdminRole := "admin"
  const FillAllError := "Lütfen tüm alanları doldurun."
  const AlreadyMemberError := "Bu kullanıcı zaten projede üye."
  const LastAdminError := "Projenin son admin üyesini silemezsiniz."
  const SubmitFailed := "İşlem sırasında bir hata oluştu."
  const DeleteFailed := "Üye silinirken bir hata oluştu."
  const UsersFailed := "Kullanıcılar yüklenirken bir hata oluştu."

  /** `error.message || fallback`. */
  function ErrorText(message: string, fallback: string): (r: string)
    ensures message != [] ==> r == message
    ensures message == [] ==> r == fallback
  {
    if message == [] then fallback else message
  }

  /** `availableUsers`: users not yet in the project, plus the user of the member being edited. */
  function AvailableUsers(users: seq<User>, memberUserIds: seq<string>, existing: Option<ExistingMember>): (r: seq<User>)
    ensures forall u :: u in r <==>
      u in users && (u.id !in memberUserIds || (existing.Some? && u.id == existing.value.userId))
  {
    Filter((u: User) => u.id !in memberUserIds || (existing.Some? && u.id == existing.value.userId), users)
  }

  /** When adding, no offered user is already a member; when editing, the edited member's
      user stays on offer. */
  lemma AvailableUsersExcludeMembers(users: seq<User>, memberUserIds: seq<string>, e: ExistingMember, u: User)
    ensures u in AvailableUsers(users, memberUserIds, None) ==> u.id !in memberUserIds
    ensures u in users && u.id == e.userId ==> u in AvailableUsers(users, memberUserIds, Some(e))
  {
  }

  class MemberDialog {
    var users: seq<User>
    var selectedUserId: string
    var selectedRole: string
    var loading: bool
    var error: Option<string>
    var isDeleting: bool

    /** Every field at its reset value and no users loaded. */
    predicate IsReset()
      reads this
    {
      selectedUserId == [] && selectedRole == DefaultRole && error.None? && !loading && !isDeleting
    }

    constructor()
      ensures IsReset() && users == []
    {
      users := [];
      selectedUserId, selectedRole := [], DefaultRole;
      loading, error, isDeleting := false, None, false;
    }

    /** The open effect's selection: the edited member's user and role, or none and 'member'. */
    method Open(existing: Option<ExistingMember>)
      modifies this
      ensures existing.Some? ==> selectedUserId == existing.value.userId && selectedRole == existing.value.role
      ensures existing.None? ==> selectedUserId == [] && selectedRole == DefaultRole
      ensures users == old(users) && loading == old(loading) && error == old(error) && isDeleting == old(isDeleting)
    {
      if existing.Some? {
        selectedUserId := existing.value.userId;
        selectedRole := existing.value.role;
      } else {
        selectedUserId := [];
        selectedRole := DefaultRole;
      }
    }

    /** `fetchUsers`: the member user ids and all users, or an error, which is shown. */
    method FetchUsers(existing: Option<ExistingMember>, fetched: Result<(seq<string>, seq<User>), string>)
      modifies this
      ensures fetched.Success? ==> users == AvailableUsers(fetched.value.1, fetched.value.0, existing) && error == old(error)
      ensures fetched.Failure? ==> users == old(users) && error == Some(UsersFailed)
      ensures selectedUserId == old(selectedUserId) && selectedRole == old(selectedRole)
      ensures loading == old(loading) && isDeleting == old(isDeleting)
    {
      match fetched {
        case Success(p) => users := AvailableUsers(p.1, p.0, existing);
        case Failure(_) => error := Some(UsersFailed);
      }
    }

    /** `handleClose`: every field back to its reset value. */
    method Close()
      modifies this
      ensures IsReset() && users == old(users)
    {
      selectedUserId := [];
      selectedRole := DefaultRole;
      error := None;
      loading := false;
      isDeleting := false;
    }

    /** `handleSubmit`. Without a user or a role only the error is set. Editing sends the role
        change for that member in this project. Adding first looks for a membership of the user
        and, when one exists, refuses with an error and inserts nothing. A success closes the
        dialog; a failure shows the error's message. The guard returns before loading is
        touched; past it, loading ends cleared. */
    method Submit(projectId: string, existing: Option<ExistingMember>, updated: Outcome,
                  found: Result<bool, string>, inserted: Outcome)
      returns (requests: seq<MemberRequest>, succeeded: bool)
      modifies this
      ensures users == old(users)
      ensures old(selectedUserId) == [] || old(selectedRole) == [] ==>
        requests == [] && !succeeded && error == Some(FillAllError) && loading == old(loading)
        && selectedUserId == old(selectedUserId) && selectedRole == old(selectedRole) && isDeleting == old(isDeleting)
      ensures old(selectedUserId) != [] && old(selectedRole) != [] ==> !loading
      ensures succeeded ==> IsReset()
      ensures !succeeded && requests != [] ==>
        error.Some? && selectedUserId == old(selectedUserId) && selectedRole == old(selectedRole)
        && isDeleting == old(isDeleting)
      ensures old(selectedUserId) != [] && old(selectedRole) != [] && existing.Some? ==>
        requests == [UpdateRole(existing.value.id, projectId, old(selectedRole))] && succeeded == updated.Ok?
        && (updated.Failed? ==> error == Some(ErrorText(updated.message, SubmitFailed)))
      ensures old(selectedUserId) != [] && old(selectedRole) != [] && existing.None? ==>
        var check := FindMembership(projectId, old(selectedUserId));
        match found
        case Failure(m) => requests == [check] && !succeeded && error == Some(ErrorText(m, SubmitFailed))
        case Success(true) => requests == [check] && !succeeded && error == Some(AlreadyMemberError)
        case Success(false) =>
          requests == [check, InsertMember(projectId, old(selectedUserId), old(selectedRole))]
          && succeeded == inserted.Ok?
          && (inserted.Failed? ==> error == Some(ErrorText(inserted.message, SubmitFailed)))
    {
      requests, succeeded := [], false;
      if selectedUserId == [] || selectedRole == [] {
        error := Some(FillAllError);
        return;
      }
      loading := true;
      error := None;
      if existing.Some? {
        requests := [UpdateRole(existing.value.id, projectId, selectedRole)];
        if updated.Failed? {
          error := Some(ErrorText(updated.message, SubmitFailed));
          loading := false;
          return;
        }
      } else {
        requests := [FindMembership(projectId, selectedUserId)];
        match found {
          case Failure(m) =>
            error := Some(ErrorText(m, SubmitFailed));
            loading := false;
            return;
          case Success(exists_) =>
            if exists_ {
              error := Some(AlreadyMemberError);
              loading := false;
              return;
            }
        }
        requests := requests + [InsertMember(projectId, selectedUserId, selectedRole)];
        if inserted.Failed? {
          error := Some(ErrorText(inserted.message, SubmitFailed));
          loading := false;
          return;
        }
      }
      succeeded := true;
      Close();
      loading := false;
    }

    /** `handleDelete`. Without a member nothing happens. A member whose role is exactly
        'admin' is removed only when the project does not have exactly one 'admin' row;
        other roles skip the count. A success closes the dialog; the deleting flag always
        ends cleared. */
    method Delete(projectId: string, existing: Option<ExistingMember>, adminRows: Result<nat, string>, deleted: Outcome)
      returns (requests: seq<MemberRequest>, succeeded: bool)
      modifies this
      ensures users == old(users)
      ensures existing.None? ==>
        requests == [] && !succeeded && selectedUserId == old(selectedUserId) && selectedRole == old(selectedRole)
        && loading == old(loading) && error == old(error) && isDeleting == old(isDeleting)
      ensures existing.Some? ==> !isDeleting
      ensures succeeded ==> IsReset()
      ensures existing.Some? && !succeeded ==>
        error.Some? && selectedUserId == old(selectedUserId) && selectedRole == old(selectedRole) && loading == old(loading)
      ensures existing.Some? && existing.value.role != AdminRole ==>
        requests == [DeleteMember(existing.value.id, projectId)] && succeeded == deleted.Ok?
        && (deleted.Failed? ==> error == Some(ErrorText(deleted.message, DeleteFailed)))
      ensures existing.Some? && existing.value.role == AdminRole ==>
        var count := CountAdmins(projectId);
        match adminRows
        case Failure(m) => requests == [count] && !succeeded && error == Some(ErrorText(m, DeleteFailed))
        case Success(n) =>
          if n == 1 then requests == [count] && !succeeded && error == Some(LastAdminError)
          else requests == [count, DeleteMember(existing.value.id, projectId)] && succeeded == deleted.Ok?
               && (deleted.Failed? ==> error == Some(ErrorText(deleted.message, DeleteFailed)))
    {
      requests, succeeded := [], false;
      if existing.None? {
        return;
      }
      var member := existing.value;
      isDeleting := true;
      error := None;
      if member.role == AdminRole {
        requests := [CountAdmins(projectId)];
        match adminRows {
          case Failure(m) =>
            error := Some(ErrorText(m, DeleteFailed));
            isDeleting := false;
            return;
          case Success(n) =>
            if n == 1 {
              error := Some(LastAdminError);
              isDeleting := false;
              return;
            }
        }
      }
      requests := requests + [DeleteMember(member.id, projectId)];
      if deleted.Failed? {
        error := Some(ErrorText(deleted.message, DeleteFailed));
        isDeleting := false;
        return;
      }
      succeeded := true;
      Close();
      isDeleting := false;
    }
  }
}
