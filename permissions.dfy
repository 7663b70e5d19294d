/** The role a user holds in a project and the eight permission flags it grants
    (lib/hooks/use-project-permissions.ts). */
module ProjectPermissions {
  import opened Wrappers

  datatype Permissions = Permissions(
    canEditProject: bool,
    canDeleteProject: bool,
    canManageMembers: bool,
    canCreateTasks: bool,
    canEditTasks: bool,
    canDeleteTasks: bool,
    canAssignTasks: bool,
    canComment: bool)

  const NoPermissions := Permissions(false, false, false, false, false, false, false, false)

  const AllPermissions := Permissions(true, true, true, true, true, true, true, true)

  /** The role strings the table recognises; any other string, and no role, grants nothing. */
  const Owner := "OWNER"
  const Admin := "ADMIN"
  const Member := "MEMBER"
  const Viewer := "VIEWER"

  /** The role-to-flags table, stated flag by flag: which roles hold each flag. */
  function PermissionsFor(role: Option<string>): (p: Permissions)
    ensures p.canDeleteProject <==> role == Some(Owner)
    ensures p.canEditProject <==> role == Some(Owner) || role == Some(Admin)
    ensures p.canManageMembers <==> role == Some(Owner) || role == Some(Admin)
    ensures p.canDeleteTasks <==> role == Some(Owner) || role == Some(Admin)
    ensures p.canCreateTasks <==> role == Some(Owner) || role == Some(Admin) || role == Some(Member)
    ensures p.canEditTasks <==> role == Some(Owner) || role == Some(Admin) || role == Some(Member)
    ensures p.canAssignTasks <==> role == Some(Owner) || role == Some(Admin) || role == Some(Member)
    ensures p.canComment <==> role == Some(Owner) || role == Some(Admin) || role == Some(Member) || role == Some(Viewer)
  {
    if role == Some(Owner) then AllPermissions
    else if role == Some(Admin) then AllPermissions.(canDeleteProject := false)
    else if role == Some(Member) then
      Permissions(false, false, false, true, true, false, true, true)
    else if role == Some(Viewer) then NoPermissions.(canComment := true)
    else NoPermissions
  }

  /** `p` grants nothing that `q` does not. */
  predicate AtMost(p: Permissions, q: Permissions) {
    && (p.canEditProject ==> q.canEditProject)
    && (p.canDeleteProject ==> q.canDeleteProject)
    && (p.canManageMembers ==> q.canManageMembers)
    && (p.canCreateTasks ==> q.canCreateTasks)
    && (p.canEditTasks ==> q.canEditTasks)
    && (p.canDeleteTasks ==> q.canDeleteTasks)
    && (p.canAssignTasks ==> q.canAssignTasks)
    && (p.canComment ==> q.canComment)
  }

  /** The rows of the table: OWNER holds all eight flags, ADMIN all but deleting the project,
      MEMBER exactly creating, editing and assigning tasks and commenting, VIEWER only commenting,
      and anything else nothing. */
  lemma RoleTable(other: Option<string>)
    requires other != Some(Owner) && other != Some(Admin) && other != Some(Member) && other != Some(Viewer)
    ensures PermissionsFor(Some(Owner)) == AllPermissions
    ensures PermissionsFor(Some(Admin)) == AllPermissions.(canDeleteProject := false)
    ensures PermissionsFor(Some(Member)) == Permissions(false, false, false, true, true, false, true, true)
    ensures PermissionsFor(Some(Viewer)) == NoPermissions.(canComment := true)
    ensures PermissionsFor(other) == NoPermissions
  {
  }

  /** The roles are nested: VIEWER within MEMBER within ADMIN within OWNER, and no role
      below VIEWER grants anything VIEWER lacks. */
  lemma RolesAreMonotone(other: Option<string>)
    ensures AtMost(PermissionsFor(other), PermissionsFor(Some(Owner)))
    ensures AtMost(PermissionsFor(Some(Viewer)), PermissionsFor(Some(Member)))
    ensures AtMost(PermissionsFor(Some(Member)), PermissionsFor(Some(Admin)))
    ensures AtMost(PermissionsFor(Some(Admin)), PermissionsFor(Some(Owner)))
    ensures other != Some(Viewer) && other != Some(Member) && other != Some(Admin) && other != Some(Owner)
            ==> AtMost(PermissionsFor(other), PermissionsFor(Some(Viewer)))
  {
  }

  /** The role `checkRole` settles on: the project's creator is OWNER whatever the membership
      table says; otherwise the member row's role, or none when there is no row or the
      lookup reported an error. */
  function DerivedRole(userId: string, creatorId: Option<string>, memberRole: Option<string>, memberError: bool): (r: Option<string>)
    ensures creatorId == Some(userId) ==> r == Some(Owner)
    ensures creatorId != Some(userId) && (memberError || memberRole.None?) ==> r.None?
    ensures creatorId != Some(userId) && !memberError ==> r == memberRole
  {
    if creatorId == Some(userId) then Some(Owner)
    else if memberRole.Some? && !memberError then memberRole
    else None
  }

  /** What the two awaited lookups of `checkRole` produced: an exception, or the project's
      creator (absent when the project row was not found), the member row's role (absent
      when there is no row) and whether the member lookup reported an error. */
  datatype RoleLookup =
    | Threw
    | Answered(creatorId: Option<string>, memberRole: Option<string>, memberError: bool)

  /** The hook's state: the resolved permissions, the role and whether the user owns the project. */
  class PermissionState {
    var permissions: Permissions
    var role: Option<string>
    var isOwner: bool

    constructor ()
      ensures permissions == NoPermissions && role.None? && !isOwner
    {
      permissions := NoPermissions;
      role := None;
      isOwner := false;
    }

    /** `checkRole`. With no user id (absent or empty) the role and ownership are cleared and
        the permissions are left as they were; an exception clears all three; otherwise the
        role is derived and the permissions are built flag by flag from it. */
    method CheckRole(userId: Option<string>, lookup: RoleLookup)
      modifies this
      ensures userId.None? || userId == Some("") ==>
        role.None? && !isOwner && permissions == old(permissions)
      ensures userId.Some? && userId != Some("") && lookup.Threw? ==>
        role.None? && !isOwner && permissions == NoPermissions
      ensures userId.Some? && userId != Some("") && lookup.Answered? ==>
        && isOwner == (lookup.creatorId == userId)
        && role == DerivedRole(userId.value, lookup.creatorId, lookup.memberRole, lookup.memberError)
        && permissions == PermissionsFor(role)
    {
      if userId.None? || userId.value == "" {
        role := None;
        isOwner := false;
        return;
      }
      match lookup
      case Threw =>
        role := None;
        isOwner := false;
        permissions := NoPermissions;
      case Answered(creatorId, memberRole, memberError) =>
        var isProjectOwner := creatorId == userId;
        isOwner := isProjectOwner;
        var currentRole: Option<string> := None;
        if isProjectOwner {
          currentRole := Some(Owner);
        } else if memberRole.Some? && !memberError {
          currentRole := memberRole;
        }
        role := currentRole;
        var newPermissions := NoPermissions;
        if currentRole == Some(Owner) {
          newPermissions := AllPermissions;
        } else if currentRole == Some(Admin) {
          newPermissions := newPermissions.(canEditProject := true);
          newPermissions := newPermissions.(canDeleteProject := false);
          newPermissions := newPermissions.(canManageMembers := true);
          newPermissions := newPermissions.(canCreateTasks := true);
          newPermissions := newPermissions.(canEditTasks := true);
          newPermissions := newPermissions.(canDeleteTasks := true);
          newPermissions := newPermissions.(canAssignTasks := true);
          newPermissions := newPermissions.(canComment := true);
        } else if currentRole == Some(Member) {
          newPermissions := newPermissions.(canCreateTasks := true);
          newPermissions := newPermissions.(canEditTasks := true);
          newPermissions := newPermissions.(canAssignTasks := true);
          newPermissions := newPermissions.(canComment := true);
        } else if currentRole == Some(Viewer) {
          newPermissions := NoPermissions;
          newPermissions := newPermissions.(canComment := true);
        }
        permissions := newPermissions;
    }
  }
}
