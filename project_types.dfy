/** The project and membership records (types/project.ts) as the hooks and modals see them. */
module ProjectTypes {
  import opened Wrappers

  datatype Project = Project(
    id: string,
    name: string,
    description: Option<string>,
    createdById: string,
    createdAt: string,
    updatedAt: string)

  /** The user joined into a membership row. */
  datatype MemberUser = MemberUser(id: string, name: string, email: string, avatarUrl: Option<string>)

  /** A membership as the project page holds it. The role is the stored text, in whatever
      case it was written. `joinedAt` and `user` come from the fetch's shaping and join;
      a membership taken from a change event has neither. */
  datatype ProjectMember = ProjectMember(
    id: string,
    projectId: string,
    userId: string,
    role: string,
    joinedAt: Option<string>,
    user: Option<MemberUser>)

  /** A row of the project_members table as a change event carries it. */
  datatype MemberRow = MemberRow(id: string, projectId: string, userId: string, role: string, createdAt: string)

  function RowAsMember(r: MemberRow): (m: ProjectMember)
    ensures m.id == r.id && m.userId == r.userId && m.role == r.role
    ensures m.joinedAt.None? && m.user.None?
  {
    ProjectMember(r.id, r.projectId, r.userId, r.role, None, None)
  }
}
