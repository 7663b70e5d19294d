/** The dashboard's service (lib/services/dashboard-service.ts): the headline counts over the
    user's projects and their tasks, and the shaping of the user's project list. The two
    database queries are parameters: each arrives as a result that is either its rows or
    the error the service rethrows. */
module Dashboard {
  import opened Wrappers
  import opened Sequences
  import opened TaskTypes

  datatype DashboardStats = DashboardStats(totalProjects: nat, totalTasks: nat, completedTasks: nat, inProgressTasks: nat)

  /** `getDashboardStats`: project ids, then the status text of every task in those
      projects. A failed query is rethrown; the task query is only made once the project
      query has succeeded, so its error cannot mask the project error. */
  function DashboardStatsOf<E>(projects: Result<seq<string>, E>, taskStatuses: Result<seq<string>, E>): (r: Result<DashboardStats, E>)
    ensures projects.Failure? ==> r == Failure(projects.error)
    ensures projects.Success? && taskStatuses.Failure? ==> r == Failure(taskStatuses.error)
    ensures projects.Success? && taskStatuses.Success? ==>
      r.Success? && r.value.totalProjects == |projects.value| && r.value.totalTasks == |taskStatuses.value|
      && r.value.completedTasks == Count(taskStatuses.value, StatusWire(Done))
      && r.value.inProgressTasks == Count(taskStatuses.value, StatusWire(InProgress))
  {
    match projects
    case Failure(e) => Failure(e)
    case Success(ps) =>
      match taskStatuses
      case Failure(e) => Failure(e)
      case Success(ts) =>
        Success(DashboardStats(|ps|, |ts|, Count(ts, StatusWire(Done)), Count(ts, StatusWire(InProgress))))
  }

  /** Two distinct statuses can never be counted for the same row, so the completed and
      in-progress counts together never exceed the number of tasks. */
  lemma {:induction false} TwoCountsBounded(s: seq<string>, a: string, b: string)
    requires a != b
    ensures Count(s, a) + Count(s, b) <= |s|
    decreases |s|
  {
    if s != [] {
      TwoCountsBounded(s[1..], a, b);
    }
  }

  lemma DashboardCountsBounded<E>(projects: Result<seq<string>, E>, taskStatuses: Result<seq<string>, E>)
    requires DashboardStatsOf(projects, taskStatuses).Success?
    ensures var st := DashboardStatsOf(projects, taskStatuses).value;
      st.completedTasks + st.inProgressTasks <= st.totalTasks
  {
    TwoCountsBounded(taskStatuses.value, StatusWire(Done), StatusWire(InProgress));
  }

  /** The owner or a user joined into a membership, as the project query selects it. */
  datatype UserRef = UserRef(id: string, name: string, avatarUrl: Option<string>)

  /** A membership row as the query returns it (`extra` stands for any further column the
      row may carry), and as the dashboard keeps it. */
  datatype QueryMember = QueryMember(id: string, role: string, user: Option<UserRef>, extra: seq<(string, string)>)
  datatype MemberRef = MemberRef(id: string, role: string, user: Option<UserRef>)

  /** A project row with its joined owner and memberships; `columns` stands for the
      project's own columns, which the spread copies unchanged. */
  datatype QueryProject = QueryProject(columns: seq<(string, string)>, owner: Option<UserRef>, members: seq<QueryMember>)
  datatype UserProject = UserProject(columns: seq<(string, string)>, owner: Option<UserRef>, members: seq<MemberRef>)

  function ProjectMemberRef(m: QueryMember): MemberRef {
    MemberRef(m.id, m.role, m.user)
  }

  function ShapeProject(p: QueryProject): UserProject {
    UserProject(p.columns, p.owner, Map(ProjectMemberRef, p.members))
  }

  /** `getUserProjects`: every project kept, in the query's order, with each membership
      cut down to its id, role and user; a failed query is rethrown. */
  function UserProjects<E>(projects: Result<seq<QueryProject>, E>): (r: Result<seq<UserProject>, E>)
    ensures projects.Failure? <==> r.Failure?
    ensures projects.Failure? ==> r.error == projects.error
    ensures projects.Success? ==> |r.value| == |projects.value|
    ensures projects.Success? ==> forall i :: 0 <= i < |r.value| ==>
              r.value[i].columns == projects.value[i].columns && r.value[i].owner == projects.value[i].owner
              && |r.value[i].members| == |projects.value[i].members|
    ensures projects.Success? ==> forall i, j :: 0 <= i < |r.value| && 0 <= j < |r.value[i].members| ==>
              var m := projects.value[i].members[j];
              r.value[i].members[j] == MemberRef(m.id, m.role, m.user)
  {
    match projects
    case Failure(e) => Failure(e)
    case Success(ps) => Success(Map(ShapeProject, ps))
  }
}
