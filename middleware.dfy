/** The request middleware (middleware.ts): provisioning of a `users` row for a signed-in
    user who has none, and the route guard. The session and the two `users` lookups are
    parameters; a lookup is either whether a row was found or the error it reported. */
module Middleware {
  import opened Wrappers

  /** The session's user: id, email and the metadata fields the middleware reads. */
  datatype SessionUser = SessionUser(id: string, email: Option<string>, fullName: Option<string>, avatarUrl: Option<string>)

  /** The row inserted into `users`. */
  datatype NewUser = NewUser(id: string, email: Option<string>, name: Option<string>, avatarUrl: Option<string>)

  /** `s.split('@')[0]`: everything before the first '@', or all of `s` when it has none. */
  function BeforeAt(s: string): (r: string)
    ensures r <= s && '@' !in r
    ensures r == s || s[|r|] == '@'
    decreases |s|
  {
    if s == [] || s[0] == '@' then [] else [s[0]] + BeforeAt(s[1..])
  }

  /** `full_name || email?.split('@')[0]`: the full name unless it is missing or empty,
      otherwise the part of the email before '@', and nothing when there is no email. */
  function DisplayName(u: SessionUser): (r: Option<string>)
    ensures u.fullName.Some? && u.fullName.value != "" ==> r == u.fullName
    ensures (u.fullName.None? || u.fullName.value == "") && u.email.Some? ==>
      r.Some? && r.value <= u.email.value && '@' !in r.value
    ensures (u.fullName.None? || u.fullName.value == "") && u.email.None? ==> r.None?
  {
    if u.fullName.Some? && u.fullName.value != "" then u.fullName
    else if u.email.Some? then Some(BeforeAt(u.email.value))
    else None
  }

  /** An email without '@' is its own display name; with one, the name stops right before
      its first '@'. */
  lemma {:induction false} BeforeAtExact(s: string, i: nat)
    requires i <= |s| && '@' !in s[..i] && (i == |s| || s[i] == '@')
    ensures BeforeAt(s) == s[..i]
    decreases |s|
  {
    if s != [] && s[0] != '@' {
      assert i > 0 by { if i == 0 { assert s[i] == '@'; } }
      assert s[1..][..i - 1] == s[..i][1..];
      assert s[..i][0] == s[0];
      BeforeAtExact(s[1..], i - 1);
    }
  }

  /** The row to insert, if any: only for a session whose id lookup succeeded without a row
      and whose email lookup then also succeeded without a row. A failed lookup is only
      logged, and the request goes on. */
  function Provision<E>(session: Option<SessionUser>, byId: Result<bool, E>, byEmail: Result<bool, E>): (r: Option<NewUser>)
    ensures r.Some? <==> session.Some? && byId == Success(false) && byEmail == Success(false)
    ensures r.Some? ==>
      r.value == NewUser(session.value.id, session.value.email, DisplayName(session.value), session.value.avatarUrl)
  {
    match session
    case None => None
    case Some(u) =>
      match byId
      case Failure(_) => None
      case Success(found) =>
        if found then None
        else match byEmail
          case Failure(_) => None
          case Success(emailFound) =>
            if emailFound then None
            else Some(NewUser(u.id, u.email, DisplayName(u), u.avatarUrl))
  }

  /** What the middleware answers: pass the request on, or redirect to a path. */
  datatype Response = Next | Redirect(location: string)

  const DashboardPrefix := "/dashboard"
  const AuthPrefix := "/auth"
  const LoginPath := "/auth/login"

  /** The route guard: dashboard pages need a session, auth pages are closed to one. */
  function RouteDecision(hasSession: bool, path: string): (r: Response)
    ensures r == Redirect(LoginPath) <==> !hasSession && DashboardPrefix <= path
    ensures r == Redirect(DashboardPrefix) <==> hasSession && AuthPrefix <= path
    ensures r == Next <==> !(!hasSession && DashboardPrefix <= path) && !(hasSession && AuthPrefix <= path)
  {
    if !hasSession && DashboardPrefix <= path then Redirect(LoginPath)
    else if hasSession && AuthPrefix <= path then Redirect(DashboardPrefix)
    else Next
  }

  /** The guard never sends a request back to where it came from: the login redirect leaves
      the dashboard, and the dashboard redirect leaves the auth pages. */
  lemma RedirectsLeaveTheirPrefix(hasSession: bool, path: string)
    ensures RouteDecision(hasSession, path) == Redirect(LoginPath) ==> !(DashboardPrefix <= LoginPath)
    ensures RouteDecision(hasSession, path) == Redirect(DashboardPrefix) ==> !(AuthPrefix <= DashboardPrefix)
    ensures RouteDecision(true, LoginPath) == Redirect(DashboardPrefix) && RouteDecision(false, LoginPath) == Next
  {
    assert LoginPath[1] != DashboardPrefix[1];
    assert DashboardPrefix[1] != AuthPrefix[1];
    assert LoginPath[..|AuthPrefix|] == AuthPrefix;
  }
}
