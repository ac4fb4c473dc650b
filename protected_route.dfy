/**
 * The route guard (src/components/ProtectedRoute.jsx): from the signed-in user and the
 * route's required role to one decision, made only once the authentication context has
 * finished loading.
 */
module ProtectedRoute {
  import opened Wrappers
  import opened Docs

  /** The `requiredRole` prop: absent, one role, or a list of roles. */
  datatype RequiredRole = NoRole | Role(r: string) | Roles(rs: seq<string>)

  const AdminDenied := "Access denied: Insufficient permissions"
  const LoginDenied := "Access denied: Please log in with appropriate permissions"

  /**
   * What the guard does: wait while loading, send the visitor elsewhere (replacing the
   * history entry or carrying a message), or let the route render.
   */
  datatype Decision =
    | Wait
    | Redirect(path: string, message: Option<string>, replace: bool)
    | Grant

  /** `if (requiredRole)`: a role is required unless absent or the empty string; a list always counts. */
  predicate RoleGiven(rr: RequiredRole) {
    match rr
    case NoRole => false
    case Role(r) => r != ""
    case Roles(_) => true
  }

  /** `Array.isArray(requiredRole) ? requiredRole : [requiredRole]` */
  function AllowedRoles(rr: RequiredRole): (roles: seq<string>)
    requires RoleGiven(rr)
    ensures forall r :: r in roles <==> (rr.Role? && r == rr.r) || (rr.Roles? && r in rr.rs)
    ensures rr.Role? ==> |roles| == 1
  {
    if rr.Roles? then rr.rs else [rr.r]
  }

  /** `allowedRoles.includes(currentUser.category)`: only a string category can match. */
  predicate Allowed(user: Doc, roles: seq<string>) {
    Category in user && user[Category].Str? && user[Category].s in roles
  }

  /** The guard's decision. */
  function Decide(loading: bool, currentUser: Option<Doc>, rr: RequiredRole): (d: Decision)
    ensures d == Grant ==> currentUser.Some? && (RoleGiven(rr) ==> Allowed(currentUser.value, AllowedRoles(rr)))
    ensures !loading && currentUser.Some? && !RoleGiven(rr) ==> d == Grant
  {
    if loading then Wait
    else if currentUser.None? then
      Redirect(if rr == Role("webmaster") then "/admin/login" else "/login", None, true)
    else if RoleGiven(rr) && !Allowed(currentUser.value, AllowedRoles(rr)) then
      if "webmaster" in AllowedRoles(rr) then Redirect("/admin/users", Some(AdminDenied), false)
      else Redirect("/login", Some(LoginDenied), false)
    else Grant
  }

  /** While loading nothing is decided. */
  lemma WaitsWhileLoading(currentUser: Option<Doc>, rr: RequiredRole)
    ensures Decide(true, currentUser, rr) == Wait
    ensures Decide(false, currentUser, rr) != Wait
  {
  }

  /**
   * Without a user the visitor goes to a sign-in page: the admin one exactly when the
   * required role is the single string `webmaster`, not a list holding it.
   */
  lemma NoUserSignsIn(rr: RequiredRole)
    ensures var d := Decide(false, None, rr);
      d.Redirect? && d.replace && d.message.None?
      && (d.path == "/admin/login" <==> rr == Role("webmaster"))
      && (d.path != "/admin/login" ==> d.path == "/login")
    ensures Decide(false, None, Roles(["webmaster"])).path == "/login"
  {
  }

  /**
   * A signed-in user whose category is not allowed is refused: sent to the user console
   * when the route allows webmasters, otherwise to the sign-in page.
   */
  lemma WrongCategoryRefused(user: Doc, rr: RequiredRole)
    requires RoleGiven(rr) && !Allowed(user, AllowedRoles(rr))
    ensures var d := Decide(false, Some(user), rr);
      d.Redirect? && !d.replace
      && (("webmaster" in AllowedRoles(rr)) ==> d == Redirect("/admin/users", Some(AdminDenied), false))
      && (("webmaster" !in AllowedRoles(rr)) ==> d == Redirect("/login", Some(LoginDenied), false))
  {
  }

  /** Access is granted exactly to a signed-in user when no role is required or the category is allowed. */
  lemma GrantedIff(loading: bool, currentUser: Option<Doc>, rr: RequiredRole)
    ensures Decide(loading, currentUser, rr) == Grant <==>
      !loading && currentUser.Some? && (!RoleGiven(rr) || Allowed(currentUser.value, AllowedRoles(rr)))
  {
  }

  /** A webmaster-only route is only ever granted to a webmaster; a list of roles admits each of them. */
  lemma RoleRoutes(user: Doc, rs: seq<string>)
    ensures Decide(false, Some(user), Role("webmaster")) == Grant <==> HasStr(user, Category, "webmaster")
    ensures Decide(false, Some(user), Roles(rs)) == Grant <==> (exists r :: r in rs && HasStr(user, Category, r))
  {
  }

  /** What the guard shows: a spinner while loading, then the route only if the last decision granted it. */
  datatype View = Spinner | Children | Nothing

  function Render(loading: bool, isAuthorized: bool): (v: View)
    ensures v == Spinner <==> loading
    ensures v == Children <==> !loading && isAuthorized
  {
    if loading then Spinner else if isAuthorized then Children else Nothing
  }

  /**
   * The authorised flag after the effect: unchanged while loading, otherwise whether the
   * decision granted access.
   */
  function AuthorizedAfter(isAuthorized: bool, loading: bool, currentUser: Option<Doc>, rr: RequiredRole): (a: bool)
    ensures loading ==> a == isAuthorized
    ensures !loading ==> (a <==> Decide(loading, currentUser, rr) == Grant)
  {
    match Decide(loading, currentUser, rr)
    case Wait => isAuthorized
    case Grant => true
    case Redirect(_, _, _) => false
  }

  /** Once the effect has run after loading, the route renders exactly when access was granted. */
  lemma RendersOnlyWhenGranted(isAuthorized: bool, currentUser: Option<Doc>, rr: RequiredRole)
    ensures Render(false, AuthorizedAfter(isAuthorized, false, currentUser, rr)) == Children <==>
      Decide(false, currentUser, rr) == Grant
  {
  }
}
