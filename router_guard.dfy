/**
 * web/src/router/index.ts: the global navigation guard. It titles the page
 * from the route's meta, sends an unauthenticated visitor of a protected
 * route to the login page with the way back in the query, sends a user who
 * lacks every listed permission to the dashboard, keeps a signed-in user off
 * the login page, and lets everything else through, with exactly one call of
 * next per navigation.
 */
module RouterGuard {
  import opened Common

  /** The parts of the target route the guard reads; permissions is None when meta has no array. */
  datatype Route = Route(
    path: string,
    fullPath: string,
    title: Option<string>,
    requiresAuth: bool,
    permissions: Option<seq<string>>)

  /** The argument of the single next call: nothing, or a redirect with an optional return path. */
  datatype Next = Proceed | Redirect(path: string, returnTo: Option<string>)

  const LoginPath := "/login"
  const DashboardPath := "/dashboard"
  const TitleSuffix := " - \U{4EE3}\U{7406}\U{589E}\U{5F3A}\U{5668}"

  /** document.title after the guard: set only for a non-empty meta title. */
  function PageTitle(current: string, to: Route): (t: string)
    ensures to.title.Some? && to.title.value != "" ==> t == to.title.value + TitleSuffix
    ensures to.title.None? || to.title.value == "" ==> t == current
  {
    if to.title.Some? && to.title.value != "" then to.title.value + TitleSuffix else current
  }

  /** Array.prototype.some of the store's hasPermission over the listed permissions. */
  predicate AnyHeld(list: seq<string>, hasPermission: string -> bool)
    ensures AnyHeld(list, hasPermission) <==> exists i :: 0 <= i < |list| && hasPermission(list[i])
    decreases |list|
  {
    if |list| == 0 then false
    else hasPermission(list[0]) || (assert forall i :: 0 < i < |list| ==> list[i] == list[1..][i - 1];
                                    AnyHeld(list[1..], hasPermission))
  }

  /**
   * The decision of beforeEach. `authenticated` is isAuthenticated on entry;
   * `authenticatedAfterCheck` is its value once checkAuth, which the guard
   * awaits only when signed out, has run; `hasPermission` is the store's
   * check.
   */
  function Decide(to: Route, authenticated: bool, authenticatedAfterCheck: bool,
                  hasPermission: string -> bool): (n: Next)
    ensures to.requiresAuth && !authenticated && !authenticatedAfterCheck ==>
      n == Redirect(LoginPath, Some(to.fullPath))
    ensures to.requiresAuth && (authenticated || authenticatedAfterCheck) ==>
      (n == Proceed <==> (to.permissions.None? || exists i :: 0 <= i < |to.permissions.value|
                                                   && hasPermission(to.permissions.value[i])))
    ensures to.requiresAuth && (authenticated || authenticatedAfterCheck) && n != Proceed ==>
      n == Redirect(DashboardPath, None)
    ensures !to.requiresAuth ==> (n != Proceed <==> to.path == LoginPath && authenticated)
    ensures !to.requiresAuth && n != Proceed ==> n == Redirect(DashboardPath, None)
  {
    if to.requiresAuth then
      if !authenticated && !authenticatedAfterCheck then Redirect(LoginPath, Some(to.fullPath))
      else if to.permissions.Some? && !AnyHeld(to.permissions.value, hasPermission) then Redirect(DashboardPath, None)
      else Proceed
    else if to.path == LoginPath && authenticated then Redirect(DashboardPath, None)
    else Proceed
  }

  /** The page whose title the guard sets. */
  class Document {
    var title: string

    constructor (title: string)
      ensures this.title == title
    {
      this.title := title;
    }
  }

  /** beforeEach: set the title, then walk the branches; every redirect returns at once. */
  method BeforeEach(doc: Document, to: Route, authenticated: bool, authenticatedAfterCheck: bool,
                    hasPermission: string -> bool)
    returns (next: Next)
    modifies doc
    ensures doc.title == PageTitle(old(doc.title), to)
    ensures next == Decide(to, authenticated, authenticatedAfterCheck, hasPermission)
  {
    if to.title.Some? && to.title.value != "" {
      doc.title := to.title.value + TitleSuffix;
    }
    if to.requiresAuth {
      if !authenticated {
        if !authenticatedAfterCheck {
          return Redirect(LoginPath, Some(to.fullPath));
        }
      }
      if to.permissions.Some? {
        if !AnyHeld(to.permissions.value, hasPermission) {
          return Redirect(DashboardPath, None);
        }
      }
    } else if to.path == LoginPath && authenticated {
      return Redirect(DashboardPath, None);
    }
    next := Proceed;
  }

  /** An empty permission array is truthy, and some over it is false: the route always bounces. */
  lemma EmptyPermissionListBounces(to: Route, authenticatedAfterCheck: bool, hasPermission: string -> bool)
    requires to.requiresAuth && to.permissions == Some([])
    ensures Decide(to, true, authenticatedAfterCheck, hasPermission) == Redirect(DashboardPath, None)
  {
  }

  /**
   * The store the router imports (web/src/store/auth.ts) answers every
   * permission with true, so with it any non-empty list lets a signed-in user
   * through.
   */
  lemma PermissiveStoreAdmitsListed(to: Route, perms: seq<string>)
    requires to.requiresAuth && to.permissions == Some(perms) && |perms| > 0
    ensures Decide(to, true, false, _ => true) == Proceed
  {
    assert (_ => true)(perms[0]);
  }
}
