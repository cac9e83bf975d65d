/**
 * The client's route table and its global navigation guard (frontend/src/router/index.js).
 * Matching a URL to a route record is left to the router library; the guard sees the matched
 * record's `meta` and the two flags the auth store computes.
 */
module Router {
  import opened Js

  /** `meta: { requiresAuth, requiresAdmin }`; a missing flag (or missing meta) is false. */
  datatype Meta = Meta(requiresAuth: bool, requiresAdmin: bool)

  datatype RouteRecord = RouteRecord(path: string, name: string, meta: Meta)

  const AuthOnly := Meta(true, false)
  const AdminOnly := Meta(true, true)
  const Public := Meta(false, false)

  const Routes: seq<RouteRecord> := [
    RouteRecord("/", "dashboard", AuthOnly),
    RouteRecord("/crear-correo", "create-email", AdminOnly),
    RouteRecord("/editar-correo/:uuid", "email-editor", AuthOnly),
    RouteRecord("/lista-correos", "email-list", AuthOnly),
    RouteRecord("/gestionar-templates", "template-manager", AdminOnly),
    RouteRecord("/gestionar-usuarios", "user-manager", AdminOnly),
    RouteRecord("/gestionar-secciones", "section-template-manager", AdminOnly),
    RouteRecord("/login", "login", Public),
    RouteRecord("/register", "register", Public),
    RouteRecord("/:pathMatch(.*)*", "NotFound", Public)
  ]

  /** What the guard does with a navigation: `next()` or `next({ name })`. */
  datatype Navigation = Proceed | RedirectTo(name: string)

  /**
   * beforeEach: an unauthenticated user on a route that needs authentication goes to 'login';
   * otherwise a non-admin on an admin route goes to 'home'; everything else proceeds.
   */
  function Guard(meta: Meta, isAuthenticated: bool, isAdmin: bool): (n: Navigation)
    ensures n == RedirectTo("login") <==> meta.requiresAuth && !isAuthenticated
    ensures n == RedirectTo("home") <==> !(meta.requiresAuth && !isAuthenticated) && meta.requiresAdmin && !isAdmin
    ensures n == Proceed <==> (!meta.requiresAuth || isAuthenticated) && (!meta.requiresAdmin || isAdmin)
  {
    if meta.requiresAuth && !isAuthenticated then RedirectTo("login")
    else if meta.requiresAdmin && !isAdmin then RedirectTo("home")
    else Proceed
  }

  /** The record a named navigation resolves to: the first route with that name. */
  function Named(name: string): (r: Option<RouteRecord>)
    ensures r.Some? ==> r.value in Routes && r.value.name == name
    ensures r.None? <==> forall i :: 0 <= i < |Routes| ==> Routes[i].name != name
  {
    NamedIn(Routes, name)
  }

  function NamedIn(routes: seq<RouteRecord>, name: string): (r: Option<RouteRecord>)
    ensures r.Some? ==> r.value in routes && r.value.name == name
    ensures r.None? <==> forall i :: 0 <= i < |routes| ==> routes[i].name != name
  {
    if routes == [] then None
    else if routes[0].name == name then Some(routes[0])
    else NamedIn(routes[1..], name)
  }

  /** Names that none of the first `k` routes carries are looked up in the rest. */
  lemma {:induction false} NamedInSkips(routes: seq<RouteRecord>, k: nat, name: string)
    requires k <= |routes|
    requires forall i :: 0 <= i < k ==> routes[i].name != name
    ensures NamedIn(routes, name) == NamedIn(routes[k..], name)
    decreases k
  {
    if k > 0 {
      NamedInSkips(routes[1..], k - 1, name);
      assert routes[1..][k - 1..] == routes[k..];
    }
  }

  /** The records that need an administrator, those that need only a login, and the public ones. */
  lemma RouteTableAccess(r: RouteRecord)
    requires r in Routes
    ensures r.meta == AdminOnly <==> r.name in ["create-email", "template-manager", "user-manager", "section-template-manager"]
    ensures r.meta == AuthOnly <==> r.name in ["dashboard", "email-editor", "email-list"]
    ensures r.meta == Public <==> r.name in ["login", "register", "NotFound"]
  {
  }

  /** The admin redirect names 'home', and no route carries that name. */
  lemma HomeIsNotARoute()
    ensures Named("home").None?
  {
  }

  /** The login redirect lands on a public route, so it is never redirected again. */
  lemma LoginRedirectSettles(isAuthenticated: bool, isAdmin: bool)
    ensures Named("login").Some?
    ensures Guard(Named("login").value.meta, isAuthenticated, isAdmin) == Proceed
  {
    NamedInSkips(Routes, 7, "login");
  }

  /** The authentication test comes first: a visitor heading for an admin route is sent to 'login'. */
  lemma AuthCheckedBeforeAdmin(r: RouteRecord, isAdmin: bool)
    requires r in Routes && r.meta.requiresAdmin
    ensures Guard(r.meta, false, isAdmin) == RedirectTo("login")
  {
    RouteTableAccess(r);
  }

  /** What a signed-in non-admin may open: exactly the routes that do not need an administrator. */
  lemma SignedInUserReach(r: RouteRecord)
    requires r in Routes
    ensures Guard(r.meta, true, false) == Proceed <==> !r.meta.requiresAdmin
    ensures Guard(r.meta, true, false) != Proceed ==> Guard(r.meta, true, false) == RedirectTo("home")
  {
  }
}
