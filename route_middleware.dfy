/**
 * The web route middleware: the default authentication decision, the
 * console permission guard, and the choice of the first console page when
 * the console root is opened. The route constants (login, home, console,
 * forbidden and middleware paths) are parameters; the stores' network calls
 * are inputs: the initialisation check's answer or failure, whether the
 * user is logged in and has user info, and the permission list a load
 * returns.
 */
module RouteMiddleware {
  import opened Wrappers
  import opened Text

  datatype Routes = Routes(login: string, home: string, console: string, forbidden: string, middleware: string)

  /** A route as the middleware reads it: `meta.auth === false` is `authOff`. */
  datatype Location = Location(path: string, fullPath: string, authOff: bool)

  /** What `defaultHandleAuth` does: fetch the user, redirect, refresh the token, or nothing. */
  datatype AuthOutcome = FetchUser | Redirect(target: string) | RefreshToken | Pass

  // ---------------------------------------------------------------- authentication

  /** `defaultHandleAuth`: the branches in their order. */
  function DefaultHandleAuth(routes: Routes, isLogin: bool, hasUserInfo: bool, to: Location, from: Location): AuthOutcome
  {
    if isLogin && !hasUserInfo then FetchUser
    else if !isLogin && !to.authOff && to.path != routes.login then
      Redirect(routes.login + "?redirect=" + to.fullPath)
    else if isLogin && to.path == routes.login then
      Redirect(if from.path != routes.login then from.fullPath else routes.home)
    else if isLogin then RefreshToken
    else Pass
  }

  /**
   * A redirect happens exactly for a logged-out visit to a protected page
   * other than login (to the login page, remembering the target), and for a
   * logged-in user with user info opening the login page (back where they
   * came from, or home when that was the login page too).
   */
  lemma DefaultHandleAuthRedirects(routes: Routes, isLogin: bool, hasUserInfo: bool, to: Location, from: Location)
    ensures var r := DefaultHandleAuth(routes, isLogin, hasUserInfo, to, from);
      && (r.Redirect? <==> (!isLogin && !to.authOff && to.path != routes.login) || (isLogin && hasUserInfo && to.path == routes.login))
      && (!isLogin && !to.authOff && to.path != routes.login ==>
            r.target == routes.login + "?redirect=" + to.fullPath && StartsWith(r.target, routes.login))
      && (isLogin && hasUserInfo && to.path == routes.login ==>
            r.target == (if from.path == routes.login then routes.home else from.fullPath))
  {
  }

  /** A logged-in user without user info only has it fetched, whatever page they open. */
  lemma FetchUserFirst(routes: Routes, hasUserInfo: bool, to: Location, from: Location)
    ensures DefaultHandleAuth(routes, true, hasUserInfo, to, from) == FetchUser <==> !hasUserInfo
  {
  }

  /** A logged-out visit to the login page or to an open page is let through. */
  lemma LoggedOutOpenPages(routes: Routes, hasUserInfo: bool, to: Location, from: Location)
    requires to.authOff || to.path == routes.login
    ensures DefaultHandleAuth(routes, false, hasUserInfo, to, from) == Pass
  {
  }

  // ---------------------------------------------------------------- the console guard

  /**
   * The permission guard on console paths: permissions are loaded when the
   * list is empty (`loaded` is the load's result, `None` when it fails, which
   * forbids); a user whose `isRoot` is 0 is forbidden without any permission,
   * or without the page's `permissionCode` when it has a non-empty one (an
   * empty code is falsy, so it asks for nothing). A user without user info
   * is not taken for a non-root user.
   */
  function ConsoleGuard(isRoot: Option<int>, permissions: seq<string>, loaded: Option<seq<string>>,
                        permissionCode: Option<string>): (forbidden: bool)
  {
    var perms := if |permissions| > 0 then Some(permissions) else loaded;
    if perms.None? then true
    else
      var isNonRootUser := isRoot == Some(0);
      var lacksAnyPermission := |perms.value| == 0;
      var requiresSpecificPermission := permissionCode.Some? && permissionCode.value != "";
      var hasRequiredPermission := !requiresSpecificPermission || permissionCode.value in perms.value;
      isNonRootUser && (lacksAnyPermission || !hasRequiredPermission)
  }

  /** Once permissions are at hand, a user is forbidden iff non-root and lacking any permission or the page's non-empty code. */
  lemma ConsoleGuardMeaning(isRoot: Option<int>, permissions: seq<string>, loaded: Option<seq<string>>,
                            permissionCode: Option<string>)
    ensures (|permissions| > 0 || loaded.Some?) ==>
        var perms := if |permissions| > 0 then permissions else loaded.value;
        (ConsoleGuard(isRoot, permissions, loaded, permissionCode) <==>
          isRoot == Some(0) && (|perms| == 0 || (permissionCode.Some? && permissionCode.value != "" && permissionCode.value !in perms)))
    ensures |permissions| == 0 && loaded.None? ==> ConsoleGuard(isRoot, permissions, loaded, permissionCode)
  {
  }

  /** A page whose permission code is empty is guarded like a page without one. */
  lemma EmptyCodeIsNoCode(isRoot: Option<int>, permissions: seq<string>, loaded: Option<seq<string>>)
    ensures ConsoleGuard(isRoot, permissions, loaded, Some("")) == ConsoleGuard(isRoot, permissions, loaded, None)
  {
  }

  /** Root users and users without user info pass whenever the permissions can be had. */
  lemma RootPasses(isRoot: Option<int>, permissions: seq<string>, loaded: Option<seq<string>>, permissionCode: Option<string>)
    requires isRoot != Some(0) && (|permissions| > 0 || loaded.Some?)
    ensures !ConsoleGuard(isRoot, permissions, loaded, permissionCode)
  {
  }

  // ---------------------------------------------------------------- the console page order

  /** `Number.MAX_SAFE_INTEGER`, the order of a route without one. */
  const MaxSafeInteger := 9007199254740991

  /** A registered route: its path and its `meta.order`, if any. */
  datatype RouteRecord = RouteRecord(path: string, order: Option<int>)

  /** Ordinal string comparison, standing for `localeCompare`: -1, 0 or 1. */
  function StringCompare(a: string, b: string): (r: int)
    ensures -1 <= r <= 1
    ensures r == 0 <==> a == b
  {
    if a == [] && b == [] then 0
    else if a == [] then -1
    else if b == [] then 1
    else if a[0] < b[0] then -1
    else if a[0] > b[0] then 1
    else StringCompare(a[1..], b[1..])
  }

  lemma {:induction false} StringCompareFlip(a: string, b: string)
    ensures StringCompare(a, b) == -StringCompare(b, a)
  {
    if a != [] && b != [] && a[0] == b[0] {
      StringCompareFlip(a[1..], b[1..]);
    }
  }

  lemma {:induction false} StringCompareTransitive(a: string, b: string, c: string)
    requires StringCompare(a, b) <= 0 && StringCompare(b, c) <= 0
    ensures StringCompare(a, c) <= 0
  {
    if a != [] && b != [] && c != [] && a[0] == b[0] && b[0] == c[0] {
      StringCompareTransitive(a[1..], b[1..], c[1..]);
    }
  }

  /** The sort key: a missing order counts as `MAX_SAFE_INTEGER` and order 0 as -1. */
  function OrderKey(order: Option<int>): int {
    var o := if order.None? then MaxSafeInteger else order.value;
    if o == 0 then -1 else o
  }

  /** The comparator of the console routes: by order key, ties by path. */
  function CompareRoutes(a: RouteRecord, b: RouteRecord): int {
    var ka := OrderKey(a.order);
    var kb := OrderKey(b.order);
    if ka != kb then ka - kb else StringCompare(a.path, b.path)
  }

  /** The comparator is antisymmetric, total, transitive, and says 0 only for the same key and path. */
  lemma CompareRoutesOrder(a: RouteRecord, b: RouteRecord, c: RouteRecord)
    ensures CompareRoutes(a, b) < 0 <==> CompareRoutes(b, a) > 0
    ensures CompareRoutes(a, b) == 0 <==> OrderKey(a.order) == OrderKey(b.order) && a.path == b.path
    ensures CompareRoutes(a, b) <= 0 && CompareRoutes(b, c) <= 0 ==> CompareRoutes(a, c) <= 0
  {
    StringCompareFlip(a.path, b.path);
    if CompareRoutes(a, b) <= 0 && CompareRoutes(b, c) <= 0 && OrderKey(a.order) == OrderKey(b.order) == OrderKey(c.order) {
      StringCompareTransitive(a.path, b.path, c.path);
    }
  }

  /** Order 0 comes before a missing order and every positive order. */
  lemma OrderZeroFirst(a: RouteRecord, b: RouteRecord)
    requires a.order == Some(0) && (b.order.None? || b.order.value > 0)
    ensures CompareRoutes(a, b) < 0
  {
  }

  /** The first route of the sorted list: one no other route precedes. */
  function Least(rs: seq<RouteRecord>): (r: RouteRecord)
    requires rs != []
    ensures r in rs && forall x :: x in rs ==> CompareRoutes(r, x) <= 0
  {
    if |rs| == 1 then rs[0]
    else
      var m := Least(rs[1..]);
      assert forall x :: x in rs ==> x == rs[0] || x in rs[1..];
      if CompareRoutes(rs[0], m) <= 0 then
        assert forall x :: x in rs[1..] ==> CompareRoutes(rs[0], x) <= 0 by {
          forall x | x in rs[1..] ensures CompareRoutes(rs[0], x) <= 0 {
            CompareRoutesOrder(rs[0], m, x);
          }
        }
        CompareRoutesOrder(rs[0], rs[0], rs[0]);
        rs[0]
      else
        CompareRoutesOrder(rs[0], m, m);
        m
  }

  function ConsoleRoutes(all: seq<RouteRecord>, console: string): (r: seq<RouteRecord>)
    ensures forall x :: x in r <==> x in all && StartsWith(x.path, console)
  {
    if all == [] then []
    else (if StartsWith(all[0].path, console) then [all[0]] else []) + ConsoleRoutes(all[1..], console)
  }

  /** The redirect of the middleware page and of the console root: the first console route, or the console itself. */
  function FirstConsolePage(all: seq<RouteRecord>, console: string): string
  {
    var rs := ConsoleRoutes(all, console);
    if rs == [] then console else Least(rs).path
  }

  /** The page chosen is a console page whose key and path no other console route undercuts. */
  lemma FirstConsolePageMeaning(all: seq<RouteRecord>, console: string)
    ensures var p := FirstConsolePage(all, console);
      && StartsWith(p, console)
      && ((exists x :: x in all && StartsWith(x.path, console)) ==>
            exists r :: r in all && r.path == p && StartsWith(r.path, console) &&
              forall x :: x in all && StartsWith(x.path, console) ==> CompareRoutes(r, x) <= 0)
  {
    var rs := ConsoleRoutes(all, console);
    if rs == [] {
      assert console[..|console|] == console;
    } else {
      assert Least(rs) in rs;
    }
  }

  // ---------------------------------------------------------------- the middleware

  /**
   * What `appStore.checkSystemInitialization` gives the middleware: it throws,
   * or it answers with a redirect path, `None` for none.
   */
  datatype InitCheck = InitFailed | InitChecked(redirect: Option<string>)

  /**
   * What the middleware does with a navigation: lets it go on, returns a path
   * to redirect to, or throws a fatal `createError` with its status.
   */
  datatype NavOutcome = Proceed | GoTo(path: string) | Fatal(statusCode: int, statusMessage: string)

  /**
   * `defineBuildingAIRouteMiddleware` with the default authentication: the
   * initialisation check, then the authentication redirect, then the
   * console guard, then the first console page for the middleware path and
   * the console root.
   */
  function Navigate(routes: Routes, init: InitCheck, isLogin: bool, hasUserInfo: bool,
                    to: Location, from: Location, isRoot: Option<int>, permissions: seq<string>,
                    loaded: Option<seq<string>>, permissionCode: Option<string>, all: seq<RouteRecord>): NavOutcome
  {
    if init.InitFailed? then Fatal(404, "System not Connected")
    else if init.redirect.Some? && init.redirect.value != "" then GoTo(init.redirect.value)
    else
      var auth := DefaultHandleAuth(routes, isLogin, hasUserInfo, to, from);
      if auth.Redirect? && auth.target != "" then GoTo(auth.target)
      else if StartsWith(to.path, routes.console) && ConsoleGuard(isRoot, permissions, loaded, permissionCode) then
        GoTo(routes.forbidden)
      else if StartsWith(to.path, routes.middleware) || to.path == routes.console then
        GoTo(FirstConsolePage(all, routes.console))
      else Proceed
  }

  /**
   * The initialisation step decides first: a failed check is a fatal 404
   * "System not Connected", and nothing else is fatal; a non-empty redirect
   * is followed before any other step.
   */
  lemma NavigateInitialization(routes: Routes, init: InitCheck, isLogin: bool, hasUserInfo: bool,
                               to: Location, from: Location, isRoot: Option<int>, permissions: seq<string>,
                               loaded: Option<seq<string>>, permissionCode: Option<string>, all: seq<RouteRecord>)
    ensures var r := Navigate(routes, init, isLogin, hasUserInfo, to, from, isRoot, permissions, loaded, permissionCode, all);
            (r.Fatal? <==> init.InitFailed?) &&
            (r.Fatal? ==> r.statusCode == 404 && r.statusMessage == "System not Connected") &&
            (init.InitChecked? && init.redirect.Some? && init.redirect.value != "" ==> r == GoTo(init.redirect.value))
  {
  }

  /** The middleware, too, treats an empty permission code like none at all. */
  lemma NavigateEmptyCode(routes: Routes, init: InitCheck, isLogin: bool, hasUserInfo: bool,
                          to: Location, from: Location, isRoot: Option<int>, permissions: seq<string>,
                          loaded: Option<seq<string>>, all: seq<RouteRecord>)
    ensures Navigate(routes, init, isLogin, hasUserInfo, to, from, isRoot, permissions, loaded, Some(""), all) ==
            Navigate(routes, init, isLogin, hasUserInfo, to, from, isRoot, permissions, loaded, None, all)
  {
    EmptyCodeIsNoCode(isRoot, permissions, loaded);
  }

  /** A logged-in non-root user without any permission never reaches a console page. */
  lemma NonRootWithoutPermissionsForbidden(routes: Routes, hasUserInfo: bool, to: Location, from: Location,
                                           loaded: Option<seq<string>>, permissionCode: Option<string>, all: seq<RouteRecord>)
    requires StartsWith(to.path, routes.console) && to.path != routes.login && hasUserInfo
    requires loaded.None? || loaded.value == []
    ensures Navigate(routes, InitChecked(None), true, hasUserInfo, to, from, Some(0), [], loaded, permissionCode, all) == GoTo(routes.forbidden)
  {
  }
}
