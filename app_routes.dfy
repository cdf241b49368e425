/**
 * The route guard and route table of src/App.tsx, as decision functions from the
 * provider's `(user, userRole, loading)` and the requested path to what is shown.
 * Paths are matched as React Router matches them: ignoring the case of ASCII letters,
 * admitting trailing slashes, and, for a starred pattern, admitting its prefix and
 * everything below it.
 */
module AppRoutes {
  import opened Wrappers
  import opened AuthContext
  import opened Strings

  datatype Page = LoginPage | SetupPage | SuperAdminDashboard | SchoolAdminDashboard | FinanceStaffDashboard

  datatype Outcome =
    | Spinner
    | Redirect(to: string)
    | Render(page: Page)
    /** The "Loading..." screen for a user whose role is not known yet. */
    | LoadingScreen
    /** The "Loading user role..." text of `/dashboard` for a role with no dashboard. */
    | RoleLoadingText

  /** `ProtectedRoute`: the guard around one dashboard. */
  function ProtectedRoute(hasUser: bool, role: Option<Role>, loading: bool, allowed: seq<Role>, page: Page): Outcome
  {
    if loading && !hasUser then Spinner
    else if !hasUser then Redirect("/login")
    else if role.Some? && role.value !in allowed then Redirect("/unauthorized")
    else Render(page)
  }

  /** The guard renders exactly for a user whose role is unknown or allowed; loading is ignored once a user exists. */
  lemma ProtectedRouteRules(hasUser: bool, role: Option<Role>, loading: bool, allowed: seq<Role>, page: Page)
    ensures var o := ProtectedRoute(hasUser, role, loading, allowed, page);
      && (o == Spinner <==> loading && !hasUser)
      && (o == Redirect("/login") <==> !loading && !hasUser)
      && (o == Redirect("/unauthorized") <==> hasUser && role.Some? && role.value !in allowed)
      && (o == Render(page) <==> hasUser && (role.None? || role.value in allowed))
  {
  }

  /** A starred route pattern: the path is the prefix itself or lies below it. */
  predicate Under(path: string, prefix: string)
  {
    path == prefix || prefix + "/" <= path
  }

  /** The path without its trailing slashes. */
  function StripTrailingSlashes(s: string): (r: string)
    ensures r <= s
    ensures r == [] || r[|r| - 1] != '/'
    decreases |s|
  {
    if |s| > 0 && s[|s| - 1] == '/' then StripTrailingSlashes(s[..|s| - 1]) else s
  }

  /**
   * A route pattern of the table. React Router ignores the case of ASCII letters; a
   * plain pattern also admits the path followed by slashes, and a starred pattern
   * (the `super-admin` route with its trailing star) admits its prefix and every path below it.
   */
  datatype Pattern = Exact(path: string) | Splat(prefix: string)

  predicate Matches(path: string, pat: Pattern)
  {
    match pat
    case Exact(p) => StripTrailingSlashes(ToLower(path)) == p
    case Splat(p) => Under(ToLower(path), p)
  }

  /** The routes of the signed-in table, before its catch-all `*`. */
  datatype RouteId = LoginRoute | SetupRoute | SuperAdminRoute | SchoolAdminRoute | FinanceStaffRoute | DashboardRoute

  function PatternOf(id: RouteId): Pattern
  {
    match id
    case LoginRoute => Exact("/login")
    case SetupRoute => Exact("/setup")
    case SuperAdminRoute => Splat("/super-admin")
    case SchoolAdminRoute => Splat("/school-admin")
    case FinanceStaffRoute => Splat("/finance-staff")
    case DashboardRoute => Exact("/dashboard")
  }

  /** A prefix that does not end in a slash survives the removal of trailing slashes. */
  lemma {:induction false} PrefixSurvivesStrip(s: string, p: string)
    requires p <= s && (p == [] || p[|p| - 1] != '/')
    ensures p <= StripTrailingSlashes(s)
    decreases |s|
  {
    if |s| > 0 && s[|s| - 1] == '/' {
      assert |p| < |s|;
      assert p <= s[..|s| - 1];
      PrefixSurvivesStrip(s[..|s| - 1], p);
    }
  }

  /** A path below a prefix agrees with it position by position. */
  lemma UnderAt(path: string, p: string, i: nat)
    requires Under(path, p) && i < |p|
    ensures i < |path| && path[i] == p[i]
  {
    assert p <= path;
  }

  /** A path that differs from a prefix at some position is not below it. */
  lemma DiffersAt(path: string, p: string, i: nat)
    requires i < |path| && i < |p| && path[i] != p[i]
    ensures !Under(path, p)
  {
  }

  /** Two starred patterns whose prefixes differ at some position admit no common path. */
  lemma SplatsApart(path: string, p: string, q: string, i: nat)
    requires i < |p| && i < |q| && p[i] != q[i]
    ensures !(Matches(path, Splat(p)) && Matches(path, Splat(q)))
  {
    var low := ToLower(path);
    if Under(low, p) {
      UnderAt(low, p, i);
      DiffersAt(low, q, i);
    }
  }

  /** A plain pattern shorter than a starred prefix that does not end in a slash admits no path the starred one admits. */
  lemma ExactBelowSplat(path: string, e: string, p: string)
    requires |e| < |p| && p[|p| - 1] != '/'
    ensures !(Matches(path, Exact(e)) && Matches(path, Splat(p)))
  {
    if Matches(path, Splat(p)) {
      PrefixSurvivesStrip(ToLower(path), p);
    }
  }

  /** No path matches two routes of the table, so which route it takes does not depend on their order. */
  lemma RoutesDisjoint(path: string, a: RouteId, b: RouteId)
    requires a != b
    ensures !(Matches(path, PatternOf(a)) && Matches(path, PatternOf(b)))
  {
    if PatternOf(a).Splat? && PatternOf(b).Splat? {
      var i := if a == FinanceStaffRoute || b == FinanceStaffRoute then 1 else 2;
      SplatsApart(path, PatternOf(a).prefix, PatternOf(b).prefix, i);
    } else if PatternOf(a).Exact? && PatternOf(b).Splat? {
      ExactBelowSplat(path, PatternOf(a).path, PatternOf(b).prefix);
    } else if PatternOf(a).Splat? && PatternOf(b).Exact? {
      ExactBelowSplat(path, PatternOf(b).path, PatternOf(a).prefix);
    }
  }

  /** A path matching one route of the table matches no other. */
  lemma OnlyMatch(path: string, a: RouteId)
    requires Matches(path, PatternOf(a))
    ensures forall b :: b != a ==> !Matches(path, PatternOf(b))
  {
    forall b | b != a
      ensures !Matches(path, PatternOf(b))
    {
      RoutesDisjoint(path, a, b);
    }
  }

  /** A path written in lower case, without a trailing slash: it matches a pattern as it is written. */
  predicate Canonical(c: string)
  {
    c != [] && c[|c| - 1] != '/' && forall i :: 0 <= i < |c| ==> !IsUpper(c[i])
  }

  lemma CanonicalPath(c: string)
    requires Canonical(c)
    ensures ToLower(c) == c && StripTrailingSlashes(c) == c
  {
    assert forall i :: 0 <= i < |c| ==> ToLower(c)[i] == c[i];
  }

  /** /unauthorized matches no route of the table, so it falls to the catch-all. */
  lemma UnauthorizedUnmatched(u: string)
    requires u == "/unauthorized"
    ensures forall b :: !Matches(u, PatternOf(b))
  {
    CanonicalPath(u);
    forall b ensures !Matches(u, PatternOf(b)) {
      if PatternOf(b).Splat? {
        assert PatternOf(b).prefix[1] != u[1];
      } else {
        assert |PatternOf(b).path| < |u|;
      }
    }
  }

  /** The dashboard prefix of each role that has one. */
  function Prefix(role: Role): string
  {
    match role
    case SuperAdmin => "/super-admin"
    case SchoolAdmin => "/school-admin"
    case FinanceStaff => "/finance-staff"
    case SubAdmin => "/dashboard"
  }

  function Dashboard(role: Role): Page
  {
    match role
    case SuperAdmin => SuperAdminDashboard
    case SchoolAdmin => SchoolAdminDashboard
    case FinanceStaff => FinanceStaffDashboard
    case SubAdmin => LoginPage
  }

  predicate HasDashboard(role: Role)
  {
    role != SubAdmin
  }

  /** The route of each role's dashboard. */
  function RouteOf(role: Role): (id: RouteId)
    requires HasDashboard(role)
    ensures PatternOf(id) == Splat(Prefix(role))
  {
    match role
    case SuperAdmin => SuperAdminRoute
    case SchoolAdmin => SchoolAdminRoute
    case FinanceStaff => FinanceStaffRoute
  }

  /** `AppRoutes` for the requested path. */
  function Route(hasUser: bool, role: Option<Role>, loading: bool, path: string): Outcome
  {
    if loading && !hasUser then Spinner
    else if !hasUser then
      (if Matches(path, PatternOf(LoginRoute)) then Render(LoginPage)
       else if Matches(path, PatternOf(SetupRoute)) then Render(SetupPage)
       else Redirect("/login"))
    else if role.None? then LoadingScreen
    else if Matches(path, PatternOf(LoginRoute)) || Matches(path, PatternOf(SetupRoute)) then Redirect("/dashboard")
    else if Matches(path, PatternOf(SuperAdminRoute)) then ProtectedRoute(hasUser, role, loading, [SuperAdmin], SuperAdminDashboard)
    else if Matches(path, PatternOf(SchoolAdminRoute)) then ProtectedRoute(hasUser, role, loading, [SchoolAdmin], SchoolAdminDashboard)
    else if Matches(path, PatternOf(FinanceStaffRoute)) then ProtectedRoute(hasUser, role, loading, [FinanceStaff], FinanceStaffDashboard)
    else if Matches(path, PatternOf(DashboardRoute)) then
      (if HasDashboard(role.value) then Redirect(Prefix(role.value)) else RoleLoadingText)
    else Redirect("/dashboard")
  }

  /** Following redirects, at most `hops` of them. */
  function Navigate(hasUser: bool, role: Option<Role>, loading: bool, path: string, hops: nat): Outcome
    decreases hops
  {
    var o := Route(hasUser, role, loading, path);
    if o.Redirect? && hops > 0 then Navigate(hasUser, role, loading, o.to, hops - 1) else o
  }

  /** Without a user only /login and /setup render; every other path redirects to /login. */
  lemma SignedOutRoutes(role: Option<Role>, path: string)
    ensures var o := Route(false, role, false, path);
      && (o == Render(LoginPage) <==> Matches(path, Exact("/login")))
      && (o == Render(SetupPage) <==> Matches(path, Exact("/setup")))
      && (o.Render? || o == Redirect("/login"))
  {
  }

  /** Upper-case letters are folded before matching. */
  lemma UpperLoginMatches(p: string)
    requires p == "/LOGIN"
    ensures Matches(p, PatternOf(LoginRoute))
  {
    var low := ToLower(p);
    assert low == "/login" by {
      assert forall i :: 0 <= i < 6 ==> low[i] == "/login"[i];
    }
    CanonicalPath("/login");
  }

  /** A trailing slash is dropped before matching. */
  lemma SlashedLoginMatches(p: string)
    requires p == "/login/"
    ensures Matches(p, PatternOf(LoginRoute))
  {
    var low := ToLower(p);
    assert low == p by {
      assert forall i :: 0 <= i < 7 ==> low[i] == p[i];
    }
    assert StripTrailingSlashes(p) == StripTrailingSlashes(p[..6]);
    CanonicalPath(p[..6]);
    assert p[..6] == "/login";
  }

  /** The login page also answers to other spellings of its path. */
  lemma SignedOutLoginSpellings(role: Option<Role>, upper: string, slashed: string)
    requires upper == "/LOGIN" && slashed == "/login/"
    ensures Route(false, role, false, upper) == Render(LoginPage)
    ensures Route(false, role, false, slashed) == Render(LoginPage)
  {
    UpperLoginMatches(upper);
    SlashedLoginMatches(slashed);
  }

  /** A user without a role sees the loading screen on every path, so no dashboard is reachable. */
  lemma NoRoleNoDashboard(loading: bool, path: string, hops: nat)
    ensures Navigate(true, None, loading, path, hops) == LoadingScreen
  {
  }

  /**
   * Every path under a dashboard's starred prefix renders that dashboard for its own
   * role and sends every other role to /unauthorized.
   */
  lemma PrefixAdmitsOnlyItsRole(r: Role, other: Role, loading: bool, path: string)
    requires HasDashboard(r) && other != r
    requires Matches(path, Splat(Prefix(r)))
    ensures Route(true, Some(r), loading, path) == Render(Dashboard(r))
    ensures Route(true, Some(other), loading, path) == Redirect("/unauthorized")
  {
    OnlyMatch(path, RouteOf(r));
    assert !Matches(path, PatternOf(LoginRoute)) && !Matches(path, PatternOf(SetupRoute));
    match r
    case SuperAdmin =>
    case SchoolAdmin =>
      assert !Matches(path, PatternOf(SuperAdminRoute));
    case FinanceStaff =>
      assert !Matches(path, PatternOf(SuperAdminRoute)) && !Matches(path, PatternOf(SchoolAdminRoute));
  }

  /** Each dashboard prefix, as written, renders its own role's dashboard. */
  lemma PrefixAdmitsOwnRole(r: Role, loading: bool)
    requires HasDashboard(r)
    ensures Route(true, Some(r), loading, Prefix(r)) == Render(Dashboard(r))
  {
    OwnPrefixMatches(r);
    PrefixAdmitsOnlyItsRole(r, SubAdmin, loading, Prefix(r));
  }

  lemma OwnPrefixMatches(r: Role)
    requires HasDashboard(r)
    ensures Matches(Prefix(r), Splat(Prefix(r)))
  {
    var p := Prefix(r);
    CanonicalPath(p);
    assert Under(ToLower(p), p);
  }

  /** /dashboard matches its own route and no other. */
  lemma DashboardMatchesItself(d: string)
    requires d == "/dashboard"
    ensures Matches(d, PatternOf(DashboardRoute))
  {
    CanonicalPath(d);
  }

  /** Every spelling of /dashboard sends each of the three roles to its own prefix, and a `sub_admin` nowhere. */
  lemma DashboardRedirect(r: Role, loading: bool, d: string)
    requires Matches(d, PatternOf(DashboardRoute))
    ensures HasDashboard(r) ==> Route(true, Some(r), loading, d) == Redirect(Prefix(r))
    ensures !HasDashboard(r) ==> Route(true, Some(r), loading, d) == RoleLoadingText
  {
    OnlyMatch(d, DashboardRoute);
    assert !Matches(d, PatternOf(LoginRoute)) && !Matches(d, PatternOf(SetupRoute));
    assert !Matches(d, PatternOf(SuperAdminRoute)) && !Matches(d, PatternOf(SchoolAdminRoute));
    assert !Matches(d, PatternOf(FinanceStaffRoute));
  }

  /** For one of the three roles a path renders that role's dashboard or redirects to its prefix, /dashboard or /unauthorized. */
  lemma RouteShape(r: Role, loading: bool, path: string)
    requires HasDashboard(r)
    ensures var o := Route(true, Some(r), loading, path);
      || o == Render(Dashboard(r)) || o == Redirect(Prefix(r))
      || o == Redirect("/dashboard") || o == Redirect("/unauthorized")
  {
  }

  lemma {:induction false} DashboardLands(r: Role, loading: bool, hops: nat)
    requires HasDashboard(r) && hops >= 1
    ensures Navigate(true, Some(r), loading, "/dashboard", hops) == Render(Dashboard(r))
  {
    DashboardMatchesItself("/dashboard");
    DashboardRedirect(r, loading, "/dashboard");
    PrefixAdmitsOwnRole(r, loading);
  }

  /** /unauthorized is no route of the table, so a signed-in user with a role is sent on to /dashboard. */
  lemma UnauthorizedGoesToDashboard(role: Option<Role>, loading: bool)
    requires role.Some?
    ensures Route(true, role, loading, "/unauthorized") == Redirect("/dashboard")
  {
    UnauthorizedUnmatched("/unauthorized");
  }

  /**
   * A user holding one of the three roles lands on that role's dashboard from every path
   * within three redirects (through /unauthorized and /dashboard), and on no other page.
   */
  lemma {:induction false} EveryPathReachesOwnDashboard(r: Role, loading: bool, path: string)
    requires HasDashboard(r)
    ensures Navigate(true, Some(r), loading, path, 3) == Render(Dashboard(r))
  {
    RouteShape(r, loading, path);
    DashboardLands(r, loading, 2);
    DashboardLands(r, loading, 1);
    UnauthorizedGoesToDashboard(Some(r), loading);
    PrefixAdmitsOwnRole(r, loading);
  }

  /** A `sub_admin` ends on "Loading user role..." from every path. */
  lemma {:induction false} SubAdminStuck(loading: bool, path: string)
    ensures Navigate(true, Some(SubAdmin), loading, path, 2) == RoleLoadingText
  {
    SubAdminRouteShape(loading, path);
    UnauthorizedGoesToDashboard(Some(SubAdmin), loading);
    DashboardMatchesItself("/dashboard");
    DashboardRedirect(SubAdmin, loading, "/dashboard");
    assert Navigate(true, Some(SubAdmin), loading, "/dashboard", 0) == RoleLoadingText;
    assert Navigate(true, Some(SubAdmin), loading, "/unauthorized", 1) == RoleLoadingText;
  }

  /** For a `sub_admin` every path shows the role text or redirects to /dashboard or /unauthorized. */
  lemma SubAdminRouteShape(loading: bool, path: string)
    ensures var o := Route(true, Some(SubAdmin), loading, path);
      o == RoleLoadingText || o == Redirect("/dashboard") || o == Redirect("/unauthorized")
  {
  }
}
