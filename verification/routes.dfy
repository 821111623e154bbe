/** The route selection in `App` (src/App.tsx): which routes exist is a pure
    function of `(loading, isAuthenticated, is_manager)`. */
module Routes {
  import opened Wrappers
  import AuthMachine

  datatype Page = LoginPage | DashboardPage | ManagerDashboardPage | ScheduleReviewPage

  datatype Route = Route(path: string, page: Page)

  /** What `App` renders: the loading spinner, or a router with explicit
      routes and a catch-all `*` redirect. */
  datatype Screen = Spinner | Router(routes: seq<Route>, fallback: string)

  /** What a visit to a path shows. */
  datatype Shown = ShowSpinner | Render(page: Page) | Redirect(to: string)

  function AppScreen(loading: bool, isAuthenticated: bool, isManager: bool): (r: Screen)
    ensures r.Spinner? <==> loading
    ensures r.Router? ==> r.fallback == (if isAuthenticated then "/dashboard" else "/login")
    ensures r.Router? ==> exists k :: 0 <= k < |r.routes| && r.routes[k].path == r.fallback
    ensures r.Router? ==>
              ((exists k :: 0 <= k < |r.routes| && r.routes[k].page == LoginPage) <==> !isAuthenticated)
    ensures r.Router? ==>
              ((exists k :: 0 <= k < |r.routes| && r.routes[k].page == ScheduleReviewPage)
               <==> isAuthenticated && isManager)
  {
    if loading then Spinner
    else if !isAuthenticated then
      var routes := [Route("/login", LoginPage)];
      assert routes[0].path == "/login" && routes[0].page == LoginPage;
      Router(routes, "/login")
    else if isManager then
      var routes := [Route("/dashboard", ManagerDashboardPage), Route("/reviews/schedule", ScheduleReviewPage)];
      assert routes[0].path == "/dashboard" && routes[1].page == ScheduleReviewPage;
      Router(routes, "/dashboard")
    else
      var routes := [Route("/dashboard", DashboardPage)];
      assert routes[0].path == "/dashboard";
      Router(routes, "/dashboard")
  }

  /** The screen for a provider state: `isAuthenticated` is `!!user` and the
      manager test is `user?.is_manager`. */
  function ScreenFor(s: AuthMachine.AuthState): (r: Screen)
    ensures r.Spinner? <==> s.loading
    ensures r.Router? ==> (r.fallback == "/login" <==> s.user.None?)
    ensures r.Router? ==>
              ((exists k :: 0 <= k < |r.routes| && r.routes[k].page == ScheduleReviewPage)
               <==> s.user.Some? && s.user.value.isManager)
  {
    AppScreen(s.loading, AuthMachine.IsAuthenticated(s), s.user.Some? && s.user.value.isManager)
  }

  /** The first route whose path matches, else the catch-all redirect. */
  function Open(screen: Screen, path: string): (v: Shown)
    ensures screen.Spinner? <==> v.ShowSpinner?
    ensures v.Render? ==> exists k :: 0 <= k < |screen.routes| && screen.routes[k] == Route(path, v.page)
    ensures v.Redirect? ==> v.to == screen.fallback
                            && forall k :: 0 <= k < |screen.routes| ==> screen.routes[k].path != path
  {
    match screen
    case Spinner => ShowSpinner
    case Router(routes, fallback) => FirstMatch(routes, path, fallback)
  }

  function FirstMatch(routes: seq<Route>, path: string, fallback: string): (v: Shown)
    ensures v.Render? || v == Redirect(fallback)
    ensures v.Render? ==> exists k :: 0 <= k < |routes| && routes[k] == Route(path, v.page)
    ensures v.Redirect? ==> forall k :: 0 <= k < |routes| ==> routes[k].path != path
    decreases |routes|
  {
    if |routes| == 0 then Redirect(fallback)
    else if routes[0].path == path then Render(routes[0].page)
    else FirstMatch(routes[1..], path, fallback)
  }

  /** While loading, no path reaches a page. */
  lemma LoadingShowsOnlySpinner(isAuthenticated: bool, isManager: bool, path: string)
    ensures Open(AppScreen(true, isAuthenticated, isManager), path) == ShowSpinner
  {
  }

  /** Unauthenticated, `/login` is the only page and everything else redirects to it. */
  lemma UnauthenticatedSeesOnlyLogin(isManager: bool, path: string)
    ensures Open(AppScreen(false, false, isManager), path)
            == if path == "/login" then Render(LoginPage) else Redirect("/login")
  {
  }

  /** An authenticated manager gets the manager dashboard and the scheduling
      page; everything else redirects to `/dashboard`. */
  lemma ManagerRoutes(path: string)
    ensures Open(AppScreen(false, true, true), path)
            == if path == "/dashboard" then Render(ManagerDashboardPage)
               else if path == "/reviews/schedule" then Render(ScheduleReviewPage)
               else Redirect("/dashboard")
  {
  }

  /** An authenticated non-manager gets only the plain dashboard. */
  lemma EmployeeRoutes(path: string)
    ensures Open(AppScreen(false, true, false), path)
            == if path == "/dashboard" then Render(DashboardPage) else Redirect("/dashboard")
  {
  }

  /** The scheduling page is reachable exactly for a loaded, authenticated manager. */
  lemma ScheduleOnlyForManagers(loading: bool, isAuthenticated: bool, isManager: bool)
    ensures Open(AppScreen(loading, isAuthenticated, isManager), "/reviews/schedule") == Render(ScheduleReviewPage)
            <==> !loading && isAuthenticated && isManager
  {
  }

  /** Stated on the provider state: only a published manager user reaches scheduling. */
  lemma ScheduleNeedsPublishedManager(s: AuthMachine.AuthState)
    ensures Open(ScreenFor(s), "/reviews/schedule") == Render(ScheduleReviewPage)
            <==> !s.loading && s.user.Some? && s.user.value.isManager
  {
    ScheduleOnlyForManagers(s.loading, AuthMachine.IsAuthenticated(s), s.user.Some? && s.user.value.isManager);
  }

  /** Every redirect lands on a page after one hop: there are no redirect loops. */
  lemma RedirectsLand(loading: bool, isAuthenticated: bool, isManager: bool, path: string)
    ensures var screen := AppScreen(loading, isAuthenticated, isManager);
            Open(screen, path).Redirect? ==> Open(screen, Open(screen, path).to).Render?
  {
  }
}
