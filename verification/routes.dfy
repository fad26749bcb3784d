/** The navigation filter: the route table groups pages under titled
    routes, and the sidebar shows only the pages whose name the signed-in
    user's permission list holds, dropping a route left with no page. */
module Routes {
  import opened Wrappers
  import opened Listing

  /** A page of the route table; its icon and element are rendering only. */
  datatype Page = Page(name: string, path: string)

  /** A route group; `visible` is absent on most routes. */
  datatype Route = Route(title: string, layout: string, visible: Option<bool>, pages: seq<Page>)

  /** `permissions.includes(page.name)`: exact, case-sensitive equality. */
  predicate Permitted(permissions: seq<string>, page: Page) {
    page.name in permissions
  }

  /** `{ ...route, pages: route.pages.filter(...) }`. */
  function Restrict(route: Route, permissions: seq<string>): (r: Route)
    ensures r.title == route.title && r.layout == route.layout && r.visible == route.visible
    ensures forall j :: 0 <= j < |r.pages| ==> r.pages[j] in route.pages && Permitted(permissions, r.pages[j])
    ensures forall j :: 0 <= j < |route.pages| && Permitted(permissions, route.pages[j]) ==>
              route.pages[j] in r.pages
  {
    route.(pages := Keep(route.pages, p => Permitted(permissions, p)))
  }

  predicate HasPages(route: Route) {
    |route.pages| > 0
  }

  /** `filterRoutes(routes, permissions)`. Every route shown has a page, every
      page shown is permitted, and each shown route is an input route with
      only its page list narrowed. */
  function FilterRoutes(routes: seq<Route>, permissions: seq<string>): (r: seq<Route>)
    ensures |r| <= |routes|
    ensures forall i :: 0 <= i < |r| ==> HasPages(r[i])
    ensures forall i, j :: 0 <= i < |r| && 0 <= j < |r[i].pages| ==>
              Permitted(permissions, r[i].pages[j])
    ensures forall i :: 0 <= i < |r| ==>
              exists k :: 0 <= k < |routes| && r[i] == Restrict(routes[k], permissions)
  {
    var narrowed := seq(|routes|, k requires 0 <= k < |routes| => Restrict(routes[k], permissions));
    var r := Keep(narrowed, HasPages);
    assert forall i :: 0 <= i < |r| ==> r[i] in narrowed;
    r
  }

  /** A page is shown exactly when it belongs to some input route and its
      name is in the permission list: its route survives because it keeps at
      least that page. */
  lemma PageShownIff(routes: seq<Route>, permissions: seq<string>, p: Page)
    ensures (exists i :: 0 <= i < |FilterRoutes(routes, permissions)|
                         && p in FilterRoutes(routes, permissions)[i].pages)
            <==> Permitted(permissions, p) && exists k :: 0 <= k < |routes| && p in routes[k].pages
  {
    if Permitted(permissions, p) && exists k :: 0 <= k < |routes| && p in routes[k].pages {
      var k :| 0 <= k < |routes| && p in routes[k].pages;
      PermittedPageShown(routes, permissions, p, k);
    }
    if exists i :: 0 <= i < |FilterRoutes(routes, permissions)| && p in FilterRoutes(routes, permissions)[i].pages {
      var i :| 0 <= i < |FilterRoutes(routes, permissions)| && p in FilterRoutes(routes, permissions)[i].pages;
      ShownPageFromInput(routes, permissions, p, i);
    }
  }

  /** A permitted page of input route `k` is on the route kept for it. */
  lemma PermittedPageShown(routes: seq<Route>, permissions: seq<string>, p: Page, k: int)
    requires Permitted(permissions, p) && 0 <= k < |routes| && p in routes[k].pages
    ensures exists i :: 0 <= i < |FilterRoutes(routes, permissions)| && p in FilterRoutes(routes, permissions)[i].pages
  {
    var narrowed := seq(|routes|, k requires 0 <= k < |routes| => Restrict(routes[k], permissions));
    var r := FilterRoutes(routes, permissions);
    assert r == Keep(narrowed, HasPages);
    var j :| 0 <= j < |routes[k].pages| && routes[k].pages[j] == p;
    assert p in narrowed[k].pages;
    assert HasPages(narrowed[k]);
    assert narrowed[k] in r;
    var i :| 0 <= i < |r| && r[i] == narrowed[k];
    assert p in r[i].pages;
  }

  /** A page on kept route `i` is permitted and belongs to an input route. */
  lemma ShownPageFromInput(routes: seq<Route>, permissions: seq<string>, p: Page, i: int)
    requires 0 <= i < |FilterRoutes(routes, permissions)| && p in FilterRoutes(routes, permissions)[i].pages
    ensures Permitted(permissions, p) && exists k :: 0 <= k < |routes| && p in routes[k].pages
  {
    var r := FilterRoutes(routes, permissions);
    var k :| 0 <= k < |routes| && r[i] == Restrict(routes[k], permissions);
    var j :| 0 <= j < |r[i].pages| && r[i].pages[j] == p;
    assert p in routes[k].pages;
  }

  /** A route is kept exactly when at least one of its pages is permitted. */
  lemma RouteKeptIff(routes: seq<Route>, permissions: seq<string>, k: int)
    requires 0 <= k < |routes|
    ensures Restrict(routes[k], permissions) in FilterRoutes(routes, permissions)
            <==> exists j :: 0 <= j < |routes[k].pages| && Permitted(permissions, routes[k].pages[j])
  {
    var narrowed := seq(|routes|, k requires 0 <= k < |routes| => Restrict(routes[k], permissions));
    assert narrowed[k] == Restrict(routes[k], permissions);
    if exists j :: 0 <= j < |routes[k].pages| && Permitted(permissions, routes[k].pages[j]) {
      var j :| 0 <= j < |routes[k].pages| && Permitted(permissions, routes[k].pages[j]);
      assert routes[k].pages[j] in narrowed[k].pages;
    }
    var rk := Restrict(routes[k], permissions);
    if rk in FilterRoutes(routes, permissions) {
      var p := rk.pages[0];
      var j :| 0 <= j < |routes[k].pages| && routes[k].pages[j] == p;
      assert Permitted(permissions, routes[k].pages[j]);
    }
  }

  /** Filtering distributes over concatenation of route tables, so kept
      routes stay in input order. */
  lemma FilterRoutesAppend(a: seq<Route>, b: seq<Route>, permissions: seq<string>)
    ensures FilterRoutes(a + b, permissions) == FilterRoutes(a, permissions) + FilterRoutes(b, permissions)
  {
    var f := (rs: seq<Route>) => seq(|rs|, k requires 0 <= k < |rs| => Restrict(rs[k], permissions));
    assert f(a + b) == f(a) + f(b);
    KeepAppend(f(a), f(b), HasPages);
  }

  /** Within a route, kept pages stay in their original order. */
  lemma RestrictAppend(route: Route, more: seq<Page>, permissions: seq<string>)
    ensures Restrict(route.(pages := route.pages + more), permissions).pages
            == Restrict(route, permissions).pages + Keep(more, p => Permitted(permissions, p))
  {
    KeepAppend(route.pages, more, p => Permitted(permissions, p));
  }

  /** A user without permissions sees no route. */
  lemma NoPermissionsNoRoutes(routes: seq<Route>)
    ensures FilterRoutes(routes, []) == []
  {
    var narrowed := seq(|routes|, k requires 0 <= k < |routes| => Restrict(routes[k], []));
    forall k | 0 <= k < |routes| ensures !HasPages(narrowed[k]) {
      KeepNonePass(routes[k].pages, p => Permitted([], p));
    }
    KeepNonePass(narrowed, HasPages);
  }

  /** When every page is permitted and no route is empty to begin with, the
      table is shown unchanged. */
  lemma AllPermittedKeepsAll(routes: seq<Route>, permissions: seq<string>)
    requires forall k, j :: 0 <= k < |routes| && 0 <= j < |routes[k].pages| ==>
               Permitted(permissions, routes[k].pages[j])
    requires forall k :: 0 <= k < |routes| ==> HasPages(routes[k])
    ensures FilterRoutes(routes, permissions) == routes
  {
    var narrowed := seq(|routes|, k requires 0 <= k < |routes| => Restrict(routes[k], permissions));
    forall k | 0 <= k < |routes| ensures narrowed[k] == routes[k] {
      KeepAllPass(routes[k].pages, p => Permitted(permissions, p));
    }
    assert narrowed == routes;
    KeepAllPass(routes, HasPages);
  }

  /** Matching is case-sensitive: the permission "roles" does not show the
      page named "Roles". */
  lemma MatchIsCaseSensitive()
    ensures FilterRoutes([Route("Configuración", "dashboard", None, [Page("Roles", "/roles")])], ["roles"]) == []
  {
    assert !Permitted(["roles"], Page("Roles", "/roles"));
  }
}
