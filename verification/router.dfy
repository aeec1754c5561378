/** The route table of src/main.ts with its `requiresAuth` meta flags, how a
    path resolves against it (redirects included), and the `beforeEach`
    guard that sends signed-out users to the login page and signed-in users
    away from it. */
module Router {
  import opened Wrappers

  /** A route path: a fixed path, or `/:pathMatch(.*)`, which matches
      anything. */
  datatype Pattern = Exact(path: string) | CatchAll

  /** A nested route: its path relative to the parent, and a redirect
      (relative to the parent's path) if it has one. Nested routes carry no
      meta of their own. */
  datatype Child = Child(path: string, redirect: Option<string>)

  /** A top-level route: its pattern, `meta.requiresAuth` (absent is
      `None`), an absolute redirect and the nested routes. */
  datatype Record = Record(pattern: Pattern, requiresAuth: Option<bool>, redirect: Option<string>, children: seq<Child>)

  const AppPath: string := "/app"

  /** The nested routes of `/app`, in declaration order. */
  const AppChildren: seq<Child> := [
    Child("inbox", None), Child("board", None), Child("planner", None), Child("profile", None),
    Child("", Some("inbox"))
  ]

  /** `routes`, in declaration order. */
  const Routes: seq<Record> := [
    Record(Exact("/"), Some(false), None, []),
    Record(Exact("/login"), Some(false), None, []),
    Record(Exact("/forgot-password"), Some(false), None, []),
    Record(Exact(AppPath), Some(true), None, AppChildren),
    Record(CatchAll, None, Some("/"), [])
  ]

  const LoginPath: string := "/login"
  const HomePath: string := "/app/inbox"

  /** Which route a path matched: a top-level record, and a nested route of
      it when one matched. */
  datatype Match = Match(record: nat, child: Option<nat>)

  /** Where a navigation ends up once redirects are followed: `to.path` and
      `to.meta.requiresAuth` (an absent flag reads as false). */
  datatype Location = Location(path: string, requiresAuth: bool)

  /** The full path of a nested route. */
  function ChildPath(parent: string, c: Child): string {
    if c.path == "" then parent else parent + "/" + c.path
  }

  /** The first nested route, from position `from` on, whose full path is
      `path`. */
  function FindChild(parent: string, cs: seq<Child>, from: nat, path: string): (r: Option<nat>)
    requires from <= |cs|
    ensures r.Some? ==> from <= r.value < |cs| && ChildPath(parent, cs[r.value]) == path
    ensures r.Some? ==> forall j :: from <= j < r.value ==> ChildPath(parent, cs[j]) != path
    ensures r.None? <==> forall j :: from <= j < |cs| ==> ChildPath(parent, cs[j]) != path
    decreases |cs| - from
  {
    if from == |cs| then None
    else if ChildPath(parent, cs[from]) == path then Some(from)
    else FindChild(parent, cs, from + 1, path)
  }

  /** The route `path` matches: the first record, in order, that it matches,
      trying a record's nested routes before the record itself. */
  function MatchFrom(routes: seq<Record>, i: nat, path: string): (r: Option<Match>)
    requires i <= |routes|
    ensures r.Some? ==> i <= r.value.record < |routes|
    ensures r.Some? && r.value.child.Some? ==>
              routes[r.value.record].pattern.Exact? && r.value.child.value < |routes[r.value.record].children|
    decreases |routes| - i
  {
    if i == |routes| then None
    else
      var rec := routes[i];
      match rec.pattern
      case CatchAll => Some(Match(i, None))
      case Exact(p) =>
        match FindChild(p, rec.children, 0, path)
        case Some(j) => Some(Match(i, Some(j)))
        case None => if p == path then Some(Match(i, None)) else MatchFrom(routes, i + 1, path)
  }

  function MatchPath(path: string): Option<Match> {
    MatchFrom(Routes, 0, path)
  }

  /** Where a matched route redirects to, if anywhere. */
  function RedirectOf(m: Match): Option<string>
    requires m.record < |Routes|
    requires m.child.Some? ==> Routes[m.record].pattern.Exact? && m.child.value < |Routes[m.record].children|
  {
    var rec := Routes[m.record];
    match m.child
    case None => rec.redirect
    case Some(j) =>
      match rec.children[j].redirect
      case None => None
      case Some(target) => Some(rec.pattern.path + "/" + target)
  }

  /** `to.meta.requiresAuth` of a matched route: the record's flag, which
      its nested routes inherit. */
  function RequiresAuthOf(m: Match): bool
    requires m.record < |Routes|
  {
    Routes[m.record].requiresAuth.GetOr(false)
  }

  /** The location a navigation to `path` ends at: the matched route, or the
      target of its redirect. */
  function Resolve(path: string): (r: Location)
    ensures r.path == path || r.path == "/" || r.path == HomePath
  {
    match MatchPath(path)
    case None => Location(path, false)
    case Some(m) =>
      match RedirectOf(m)
      case None => Location(path, RequiresAuthOf(m))
      case Some(target) =>
        match MatchPath(target)
        case None => Location(target, false)
        case Some(m') => Location(target, RequiresAuthOf(m'))
  }

  /** The pages under `/app`. */
  predicate IsAppPage(path: string) {
    path in ["/app/inbox", "/app/board", "/app/planner", "/app/profile"]
  }

  /** The public pages. */
  predicate IsPublicPage(path: string) {
    path in ["/", "/login", "/forgot-password"]
  }

  /** A path that is not a public page gets past the three public records
      to the `/app` record. */
  lemma SkipPublic(path: string)
    requires !IsPublicPage(path)
    ensures MatchPath(path) == MatchFrom(Routes, 3, path)
  {
    assert Routes[0] == Record(Exact("/"), Some(false), None, []);
    assert Routes[1] == Record(Exact("/login"), Some(false), None, []);
    assert Routes[2] == Record(Exact("/forgot-password"), Some(false), None, []);
    assert MatchFrom(Routes, 2, path) == MatchFrom(Routes, 3, path);
    assert MatchFrom(Routes, 1, path) == MatchFrom(Routes, 2, path);
  }

  /** At the `/app` record: a nested route when one matches, else `/app`
      itself, else the catch-all. */
  lemma AtApp(path: string)
    ensures MatchFrom(Routes, 3, path) ==
              match FindChild(AppPath, AppChildren, 0, path)
              case Some(j) => Some(Match(3, Some(j)))
              case None => if path == AppPath then Some(Match(3, None)) else Some(Match(4, None))
  {
    assert Routes[3] == Record(Exact(AppPath), Some(true), None, AppChildren);
    assert Routes[4].pattern == CatchAll;
  }

  /** The full paths of the nested routes of `/app`. */
  lemma AppChildPaths()
    ensures ChildPath(AppPath, AppChildren[0]) == "/app/inbox"
    ensures ChildPath(AppPath, AppChildren[1]) == "/app/board"
    ensures ChildPath(AppPath, AppChildren[2]) == "/app/planner"
    ensures ChildPath(AppPath, AppChildren[3]) == "/app/profile"
    ensures ChildPath(AppPath, AppChildren[4]) == AppPath
  {
  }

  /** The nested route of `/app` each app page matches; none of them
      redirects. */
  lemma AppChild(path: string) returns (j: nat)
    requires IsAppPage(path)
    ensures j < 4 && FindChild(AppPath, AppChildren, 0, path) == Some(j)
    ensures AppChildren[j].redirect == None
  {
    AppChildPaths();
    var r := FindChild(AppPath, AppChildren, 0, path);
    if path == "/app/inbox" {
      j := 0;
    } else if path == "/app/board" {
      assert "/app/inbox"[5] != path[5];
      j := 1;
    } else if path == "/app/planner" {
      assert |"/app/inbox"| != |path| && |"/app/board"| != |path|;
      j := 2;
    } else {
      assert |"/app/inbox"| != |path| && |"/app/board"| != |path|;
      assert "/app/planner"[6] != path[6];
      j := 3;
    }
    assert r.Some? && r.value <= j;
    assert |AppPath| != |path|;
  }

  lemma AppPages(path: string)
    requires IsAppPage(path)
    ensures Resolve(path) == Location(path, true)
  {
    assert !IsPublicPage(path) by {
      assert |path| >= 10;
    }
    SkipPublic(path);
    AtApp(path);
    var j := AppChild(path);
    assert MatchPath(path) == Some(Match(3, Some(j)));
  }

  lemma PublicPages(path: string)
    requires IsPublicPage(path)
    ensures Resolve(path) == Location(path, false)
  {
    assert Routes[0] == Record(Exact("/"), Some(false), None, []);
    assert Routes[1] == Record(Exact("/login"), Some(false), None, []);
    assert Routes[2] == Record(Exact("/forgot-password"), Some(false), None, []);
    if path != "/" {
      assert MatchFrom(Routes, 0, path) == MatchFrom(Routes, 1, path);
      if path != "/login" {
        assert MatchFrom(Routes, 1, path) == MatchFrom(Routes, 2, path);
      }
    }
  }

  /** The route table's meta, as resolution sees it: the three public pages
      stay put and need no session; the four app pages stay put and need
      one; `/app` itself redirects to the inbox; every other path falls to
      the catch-all and ends at `/`. */
  lemma RouteTable(path: string)
    ensures IsPublicPage(path) ==> Resolve(path) == Location(path, false)
    ensures IsAppPage(path) ==> Resolve(path) == Location(path, true)
    ensures path == AppPath ==> Resolve(path) == Location(HomePath, true)
    ensures !IsPublicPage(path) && !IsAppPage(path) && path != AppPath ==> Resolve(path) == Location("/", false)
  {
    if IsAppPage(path) {
      AppPages(path);
    } else if IsPublicPage(path) {
      PublicPages(path);
    } else if path == AppPath {
      AppRoot();
    } else {
      OtherPaths(path);
    }
  }

  lemma AppRoot()
    ensures Resolve(AppPath) == Location(HomePath, true)
  {
    AppChildPaths();
    assert |AppPath| != |"/app/inbox"| && |AppPath| != |"/app/board"|;
    assert |AppPath| != |"/app/planner"| && |AppPath| != |"/app/profile"|;
    assert FindChild(AppPath, AppChildren, 0, AppPath) == Some(4);
    SkipPublic(AppPath);
    AtApp(AppPath);
    assert MatchPath(AppPath) == Some(Match(3, Some(4)));
    assert AppPath + "/" + "inbox" == HomePath;
    assert RedirectOf(Match(3, Some(4))) == Some(HomePath);
    AppPages(HomePath);
  }

  lemma OtherPaths(path: string)
    requires !IsPublicPage(path) && !IsAppPage(path) && path != AppPath
    ensures Resolve(path) == Location("/", false)
  {
    NoAppChild(path);
    SkipPublic(path);
    AtApp(path);
    assert MatchPath(path) == Some(Match(4, None));
    PublicPages("/");
  }

  /** A path that is none of the app paths matches no nested route of `/app`. */
  lemma NoAppChild(path: string)
    requires !IsAppPage(path) && path != AppPath
    ensures FindChild(AppPath, AppChildren, 0, path).None?
  {
    AppChildPaths();
    forall j | 0 <= j < |AppChildren| ensures ChildPath(AppPath, AppChildren[j]) != path {
      assert j == 0 || j == 1 || j == 2 || j == 3 || j == 4;
    }
  }

  /** What the guard passes to `next`: no argument, or a path. */
  datatype Decision = Proceed | RedirectTo(path: string)

  /** The `router.beforeEach` guard. */
  function Guard(to: Location, loggedIn: bool): (d: Decision)
    ensures d.RedirectTo? ==> d.path == LoginPath || d.path == HomePath
    ensures loggedIn ==> d != RedirectTo(LoginPath)
    ensures !loggedIn ==> d != RedirectTo(HomePath)
  {
    if to.requiresAuth && !loggedIn then RedirectTo(LoginPath)
    else if to.path == LoginPath && loggedIn then RedirectTo(HomePath)
    else Proceed
  }

  /** Signed out, a protected route goes to `/login`; signed in, `/login`
      goes to the inbox; every other navigation goes ahead. */
  lemma GuardSpec(to: Location, loggedIn: bool)
    ensures Guard(to, loggedIn) == RedirectTo(LoginPath) <==> to.requiresAuth && !loggedIn
    ensures Guard(to, loggedIn) == RedirectTo(HomePath) <==> to.path == LoginPath && loggedIn
    ensures Guard(to, loggedIn) == Proceed <==> !(to.requiresAuth && !loggedIn) && !(to.path == LoginPath && loggedIn)
  {
  }

  /** The guard never redirects twice: where it sends a navigation, it lets
      that navigation through. */
  lemma NoLoop(path: string, loggedIn: bool)
    ensures Guard(Resolve(path), loggedIn).RedirectTo? ==>
              Guard(Resolve(Guard(Resolve(path), loggedIn).path), loggedIn) == Proceed
  {
    RouteTable(LoginPath);
    RouteTable(HomePath);
  }

  /** Resolving is settled: the location a path ends at resolves to itself. */
  lemma ResolveSettles(path: string)
    ensures Resolve(Resolve(path).path) == Resolve(path)
  {
    RouteTable(path);
    RouteTable(Resolve(path).path);
  }
}
