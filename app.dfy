/**
 * The router and the authentication gate of the single-page app. Three routes
 * sit outside the gated layout; every other route is rendered by the layout,
 * which shows a loading screen while the session is being restored and the
 * sign-in screen to a visitor without a session, except on a public profile
 * view (`/profile?username=...`).
 *
 * Paths are compared as written (exact text).
 */
module App {
  import opened Basics
  import opened Uri

  datatype Page =
    | Index | ForgotPassword | UpdatePassword
    | Notes | Lectures | Placement | Groups | About | SupportUs | Upload | Profile | AiChat | Admin | Leaderboard
    | NotFound

  /** What the browser shows. */
  datatype Screen = LoadingScreen | SignIn | Show(page: Page)

  /** The three routes declared outside the layout. */
  function OutsidePage(path: string): Option<Page> {
    match path
    case "/" => Some(Index)
    case "/forgot-password" => Some(ForgotPassword)
    case "/update-password" => Some(UpdatePassword)
    case _ => None
  }

  /** The routes inside the layout; the catch-all `*` gives NotFound. */
  function LayoutPage(path: string): Page {
    match path
    case "/notes" => Notes
    case "/lectures" => Lectures
    case "/placement" => Placement
    case "/groups" => Groups
    case "/about" => About
    case "/support-us" => SupportUs
    case "/upload" => Upload
    case "/profile" => Profile
    case "/ai-chat" => AiChat
    case "/admin" => Admin
    case "/leaderboard" => Leaderboard
    case _ => NotFound
  }

  /** A link target split into the router's `pathname` and `search` (from the first '?'). */
  function Location(url: string): (r: (string, string))
    ensures r.0 + r.1 == url && '?' !in r.0
    ensures r.1 != [] ==> r.1[0] == '?'
  {
    var i := IndexOf(url, '?');
    assert url[..i] + url[i..] == url;
    (url[..i], url[i..])
  }

  /** A path without '?' followed by a query splits back into the two. */
  lemma LocationOfPathAndQuery(path: string, query: string)
    requires '?' !in path
    ensures Location(path + ("?" + query)) == (path, "?" + query)
  {
    var url := path + ("?" + query);
    assert url[..|path|] == path;
    IndexOfAt(url, '?', |path|);
  }

  /** `pathname === '/profile' && searchParams.has('username')` */
  predicate IsPublicProfileView(path: string, search: string) {
    path == "/profile" && Get(ParseQuery(search), "username").Some?
  }

  /** The layout's decision: loading first, then the sign-in gate, then the page. */
  function LayoutScreen(path: string, search: string, loading: bool, loggedIn: bool): Screen {
    if loading then LoadingScreen
    else if !loggedIn && !IsPublicProfileView(path, search) then SignIn
    else Show(LayoutPage(path))
  }

  /** What a location shows, given the session state. */
  function ScreenAt(path: string, search: string, loading: bool, loggedIn: bool): Screen {
    match OutsidePage(path)
    case Some(p) => Show(p)
    case None => LayoutScreen(path, search, loading, loggedIn)
  }

  /** The three outside routes show their page whatever the session state. */
  lemma OutsideRoutesUngated(search: string, loading: bool, loggedIn: bool)
    ensures ScreenAt("/", search, loading, loggedIn) == Show(Index)
    ensures ScreenAt("/forgot-password", search, loading, loggedIn) == Show(ForgotPassword)
    ensures ScreenAt("/update-password", search, loading, loggedIn) == Show(UpdatePassword)
  {
  }

  /** Every other path is gated: while loading only the loading screen shows; without a
      session the sign-in screen shows exactly when the location is not a public profile
      view; with a session the routed page shows. */
  lemma AuthGate(path: string, search: string, loading: bool, loggedIn: bool)
    requires OutsidePage(path).None?
    ensures loading ==> ScreenAt(path, search, loading, loggedIn) == LoadingScreen
    ensures !loading && !loggedIn ==>
      (ScreenAt(path, search, loading, loggedIn) == SignIn <==> !IsPublicProfileView(path, search))
    ensures !loading && (loggedIn || IsPublicProfileView(path, search)) ==>
      ScreenAt(path, search, loading, loggedIn) == Show(LayoutPage(path))
  {
  }

  /** The profile route, once loaded: the profile page for a signed-in viewer or a
      public profile view, the sign-in screen otherwise. */
  lemma ProfileScreen(search: string, loggedIn: bool)
    ensures ScreenAt("/profile", search, false, loggedIn)
      == if loggedIn || IsPublicProfileView("/profile", search) then Show(Profile) else SignIn
  {
  }

  /** A public profile view renders the profile page to a visitor without a session. */
  lemma PublicProfileForVisitors(search: string)
    requires IsPublicProfileView("/profile", search)
    ensures ScreenAt("/profile", search, false, false) == Show(Profile)
  {
  }

  /** Without a session, a page shows only on the outside routes and on a public profile
      view, where it is the profile page. */
  lemma VisitorsSeeOnlyPublicPages(path: string, search: string)
    ensures ScreenAt(path, search, false, false).Show? <==>
      OutsidePage(path).Some? || IsPublicProfileView(path, search)
    ensures ScreenAt(path, search, false, false).Show? && OutsidePage(path).None? ==>
      ScreenAt(path, search, false, false) == Show(Profile)
  {
  }

  /** An unlisted path inside the layout renders NotFound, behind the same gate. */
  lemma UnmatchedIsNotFound(path: string, search: string)
    requires OutsidePage(path).None?
    requires path !in ["/notes", "/lectures", "/placement", "/groups", "/about", "/support-us",
                       "/upload", "/profile", "/ai-chat", "/admin", "/leaderboard"]
    ensures ScreenAt(path, search, false, true) == Show(NotFound)
    ensures ScreenAt(path, search, false, false) == SignIn
  {
  }

  /** A link made from a user id alone (`?userId=<id>`) is not a public profile view, so a
      visitor without a session meets the sign-in screen. */
  lemma UserIdLinkIsGated(id: string)
    ensures !IsPublicProfileView("/profile", "?" + TemplateQuery([("userId", id)]))
    ensures ScreenAt("/profile", "?" + TemplateQuery([("userId", id)]), false, false) == SignIn
  {
    assert PlainName("userId") by { assert forall i :: 0 <= i < 6 ==> IsUriUnreserved("userId"[i]); }
    TemplateQueryRoundTrip([("userId", id)]);
    assert Get([("userId", id)], "username") == None;
  }

  /** A `?username=<name>` link is a public profile view, whatever the name. */
  lemma UsernameLinkIsPublic(name: string)
    ensures IsPublicProfileView("/profile", "?" + TemplateQuery([("username", name)]))
  {
    assert PlainName("username") by { assert forall i :: 0 <= i < 8 ==> IsUriUnreserved("username"[i]); }
    TemplateQueryRoundTrip([("username", name)]);
  }
}
