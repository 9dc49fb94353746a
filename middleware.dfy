/** The request middleware guarding the admin area: a path and the value
    of the `admin_authenticated` cookie decide between a redirect and
    letting the request through. The `config.matcher` decides which paths
    reach the middleware at all. */
module Middleware {
  import opened Wrappers
  import opened Strings

  const ADMIN := "/admin"
  const LOGIN := "/admin/login"

  datatype Decision = PassThrough | Redirect(target: string)

  /** The cookie's value, `None` when the cookie is absent. */
  predicate IsAuthenticated(cookie: Option<string>) {
    cookie == Some("true")
  }

  /** An admin page other than the login pages. */
  predicate Protected(path: string) {
    StartsWith(path, ADMIN) && !StartsWith(path, LOGIN)
  }

  function Route(path: string, cookie: Option<string>): Decision {
    if Protected(path) && !IsAuthenticated(cookie) then Redirect(LOGIN)
    else if path == LOGIN && IsAuthenticated(cookie) then Redirect(ADMIN)
    else PassThrough
  }

  /** Only the exact cookie value `"true"` authenticates: an absent cookie
      or any other value is sent to the login page from every protected
      page, and the exact value opens every protected page. */
  lemma RouteAuthentication(path: string, cookie: Option<string>)
    requires Protected(path)
    ensures Route(path, cookie) == PassThrough <==> cookie == Some("true")
    ensures Route(path, cookie) != PassThrough ==> Route(path, cookie) == Redirect(LOGIN)
  {
  }

  /** The three outcomes: an unauthenticated visitor of a protected page
      goes to the login page, an authenticated visitor of the login page
      goes to the dashboard, and every other request passes. */
  lemma RouteSpec(path: string, cookie: Option<string>)
    ensures Route(path, cookie) == Redirect(LOGIN) <==> Protected(path) && !IsAuthenticated(cookie)
    ensures Route(path, cookie) == Redirect(ADMIN) <==> path == LOGIN && IsAuthenticated(cookie)
    ensures Route(path, cookie) == PassThrough <==>
              !(Protected(path) && !IsAuthenticated(cookie)) &&
              !(path == LOGIN && IsAuthenticated(cookie))
  {
  }

  /** Following a redirect with the same cookie lands on a page that lets
      the request through: the middleware never redirects in a loop. */
  lemma NoRedirectLoop(path: string, cookie: Option<string>)
    ensures Route(path, cookie).Redirect? ==>
              Route(Route(path, cookie).target, cookie) == PassThrough
  {
    assert LOGIN[..|ADMIN|] == ADMIN;
    assert StartsWith(LOGIN, LOGIN);
    assert StartsWith(ADMIN, ADMIN);
    assert !StartsWith(ADMIN, LOGIN);
  }

  /** Pages outside the admin area are never redirected. */
  lemma PublicPagesPass(path: string, cookie: Option<string>)
    requires !StartsWith(path, ADMIN)
    ensures Route(path, cookie) == PassThrough
  {
    assert StartsWith(LOGIN, ADMIN) by {
      assert LOGIN[..|ADMIN|] == ADMIN;
    }
  }

  /** `s` ends with `suffix`. */
  predicate EndsWith(s: string, suffix: string) {
    |suffix| <= |s| && s[|s| - |suffix|..] == suffix
  }

  /** `.*\.(?:svg|png|jpg|jpeg|gif|webp)$`: a name ending in an image
      extension. */
  predicate ImageFile(rest: string) {
    EndsWith(rest, ".svg") || EndsWith(rest, ".png") || EndsWith(rest, ".jpg") ||
    EndsWith(rest, ".jpeg") || EndsWith(rest, ".gif") || EndsWith(rest, ".webp")
  }

  /** `favicon.ico` in the pattern: its `.` is unescaped and matches any
      character. */
  predicate FaviconPrefix(rest: string) {
    |rest| >= 11 && rest[..7] == "favicon" && rest[8..11] == "ico"
  }

  /** The matcher `/((?!_next/static|_next/image|favicon.ico|.*\.(?:svg|png|jpg|jpeg|gif|webp)$).*)`:
      a path reaches the middleware unless what follows its leading `/`
      starts with a static-asset prefix or names an image file. */
  predicate Matched(path: string) {
    |path| >= 1 && path[0] == '/' &&
    var rest := path[1..];
    !StartsWith(rest, "_next/static") && !StartsWith(rest, "_next/image") &&
    !FaviconPrefix(rest) && !ImageFile(rest)
  }

  /** What a request gets: paths the matcher excludes never run the
      middleware and pass through. */
  function Handle(path: string, cookie: Option<string>): Decision {
    if Matched(path) then Route(path, cookie) else PassThrough
  }

  /** Every image extension ends in `g`, `f` or `p`. */
  lemma NotImageByLastChar(rest: string)
    requires rest != [] && rest[|rest| - 1] != 'g' && rest[|rest| - 1] != 'f' && rest[|rest| - 1] != 'p'
    ensures !ImageFile(rest)
  {
  }

  /** Every excluded prefix starts with `_` or `f`. */
  lemma NotAssetByFirstChar(rest: string)
    requires rest != [] && rest[0] != '_' && rest[0] != 'f'
    ensures !StartsWith(rest, "_next/static") && !StartsWith(rest, "_next/image") && !FaviconPrefix(rest)
  {
  }

  /** Every admin path that does not name an image file runs the
      middleware, so its routing is `Route`'s; an image under `/admin`
      passes even without the cookie. */
  lemma HandleSpec(path: string, cookie: Option<string>)
    ensures StartsWith(path, ADMIN) && !ImageFile(path[1..]) ==> Handle(path, cookie) == Route(path, cookie)
    ensures path != [] && ImageFile(path[1..]) ==> Handle(path, cookie) == PassThrough
    ensures Handle("/admin/logo.png", None) == PassThrough && Route("/admin/logo.png", None) == Redirect(LOGIN)
  {
    if StartsWith(path, ADMIN) {
      assert path[..6] == "/admin";
      NotAssetByFirstChar(path[1..]);
    }
    AdminImage();
  }

  /** An image under `/admin` is let through by the matcher, though
      `Route` alone would send it to the login page. */
  lemma AdminImage()
    ensures Handle("/admin/logo.png", None) == PassThrough && Route("/admin/logo.png", None) == Redirect(LOGIN)
  {
    var img := "/admin/logo.png";
    assert img[1..][|img[1..]| - 4..] == ".png";
    assert Protected(img) by {
      assert img[..|ADMIN|] == ADMIN;
      assert img[..|LOGIN|] != LOGIN by { assert img[10] != LOGIN[10]; }
    }
  }

  /** The redirect targets run the middleware too, and following a
      redirect with the same cookie never redirects again. */
  lemma HandleNoRedirectLoop(path: string, cookie: Option<string>)
    ensures Handle(path, cookie).Redirect? ==>
              Handle(Handle(path, cookie).target, cookie) == PassThrough
  {
    NoRedirectLoop(path, cookie);
    NotAssetByFirstChar(ADMIN[1..]);
    NotImageByLastChar(ADMIN[1..]);
    NotAssetByFirstChar(LOGIN[1..]);
    NotImageByLastChar(LOGIN[1..]);
  }
}
