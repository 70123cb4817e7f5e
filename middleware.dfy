/** The route guard run before every page request (src/middleware.ts): it looks at
    whether the request carries a session token, the token's role and the path,
    and either lets the request through or redirects it. */
module Middleware {
  import opened Wrappers
  import opened Text

  /** The decoded session token; only its role is consulted. */
  datatype Token = Token(role: Option<string>)

  datatype Decision = RedirectToSignIn | RedirectToHome | PassThrough

  const SignInPath: string := "/auth/signin"
  const HomePath: string := "/"

  /** Pages reachable without logging in. */
  const PublicPaths: seq<string> :=
    [SignInPath, "/auth/forgot-password", "/auth/reset-password", "/auth/verify-otp"]

  /** Pages reserved to administrators: the single prefix "/", i.e. every page. */
  const AdminOnlyPaths: seq<string> := [HomePath]

  /** `paths.some((path) => pathname.startsWith(path))`. */
  function SomePrefix(paths: seq<string>, pathname: string): (r: bool)
    ensures r <==> exists i :: 0 <= i < |paths| && StartsWith(pathname, paths[i])
  {
    if paths == [] then false
    else StartsWith(pathname, paths[0]) || SomePrefix(paths[1..], pathname)
  }

  predicate IsPublicPath(pathname: string) {
    SomePrefix(PublicPaths, pathname)
  }

  predicate IsAdminPath(pathname: string) {
    SomePrefix(AdminOnlyPaths, pathname)
  }

  predicate IsAdmin(token: Token) {
    token.role == Some("admin")
  }

  /** The guard's decision; the rules are tried in the order the source lists them.
      As a table: an anonymous request passes exactly on a public path and is never
      sent home; an admin is sent home exactly from a public path and never to
      sign-in; anyone else is sent to sign-in from every admin-only path. */
  function Guard(token: Option<Token>, pathname: string): (d: Decision)
    ensures token.None? ==> d != RedirectToHome && (d == PassThrough <==> IsPublicPath(pathname))
    ensures token.Some? && IsAdmin(token.value) ==>
      d != RedirectToSignIn && (d == RedirectToHome <==> IsPublicPath(pathname))
    ensures token.Some? && !IsAdmin(token.value) && IsAdminPath(pathname) ==> d == RedirectToSignIn
  {
    if token.None? && !IsPublicPath(pathname) then RedirectToSignIn
    else if token.Some? && IsAdminPath(pathname) && !IsAdmin(token.value) then RedirectToSignIn
    else if token.Some? && IsPublicPath(pathname) then RedirectToHome
    else PassThrough
  }

  /** The paths the `config.matcher` pattern `/((?!api|_next/static|_next/image|favicon.ico).*)`
      hands to the guard: a leading "/" not followed by one of the excluded names
      (the `.` of `favicon.ico` is a regular-expression wildcard). */
  predicate Matched(pathname: string) {
    |pathname| > 0 && pathname[0] == '/' &&
    var rest := pathname[1..];
    !StartsWith(rest, "api") && !StartsWith(rest, "_next/static") &&
    !StartsWith(rest, "_next/image") &&
    !(|rest| >= 11 && rest[..7] == "favicon" && rest[8..11] == "ico")
  }

  /** What happens to a request: paths outside the matcher never reach the guard
      and are served as they are. */
  function Route(token: Option<Token>, pathname: string): (d: Decision)
    ensures !Matched(pathname) ==> d == PassThrough
    ensures Matched(pathname) ==> d == Guard(token, pathname)
  {
    if Matched(pathname) then Guard(token, pathname) else PassThrough
  }

  /** Requests for API routes, Next.js assets and the favicon are never redirected,
      whoever makes them. */
  lemma ExcludedPathsNeverRedirected(token: Option<Token>, suffix: string)
    ensures Route(token, "/api" + suffix) == PassThrough
    ensures Route(token, "/_next/static" + suffix) == PassThrough
    ensures Route(token, "/_next/image" + suffix) == PassThrough
    ensures Route(token, "/favicon.ico" + suffix) == PassThrough
  {
    assert ("/api" + suffix)[1..][..3] == "api";
    assert ("/_next/static" + suffix)[1..][..12] == "_next/static";
    assert ("/_next/image" + suffix)[1..][..11] == "_next/image";
    var f := ("/favicon.ico" + suffix)[1..];
    assert f == "favicon.ico" + suffix;
    assert f[..7] == "favicon" && f[8..11] == "ico";
  }

  /** A logged-in non-admin is sent to sign in from every path the matcher selects. */
  lemma NonAdminBouncedOnMatchedPaths(token: Token, pathname: string)
    requires !IsAdmin(token) && Matched(pathname)
    ensures Route(Some(token), pathname) == RedirectToSignIn
  {
    NonAdminAlwaysBounced(token, pathname);
  }

  /** The matcher selects every page of the dashboard and the sign-in page. */
  lemma PagesAreMatched()
    ensures Matched(SignInPath) && Matched(HomePath) && Matched("/rewards")
  {
    var a, r := SignInPath[1..], "/rewards"[1..];
    assert a[1] == 'u' && "api"[1] == 'p' && a[0] != '_' && a[0] != 'f';
    assert r[0] == 'r';
  }

  /** A path is public exactly when it begins with one of the four public prefixes. */
  lemma PublicPathIff(pathname: string)
    ensures IsPublicPath(pathname) <==>
      StartsWith(pathname, "/auth/signin") || StartsWith(pathname, "/auth/forgot-password") ||
      StartsWith(pathname, "/auth/reset-password") || StartsWith(pathname, "/auth/verify-otp")
  {
    assert PublicPaths[0] == "/auth/signin" && PublicPaths[1] == "/auth/forgot-password";
    assert PublicPaths[2] == "/auth/reset-password" && PublicPaths[3] == "/auth/verify-otp";
  }

  /** The public test is a prefix test: anything below a public page is public too. */
  lemma PublicBelowPublic(pathname: string, suffix: string)
    requires IsPublicPath(pathname)
    ensures IsPublicPath(pathname + suffix)
  {
    var i :| 0 <= i < |PublicPaths| && StartsWith(pathname, PublicPaths[i]);
    assert (pathname + suffix)[..|PublicPaths[i]|] == pathname[..|PublicPaths[i]|];
  }

  /** Every path of a request URL (it begins with "/") is an admin-only path. */
  lemma EveryPathIsAdminOnly(pathname: string)
    requires |pathname| > 0 && pathname[0] == '/'
    ensures IsAdminPath(pathname)
  {
    assert pathname[..1] == [pathname[0]] == HomePath;
    assert StartsWith(pathname, AdminOnlyPaths[0]);
  }

  /** Without a token, a non-public page redirects to the sign-in page. */
  lemma AnonymousOnProtectedPage(pathname: string)
    requires !IsPublicPath(pathname)
    ensures Guard(None, pathname) == RedirectToSignIn
  {
  }

  /** Without a token, a public page is let through: every later rule needs a token. */
  lemma AnonymousOnPublicPage(pathname: string)
    requires IsPublicPath(pathname)
    ensures Guard(None, pathname) == PassThrough
  {
  }

  /** A request without a token is never sent to the home page. */
  lemma AnonymousNeverSentHome(pathname: string)
    ensures Guard(None, pathname) != RedirectToHome
  {
  }

  /** Any logged-in user who is not an admin is sent to sign in, on every page,
      public pages included: the role rule comes before the public-page rule. */
  lemma NonAdminAlwaysBounced(token: Token, pathname: string)
    requires !IsAdmin(token)
    requires |pathname| > 0 && pathname[0] == '/'
    ensures Guard(Some(token), pathname) == RedirectToSignIn
  {
    EveryPathIsAdminOnly(pathname);
  }

  /** For a logged-in non-admin the sign-in page redirects to itself, so such a
      user can never reach a page that is let through. */
  lemma NonAdminSignInRedirectsToItself(token: Token)
    requires !IsAdmin(token)
    ensures Guard(Some(token), SignInPath) == RedirectToSignIn
    ensures forall p :: |p| > 0 && p[0] == '/' ==> Guard(Some(token), p) != PassThrough
  {
    assert SignInPath[0] == '/';
    NonAdminAlwaysBounced(token, SignInPath);
    forall p | |p| > 0 && p[0] == '/' ensures Guard(Some(token), p) != PassThrough {
      NonAdminAlwaysBounced(token, p);
    }
  }

  /** An admin on a public page is sent to the home page. */
  lemma AdminOnPublicPage(token: Token, pathname: string)
    requires IsAdmin(token) && IsPublicPath(pathname)
    ensures Guard(Some(token), pathname) == RedirectToHome
  {
  }

  /** An admin on any other page is let through. */
  lemma AdminOnProtectedPage(token: Token, pathname: string)
    requires IsAdmin(token) && !IsPublicPath(pathname)
    ensures Guard(Some(token), pathname) == PassThrough
  {
  }

  /** A request is let through exactly when it is anonymous on a public page or an
      admin's on a non-public page (for URL paths, which begin with "/"). */
  lemma PassThroughIff(token: Option<Token>, pathname: string)
    requires |pathname| > 0 && pathname[0] == '/'
    ensures Guard(token, pathname) == PassThrough <==>
      (token.None? && IsPublicPath(pathname)) ||
      (token.Some? && IsAdmin(token.value) && !IsPublicPath(pathname))
  {
    EveryPathIsAdminOnly(pathname);
  }
}
