/** The route gate of middleware.js: a pure decision from the request path
    and the value of the `task_auth` cookie to letting the request through
    or redirecting it to the login page. */
module Gate {
  import opened Optional

  /** `NextResponse.next()` or `NextResponse.redirect(new URL(location, req.url))`.
      The redirect keeps the request's origin; only the path is modelled. */
  datatype Decision = Pass | Redirect(location: string)

  const LoginPath: string := "/login"

  /** The cookie value that marks a signed-in user. */
  const AuthValue: string := "ok"

  /** `s.startsWith(prefix)`. */
  predicate StartsWith(s: string, prefix: string) {
    |prefix| <= |s| && s[..|prefix|] == prefix
  }

  /** Framework assets, API routes, the login page and the favicon are
      reachable without signing in. Only the exact login path is exempt. */
  predicate Exempt(path: string)
    ensures path == LoginPath ==> Exempt(path)
    ensures Exempt(path) ==> |path| >= 4 && path[0] == '/'
    ensures path == "/" ==> !Exempt(path)
  {
    StartsWith(path, "/_next") || StartsWith(path, "/api") || path == LoginPath || StartsWith(path, "/favicon")
  }

  /** `middleware(req)`, given `req.nextUrl.pathname` and
      `req.cookies.get('task_auth')?.value`. */
  function Middleware(path: string, authCookie: Option<string>): (d: Decision)
    ensures d.Redirect? ==> d.location == LoginPath
    ensures d.Redirect? ==> authCookie != Some(AuthValue)
  {
    if Exempt(path) then Pass
    else if authCookie != Some(AuthValue) then Redirect(LoginPath)
    else Pass
  }

  /** Exempt paths pass whatever the cookie says, including no cookie. */
  lemma ExemptPathsPass(path: string, authCookie: Option<string>)
    requires Exempt(path)
    ensures Middleware(path, authCookie) == Pass
  {
  }

  /** Everything under the asset, API and favicon prefixes is exempt. */
  lemma {:induction false} ExemptPrefixes(rest: string)
    ensures Exempt("/_next" + rest) && Exempt("/api" + rest) && Exempt("/favicon" + rest)
  {
    assert ("/_next" + rest)[..6] == "/_next";
    assert ("/api" + rest)[..4] == "/api";
    assert ("/favicon" + rest)[..8] == "/favicon";
  }

  /** Any other path without the right cookie value goes to the login page. */
  lemma UnauthenticatedRedirected(path: string, authCookie: Option<string>)
    requires !Exempt(path) && authCookie != Some(AuthValue)
    ensures Middleware(path, authCookie) == Redirect(LoginPath)
  {
  }

  /** Any other path with the cookie value `ok` passes. */
  lemma AuthenticatedPasses(path: string)
    ensures Middleware(path, Some(AuthValue)) == Pass
  {
  }

  /** The decision in one line: a request passes exactly when its path is
      exempt or it carries the cookie value `ok`. */
  lemma PassCharacterised(path: string, authCookie: Option<string>)
    ensures Middleware(path, authCookie) == Pass <==> Exempt(path) || authCookie == Some(AuthValue)
  {
  }

  /** Only the exact login path is exempt: a longer path starting with it,
      such as `/login/` or `/loginx`, needs the cookie. */
  lemma {:induction false} LoginIsExact(rest: string, authCookie: Option<string>)
    requires |rest| > 0 && authCookie != Some(AuthValue)
    ensures Middleware(LoginPath + rest, authCookie) == Redirect(LoginPath)
  {
    var p := LoginPath + rest;
    assert p[1] == 'l';
    assert p != LoginPath by {
      assert |p| > |LoginPath|;
    }
  }

  /** Following a redirect always passes: the login page is exempt, so the
      gate never sends a browser round in circles. */
  lemma NoRedirectLoop(path: string, authCookie: Option<string>, nextCookie: Option<string>)
    requires Middleware(path, authCookie).Redirect?
    ensures Middleware(Middleware(path, authCookie).location, nextCookie) == Pass
  {
  }

  /** Signing in never turns a pass into a redirect. */
  lemma SigningInIsMonotone(path: string, authCookie: Option<string>)
    ensures Middleware(path, authCookie) == Pass ==> Middleware(path, Some(AuthValue)) == Pass
    ensures Middleware(path, Some(AuthValue)).Redirect? ==> Middleware(path, authCookie).Redirect?
  {
  }

  /** The board itself, at `/`, needs signing in. */
  lemma BoardNeedsSignIn(authCookie: Option<string>)
    requires authCookie != Some(AuthValue)
    ensures Middleware("/", authCookie) == Redirect(LoginPath)
  {
  }
}
