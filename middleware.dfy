/**
 * The route guard run before every page request: without a configured
 * backend, or when the session cannot be read, everything but the login page
 * goes to the login page; otherwise a visitor without a session is sent to
 * the login page unless the path is public, and a signed-in visitor asking
 * for the login page is sent home.
 *
 * The two environment variables, the request path and what reading the
 * session gave are the inputs; the answer is to let the request through or
 * to redirect it.
 */
module Middleware {
  import opened Wrappers

  const LoginPath: string := "/login"
  const HomePath: string := "/"
  const CallbackPath: string := "/auth/callback"

  /** The routes reachable without a session, matched as prefixes of the path. */
  const PublicRoutes: seq<string> := [LoginPath, CallbackPath]

  datatype Decision = Pass | Redirect(to: string)

  /** What asking the auth service for the session gave: a session or none, or an exception. */
  datatype SessionRead = Session(present: bool) | Threw

  /** `s.includes(sub)`: sub occurs somewhere in s. */
  function Contains(s: string, sub: string): bool
    decreases |s|
  {
    sub <= s || (s != [] && Contains(s[1..], sub))
  }

  /** sub is the slice of s that starts at position i. */
  predicate OccursAt(s: string, sub: string, i: int)
  {
    0 <= i <= |s| - |sub| && s[i..i + |sub|] == sub
  }

  /** `includes` holds exactly when sub is the slice of s at some position. */
  lemma {:induction false} ContainsAt(s: string, sub: string)
    ensures Contains(s, sub) <==> exists i :: OccursAt(s, sub, i)
    decreases |s|
  {
    if sub <= s {
      assert OccursAt(s, sub, 0);
    } else if s == [] {
      assert forall i :: !OccursAt(s, sub, i);
    } else {
      ContainsAt(s[1..], sub);
      assert OccursAt(s, sub, 0) ==> sub <= s;
      forall i | OccursAt(s, sub, i) && i > 0
        ensures OccursAt(s[1..], sub, i - 1)
      {
        assert s[1..][i - 1..i - 1 + |sub|] == s[i..i + |sub|];
      }
      forall j | OccursAt(s[1..], sub, j)
        ensures OccursAt(s, sub, j + 1)
      {
        assert s[1..][j..j + |sub|] == s[j + 1..j + 1 + |sub|];
      }
    }
  }

  /** An environment value is set when present and not empty (JavaScript truthiness). */
  predicate IsSet(v: Option<string>)
  {
    v.Some? && v.value != ""
  }

  /** The backend counts as configured when both values are set and the URL is no placeholder. */
  predicate Configured(url: Option<string>, anonKey: Option<string>)
    ensures Configured(url, anonKey) ==>
      url.Some? && anonKey.Some? && forall i :: !OccursAt(url.value, "placeholder", i)
  {
    IsSet(url) && IsSet(anonKey) && (ContainsAt(url.value, "placeholder"); !Contains(url.value, "placeholder"))
  }

  /** `publicRoutes.some(route => pathname.startsWith(route))`. */
  function StartsWithAny(path: string, routes: seq<string>): (r: bool)
    ensures r <==> exists route | route in routes :: route <= path
  {
    if routes == [] then false
    else
      assert routes[0] in routes;
      assert forall x :: x in routes <==> x == routes[0] || x in routes[1..];
      routes[0] <= path || StartsWithAny(path, routes[1..])
  }

  /** A path is public exactly when it starts with '/login' or with '/auth/callback'. */
  function IsPublicRoute(path: string): (r: bool)
    ensures r <==> LoginPath <= path || CallbackPath <= path
  {
    assert LoginPath in PublicRoutes && CallbackPath in PublicRoutes;
    StartsWithAny(path, PublicRoutes)
  }

  /** Only the login page itself is let through; every other path goes to it. */
  function LoginOnly(path: string): (d: Decision)
    ensures d == Pass <==> path == LoginPath
    ensures d != Pass ==> d == Redirect(LoginPath)
  {
    if path != LoginPath then Redirect(LoginPath) else Pass
  }

  /** `middleware`: the decision for one request. */
  function Guard(url: Option<string>, anonKey: Option<string>, path: string, session: SessionRead): (d: Decision)
    ensures !Configured(url, anonKey) || session.Threw? ==> d == LoginOnly(path)
    ensures Configured(url, anonKey) && session == Session(false) ==>
      d == if IsPublicRoute(path) then Pass else Redirect(LoginPath)
    ensures Configured(url, anonKey) && session == Session(true) ==>
      d == if path == LoginPath then Redirect(HomePath) else Pass
  {
    if !Configured(url, anonKey) then LoginOnly(path)
    else
      match session
      case Threw => LoginOnly(path)
      case Session(present) =>
        if !present && !IsPublicRoute(path) then Redirect(LoginPath)
        else if present && path == LoginPath then Redirect(HomePath)
        else Pass
  }

  /** No request is redirected to its own path, so the login page never redirects to itself. */
  lemma NeverRedirectsToItself(url: Option<string>, anonKey: Option<string>, path: string, session: SessionRead)
    ensures Guard(url, anonKey, path, session) != Redirect(path)
  {
  }

  /**
   * A redirect settles in one hop: the page it points to is let through for
   * the same backend and the same session.
   */
  lemma RedirectSettles(url: Option<string>, anonKey: Option<string>, path: string, session: SessionRead)
    requires Guard(url, anonKey, path, session).Redirect?
    ensures Guard(url, anonKey, Guard(url, anonKey, path, session).to, session) == Pass
  {
    assert LoginPath <= LoginPath;
  }

  /** The only paths ever refused to a visitor without a session are the non-public ones. */
  lemma PublicRoutesAlwaysPass(url: Option<string>, anonKey: Option<string>, path: string)
    requires Configured(url, anonKey) && IsPublicRoute(path)
    ensures Guard(url, anonKey, path, Session(false)) == Pass
  {
  }

  /** Paths under the public prefixes, such as '/login/reset' or '/auth/callback?code=1', are public. */
  lemma PrefixMatchExamples()
    ensures IsPublicRoute("/login/reset") && IsPublicRoute("/auth/callback?code=1")
    ensures !IsPublicRoute("/") && !IsPublicRoute("/reset-password") && !IsPublicRoute("/auth")
  {
    assert LoginPath <= "/login/reset";
    assert CallbackPath <= "/auth/callback?code=1";
    assert "/reset-password"[1] != LoginPath[1];
    assert "/auth"[1] != LoginPath[1];
  }

  /** A URL containing 'placeholder' means the backend is not configured, whatever the key. */
  lemma PlaceholderUrlIsUnconfigured(pre: string, post: string, anonKey: Option<string>)
    ensures !Configured(Some(pre + "placeholder" + post), anonKey)
  {
    var url := pre + "placeholder" + post;
    ContainsAt(url, "placeholder");
    assert OccursAt(url, "placeholder", |pre|);
  }
}
