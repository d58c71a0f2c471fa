/**
 * The route guard of middleware.ts.
 *
 * The Supabase client and its cookie plumbing are not modelled: whether a
 * user is signed in is the input `signedIn`, and the two public environment
 * values are passed in as read. What is modelled is the decision the guard
 * takes from them, the pathname and the `redirect` query parameter.
 */
module Middleware {
  import opened Wrappers
  import Env

  const ProtectedPrefixes: seq<string> := ["/translate", "/history"]
  const LoginPath: string := "/login"
  const DefaultDestination: string := "/translate"

  /** `NEXT_PUBLIC_SUPABASE_URL` and `NEXT_PUBLIC_SUPABASE_ANON_KEY`. */
  datatype SupabaseEnv = SupabaseEnv(url: Option<string>, anonKey: Option<string>)

  /** What the guard answers. */
  datatype Decision =
    | PassThrough                      // `NextResponse.next`, the request goes on unchanged
    | RedirectToLogin(redirect: string) // to `/login`, with `redirect` set to the original pathname
    | RedirectTo(pathname: string)      // to `pathname` on the same origin, with an empty query

  /** A JavaScript string is truthy when it is present and not empty. */
  predicate Truthy(s: Option<string>) { s.Some? && s.value != "" }

  /** `s.startsWith(p)`. */
  predicate StartsWith(s: string, p: string) { |p| <= |s| && s[..|p|] == p }

  /** `prefixes.some((p) => s.startsWith(p))`. */
  function AnyPrefix(prefixes: seq<string>, s: string): (b: bool)
    ensures b <==> exists i :: 0 <= i < |prefixes| && StartsWith(s, prefixes[i])
    decreases |prefixes|
  {
    if prefixes == [] then false
    else StartsWith(s, prefixes[0]) || AnyPrefix(prefixes[1..], s)
  }

  predicate IsProtected(pathname: string) { AnyPrefix(ProtectedPrefixes, pathname) }

  /** `middleware(request)`. */
  function Decide(env: SupabaseEnv, signedIn: bool, pathname: string, redirectParam: Option<string>): (d: Decision)
    ensures d.RedirectToLogin? ==> d.redirect == pathname && !signedIn && IsProtected(pathname)
    ensures d.RedirectTo? ==> signedIn && pathname == LoginPath && d.pathname != ""
  {
    if !Truthy(env.url) || !Truthy(env.anonKey) then PassThrough
    else if !signedIn && IsProtected(pathname) then RedirectToLogin(pathname)
    else if signedIn && pathname == LoginPath then RedirectTo(Env.NonEmptyOr(redirectParam, DefaultDestination))
    else PassThrough
  }

  /** A path is protected exactly when it begins with `/translate` or `/history`. */
  lemma ProtectedExactly(pathname: string)
    ensures IsProtected(pathname) <==> StartsWith(pathname, "/translate") || StartsWith(pathname, "/history")
  {
  }

  /**
   * The test is a plain prefix test, not a path-segment test: it answers true
   * for `/translated` and `/history2`, and false for `/translations`, the
   * login page, the root and a differently cased path. (The route's `matcher`
   * runs the guard only on `/translate/...`, `/history/...` and `/login`, so
   * in the application it never sees the first two.)
   */
  lemma PrefixExamples()
    ensures IsProtected("/translated") && IsProtected("/translate/x") && IsProtected("/history2") && IsProtected("/translate")
    ensures !IsProtected("/translations") && !IsProtected("/login") && !IsProtected("/") && !IsProtected("/Translate")
  {
    assert ("/translate" + "d")[..10] == "/translate";
    assert StartsWith("/translated", ProtectedPrefixes[0]) by { assert "/translated" == "/translate" + "d"; }
    assert ("/translate" + "/x")[..10] == "/translate";
    assert StartsWith("/translate/x", ProtectedPrefixes[0]) by { assert "/translate/x" == "/translate" + "/x"; }
    assert ("/history" + "2")[..8] == "/history";
    assert StartsWith("/history2", ProtectedPrefixes[1]) by { assert "/history2" == "/history" + "2"; }
    assert StartsWith("/translate", ProtectedPrefixes[0]);
    assert !StartsWith("/translations", "/translate") by { assert "/translations"[9] != "/translate"[9]; }
    assert !StartsWith("/translations", "/history") by { assert "/translations"[1] != "/history"[1]; }
    assert !StartsWith("/Translate", "/translate") by { assert "/Translate"[1] != "/translate"[1]; }
  }

  /** Without both Supabase values the guard lets every request through. */
  lemma UnconfiguredPassesThrough(env: SupabaseEnv, signedIn: bool, pathname: string, redirectParam: Option<string>)
    requires !Truthy(env.url) || !Truthy(env.anonKey)
    ensures Decide(env, signedIn, pathname, redirectParam) == PassThrough
  {
  }

  /** A visitor who is not signed in is sent to the login page from every protected path. */
  lemma AnonymousSentToLogin(env: SupabaseEnv, pathname: string, redirectParam: Option<string>)
    requires Truthy(env.url) && Truthy(env.anonKey) && IsProtected(pathname)
    ensures Decide(env, false, pathname, redirectParam) == RedirectToLogin(pathname)
  {
  }

  /** A signed-in user on the login page goes to the `redirect` parameter, or to `/translate` without one. */
  lemma SignedInLeavesLogin(env: SupabaseEnv, redirectParam: Option<string>)
    requires Truthy(env.url) && Truthy(env.anonKey)
    ensures Truthy(redirectParam) ==> Decide(env, true, LoginPath, redirectParam) == RedirectTo(redirectParam.value)
    ensures !Truthy(redirectParam) ==> Decide(env, true, LoginPath, redirectParam) == RedirectTo("/translate")
  {
  }

  /**
   * Every other combination passes through: a user on a protected path, a
   * visitor on the login page, anyone elsewhere.
   */
  lemma OtherwisePassThrough(env: SupabaseEnv, signedIn: bool, pathname: string, redirectParam: Option<string>)
    requires !(!signedIn && IsProtected(pathname)) && !(signedIn && pathname == LoginPath)
    ensures Decide(env, signedIn, pathname, redirectParam) == PassThrough
  {
  }

  /** The two redirects never compete: the login page is not a protected path. */
  lemma RedirectsExclusive(pathname: string)
    ensures !(IsProtected(pathname) && pathname == LoginPath)
  {
    PrefixExamples();
  }

  /**
   * The guard never bounces a visitor back and forth: the login page it sends
   * a visitor to is let through, and a signed-in user sent on from the login
   * page (whose query is then empty) is let through at once, or after one
   * more hop to `/translate` when the parameter itself named the login page.
   */
  lemma NoRedirectLoop(env: SupabaseEnv, pathname: string, redirectParam: Option<string>)
    ensures Decide(env, false, LoginPath, Some(pathname)) == PassThrough
    ensures Decide(env, true, pathname, redirectParam).RedirectTo? ==>
              var next := Decide(env, true, Decide(env, true, pathname, redirectParam).pathname, None);
              next == PassThrough || (next == RedirectTo("/translate") && Decide(env, true, "/translate", None) == PassThrough)
  {
    PrefixExamples();
  }
}
