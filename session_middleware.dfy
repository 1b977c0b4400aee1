/**
 * `updateSession` (utils/supabase/middleware.ts): refresh the auth
 * session through the auth client, then decide from the path, the user
 * and the onboarding profile whether to let the request through or to
 * redirect it. The auth client, its token refresh and the profile query
 * are parameters.
 */
module SessionMiddleware {
  import opened Common
  import opened Http

  /** The incoming request: its URL (origin, path, decoded query) and the cookie jar the auth client writes to. */
  class Request {
    const origin: string
    const path: string
    const query: Query
    var cookies: map<string, string>

    constructor (origin: string, path: string, query: Query, cookies: map<string, string>)
      ensures this.origin == origin && this.path == path && this.query == query && this.cookies == cookies
    {
      this.origin := origin;
      this.path := path;
      this.query := query;
      this.cookies := cookies;
    }
  }

  /** One entry of the list the auth client hands to `setAll`. */
  datatype CookieToSet = CookieToSet(name: string, value: string, options: CookieOptions)

  /** What the auth client does during `getSession`/`getUser`. */
  datatype AuthReply = AuthReply(
    refreshed: seq<seq<CookieToSet>>,     // the list of each setAll call, in call order
    user: Option<string>,                 // the user id, when there is a user
    userError: bool)

  /** The `user_profiles` lookup by user id (`maybeSingle`): a row was found, the query failed. */
  datatype ProfileQuery = ProfileQuery(found: bool, failed: bool)

  /** The headers put on the initial pass-through response. */
  const SecurityHeaders: map<string, string> := map[
    "X-Frame-Options" := "DENY",
    "X-Content-Type-Options" := "nosniff",
    "Referrer-Policy" := "strict-origin-when-cross-origin",
    "Permissions-Policy" := "camera=(), microphone=(), geolocation=()",
    "X-XSS-Protection" := "1; mode=block"]

  const ForcedOptionNames: set<string> := {"secure", "httpOnly", "sameSite"}

  /** The options `setAll` writes: the incoming ones with the three security attributes forced. */
  function SecureOptions(options: CookieOptions, production: bool): (r: CookieOptions)
    ensures r.Keys == options.Keys + ForcedOptionNames
    ensures r["secure"] == Flag(production) && r["httpOnly"] == Flag(true) && r["sameSite"] == Text("lax")
    ensures forall k :: k in options && k !in ForcedOptionNames ==> r[k] == options[k]
  {
    options + map["secure" := Flag(production), "httpOnly" := Flag(true), "sameSite" := Text("lax")]
  }

  function ValueOf(c: CookieToSet): string
  {
    c.value
  }

  function Secured(production: bool): CookieToSet -> Cookie
  {
    (c: CookieToSet) => Cookie(c.value, SecureOptions(c.options, production))
  }

  /** A jar after `set(name, ...)` for each entry in order; `f` picks what is stored. */
  function Written<V>(jar: map<string, V>, cs: seq<CookieToSet>, f: CookieToSet -> V): map<string, V>
    decreases |cs|
  {
    if cs == [] then jar
    else Written(jar, cs[..|cs| - 1], f)[cs[|cs| - 1].name := f(cs[|cs| - 1])]
  }

  /** The last entry with a given name decides what the jar holds under that name. */
  lemma {:induction false} WrittenLastWins<V>(jar: map<string, V>, cs: seq<CookieToSet>, f: CookieToSet -> V, j: nat)
    requires j < |cs|
    requires forall l :: j < l < |cs| ==> cs[l].name != cs[j].name
    ensures cs[j].name in Written(jar, cs, f) && Written(jar, cs, f)[cs[j].name] == f(cs[j])
    decreases |cs|
  {
    if j < |cs| - 1 {
      WrittenLastWins(jar, cs[..|cs| - 1], f, j);
    }
  }

  /** A name no entry carries keeps what the jar held. */
  lemma {:induction false} WrittenUntouched<V>(jar: map<string, V>, cs: seq<CookieToSet>, f: CookieToSet -> V, name: string)
    requires forall l :: 0 <= l < |cs| ==> cs[l].name != name
    ensures (name in Written(jar, cs, f)) == (name in jar)
    ensures name in jar ==> Written(jar, cs, f)[name] == jar[name]
    decreases |cs|
  {
    if cs != [] {
      WrittenUntouched(jar, cs[..|cs| - 1], f, name);
    }
  }

  /**
   * `setAll`: write every cookie into the request's jar, replace the
   * response by a fresh pass-through (dropping the security headers), and
   * set every cookie on it with the forced security options.
   */
  method SetAll(request: Request, cookiesToSet: seq<CookieToSet>, production: bool) returns (response: Response)
    modifies request
    ensures request.cookies == Written(old(request.cookies), cookiesToSet, ValueOf)
    ensures response == Response(PassThrough, map[], Written(map[], cookiesToSet, Secured(production)))
  {
    SetRequestCookies(request, cookiesToSet);
    response := Next();
    var jar := SecuredJar(cookiesToSet, production);
    response := response.(cookies := jar);
  }

  /** The first `forEach` of `setAll`: each value is set on the request's jar, in order. */
  method SetRequestCookies(request: Request, cookiesToSet: seq<CookieToSet>)
    modifies request
    ensures request.cookies == Written(old(request.cookies), cookiesToSet, ValueOf)
  {
    var i := 0;
    while i < |cookiesToSet|
      invariant 0 <= i <= |cookiesToSet|
      invariant request.cookies == Written(old(request.cookies), cookiesToSet[..i], ValueOf)
    {
      WrittenStep(old(request.cookies), cookiesToSet, ValueOf, i);
      request.cookies := request.cookies[cookiesToSet[i].name := ValueOf(cookiesToSet[i])];
      i := i + 1;
    }
    assert cookiesToSet[..i] == cookiesToSet;
  }

  /**
   * The second `forEach` of `setAll`: each cookie is set on the fresh
   * response's jar with the forced security options, in order.
   */
  method SecuredJar(cookiesToSet: seq<CookieToSet>, production: bool) returns (jar: map<string, Cookie>)
    ensures jar == Written(map[], cookiesToSet, Secured(production))
  {
    jar := map[];
    var i := 0;
    while i < |cookiesToSet|
      invariant 0 <= i <= |cookiesToSet|
      invariant jar == Written(map[], cookiesToSet[..i], Secured(production))
    {
      WrittenStep(map[], cookiesToSet, Secured(production), i);
      var c := cookiesToSet[i];
      jar := jar[c.name := Secured(production)(c)];
      i := i + 1;
    }
    assert cookiesToSet[..i] == cookiesToSet;
  }

  /** Writing one more entry of the list updates the jar under that entry's name. */
  lemma WrittenStep<V>(jar: map<string, V>, cs: seq<CookieToSet>, f: CookieToSet -> V, i: nat)
    requires i < |cs|
    ensures Written(jar, cs[..i + 1], f) == Written(jar, cs[..i], f)[cs[i].name := f(cs[i])]
  {
    assert cs[..i + 1][..i] == cs[..i];
  }

  /** Paths on which the onboarding check is skipped. */
  predicate SkipsOnboardingCheck(path: string)
  {
    StartsWith(path, "/auth") || StartsWith(path, "/api") || path == "/sign-in" || path == "/sign-out"
  }

  /** The conditions under which the profile is looked up (and may send the user to onboarding). */
  predicate ChecksOnboarding(path: string, user: Option<string>, userError: bool)
  {
    user.Some? && !userError && !StartsWith(path, "/onboarding") && !SkipsOnboardingCheck(path)
  }

  datatype Decision = Continue | RedirectPath(path: string)

  /**
   * The redirect cascade: protected area without a user, then missing
   * onboarding profile, then the home page with a user.
   */
  function Route(path: string, user: Option<string>, userError: bool, profile: ProfileQuery): (d: Decision)
    // an unauthenticated request under /protected goes to sign-in, whatever else holds
    ensures StartsWith(path, "/protected") && (user.None? || userError) ==> d == RedirectPath("/sign-in")
    ensures d == RedirectPath("/sign-in") <==> StartsWith(path, "/protected") && (user.None? || userError)
    // onboarding: authenticated, outside /onboarding and the skip set, no profile row, no query error
    ensures d == RedirectPath("/onboarding") <==>
      ChecksOnboarding(path, user, userError) && !profile.found && !profile.failed
    // a failed profile query never sends the user to onboarding
    ensures profile.failed ==> d != RedirectPath("/onboarding")
    // the home page sends a signed-in user to /protected, unless onboarding fired first
    ensures d == RedirectPath("/protected") <==>
      path == "/" && user.Some? && !userError && !(!profile.found && !profile.failed)
    ensures d in {Continue, RedirectPath("/sign-in"), RedirectPath("/onboarding"), RedirectPath("/protected")}
  {
    if StartsWith(path, "/protected") && (user.None? || userError) then RedirectPath("/sign-in")
    else if ChecksOnboarding(path, user, userError) && !profile.found && !profile.failed then RedirectPath("/onboarding")
    else if path == "/" && user.Some? && !userError then RedirectPath("/protected")
    else Continue
  }

  /** The response `updateSession` returns (the request jar is described by `UpdateSession`). */
  function SessionResponse(origin: string, path: string, production: bool, auth: AuthReply,
                           profile: ProfileQuery, clientFails: bool): Response
  {
    if clientFails then Next()
    else match Route(path, auth.user, auth.userError, profile)
      case RedirectPath(p) => Redirect(origin + p)
      case Continue =>
        if auth.refreshed == [] then Response(PassThrough, SecurityHeaders, map[])
        else Response(PassThrough, map[], Written(map[], auth.refreshed[|auth.refreshed| - 1], Secured(production)))
  }

  /** The request jar after every `setAll` call, in order. */
  function WrittenAll(jar: map<string, string>, calls: seq<seq<CookieToSet>>): map<string, string>
    decreases |calls|
  {
    if calls == [] then jar
    else Written(WrittenAll(jar, calls[..|calls| - 1]), calls[|calls| - 1], ValueOf)
  }

  /**
   * `updateSession`. `clientFails` is the auth client failing to be
   * created (missing configuration), which the source catches and answers
   * with a plain pass-through.
   */
  method UpdateSession(request: Request, production: bool, auth: AuthReply, profile: ProfileQuery, clientFails: bool)
    returns (response: Response)
    modifies request
    ensures response == SessionResponse(request.origin, request.path, production, auth, profile, clientFails)
    ensures request.cookies ==
      if clientFails then old(request.cookies) else WrittenAll(old(request.cookies), auth.refreshed)
  {
    response := Response(PassThrough, SecurityHeaders, map[]);
    if clientFails {
      return Next();
    }
    response := RefreshCalls(request, auth.refreshed, production, response);
    var decision := Route(request.path, auth.user, auth.userError, profile);
    if decision.RedirectPath? {
      response := Redirect(request.origin + decision.path);
    }
  }

  /**
   * The auth client's `setAll` calls during `getSession` and `getUser`:
   * each writes the request jar, and each replaces the response, so the
   * response keeps only the last call's cookies.
   */
  method RefreshCalls(request: Request, calls: seq<seq<CookieToSet>>, production: bool, initial: Response)
    returns (response: Response)
    modifies request
    ensures request.cookies == WrittenAll(old(request.cookies), calls)
    ensures response ==
      if calls == [] then initial
      else Response(PassThrough, map[], Written(map[], calls[|calls| - 1], Secured(production)))
  {
    response := initial;
    var i := 0;
    while i < |calls|
      invariant 0 <= i <= |calls|
      invariant request.cookies == WrittenAll(old(request.cookies), calls[..i])
      invariant response ==
        if i == 0 then initial
        else Response(PassThrough, map[], Written(map[], calls[i - 1], Secured(production)))
    {
      assert calls[..i + 1][..i] == calls[..i];
      response := SetAll(request, calls[i], production);
      i := i + 1;
    }
    assert calls[..i] == calls;
  }

  /** A cookie no `setAll` call names keeps its value in the request jar. */
  lemma {:induction false} WrittenAllUntouched(jar: map<string, string>, calls: seq<seq<CookieToSet>>, name: string)
    requires forall k, l :: 0 <= k < |calls| && 0 <= l < |calls[k]| ==> calls[k][l].name != name
    ensures (name in WrittenAll(jar, calls)) == (name in jar)
    ensures name in jar ==> WrittenAll(jar, calls)[name] == jar[name]
    decreases |calls|
  {
    if calls != [] {
      var last := |calls| - 1;
      WrittenAllUntouched(jar, calls[..last], name);
      WrittenUntouched(WrittenAll(jar, calls[..last]), calls[last], ValueOf, name);
    }
  }

  /** A cookie the last call names holds, in the request jar, the value of its last entry there. */
  lemma LastCallWins(jar: map<string, string>, calls: seq<seq<CookieToSet>>, cs: seq<CookieToSet>, j: nat)
    requires calls != [] && cs == calls[|calls| - 1] && j < |cs|
    requires forall l :: j < l < |cs| ==> cs[l].name != cs[j].name
    ensures cs[j].name in WrittenAll(jar, calls) && WrittenAll(jar, calls)[cs[j].name] == cs[j].value
  {
    WrittenLastWins(WrittenAll(jar, calls[..|calls| - 1]), cs, ValueOf, j);
  }

  /** The security headers reach the client exactly on a pass-through where the client did not refresh cookies. */
  lemma SecurityHeadersSurvive(origin: string, path: string, production: bool, auth: AuthReply,
                               profile: ProfileQuery, clientFails: bool)
    ensures var r := SessionResponse(origin, path, production, auth, profile, clientFails);
      r.headers == SecurityHeaders <==>
        !clientFails && auth.refreshed == [] && Route(path, auth.user, auth.userError, profile) == Continue
  {
    assert SecurityHeaders != map[] by {
      assert "X-Frame-Options" in SecurityHeaders;
    }
  }

  /** Every cookie `updateSession` sets carries httpOnly, sameSite=lax and secure exactly in production. */
  lemma SessionCookiesSecured(origin: string, path: string, production: bool, auth: AuthReply,
                              profile: ProfileQuery, clientFails: bool, name: string)
    requires name in SessionResponse(origin, path, production, auth, profile, clientFails).cookies
    ensures var c := SessionResponse(origin, path, production, auth, profile, clientFails).cookies[name];
      ForcedOptionNames <= c.options.Keys &&
      c.options["httpOnly"] == Flag(true) && c.options["sameSite"] == Text("lax") &&
      c.options["secure"] == Flag(production)
  {
    var cs := auth.refreshed[|auth.refreshed| - 1];
    WrittenSecured(cs, production, name);
  }

  lemma {:induction false} WrittenSecured(cs: seq<CookieToSet>, production: bool, name: string)
    requires name in Written(map[], cs, Secured(production))
    ensures exists j :: 0 <= j < |cs| && cs[j].name == name &&
               Written(map[], cs, Secured(production))[name] == Cookie(cs[j].value, SecureOptions(cs[j].options, production))
    decreases |cs|
  {
    var last := |cs| - 1;
    if cs[last].name != name {
      WrittenSecured(cs[..last], production, name);
      var j :| 0 <= j < |cs[..last]| && cs[..last][j].name == name &&
        Written(map[], cs[..last], Secured(production))[name] == Cookie(cs[..last][j].value, SecureOptions(cs[..last][j].options, production));
      assert cs[j] == cs[..last][j];
    }
  }
}
