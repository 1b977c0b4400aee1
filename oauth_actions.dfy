/**
 * The sign-in and sign-out server actions (app/actions.ts). The request
 * headers, the reply of the OAuth sign-in call and the outcome of the
 * sign-out call are parameters; the call the action makes is returned so
 * that its arguments can be stated.
 */
module OAuthActions {
  import opened Common
  import opened Uri

  datatype Provider = Google | GitHub | LinkedIn

  /** The optional client details the sign-in button passes. */
  datatype UserInfo = UserInfo(platform: Option<string>, browser: Option<string>, location: Option<string>)

  /** The arguments of `signInWithOAuth`. */
  datatype OAuthCall = OAuthCall(provider: Provider, redirectTo: string, accessType: string, prompt: string, scope: string)

  /** What `signInWithOAuth` answers. */
  datatype OAuthReply = OAuthError(message: string) | OAuthData(url: Option<string>)

  /**
   * How the action ends: `encodedRedirect(kind, path, message)` (the
   * helper itself is not part of this model) or a plain redirect.
   */
  datatype ActionRedirect = EncodedRedirect(kind: string, path: string, message: string) | RedirectTo(url: string)

  /** The platform guess from the user agent: case-sensitive substrings. */
  function DetectPlatform(userAgent: string): (p: string)
    ensures p == "Mobile" <==> Contains(userAgent, "Mobile") || Contains(userAgent, "Android") || Contains(userAgent, "iPhone")
    ensures p == "Mobile" || p == "Desktop"
  {
    if Contains(userAgent, "Mobile") || Contains(userAgent, "Android") || Contains(userAgent, "iPhone") then "Mobile"
    else "Desktop"
  }

  const BrowserOrder: seq<string> := ["Chrome", "Firefox", "Safari", "Edge"]

  /** The browser guess: the first name in `BrowserOrder` the user agent contains. */
  function DetectBrowser(userAgent: string): (b: string)
    ensures b in BrowserOrder || b == "Other Browser"
    ensures b in BrowserOrder ==> Contains(userAgent, b)
    ensures b in BrowserOrder ==> forall k :: 0 <= k < |BrowserOrder| && BrowserOrder[k] == b ==>
      forall j :: 0 <= j < k ==> !Contains(userAgent, BrowserOrder[j])
    ensures b == "Other Browser" <==> forall k :: 0 <= k < |BrowserOrder| ==> !Contains(userAgent, BrowserOrder[k])
  {
    if Contains(userAgent, "Chrome") then "Chrome"
    else if Contains(userAgent, "Firefox") then "Firefox"
    else if Contains(userAgent, "Safari") then "Safari"
    else if Contains(userAgent, "Edge") then "Edge"
    else "Other Browser"
  }

  function Scopes(provider: Provider): seq<string>
  {
    match provider
    case Google => ["profile", "email"]
    case GitHub => ["user:email", "read:user"]
    case LinkedIn => ["r_liteprofile", "r_emailaddress"]
  }

  /** The `scope` query parameter: the provider's scopes joined by single spaces. */
  function ScopeParam(provider: Provider): (scope: string)
    ensures SplitOn(scope, ' ') == Scopes(provider)
  {
    var s := Scopes(provider);
    assert forall k :: 0 <= k < |s| ==> ' ' !in s[k];
    SplitJoin(s, ' ');
    Join(s, " ")
  }

  /** The three pairs appended to the callback URL when client details are given. */
  function CallbackPairs(info: UserInfo, userAgent: string): Query
  {
    [("platform", OrElse(info.platform, DetectPlatform(userAgent))),
     ("browser", OrElse(info.browser, DetectBrowser(userAgent))),
     ("location", OrElse(info.location, "unknown"))]
  }

  /** The callback URL the action hands to the OAuth call. */
  function CallbackUrl(origin: string, info: Option<UserInfo>, userAgent: string): string
  {
    match info
    case None => origin + "/auth/callback"
    case Some(i) =>
      var ps := CallbackPairs(i, userAgent);
      origin + "/auth/callback" + "?" + CallbackQuery(EncodeURIComponent(ps[0].1), EncodeURIComponent(ps[1].1), EncodeURIComponent(ps[2].1))
  }

  /** The query text the action writes, given the three encoded values. */
  function CallbackQuery(platform: string, browser: string, location: string): string
  {
    "platform=" + platform + "&browser=" + browser + "&location=" + location
  }

  lemma UrlPieces(base: string, p: string, b: string, l: string)
    ensures base + "?platform=" + p + "&browser=" + b + "&location=" + l == base + "?" + CallbackQuery(p, b, l)
  {
    assert "?platform=" == "?" + "platform=";
  }

  /**
   * `signInWithOAuthAction`: refuse a missing origin before any call;
   * otherwise build the callback URL step by step, call the provider and
   * follow its URL.
   */
  method SignInWithOAuth(provider: Provider, info: Option<UserInfo>, originHeader: Option<string>,
                         userAgentHeader: Option<string>, reply: OAuthReply)
    returns (call: Option<OAuthCall>, result: ActionRedirect)
    ensures !Truthy(originHeader) ==> call.None? && result == EncodedRedirect("error", "/", "Missing origin header")
    ensures Truthy(originHeader) ==>
      call == Some(OAuthCall(provider, CallbackUrl(originHeader.value, info, OrElse(userAgentHeader, "unknown")),
                             "offline", "consent", ScopeParam(provider)))
    ensures Truthy(originHeader) && reply.OAuthError? ==> result == EncodedRedirect("error", "/", reply.message)
    ensures Truthy(originHeader) && reply.OAuthData? ==>
      result == if Truthy(reply.url) then RedirectTo(reply.url.value) else EncodedRedirect("error", "/", "OAuth configuration error")
  {
    var userAgent := OrElse(userAgentHeader, "unknown");
    if !Truthy(originHeader) {
      return None, EncodedRedirect("error", "/", "Missing origin header");
    }
    var origin := originHeader.value;
    var callbackUrl := origin + "/auth/callback";
    if info.Some? {
      var platform := OrElse(info.value.platform, DetectPlatform(userAgent));
      var browser := OrElse(info.value.browser, DetectBrowser(userAgent));
      callbackUrl := callbackUrl + "?platform=" + EncodeURIComponent(platform);
      callbackUrl := callbackUrl + "&browser=" + EncodeURIComponent(browser);
      callbackUrl := callbackUrl + "&location=" + EncodeURIComponent(OrElse(info.value.location, "unknown"));
      UrlPieces(origin + "/auth/callback", EncodeURIComponent(platform), EncodeURIComponent(browser),
                EncodeURIComponent(OrElse(info.value.location, "unknown")));
    }
    call := Some(OAuthCall(provider, callbackUrl, "offline", "consent", ScopeParam(provider)));
    match reply
    case OAuthError(message) =>
      result := EncodedRedirect("error", "/", message);
    case OAuthData(url) =>
      if Truthy(url) {
        result := RedirectTo(url.value);
      } else {
        result := EncodedRedirect("error", "/", "OAuth configuration error");
      }
  }

  /** The query text the action writes is the built query of the three pairs. */
  lemma CallbackQueryText(info: UserInfo, userAgent: string)
    ensures var ps := CallbackPairs(info, userAgent);
      CallbackQuery(EncodeURIComponent(ps[0].1), EncodeURIComponent(ps[1].1), EncodeURIComponent(ps[2].1)) ==
      BuildQuery(ps)
  {
    var ps := CallbackPairs(info, userAgent);
    var ts := PairTexts(ps);
    assert ts == [PairText(ps[0]), PairText(ps[1]), PairText(ps[2])];
    Join3(ts[0], ts[1], ts[2], "&");
    QueryPieces(EncodeURIComponent(ps[0].1), EncodeURIComponent(ps[1].1), EncodeURIComponent(ps[2].1));
  }

  lemma QueryPieces(p: string, b: string, l: string)
    ensures CallbackQuery(p, b, l) ==
      ("platform" + "=" + p) + "&" + ("browser" + "=" + b) + "&" + ("location" + "=" + l)
  {
    assert "platform=" == "platform" + "=";
    assert "&browser=" == "&" + "browser" + "=";
    assert "&location=" == "&" + "location" + "=";
  }

  /**
   * The callback route reads back exactly the platform, browser and
   * location the action put on the URL, when they are ASCII.
   */
  lemma CallbackReceivesUserInfo(info: UserInfo, userAgent: string)
    requires forall k :: 0 <= k < 3 ==> IsAscii(CallbackPairs(info, userAgent)[k].1)
    ensures var ps := CallbackPairs(info, userAgent);
      var q := CallbackQuery(EncodeURIComponent(ps[0].1), EncodeURIComponent(ps[1].1), EncodeURIComponent(ps[2].1));
      ParseQuery(q) == ps &&
      QueryGet(ParseQuery(q), "platform") == Some(OrElse(info.platform, DetectPlatform(userAgent))) &&
      QueryGet(ParseQuery(q), "browser") == Some(OrElse(info.browser, DetectBrowser(userAgent))) &&
      QueryGet(ParseQuery(q), "location") == Some(OrElse(info.location, "unknown"))
  {
    var ps := CallbackPairs(info, userAgent);
    var a, b, c := ps[0], ps[1], ps[2];
    assert IsAscii(a.1) && IsAscii(b.1) && IsAscii(c.1);
    CallbackNames();
    ParseThreePairs(a, b, c);
    QueryPieces(EncodeURIComponent(a.1), EncodeURIComponent(b.1), EncodeURIComponent(c.1));
    assert ps == [a, b, c];
    QueryGetThree(a, b, c, "platform");
    QueryGetThree(a, b, c, "browser");
    QueryGetThree(a, b, c, "location");
  }

  /** Three non-empty values the client sent are the values of the three pairs. */
  lemma GivenPairs(platform: string, browser: string, location: string, userAgent: string)
    requires platform != "" && browser != "" && location != ""
    ensures CallbackPairs(UserInfo(Some(platform), Some(browser), Some(location)), userAgent) ==
      [("platform", platform), ("browser", browser), ("location", location)]
  {
  }

  /** The three parameter names are plain and pairwise different. */
  lemma CallbackNames()
    ensures PlainName("platform") && PlainName("browser") && PlainName("location")
    ensures "platform" != "browser" && "platform" != "location" && "browser" != "location"
  {
    assert "platform"[0] != "location"[0];
  }

  /** The redirect `signOutAction` returns, whether or not the sign-out call failed. */
  function SignOutTarget(signOutFailed: bool): (target: string)
    // the middleware sees a `signout` parameter on it
    ensures StartsWith(target, "/?") && QueryHas(ParseQuery(target[2..]), "signout")
  {
    SignOutQuery();
    assert [("signout", "true")][0].0 == "signout";
    assert "/?signout=true"[..2] == "/?";
    "/?signout=true"
  }

  lemma SignOutQuery()
    ensures ParseQuery("/?signout=true"[2..]) == [("signout", "true")]
  {
    var n, v := "signout", "true";
    assert PlainName(n) && IsAscii(v);
    assert forall k :: 0 <= k < |v| ==> Unreserved(v[k]);
    EncodeUnreserved(v);
    ParseBuildQuery([(n, v)]);
    assert PairTexts([(n, v)]) == [n + "=" + v];
    SignOutText();
  }

  lemma SignOutText()
    ensures "/?signout=true"[2..] == "signout" + "=" + "true"
  {
  }
}
