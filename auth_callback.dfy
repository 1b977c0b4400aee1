/**
 * The OAuth callback route (app/auth/callback/route.ts): exchange the
 * code for a session, record the client details the sign-in action put on
 * the URL, and redirect. The code exchange is a parameter; the metadata
 * the route writes is returned. A failure of that write is only logged,
 * so it is no input here.
 */
module AuthCallback {
  import opened Common
  import opened Uri

  /** The parts of the request the route reads. */
  datatype CallbackRequest = CallbackRequest(origin: string, query: Query, forwardedHost: Option<string>)

  /** How creating the client and exchanging the code end. */
  datatype Exchange = ExchangeThrows | ExchangeError(message: string) | ExchangeOk(user: Option<string>)

  /** The arguments of `update_user_profile_metadata` and of the metadata update that follows it. */
  datatype MetadataUpdate = MetadataUpdate(userId: string, platform: string, browser: string, location: string, lastSignIn: string)

  /** The query of an error redirect, with the message already encoded. */
  function ErrorQuery(encodedMessage: string): string
  {
    "error=true&message=" + encodedMessage + "&type=error"
  }

  function ErrorRedirect(origin: string, encodedMessage: string): string
  {
    origin + "/?" + ErrorQuery(encodedMessage)
  }

  /** The `next` parameter, `/protected` only when it is absent (an empty value stays). */
  function NextPath(query: Query): (next: string)
    ensures QueryHas(query, "next") ==> Some(next) == QueryGet(query, "next")
    ensures !QueryHas(query, "next") ==> next == "/protected"
  {
    match QueryGet(query, "next")
    case Some(n) => n
    case None => "/protected"
  }

  /** The detail recorded for `name`: its value, or `unknown` when it is absent or empty. */
  function Detail(query: Query, name: string): (d: string)
    ensures d != ""
    ensures Truthy(QueryGet(query, name)) ==> d == QueryGet(query, name).value
    ensures !Truthy(QueryGet(query, name)) ==> d == "unknown"
  {
    OrElse(QueryGet(query, name), "unknown")
  }

  /** Where a successful sign-in lands: the origin in development, else the forwarded host if any. */
  function RedirectTarget(origin: string, next: string, forwardedHost: Option<string>, development: bool): (url: string)
    ensures EndsWith(url, next)
    ensures url == origin + next || (!development && Truthy(forwardedHost) && url == "https://" + forwardedHost.value + next)
    ensures development || !Truthy(forwardedHost) ==> url == origin + next
  {
    if development then origin + next
    else if Truthy(forwardedHost) then "https://" + forwardedHost.value + next
    else origin + next
  }

  /** `GET /auth/callback`. */
  method Get(request: CallbackRequest, development: bool, exchange: Exchange, now: string)
    returns (redirectUrl: string, metadata: Option<MetadataUpdate>)
    ensures !Truthy(QueryGet(request.query, "code")) ==>
      redirectUrl == ErrorRedirect(request.origin, "Missing+authorization+code") && metadata.None?
    ensures Truthy(QueryGet(request.query, "code")) && exchange.ExchangeThrows? ==>
      redirectUrl == ErrorRedirect(request.origin, "An+unexpected+error+occurred") && metadata.None?
    ensures Truthy(QueryGet(request.query, "code")) && exchange.ExchangeError? ==>
      redirectUrl == ErrorRedirect(request.origin, EncodeURIComponent(exchange.message)) && metadata.None?
    ensures Truthy(QueryGet(request.query, "code")) && exchange.ExchangeOk? ==>
      redirectUrl == RedirectTarget(request.origin, NextPath(request.query), request.forwardedHost, development) &&
      metadata == if exchange.user.None? then None
                  else Some(MetadataUpdate(exchange.user.value, Detail(request.query, "platform"),
                                           Detail(request.query, "browser"), Detail(request.query, "location"), now))
  {
    var code := QueryGet(request.query, "code");
    var origin := request.origin;
    var next := NextPath(request.query);
    var platform := QueryGet(request.query, "platform");
    var browser := QueryGet(request.query, "browser");
    var location := QueryGet(request.query, "location");
    metadata := None;
    if !Truthy(code) {
      return ErrorRedirect(origin, "Missing+authorization+code"), None;
    }
    match exchange
    case ExchangeThrows =>
      return ErrorRedirect(origin, "An+unexpected+error+occurred"), None;
    case ExchangeError(message) =>
      return ErrorRedirect(origin, EncodeURIComponent(message)), None;
    case ExchangeOk(user) =>
      if user.Some? {
        metadata := Some(MetadataUpdate(user.value, OrElse(platform, "unknown"), OrElse(browser, "unknown"),
                                        OrElse(location, "unknown"), now));
      }
    if development {
      redirectUrl := origin + next;
    } else if Truthy(request.forwardedHost) {
      redirectUrl := "https://" + request.forwardedHost.value + next;
    } else {
      redirectUrl := origin + next;
    }
  }

  /** The query of an error redirect reads back as `error`, the message and `type=error`. */
  lemma ErrorQueryParses(message: string)
    requires IsAscii(message)
    ensures ParseQuery(ErrorQuery(EncodeURIComponent(message))) ==
      [("error", "true"), ("message", message), ("type", "error")]
  {
    ErrorQueryTexts(message);
    ErrorQueryWords();
    ParseThreePairs(("error", "true"), ("message", message), ("type", "error"));
  }

  /** The fixed names and values of the error query are plain. */
  lemma ErrorQueryWords()
    ensures PlainName("error") && PlainName("message") && PlainName("type")
    ensures IsAscii("true") && IsAscii("error")
  {
  }

  /** The error query is the three pairs written out and joined by `&`. */
  lemma ErrorQueryTexts(message: string)
    ensures ErrorQuery(EncodeURIComponent(message)) ==
      PairText(("error", "true")) + "&" + PairText(("message", message)) + "&" + PairText(("type", "error"))
  {
    UnreservedWords();
    ErrorQueryPieces(EncodeURIComponent(message));
  }

  lemma UnreservedWords()
    ensures EncodeURIComponent("true") == "true" && EncodeURIComponent("error") == "error"
  {
    assert forall k :: 0 <= k < |"true"| ==> Unreserved("true"[k]);
    assert forall k :: 0 <= k < |"error"| ==> Unreserved("error"[k]);
    EncodeUnreserved("true");
    EncodeUnreserved("error");
  }

  lemma ErrorQueryPieces(m: string)
    ensures ErrorQuery(m) == ("error" + "=" + "true") + "&" + ("message" + "=" + m) + "&" + ("type" + "=" + "error")
  {
    assert "error=true&message=" == ("error" + "=" + "true") + "&" + ("message" + "=");
    assert "&type=error" == "&" + ("type" + "=" + "error");
  }
}
