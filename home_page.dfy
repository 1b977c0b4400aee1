/**
 * The home page (app/page.tsx), a server component: a visitor with a
 * session is sent to `/protected`; anyone else sees the welcome card,
 * with a sign-in banner when `auth=required` and a message built from the
 * `message` and `type` parameters. The session is a parameter and the
 * search parameters are the decoded query.
 */
module HomePage {
  import opened Common
  import opened Uri
  import AuthCallback

  /** The `Message` the page hands to `FormMessage`. */
  datatype FormMessage = SuccessMessage(text: string) | ErrorMessage(text: string) | PlainMessage(text: string)

  datatype HomeOutcome = RedirectTo(path: string) | Welcome(banner: bool, message: Option<FormMessage>)

  /** The message chain: a non-empty `message` is shown, its kind chosen by `type`. */
  function Classify(message: Option<string>, kind: Option<string>): (m: Option<FormMessage>)
    ensures m.None? <==> !Truthy(message)
    ensures Truthy(message) && kind == Some("success") ==> m == Some(SuccessMessage(message.value))
    ensures Truthy(message) && kind == Some("error") ==> m == Some(ErrorMessage(message.value))
    ensures Truthy(message) && kind != Some("success") && kind != Some("error") ==>
      m == Some(PlainMessage(message.value))
  {
    if Truthy(message) && kind == Some("success") then Some(SuccessMessage(message.value))
    else if Truthy(message) && kind == Some("error") then Some(ErrorMessage(message.value))
    else if Truthy(message) then Some(PlainMessage(message.value))
    else None
  }

  /** The page: the session first, then the parameters. */
  function Home(session: bool, params: Query): (out: HomeOutcome)
    ensures session ==> out == RedirectTo("/protected")
    ensures !session ==> out.Welcome?
    ensures out.Welcome? ==> (out.banner <==> QueryGet(params, "auth") == Some("required"))
    ensures out.Welcome? ==> out.message == Classify(QueryGet(params, "message"), QueryGet(params, "type"))
  {
    if session then RedirectTo("/protected")
    else Welcome(QueryGet(params, "auth") == Some("required"),
                 Classify(QueryGet(params, "message"), QueryGet(params, "type")))
  }

  /**
   * The error redirect of the OAuth callback lands here as an error
   * message carrying the original text, without the sign-in banner.
   */
  lemma CallbackErrorShown(message: string)
    requires IsAscii(message) && message != ""
    ensures Home(false, ParseQuery(AuthCallback.ErrorQuery(EncodeURIComponent(message)))) ==
      Welcome(false, Some(ErrorMessage(message)))
  {
    AuthCallback.ErrorQueryParses(message);
    QueryGetThree(("error", "true"), ("message", message), ("type", "error"), "auth");
    QueryGetThree(("error", "true"), ("message", message), ("type", "error"), "message");
    QueryGetThree(("error", "true"), ("message", message), ("type", "error"), "type");
  }
}
