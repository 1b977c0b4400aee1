/**
 * The edit-profile page (app/edit-profile/page.tsx), a server component:
 * a visitor without a session is sent to log in, one who has not finished
 * onboarding to the onboarding page, and anyone else sees the form seeded
 * with their row. The session, the signed-in user and the failure of each
 * profile query are parameters; the table is a `ProfileStore`.
 */
module EditProfilePage {
  import opened Common
  import opened ProfileActions

  datatype PageOutcome = RedirectTo(path: string) | RenderForm(initialProfile: Option<ProfileRow>)

  const LoginRedirect := "/auth/login?next=/edit-profile"

  /** The page's guards, in order, then the profile lookup. */
  function Page(store: ProfileStore, session: bool, user: Option<string>,
                statusQueryFails: bool, profileQueryFails: bool): (out: PageOutcome)
    reads store
    ensures !session ==> out == RedirectTo(LoginRedirect)
    ensures session && !store.HasCompletedOnboarding(user, statusQueryFails) ==> out == RedirectTo("/onboarding")
    ensures out.RenderForm? <==> session && user.Some? && !statusQueryFails && user.value in store.rows
    ensures out.RenderForm? ==> out.initialProfile == store.GetUserOnboardingProfile(user, profileQueryFails)
  {
    if !session then RedirectTo(LoginRedirect)
    else if !store.HasCompletedOnboarding(user, statusQueryFails) then RedirectTo("/onboarding")
    else RenderForm(store.GetUserOnboardingProfile(user, profileQueryFails))
  }

  /**
   * The form only shows the not-found prompt when the second lookup fails:
   * the first one already found the row.
   */
  lemma RenderedProfileIsTheRow(store: ProfileStore, session: bool, user: Option<string>,
                                statusQueryFails: bool, profileQueryFails: bool)
    requires Page(store, session, user, statusQueryFails, profileQueryFails).RenderForm?
    ensures var p := Page(store, session, user, statusQueryFails, profileQueryFails).initialProfile;
      (p.None? <==> profileQueryFails) && (p.Some? ==> p.value == store.rows[user.value])
  {
  }

  /** A failing status query sends a signed-in user with a profile to onboarding. */
  lemma StatusErrorRedirectsToOnboarding(store: ProfileStore, user: Option<string>, profileQueryFails: bool)
    ensures Page(store, true, user, true, profileQueryFails) == RedirectTo("/onboarding")
  {
  }
}
