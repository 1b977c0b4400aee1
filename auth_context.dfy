/**
 * The client-side auth provider (contexts/AuthContext.tsx): it keeps the
 * session, the user and whether the user finished onboarding, and sends
 * a signed-in user who has not to `/onboarding`. The replies of the auth
 * client and of the `profiles` lookup are parameters; the `onboarded`
 * flags of the users' metadata, which the provider writes, are a set of
 * user ids held by the provider; `router.push` records its target in
 * `navigatedTo`.
 */
module AuthContext {
  import opened Common

  /** A session as the provider sees it: the id of its user, if any. */
  datatype Session = Session(user: Option<string>)

  /** How `getSession` ends: it throws, returns an error, or returns a session or none. */
  datatype SessionReply = SessionThrows | SessionError | SessionOk(session: Option<Session>)

  /** The `profiles` lookup: an error (no row included), or the row's two columns. */
  datatype ProfileQuery = QueryFails | Found(username: Option<string>, fullName: Option<string>)

  /**
   * How the metadata write `updateUser` ends: the flag is written, the
   * call returns `{ error }` (which the provider ignores), or it throws.
   */
  datatype UpdateOutcome = Written | WriteReturnsError | WriteThrows

  /** The answers `checkOnboardingStatus` receives. */
  datatype CheckReplies = CheckReplies(getUserThrows: bool, profile: ProfileQuery, update: UpdateOutcome)

  /** A row counts as onboarding done when both its username and its full name are non-empty. */
  predicate ProfileComplete(p: ProfileQuery)
  {
    p.Found? && Truthy(p.username) && Truthy(p.fullName)
  }

  /**
   * The outcome of `checkOnboardingStatus` for `userId`: the metadata flag
   * decides without a lookup; otherwise a complete row does, unless the
   * metadata write that follows it throws. Any throw means not onboarded;
   * a write that returns an error still counts as onboarded.
   */
  predicate Onboarded(flagged: set<string>, userId: string, replies: CheckReplies)
  {
    !replies.getUserThrows &&
    (userId in flagged || (ProfileComplete(replies.profile) && !replies.update.WriteThrows?))
  }

  /**
   * `checkOnboardingStatus` writes the metadata flag when the row, not the
   * flag, decided, and the write goes through.
   */
  function FlagsAfterCheck(flagged: set<string>, userId: string, replies: CheckReplies): (after: set<string>)
    ensures flagged <= after && after <= flagged + {userId}
    // a flag is only written for a user the check found onboarded
    ensures userId in after ==> userId in flagged || Onboarded(flagged, userId, replies)
    ensures replies.update.Written? ==> (userId in after <==> userId in flagged || Onboarded(flagged, userId, replies))
    ensures !replies.update.Written? ==> after == flagged
  {
    if !replies.getUserThrows && userId !in flagged && ProfileComplete(replies.profile) && replies.update.Written?
    then flagged + {userId}
    else flagged
  }

  /**
   * A write that returns an error leaves a user onboarded for this check
   * but unflagged, so the next check goes back to the `profiles` table.
   */
  lemma IgnoredWriteErrorLeavesUnflagged(flagged: set<string>, userId: string, replies: CheckReplies)
    requires !replies.getUserThrows && userId !in flagged && ProfileComplete(replies.profile)
    requires replies.update.WriteReturnsError?
    ensures Onboarded(flagged, userId, replies)
    ensures userId !in FlagsAfterCheck(flagged, userId, replies)
    ensures !Onboarded(FlagsAfterCheck(flagged, userId, replies), userId, replies.(profile := QueryFails))
  {
  }

  /** The second effect's condition for sending the user to `/onboarding`. */
  predicate RedirectsToOnboarding(isLoading: bool, user: Option<string>, isOnboarded: bool, pathname: string)
  {
    !isLoading && user.Some? && !isOnboarded && pathname != "/onboarding" && !StartsWith(pathname, "/auth")
  }

  /**
   * Once flagged, a user stays onboarded whatever the `profiles` table
   * holds, unless reading the user throws.
   */
  lemma FlagIsSticky(flagged: set<string>, userId: string, replies: CheckReplies)
    requires !replies.getUserThrows
    ensures var after := FlagsAfterCheck(flagged, userId, replies);
      userId in after ==>
        forall later: CheckReplies {:trigger Onboarded(after, userId, later)} ::
          !later.getUserThrows ==> Onboarded(after, userId, later)
  {
  }

  /** The onboarding page and every `/auth` page are never redirected from. */
  lemma ExemptPathsStay(isLoading: bool, user: Option<string>, isOnboarded: bool, pathname: string)
    requires pathname == "/onboarding" || StartsWith(pathname, "/auth")
    ensures !RedirectsToOnboarding(isLoading, user, isOnboarded, pathname)
  {
  }

  class AuthProvider {
    var user: Option<string>
    var session: Option<Session>
    var isLoading: bool
    var isOnboarded: bool
    /** The users whose metadata holds `onboarded: true`. */
    var flagged: set<string>
    var navigatedTo: Option<string>

    /** The provider's initial state: loading, nobody signed in. */
    constructor (flagged: set<string>)
      ensures user.None? && session.None? && isLoading && !isOnboarded
      ensures this.flagged == flagged && navigatedTo.None?
    {
      user, session, isLoading, isOnboarded := None, None, true, false;
      this.flagged := flagged;
      navigatedTo := None;
    }

    /** `checkOnboardingStatus` for a signed-in user. */
    method CheckOnboardingStatus(userId: string, replies: CheckReplies)
      modifies this`isOnboarded, this`flagged
      ensures isOnboarded == Onboarded(old(flagged), userId, replies)
      ensures flagged == FlagsAfterCheck(old(flagged), userId, replies)
      // every failure means not onboarded
      ensures replies.getUserThrows ==> !isOnboarded
      ensures userId !in old(flagged) && !ProfileComplete(replies.profile) ==> !isOnboarded
    {
      if replies.getUserThrows {
        isOnboarded := false;
        return;
      }
      if userId in flagged {
        isOnboarded := true;
        return;
      }
      if ProfileComplete(replies.profile) {
        isOnboarded := true;
        match replies.update {
          case WriteThrows => isOnboarded := false;
          case WriteReturnsError =>
          case Written => flagged := flagged + {userId};
        }
      } else {
        isOnboarded := false;
      }
    }

    /** The first effect's `getSession`: adopt the session, check onboarding, and stop loading. */
    method GetSession(reply: SessionReply, replies: CheckReplies)
      modifies this`user, this`session, this`isLoading, this`isOnboarded, this`flagged
      ensures !isLoading
      ensures !reply.SessionOk? ==> session.None? && user.None? && !isOnboarded && flagged == old(flagged)
      ensures reply.SessionOk? ==> session == reply.session
      ensures reply.SessionOk? && (reply.session.None? || reply.session.value.user.None?) ==>
        user.None? && !isOnboarded && flagged == old(flagged)
      ensures reply.SessionOk? && reply.session.Some? && reply.session.value.user.Some? ==>
        var id := reply.session.value.user.value;
        user == Some(id) && isOnboarded == Onboarded(old(flagged), id, replies) &&
        flagged == FlagsAfterCheck(old(flagged), id, replies)
    {
      isLoading := true;
      match reply {
        case SessionThrows =>
          session, user, isOnboarded := None, None, false;
        case SessionError =>
          session, user, isOnboarded := None, None, false;
        case SessionOk(s) =>
          session := s;
          user := if s.Some? then s.value.user else None;
          if user.Some? {
            CheckOnboardingStatus(user.value, replies);
          } else {
            isOnboarded := false;
          }
      }
      isLoading := false;
    }

    /** The `onAuthStateChange` handler, run for one event on its own. */
    method AuthStateChanged(s: Option<Session>, replies: CheckReplies)
      modifies this`user, this`session, this`isLoading, this`isOnboarded, this`flagged
      ensures session == s && !isLoading
      ensures user == (if s.Some? then s.value.user else None)
      ensures user.None? ==> !isOnboarded && flagged == old(flagged)
      ensures user.Some? ==>
        isOnboarded == Onboarded(old(flagged), user.value, replies) &&
        flagged == FlagsAfterCheck(old(flagged), user.value, replies)
    {
      session := s;
      user := if s.Some? then s.value.user else None;
      if user.Some? {
        CheckOnboardingStatus(user.value, replies);
      } else {
        isOnboarded := false;
      }
      isLoading := false;
    }

    /** The second effect: push `/onboarding` when its condition holds. */
    method RedirectEffect(pathname: string)
      modifies this`navigatedTo
      ensures RedirectsToOnboarding(isLoading, user, isOnboarded, pathname) ==> navigatedTo == Some("/onboarding")
      ensures !RedirectsToOnboarding(isLoading, user, isOnboarded, pathname) ==> navigatedTo == old(navigatedTo)
    {
      if !isLoading && user.Some? && !isOnboarded && pathname != "/onboarding" && !StartsWith(pathname, "/auth") {
        navigatedTo := Some("/onboarding");
      }
    }
  }
}
