/**
 * The profile server actions (app/actions/profile.ts) over the Supabase
 * `user_profiles` table. The table is a map from user id to row held by a
 * `ProfileStore`; the signed-in user, the failure of a lookup, the reply of
 * the `is_username_available` remote procedure and the database's answer
 * to a write are parameters.
 */
module ProfileActions {
  import opened Common

  /** A `user_profiles` row; `updated_at` is None while it holds the database's default. */
  datatype ProfileRow = ProfileRow(
    username: string, display_name: string, age: Option<int>, gender: Option<string>,
    updated_at: Option<string>)

  /** What the onboarding form submits. */
  datatype OnboardingFormData = OnboardingFormData(
    username: string, display_name: string, age: Option<int>, gender: Option<string>)

  /** What the edit-profile form submits: the onboarding data without the username. */
  datatype ProfileEdit = ProfileEdit(display_name: string, age: Option<int>, gender: Option<string>)

  /** The reply of the `is_username_available` procedure. */
  datatype RpcReply = RpcError | RpcAnswer(available: bool)

  /** `{ error }` or `{ data }`, with the paths whose cache a success revalidates. */
  datatype ActionResult = Failure(error: string) | Success(data: ProfileRow, revalidated: seq<string>)

  /** The message of the client library when `.single()` finds no row to return. */
  const NoRowMessage := "JSON object requested, multiple (or no) rows returned"

  /** The database's message for a second row under a user id, the key `user_id` being unique. */
  const DuplicateUserIdMessage := "duplicate key value violates unique constraint \"user_profiles_user_id_key\""

  /** `checkUsernameAvailability`: false on an error, otherwise the procedure's answer. */
  function CheckUsernameAvailability(reply: RpcReply): (available: bool)
    ensures available <==> reply.RpcAnswer? && reply.available
    ensures reply.RpcError? ==> !available
  {
    match reply
    case RpcError => false
    case RpcAnswer(a) => a
  }

  /** No two rows share a username. */
  ghost predicate UniqueUsernames(rows: map<string, ProfileRow>)
  {
    forall u, v :: u in rows && v in rows && u != v ==> rows[u].username != rows[v].username
  }

  /** The procedure tells the truth about the table: available iff no row has the name. */
  ghost predicate Truthful(reply: RpcReply, rows: map<string, ProfileRow>, username: string)
  {
    reply.RpcAnswer? ==> (reply.available <==> forall u :: u in rows ==> rows[u].username != username)
  }

  /** The row `completeOnboarding` inserts. */
  function NewRow(form: OnboardingFormData): (row: ProfileRow)
    ensures row.username == form.username && row.display_name == form.display_name
    ensures row.age == form.age && row.gender == form.gender && row.updated_at.None?
  {
    ProfileRow(form.username, form.display_name, form.age, form.gender, None)
  }

  /** A row after `updateUserProfile`: the three edited fields and the timestamp; the username stays. */
  function EditedRow(row: ProfileRow, edit: ProfileEdit, now: string): (r: ProfileRow)
    ensures r.username == row.username
    ensures r.display_name == edit.display_name && r.age == edit.age && r.gender == edit.gender
    ensures r.updated_at == Some(now)
  {
    row.(display_name := edit.display_name, age := edit.age, gender := edit.gender, updated_at := Some(now))
  }

  class ProfileStore {
    var rows: map<string, ProfileRow>

    constructor (rows: map<string, ProfileRow>)
      ensures this.rows == rows
    {
      this.rows := rows;
    }

    /** `hasCompletedOnboarding`: false without a user or on a query error, else whether the user has a row. */
    function HasCompletedOnboarding(user: Option<string>, queryFails: bool): (done: bool)
      reads this
      ensures done <==> user.Some? && !queryFails && user.value in rows
      // the status agrees with the profile lookup
      ensures done <==> GetUserOnboardingProfile(user, queryFails).Some?
    {
      match user
      case None => false
      case Some(id) => if queryFails then false else id in rows
    }

    /** `getUserOnboardingProfile`: null without a user or on a query error, else the user's row if any. */
    function GetUserOnboardingProfile(user: Option<string>, queryFails: bool): (profile: Option<ProfileRow>)
      reads this
      ensures profile.Some? <==> user.Some? && !queryFails && user.value in rows
      ensures profile.Some? ==> profile.value == rows[user.value]
    {
      match user
      case None => None
      case Some(id) => if queryFails || id !in rows then None else Some(rows[id])
    }

    /**
     * `completeOnboarding`: the guards run in a fixed order, each with its
     * own message; a failed guard or a failed insert leaves the table as
     * it was. The table keeps at most one row per user, so an insert for a
     * user who already has a row (reached when the profile lookup failed)
     * is refused by the database; `insertError` is its answer otherwise.
     */
    method CompleteOnboarding(user: Option<string>, form: OnboardingFormData, profileQueryFails: bool,
                              reply: RpcReply, insertError: Option<string>) returns (result: ActionResult)
      modifies this
      ensures user.None? ==> result == Failure("User not authenticated")
      ensures user.Some? && old(GetUserOnboardingProfile(user, profileQueryFails)).Some? ==>
        result == Failure("Onboarding already completed")
      ensures (user.Some? && old(GetUserOnboardingProfile(user, profileQueryFails)).None? &&
               !CheckUsernameAvailability(reply)) ==>
        result == Failure("Username is already taken")
      // past the guards, a second row for the same user is refused by the table's key
      ensures (user.Some? && old(GetUserOnboardingProfile(user, profileQueryFails)).None? &&
               CheckUsernameAvailability(reply) && user.value in old(rows)) ==>
        result == Failure(DuplicateUserIdMessage)
      ensures (user.Some? && old(GetUserOnboardingProfile(user, profileQueryFails)).None? &&
               CheckUsernameAvailability(reply) && user.value !in old(rows) && insertError.Some?) ==>
        result == Failure(insertError.value)
      ensures result.Failure? ==> rows == old(rows)
      ensures result.Success? <==>
        user.Some? && old(GetUserOnboardingProfile(user, profileQueryFails)).None? &&
        CheckUsernameAvailability(reply) && user.value !in old(rows) && insertError.None?
      ensures result.Success? ==>
        result == Success(NewRow(form), ["/", "/onboarding", "/protected"]) &&
        rows == old(rows)[user.value := NewRow(form)]
      // an existing row is never overwritten
      ensures forall u :: u in old(rows) ==> u in rows && rows[u] == old(rows)[u]
      // with a truthful procedure, usernames stay unique
      ensures UniqueUsernames(old(rows)) && Truthful(reply, old(rows), form.username) ==> UniqueUsernames(rows)
    {
      if user.None? {
        return Failure("User not authenticated");
      }
      var existing := GetUserOnboardingProfile(user, profileQueryFails);
      if existing.Some? {
        return Failure("Onboarding already completed");
      }
      var usernameAvailable := CheckUsernameAvailability(reply);
      if !usernameAvailable {
        return Failure("Username is already taken");
      }
      var error := if user.value in rows then Some(DuplicateUserIdMessage) else insertError;
      if error.Some? {
        return Failure(error.value);
      }
      rows := rows[user.value := NewRow(form)];
      result := Success(NewRow(form), ["/", "/onboarding", "/protected"]);
    }

    /**
     * `updateUserProfile`: rewrite the user's row without touching the
     * username; `.single()` turns "no row matched" into an error.
     */
    method UpdateUserProfile(user: Option<string>, edit: ProfileEdit, now: string, updateError: Option<string>)
      returns (result: ActionResult)
      modifies this
      ensures user.None? ==> result == Failure("User not authenticated")
      ensures user.Some? && updateError.Some? ==> result == Failure(updateError.value)
      ensures user.Some? && updateError.None? && user.value !in old(rows) ==> result == Failure(NoRowMessage)
      ensures result.Failure? ==> rows == old(rows)
      ensures result.Success? <==> user.Some? && updateError.None? && user.value in old(rows)
      ensures result.Success? ==>
        result == Success(EditedRow(old(rows)[user.value], edit, now), ["/", "/edit-profile", "/protected"]) &&
        rows == old(rows)[user.value := EditedRow(old(rows)[user.value], edit, now)]
      // the same users, each with the username they had
      ensures rows.Keys == old(rows).Keys
      ensures forall u :: u in rows ==> rows[u].username == old(rows)[u].username
      ensures UniqueUsernames(old(rows)) ==> UniqueUsernames(rows)
    {
      if user.None? {
        return Failure("User not authenticated");
      }
      if updateError.Some? {
        return Failure(updateError.value);
      }
      if user.value !in rows {
        return Failure(NoRowMessage);
      }
      var updated := EditedRow(rows[user.value], edit, now);
      rows := rows[user.value := updated];
      result := Success(updated, ["/", "/edit-profile", "/protected"]);
    }
  }
}
