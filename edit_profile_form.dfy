/**
 * The edit-profile form component (app/edit-profile/components/EditProfileForm.tsx):
 * form state seeded from the user's row, a change handler, and a submit
 * handler that calls `updateUserProfile`. The username is shown but never
 * submitted. The action's reply is a parameter; `router.push` records its
 * target in `navigatedTo` and `router.refresh` sets `refreshed`.
 */
module EditProfileForm {
  import opened Common
  import opened ProfileActions
  import OnboardingForm

  /** The form fields `handleChange` can set, by their `name`. */
  datatype EditField = DisplayName | Age | Gender

  /** How `updateUserProfile` ends: it throws, or it returns `{ error }` or `{ data }`. */
  datatype UpdateReply = UpdateThrows | UpdateReturned(result: ActionResult)

  /** What the component renders: the prompt without a profile, else the form with its error banner. */
  datatype FormView = NotFoundPrompt | FormShown(username: string, banner: Option<string>)

  const UnexpectedMessage := "An unexpected error occurred. Please try again."

  /** `gender || ''`: a missing gender is shown as the empty choice. */
  function ShownGender(g: Option<string>): (s: string)
    ensures g.None? ==> s == ""
    ensures g.Some? ==> s == g.value
  {
    OrElse(g, "")
  }

  /** `gender || null`: the empty choice is submitted as null. */
  function SubmittedGender(s: string): (g: Option<string>)
    ensures g.None? <==> s == ""
    ensures g.Some? ==> g.value == s
  {
    if s == "" then None else Some(s)
  }

  /** Showing a stored gender and submitting it again gives it back, except an empty one, which becomes null. */
  lemma GenderRoundTrip(g: Option<string>)
    ensures SubmittedGender(ShownGender(g)) == (if g == Some("") then None else g)
  {
  }

  class EditProfileForm {
    const initialProfile: Option<ProfileRow>
    var isSubmitting: bool
    var error: Option<string>
    var displayName: string
    var age: Option<int>
    var gender: string
    var navigatedTo: Option<string>
    var refreshed: bool

    /** The first render: the fields from the row, with `age || null` turning a zero age into null. */
    constructor (initialProfile: Option<ProfileRow>)
      ensures this.initialProfile == initialProfile
      ensures !isSubmitting && error.None? && navigatedTo.None? && !refreshed
      ensures initialProfile.None? ==> displayName == "" && age.None? && gender == ""
      ensures initialProfile.Some? ==>
        displayName == initialProfile.value.display_name &&
        age == (if initialProfile.value.age == Some(0) then None else initialProfile.value.age) &&
        gender == ShownGender(initialProfile.value.gender)
    {
      this.initialProfile := initialProfile;
      isSubmitting, error := false, None;
      match initialProfile {
        case None =>
          displayName, age, gender := "", None, "";
        case Some(row) =>
          displayName := row.display_name;
          age := if row.age.Some? && row.age.value != 0 then row.age else None;
          gender := ShownGender(row.gender);
      }
      navigatedTo, refreshed := None, false;
    }

    /** The effect: with a profile, the fields are reset from it, the age as stored. */
    method SyncFromProfile()
      modifies this`displayName, this`age, this`gender
      ensures initialProfile.None? ==>
        displayName == old(displayName) && age == old(age) && gender == old(gender)
      ensures initialProfile.Some? ==>
        displayName == initialProfile.value.display_name && age == initialProfile.value.age &&
        gender == ShownGender(initialProfile.value.gender)
      // what the form would submit now is the row's own values
      ensures initialProfile.Some? ==>
        Payload() == ProfileEdit(initialProfile.value.display_name, initialProfile.value.age,
                                 SubmittedGender(ShownGender(initialProfile.value.gender)))
    {
      if initialProfile.Some? {
        var row := initialProfile.value;
        displayName, age, gender := row.display_name, row.age, ShownGender(row.gender);
      }
    }

    /** `handleChange`: the age is parsed as in the onboarding form, the other fields are stored as typed. */
    method HandleChange(field: EditField, value: string)
      modifies this`displayName, this`age, this`gender
      ensures displayName == (if field == DisplayName then value else old(displayName))
      ensures age == (if field == Age then OnboardingForm.TypedAge(value) else old(age))
      ensures gender == (if field == Gender then value else old(gender))
    {
      match field {
        case DisplayName => displayName := value;
        case Age => age := if value != "" then ParseInt(value, Ten) else None;
        case Gender => gender := value;
      }
    }

    /** What `handleSubmit` sends: the three editable fields, with an empty gender as null. */
    function Payload(): (edit: ProfileEdit)
      reads this
      ensures edit.display_name == displayName && edit.age == age
      ensures edit.gender.None? <==> gender == ""
      ensures edit.gender.Some? ==> edit.gender.value == gender
    {
      ProfileEdit(displayName, age, SubmittedGender(gender))
    }

    /**
     * `handleSubmit`: send the payload; a truthy error is shown, anything
     * else goes to `/protected` and refreshes; a throw shows the generic
     * message. `isSubmitting` is false afterwards.
     */
    method HandleSubmit(reply: UpdateReply) returns (submitted: ProfileEdit)
      modifies this`isSubmitting, this`error, this`navigatedTo, this`refreshed
      ensures submitted == Payload() && !isSubmitting
      ensures reply.UpdateThrows? ==>
        error == Some(UnexpectedMessage) && navigatedTo == old(navigatedTo) && refreshed == old(refreshed)
      ensures reply.UpdateReturned? && reply.result.Failure? && reply.result.error != "" ==>
        error == Some(reply.result.error) && navigatedTo == old(navigatedTo) && refreshed == old(refreshed)
      ensures reply.UpdateReturned? && !(reply.result.Failure? && reply.result.error != "") ==>
        error.None? && navigatedTo == Some("/protected") && refreshed
    {
      error := None;
      isSubmitting := true;
      submitted := Payload();
      match reply {
        case UpdateThrows =>
          error := Some(UnexpectedMessage);
        case UpdateReturned(result) =>
          if result.Failure? && result.error != "" {
            error := Some(result.error);
          } else {
            navigatedTo := Some("/protected");
            refreshed := true;
          }
      }
      isSubmitting := false;
    }

    /** The "Go to Onboarding" button of the prompt shown without a profile. */
    method GoToOnboarding()
      requires initialProfile.None?
      modifies this`navigatedTo
      ensures navigatedTo == Some("/onboarding")
    {
      navigatedTo := Some("/onboarding");
    }

    /** The rendered view: the prompt without a profile, else the form with the read-only username. */
    function View(): (v: FormView)
      reads this
      ensures v.NotFoundPrompt? <==> initialProfile.None?
      ensures v.FormShown? ==> v.username == initialProfile.value.username
      ensures v.FormShown? ==> (v.banner.Some? <==> error.Some? && error.value != "")
    {
      match initialProfile
      case None => NotFoundPrompt
      case Some(row) => FormShown(row.username, if error.Some? && error.value != "" then error else None)
    }
  }

  /**
   * Submitting the synced form unchanged rewrites the row with its own
   * values and the new timestamp, unless its gender was stored empty.
   */
  lemma UnchangedResubmitKeepsRow(row: ProfileRow, now: string)
    ensures var edit := ProfileEdit(row.display_name, row.age, SubmittedGender(ShownGender(row.gender)));
      EditedRow(row, edit, now) == row.(updated_at := Some(now)) <==> row.gender != Some("")
  {
    GenderRoundTrip(row.gender);
  }
}
