/**
 * The onboarding form component (app/onboarding/components/OnboardingForm.tsx):
 * form state updated by `handleChange`, a username check (format, then
 * availability) and a submit handler that calls `completeOnboarding`. The
 * availability answer and the action's reply are parameters; `router.push`
 * records its target in `navigatedTo`.
 */
module OnboardingForm {
  import opened Common
  import opened ProfileActions
  import OnboardingPage

  /** The form fields `handleChange` can set, by their `name`. */
  datatype FormField = Username | DisplayName | Age | Gender

  /** How the `checkUsernameAvailability` call ends: it throws, or it answers. */
  datatype AvailabilityReply = AvailabilityThrows | Answered(available: bool)

  /** How `completeOnboarding` ends: it throws, or it returns `{ error }` or `{ data }`. */
  datatype CompleteReply = CompleteThrows | Returned(result: ActionResult)

  const FormatMessage := "Username can only contain letters, numbers, and underscores"
  const TakenMessage := "Username is already taken"
  const UnexpectedMessage := "An unexpected error occurred. Please try again."

  predicate FormUsernameChar(c: char)
  {
    IsLetter(c) || IsDigit(c) || c == '_'
  }

  /** `/^[a-zA-Z0-9_]+$/`: at least one character, no hyphen, no length bound. */
  predicate FormUsernameValid(s: string)
  {
    |s| >= 1 && forall k :: 0 <= k < |s| ==> FormUsernameChar(s[k])
  }

  /** The age typed into the number field: empty is null, else `parseInt(value, 10)` (None when it is NaN). */
  function TypedAge(value: string): (age: Option<int>)
    ensures value == "" ==> age.None?
    ensures value != "" ==> age == ParseInt(value, Ten)
  {
    if value != "" then ParseInt(value, Ten) else None
  }

  /** A number typed in decimal is stored as that number, zero included. */
  lemma TypedAgeOfNumber(n: int)
    ensures TypedAge(IntToString(n)) == Some(n)
  {
    ParseIntOfIntToString(n, Ten);
    assert IntToString(n) != "" by {
      if n < 0 { assert IntToString(n)[0] == '-'; } else { assert |NatToString(n)| > 0; }
    }
  }

  /** Where the page's rule allows no hyphen, the two rules differ only in length. */
  lemma UsernameRulesWithoutHyphen(s: string)
    requires '-' !in s
    ensures OnboardingPage.PageUsernameValid(s) <==> FormUsernameValid(s) && 3 <= |s| <= 20
  {
    if FormUsernameValid(s) && 3 <= |s| <= 20 {
      forall k | 0 <= k < |s| ensures OnboardingPage.UsernameChar(s[k]) {
        assert FormUsernameChar(s[k]);
      }
    }
    if OnboardingPage.PageUsernameValid(s) {
      forall k | 0 <= k < |s| ensures FormUsernameChar(s[k]) {
        assert OnboardingPage.UsernameChar(s[k]) && s[k] != '-';
      }
    }
  }

  /** The page accepts a hyphenated name the component refuses, and the component a short name the page refuses. */
  lemma UsernameRulesDisagree()
    ensures OnboardingPage.PageUsernameValid("a-b") && !FormUsernameValid("a-b")
    ensures FormUsernameValid("ab") && !OnboardingPage.PageUsernameValid("ab")
  {
    assert "a-b"[1] == '-';
    assert forall k :: 0 <= k < |"a-b"| ==> OnboardingPage.UsernameChar("a-b"[k]);
    assert forall k :: 0 <= k < |"ab"| ==> FormUsernameChar("ab"[k]);
  }

  class OnboardingForm {
    var isSubmitting: bool
    var error: Option<string>
    var usernameError: Option<string>
    var data: OnboardingFormData
    var navigatedTo: Option<string>

    constructor ()
      ensures !isSubmitting && error.None? && usernameError.None? && navigatedTo.None?
      ensures data == OnboardingFormData("", "", None, None)
    {
      isSubmitting, error, usernameError := false, None, None;
      data := OnboardingFormData("", "", None, None);
      navigatedTo := None;
    }

    /**
     * `handleChange`: editing the username clears its error; the age is
     * parsed, every other value is stored as typed.
     */
    method HandleChange(field: FormField, value: string)
      modifies this`usernameError, this`data
      ensures usernameError == (if field == Username then None else old(usernameError))
      ensures data.username == (if field == Username then value else old(data.username))
      ensures data.display_name == (if field == DisplayName then value else old(data.display_name))
      ensures data.age == (if field == Age then TypedAge(value) else old(data.age))
      ensures data.gender == (if field == Gender then Some(value) else old(data.gender))
    {
      if field == Username {
        usernameError := None;
      }
      match field {
        case Username => data := data.(username := value);
        case DisplayName => data := data.(display_name := value);
        case Age => data := data.(age := if value != "" then ParseInt(value, Ten) else None);
        case Gender => data := data.(gender := Some(value));
      }
    }

    /**
     * `validateUsername`: the format first, and only a well-formed name is
     * looked up; `lookup` is how the lookup ends, and a throw from it
     * leaves `validateUsername` (`threw`) with the message untouched.
     */
    method ValidateUsername(lookup: AvailabilityReply) returns (valid: bool, queried: bool, threw: bool)
      modifies this`usernameError
      ensures queried <==> FormUsernameValid(data.username)
      ensures threw <==> queried && lookup.AvailabilityThrows?
      ensures valid <==> FormUsernameValid(data.username) && lookup == Answered(true)
      ensures !FormUsernameValid(data.username) ==> usernameError == Some(FormatMessage)
      ensures queried && lookup == Answered(false) ==> usernameError == Some(TakenMessage)
      ensures valid || threw ==> usernameError == old(usernameError)
    {
      if !FormUsernameValid(data.username) {
        usernameError := Some(FormatMessage);
        return false, false, false;
      }
      queried := true;
      match lookup {
        case AvailabilityThrows =>
          return false, queried, true;
        case Answered(available) =>
          if !available {
            usernameError := Some(TakenMessage);
            return false, queried, false;
          }
      }
      valid, threw := true, false;
    }

    /**
     * `handleSubmit`: an invalid username stops before `completeOnboarding`;
     * otherwise the form data is submitted, an error shown, or the page
     * sent to `/`. A throw from either call lands in the `catch` and shows
     * the generic message. `isSubmitting` is false on every way out.
     */
    method HandleSubmit(lookup: AvailabilityReply, reply: CompleteReply) returns (queried: bool, submitted: Option<OnboardingFormData>)
      modifies this`isSubmitting, this`error, this`usernameError, this`navigatedTo
      ensures !isSubmitting && data == old(data)
      ensures queried <==> FormUsernameValid(data.username)
      // a name that fails either check, or whose lookup throws, never reaches the action
      ensures submitted.Some? <==> FormUsernameValid(data.username) && lookup == Answered(true)
      ensures submitted.Some? ==> submitted.value == data
      // the username check's message, which a submitted name or a throwing lookup leaves as it was
      ensures !FormUsernameValid(data.username) ==> usernameError == Some(FormatMessage)
      ensures queried && lookup == Answered(false) ==> usernameError == Some(TakenMessage)
      ensures submitted.Some? ==> usernameError == old(usernameError)
      ensures queried && lookup.AvailabilityThrows? ==>
        error == Some(UnexpectedMessage) && usernameError == old(usernameError) && navigatedTo == old(navigatedTo)
      ensures submitted.None? && !(queried && lookup.AvailabilityThrows?) ==> error.None? && navigatedTo == old(navigatedTo)
      ensures submitted.Some? && reply.CompleteThrows? ==> error == Some(UnexpectedMessage) && navigatedTo == old(navigatedTo)
      ensures submitted.Some? && reply.Returned? && reply.result.Failure? && reply.result.error != "" ==>
        error == Some(reply.result.error) && navigatedTo == old(navigatedTo)
      ensures submitted.Some? && reply.Returned? && !(reply.result.Failure? && reply.result.error != "") ==>
        error.None? && navigatedTo == Some("/")
    {
      error := None;
      isSubmitting := true;
      var valid, threw;
      valid, queried, threw := ValidateUsername(lookup);
      if threw {
        error := Some(UnexpectedMessage);
        isSubmitting := false;
        return queried, None;
      }
      if !valid {
        isSubmitting := false;
        return queried, None;
      }
      submitted := Some(data);
      match reply {
        case CompleteThrows =>
          error := Some(UnexpectedMessage);
        case Returned(result) =>
          if result.Failure? && result.error != "" {
            error := Some(result.error);
          } else {
            navigatedTo := Some("/");
          }
      }
      isSubmitting := false;
    }
  }
}
