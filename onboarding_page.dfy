/**
 * The onboarding page (app/onboarding/page.tsx): a client form whose state
 * the page's handlers update. The React state is the fields of an
 * `OnboardingPage` object, each handler a method; the file reader's two
 * callbacks are methods of their own, the reply of
 * `updateUserProfileAction` is a parameter, and `router.push` records its
 * target in `navigatedTo`.
 */
module OnboardingPage {
  import opened Common
  import opened ImageUrl

  /** The part of a chosen file the page looks at. */
  datatype ImageFile = ImageFile(size: int, mimeType: string)

  /** The form fields `handleChange` can set, by their `name`. */
  datatype PageField = DisplayName | Username | Age | Gender

  /** The user metadata the page reads. */
  datatype UserMetadata = UserMetadata(fullName: Option<string>, username: Option<string>)

  /** What `updateUserProfileAction` is called with. */
  datatype ProfileUpdate = ProfileUpdate(displayName: string, username: string, age: Option<int>,
                                         gender: string, profileImage: Option<ImageFile>)

  /** How `updateUserProfileAction` ends: it throws, or it answers `{ success, message }`. */
  datatype UpdateReply = UpdateThrows | UpdateAnswer(success: bool, message: Option<string>)

  /** What the avatar circle shows. */
  datatype AvatarView = LoadingView | PreviewView(src: string) | InitialView(svg: string)

  const MaxImageSize := 2 * 1024 * 1024
  const ValidTypes: seq<string> := ["image/jpeg", "image/png", "image/gif", "image/webp"]
  const SizeMessage := "Image size must be less than 2MB"
  const TypeMessage := "Image must be a JPEG, PNG, GIF, or WebP file"
  const UsernameMessage := "Username must be 3-20 characters and contain only letters, numbers, underscores, and hyphens"

  /** The checks of `handleImageChange`: the size first, then the type. */
  function ImageCheck(file: ImageFile): (problem: Option<string>)
    ensures file.size > MaxImageSize ==> problem == Some(SizeMessage)
    ensures file.size <= MaxImageSize && file.mimeType !in ValidTypes ==> problem == Some(TypeMessage)
    ensures problem.None? <==> file.size <= MaxImageSize && file.mimeType in ValidTypes
  {
    if file.size > MaxImageSize then Some(SizeMessage)
    else if file.mimeType !in ValidTypes then Some(TypeMessage)
    else None
  }

  predicate UsernameChar(c: char)
  {
    IsLetter(c) || IsDigit(c) || c == '_' || c == '-'
  }

  /** `/^[a-zA-Z0-9_-]{3,20}$/`. */
  predicate PageUsernameValid(s: string)
  {
    3 <= |s| <= 20 && forall k :: 0 <= k < |s| ==> UsernameChar(s[k])
  }

  /** `parseInt(age) || null`: an empty, non-numeric or zero age is null. */
  function SubmittedAge(age: string): (r: Option<int>)
    ensures r.Some? ==> r.value != 0
    ensures age == "" ==> r.None?
  {
    ParseIntOrNull(age, Auto)
  }

  /** Text that does not start with a sign, a digit or white space has no age. */
  lemma NonNumericAgeIsNull(age: string)
    requires age != [] && !IsDigit(age[0]) && !IsJsSpace(age[0]) && age[0] != '-' && age[0] != '+'
    ensures SubmittedAge(age).None?
  {
    assert TrimStart(age) == age;
    assert !HasHexPrefix(age);
    assert DigitRun(age, false) == [];
  }

  /** A printed non-zero number is submitted as that number. */
  lemma NumericAgeSubmitted(n: int)
    requires n != 0
    ensures SubmittedAge(IntToString(n)) == Some(n)
  {
    ParseIntOfIntToString(n, Auto);
  }

  class OnboardingPage {
    var displayName: string
    var username: string
    var age: string
    var gender: string
    var profileImage: Option<ImageFile>
    var imagePreview: string
    var isSubmitting: bool
    var error: string
    var imageUploadError: string
    var isImageLoading: bool
    var navigatedTo: Option<string>

    /** A kept image always passed the size and type checks. */
    predicate Valid()
      reads this
    {
      profileImage.Some? ==> ImageCheck(profileImage.value).None?
    }

    /** The initial state of the form. */
    constructor ()
      ensures Valid()
      ensures displayName == "" && username == "" && age == "" && gender == "prefer-not-to-say"
      ensures profileImage.None? && imagePreview == ""
      ensures !isSubmitting && error == "" && imageUploadError == "" && !isImageLoading
      ensures navigatedTo.None?
    {
      displayName, username, age, gender := "", "", "", "prefer-not-to-say";
      profileImage, imagePreview := None, "";
      isSubmitting, error, imageUploadError, isImageLoading := false, "", "", false;
      navigatedTo := None;
    }

    /** The first effect: prefill the names from the user's metadata. */
    method InitFromUser(user: Option<UserMetadata>)
      requires Valid()
      modifies this
      ensures Valid()
      ensures user.Some? ==> displayName == OrElse(user.value.fullName, "") && username == OrElse(user.value.username, "")
      ensures user.None? ==> displayName == old(displayName) && username == old(username)
      ensures age == old(age) && gender == old(gender) && profileImage == old(profileImage)
      ensures imagePreview == old(imagePreview) && error == old(error) && imageUploadError == old(imageUploadError)
      ensures isSubmitting == old(isSubmitting) && isImageLoading == old(isImageLoading) && navigatedTo == old(navigatedTo)
    {
      if user.Some? {
        displayName := OrElse(user.value.fullName, "");
        username := OrElse(user.value.username, "");
      }
    }

    /** The second effect: once loading is over, a signed-out visitor is sent to `/sign-in`. */
    method RedirectIfSignedOut(isLoading: bool, signedIn: bool)
      modifies this`navigatedTo
      ensures !isLoading && !signedIn ==> navigatedTo == Some("/sign-in")
      ensures isLoading || signedIn ==> navigatedTo == old(navigatedTo)
    {
      if !isLoading && !signedIn {
        navigatedTo := Some("/sign-in");
      }
    }

    /** `handleChange`: store the typed value under the field's name. */
    method HandleChange(field: PageField, value: string)
      requires Valid()
      modifies this`displayName, this`username, this`age, this`gender
      ensures Valid()
      ensures displayName == (if field == DisplayName then value else old(displayName))
      ensures username == (if field == Username then value else old(username))
      ensures age == (if field == Age then value else old(age))
      ensures gender == (if field == Gender then value else old(gender))
    {
      match field
      case DisplayName => displayName := value;
      case Username => username := value;
      case Age => age := value;
      case Gender => gender := value;
    }

    /**
     * `handleImageChange`: reject a file that is too large or of another
     * type, otherwise clear the error and start reading it.
     */
    method HandleImageChange(file: Option<ImageFile>) returns (readStarted: bool)
      requires Valid()
      modifies this`imageUploadError, this`isImageLoading
      ensures Valid()
      ensures readStarted <==> file.Some? && ImageCheck(file.value).None?
      ensures file.None? ==> imageUploadError == old(imageUploadError) && isImageLoading == old(isImageLoading)
      ensures file.Some? && ImageCheck(file.value).Some? ==>
        imageUploadError == ImageCheck(file.value).value && isImageLoading == old(isImageLoading)
      ensures readStarted ==> imageUploadError == "" && isImageLoading
    {
      if file.None? {
        return false;
      }
      var f := file.value;
      if f.size > MaxImageSize {
        imageUploadError := SizeMessage;
        return false;
      }
      if f.mimeType !in ValidTypes {
        imageUploadError := TypeMessage;
        return false;
      }
      imageUploadError := "";
      isImageLoading := true;
      readStarted := true;
    }

    /** The reader's `onloadend`, for a file `handleImageChange` accepted. */
    method ReaderLoaded(file: ImageFile, dataUrl: string)
      requires Valid() && ImageCheck(file).None?
      modifies this`profileImage, this`imagePreview, this`isImageLoading
      ensures Valid()
      ensures profileImage == Some(file) && imagePreview == dataUrl && !isImageLoading
    {
      profileImage := Some(file);
      imagePreview := dataUrl;
      isImageLoading := false;
    }

    /** The reader's `onerror`. */
    method ReaderFailed()
      requires Valid()
      modifies this`imageUploadError, this`isImageLoading
      ensures Valid()
      ensures imageUploadError == "Failed to read image file" && !isImageLoading
    {
      imageUploadError := "Failed to read image file";
      isImageLoading := false;
    }

    /** The avatar circle: a loading pulse, the preview, or the initials avatar. */
    function Avatar(fullName: Option<string>, email: Option<string>): (view: AvatarView)
      reads this
      ensures isImageLoading ==> view == LoadingView
      ensures !isImageLoading && imagePreview != "" ==> view == PreviewView(imagePreview)
      ensures !isImageLoading && imagePreview == "" ==>
        view == InitialView(GetInitialAvatar(fullName, email))
    {
      if isImageLoading then LoadingView
      else if imagePreview != "" then PreviewView(imagePreview)
      else InitialView(GetInitialAvatar(fullName, email))
    }

    /**
     * `handleSubmit`: refuse a malformed username before calling the
     * action, then follow its answer; `isSubmitting` is false again on
     * every way out.
     */
    method HandleSubmit(reply: UpdateReply) returns (call: Option<ProfileUpdate>)
      requires Valid()
      modifies this`isSubmitting, this`error, this`navigatedTo
      ensures Valid() && !isSubmitting
      ensures !PageUsernameValid(username) ==>
        call.None? && error == UsernameMessage && navigatedTo == old(navigatedTo)
      ensures PageUsernameValid(username) ==>
        call == Some(ProfileUpdate(displayName, username, SubmittedAge(age), gender, profileImage))
      ensures call.Some? && reply.UpdateAnswer? && reply.success ==> error == "" && navigatedTo == Some("/protected")
      ensures call.Some? && reply.UpdateAnswer? && !reply.success ==>
        error == OrElse(reply.message, "Error updating profile") && navigatedTo == old(navigatedTo)
      ensures call.Some? && reply.UpdateThrows? ==>
        error == "An unexpected error occurred" && navigatedTo == old(navigatedTo)
      // an image that goes out always passed the checks
      ensures call.Some? && call.value.profileImage.Some? ==> ImageCheck(call.value.profileImage.value).None?
    {
      isSubmitting := true;
      error := "";
      if !PageUsernameValid(username) {
        error := UsernameMessage;
        isSubmitting := false;
        return None;
      }
      call := Some(ProfileUpdate(displayName, username, SubmittedAge(age), gender, profileImage));
      match reply {
        case UpdateAnswer(success, message) =>
          if success {
            navigatedTo := Some("/protected");
          } else {
            error := OrElse(message, "Error updating profile");
          }
        case UpdateThrows =>
          error := "An unexpected error occurred";
      }
      isSubmitting := false;
    }
  }
}
