# OpenDots: a verified model of the sign-in, onboarding and image core

This project models, in Dafny, the decision logic of the OpenDots Next.js app:
- who is sent where: the request middleware, the session middleware, the OAuth callback, the home page, the edit-profile page and the client auth provider;
- the profile store behind the onboarding and edit-profile forms: the Supabase `user_profiles` actions and the Cloudflare D1 adapter with its dynamic `UPDATE` builder;
- how an uploaded image is named, stored, addressed by URL and served back by the image worker;
- the classifiers and validators of the client: user-agent labels, usernames, ages and images;
- the D1 migration runner's file order and command lines.

Every external service is a parameter of the operation that uses it:
- Supabase auth, its tables and its RPC;
- the D1 binding, the R2 bucket and the Cloudflare API;
- `fetch`, `uuidv4`, the clock, `NODE_ENV` and the file system.

State that the source changes in place is a class with `modifies` clauses:
- the request cookie jar (`SessionMiddleware.Request`);
- the `user_profiles` table (`ProfileActions.ProfileStore`);
- the D1 table (`D1Client.D1Database`);
- the React state of each form and of the auth provider.

Decisions that only compute a value are functions. The migration runner's loop and the sign-out cookie loops are methods with loop invariants.

JavaScript semantics the code relies on are written out explicitly (`common.dfy`, `uri.dfy`):
- `||` on strings and numbers;
- `parseInt` in both radix modes, with `None` standing for `NaN`;
- `encodeURIComponent`;
- `URLSearchParams` building and decoding.

Two behaviours are easy to assume otherwise, and the model follows the code in both:
- The OAuth callback does not choose between onboarding and the protected area by profile completeness. It redirects to `next` (default `/protected`) without looking at any profile (`AuthCallback.Get`).
- The profile server actions do not write to D1 as well as Supabase. They call only Supabase, so the two stores are modelled separately and no synchronisation between them is modelled.

The client auth provider decides onboarding from a `profiles` row with `username` and `full_name`. The server side decides it from a `user_profiles` row. The model keeps the two separate: `AuthContext` and `ProfileActions`.

## Model

| member | source | states |
|---|---|---|
| Common.ParseIntOfIntToString | functions/image-worker.js:34-35 | `parseInt` reads back every integer printed in decimal, in both radix modes |
| Common.ParseIntOrNull | app/onboarding/page.tsx:112 | `parseInt(x) \|\| null` is null exactly when the parse is NaN or 0, and is never 0 |
| Uri.DecodeEncode | app/auth/callback/route.ts:15-17 | decoding a query value produced by `encodeURIComponent` gives back the ASCII text |
| Uri.ParseBuildQuery | app/actions.ts:46-48 | a query built from plain names and ASCII values parses back to the same pairs, in order |
| Middleware.SignOutResponse | middleware.ts:12-33 | the sign-out loops yield a redirect to `/sign-in` deleting exactly the names of `SignOutCookieNames` |
| Middleware.HandleRequest | middleware.ts:5-47 | a `signout` parameter of any value short-circuits to the sign-out response with the request jar untouched; otherwise `updateSession`'s response with `X-D1-Available` set to `true` iff the D1 binding exists |
| Middleware.SignOutDeletes44 | middleware.ts:15-31 | sign-out deletes 44 pairwise different cookie names |
| Middleware.SignOutNameShape | middleware.ts:15-31 | a name is deleted iff it is one of the four base names, plain or with a chunk suffix `.0`..`.9` |
| Middleware.ChunkSuffixRange | middleware.ts:28-30 | a base name with printed suffix `k` is deleted iff `k < 10` |
| Middleware.FamiliesDistinct | middleware.ts:23-31 | names deleted for base names with different four-letter prefixes never coincide |
| Middleware.MatcherExcludes | middleware.ts:58 | every path beginning `/api`, `/_next/static`, `/_next/image` or `/favicon.ico` is outside the matcher |
| SessionMiddleware.Request.constructor | utils/supabase/middleware.ts:5 | the request holds the given URL parts and cookie jar |
| SessionMiddleware.SecureOptions | utils/supabase/middleware.ts:38-43 | the written options are the incoming ones with `secure` (production only), `httpOnly` and `sameSite=lax` overriding them |
| SessionMiddleware.SetAll | utils/supabase/middleware.ts:29-46 | the request jar receives every value in order, and the response is replaced by a fresh pass-through carrying every cookie with forced options |
| SessionMiddleware.SetRequestCookies | utils/supabase/middleware.ts:30-32 | after the loop the request jar is the old jar with every value set in list order |
| SessionMiddleware.SecuredJar | utils/supabase/middleware.ts:36-45 | the loop builds the jar holding, in list order, every cookie with its options secured |
| SessionMiddleware.WrittenLastWins | utils/supabase/middleware.ts:30-32 | when a name is set twice, the last entry decides the jar |
| SessionMiddleware.WrittenUntouched | utils/supabase/middleware.ts:30-32 | names that no entry carries keep their old value |
| SessionMiddleware.Route | utils/supabase/middleware.ts:64-98 | `/protected` without a user, or with a user error, goes to `/sign-in` first; the onboarding redirect fires iff there is a user, the path is outside `/onboarding` and the skip set, and there is no row and no query error; `/` goes to `/protected` only when onboarding did not fire |
| SessionMiddleware.UpdateSession | utils/supabase/middleware.ts:5-110 | the response is the cascade's redirect, or the pass-through; a client failure gives a plain pass-through; the request jar goes through every `setAll` call in order, and a pass-through carries only the last call's cookies |
| SessionMiddleware.RefreshCalls | utils/supabase/middleware.ts:29-46 | over any number of `setAll` calls, the request jar receives every list in call order and the response is the last call's pass-through, or the initial one when there was no call |
| SessionMiddleware.WrittenAllUntouched | utils/supabase/middleware.ts:30-32 | a cookie that no `setAll` call names keeps its value in the request jar |
| SessionMiddleware.LastCallWins | utils/supabase/middleware.ts:30-32 | a cookie the last call names last holds that entry's value in the request jar, whatever earlier calls wrote |
| SessionMiddleware.SecurityHeadersSurvive | utils/supabase/middleware.ts:15-19 | the five security headers reach the client iff the request passes through and `setAll` was never called |
| SessionMiddleware.SessionCookiesSecured | utils/supabase/middleware.ts:36-44 | every cookie set on the response carries `httpOnly`, `sameSite=lax`, and `secure` exactly in production |
| D1Client.FirstWithUserId | utils/d1/client.ts:31-34 | the first row of the user, or none iff no row has that user id |
| D1Client.ToProfile | utils/d1/client.ts:38-47 | a null or 0 age becomes null; every other field is copied |
| D1Client.UpdatedColumns | utils/d1/client.ts:109-122 | a column is assigned iff its field is not undefined; only `display_name`, `age` and `gender` |
| D1Client.BuildUpdate | utils/d1/client.ts:106-125 | the clause-by-clause statement and parameter list equal the specified statement and parameters |
| D1Client.PlaceholdersMatchParams | utils/d1/client.ts:106-128 | the statement holds as many `?` as there are parameters; the timestamp comes first and the user id last |
| D1Client.BuiltStatementEffect | utils/d1/client.ts:106-128 | binding the parameters to the statement's columns performs the intended update; `id`, `user_id`, `username` and `created_at` are kept |
| D1Client.D1Database.constructor | utils/d1/client.ts:4-6 | the adapter with or without a D1 binding, over the given rows |
| D1Client.D1Database.IsUsernameAvailable | utils/d1/client.ts:11-24 | available iff bound, no error, and no row has the username |
| D1Client.D1Database.GetUserProfile | utils/d1/client.ts:27-52 | null outside a worker, on error or with no row; otherwise the first row of the user, normalised |
| D1Client.D1Database.CreateUserProfile | utils/d1/client.ts:55-92 | appends one row whose `created_at` and `updated_at` are the same timestamp; unavailable outside a worker; an error carries its message or the fallback and leaves the table alone |
| D1Client.D1Database.UpdateUserProfile | utils/d1/client.ts:95-138 | every row of the user becomes `Updated(row)` and all other rows are kept; unavailable outside a worker; errors as for create |
| ProfileActions.CheckUsernameAvailability | app/actions/profile.ts:10-22 | false on an RPC error, otherwise the RPC's answer |
| ProfileActions.NewRow | app/actions/profile.ts:101-107 | the inserted row carries the form's username, display name, age and gender |
| ProfileActions.EditedRow | app/actions/profile.ts:139-144 | an update keeps the username, takes the three edited fields and stamps `updated_at` |
| ProfileActions.ProfileStore.constructor | app/actions/profile.ts:36 | the store holds the given table |
| ProfileActions.ProfileStore.HasCompletedOnboarding | app/actions/profile.ts:27-47 | true iff a user is signed in, the query succeeds and the user has a row; agrees with `GetUserOnboardingProfile` |
| ProfileActions.ProfileStore.GetUserOnboardingProfile | app/actions/profile.ts:52-72 | the user's row, or null without a user, on error or with no row |
| ProfileActions.ProfileStore.CompleteOnboarding | app/actions/profile.ts:77-122 | guards in the order not authenticated, already onboarded, username taken, insert error, each with its message and no write; a user who already has a row (reached when the lookup failed) gets the duplicate-key error; no existing row is ever overwritten; success inserts `NewRow` and revalidates `/`, `/onboarding` and `/protected`; usernames stay unique given a truthful RPC |
| ProfileActions.ProfileStore.UpdateUserProfile | app/actions/profile.ts:127-160 | no user, a database error or a missing row fails without a write; success rewrites only the user's row via `EditedRow`; the set of users, every username and username uniqueness are preserved |
| OAuthActions.DetectPlatform | app/actions.ts:34-36 | `Mobile` iff the agent contains `Mobile`, `Android` or `iPhone` (case-sensitive), else `Desktop` |
| OAuthActions.DetectBrowser | app/actions.ts:40-44 | the first of Chrome, Firefox, Safari, Edge contained in the agent, else `Other Browser` |
| OAuthActions.ScopeParam | app/actions.ts:52-72 | splitting the scope string on spaces gives back the provider's scope list |
| OAuthActions.SignInWithOAuth | app/actions.ts:11-87 | a missing origin redirects with "Missing origin header" and no provider call; otherwise the provider is called with the callback URL, `offline` access, `consent` and the provider's scopes; a provider error redirects with its message; a returned URL is followed, and its absence gives "OAuth configuration error" |
| OAuthActions.CallbackQueryText | app/actions.ts:46-48 | the query the action appends is the built query of the three pairs |
| OAuthActions.CallbackReceivesUserInfo | app/actions.ts:31-48 | the callback reads back platform, browser and location as the action chose them; supplied values win; location defaults to `unknown` |
| OAuthActions.SignOutTarget | app/actions.ts:100-118 | the sign-out redirect, whether or not sign-out failed, carries a `signout` parameter the middleware sees |
| OAuthActions.SignOutQuery | app/actions.ts:117 | `/?signout=true` parses to the single pair `signout=true` |
| AuthCallback.NextPath | app/auth/callback/route.ts:12 | `next` is the parameter when present, even empty; otherwise `/protected` |
| AuthCallback.Detail | app/auth/callback/route.ts:38-42 | a detail is its parameter when non-empty, else `unknown` |
| AuthCallback.RedirectTarget | app/auth/callback/route.ts:76-89 | development uses the origin; otherwise a forwarded host wins over the origin; the target always ends with `next` |
| AuthCallback.Get | app/auth/callback/route.ts:5-96 | a missing code, an exchange error and an unexpected throw give the error redirects, without metadata; success redirects to `RedirectTarget` and, when the exchange returned a user, writes the three details and the timestamp to that user's metadata |
| AuthCallback.ErrorQueryParses | app/auth/callback/route.ts:31 | the error redirect's query parses to `error=true`, the original message and `type=error` |
| R2Upload.Sanitize | utils/r2-upload.ts:18 | the result holds only `[a-zA-Z0-9-_.]`, is no longer than the name and has no `/` |
| R2Upload.SanitizeSafe | utils/r2-upload.ts:18 | a name made only of safe characters is unchanged |
| R2Upload.SanitizeIdempotent | utils/r2-upload.ts:18 | sanitising twice is sanitising once |
| R2Upload.SanitizeConcat | utils/r2-upload.ts:18 | sanitising distributes over concatenation, so the kept characters stay in order |
| R2Upload.SanitizeKeeps | utils/r2-upload.ts:18 | a character survives iff it occurs in the name and is safe |
| R2Upload.UniqueId | utils/r2-upload.ts:17 | the first 8 characters of the UUID |
| R2Upload.ObjectKey | utils/r2-upload.ts:19-21 | `dir/uid-name` for a non-empty directory; the key always ends with `uid-` and the sanitised name |
| R2Upload.UploadToR2 | utils/r2-upload.ts:9-69 | a missing account id or token throws before any request; the PUT carries the bearer token and content type; a non-OK reply throws with its status; success returns the CDN URL and the key |
| UploadRoute.RouteKey | app/api/upload/route.ts:24-27 | every key starts with the uploader's id and `/`, and is the object key of the id, unique id and file name |
| UploadRoute.Post | app/api/upload/route.ts:5-81 | 401 without a user before the form is read; 400 without a file; 500 with a specific message for missing configuration and no request; a failed upload gives 500 "Failed to upload image"; 200 with `{success, url, key}` iff every guard passes and the PUT succeeds |
| ImageUrl.ImageParams | utils/image-url.ts:13-21 | width is in the query iff it is truthy (0 counts as absent), and likewise height; width precedes height |
| ImageUrl.GetImageUrl | utils/image-url.ts:4-30 | the URL starts with the base, `/images/` and the key; no `?` is added without options or with no truthy size |
| ImageUrl.GetProfileAvatarUrl | utils/image-url.ts:35-37 | the URL is the base, `/images/`, the key and `?width=s&height=s` with `s` the size (128 by default) in decimal, or no query at all when `s` is 0 |
| ImageUrl.Initial | utils/image-url.ts:44-46 | one non-lower-case character: the name's first, else the email's, else `?`; an empty name falls through |
| ImageUrl.GetInitialAvatar | utils/image-url.ts:42-50 | the fixed SVG template whose only varying part is the initial |
| ImageWorker.ParseImagePath | functions/image-worker.js:13-20 | a key is found iff the path is `/images/<a>/<b>` with `a`, `b` non-empty and free of `/`; the key is `a/b` |
| ImageWorker.ParseImagePathOf | functions/image-worker.js:13-20 | any user id and image name free of `/` round-trip through the path |
| ImageWorker.ExtensionType | functions/image-worker.js:42-46 | the extension's type, or `application/octet-stream` iff no known extension |
| ImageWorker.ContentTypeAsWritten | functions/image-worker.js:41-46 | as written: any stored content type yields `image/jpeg` |
| ImageWorker.StoredPngServedAsJpeg | functions/image-worker.js:41-46 | a PNG stored as `image/png` is served as `image/jpeg` as written, and as `image/png` by the correction |
| ImageWorker.AsWrittenLosesStoredType | functions/image-worker.js:41-46 | every stored non-JPEG type is lost as written and kept by the correction |
| ImageWorker.ContentTypeCorrected | functions/image-worker.js:41-46 | the stored type when present, else the extension's |
| ImageWorker.ServeImage | functions/image-worker.js:8-71 | 404 for an unmatched path or a missing object; 500 on a read failure; 200 iff matched and present, with the stored bytes whatever size is asked, the chosen content type and the cache and CORS headers |
| ImageWorker.Fetch | functions/image-worker.js:8-71 | as written: 200 iff the path matches and the object is present, with the stored bytes, and `Content-Type` is `image/jpeg` whenever a type is stored, else the extension's; errors carry no headers |
| ImageWorker.FetchCorrected | functions/image-worker.js:41-48 | as intended: the same answers, with the stored `Content-Type` when present, else the extension's |
| ImageWorker.FetchDiffersOnlyInContentType | functions/image-worker.js:41-48 | the worker as written and as corrected agree on status, body and every header but `Content-Type`, and agree entirely iff nothing is served or the stored type is absent or JPEG |
| ImageWorker.WorkerReadsRequestedSize | functions/image-worker.js:34-35 | the sizes `getImageUrl` writes are the sizes the worker parses, 0 standing for none |
| ImageWorker.AvatarSizeReachesWorker | functions/image-worker.js:34-35 | an avatar URL asks the worker for a square of the given size, 128 by default |
| ImageWorker.UploadedImageIsServed | app/api/upload/route.ts:27-65 | the URL the upload route returns is the default image URL of its key, and the worker as written serves the stored bytes there with the as-written content type |
| UserInfo.GetPlatformInfo | utils/user-info.ts:30-40 | always one of the five labels or `Unknown Platform` |
| UserInfo.PlatformFirstMatch | utils/user-info.ts:33-37 | label `k` is returned iff rule `k` matches case-insensitively and no earlier rule does |
| UserInfo.PlatformUnknown | utils/user-info.ts:39 | `Unknown Platform` iff no rule matches |
| UserInfo.GetBrowserInfo | utils/user-info.ts:42-53 | always one of the six labels or `Unknown Browser` |
| UserInfo.BrowserFirstMatch | utils/user-info.ts:45-50 | label `k` is returned iff rule `k` matches and no earlier rule does; Chrome excludes Chromium/Edge, and Safari excludes Chrome |
| UserInfo.BrowserUnknown | utils/user-info.ts:52 | `Unknown Browser` iff no rule matches |
| UserInfo.ChromeAndEdgeIsEdge | utils/user-info.ts:45-48 | an agent naming both Chrome and Edge (and not Firefox) is labelled Edge |
| UserInfo.Location | utils/user-info.ts:13-18 | `unknown` when the lookup fails, else `city, country`, where a missing part is `Unknown` as `getLocationInfo` fills it in |
| UserInfo.GetUserInfo | utils/user-info.ts:7-28 | the two labels and the location; every field is non-empty |
| UserInfo.ClientInfoReachesCallback | utils/user-info.ts:23-27 | the collected info, handed to the sign-in action, is what the callback reads back |
| MigrateD1.FindDbArg | scripts/migrate-d1.js:21 | the first argument starting `--db=`, or none iff there is none |
| MigrateD1.DbName | scripts/migrate-d1.js:21 | the text after `--db=` up to the next `=`, or `user_profiles` when absent or empty |
| MigrateD1.DbArgParts | scripts/migrate-d1.js:21 | `split('=')[1]` of a `--db=` argument is its text up to the next `=` |
| MigrateD1.MigrationNumberOf | scripts/migrate-d1.js:32-33 | a name `<n>_rest` has migration number `n` |
| MigrateD1.SqlFiles | scripts/migrate-d1.js:28-29 | exactly the names ending in `.sql` are kept |
| MigrateD1.SortBy | scripts/migrate-d1.js:30-35 | the sort is a permutation |
| MigrateD1.SortSorted | scripts/migrate-d1.js:30-35 | the result is ascending by key |
| MigrateD1.SortStable | scripts/migrate-d1.js:30-35 | files with equal numbers keep their listing order |
| MigrateD1.MigrationFiles | scripts/migrate-d1.js:23-42 | an unreadable directory gives no files; otherwise the directory joined with each sorted `.sql` name |
| MigrateD1.MigrationOrder | scripts/migrate-d1.js:28-37 | the files run in ascending number order, as a stable permutation of the `.sql` names |
| MigrateD1.Command | scripts/migrate-d1.js:46-57 | `wrangler d1 execute <db> --file <file>`, with `--local` appended iff local |
| MigrateD1.WranglerArgs | scripts/migrate-d1.js:44-57 | the pushed argument list equals `Command` |
| MigrateD1.FirstFailure | scripts/migrate-d1.js:64-70 | the index of the first non-zero exit or spawn error; all earlier runs exited 0 |
| MigrateD1.RunInOrder | scripts/migrate-d1.js:90-92 | runs the commands in order, up to and including the first failure; status 0 iff none failed |
| MigrateD1.RunMigrations | scripts/migrate-d1.js:78-98 | the commands run are a prefix of the sorted files' commands that stops at the first failure; exit status 1 iff a run failed |
| OnboardingPage.ImageCheck | app/onboarding/page.tsx:61-72 | over 2 MiB is refused with the size message before the type is looked at; an accepted image is small enough and of one of the four types |
| OnboardingPage.SubmittedAge | app/onboarding/page.tsx:112 | the submitted age is never 0; an empty age is null |
| OnboardingPage.NonNumericAgeIsNull | app/onboarding/page.tsx:112 | text starting with no sign, digit or space is submitted as null |
| OnboardingPage.NumericAgeSubmitted | app/onboarding/page.tsx:112 | a printed non-zero number is submitted as that number |
| OnboardingPage.OnboardingPage.constructor | app/onboarding/page.tsx:18-30 | the initial form state |
| OnboardingPage.OnboardingPage.InitFromUser | app/onboarding/page.tsx:33-41 | with a user, the names are prefilled from the metadata or empty; nothing else changes |
| OnboardingPage.OnboardingPage.RedirectIfSignedOut | app/onboarding/page.tsx:44-48 | pushes `/sign-in` iff loading is over and nobody is signed in |
| OnboardingPage.OnboardingPage.HandleChange | app/onboarding/page.tsx:51-54 | only the named field changes, to the typed value |
| OnboardingPage.OnboardingPage.HandleImageChange | app/onboarding/page.tsx:57-76 | reading starts iff a file passes `ImageCheck`; a refused file sets its message; an accepted one clears the error and sets loading |
| OnboardingPage.OnboardingPage.ReaderLoaded | app/onboarding/page.tsx:79-86 | the accepted file and its preview are kept and loading ends; a kept image always passed the checks |
| OnboardingPage.OnboardingPage.ReaderFailed | app/onboarding/page.tsx:87-90 | the read error is shown and loading ends |
| OnboardingPage.OnboardingPage.Avatar | app/onboarding/page.tsx:143-160 | a loading pulse while loading, else the preview, else the initials avatar |
| OnboardingPage.OnboardingPage.HandleSubmit | app/onboarding/page.tsx:95-128 | a username outside `[a-zA-Z0-9_-]{3,20}` is refused before the action; success goes to `/protected`; failure shows the message or "Error updating profile"; `isSubmitting` ends false on every path |
| OnboardingForm.TypedAgeOfNumber | app/onboarding/components/OnboardingForm.tsx:37 | a typed decimal number, zero included, is stored as that number |
| OnboardingForm.UsernameRulesWithoutHyphen | app/onboarding/components/OnboardingForm.tsx:43 | without hyphens, the page's rule is the component's rule plus the 3-20 length bound |
| OnboardingForm.UsernameRulesDisagree | app/onboarding/components/OnboardingForm.tsx:43 | `a-b` passes only the page's rule (app/onboarding/page.tsx:101), and `ab` passes only the component's |
| OnboardingForm.OnboardingForm.constructor | app/onboarding/components/OnboardingForm.tsx:17-25 | the initial form state |
| OnboardingForm.OnboardingForm.HandleChange | app/onboarding/components/OnboardingForm.tsx:27-39 | editing the username clears its error, and only then; the age is parsed (empty is null); other fields are stored as typed |
| OnboardingForm.OnboardingForm.ValidateUsername | app/onboarding/components/OnboardingForm.tsx:41-56 | a malformed name is refused without a lookup; a taken name sets "Username is already taken"; a throwing lookup escapes with the message untouched; valid iff well-formed and the lookup answers available |
| OnboardingForm.OnboardingForm.HandleSubmit | app/onboarding/components/OnboardingForm.tsx:58-86 | the action is called iff the username is well-formed and the lookup answers available, with the form data; a throwing lookup shows the generic message, submits nothing and leaves the username message and navigation as they were; a truthy error is shown, otherwise `/`; a throw from the action gives the generic message; a malformed name shows the format message and a taken one the taken message, and a submitted name leaves the username message as it was; `isSubmitting` ends false |
| EditProfileForm.ShownGender | app/edit-profile/components/EditProfileForm.tsx:26 | a missing gender is shown as the empty choice |
| EditProfileForm.SubmittedGender | app/edit-profile/components/EditProfileForm.tsx:58 | the empty choice is submitted as null, and any other choice as itself |
| EditProfileForm.GenderRoundTrip | app/edit-profile/components/EditProfileForm.tsx:58 | submitting a gender as the form shows it (a missing one as the empty choice) gives the stored gender back, except that an empty gender becomes null |
| EditProfileForm.EditProfileForm.constructor | app/edit-profile/components/EditProfileForm.tsx:21-27 | fields from the profile, with a zero age as null; `''`, null and `''` without one |
| EditProfileForm.EditProfileForm.SyncFromProfile | app/edit-profile/components/EditProfileForm.tsx:29-37 | with a profile, the fields are reset from it with the age as stored, and the payload is then the row's own values |
| EditProfileForm.EditProfileForm.HandleChange | app/edit-profile/components/EditProfileForm.tsx:39-46 | only the named field changes; an empty age is null, otherwise `parseInt(value, 10)` |
| EditProfileForm.EditProfileForm.Payload | app/edit-profile/components/EditProfileForm.tsx:55-59 | display name and age as held, gender null iff empty; the payload type has no username |
| EditProfileForm.EditProfileForm.HandleSubmit | app/edit-profile/components/EditProfileForm.tsx:48-74 | sends `Payload`; a truthy error is shown; otherwise push `/protected` then refresh; a throw gives the generic message; `isSubmitting` ends false |
| EditProfileForm.EditProfileForm.GoToOnboarding | app/edit-profile/components/EditProfileForm.tsx:80-85 | the prompt's button pushes `/onboarding` |
| EditProfileForm.EditProfileForm.View | app/edit-profile/components/EditProfileForm.tsx:76-113 | the prompt iff there is no profile; otherwise the form with the read-only username and a banner iff the error is truthy |
| EditProfileForm.UnchangedResubmitKeepsRow | app/edit-profile/components/EditProfileForm.tsx:55-59 | submitting the synced form unchanged rewrites the row as it was plus the timestamp, iff its gender is not stored empty |
| EditProfilePage.Page | app/edit-profile/page.tsx:12-50 | no session goes to the login with `next=/edit-profile` first; then not onboarded goes to `/onboarding`; the form renders iff there is a session, the status query succeeds and the user has a row |
| EditProfilePage.RenderedProfileIsTheRow | app/edit-profile/page.tsx:32 | the profile is fetched only after both checks; the form gets the user's row, or nothing iff the second lookup fails |
| EditProfilePage.StatusErrorRedirectsToOnboarding | app/edit-profile/page.tsx:24-29 | a failing status query sends a signed-in user to `/onboarding` |
| AuthContext.FlagsAfterCheck | contexts/AuthContext.tsx:49-55 | the metadata flag is only ever added, only for the checked user and only when the check found them onboarded; when the write goes through, the user is flagged afterwards iff they were or the check found them onboarded; a write that returns an error or throws adds nothing |
| AuthContext.IgnoredWriteErrorLeavesUnflagged | contexts/AuthContext.tsx:49-55 | the ignored `{ error }` of `updateUser` leaves a user onboarded for this check but unflagged, so a later check with a failing `profiles` lookup finds them not onboarded |
| AuthContext.FlagIsSticky | contexts/AuthContext.tsx:37-40 | a user flagged after a check stays onboarded in every later check, whatever the table holds, unless reading the user throws |
| AuthContext.ExemptPathsStay | contexts/AuthContext.tsx:126-127 | `/onboarding` and every `/auth` path are never redirected from |
| AuthContext.AuthProvider.constructor | contexts/AuthContext.tsx:23-26 | loading, nobody signed in, not onboarded |
| AuthContext.AuthProvider.CheckOnboardingStatus | contexts/AuthContext.tsx:32-63 | onboarded iff no throw and either the metadata flag or a row with non-empty username and full name, whether or not the ignored metadata write returns an error; any throw or incomplete row means not onboarded; the flags change only as `FlagsAfterCheck` says |
| AuthContext.AuthProvider.GetSession | contexts/AuthContext.tsx:67-96 | a session error or throw clears session and user and sets not onboarded; no session user means not onboarded; otherwise the check decides; loading is false afterwards |
| AuthContext.AuthProvider.AuthStateChanged | contexts/AuthContext.tsx:102-115 | the event's session and user are adopted, the check runs for a user, and loading ends |
| AuthContext.AuthProvider.RedirectEffect | contexts/AuthContext.tsx:124-130 | pushes `/onboarding` iff not loading, a user, not onboarded, and a path that is neither `/onboarding` nor under `/auth` |
| HomePage.Classify | app/page.tsx:24-31 | no message gives null whatever the type; otherwise success, error or plain, chosen by `type` |
| HomePage.Home | app/page.tsx:12-56 | a session redirects to `/protected` before the parameters are read; otherwise the banner shows iff `auth=required`, and the message is classified |
| HomePage.CallbackErrorShown | app/page.tsx:27-28 | the callback's error redirect lands here as an error message carrying the original text, without the banner |

## Left out

- Network, storage and SDK calls are not modelled; their outcomes are parameters. This covers Supabase auth, tables and RPC, the D1 `prepare`/`bind`/`run`, the R2 `get`, the Cloudflare `PUT`, `fetch` to ipapi.co, `uuidv4`, `new Date()` and `spawn`. Console logging is dropped.
- Regular expressions are not modelled as an engine. Each one is an explicit character-class or substring predicate. The `/i` flag folds ASCII letters only, which is what it does on these ASCII patterns.
- JSX rendering and styling are not modelled. Neither is the React scheduling of effects and state updates: each handler runs to completion on the state it sees.
- The HTML `required`, `min="13"` and `max="120"` attributes are not modelled. The browser enforces them before a submit handler runs, so the handlers accept any age.
- The `onAuthStateChange` subscription is not modelled as concurrent with `getSession`. Its handler is modelled for one event at a time, because the interleavings depend on the SDK.
- Unicode is only partly modelled:
  - Query values are compared after decoding, and the round-trip lemmas require ASCII values.
  - `encodeURIComponent` encodes any character, but decoding turns a non-ASCII escape into U+FFFD instead of assembling UTF-8.
  - `toUpperCase` and the username rules cover ASCII letters only.
- The request and worker paths are taken as given, already split from the URL. Percent-encoding inside the path is not modelled.
- A query name given twice is read as its first value, as `searchParams.get` does. Next.js page search parameters turn a repeated name into an array instead, and that case is not modelled.
- `updateUserProfileAction` and `encodedRedirect` are not part of this model. The first is called by the onboarding page, the second by the sign-in action. Their replies are parameters, and `encodedRedirect` is the value `EncodedRedirect(type, path, message)`.
- AuthContext.FlagIsSticky: stickiness is promised only for a user whose flag was actually written. A user found onboarded whose metadata write returned an error stays unflagged, and later checks go back to the table (`AuthContext.IgnoredWriteErrorLeavesUnflagged`).
- AuthContext.AuthProvider.CheckOnboardingStatus: the flag is read for the checked user, whereas the source reads the metadata of whichever user `getUser` returns.
- ImageWorker.Fetch: the sizes are parsed but, as in the source, never change the answer. Resizing does not exist in the source either.
- ImageWorker.FetchCorrected: the worker as it evidently should behave (see Findings), kept beside the as-written `ImageWorker.Fetch`; no other member uses it.
- Common.ParseIntOfIntToString: JavaScript numbers are IEEE doubles, exact only up to 2^53 in magnitude; the model uses unbounded integers, so its round trip and every size, age and count hold for whole numbers of any width, and rounding, fractions, `Infinity` and `-0` are not modelled.
- ProfileActions.ProfileStore.CompleteOnboarding: the `user_profiles` schema is not part of this model. At most one row per `user_id` is taken from the system's data model, and the text of the duplicate-key error uses PostgreSQL's default constraint name.
- Uri.BuildQuery: it writes values as `encodeURIComponent` does. `URLSearchParams` differs on a space (`+`) and on `!'()~` (percent-encoded); the model uses `Uri.BuildQuery` for the image URL's query only because those values are decimal integers, which both leave alone.

## Findings

| source | as written | input that shows it | evidently intended | confidence | as-written member | corrected member |
|---|---|---|---|---|---|---|
| functions/image-worker.js:41-46 | `a \|\| b \|\| c ? 'image/jpeg' : …` parses as `(a \|\| b \|\| c) ? 'image/jpeg' : …`, so any stored content type selects `image/jpeg` | an object stored as `image/png` under key `u/abcd1234-a.png` is served as `image/jpeg` | the stored content type when present, else the type of the key's extension | not executed | ImageWorker.StoredPngServedAsJpeg | ImageWorker.ContentTypeCorrected |
