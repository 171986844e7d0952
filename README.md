# DduziApp core, modelled in Dafny

DduziApp is a React Native app for knitters. Users log in through Kakao, Google
or Naver and post knitting projects, each with images and a daily knitting log.
The project stores its data in a hosted Supabase backend. This Dafny project
models the app-side logic that decides what to read, write and show:

- **Helpers.** `AuthHelpers` rewrites an `http://` profile image URL to
  `https://`. `UploadImage` derives the storage path and content type of an
  image upload and collects upload results in order.
- **The `users` table** (`UserService`). Generating a username, deciding between
  insert and update at login, the fallback chains for images and providers,
  and merging the auth user, the table row and the provider profile into one
  `UserProfile`.
- **The post editor** (`PostCreateScreen`). Loading a post for editing, which
  splits off today's knitting log. Removing images, editing log text, and the
  writes a submit issues: post update or insert, image rows, and a log update
  or insert.
- **The post detail screen** (`PostDetailScreen`). Building the detail object,
  with images sorted by display order and logs newest first. Deciding
  ownership, showing the completion controls, completing a post, and the three
  deletes of a post.
- **The login state** (`AuthContext`) and its copy in AsyncStorage, and the one
  root screen the navigator registers (`Navigator`).

Every remote call (Supabase queries, storage uploads, `auth.getUser`,
`getSession`, the social-login SDKs) is replaced by the outcome it reports,
passed as a parameter: a boolean, an `Option`, or a function from call index
to outcome. The clock (`Date.now()`) is a parameter. So is `Math.random()`,
given as a real in [0, 1).

Tables and device storage are `map`s. State that the source updates in place
is a `class`: React screen state, the AsyncStorage map, the `users` table and
the tables a delete touches. JavaScript truthiness of an optional string is
`Truthy`, and `a || b` on strings is `Or` (module `Wrappers`). `Seqs` holds
`Array.prototype.filter` and a stable numeric sort. `Strings` holds
`startsWith`, `replace` with a string pattern, `split('.').pop()`, ASCII
`toLowerCase`, `trim`, and decimal digits.

## Model

| member | source | states |
|---|---|---|
| AuthHelpers.NormalizeImageUrl | src/lib/auth/authHelpers.ts:3-12 | a missing or empty URL gives `undefined`; an `http://` URL gives `https://` followed by the unchanged rest; any other URL comes back unchanged; a result is never empty and never starts with `http://`; its length is the input's plus one when rewritten, else equal |
| AuthHelpers.NormalizeIdempotent | src/lib/auth/authHelpers.ts:3-12 | normalising twice equals normalising once |
| UserService.DefaultImageNumber | src/lib/auth/userService.ts:13-25 | for a draw in [0, 1) the default image number is in 1..5 |
| UserService.DefaultImagePath | src/lib/auth/userService.ts:27-29 | the object path is `default/profile_<n>.png` with the single digit n |
| UserService.RandomDefaultImagePath | src/lib/auth/userService.ts:24-32 | the chosen object is `default/profile_<n>.png` for some n in 1..5 |
| UserService.CleanNickname | src/lib/auth/userService.ts:38 | the cleaned nickname is no longer than the input and holds only `a-zA-Z0-9` and Hangul syllables |
| UserService.CleanNicknameCounts | src/lib/auth/userService.ts:38 | every allowed character is kept as often as it occurs in the nickname; every other character is dropped |
| UserService.CleanNicknameKeepsAllowed | src/lib/auth/userService.ts:38 | a nickname made only of allowed characters is kept whole |
| UserService.CleanNicknameConcat | src/lib/auth/userService.ts:38 | cleaning works piece by piece, so the kept characters stay in their original order |
| UserService.CleanNicknameChar | src/lib/auth/userService.ts:38 | one character is kept exactly when it is in `[a-zA-Z0-9가-힣]` |
| UserService.GenerateUsername | src/lib/auth/userService.ts:35-43 | the username starts with `dduzi`; with a non-empty nickname the rest is the cleaned nickname; otherwise it is the first min(8, length) characters of the user id |
| UserService.NewUserRow | src/lib/auth/userService.ts:78-87 | a new row has the user's id, `bio` null, the default image, the sign-in's provider and the current time; its username is the hint nickname when non-empty, else the metadata name |
| UserService.ProfileImageToUse | src/lib/auth/userService.ts:101-105 | a non-empty stored image wins; otherwise the first non-empty of the hint image and metadata `profile_image`, else metadata `picture` |
| UserService.ApplyUpdate | src/lib/auth/userService.ts:110-118 | the update writes only `profile_image` and `provider`; an `undefined` value leaves its column as it was |
| UserService.ExistingUserUpdate | src/lib/auth/userService.ts:99-118 | a returning user keeps id, username, bio and rename time, and a non-empty stored image; the provider becomes the sign-in's when set, else stays |
| UserService.ExistingUserGetsImage | src/lib/auth/userService.ts:101-105 | a row without an image gets one exactly when some candidate of the fallback chain is non-empty |
| UserService.ExistingUserUpdateIdempotent | src/lib/auth/userService.ts:99-118 | a second login with the same data leaves the row as the first one left it |
| UserService.DefaultImageSurvives | src/lib/auth/userService.ts:83-105 | the default image a first login stores is kept by every later login |
| UserService.UsersTable.CreateOrUpdateUser | src/lib/auth/userService.ts:46-132 | `isNewUser` is true exactly when no row had the id; a success writes only that row, with the new-row or update rule; a lookup, insert or update error is rethrown and leaves the table unchanged |
| UserService.ProviderName | src/lib/auth/userService.ts:19 | the provider argument is one of `kakao`, `google`, `naver` |
| UserService.CreateUserProfile | src/lib/auth/userService.ts:135-181 | copies id and provider; email and nickname default to `''`, bio to null; a stored image wins in every branch, followed by the provider-specific fallbacks; the name chain per provider; only the raw profile's id is kept |
| UploadImage.FileExtension | src/lib/uploadImage.tsx:20 | the extension is the lower-cased text after the last `.`, or `jpg` when that is empty; it is never empty and has no `.`; a URI without `.` gives the whole URI, and a trailing `.` gives `jpg` |
| UploadImage.RequestFor | src/lib/uploadImage.tsx:20-36 | the path is `folderPath/<now>.<ext>`, the content type `image/<ext>`, the upload not an upsert, and a leading `file://` is stripped from the local path |
| UploadImage.PathAndContentTypeAgree | src/lib/uploadImage.tsx:20-34 | the extension the path ends with is the one the content type names |
| UploadImage.UploadResult | src/lib/uploadImage.tsx:38-53 | the result is a URL exactly when the upload was stored; a rejected upload and a thrown error both give null |
| UploadImage.Collected | src/lib/uploadImage.tsx:68-77 | at most one URL per result, and every URL is non-empty |
| UploadImage.CollectedConcat | src/lib/uploadImage.tsx:70-75 | collecting consecutive runs of results is collecting each run in turn, so the input order is kept |
| UploadImage.CollectedAllSucceeded | src/lib/uploadImage.tsx:70-75 | when every upload succeeds, every URL comes back at its own position |
| UploadImage.CollectedFromResults | src/lib/uploadImage.tsx:70-75 | every collected URL is a successful result |
| UploadImage.UploadAll | src/lib/uploadImage.tsx:70-71 | one `uploadImage` result per image, the k-th from the k-th outcome |
| UploadImage.Requests | src/lib/uploadImage.tsx:70-71 | one request per image, the k-th built from image k's URI at time `clock(k)` |
| UploadImage.CollectedStep | src/lib/uploadImage.tsx:70-75 | one more result adds its URL at the end exactly when it is truthy, and adds nothing otherwise |
| UploadImage.UploadMultipleImages | src/lib/uploadImage.tsx:63-78 | the loop returns the collected successful URLs in input order, and issues one request per image, the k-th for image k at time `clock(k)` |
| AuthContext.ConvertSupabaseUserToProfile | src/contexts/AuthContext.tsx:24-44 | name is `full_name` then `name`; image is `avatar_url` then `picture`; nickname is `name`; provider is the session's, else `google`; the raw profile copies id, email, name, picture and email verification |
| AuthContext.SessionProvider | src/contexts/AuthContext.tsx:84-91 | the provider is `app_metadata.provider` when non-empty, else `google` |
| AuthContext.TextAt | src/contexts/AuthContext.tsx:94-96 | `getItem` reads the text stored under a key, and reads nothing for a missing key |
| AuthContext.WithLogin | src/contexts/AuthContext.tsx:120-123 | the three keys hold the token, the user's JSON and the provider; every other key is untouched |
| AuthContext.WithoutLogin | src/contexts/AuthContext.tsx:148-150 | the three auth keys are gone; every other key is untouched |
| AuthContext.AuthProvider.RemoveLogin | src/contexts/AuthContext.tsx:148-150 | the three `removeItem` calls leave storage without the auth keys and with every other key as before |
| AuthContext.RestoredLogin | src/contexts/AuthContext.tsx:93-106 | without a session a login is restored exactly when a non-empty token and a parsable user are stored; it carries that user and the stored provider, or `''` |
| AuthContext.LoginIsRestored | src/contexts/AuthContext.tsx:93-123 | what a login with a non-empty token stores is restored at the next start |
| AuthContext.LogoutIsNotRestored | src/contexts/AuthContext.tsx:93-150 | after a logout nothing is restored |
| AuthContext.SignOutCalls | src/contexts/AuthContext.tsx:132-146 | kakao signs out of Supabase then Kakao; naver logs out of Naver only; google signs out of Supabase then Google; any other provider calls nothing |
| AuthContext.AttemptedCalls | src/contexts/AuthContext.tsx:131-146 | the calls made are a prefix of the planned ones, ending at the call that throws, or all of them |
| AuthContext.AuthProvider.Login | src/contexts/AuthContext.tsx:120-127 | logged in with that user and provider; storage holds the token, user and provider; nothing else changes |
| AuthContext.AuthProvider.Logout | src/contexts/AuthContext.tsx:130-171 | whether a sign-out call throws or not: logged out, user null, provider `''`, the three keys removed and the rest of storage kept; the SDK calls made for the stored provider |
| AuthContext.AuthProvider.CheckAuthStatus | src/contexts/AuthContext.tsx:71-117 | a session logs in with the converted profile and the session provider and writes the three keys; without one the stored login is restored or the state reset, storage unchanged; an error resets; loading always ends |
| AuthContext.AuthProvider.OnAuthStateChange | src/contexts/AuthContext.tsx:49-64 | SIGNED_IN with a session has the effect of `login` with the converted profile and the session's provider; any other event changes nothing |
| Navigator.RegisteredScreens | src/screens/Navigator/Navigator.tsx:27-35 | exactly one root screen: Auth exactly when logged out, Profile exactly when logged in and setting up, TabNavigator exactly when logged in and not setting up |
| Navigator.LoggedOutIgnoresSetupFlag | src/screens/Navigator/Navigator.tsx:28-29 | logged out, the setup flag does not matter |
| PostCreateScreen.FreshLog | src/screens/PostCreate/PostCreateScreen.tsx:68-74 | the initial log is empty, dated now, and its id is the decimal text of now, which parses back to now |
| PostCreateScreen.FindTodayLog | src/screens/PostCreate/PostCreateScreen.tsx:90-101 | the index found is the first log on today's local day; none is found only when no log is on that day |
| PostCreateScreen.OtherLogs | src/screens/PostCreate/PostCreateScreen.tsx:105 | no remaining log has the today-log's id |
| PostCreateScreen.OtherLogsInOrder | src/screens/PostCreate/PostCreateScreen.tsx:105 | filtering works piece by piece, so the other logs keep their order |
| PostCreateScreen.EachLoadedLogOnce | src/screens/PostCreate/PostCreateScreen.tsx:97-114 | with distinct ids, the read-only logs and the editable today-log hold every loaded log exactly once |
| PostCreateScreen.SplitTodayLog | src/screens/PostCreate/PostCreateScreen.tsx:90-126 | always one editable log, carrying the today-log's id when there is one; without a today-log every loaded log stays read-only and the editable log is fresh |
| PostCreateScreen.SplitTodayLogPicksFirst | src/screens/PostCreate/PostCreateScreen.tsx:90-114 | a today-log id is set exactly when some loaded log is on today's local day; then the first such log becomes the editable log with its id, date and content, and the others stay read-only |
| PostCreateScreen.RemoveAt | src/screens/PostCreate/PostCreateScreen.tsx:145-147 | removing a valid index drops that element and shifts the later ones down; any other index changes nothing |
| PostCreateScreen.RemoveAtMultiset | src/screens/PostCreate/PostCreateScreen.tsx:145-147 | exactly the element at the index is dropped |
| PostCreateScreen.WithoutImage | src/screens/PostCreate/PostCreateScreen.tsx:152 | no remaining existing image has the removed id |
| PostCreateScreen.WithoutImageKeepsOthers | src/screens/PostCreate/PostCreateScreen.tsx:152 | images with another id keep their number of occurrences and relative order; the ones with that id are gone |
| PostCreateScreen.SetLogContent | src/screens/PostCreate/PostCreateScreen.tsx:156-160 | length, ids and dates unchanged; only logs with the id get the new text |
| PostCreateScreen.FormFields | src/screens/PostCreate/PostCreateScreen.tsx:190-198 | the title is trimmed; each optional field is its trimmed text, or null exactly when blank |
| PostCreateScreen.ImageRows | src/screens/PostCreate/PostCreateScreen.tsx:250-255 | one row per uploaded URL, under the post, with display orders start, start+1, ... in upload order |
| PostCreateScreen.AsWrittenStartOrder | src/screens/PostCreate/PostCreateScreen.tsx:250 | the code's first display order for new images, `existingImages.length` (see Findings) |
| PostCreateScreen.AsWrittenStartCanPrecedeExisting | src/screens/PostCreate/PostCreateScreen.tsx:250-255 | after a removal, a new image can get a display order below a kept image's |
| PostCreateScreen.MaxDisplayOrder | src/screens/PostCreate/PostCreateScreen.tsx:250-255 | every kept image's display order is at most the maximum |
| PostCreateScreen.MaxDisplayOrderAttained | src/screens/PostCreate/PostCreateScreen.tsx:250-255 | the maximum is the display order of one kept image |
| PostCreateScreen.NextDisplayOrder | src/screens/PostCreate/PostCreateScreen.tsx:250-255 | the corrected first display order is above every kept image's, and 0 when none is kept |
| PostCreateScreen.NewImagesFollowExisting | src/screens/PostCreate/PostCreateScreen.tsx:250-255 | with the corrected start, every new image is ordered after every kept image |
| PostCreateScreen.NextOrderAgreesWhenContiguous | src/screens/PostCreate/PostCreateScreen.tsx:250 | when the kept images are ordered 0..n-1, the corrected start equals the code's `existingImages.length` |
| PostCreateScreen.ImageWrites | src/screens/PostCreate/PostCreateScreen.tsx:249-262 | no insert without uploaded URLs; otherwise one insert of their rows |
| PostCreateScreen.ValidLogs | src/screens/PostCreate/PostCreateScreen.tsx:170 | only logs with non-blank text are saved, and every such log is |
| PostCreateScreen.RouteLog | src/screens/PostCreate/PostCreateScreen.tsx:268-290 | a saved log is an update exactly in edit mode with the today-log's id, otherwise an insert under the post; either way with the trimmed text |
| PostCreateScreen.TodayLogIsUpdated | src/screens/PostCreate/PostCreateScreen.tsx:266-278 | a loaded today-log with text is saved as one update of that log |
| PostCreateScreen.BlankLogIsSkipped | src/screens/PostCreate/PostCreateScreen.tsx:170 | a blank log writes nothing |
| PostCreateScreen.UploadWrites | src/screens/PostCreate/PostCreateScreen.tsx:242-263 | no write when no upload succeeded; otherwise one insert with a row per uploaded URL in upload order, the k-th under the post with display order `existingImages.length + k` |
| PostCreateScreen.LogWrites | src/screens/PostCreate/PostCreateScreen.tsx:266-291 | one write per saved log, in order, each routed as an update or an insert |
| PostCreateScreen.SaveLogs | src/screens/PostCreate/PostCreateScreen.tsx:266-291 | the loop issues exactly the routed writes of the saved logs, in order |
| PostCreateScreen.EditorState.LoadEditData | src/screens/PostCreate/PostCreateScreen.tsx:80-128 | outside edit mode nothing changes; in edit mode the form takes the post's fields (`''` for missing ones) and images, and the logs are split around today's log |
| PostCreateScreen.EditorState.SelectImages | src/screens/PostCreate/PostCreateScreen.tsx:131-142 | the picked assets are appended to the new images; when the picker returns at most `selectionLimit` (`10 - totalImages`) assets, the post holds at most 10 images |
| PostCreateScreen.EditorState.RemoveImage | src/screens/PostCreate/PostCreateScreen.tsx:145-147 | the new images lose exactly the element at the index |
| PostCreateScreen.EditorState.RemoveExistingImage | src/screens/PostCreate/PostCreateScreen.tsx:150-153 | the id is appended to the deleted ids, and the existing images lose the entries with that id |
| PostCreateScreen.EditorState.LogContentChange | src/screens/PostCreate/PostCreateScreen.tsx:156-160 | only the logs with the id get the new text; there is still one editable log |
| PostCreateScreen.EditorState.ChangeText | src/screens/PostCreate/PostCreateScreen.tsx:330-444 | the edited field takes the text and the other five are unchanged |
| PostCreateScreen.EditorState.PostWrites | src/screens/PostCreate/PostCreateScreen.tsx:186-238 | in edit mode, an update of the post followed, when images were removed, by their delete; otherwise an insert by the user |
| PostCreateScreen.EditorState.Submit | src/screens/PostCreate/PostCreateScreen.tsx:163-307 | a blank title, or no user, rejects the submit before any write; a failed post write stops after it; a failed image insert stops after it; otherwise the post writes, the image insert (ordered from `existingImages.length`, as `UploadWrites` states) and the log writes, in order, with one upload request per new image |
| PostDetailScreen.OrEmpty | src/screens/PostDetail/PostDetailScreen.tsx:107-110 | a missing array becomes empty; a present one is kept |
| PostDetailScreen.SortImages | src/screens/PostDetail/PostDetailScreen.tsx:107-109 | the images are a permutation of the input in non-decreasing display order |
| PostDetailScreen.SortLogs | src/screens/PostDetail/PostDetailScreen.tsx:110-113 | the logs are a permutation of the input, newest first |
| PostDetailScreen.ImagesKeepTieOrder | src/screens/PostDetail/PostDetailScreen.tsx:107-109 | images with the same display order keep the order the query returned |
| PostDetailScreen.LogsKeepTieOrder | src/screens/PostDetail/PostDetailScreen.tsx:110-113 | logs with the same creation time keep the order the query returned |
| PostDetailScreen.BuildPostDetail | src/screens/PostDetail/PostDetailScreen.tsx:92-114 | scalar fields copied verbatim; username and image from the joined user; images and logs permutations of the fetched ones (missing meaning empty), sorted |
| PostDetailScreen.IsMyPost | src/screens/PostDetail/PostDetailScreen.tsx:40 | own post exactly when post and user are present and the post's `user_id` is the user's id |
| PostDetailScreen.CompletionControls | src/screens/PostDetail/PostDetailScreen.tsx:365-380 | the button shows exactly for an own, uncompleted post, the badge exactly for an own, completed one; never both, and an own post shows one |
| PostDetailScreen.Completed | src/screens/PostDetail/PostDetailScreen.tsx:179-183 | completed with the chosen visibility; every other field as before |
| PostDetailScreen.CompletingShowsBadge | src/screens/PostDetail/PostDetailScreen.tsx:177-183 | completing an own post replaces the button with the badge |
| PostDetailScreen.WithoutPost | src/screens/PostDetail/PostDetailScreen.tsx:136-137 | a child table loses exactly the rows of the post |
| PostDetailScreen.PostTables.Apply | src/screens/PostDetail/PostDetailScreen.tsx:136-138 | an applied delete removes the matching rows of its table and nothing else; a failed one changes nothing |
| PostDetailScreen.DeleteRequests | src/screens/PostDetail/PostDetailScreen.tsx:136-138 | three deletes, of logs, then images, then the post, all keyed by the post id |
| PostDetailScreen.DetailScreen.FetchPostDetail | src/screens/PostDetail/PostDetailScreen.tsx:48-122 | a fetched row becomes the post detail; a query error keeps the old post; loading ends |
| PostDetailScreen.DetailScreen.OpenCompleteModal | src/screens/PostDetail/PostDetailScreen.tsx:165-167 | the completion modal opens and nothing else changes |
| PostDetailScreen.DetailScreen.ConfirmComplete | src/screens/PostDetail/PostDetailScreen.tsx:169-208 | with no post nothing happens; otherwise a completion is requested for the post; a success completes the local post and closes the modal, a failure leaves both; loading ends |
| PostDetailScreen.DetailScreen.ConfirmDelete | src/screens/PostDetail/PostDetailScreen.tsx:125-153 | the three deletes are issued in order whatever each returns; each applied one removes its rows; deleting ends and the action sheet closes |
| Seqs.SortByCorrect | src/screens/PostDetail/PostDetailScreen.tsx:107-113 | the stable sort yields a sorted permutation of its input |
| Seqs.SortByStable | src/screens/PostDetail/PostDetailScreen.tsx:107-113 | elements with equal keys keep their input order |
| Wrappers.ChainPicksFirstTruthy | src/lib/auth/userService.ts:101-105 | an `a \|\| b \|\| c` chain yields its first truthy candidate |
| Wrappers.ChainFallsThrough | src/lib/auth/userService.ts:101-105 | when no earlier candidate is truthy, the chain yields the last one, even when it is `undefined` or empty |
| Wrappers.ChainTruthy | src/lib/auth/userService.ts:101-105 | the chain is truthy exactly when some candidate is |
| Strings.ReplaceFirstAtStart | src/lib/uploadImage.tsx:26 | replacing `file://` in a URI that starts with it strips that prefix and keeps the rest |
| Strings.LastPieceFacts | src/lib/uploadImage.tsx:20 | the text after the last `.` holds no `.`; it is the whole string when there is none, and empty after a trailing `.` |
| Strings.JoinSplit | src/lib/uploadImage.tsx:20 | the pieces `split` returns join back to the string, so nothing is lost or added |
| Strings.TrimEmptyIffBlank | src/screens/PostCreate/PostCreateScreen.tsx:165 | `trim()` gives the empty string exactly when every character is whitespace |
| Strings.TrimEnds | src/screens/PostCreate/PostCreateScreen.tsx:193-198 | the trimmed text starts and ends with a non-whitespace character, or is empty |
| Strings.NonBlankOrNull | src/screens/PostCreate/PostCreateScreen.tsx:194-198 | `s.trim() \|\| null` is null exactly when `s` is blank, and otherwise the non-empty trimmed text |
| Strings.ParseNatToString | src/screens/PostCreate/PostCreateScreen.tsx:68-74 | the decimal text of a timestamp reads back as that timestamp |
| Strings.NatToStringInjective | src/lib/uploadImage.tsx:21 | different timestamps give different decimal texts, hence different file names |

## Left out

- UserService.DefaultImageNumber: `Math.random()` is a float; the draw is an exact real in [0, 1), and `getPublicUrl` is left out, so the model stops at the storage path.
- The Hangul range of the username pattern is the syllable block U+AC00..U+D7A3. `toLowerCase` is ASCII-only, since Dafny strings have no Unicode case mapping.
- Local days use a constant UTC offset. Time-zone rules, daylight saving time and `Date` parsing are not modelled. Log timestamps are instants as integers. Post timestamps are opaque strings, and `updated_at` is the instant `now`.
- `null` and `undefined` are both `None`. supabase-js leaves `undefined` keys out of an update body; `ApplyUpdate` models a `None` as "column unchanged".
- The stored user is JSON text. Here it is either the JSON of a profile (`UserJson`) or some other text (`Text`), whose `JSON.parse` throws. Other JSON is not modelled.
- AsyncStorage calls are assumed not to fail; a failing `removeItem` in the `logout` error path is not modelled.
- AuthContext.AuthProvider.OnAuthStateChange: requires the session's `app_metadata.provider` to be present. The code passes it to `login` with no fallback, and `setItem` with an `undefined` value is not modelled.
- PostCreateScreen.EditorState.SelectImages: the 10-image bound holds only when the picker returns at most `selectionLimit` assets; the picker itself, and its reading of a limit of 0 as "no limit", are outside this code.
- `isSubmitting`, `Alert` dialogs, navigation, the action sheet's own open handler and `handleEdit` are presentation. `console` output is left out.
- Every Supabase, storage and SDK call is a parameter. The `logs.find` date and the post's edit-mode data come in as inputs.
- The login edge functions under `supabase/functions`, `Login.tsx`, `Profile.tsx`, the older `src/components/contexts/AuthContext.tsx`, and the search and list screens are not part of this model. Neither are styles, `App.tsx` and the iOS delegate.
- `needsProfileSetup` is not provided by the context the navigator reads; `RegisteredScreens` takes it as a free boolean.
- PostCreateScreen.EditorState.LoadEditData: does not clear `deletedImageIds` or the new images, as in the code; re-running the effect is not modelled further.
- PostDetailScreen.DetailScreen.ConfirmDelete: the code reports success even when a delete returns an error, since supabase-js returns errors rather than throwing. The model issues all three deletes and lets each one fail on its own.

## Findings

| source | as written | input that shows it | evidently intended | confidence | as-written member | corrected member |
|---|---|---|---|---|---|---|
| src/screens/PostCreate/PostCreateScreen.tsx:250-255 | new images start at display order `existingImages.length` | a post whose kept image has display order 2, because the images ordered 0 and 1 were removed; one new upload gets order 1 and sorts before the kept image on the detail screen, though the editor lists it after | new images are ordered after every kept image | not executed | PostCreateScreen.AsWrittenStartCanPrecedeExisting | PostCreateScreen.NewImagesFollowExisting |
