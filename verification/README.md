# User directory app: a Dafny model of its screen logic

The application is a small React Native app with three screens. The login
screen gates entry with a fixed credential pair and remembers a successful
login in a one-key store. The list screen fetches a batch of users, normalises
each raw record and keeps the batch. A search box then derives the displayed
list from that batch. The details screen shows one user and turns the
normalisation sentinels back into readable text. Every screen reports its
asynchronous work through a three-state `Result`: `loading`, `success` or
`error`.

This project takes the logic out of the components and writes it as pure
functions over immutable values:

- `options.dfy`, module `Options`: an optional value. It stands for an
  `undefined` or `null` JavaScript property.
- `result.dfy`, module `Results`: the `Result<T>` union. It also holds the
  tagged-object encoding (`{ status, data?, error? }`) the screens build.
- `text.dfy`, module `Text`: the JavaScript string operations the screens
  use. These are `trim`, ASCII `toLowerCase`/`toUpperCase`, `includes` and
  `String(n)` of an integer.
- `directory.dfy`, module `Directory`: the list screen. It covers the `User`
  record, normalisation, the search filter, the `handleSearch` transition and
  the `fetchData` lifecycle (begin: `loading`; complete: exactly one terminal
  state).
- `login.dfy`, module `Login`: the login screen. It covers form validity, the
  credential check, and the `checkLoggedIn` and `handleLogin` transitions over
  a string key/value store.
- `details.dfy`, module `UserDetails`: the detail screen's display mapping.

Effects are inputs and outputs, never hidden. The network outcome is a
`FetchOutcome`: the raw records, or the value that was thrown. Whether a
storage read or write succeeds is a boolean parameter. Navigation to the list
is returned as a `Navigation` value.

Two behaviours of the source are worth spelling out:

- A failed load publishes the error and leaves `allUsers` as it was. That is
  `[]` on the one load a mount performs (`Directory.CompleteLoad`,
  `Directory.FailedLoadThenSearch`).
- Only the exact stored string `"true"` navigates to the list. Any other
  stored value is treated like an absent one (`Login.CheckLoggedIn`).

## Model

| member | source | states |
|---|---|---|
| Results.ToTagged | src/types/Result.ts:1-4 | each variant becomes an object whose `status` is one of the three tags; only `success` carries `data` and only `error` carries `error` |
| Results.FromTagged | src/types/Result.ts:1-4 | an object is read back only if it has one of the three shapes, and the variant it yields is the one its `status` names |
| Results.DecodeEncode | src/types/Result.ts:1-4 | decoding an encoded result returns it unchanged, payload included |
| Results.EncodeDecode | src/types/Result.ts:1-4 | every object that decodes is exactly the encoding of what it decodes to, so there is no partial or mixed state |
| Results.EncodingInjective | src/types/Result.ts:1-4 | two results with the same tagged object are the same result, so `status` plus payload identify the variant |
| Text.Trim | screens/ListScreen.tsx:110 | `trim()` yields a slice of the input that neither starts nor ends with whitespace, and everything removed on either side is whitespace |
| Text.TrimEmptyIffBlank | screens/ListScreen.tsx:110 | `query.trim() === ""` holds exactly when every character of the query is whitespace |
| Text.Lower | screens/ListScreen.tsx:117-121 | `toLowerCase()` keeps the length and maps each character to its lower-case form |
| Text.Upper | screens/UserDetails.tsx:42 | `toUpperCase()` keeps the length and maps each character to its upper-case form |
| Text.LowerForgetsCase | screens/ListScreen.tsx:117-121 | lower-casing an upper-cased or lower-cased string gives the same as lower-casing the original |
| Text.CaseMappingKeepsBlank | screens/ListScreen.tsx:110 | upper- or lower-casing a query never changes whether it is blank |
| Text.Includes | screens/ListScreen.tsx:117-121 | `s.includes(sub)` holds exactly when `sub` occurs at some index of `s`; the empty string occurs everywhere |
| Text.IntToString | screens/ListScreen.tsx:69 | `String(id)` is in canonical form: non-empty decimal digits with no leading zero (except "0" itself), preceded by `-` exactly for negative ids, and never "-0" |
| Text.IntToStringRoundTrip | screens/ListScreen.tsx:69 | the integer id is read back from its decimal string |
| Text.IntToStringInjective | screens/ListScreen.tsx:69 | distinct integer ids have distinct strings |
| Directory.OrElse | screens/ListScreen.tsx:72-75 | the logical-or fallback gives the value when it is present and non-empty, and the fallback otherwise |
| Directory.Normalize | screens/ListScreen.tsx:68-76 | the id is in canonical decimal form and reads back as the raw id; name is first + " " + last; email and avatar are copied; role, department and location are never empty; each is "N/A" or "Unknown" exactly when the source was absent, empty or the sentinel itself, and is the source value otherwise |
| Directory.NormalizeExamples | screens/ListScreen.tsx:68-76 | a complete record {1, Ada, Lovelace, a@x.com, Eng, R&D, London} becomes the user "1", "Ada Lovelace", "a@x.com", "Eng", "R&D", "London"; a record without company and address gets "N/A", "N/A", "Unknown" |
| Directory.FetchData | screens/ListScreen.tsx:61-86 | the load passes through `loading` and ends in exactly one terminal state: `success` exactly when the records arrived, with the normalised batch stored and published whole; otherwise `error` with the thrown value's message, and the stored batch is kept |
| Directory.Matches | screens/ListScreen.tsx:116-121 | a user matches exactly when the lower-cased query occurs at some position of the lower-cased name, email, role, department or location (any one of the five) |
| Directory.NormalizeAll | screens/ListScreen.tsx:68 | one user per raw record, same length, same order |
| Directory.NormalizeKeepsIdsDistinct | screens/ListScreen.tsx:68-69 | records with distinct raw ids get distinct user ids, so the list keys (line 195) stay unique |
| Directory.Filter | screens/ListScreen.tsx:115-122 | each user occurs in the result as often as in the batch if it matches the query (OR over name, email, role, department and location, compared lower-cased) and not at all otherwise; the result is an order-preserving subsequence of the batch |
| Directory.FilterKeepsExactlyMatches | screens/ListScreen.tsx:115-122 | a user is in the filtered list exactly when it is in the batch and matches; every dropped user fails the predicate |
| Directory.FilterIdempotent | screens/ListScreen.tsx:115-122 | filtering a filtered list again with the same query changes nothing |
| Directory.FilterDependsOnLowerQuery | screens/ListScreen.tsx:117-121 | two queries with the same lower-cased form select the same users |
| Directory.BeginLoad | screens/ListScreen.tsx:62 | the load first publishes `loading` and changes nothing else |
| Directory.CompleteLoad | screens/ListScreen.tsx:64-85 | the load ends in exactly one of `success` or `error`. On success the normalised batch is stored and published whole. On a throw, the error's message is published, or "Unknown error" for a non-`Error` value, and the stored batch is untouched |
| Directory.HandleSearch | screens/ListScreen.tsx:107-125 | always publishes `success`, even after an error, and records the query. A blank query publishes the whole stored batch. Any other query publishes exactly the matching stored users in order. The stored batch is never changed |
| Directory.SearchIsNonDestructive | screens/ListScreen.tsx:107-125 | searching q1 and then q2 gives the same state as searching q2 directly |
| Directory.SearchIgnoresQueryCase | screens/ListScreen.tsx:110-122 | upper- or lower-casing the query publishes the same list |
| Directory.LoadThenBlankSearch | screens/ListScreen.tsx:60-112 | after a successful load on mount, a blank search shows one normalised user per raw record, in the endpoint's order |
| Directory.FailedLoadThenSearch | screens/ListScreen.tsx:55-124 | after a failed load on mount the stored batch is empty, and every search publishes `success` with an empty list |
| Login.SetItem | screens/LoginScreen.tsx:66 | after `setItem` the key reads back the written value and every other key reads as before |
| Login.IsFormValid | screens/LoginScreen.tsx:29-32 | the form is valid exactly when both the email and the password contain a non-whitespace character |
| Login.CheckLoggedIn | screens/LoginScreen.tsx:36-52 | a read failure publishes "Failed to check login" and stays. A successful read publishes `success` and navigates to the list exactly when the flag is stored as "true". The form and the store are untouched |
| Login.BeginLogin | screens/LoginScreen.tsx:59 | a submitted valid form first publishes `loading` and keeps the fields |
| Login.HandleLogin | screens/LoginScreen.tsx:56-75 | an invalid form leaves everything unchanged. Wrong credentials publish "Invalid email or password" and write nothing. Exact credentials write `@logged_in` = "true", publish `success` and navigate. A failed write publishes "Login failed. Try again." and writes nothing. Navigation happens exactly for exact credentials with a successful write |
| Login.CredentialsMatch | screens/LoginScreen.tsx:62 | an accepted pair always passes the form check and has no whitespace at either end of either field, so no padded input is accepted |
| Login.PaddedEmailRejected | screens/LoginScreen.tsx:62 | the correct email with a leading space passes the form check but is rejected, because credentials are compared untrimmed |
| Login.SubmitOnMountIsIgnored | screens/LoginScreen.tsx:22-57 | the screen mounts in `loading` with an empty form, which is invalid, so submitting it does nothing |
| Login.LoginThenRestart | screens/LoginScreen.tsx:38-66 | after a successful login, the next mount's check navigates straight to the list |
| Login.FreshStoreStaysOnLogin | screens/LoginScreen.tsx:38-48 | with a store that never saw a login, the mount check stays on the login form |
| UserDetails.OrNotSpecified | screens/UserDetails.tsx:60-69 | a row shows "Not specified" for its sentinel and the value itself otherwise |
| UserDetails.UpperIsUpperCase | screens/UserDetails.tsx:42 | the badge text has the role's length, equals the role up to case, and has no lower-case letter |
| UserDetails.Display | screens/UserDetails.tsx:37-80 | name, id and email are shown verbatim (the id also as "ID: " + id). The badge appears exactly when the role is non-empty and not "N/A", and then shows the role in capitals. Position, department and location show "Not specified" for their sentinel and the value otherwise |
| UserDetails.DisplayNormalized | screens/UserDetails.tsx:40-69 | for a normalised record, no sentinel reaches the screen. A row shows "Not specified" when its source field was absent, empty or the sentinel itself, and a row that does not show "Not specified" shows the source field. The badge appears exactly when the source had a job title that is non-empty and not "N/A" |

## Left out

- The network request and JSON decoding in `fetchData` (screens/ListScreen.tsx:65-66) are not modelled. Their result is an input: the raw records, or the value thrown.
- AsyncStorage I/O is not modelled. The store is a map, and whether a read or write succeeds is a boolean input. A failed write is assumed to leave the store unchanged.
- The battery module and its 30-second poll (screens/ListScreen.tsx:91-105) are native, timer-driven code with nothing to state.
- Navigation wiring is reduced to an effect value. The `reset` and `replace` calls in `checkLoggedIn` and `handleLogin` become `GoToList`, and the `Details` navigation on a card press is not modelled. src/navigation/AppNavigation.tsx is not part of this model.
- Rendering, styles, toasts, Lottie animations, focus state and typing into the form fields are UI. So is the card's own "N/A" fallback for an empty department (screens/ListScreen.tsx:48).
- React's state batching and the interleaving of asynchronous callbacks are not modelled. Each transition is one function, and an interleaving is a composition of them.
- Text.Lower: maps only the ASCII letters A-Z. JavaScript's `toLowerCase` maps all of Unicode, so non-ASCII letters compare case-sensitively in this model.
- Text.Upper: maps only the ASCII letters a-z, unlike JavaScript's full-Unicode `toUpperCase`.
- Text.IntToString: prints every integer in plain decimal. JavaScript's `String` does so only for safe integers below 10^21 in magnitude; larger numbers print in exponent form (`1e+21`), and ids above 2^53 are not distinct numbers at all.
- Text.LowerForgetsCase: holds for the ASCII mapping only. With JavaScript's full mapping it fails: `"ß".toUpperCase().toLowerCase()` is "ss", not "ß".
- Directory.SearchIgnoresQueryCase: holds for the ASCII mapping only. With JavaScript's mapping the queries "ß" and "SS" select different users (only "SS" finds "Strauss").
- UserDetails.UpperIsUpperCase: holds for the ASCII mapping only. JavaScript's `toUpperCase` can change the length (`"ß"` becomes "SS"), so the badge text need not have the role's length.
- Directory.Normalize: takes `id` as an integer and the names, email and image as present strings. The endpoint always supplies these. JavaScript would print a missing name as "undefined" and copy a missing email as `undefined`, which the model does not represent.
