# Username claim on the account page

This project models the username logic of the account settings page
(`app/account/page.tsx`) of a small web application backed by a hosted
auth and database service. It covers three parts:

- **Loading the page** (`loadUserProfile`). The page reads the signed-in
  user, then that user's row in the `profiles` table. It fills the editable
  username with the stored username. If none is stored, it uses the part of
  the email before the first `@`. If that part is empty, it uses `"user"`.
- **Checking a submission** (`handleUsernameChange`). An ordered chain of
  checks runs, and the first failure decides: logged in; not blank after
  trimming; JavaScript length at least 3; JavaScript length at most 30; every
  character in `[a-zA-Z0-9_-]`.
- **Claiming the name.** The page queries for a row with a *different* id
  that holds the trimmed name; if there is one, the name is taken.
  Otherwise it upserts the caller's own row, keyed by id, with the trimmed
  name and the current time. It then shows a success or error message and
  clears `saving` on every path.

Modules:

- `JsString` (`js_string.dfy`): the JavaScript built-ins the page relies on.
  `trim` strips the ECMAScript whitespace and line-terminator set, written
  out code point by code point. `length` counts UTF-16 code units, so a
  character above U+FFFF counts 2. `split('@')[0]` is `BeforeFirst`.
- `Handle` (`handle.dfy`): the character class, the validation chain
  `Validate`, and `IsHandle`, a description of well-formed handles that does
  not depend on the chain.
- `Profiles` (`profiles.dfy`): the `profiles` table as a `map` from user id
  to row, "held by another row", uniqueness of handles, and `DefaultHandle`.
- `Account` (`account.dfy`): the service's replies, the log of requests the
  page sends, the pure specification `Claim` of one submission, lemmas about
  it, and the class `AccountPage`. The class's fields are the component's
  state (`user`, `username`, `loading`, `saving`, `message`), the table, and
  the request log. Its methods follow the handlers statement by statement,
  early returns included, and are proved against `Claim` and
  `DefaultHandle`.

The remote calls are sequential steps. Each call's reply is a parameter:
`AuthReply`, `FetchReply`, `LookupReply` and `WriteReply`. The time of the
write is a parameter `now`. A query that simply runs is evaluated on the
in-memory table.

The main invariant: the length and character checks look at the
*untrimmed* input, while the query and the write use the *trimmed* one. No
allowed character is whitespace, so an input that passes is its own trim
(`Handle.AcceptedInputIsTrimmed`). The stored name is therefore exactly
what was typed. Also, every allowed character lies in the Basic
Multilingual Plane, so the JavaScript length of an accepted input equals
its length.

Behaviour of the code that is easy to misread:

- When fetching the profile returns an error other than "not found", the
  code only logs it and falls back to the email-derived handle. The
  "Failed to load profile" message appears only when a call *throws*.
- If the uniqueness query *throws*, the exception reaches the same `catch`
  as a failed write. The page then shows the exception's message, or the
  "Failed to update username" prompt if there is none.
- If the uniqueness query *returns* an error, `existingUser` is null. The
  name is then treated as free and the upsert goes ahead.
  `Account.FailedLookupCanDuplicate` shows that this can give two rows the
  same handle. `Account.ClaimPreservesUniqueHandles` proves that uniqueness
  is kept whenever the query answers normally.
- The too-long message says "less than 30 characters", but a length of
  exactly 30 is accepted (`Handle.ValidateAcceptsExactlyHandles`). The
  model keeps both as written.

## Model

| member | source | states |
|---|---|---|
| `JsString.TrimStart` | app/account/page.tsx:65 | the result is a suffix of the input, everything removed is whitespace, and it does not start with whitespace |
| `JsString.TrimEnd` | app/account/page.tsx:65 | the result is a prefix of the input, everything removed is whitespace, and it does not end with whitespace |
| `JsString.Trim` | app/account/page.tsx:95 | `trim()` never lengthens a string, and a non-empty result neither starts nor ends with whitespace |
| `JsString.TrimIsBlankTrimmedSlice` | app/account/page.tsx:95 | `trim()` returns a slice of the input whose removed prefix and suffix are both whitespace |
| `JsString.TrimEmptyIffBlank` | app/account/page.tsx:65 | `trim()` is empty exactly when every character is whitespace |
| `JsString.TrimIdentityIff` | app/account/page.tsx:110 | `trim()` returns the string unchanged exactly when it neither starts nor ends with whitespace |
| `JsString.Utf16Length` | app/account/page.tsx:71 | the JavaScript length is never less than the number of code points |
| `JsString.Utf16LengthIff` | app/account/page.tsx:77 | the JavaScript length equals the number of code points exactly when none lies above U+FFFF |
| `JsString.BeforeFirst` | app/account/page.tsx:41 | `split('@')[0]` is a prefix that holds no `@` and stops at the first `@`, or at the end of the string |
| `JsString.BeforeFirstOfJoin` | app/account/page.tsx:41 | for `local + "@" + rest` with no `@` in `local`, the split gives `local` |
| `Handle.HandleCharIsPlain` | app/account/page.tsx:84 | no character of `[a-zA-Z0-9_-]` is whitespace or lies above U+FFFF |
| `Handle.ValidateFirstFailureWins` | app/account/page.tsx:58-88 | each rejection happens exactly when its own check fails and every earlier check passed; blank input gives "cannot be empty" even when it is also too short |
| `Handle.HandleIsTrimmed` | app/account/page.tsx:84-95 | a well-formed handle is its own trim |
| `Handle.HandleCharsLength` | app/account/page.tsx:71-84 | a string of allowed characters has a JavaScript length equal to its length |
| `Handle.ValidateAcceptsExactlyHandles` | app/account/page.tsx:58-88 | the chain accepts exactly when the user is logged in and the input has 3 to 30 characters, all allowed; both bounds are inclusive |
| `Handle.AcceptedInputIsTrimmed` | app/account/page.tsx:84-110 | an accepted input equals its trim, so the value queried and stored is the value typed |
| `Profiles.DefaultHandleShape` | app/account/page.tsx:37-43 | the initial handle is never empty; a non-empty stored username wins; otherwise it is `"user"` or an `@`-free prefix of the email that stops at its first `@` |
| `Profiles.DefaultHandleFromEmail` | app/account/page.tsx:41-42 | with no stored username, `local@domain` with a non-empty, `@`-free `local` yields `local` |
| `Profiles.DefaultHandleWholeEmail` | app/account/page.tsx:41-42 | with no stored username, a non-empty email containing no `@` is used whole |
| `Profiles.DefaultHandleFallback` | app/account/page.tsx:41-42 | with no stored username, a missing email, an empty email or one starting with `@` gives `"user"` |
| `Account.ErrorText` | app/account/page.tsx:123-126 | an error message is never empty; a service failure shows the service's text, or the retry prompt when that text is empty |
| `Account.MessageOf` | app/account/page.tsx:120-126 | the message is of the success kind exactly when the claim succeeded |
| `Account.ClaimOfHandle` | app/account/page.tsx:84-110 | a logged-in user's well-formed handle passes every check and goes to the query and the upsert untrimmed |
| `Account.ClaimOfNonHandle` | app/account/page.tsx:58-88 | any other submission ends with the chain's rejection, sends no request and leaves the table unchanged |
| `Account.ClaimWithoutUser` | app/account/page.tsx:58-62 | with no user the result is "You must be logged in", no request is sent and the table is unchanged |
| `Account.ClaimRejectsBeforeAnyRequest` | app/account/page.tsx:58-88 | a submission sends no request exactly when it is not a logged-in user's well-formed handle; then the outcome is the chain's reason and nothing changes |
| `Account.ClaimSucceedsIff` | app/account/page.tsx:90-120 | success exactly when logged in, well-formed, the query did not throw, no other row holds the name (unless the query returned an error), and the write went through |
| `Account.ClaimCheckedEffect` | app/account/page.tsx:92-118 | after validation, only a successful write changes the table; it sets the caller's row alone, after the query and the upsert requests |
| `Account.ClaimWritesOnlyOwnRow` | app/account/page.tsx:106-120 | success sets the caller's row to the typed input and `now`, inserting it if absent; every other row is unchanged; failure leaves the table as it was |
| `Account.ClaimTakenIff` | app/account/page.tsx:92-103 | "already taken" exactly when the input is acceptable, the query answered, and a row with a different id holds it; then only the query was sent and the table is unchanged |
| `Account.ResavingOwnHandleSucceeds` | app/account/page.tsx:92-103 | the caller's own row never blocks: re-saving the handle one holds succeeds when handles are unique |
| `Account.ServiceFailureMessage` | app/account/page.tsx:116-126 | when the query throws or the write fails, the message is the service's text, or the retry prompt when that is empty, and the table is unchanged |
| `Account.ClaimPreservesUniqueHandles` | app/account/page.tsx:92-114 | when the query answers, a submission keeps every handle held by at most one row |
| `Account.FailedLookupCanDuplicate` | app/account/page.tsx:92-99 | when the query returns an error, a second user can claim a handle that is already held |
| `Account.AliceScenario` | app/account/page.tsx:92-120 | "alice" held by x: user y is told it is taken, while x's re-save returns `Claimed` and updates the time stamp |
| `Account.ClaimThenReload` | app/account/page.tsx:37-110 | after a successful claim, loading the page again offers the claimed handle, whatever the email |
| `Account.AccountPage.constructor` | app/account/page.tsx:8-12 | initial state: no user, empty username, loading, not saving, no message |
| `Account.AccountPage.LoadUserProfile` | app/account/page.tsx:19-51 | loading ends false on every path; a thrown call leaves the username and shows "Failed to load profile"; a signed-in user is stored; the username becomes `DefaultHandle` of the fetched row (no row when the fetch returned an error); the table is not changed |
| `Account.AccountPage.EditUsername` | app/account/page.tsx:192 | the input's change handler sets the username to the typed value |
| `Account.AccountPage.HandleUsernameChange` | app/account/page.tsx:53-130 | message, table and request log end as `Claim` gives them; `saving` ends false; user, username and loading are unchanged |
| `Account.AccountPage.Reject` | app/account/page.tsx:58-88 | an early return shows the check's error and clears `saving` |
| `Account.AccountPage.SaveUsername` | app/account/page.tsx:90-129 | the query-and-upsert block ends as `ClaimChecked` gives it, with `saving` false on all three exits |
| `Account.FirstLoadScenario` | app/account/page.tsx:19-43 | a new user signed in as "charlie@example.com" with no profile row is first offered "charlie" |

## Left out

- `lib/supabase.ts` (client construction from environment variables),
  `app/layout.tsx` and `app/page.tsx` (static markup): they hold no logic
  of the username flow.
- JSX rendering and styling, including the HTML `pattern`, `minLength`
  and `maxLength` attributes: these are browser-side constraints, and the
  submission handler's own checks are modelled instead.
- Asynchrony and concurrency: each `await` is one sequential step. The
  race between the uniqueness query and the upsert needs concurrent
  submissions, which the model does not have.
- The transient state while a request is in flight (`saving` true, the
  message cleared) is set by `HandleUsernameChange`. No postcondition
  states it, because every exit overwrites both.
- `.single()` when several rows match: the library then returns an error
  and no row. The model answers "taken" whenever some other row holds the
  name. Under `UniqueHandles` at most one other row can match, so the two
  agree.
- The meaning of error code `PGRST116` and the service's error objects.
  Not-found is "no row", any other returned error is `FetchFailed` or
  `LookupFailed`, and a message is a string in which `""` stands for an
  empty or missing one.
- `console.error` logging, and `user.created_at`: neither affects the
  modelled state.
- `new Date().toISOString()`: the time stamp is the parameter `now`.
- The regular-expression engine: it is replaced by a per-character
  predicate. This is equivalent because the regex has no `u` flag, so a
  code point above U+FFFF becomes two surrogates, neither of which is in
  the class.
- Strings with unpaired surrogates: Dafny strings hold Unicode scalar
  values, so such JavaScript strings cannot be written.
- What the service does to the table when an upsert fails: the model
  assumes the table is unchanged.
