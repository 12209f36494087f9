# Volunteer app: accounts, session and organization store

This project models the client-side rules of a React Native volunteer app and
proves properties of them. Three parts are modelled:

- **The sign-in / sign-up screen** (`app/auth.tsx`, module `Auth`). This covers
  the email validator `validateEmail`, the account lookup `findUserByEmail`,
  the gates of `handleSignIn` and `handleSignUp`, the account append of
  `handleCompleteSignup`, the interest editors `toggleInterest` and
  `addCustomInterest`, and the `filteredTypes` search.
- **The user context** (`contexts/UserContext.tsx`, module `UserContext`). This
  covers the account directory with its `updateAccountInStorage` merge, and the
  session slot with `login`, `logout`, `updateUser`, `addPosting`,
  `deletePosting`, `updateInterests`, `clearAllData` and `isAuthenticated`.
- **The organization store** (`contexts/OrganizationContext.tsx`, module
  `OrganizationContext`). This is a list of organizations, each holding an
  ordered list of postings. It has create/update/delete for organizations and
  for postings, the owner filter and `getAllPostings`.

Two helper modules hold what the three share. `Seqs` has the option type and
`filter`/`map`/`findIndex`/`find`. `Strings` has JavaScript's `trim`,
`toLowerCase`, `includes`, `indexOf`, the `@` count and the last piece of
`split`.

The form of the model follows the source:

- The validators and the new-state computations (`map`/`filter`/spread) are
  functions.
- The stores are classes. `UserStore` holds the persisted directory blob
  (`accounts`), the persisted session blob (`storedUser`) and the session in
  memory (`user`). `OrganizationStore` holds `organizations`. Each method
  replaces its field with the value the matching function computes.
- `AuthScreen` holds the screen's state (the form fields, the selection, the
  error line and its own copy of the directory) and refers to the user store.
- `getAllPostings` keeps the source's nested loops and its in-place sort on an
  array.
- Ids and timestamps (`Date.now()`, `toISOString()`) are parameters, and
  `postedDate`/`createdDate` are integers.
- A `Partial<T>` update is a datatype of `Option` fields. For a field that is
  itself optional, `Some(None)` is a key that is present with the value
  `undefined`; the spread copies it, so it clears the field.

Some behaviour of the source that the proofs bring out:

- `validateEmail` accepts exactly the trimmed emails that match
  `^[a-zA-Z0-9._+-]+@[a-zA-Z0-9.-]+\.[a-zA-Z]{2,}$` and whose domain neither
  starts with a dot nor contains `..` (`Auth.ValidateEmailAccepts`).
- The "ends with a dot" half of the domain-edge check can never fire. A domain
  ending in a dot has an empty last piece, so the extension-length check
  rejects it first (`Auth.TrailingDotIsTooShortExtension`).
- `findUserByEmail` compares lower-cased, trimmed emails. `updateAccountInStorage`
  compares lower-cased emails without trimming. Sign-up stores the email as
  typed. The two lookups still find the same account for a session that sign-in
  or sign-up starts (`Auth.SignInSessionMirrored`, `Auth.SignUpSessionMirrored`).
- `updateUser` with a new email detaches the session from its directory entry.
  The entry keeps its email, and every later mirror searches with the new email.
  When no account has that email, the next mirror does nothing, and so does
  each one after it while the session keeps that email
  (`UserContext.EmailChangeDetachesSession`). When another account already has
  it, the next mirror rewrites that other account's profile with the session's
  updates (`UserContext.EmailChangeRedirectsMirror`). Since no mirror changes an
  email (`UserContext.AccountIndexAfterUpdate`), each mirror after it does the
  same while the session keeps that email. Nothing in the
  source rules out such a duplicate.
- The "already added" test of `addCustomInterest` is exact. The test against
  the listed types ignores letter case. So "Reading" and "reading" can both be
  selected.

## Model

| member | source | states |
|---|---|---|
| `Strings.IsWhitespace` | app/auth.tsx:60 | the characters `trim` removes: the ECMAScript WhiteSpace and LineTerminator code points |
| `Strings.Trim` | app/auth.tsx:60 | `trim`: the result is a contiguous stretch of the input with only whitespace before and after it, it has no whitespace at either end, and it is empty exactly when the input is all whitespace |
| `Strings.TrimDropsSurroundingSpace` | app/auth.tsx:60 | whitespace added at either end of a string does not change what `trim` gives |
| `Strings.TrimIdempotent` | app/auth.tsx:358 | trimming an already trimmed string changes nothing |
| `Strings.LowerChar` | app/auth.tsx:116 | one character lowered: exactly the capital ASCII letters change, and each becomes a small letter |
| `Strings.ToLower` | app/auth.tsx:116 | `toLowerCase` keeps the length and lowers each character in place |
| `Strings.ToLowerIdempotent` | app/auth.tsx:116 | lower-casing a lower-cased string changes nothing |
| `Strings.TrimKeepsLower` | app/auth.tsx:116 | trimming a lower-cased string leaves it lower-cased |
| `Strings.Includes` | app/auth.tsx:66 | `includes`: the text occurs at some position, so it is no longer than the string |
| `Strings.CountChar` | app/auth.tsx:70 | the `@` count is the character's multiplicity in the string; it is zero exactly when the character does not occur |
| `Strings.CountCharOnce` | app/auth.tsx:70-76 | a character at one position and nowhere else is counted once |
| `Strings.IndexOf` | app/auth.tsx:78 | the first occurrence: the character is at the index and not before it; the index is the length exactly when the character is absent |
| `Strings.LastPiece` | app/auth.tsx:92-93 | the last piece of `split(".")` is the longest separator-free suffix, preceded by a separator when it is not the whole string |
| `Seqs.Filter` | contexts/OrganizationContext.tsx:110 | `filter` returns only elements of the input that pass the test, and every input element that passes is kept |
| `Seqs.FilterConcat` | contexts/OrganizationContext.tsx:110 | filtering distributes over concatenation, so relative order is preserved |
| `Seqs.FilterDropsOne` | app/auth.tsx:351 | filtering out one rejected element between kept ones leaves the rest joined in order |
| `Seqs.Map` | contexts/OrganizationContext.tsx:93 | `map` keeps the length and applies the function at each position |
| `Seqs.FirstIndex` | contexts/UserContext.tsx:48 | `findIndex`: no earlier element passes, and the element found passes |
| `Seqs.Find` | app/auth.tsx:116 | `find` returns nothing exactly when no element passes; otherwise it returns the element at the first passing index |
| `Auth.EmailErrorMessage` | app/auth.tsx:62-110 | every failure of `validateEmail` carries a non-empty message, so the message alone tells failure from success |
| `Auth.CheckTrimmedEmail` | app/auth.tsx:62-112 | the chain of checks on the trimmed email: an error about the local part or the domain is only reported for a non-empty text with no space and exactly one `@` |
| `Auth.ValidateEmail` | app/auth.tsx:59-113 | `validateEmail` reports a missing email exactly when the input is all whitespace |
| `Auth.EmptyCheck` | app/auth.tsx:60-64 | the first check: the trimmed email is rejected as missing exactly when it is empty |
| `Auth.SpaceCheck` | app/auth.tsx:66-68 | the second check: a non-empty trimmed email is rejected for spaces exactly when it holds a space |
| `Auth.AtSignChecks` | app/auth.tsx:70-76 | the third check: with no space, no `@` and more than one `@` are each rejected with their own error, and exactly then |
| `Auth.CheckParts` | app/auth.tsx:78-112 | once the only `@` is known, every error reported is about the local part or the domain, never one of the earlier checks |
| `Auth.CheckDomain` | app/auth.tsx:92-112 | once the domain is known to be non-empty and dotted, every error reported is about the extension, the dots or the regular expression |
| `Auth.PartChecks` | app/auth.tsx:78-90 | around the only `@`: an empty local part, then an empty domain, then a domain without a dot, each reported exactly when it is the first failing check |
| `Auth.TrailingDotIsTooShortExtension` | app/auth.tsx:92-101 | the domain-edge error is only given for a domain that starts with a dot; a trailing dot is caught by the extension-length check first |
| `Auth.RegexAtSign` | app/auth.tsx:107-110 | a regular-expression match has its only `@` at the matched place and no space, so it passes the space and `@` checks |
| `Auth.RegexExtension` | app/auth.tsx:107-110 | the domain of a regular-expression match holds a dot, does not end with one, and its last piece is the matched extension |
| `Auth.CheckedEmailAccepted` | app/auth.tsx:59-113 | a trimmed text that passes every check matches the regular expression, and its domain neither starts with a dot nor contains ".." |
| `Auth.AcceptedEmailChecked` | app/auth.tsx:59-113 | every such text passes every check |
| `Auth.RegexAt` | app/auth.tsx:107-108 | `^[a-zA-Z0-9._+-]+@[a-zA-Z0-9.-]+\.[a-zA-Z]{2,}$` matches with the `@` and the escaped dot at the given positions |
| `Auth.MatchesEmailRegex` | app/auth.tsx:107-108 | `emailRegex.test`: some choice of positions for the `@` and the escaped dot makes the pattern match |
| `Auth.ValidateEmailAccepts` | app/auth.tsx:59-113 | `valid: true` if and only if the trimmed email matches the regular expression and its domain neither starts with a dot nor contains ".." |
| `Auth.ValidEmailMatchesRegex` | app/auth.tsx:107-112 | a valid email matches the regular expression |
| `Auth.EmailKey` | app/auth.tsx:116 | the comparison key `email.toLowerCase().trim()` |
| `Auth.EmailKeyCanonical` | app/auth.tsx:116 | a key is its own key: lower-casing and trimming it again changes nothing |
| `Auth.UserIndex` | app/auth.tsx:115-117 | the position of the first account whose lower-cased, trimmed email equals the query's; no earlier account matches |
| `Auth.FindUserByEmail` | app/auth.tsx:115-117 | it returns undefined exactly when no account's key equals the query's key; otherwise it returns the first account with that key |
| `Auth.FindIgnoresCase` | app/auth.tsx:115-117 | two queries with the same lower-cased form find the same account |
| `Auth.FindIgnoresSurroundingSpace` | app/auth.tsx:115-117 | whitespace typed before or after a query does not change which account is found |
| `Auth.SessionUserOf` | app/auth.tsx:223-231 | the session `login` receives has the account's email and profile and no postings |
| `Auth.SignIn` | app/auth.tsx:190-231 | sign-in succeeds exactly when the email is valid, an account is found, the password is non-empty and equals the stored one; the session is then the found account |
| `Auth.FoundSessionMirrored` | app/auth.tsx:223-231 | the directory entry that later mirrors are written to (first lower-cased match) is the account sign-in found (first lower-cased, trimmed match) |
| `Auth.SignInSessionMirrored` | app/auth.tsx:184-236 | the session started by a successful sign-in is in step with its directory entry |
| `Auth.StrongPassword` | app/auth.tsx:282-291 | at least 6 characters, with an ASCII letter and an ASCII digit among them |
| `Auth.SignUpCheck` | app/auth.tsx:244-292 | the credentials step is passed exactly when the trimmed name has at least 2 characters, the email is valid, no account has its key, and the password has at least 6 characters with an ASCII letter and a digit |
| `Auth.NewAccount` | app/auth.tsx:318-324 | the new account carries the screen's email, password, name and interests as typed, and is a volunteer with no organization name, image or bio |
| `Auth.CompleteSignup` | app/auth.tsx:307-328 | with at least one interest, the directory is the old one unchanged and in order plus exactly one new account at the end; with none, the interest error |
| `Auth.SignUpKeepsEmailsUnique` | app/auth.tsx:269-274 | after an accepted sign-up, appending the new account keeps every email key in the directory distinct |
| `Auth.SignUpSessionMirrored` | app/auth.tsx:326-336 | the session logged in after sign-up is in step with the appended account |
| `Auth.CompletedSignupFacts` | app/auth.tsx:307-336 | the completed directory of an accepted sign-up keeps emails unique and mirrors the new session |
| `Auth.Toggled` | app/auth.tsx:349-355 | `toggleInterest`: the interest is selected afterwards exactly when it was not before; every other interest keeps its membership; an unselected interest is appended at the end |
| `Auth.ToggleOffRemovesOnlyIt` | app/auth.tsx:350-353 | deselecting an interest selected once removes exactly that entry and keeps the others in order |
| `Auth.ToggleOffKeepsOrder` | app/auth.tsx:350-353 | deselecting filters each part of the selection separately, so the survivors keep their order |
| `Auth.ToggleTwice` | app/auth.tsx:349-355 | toggling an unselected interest twice gives back the selection |
| `Auth.ToggleKeepsNoDuplicates` | app/auth.tsx:349-355 | toggling never selects an interest twice |
| `Auth.IsVolunteerType` | app/auth.tsx:367 | `VOLUNTEER_TYPES.some(...)`: the text equals a listed type once both are lower-cased |
| `Auth.WithCustomInterest` | app/auth.tsx:357-374 | the trimmed text is appended exactly when it is non-empty, not already selected, and not equal to a listed type up to ASCII letter case |
| `Auth.CustomInterestKeepsNoDuplicates` | app/auth.tsx:357-374 | adding a custom interest never selects an interest twice |
| `Auth.TypesMatching` | app/auth.tsx:376-378 | `filteredTypes`: exactly the listed types whose lower-cased name includes the lower-cased query |
| `Auth.VolunteerTypesDistinct` | app/auth.tsx:119-140 | `VOLUNTEER_TYPES` holds twenty names and no name twice |
| `Auth.SuggestionsDistinct` | app/auth.tsx:561-563 | the suggestion list keyed by type name never shows a name twice, whatever the search |
| `Auth.EmptyQueryKeepsAll` | app/auth.tsx:376-378 | an empty search shows every listed type, in order |
| `Auth.FilteredTypes` | app/auth.tsx:376-378 | the suggestion list for an empty search is the whole list of volunteer types |
| `Auth.EmailWarning` | app/auth.tsx:170-182 | the live warning is empty exactly when the text is empty or valid |
| `Auth.AuthScreen.constructor` | app/auth.tsx:142-168 | the screen starts in sign-in mode on the credentials step with empty fields and the loaded directory |
| `Auth.AuthScreen.CheckEmailFormat` | app/auth.tsx:170-182 | the warning becomes the validator's message for the text |
| `Auth.AuthScreen.EditEmail` | app/auth.tsx:640-644 | typing an email clears the error line and recomputes the warning |
| `Auth.AuthScreen.ConfirmReview` | app/auth.tsx:455-458 | the review step moves on to the interests step |
| `Auth.AuthScreen.BackToCredentials` | app/auth.tsx:462-465 | the review step goes back to the credentials step |
| `Auth.AuthScreen.HandleSignIn` | app/auth.tsx:184-236 | on success the stored and the in-memory session are the found account; on refusal only the error line changes and the session is untouched |
| `Auth.AuthScreen.HandleSignUp` | app/auth.tsx:238-297 | passing every gate clears the error and moves to the review step; otherwise the first failing gate's message is shown and the step is kept |
| `Auth.AuthScreen.SwitchMode` | app/auth.tsx:299-305 | the mode flips and the error, email, password and name are cleared |
| `Auth.AuthScreen.HandleCompleteSignup` | app/auth.tsx:307-347 | without an interest only the error is set; otherwise the completed directory is kept and saved, and the new account is logged in; after accepted gates, emails stay unique and the session is mirrored |
| `Auth.AuthScreen.ToggleInterest` | app/auth.tsx:349-355 | the selection becomes the toggled selection |
| `Auth.AuthScreen.AddCustomInterest` | app/auth.tsx:357-374 | on success the selection grows by the trimmed text and the input and error are cleared; otherwise only the error changes |
| `UserContext.OverlayUser` | contexts/UserContext.tsx:109 | `{ ...currentUser, ...updates }`: every key present in the update wins, every other field is kept |
| `UserContext.OverlayProfile` | contexts/UserContext.tsx:51-52 | each profile field takes the update's value when the update has the key, and keeps its old value otherwise |
| `UserContext.MergeIntoAccount` | contexts/UserContext.tsx:50-55 | the merged account keeps its email and password; its profile fields take the update |
| `UserContext.AccountIndex` | contexts/UserContext.tsx:48 | the first account whose lower-cased email equals the lower-cased query, with no trimming |
| `UserContext.AccountsAfterUpdate` | contexts/UserContext.tsx:43-63 | the length is kept, no email or password changes, only the first match changes (taking the update's profile fields), and nothing changes when nothing matches |
| `UserContext.AccountIndexAfterUpdate` | contexts/UserContext.tsx:48-55 | since an update never changes an email, every lookup finds the same account before and after it |
| `UserContext.AccountUpdateIdempotent` | contexts/UserContext.tsx:43-63 | applying the same update twice is applying it once |
| `UserContext.UpdateKeepsMirror` | contexts/UserContext.tsx:105-114 | an update without an email keeps the session in step with its directory entry |
| `UserContext.EmailChangeDetachesSession` | contexts/UserContext.tsx:105-114 | an update to an email no account has leaves the session without a directory entry, and every later mirror leaves the directory unchanged |
| `UserContext.EmailChangeRedirectsMirror` | contexts/UserContext.tsx:48-55 | an update to an email another account already has leaves that account alone, and the next mirror writes its profile fields into that other account while keeping that account's email and password |
| `UserContext.NewVolunteerPosting` | contexts/UserContext.tsx:123-127 | the posting carries the caller's fields, the given id and the given date |
| `UserContext.WithPostingAdded` | contexts/UserContext.tsx:130-131 | exactly one posting is appended to the postings (an absent list read as empty), and every other field is unchanged |
| `UserContext.WithPostingRemoved` | contexts/UserContext.tsx:146-147 | the postings with the id are gone, every other posting stays, and every other field is unchanged |
| `UserContext.AddThenRemovePosting` | contexts/UserContext.tsx:121-150 | deleting a just-added posting by its fresh id gives back the old postings |
| `UserContext.RemovePostingKeepsOrder` | contexts/UserContext.tsx:147 | deleting keeps the surviving postings in their order |
| `UserContext.UserStore.constructor` | contexts/UserContext.tsx:66-67 | the store starts with the persisted blobs and no session |
| `UserContext.UserStore.UpdateAccountInStorage` | contexts/UserContext.tsx:43-63 | the directory becomes the updated directory; the session is untouched |
| `UserContext.UserStore.IsAuthenticated` | contexts/UserContext.tsx:183 | `isAuthenticated` holds exactly when there is a session |
| `UserContext.UserStore.Login` | contexts/UserContext.tsx:86-94 | the session and the persisted session become exactly the user; the store is then authenticated |
| `UserContext.UserStore.Logout` | contexts/UserContext.tsx:96-103 | the session becomes null while the persisted session is kept; the store is then not authenticated |
| `UserContext.UserStore.UpdateUser` | contexts/UserContext.tsx:105-119 | a no-op without a session; otherwise the session is the overlaid user, persisted, and the directory entry of the pre-update email is merged |
| `UserContext.UserStore.AddPosting` | contexts/UserContext.tsx:121-140 | the new posting is returned in every case; only with a session is it appended and persisted |
| `UserContext.UserStore.DeletePosting` | contexts/UserContext.tsx:142-155 | a no-op without a session; otherwise every posting with the id is removed and the result is persisted |
| `UserContext.UserStore.UpdateInterests` | contexts/UserContext.tsx:157-159 | exactly the effect of `updateUser({ interests })` |
| `UserContext.UserStore.ClearAllData` | contexts/UserContext.tsx:161-171 | the directory and both sessions are emptied |
| `OrganizationContext.NewOrganization` | contexts/OrganizationContext.tsx:67-75 | the new organization carries the given id, name, logo, description, owner and date, and no postings |
| `OrganizationContext.NewPosting` | contexts/OrganizationContext.tsx:128-133 | the posting carries the caller's fields, the new id and date, and the target organization's id |
| `OrganizationContext.MergeOrganization` | contexts/OrganizationContext.tsx:94 | `{ ...org, ...updates }`: each field takes the update's value when the update has the key, and keeps its old value otherwise |
| `OrganizationContext.MergePosting` | contexts/OrganizationContext.tsx:166 | `{ ...p, ...updates }`: each posting field takes the update's value when the update has the key, and keeps its old value otherwise |
| `OrganizationContext.OrganizationsUpdated` | contexts/OrganizationContext.tsx:90-97 | the length is kept, organizations with another id are unchanged, and matching ones take the update's fields and keep the rest |
| `OrganizationContext.OrganizationsWithout` | contexts/OrganizationContext.tsx:107-112 | exactly the organizations with a different id remain |
| `OrganizationContext.DeleteKeepsOrder` | contexts/OrganizationContext.tsx:110 | deletion preserves the relative order of the survivors |
| `OrganizationContext.DeleteUndoesCreate` | contexts/OrganizationContext.tsx:64-120 | deleting a just-created organization with a fresh id gives back the old list |
| `OrganizationContext.OrganizationsOwnedBy` | contexts/OrganizationContext.tsx:208-211 | exactly the organizations owned by the user |
| `OrganizationContext.OwnedByKeepsOrder` | contexts/OrganizationContext.tsx:210 | the owner filter keeps the store's order |
| `OrganizationContext.OrganizationsWithPosting` | contexts/OrganizationContext.tsx:135-140 | the length is kept, only organizations with the id get the posting appended, and the others are unchanged |
| `OrganizationContext.OrganizationsWithPostingUpdated` | contexts/OrganizationContext.tsx:154-173 | the organization count and every posting count are kept; only postings with the id inside organizations with the id change, by taking the update |
| `OrganizationContext.OrganizationsWithoutPosting` | contexts/OrganizationContext.tsx:184-198 | only the matching organizations lose the postings with the id; every other field and organization is unchanged |
| `OrganizationContext.DeletePostingUndoesAdd` | contexts/OrganizationContext.tsx:122-206 | deleting a just-added posting with a fresh id gives back the old list |
| `OrganizationContext.Annotated` | contexts/OrganizationContext.tsx:218-220 | one organization's postings, in order, each paired with the organization |
| `OrganizationContext.FlattenConcat` | contexts/OrganizationContext.tsx:217-221 | the pushes for a concatenated list are the pushes for each part, in order |
| `OrganizationContext.Flatten` | contexts/OrganizationContext.tsx:217-221 | the loops push as many elements as there are postings in all, the first organization's postings first, in order, each paired with it |
| `OrganizationContext.FlattenMembers` | contexts/OrganizationContext.tsx:217-221 | an element is pushed exactly when it is a posting of some organization paired with that organization |
| `OrganizationContext.FlattenParents` | contexts/OrganizationContext.tsx:219 | each pushed element's organization is in the store and holds the posting |
| `OrganizationContext.DeletedOrganizationHasNoPostings` | contexts/OrganizationContext.tsx:107-112 | after deleting an organization, no element of `getAllPostings` belongs to it |
| `OrganizationContext.DeletedOrganizationIdGone` | contexts/OrganizationContext.tsx:107-112 | with consistent links, no posting left after the deletion names the deleted id |
| `OrganizationContext.CreateKeepsLinks` | contexts/OrganizationContext.tsx:74-77 | creating an organization keeps every posting's `organizationId` equal to its parent's id |
| `OrganizationContext.DeleteKeepsLinks` | contexts/OrganizationContext.tsx:110 | deleting an organization keeps the links consistent |
| `OrganizationContext.AddPostingKeepsLinks` | contexts/OrganizationContext.tsx:128-140 | adding a posting keeps the links consistent, since it stamps the target's id |
| `OrganizationContext.UpdateOrganizationKeepsLinks` | contexts/OrganizationContext.tsx:93-95 | an organization update that replaces neither the id nor the postings keeps the links consistent |
| `OrganizationContext.UpdatePostingKeepsLinks` | contexts/OrganizationContext.tsx:161-171 | a posting update that does not replace `organizationId` keeps the links consistent |
| `OrganizationContext.DeletePostingKeepsLinks` | contexts/OrganizationContext.tsx:187-195 | deleting a posting keeps the links consistent |
| `OrganizationContext.SortNewestFirst` | contexts/OrganizationContext.tsx:222-224 | the in-place sort leaves the array newest first and a permutation of its old contents |
| `OrganizationContext.OrganizationStore.constructor` | contexts/OrganizationContext.tsx:36-54 | the store starts from the persisted list |
| `OrganizationContext.OrganizationStore.CreateOrganization` | contexts/OrganizationContext.tsx:64-88 | exactly the new organization is appended after the unchanged old list, and it is returned |
| `OrganizationContext.OrganizationStore.UpdateOrganization` | contexts/OrganizationContext.tsx:90-105 | the list becomes the updated list |
| `OrganizationContext.OrganizationStore.DeleteOrganization` | contexts/OrganizationContext.tsx:107-120 | the list becomes the list without that id |
| `OrganizationContext.OrganizationStore.AddPosting` | contexts/OrganizationContext.tsx:122-152 | the posting is built and returned; the list receives it in the matching organizations only |
| `OrganizationContext.OrganizationStore.UpdatePosting` | contexts/OrganizationContext.tsx:154-182 | the list becomes the list with the posting updated |
| `OrganizationContext.OrganizationStore.DeletePosting` | contexts/OrganizationContext.tsx:184-206 | the list becomes the list with the posting removed |
| `OrganizationContext.OrganizationStore.GetUserOrganizations` | contexts/OrganizationContext.tsx:208-213 | exactly the store's organizations owned by the user |
| `OrganizationContext.OrganizationStore.GetAllPostings` | contexts/OrganizationContext.tsx:215-225 | every posting of every organization exactly once, paired with its organization, newest first, as many as there are postings |
| `OrganizationContext.OrganizationStore.ClearAllData` | contexts/OrganizationContext.tsx:227-236 | the list is empty |

## Left out

- Storage I/O is not modelled: AsyncStorage reads, writes and removals, and JSON parsing and printing. The persisted blobs are in-memory values. A blob that is absent or fails to parse is assumed to read as an empty directory or no session.
- The load functions `loadAccounts`, `loadAccountsData`, `loadUser`, `loadOrganizations` and `reloadOrganizations` are I/O. The constructors take the loaded values as parameters.
- Failed storage writes are not modelled (they are caught and logged in the source). Each model operation always completes, including `clearAllData`, whose state change in the source follows an awaited removal.
- React state, hooks, context providers and functional `setState` updaters are framework plumbing. The `isLoading` and `showPassword` flags are display-only state.
- Timers, router navigation, `Alert` and `console` output are left out.
- Races between overlapping asynchronous mutations are not modelled. Every operation runs to completion before the next one.
- `Date.now()` ids and `toISOString()` timestamps are parameters. Date parsing, including the NaN ordering of malformed dates, is not modelled; `postedDate` is an integer.
- `Strings.ToLower` lowers only the ASCII letters. JavaScript's `toLowerCase` lowers every Unicode letter. Lengths count Dafny characters, not UTF-16 code units.
- `UserContext.MergeIntoAccount` leaves out the `postings` key. The source's spread also copies that key into the stored account record, but no account field reads it.
- `OrganizationContext.SortNewestFirst` does not state stability. It is a stable insertion sort.
- `OrganizationContext.OrganizationStore.GetAllPostings` states the result as a permutation of the pushed list, not the exact order among postings with the same date.
- The sign-up flow's order (credentials, then review, then interests) is not enforced as an invariant of `AuthScreen`. `HandleCompleteSignup` states its uniqueness and mirror facts on the condition that the gates of `handleSignUp` accept the current fields.
- Only the email field's typing handler is modelled. The other text inputs store their text. All of them except the interest search field also clear the error line.
- The render trees and style sheets are not part of this model. Neither are the create/edit-organization forms; their only logic is a trimmed-non-empty check and a default logo before they call the store.
- Keyword relevance scoring, the "new post" filter and interest matching do not occur in the modelled files.
