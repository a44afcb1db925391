# APU CodeSpace front end: session layer, validators, editable lists, admin screens and dropdown

This project models the decision logic of the APU CodeSpace web client, a
Next.js/React application. The model is written in Dafny, and the project
proves properties of it. It covers five parts:

- **The client session layer.**
  - `withAuth`, `decodeToken` and `refreshAccessToken` (`src/lib/auth.ts`).
  - The persisted token store (`src/stores/auth-store.ts`).
  - The cross-tab `storage` handler (`src/components/auth/use-auth-sync.tsx`).
  - The `useUser` hook (`src/hooks/use-user.tsx`).
  - The route guard (`src/components/auth/auth-guard.tsx`).
  - The request interceptor that adds the bearer header (`src/lib/api.ts`).
  - The once-only GitHub account link (`src/app/auth/github/callback/_components/github-callback.tsx`).
- **String functions and validators.**
  - Enum and year formatting (`src/app/profile/utils.ts`).
  - The registration schema, including the TP-number pattern `^T[PC]\d{6}$` (`src/app/user/register/types.ts`).
  - Active-link matching (`src/app/_nav/navlink.tsx`).
- **Editable lists and query-string updates.**
  - Profile completeness and the missing-field list (`my-user-details.tsx`).
  - Preference add, remove and suggestions (`user-preferences.tsx`).
  - The skills editor with its cap of 15 (`skills-modal.tsx`).
  - The browse filter panel and the search box, which rewrite the URL query (`filters.tsx`, `search-repository.tsx`).
- **The admin screens.**
  - Users, courses, programming languages and frameworks: case-insensitive search, create-versus-update dispatch, and confirmed deletes.
  - The form modals: blank-field submit guards, resets on open, and per-field updates.
- **The dropdown.**
  - Anchor placement and viewport-overflow clamping (`dropdown-content.tsx`).
  - The open/close state with its outside-click rule (`dropdown.tsx`).

How the model is shaped:

- **Pure derivations.** `decodedUserToken`, the filters, `formatEnumString` and
  the schema are Dafny functions. Lemmas state what they mean.
- **State that a component changes.** React state, a store or a mutated
  `URLSearchParams` becomes a class. Each handler is a method with a
  `modifies` clause and an `ensures` that states the whole new state.
- **The one loop in the core.** It is the `forEach` that appends the skills in
  `applyFilters`, and it is a `for` loop with invariants.
- **The outside world.** The network, the JWT library, the clock, `confirm()`,
  `crypto.randomUUID()` and the browser geometry are all parameters. Requests,
  reloads, toasts and navigations are recorded as logs.

Where the code and its description disagree, the model follows the code:

- **No single-flight refresh.** `refreshAccessToken` and the `useUser` refresh
  effect keep no shared in-flight promise, so the model has none.
- **The `withAuth` expiry check.** The token is valid while `exp >= now`, so
  the boundary is inclusive. An absent `exp` compares as NaN, so such a token
  is refreshed. The hook, by contrast, accepts a token without `exp`, or with
  `exp == 0` (`UseUser.MissingExpDisagreement`).
- **No token-type check.** Nothing checks a token-type claim, and the interceptor always writes `Bearer`.
- **Two different storages.**
  - `withAuth` and `refreshAccessToken` read and write localStorage `"accessToken"`.
  - The store, the interceptor and `useUser` read the store's token, which is
    persisted under `"auth-token"`.
  - A successful refresh therefore leaves `useUser` loading
    (`UseUser.RefreshSuccessStaysLoading`).
  - A failed `withAuth` refresh removes only the localStorage entry.
- **The guard's role is always `""`.** `useUser` returns no `user` field, so
  `AuthGuard` compares `user?.role || ""`, which is `""`. A guard with
  `allowedRoles` that does not list `""` shows nothing
  (`AuthGuard.AllowedRolesShutOut`).
- **The password rule.** It requires one character, although its message speaks
  of eight (`RegisterSchema.ValidateSpec`).
- **The skills save button is not wired.** `handleSave` is modelled, but no
  button in the skills modal calls it. Its result is only logged.
- **Closing an admin modal keeps the edited item.** The close button of the
  catalogue and user modals leaves `editingItem` set. This is harmless: the
  form exists only while the modal is open, and every way of opening it
  ("add" or a row's edit button) sets the edited item afresh
  (`AdminCatalog.ReopenReplacesStaleItem`).
- **The dropdown's overflow clamp ignores the centring transform.** A centred
  anchor's `translateX(-50%)` shifts the content after the clamp has measured
  it. A bottom anchor that flips may also end above the viewport
  (`DropdownContent.FlipMayLeaveViewport`).

Case mapping (`toLowerCase`, `toUpperCase`) is modelled for ASCII letters; see
"## Left out". `trim` removes exactly the white space and line terminators of
the ECMAScript standard (the WhiteSpace and LineTerminator productions of
ECMA-262): tab, vertical tab, form feed, space, no-break space, U+FEFF, every
Unicode space separator, line feed, carriage return, U+2028 and U+2029.

## Model

| member | source | states |
|---|---|---|
| Auth.DecodeToken | src/lib/auth.ts:12-18 | never fails: `None` exactly when the JWT library throws, otherwise its payload unchanged |
| Auth.WithAuthRun | src/lib/auth.ts:37-75 | outside a browser fails before touching storage; a stored token that decodes with `exp >= now` runs the operation once with no refresh; otherwise a refresh comes first; a failed refresh removes "accessToken", reports "Session expired" and never calls the operation; a successful one stores the token and calls the operation once afterwards; the operation is called exactly when the call returns |
| Auth.ExpiryBoundary | src/lib/auth.ts:52-60 | `exp == now` still runs the operation without a refresh, one second later it refreshes first |
| Auth.AuthClient.constructor | src/lib/auth.ts:45 | starts from the given localStorage with no calls made |
| Auth.AuthClient.RefreshAccessToken | src/lib/auth.ts:20-35 | one request; on success the token is stored under "accessToken" and returned, on failure nothing is written and the failure is passed on |
| Auth.AuthClient.WithAuth | src/lib/auth.ts:37-75 | the imperative wrapper produces exactly the result, storage and calls of `WithAuthRun` |
| AuthStore.Apply | src/stores/auth-store.ts:15-16 | `setToken(t)` leaves exactly `t`, replacing what was there; `clearToken()` leaves null |
| AuthStore.Replay | src/stores/auth-store.ts:13-16 | the store only ever holds its initial token or a token some write stored |
| AuthStore.LastWriteWins | src/stores/auth-store.ts:14-16 | after any sequence of writes the token is what the last one wrote, or the initial value when there were none |
| AuthStore.ClearAfterAnything | src/stores/auth-store.ts:16 | a clear after any writes leaves null, and clearing twice equals clearing once |
| AuthStore.Store.constructor | src/stores/auth-store.ts:14 | the token starts null |
| AuthStore.Store.SetToken | src/stores/auth-store.ts:15 | the new token is `Apply` of the old one and the write |
| AuthStore.Store.ClearToken | src/stores/auth-store.ts:16 | the new token is `Apply` of the old one and the clear |
| AuthSync.Decide | src/components/auth/use-auth-sync.tsx:8-17 | an event for another key does nothing; for "auth-token" a null, empty or "null" value clears and any other value reloads, exactly one of the two |
| AuthSync.IsLogoutValue | src/components/auth/use-auth-sync.tsx:10-11 | a persisted session, a JSON object starting with '{', is never read as a logout |
| AuthSync.AuthSyncListener.constructor | src/components/auth/use-auth-sync.tsx:4-7 | not yet listening, no reloads |
| AuthSync.AuthSyncListener.Mount | src/components/auth/use-auth-sync.tsx:19 | the listener is registered |
| AuthSync.AuthSyncListener.Unmount | src/components/auth/use-auth-sync.tsx:20 | the listener is removed |
| AuthSync.AuthSyncListener.OnStorage | src/components/auth/use-auth-sync.tsx:8-20 | while registered, a clear empties the store and a reload is recorded without touching the token; unregistered or ignored events change nothing |
| UseUser.AccessToken | src/hooks/use-user.tsx:10 | the access token is present exactly when the store holds a token, and is that token's `access_token` |
| UseUser.ExpiredForHook | src/hooks/use-user.tsx:24 | expired only with an `exp` before now; an absent `exp` or `exp == 0` never expires |
| UseUser.DecodedUserToken | src/hooks/use-user.tsx:18-26 | null before hydration, without a token, or when decoding fails; a decoded token is returned exactly when its `exp` is not truthy-and-before-now |
| UseUser.ExpiryAcceptance | src/hooks/use-user.tsx:24 | `exp == now`, `exp == 0` and an absent `exp` are accepted; `exp == now - 1` is rejected when it is not 0 |
| UseUser.IsAuthenticated | src/hooks/use-user.tsx:18-28 | authenticated only when hydrated and a token is present |
| UseUser.IsLoading | src/hooks/use-user.tsx:29-73 | loading before hydration and during a refresh; a settled session without a token is not loading |
| UseUser.ShouldRefresh | src/hooks/use-user.tsx:31-32 | a refresh starts only for an unauthenticated session that is loading with no refresh running; never before hydration |
| UseUser.FailureClearsSession | src/hooks/use-user.tsx:35-41 | a failure without a response or with a server error keeps the session |
| UseUser.IsRole | src/hooks/use-user.tsx:71 | never without a decoded token; when it holds the token carries that role |
| UseUser.MissingExpDisagreement | src/hooks/use-user.tsx:24 | a token without `exp` counts as authenticated in the hook while `withAuth` refreshes before using it |
| UseUser.NotLoadingMeansSettled | src/hooks/use-user.tsx:28-29 | not loading implies hydrated, not refreshing, and a token present exactly when authenticated |
| UseUser.RoleNeedsAuthentication | src/hooks/use-user.tsx:71 | `isRole` holds exactly for an authenticated session whose token carries that role; never before hydration |
| UseUser.UserHook.constructor | src/hooks/use-user.tsx:10-26 | not hydrated and not refreshing; the first render computes the memo for the store's access token at the given time |
| UseUser.UserHook.Render | src/hooks/use-user.tsx:10-26 | afterwards the memo is computed for the current access token and hydration flag; the clock is read again exactly when one of them changed, otherwise the memo keeps its time |
| UseUser.UserHook.Hydrate | src/hooks/use-user.tsx:16 | the mount effect sets `isHydrated`; the memo is left for the next render |
| UseUser.UserHook.StartRefresh | src/hooks/use-user.tsx:18-34 | run after a render, so on a current memo; a refresh starts exactly when hydrated, a token is present and the session is not authenticated as of the memo's last recompute; the memo is untouched |
| UseUser.UserHook.FinishRefresh | src/hooks/use-user.tsx:34-46 | a 401 or 403 failure clears the store, any other outcome keeps it; `isRefreshing` is false afterwards either way |
| UseUser.UserHook.Logout | src/hooks/use-user.tsx:72 | the store's token is null |
| UseUser.RefreshSuccessStaysLoading | src/hooks/use-user.tsx:28-47 | after a started refresh succeeds the hook still reports loading, since the store's token is unchanged |
| UseUser.ExpiryFrozenWhileUnchanged | src/hooks/use-user.tsx:18-34 | a token accepted when the memo was computed stays accepted at any later render while the access token and hydration are unchanged: no refresh starts and the hook is not loading, even after `exp` has passed |
| UseUser.SameAccessTokenKeepsMemo | src/hooks/use-user.tsx:10-26 | storing a token record with the same access token and rendering keeps the memo's time, the decoded token and the loading flag |
| AuthGuard.Redirect | src/components/auth/auth-guard.tsx:19-30 | no redirect while loading or when authenticated; otherwise "/user/login?redirect=" followed by the encoded path |
| AuthGuard.EffectiveRole | src/components/auth/auth-guard.tsx:15-42 | `user?.role \|\| ""`: "" without a user, the role itself when it is non-empty |
| AuthGuard.Rendered | src/components/auth/auth-guard.tsx:32-46 | loading or unauthenticated shows a spinner only if asked, otherwise nothing; with allowed roles the children exactly when the role is listed; without them the children; children never while loading or unauthenticated |
| AuthGuard.AllowedRolesShutOut | src/components/auth/auth-guard.tsx:15-44 | with the role always "", a role list without "" never shows the children |
| AuthGuard.RedirectKeepsOneParameter | src/components/auth/auth-guard.tsx:23 | after the prefix the redirect target holds no '&', '#', '=', '?' or '/', so the path stays one query value |
| UriComponent.Utf8 | src/components/auth/auth-guard.tsx:23 | one to four bytes, each below 256 |
| UriComponent.HexDigit | src/components/auth/auth-guard.tsx:23 | an upper-case hexadecimal digit |
| UriComponent.PercentBytes | src/components/auth/auth-guard.tsx:23 | three characters per byte, each '%' or a hex digit |
| UriComponent.EncodeChar | src/components/auth/auth-guard.tsx:23 | unreserved characters are kept, all others start with '%'; every output character is unreserved, '%' or a hex digit |
| UriComponent.Encode | src/components/auth/auth-guard.tsx:23 | the encoding is never shorter than the path, and empty exactly for the empty path |
| UriComponent.EncodeIsSafe | src/components/auth/auth-guard.tsx:23 | every character of `encodeURIComponent(s)` is unreserved, '%' or a hex digit |
| UriComponent.EncodeUnreservedIsIdentity | src/components/auth/auth-guard.tsx:23 | a path of unreserved characters is its own encoding |
| Api.AuthorizationFor | src/lib/api.ts:12-15 | a header exactly in the browser with a non-empty access token; it is "Bearer " followed by that token |
| Api.BearerRegardlessOfTokenType | src/lib/api.ts:15 | the header does not depend on the stored `token_type` |
| Api.RequestConfig.constructor | src/lib/api.ts:11 | a config holds the given url, headers and body |
| Api.Intercept | src/lib/api.ts:10-20 | the same config object comes back; only the Authorization header is set, and only when there is a token; every other header, the url and the body are unchanged |
| GithubCallback.LinkEffects | src/app/auth/github/callback/_components/github-callback.tsx:26-36 | the POST first and the way home last on both outcomes; the `users/me` invalidation exactly on success; no second POST |
| GithubCallback.PostsConcat | src/app/auth/github/callback/_components/github-callback.tsx:28 | POSTs of concatenated effect logs add up |
| GithubCallback.HasCode | src/app/auth/github/callback/_components/github-callback.tsx:21-22 | a missing or empty `code` never starts the link |
| GithubCallback.LinkEffectsPostOnce | src/app/auth/github/callback/_components/github-callback.tsx:26-37 | one link run issues exactly one POST |
| GithubCallback.CallbackPage.constructor | src/app/auth/github/callback/_components/github-callback.tsx:16 | `processed` starts false with no effects |
| GithubCallback.CallbackPage.RunEffect | src/app/auth/github/callback/_components/github-callback.tsx:18-39 | nothing while loading, unauthenticated, without a code or once processed; otherwise `processed` is set and the link runs; at most one POST per mount |
| GithubCallback.RunTwice | src/app/auth/github/callback/_components/github-callback.tsx:16-24 | running the effect twice links the code once, with the first run's outcome |
| ProfileUtils.Capitalize | src/app/profile/utils.ts:5 | same length; only the first character is upper-cased |
| ProfileUtils.CapitalizeAll | src/app/profile/utils.ts:5 | each word capitalised, count kept |
| ProfileUtils.Titled | src/app/profile/utils.ts:5 | same length; '_' becomes ' ', a character after '_' (or first) is upper-cased, others kept |
| ProfileUtils.JoinWordsIsTitled | src/app/profile/utils.ts:5 | split on '_', capitalise and join with ' ' equals the per-character description |
| ProfileUtils.FormatEnumString | src/app/profile/utils.ts:3-4 | null and "" read "Not set" |
| ProfileUtils.FormatEnumStringSpec | src/app/profile/utils.ts:3-6 | for a non-empty string: the per-character description, same length, no '_' |
| ProfileUtils.FormatYearToEnum | src/app/profile/utils.ts:8-10 | spaces become '_' and letters are lower-cased: same length, no space and no ASCII capital |
| ProfileUtils.YearRoundTrip | src/app/profile/utils.ts:5-9 | "YEAR n" becomes "year_n", which formats back as "Year n" |
| ProfileUtils.YearsRoundTrip | src/app/profile/types.ts:3-6 | each display year maps to the stored year at the same index and formats back as "Year n" |
| RegisterSchema.ApuIdAcceptance | src/app/user/register/types.ts:8 | an APU id is accepted exactly when it has 8 characters: 'T', 'P' or 'C', then six ASCII digits |
| RegisterSchema.CheckField | src/app/user/register/types.ts:5-12 | a field reports its one issue exactly when it fails, and nothing otherwise |
| RegisterSchema.CheckedFieldsDistinct | src/app/user/register/types.ts:5-12 | the five checked field names are pairwise different |
| RegisterSchema.FieldsInOrder | src/app/user/register/types.ts:5-12 | five per-field checks concatenated give at most one issue per field, each on a checked field, and an issue for a field is present exactly when that field's check raised it |
| RegisterSchema.Validate | src/app/user/register/types.ts:5-12 | at most five issues, each on a checked field, no two on the same field |
| RegisterSchema.ValidateSpec | src/app/user/register/types.ts:3-12 | the form is valid exactly when both names and the password are non-empty, the APU id matches and the role is "student" or "teacher"; each field's issue, with its message, is reported exactly when that field fails; the password issue, whose message asks for eight characters, arises only for the empty password |
| RegisterSchema.ApuIdRejections | src/app/user/register/types.ts:8 | a lower-case prefix, a short id and a wrong second letter are rejected |
| NavLink.HomeExact | src/app/_nav/navlink.tsx:21-22 | "/" is active exactly on "/" |
| NavLink.PrefixActive | src/app/_nav/navlink.tsx:23 | any other href is active exactly when the path starts with it |
| NavLink.ActiveOnOwnHref | src/app/_nav/navlink.tsx:21-23 | a link is active on its own href |
| NavLink.CharacterPrefix | src/app/_nav/navlink.tsx:23 | matching is by characters: "/browse" is active on "/browser", "/" is not active on "/browse" |
| NavLink.IsActive | src/app/_nav/navlink.tsx:21-23 | a link is never active on a path that does not start with its href |
| JsString.TrimStart | src/app/admin/courses/_components/course-form-modal.tsx:34 | the result is a suffix that does not start with white space |
| JsString.TrimEnd | src/app/admin/courses/_components/course-form-modal.tsx:34 | the result is a prefix that does not end with white space |
| JsString.Trim | src/app/admin/courses/_components/course-form-modal.tsx:34 | no white space at either end, and the input is white space, then the result, then white space: only leading and trailing white space is removed |
| JsString.TrimParts | src/app/admin/courses/_components/course-form-modal.tsx:34 | trimming the start and then the end removes exactly a blank prefix and a blank suffix |
| JsString.TrimEmptyIffBlank | src/app/admin/courses/_components/course-form-modal.tsx:34 | `trim()` is empty exactly for an all-white-space string |
| JsString.TrimIdempotent | src/app/browse/_components/search-repository.tsx:23-24 | trimming twice equals trimming once |
| JsString.ToLower | src/app/admin/users/page.tsx:105-110 | same length; each ASCII capital lower-cased, every other character kept |
| JsString.IncludesIff | src/app/admin/users/page.tsx:105-110 | `includes` holds exactly when the needle occurs at some position |
| JsString.IncludesEmpty | src/app/admin/users/page.tsx:105-110 | every string includes "" |
| JsString.Split | src/app/profile/utils.ts:5 | at least one part; no part contains the separator |
| JsString.JoinConsFirst | src/app/profile/utils.ts:5 | a character in front of the first part stays in front of the joined string |
| JsString.JoinSplit | src/app/profile/utils.ts:9 | joining the parts of a split with the same separator gives the string back |
| JsString.Replace | src/app/profile/utils.ts:9 | same length; each occurrence of the character replaced, others kept |
| JsString.SplitJoinReplaces | src/app/profile/utils.ts:9 | split on one character and join with another replaces the first by the second |
| UserDetails.MissingFlags | src/app/profile/_components/my-user-details.tsx:79-95 | one flag per checked field |
| UserDetails.Select | src/app/profile/_components/my-user-details.tsx:79-95 | never more items than given |
| UserDetails.SelectStep | src/app/profile/_components/my-user-details.tsx:79-95 | one `push` step of the error list |
| UserDetails.SelectFive | src/app/profile/_components/my-user-details.tsx:79-95 | the error list is the five conditional pushes, in order |
| UserDetails.MissingFieldsSpec | src/app/profile/_components/my-user-details.tsx:80-95 | a field is listed exactly when missing from both the stored profile and the inputs |
| UserDetails.CompleteMeansNothingMissing | src/app/profile/_components/my-user-details.tsx:46-95 | a complete profile lists nothing whatever the inputs; an incomplete one with no inputs lists something |
| UserDetails.FullName | src/app/profile/_components/my-user-details.tsx:106 | never empty; the non-empty names joined by one space, or "Unknown" |
| UserDetails.AvatarInitial | src/app/profile/_components/my-user-details.tsx:119 | one character: from the first name, else from the APU id, else "?" |
| UserDetails.DetailsPanel.constructor | src/app/profile/_components/my-user-details.tsx:22-24 | details counted complete, modal closed |
| UserDetails.DetailsPanel.SyncCompleted | src/app/profile/_components/my-user-details.tsx:46-54 | unchanged while loading; otherwise complete exactly when all five fields are truthy |
| UserDetails.DetailsPanel.HandleOpenModal | src/app/profile/_components/my-user-details.tsx:78-104 | the error list in field order; a non-empty list is shown in one toast and the modal stays as it was; an empty list opens the modal |
| UserPreferences.RemoveId | src/app/profile/_components/user-preferences.tsx:168 | keeps exactly the items with another id, each as often as before, in their order |
| UserPreferences.RemoveAbsent | src/app/profile/_components/user-preferences.tsx:168 | removing an id that is not selected changes nothing |
| UserPreferences.RemoveUndoesAdd | src/app/profile/_components/user-preferences.tsx:160-168 | removing the item just added restores the list |
| UserPreferences.RemoveKeepsDistinct | src/app/profile/_components/user-preferences.tsx:168 | removal keeps ids distinct |
| UserPreferences.Candidates | src/app/profile/_components/user-preferences.tsx:172-174 | the items whose name matches and whose id is not selected, each as often as in the list, in list order |
| UserPreferences.FiltersFuse | src/app/profile/_components/user-preferences.tsx:172-174 | the two filters in a row equal one filter on both conditions |
| UserPreferences.PrefixIsSubsequence | src/app/profile/_components/user-preferences.tsx:175 | the first five of a subsequence are still a subsequence |
| UserPreferences.Suggestions | src/app/profile/_components/user-preferences.tsx:172-175 | at most five items, in list order, each matching the input and not yet selected |
| UserPreferences.SuggestionsSpec | src/app/profile/_components/user-preferences.tsx:172-175 | at most five suggestions, a prefix of the matching unselected items in list order; with fewer than five, all of them |
| UserPreferences.EmptyInputMatchesAll | src/app/profile/_components/user-preferences.tsx:173 | an empty input matches every item |
| UserPreferences.EmptyInputSuggestions | src/app/profile/_components/user-preferences.tsx:172-175 | an empty input suggests the first five unselected items |
| UserPreferences.Names | src/app/profile/_components/user-preferences.tsx:53-56 | the save payload lists the selected names, in order |
| UserPreferences.SavePayload | src/app/profile/_components/user-preferences.tsx:53-56 | the payload lists the selected languages' and frameworks' names, position by position |
| UserPreferences.PreferenceSection.constructor | src/app/profile/_components/user-preferences.tsx:156-158 | the given items, empty input, popover closed |
| UserPreferences.PreferenceSection.HandleAddItem | src/app/profile/_components/user-preferences.tsx:160-165 | a selected id changes nothing; otherwise the item is appended, the input cleared and the popover closed; distinct ids stay distinct |
| UserPreferences.PreferenceSection.HandleRemoveItem | src/app/profile/_components/user-preferences.tsx:167-169 | every item with the id goes, the rest keep their order; distinct ids stay distinct |
| SkillsModal.UpdateValue | src/app/repo/_components/skills-modal.tsx:32-36 | same length and ids; only entries with the id get the new value |
| SkillsModal.RemoveId | src/app/repo/_components/skills-modal.tsx:38-40 | keeps exactly the entries with another id, each as often as before, in their order |
| SkillsModal.RemoveAfterUpdate | src/app/repo/_components/skills-modal.tsx:32-40 | updating then removing an entry equals removing it |
| SkillsModal.Values | src/app/repo/_components/skills-modal.tsx:26 | the values in order |
| SkillsModal.CleanSkills | src/app/repo/_components/skills-modal.tsx:25-27 | exactly the values that are not blank, each as often as before, in their order |
| SkillsModal.CleanDropsBlank | src/app/repo/_components/skills-modal.tsx:27 | a value is dropped exactly when all white space |
| SkillsModal.SkillsEditor.constructor | src/app/repo/_components/skills-modal.tsx:17 | the given list, closed, no toasts |
| SkillsModal.SkillsEditor.SetOpen | src/app/repo/_components/skills-modal.tsx:13-14 | only the open flag changes |
| SkillsModal.SkillsEditor.ResetOnOpen | src/app/repo/_components/skills-modal.tsx:18-22 | when open, the list becomes one empty entry; closed, unchanged |
| SkillsModal.SkillsEditor.AddSkill | src/app/repo/_components/skills-modal.tsx:42-48 | at 15 or more a toast and no change; otherwise one empty entry appended, so at most 15 stays at most 15 |
| SkillsModal.SkillsEditor.UpdateSkill | src/app/repo/_components/skills-modal.tsx:32-36 | the list becomes `UpdateValue` of the old one |
| SkillsModal.SkillsEditor.RemoveSkill | src/app/repo/_components/skills-modal.tsx:38-40 | the list becomes `RemoveId` of the old one: the other entries, in their order |
| SkillsModal.SkillsEditor.HandleSave | src/app/repo/_components/skills-modal.tsx:24-30 | returns the non-blank values in their order and closes the modal |
| SearchParams.GetFirst | src/app/browse/_components/filters.tsx:16-17 | `get`: none exactly when no pair has the name; otherwise the value of the first such pair |
| SearchParams.GetAllValues | src/app/browse/_components/filters.tsx:19 | `getAll` never returns more values than pairs |
| SearchParams.OthersConcat | src/app/browse/_components/filters.tsx:51 | other-name pairs of a concatenation concatenate |
| SearchParams.GetAllConcat | src/app/browse/_components/filters.tsx:51 | `getAll` of a concatenation concatenates |
| SearchParams.DeleteSpec | src/app/browse/_components/filters.tsx:50 | `delete` leaves no value for the name and keeps every pair of other names in order |
| SearchParams.DeleteKeepsOtherNames | src/app/browse/_components/filters.tsx:64-66 | `delete` keeps every other name's values |
| SearchParams.SetSpec | src/app/browse/_components/filters.tsx:47 | `set` leaves exactly one value for the name and keeps the other pairs in order |
| SearchParams.SetKeepsOtherNames | src/app/browse/_components/filters.tsx:47-48 | `set` keeps every other name's values |
| SearchParams.GetIsFirstOfAll | src/app/browse/_components/filters.tsx:16-19 | `get` is the first of `getAll` |
| SearchParams.AppendSpec | src/app/browse/_components/filters.tsx:51 | `append` adds the value at the end of that name's values and keeps the other pairs |
| SearchParams.URLSearchParams.constructor | src/app/browse/_components/filters.tsx:44 | the copy holds the given pairs |
| SearchParams.URLSearchParams.Set | src/app/browse/_components/filters.tsx:47 | the pairs become `SetEntry` of the old ones |
| SearchParams.URLSearchParams.Delete | src/app/browse/_components/filters.tsx:50 | the pairs become `DeleteEntries` of the old ones |
| SearchParams.URLSearchParams.Append | src/app/browse/_components/filters.tsx:51 | the pair is added at the end |
| BrowseFilters.RemoveAll | src/app/browse/_components/filters.tsx:39 | keeps exactly the other skills, each as often as before, in their order |
| BrowseFilters.SetOrDeleteSpec | src/app/browse/_components/filters.tsx:47-48 | a non-empty value is the only one for its name, an empty one removes it; other names untouched |
| BrowseFilters.ClearedSpec | src/app/browse/_components/filters.tsx:47-50 | the two single-valued filters as written, no skills, every other parameter kept |
| BrowseFilters.AppendSkillStep | src/app/browse/_components/filters.tsx:51 | appending one skill adds it at the end of `skills` and leaves `apu_id`, `github_username` and every other parameter as they were |
| BrowseFilters.FilterPanel.WriteSingleFilters | src/app/browse/_components/filters.tsx:47-50 | the two single-valued filters set or deleted and `skills` deleted, in the source's order |
| BrowseFilters.FilterPanel.constructor | src/app/browse/_components/filters.tsx:16-19 | each filter read from the query, "" or [] when absent |
| BrowseFilters.FilterPanel.Sync | src/app/browse/_components/filters.tsx:22-26 | the filters are read again, the skill input kept |
| BrowseFilters.FilterPanel.SetSkillInput | src/app/browse/_components/filters.tsx:18 | only the skill input changes |
| BrowseFilters.FilterPanel.HandleAddSkill | src/app/browse/_components/filters.tsx:28-36 | on Enter with non-blank input the trimmed text is appended unless present and the input is cleared; otherwise nothing changes |
| BrowseFilters.FilterPanel.RemoveSkill | src/app/browse/_components/filters.tsx:38-40 | all equal skills go, the rest keep their order |
| BrowseFilters.FilterPanel.ApplyFilters | src/app/browse/_components/filters.tsx:42-54 | `apu_id` and `github_username` set when non-empty and removed otherwise; `skills` exactly the current skills in order; every other parameter kept in order |
| BrowseFilters.FilterPanel.ClearFilters | src/app/browse/_components/filters.tsx:56-68 | local state emptied; the three filters removed from the query; every other parameter kept |
| BrowseFilters.ApplyAfterRead | src/app/browse/_components/filters.tsx:16-54 | applying just-read filters keeps the query's skills and other parameters |
| SearchRepository.SearchBox.constructor | src/app/browse/_components/search-repository.tsx:15 | the input starts from `search`, or "" |
| SearchRepository.SearchBox.Sync | src/app/browse/_components/search-repository.tsx:17-19 | the input is read again from `search` |
| SearchRepository.SearchBox.SetValue | src/app/browse/_components/search-repository.tsx:15 | the input holds what was typed |
| SearchRepository.SearchBox.HandleSearch | src/app/browse/_components/search-repository.tsx:21-29 | a non-blank input sets `search` to its trimmed text, a blank one removes it; every other parameter kept in order |
| SearchRepository.SearchBox.HandleKeyDown | src/app/browse/_components/search-repository.tsx:31-33 | only Enter searches |
| SearchRepository.SearchTwice | src/app/browse/_components/search-repository.tsx:17-29 | searching again after a search pushes the same `search` value |
| AdminSearch.EmptySearchMatches | src/app/admin/users/page.tsx:105-110 | an empty search matches every field |
| AdminSearch.ToLowerIdempotent | src/app/admin/users/page.tsx:105-110 | lower-casing twice equals lower-casing once |
| AdminSearch.MatchIgnoresCase | src/app/admin/users/page.tsx:105-110 | two searches that differ only in letter case match the same fields; lower-casing the search or the field first changes no match |
| AdminSearch.MatchesText | src/app/admin/users/page.tsx:105-110 | a search longer than the field never matches |
| Lists.Filter | src/app/admin/users/page.tsx:105 | `filter`: exactly the entries that pass, each as often as in the input, as a subsequence in the input's order |
| Lists.FilterKeepsAll | src/app/admin/courses/page.tsx:97-100 | when every entry passes the list is unchanged |
| Lists.FilterConcat | src/app/admin/users/page.tsx:105 | filtering distributes over concatenation |
| Lists.FilterFuse | src/app/profile/_components/user-preferences.tsx:172-174 | two filters in a row equal one filter on both conditions |
| AdminUsers.OrEmpty | src/app/admin/users/page.tsx:106-109 | null becomes "", any other value is kept |
| AdminUsers.MatchesSearch | src/app/admin/users/page.tsx:105-110 | an empty search matches every user |
| AdminUsers.FilterUsers | src/app/admin/users/page.tsx:105-110 | a subsequence in order; each matching user as often as in the list, no other user |
| AdminUsers.FilterUsersSpec | src/app/admin/users/page.tsx:105-110 | a user is kept exactly when the search occurs, ignoring case, in the APU id, first name, email or GitHub name |
| AdminUsers.EmptySearchKeepsUsers | src/app/admin/users/page.tsx:105-110 | an empty search keeps every user |
| AdminUsers.LastNameNotSearched | src/app/admin/users/page.tsx:105-110 | changing a user's last name never changes whether that user is shown |
| AdminUsers.IsGithubLinked | src/app/admin/users/page.tsx:155 | linked exactly when the access token is non-null and non-empty |
| AdminUsers.LinkIgnoresUsername | src/app/admin/users/page.tsx:155 | the stored GitHub user name plays no part in the badge |
| AdminUsers.UsersPage.constructor | src/app/admin/users/page.tsx:24-26 | modal closed, nothing edited, empty search |
| AdminUsers.UsersPage.SetSearch | src/app/admin/users/page.tsx:128 | only the search changes |
| AdminUsers.UsersPage.OpenEditModal | src/app/admin/users/page.tsx:82-85 | the user is edited and the modal opens |
| AdminUsers.UsersPage.CloseModal | src/app/admin/users/page.tsx:252 | the modal closes, the edited user is kept |
| AdminUsers.UsersPage.HandleUpdate | src/app/admin/users/page.tsx:87-90 | only while the modal is open; nothing without an edited user, otherwise one update of its id with the payload; with the page's invariant an update is always sent |
| AdminUsers.UsersPage.UpdateSucceeded | src/app/admin/users/page.tsx:38-44 | the modal closes and nothing is edited |
| AdminUsers.UsersPage.HandleDelete | src/app/admin/users/page.tsx:92-96 | a delete only when confirmed |
| AdminUsers.UsersPage.HandleUnlinkGithub | src/app/admin/users/page.tsx:98-102 | an unlink of the user's id only when confirmed |
| AdminUsers.EditThenUpdate | src/app/admin/users/page.tsx:82-90 | opening a user and submitting updates that user's id |
| AdminUsers.UpdateThenEditAnother | src/app/admin/users/page.tsx:38-90 | after a successful update, editing another user updates that user: the requests are the two updates in order |
| AdminCatalog.FilterCoursesSpec | src/app/admin/courses/page.tsx:97-100 | exactly the courses whose name or code contains the search ignoring case; an empty search keeps all |
| AdminCatalog.FilterCourses | src/app/admin/courses/page.tsx:97-100 | a subsequence in order; each matching entry as often as in the list, no other entry |
| AdminCatalog.FilterLanguagesSpec | src/app/admin/programming-languages/page.tsx:97-99 | exactly the languages whose name contains the search ignoring case; an empty search keeps all |
| AdminCatalog.FilterLanguages | src/app/admin/programming-languages/page.tsx:97-99 | a subsequence in order; each matching entry as often as in the list, no other entry |
| AdminCatalog.FilterFrameworksSpec | src/app/admin/frameworks/page.tsx:98-100 | exactly the frameworks whose name contains the search ignoring case; an empty search keeps all |
| AdminCatalog.FilterFrameworks | src/app/admin/frameworks/page.tsx:98-100 | a subsequence in order; each matching entry as often as in the list, no other entry |
| AdminCatalog.CatalogPage.constructor | src/app/admin/courses/page.tsx:13-15 | modal closed, nothing edited, empty search, no requests |
| AdminCatalog.CatalogPage.SetSearch | src/app/admin/courses/page.tsx:124 | only the search changes |
| AdminCatalog.CatalogPage.OpenCreateModal | src/app/admin/courses/page.tsx:87-90 | nothing is edited and the modal opens |
| AdminCatalog.CatalogPage.OpenEditModal | src/app/admin/courses/page.tsx:92-95 | the item is edited and the modal opens |
| AdminCatalog.CatalogPage.CloseModal | src/app/admin/courses/page.tsx:187 | the modal closes, the edited item is kept |
| AdminCatalog.CatalogPage.HandleSubmit | src/app/admin/courses/page.tsx:73-79 | only while the modal is open; an update of the edited item's id when there is one, a create otherwise |
| AdminCatalog.CatalogPage.CreateSucceeded | src/app/admin/courses/page.tsx:27-32 | the modal closes |
| AdminCatalog.CatalogPage.UpdateSucceeded | src/app/admin/courses/page.tsx:44-50 | the modal closes and nothing is edited |
| AdminCatalog.CatalogPage.HandleDelete | src/app/admin/courses/page.tsx:81-85 | a delete only when confirmed |
| AdminCatalog.EditCourseThenSubmit | src/app/admin/courses/page.tsx:73-95 | editing a course and submitting updates that course |
| AdminCatalog.ReopenReplacesStaleItem | src/app/admin/frameworks/page.tsx:73-95 | after an edit is closed, reopening for another item or for "add" submits to that item or creates: the closed edit never leaks into the next submit |
| CatalogForms.CourseTitle | src/app/admin/courses/_components/course-form-modal.tsx:42 | "Edit Course" exactly with an edited course, "Add Course" exactly without |
| CatalogForms.CourseFormModal.constructor | src/app/admin/courses/_components/course-form-modal.tsx:21 | both fields empty |
| CatalogForms.CourseFormModal.SyncOnOpen | src/app/admin/courses/_components/course-form-modal.tsx:23-30 | while open both fields come from the edited course, or ""; closed, unchanged |
| CatalogForms.CourseFormModal.SetName | src/app/admin/courses/_components/course-form-modal.tsx:57 | only the name changes |
| CatalogForms.CourseFormModal.SetCode | src/app/admin/courses/_components/course-form-modal.tsx:67 | only the code changes |
| CatalogForms.CourseFormModal.SubmitDisabled | src/app/admin/courses/_components/course-form-modal.tsx:81 | disabled exactly while submitting or with a blank field |
| CatalogForms.CourseFormModal.HandleSubmit | src/app/admin/courses/_components/course-form-modal.tsx:32-36 | submits exactly when neither field is blank, the fields untrimmed; exactly when the idle button is enabled |
| CatalogForms.ResubmitCourse | src/app/admin/courses/_components/course-form-modal.tsx:23-36 | an unchanged edit submits the course's own fields unless one is blank |
| CatalogForms.FrameworkFormModal.constructor | src/app/admin/frameworks/_components/framework-form-modal.tsx:21 | the name is empty |
| CatalogForms.FrameworkFormModal.SyncOnOpen | src/app/admin/frameworks/_components/framework-form-modal.tsx:23-27 | while open the name comes from the edited framework, or ""; closed, unchanged |
| CatalogForms.FrameworkFormModal.SetName | src/app/admin/frameworks/_components/framework-form-modal.tsx:64 | the name is what was typed |
| CatalogForms.FrameworkFormModal.SubmitDisabled | src/app/admin/frameworks/_components/framework-form-modal.tsx:78 | disabled exactly while submitting or with a blank name |
| CatalogForms.FrameworkFormModal.HandleSubmit | src/app/admin/frameworks/_components/framework-form-modal.tsx:29-33 | submits exactly a non-blank name, untrimmed; exactly when the idle button is enabled |
| CatalogForms.FrameworkNameNotTrimmed | src/app/admin/frameworks/_components/framework-form-modal.tsx:32 | " React " is submitted with its spaces |
| UserFormModal.InitialForm | src/app/admin/users/_components/user-form-modal.tsx:23-32 | null names and email become "", role and status are copied |
| UserFormModal.StatusLabel | src/app/admin/users/_components/user-form-modal.tsx:107 | "Active" exactly for a true status, "Suspended" otherwise |
| UserFormModal.AbsentStatusShowsSuspended | src/app/admin/users/_components/user-form-modal.tsx:104-107 | an absent status shows unchecked and "Suspended", like false |
| UserFormModal.InitialFormShowsUser | src/app/admin/users/_components/user-form-modal.tsx:23-107 | a filled form shows the user's fields, null as "", and its status |
| UserFormModal.UserForm.constructor | src/app/admin/users/_components/user-form-modal.tsx:21 | the form starts empty |
| UserFormModal.UserForm.SyncOnOpen | src/app/admin/users/_components/user-form-modal.tsx:23-33 | filled from the user only when open on one; otherwise unchanged |
| UserFormModal.UserForm.SetFirstName | src/app/admin/users/_components/user-form-modal.tsx:60 | only the first name changes |
| UserFormModal.UserForm.SetLastName | src/app/admin/users/_components/user-form-modal.tsx:68 | only the last name changes |
| UserFormModal.UserForm.SetEmail | src/app/admin/users/_components/user-form-modal.tsx:79 | only the email changes |
| UserFormModal.UserForm.SetRole | src/app/admin/users/_components/user-form-modal.tsx:90 | only the role changes |
| UserFormModal.UserForm.SetIsActive | src/app/admin/users/_components/user-form-modal.tsx:105 | only the status changes |
| UserFormModal.UserForm.HandleSubmit | src/app/admin/users/_components/user-form-modal.tsx:35-38 | the form is submitted as it stands |
| UserFormModal.ChangeRoleOnly | src/app/admin/users/_components/user-form-modal.tsx:23-90 | changing only the role submits the user's other fields as loaded |
| UserFormModal.SubmitWithoutUser | src/app/admin/users/_components/user-form-modal.tsx:21-38 | opening without a user submits the empty form |
| DropdownContent.NamePrefixes | src/components/dropdown/dropdown-content.tsx:124-132 | `startsWith("bottom")` and `startsWith("top")` pick out exactly the bottom and top anchors |
| DropdownContent.TransformOf | src/components/dropdown/dropdown-content.tsx:69-113 | a transform exactly for the centre anchors |
| DropdownContent.AnchorPlacement | src/components/dropdown/dropdown-content.tsx:61-119 | bottom anchors at trigger bottom plus offset, top anchors above by height and offset, left and right anchors beside by width and offset, aligned to the named edge or centre |
| DropdownContent.RawClearsTrigger | src/components/dropdown/dropdown-content.tsx:61-119 | with non-negative offset and size the unadjusted content does not overlap the trigger on its side |
| DropdownContent.Content.constructor | src/components/dropdown/dropdown-content.tsx:45 | no position yet |
| DropdownContent.AnchorSwitch | src/components/dropdown/dropdown-content.tsx:61-119 | the raw top and left of each of the twelve anchors and the centring transform exactly for the centre anchors |
| DropdownContent.Content.UpdatePosition | src/components/dropdown/dropdown-content.tsx:51-155 | unchanged without both elements; the anchor's transform; without overflow prevention the raw position; with it only bottom anchors flip up on bottom overflow, only top anchors flip down above the viewport, right overflow shifts left to width minus content minus 8, and left is never negative |
| DropdownContent.FitsHorizontally | src/components/dropdown/dropdown-content.tsx:141-152 | content at most 8 narrower than the viewport ends wholly inside it horizontally |
| DropdownContent.VisibleAfterUpdate | src/components/dropdown/dropdown-content.tsx:154-187 | with both elements measured the content becomes visible |
| DropdownContent.FlipMayLeaveViewport | src/components/dropdown/dropdown-content.tsx:124-129 | a bottom anchor flipped above a trigger near the top ends with a negative top |
| Dropdown.DropdownState.constructor | src/components/dropdown/dropdown.tsx:44 | closed, no listener |
| Dropdown.DropdownState.HandleClick | src/components/dropdown/dropdown.tsx:48 | toggles open; the listener follows |
| Dropdown.DropdownState.HandleClose | src/components/dropdown/dropdown.tsx:49 | closed; the listener removed |
| Dropdown.DropdownState.MouseDown | src/components/dropdown/dropdown.tsx:55-66 | closes exactly when open and the press is outside with both elements attached |
| Dropdown.CloseIsIdempotent | src/components/dropdown/dropdown.tsx:49 | closing twice leaves it closed, like once |
| Dropdown.ClickTwice | src/components/dropdown/dropdown.tsx:48-75 | one click opens and shows the content, a second closes |
| Dropdown.InsidePressKeepsOpen | src/components/dropdown/dropdown.tsx:55-63 | a press inside, or before both elements attach, keeps it open |

## Left out

- Network requests (axios, react-query caching and invalidation), toasts and
  console output: outcomes are parameters and effects are recorded as logs.
- The JWT library: its answer for each string is the `JwtDecoder` parameter;
  signatures are never checked by the code either.
- The date-string branch of `withAuth`'s `exp` (src/lib/auth.ts:53-56): it
  depends on host `Date` parsing; `exp` is a number or absent here.
- The clock: `now` is an integer of seconds passed in. In the session hook it
  is read only when the `decodedUserToken` memo is recomputed
  (`UseUser.UserHook.Render`), as in src/hooks/use-user.tsx:18-26.
- zustand's persist middleware, the JSON form in sessionStorage, the browser's
  `storage` event transport (which does not deliver sessionStorage changes to
  other tabs) and `window.location.reload`: the store is one field, events are
  given, reloads are counted.
- React effect scheduling and asynchronous interleaving: every hook is a
  sequence of step methods.
- Case mapping: `toLowerCase`/`toUpperCase` map ASCII letters only; strings
  are sequences of characters, not UTF-16 code units.
- `z.email()` in src/app/user/register/types.ts:9: the email field is not
  validated.
- Query-string serialisation: a pushed route is its list of parameters.
- Browser geometry: rectangles and viewport sizes are `real` parameters,
  without floating-point rounding.
- `crypto.randomUUID()` and `confirm()`: their results are parameters.
- Rendering, styling and animation of every component.
- The preferences panel's `isEditing` toggle, its reload of the local lists
  from the fetched profile and the save mutation around the PUT request: they
  wrap network calls; only the payload mapping is modelled.
- `DropdownContent.Content.UpdatePosition`: the centring transform is not
  applied to the measured position, as in the source.
- The dropdown's placement as actually reached: `Dropdown` passes neither
  `triggerRef` nor `handleClose` to `DropdownContent`
  (src/components/dropdown/dropdown.tsx:76-87), so the layout effect's
  `triggerRef.current` (src/components/dropdown/dropdown-content.tsx:52) reads
  a property of `undefined` and throws a TypeError the first time the content
  opens, at every use of `Dropdown`
  (src/app/profile/_components/my-user-details.tsx:251,
  src/app/profile/_components/my-user-details.tsx:289,
  src/components/auth/profile.tsx:27, src/app/_auth/authentication.tsx:12,
  src/app/_auth/profile.tsx:14); the type checker would also reject the call,
  since `triggerRef` is a required property. The placement arithmetic is
  therefore never reached through `Dropdown`; the model takes the trigger
  rectangle as given and describes `DropdownContent` used with a trigger
  reference, and its "unchanged without both elements" does not capture the
  throw.
