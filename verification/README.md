# yudogus_app core, modelled in Dafny

This project models the client-side logic of the yudogus_app technical-review
manager: a React single-page application backed by Supabase. The model covers:

- how the authentication provider derives the application `User` from a session
  and an optional `employees` row;
- the provider's state record `{user, loading, error, mounted}` and how startup
  restore, auth events, login, logout and unmount change it;
- the route table `App` builds from `(loading, isAuthenticated, is_manager)`;
- the review-status lookup and colour classes shared by the review pages;
- the review detail screen, the "my reviews" filter and its `isToday` test;
- the scheduling form: the role-to-employee assignment object, the picker, the
  all-roles check and the rows written on submit;
- the client-side join behind an employee's review history;
- the settings page: password checks, profile normalisation, adding a profession;
- the user-creation retry policy with its manual-insert fallback.

Every call to Supabase (auth, queries, inserts) is an input to the model. Each
input describes what the call returned, threw, or how long it took. Clocks
("today", `toISOString()`) and timers are parameters too.

Files, one module each:

- `wrappers.dfy` (`Wrappers`): `Option` and `Result`.
- `js.dfy` (`Js`): the JavaScript semantics the code relies on:
  - truthiness and `||`;
  - `err instanceof Error ? err.message : fallback`;
  - `trim` over the ECMAScript white-space set;
  - one-character `split` and `join`;
  - `Number` on digit strings.
- `identity.dfy` (`Identity`): the profile race and the user derivation.
- `auth_machine.dfy` (`AuthMachine`): the auth provider as a transition system
  over completed operations.
- `auth_service.dfy` (`AuthService`): the thinner `authService` object.
- `routes.dfy` (`Routes`): `App`'s routing.
- `review_status.dfy` (`ReviewStatus`): `getStatusInfo` and `getStatusColor`.
- `review_detail.dfy` (`ReviewDetail`), `my_reviews.dfy` (`MyReviews`),
  `scheduling.dfy` (`Scheduling`), `employee_reviews.dfy` (`EmployeeReviews`),
  `settings.dfy` (`Settings`): one module per page.
- `create_user.dfy` (`CreateUser`): `userService.createUser`.

The model follows the code where its behaviour may be unexpected:

- A status code that `REVIEW_STATUSES` does not map shows the default status,
  exactly like a null code. There is no separate "unknown" status
  (`ReviewStatus.StatusLookupCollapses`).
- Auth completions carry no generation counter, only the `mounted` flag. A late
  completion for an older event overwrites the state a newer one published
  (`AuthMachine.LastCompletionWins`).
- An email without `@` yields the whole email as the fallback name
  (`Identity.NameChain`).
- `AuthContext.logout` does not inspect the `{error}` that `signOut` returns.
  Only a thrown error keeps the user signed in (`AuthMachine.Logout`).
- `login` and `logout` do not consult `mounted`.
- The scheduling page's `selectedEmployees` is a JavaScript object keyed by role
  id. It is kept as a list of properties in insertion order, because
  `Object.entries` and `Object.values` report them in that order.

## Model

| member | source | states |
|---|---|---|
| Identity.Race | src/features/auth/context/AuthContext.tsx:43-56 | The profile query wins `Promise.race` only if it settles before the timer; then it yields its row, or no row when the data is null. A timeout, a rejection or a query that never settles all yield a failure. |
| Identity.RaceMonotone | src/features/auth/context/AuthContext.tsx:49-56 | A longer timer never loses a row that a shorter timer found, and a failure under a longer timer is a failure under a shorter one. This is why SIGNED_IN's 2000 ms budget can miss a row that another event's 5000 ms budget finds. |
| Identity.Resolved | src/features/auth/context/AuthContext.tsx:58-66 | The user copies id, email and creation time from the session. It is a manager exactly when the row's `is_manager` is `true`. Its name is never empty. |
| Identity.DisplayName | src/features/auth/context/AuthContext.tsx:62 | The published name is never empty. It is the profile name when that is non-empty, otherwise the e-mail fallback. |
| Identity.Degraded | src/features/auth/context/AuthContext.tsx:67-77 | The `catch` arm keeps the session's id, email and creation time, gives an email-derived non-empty name, and is never a manager. |
| Identity.DegradedIsNoRow | src/features/auth/context/AuthContext.tsx:62-75 | The degraded user equals the user built when the query found no row. A caller cannot tell a timeout from a missing profile. |
| Identity.NameChain | src/features/auth/context/AuthContext.tsx:62 | The name is the profile name if non-empty. Otherwise it is the email text before its first `@` (the whole email when there is none) if that is non-empty. Otherwise it is "Usuario". |
| Identity.ManagerFlagFailClosed | src/features/auth/context/AuthContext.tsx:63-74 | The manager flag is set only by a found row whose flag is `true`. No row, a timeout or a failure gives `false`. |
| AuthMachine.TimeoutFor | src/features/auth/context/AuthContext.tsx:101 | SIGNED_IN gets a 2000 ms budget. Every other event gets 5000 ms. |
| AuthMachine.IsAuthenticated | src/features/auth/context/AuthContext.tsx:204 | `isAuthenticated` holds exactly when a user is published. |
| AuthMachine.CommandsAuthenticate | src/features/auth/context/AuthContext.tsx:162-204 | After `login`, the flag holds exactly when the profile was fetched or it held before. After `logout`, it holds exactly when `signOut` threw and it held before. |
| AuthMachine.Restore | src/features/auth/context/AuthContext.tsx:26-93 | While mounted, startup restore always ends loading. A session gives the derived user. A session error, a throw or no session gives no user. Once unmounted it changes nothing. |
| AuthMachine.OnEvent | src/features/auth/context/AuthContext.tsx:97-154 | An event without a session clears the user and ends loading. With a session it publishes the raced user. A failed race on SIGNED_IN writes nothing. Once unmounted it changes nothing. |
| AuthMachine.Login | src/features/auth/context/AuthContext.tsx:162-190 | Success clears the error and installs the derived user. A sign-in or query error records its message (or "Error al iniciar sesión"), keeps the user and rethrows. |
| AuthMachine.Logout | src/features/auth/context/AuthContext.tsx:192-201 | Once `signOut` returns, the user and the error are cleared. A throw records the message (or "Error al cerrar sesión"), keeps the user and rethrows. |
| AuthMachine.Teardown | src/features/auth/context/AuthContext.tsx:156-159 | Cleanup clears `mounted` and keeps user, loading and error. |
| AuthMachine.TeardownIsFinal | src/features/auth/context/AuthContext.tsx:156-159 | Teardown is idempotent. After it, no restore or event completion changes the state. |
| AuthMachine.LoadingNeverRestarts | src/features/auth/context/AuthContext.tsx:20-201 | No step sets `loading` back to true, whatever sequence of steps follows. |
| AuthMachine.RestoreEndsLoading | src/features/auth/context/AuthContext.tsx:88-92 | A mounted restore completion ends loading for every later run. |
| AuthMachine.PublishedUsersAreNamed | src/features/auth/context/AuthContext.tsx:59-185 | Every user any step publishes has a non-empty name. |
| AuthMachine.ManagerNeedsFlaggedRow | src/features/auth/context/AuthContext.tsx:63-183 | Over any run, a manager user exists only if it was there already or some step carried a row with `is_manager` true. |
| AuthMachine.LastCompletionWins | src/features/auth/context/AuthContext.tsx:97-129 | When two event completions run back to back, the later one alone decides the state. |
| AuthMachine.SignedInDefersToFollowUp | src/features/auth/context/AuthContext.tsx:100-134 | A profile answering after 3000 ms is missed by SIGNED_IN, which leaves the state untouched, and is then picked up by INITIAL_SESSION. |
| AuthMachine.LoginRepeatable | src/features/auth/context/AuthContext.tsx:162-185 | Repeating a login with the same outcome leaves the state as the first login left it. |
| AuthService.ServiceUser | src/features/auth/services/auth.service.ts:20-26 | The service user has the raw profile name, which is undefined without a row. It is a manager only for a row flagged `true`. |
| AuthService.ServiceAgreesWithContext | src/features/auth/services/auth.service.ts:45-51 | The service user agrees with the context's user except on the name. It agrees on the name too when the profile name is non-empty. With no row, only the context falls back. |
| AuthService.Login | src/features/auth/services/auth.service.ts:5-27 | A sign-in error or a query throw is propagated. Otherwise the result is exactly the service user built from the signed-in user and the profile row (see `AuthService.ServiceUser`). |
| AuthService.LoginErrorPrecedesLookup | src/features/auth/services/auth.service.ts:11 | A failed sign-in gives the same result whatever the profile lookup would have done. |
| AuthService.GetCurrentUser | src/features/auth/services/auth.service.ts:34-52 | A provider error or a missing user gives `null`. Otherwise the result is the service user, or the query's throw. |
| AuthService.Logout | src/features/auth/services/auth.service.ts:29-32 | The result fails exactly when `signOut` returns an error, and with that error. |
| AuthService.GetSession | src/features/auth/services/auth.service.ts:54-58 | The returned error is thrown. Otherwise the session is returned unchanged. |
| Routes.Open | src/App.tsx:21-40 | A visit renders the page of a route with that exact path. Otherwise it redirects to the catch-all target, and then no route has that path. The spinner shows exactly while loading. |
| Routes.AppScreen | src/App.tsx:10-40 | The spinner shows exactly while loading. Otherwise the catch-all redirects to `/login` when unauthenticated and to `/dashboard` otherwise, and that target is always one of the routes. `/login` is offered exactly when unauthenticated. The scheduling page is offered exactly to an authenticated manager. |
| Routes.ScreenFor | src/App.tsx:8-10 | On the provider state, the spinner shows exactly while loading. The redirect goes to `/login` exactly when there is no user. Scheduling is offered exactly when the published user is a manager. |
| Routes.LoadingShowsOnlySpinner | src/App.tsx:10-19 | While loading, every path shows the spinner. |
| Routes.UnauthenticatedSeesOnlyLogin | src/App.tsx:24-28 | Unauthenticated, `/login` is the only page and every other path redirects to it. |
| Routes.ManagerRoutes | src/App.tsx:29-34 | A manager gets the manager dashboard and the scheduling page. Everything else redirects to `/dashboard`. |
| Routes.EmployeeRoutes | src/App.tsx:35-39 | A non-manager gets only the plain dashboard. Everything else redirects to `/dashboard`. |
| Routes.ScheduleOnlyForManagers | src/App.tsx:10-34 | `/reviews/schedule` renders exactly when loading is over, the user is authenticated and the user is a manager. |
| Routes.ScheduleNeedsPublishedManager | src/App.tsx:8-34 | On the provider state, scheduling is reachable exactly when a manager user has been published and loading is over. |
| Routes.RedirectsLand | src/App.tsx:27-38 | Following a redirect once always reaches a page: there are no redirect loops. |
| ReviewStatus.GetStatusInfo | src/features/reviews/pages/ReviewsPage.tsx:58-61 | A null code and an unmapped code both give the default. A mapped code gives its entry. |
| ReviewStatus.StatusLookupCollapses | src/features/reviews/pages/ReviewsPage.tsx:58-61 | The lookup's answer comes from the table or is the default. An unmapped code shows the same as a null one. A mapped non-default entry is distinguishable. |
| ReviewStatus.GetStatusColor | src/features/reviews/pages/ReviewsPage.tsx:63-71 | green, red, amber and gray each get their own class string. Any other colour gets the gray class. |
| ReviewStatus.ColorClassesDistinct | src/features/reviews/pages/ReviewsPage.tsx:64-70 | Among the four known colours, two colours share a class exactly when they are equal. Every other colour renders as gray. |
| ReviewDetail.LoadDetails | src/features/reviews/pages/ReviewDetailPage.tsx:52-102 | Loading ends on every path. A failed query sets the fixed error; a success never clears an earlier one. The review is stored as soon as its query succeeds, so it stays set after a participants failure. A failure keeps the previous participants, and a review failure keeps the previous review. |
| ReviewDetail.Mount | src/features/reviews/pages/ReviewDetailPage.tsx:41-50 | Without a route id, or with an empty one, the effect never loads and the page stays on its initial loading state. With a non-empty id, loading ends and the error is set exactly when a query failed. |
| ReviewDetail.ErrorSticksAcrossReload | src/features/reviews/pages/ReviewDetailPage.tsx:52-100 | After a failed load, a later successful load still shows the error screen, because nothing resets `error`. |
| ReviewDetail.Cards | src/features/reviews/pages/ReviewDetailPage.tsx:257-291 | There is a card exactly for each participant with both an employee and a role. The profession defaults to "Sin profesión". The counts match exactly when every participant is complete. |
| ReviewDetail.View | src/features/reviews/pages/ReviewDetailPage.tsx:147-224 | The badge, class and description come from the status lookup. Project and manager fall back to "N/A". The cards are the displayed participants. |
| ReviewDetail.BadgeAndDescriptionAgree | src/features/reviews/pages/ReviewDetailPage.tsx:167-224 | The badge name and the status description always come from the same table entry, or both from the default. |
| ReviewDetail.ScreenOf | src/features/reviews/pages/ReviewDetailPage.tsx:119-147 | The spinner shows exactly while loading. Otherwise an error is shown, or "Revisión no encontrada" when there is no review. The detail shows exactly when a review is loaded and there is no error, and it is the view of that review and its participants. |
| ReviewDetail.ParticipantsFailureShowsError | src/features/reviews/pages/ReviewDetailPage.tsx:94-135 | A participants failure hides the already loaded review behind the error screen. |
| MyReviews.Filtered | src/features/reviews/pages/MyReviewsPage.tsx:69-74 | Pending keeps exactly the null-status rows. Completed keeps exactly the rest. All keeps everything. |
| MyReviews.FilteredKeepsOrder | src/features/reviews/pages/MyReviewsPage.tsx:69-74 | Filtering a concatenation gives the concatenation of the filtered parts, so query order is preserved. |
| MyReviews.FilteredSingle | src/features/reviews/pages/MyReviewsPage.tsx:69-74 | One participation is kept exactly when its status passes the filter. |
| MyReviews.FiltersPartition | src/features/reviews/pages/MyReviewsPage.tsx:69-74 | "all" is the identity, and pending and completed split the list between them. |
| MyReviews.OnUserOrFilter | src/features/reviews/pages/MyReviewsPage.tsx:36-85 | Without a user id nothing changes. A failed query keeps the old list. Otherwise the list holds exactly the employee's rows that pass the filter. |
| MyReviews.NoUserStaysLoading | src/features/reviews/pages/MyReviewsPage.tsx:33-40 | Without a user the page stays in its loading state. |
| MyReviews.EmptySuffix | src/features/reviews/pages/MyReviewsPage.tsx:177 | The empty-list message names the active filter: "pendientes", "completadas", or nothing for all. |
| MyReviews.IsTodayOfIsoDate | src/features/reviews/pages/MyReviewsPage.tsx:110-121 | A stored `YYYY-MM-DD` date is "today" exactly when its year, month and day equal today's. |
| MyReviews.IsToday | src/features/reviews/pages/MyReviewsPage.tsx:110-121 | Only a text containing `-` can be today. The full characterisation for stored dates is `IsTodayOfIsoDate`. |
| MyReviews.IsTodayDeterminesDate | src/features/reviews/pages/MyReviewsPage.tsx:110-121 | One date text is "today" for at most one calendar date. |
| MyReviews.Card | src/features/reviews/pages/MyReviewsPage.tsx:181-230 | The HOY badge and the attend button both appear exactly when the review date is today. The project falls back to "N/A". |
| Scheduling.Put | src/features/reviews/pages/ScheduleReviewPage.tsx:130-137 | The spread-and-assign adds the role's key to the key set. A new key goes last, and unique keys stay unique. |
| Scheduling.PutLookup | src/features/reviews/pages/ScheduleReviewPage.tsx:130-137 | After the spread-and-assign the role's key holds the new value, and every other key keeps its value. |
| Scheduling.PutKeepsPositions | src/features/reviews/pages/ScheduleReviewPage.tsx:130-137 | Re-selecting for an assigned role keeps every key in its place. |
| Scheduling.SelectEmployee | src/features/reviews/pages/ScheduleReviewPage.tsx:129-139 | The role maps to the employee with "Sin profesión" when the profession is missing. Other roles are untouched. |
| Scheduling.RemoveEmployee | src/features/reviews/pages/ScheduleReviewPage.tsx:150-154 | Exactly the role's key disappears. |
| Scheduling.SelectThenRemove | src/features/reviews/pages/ScheduleReviewPage.tsx:129-154 | Removing a role right after assigning it for the first time restores the object. |
| Scheduling.Available | src/features/reviews/pages/ScheduleReviewPage.tsx:493-496 | The picker offers exactly the non-manager employees not already chosen. |
| Scheduling.AvailableKeepsOrder | src/features/reviews/pages/ScheduleReviewPage.tsx:493-496 | The list for a concatenation is the concatenation of the lists, so loaded order is preserved. |
| Scheduling.AvailableSingle | src/features/reviews/pages/ScheduleReviewPage.tsx:493-496 | One employee is offered exactly when it is not a manager and not already chosen. |
| Scheduling.ChosenEmployeeNotOffered | src/features/reviews/pages/ScheduleReviewPage.tsx:493-496 | An employee chosen for one role is not offered again. |
| Scheduling.Unassigned | src/features/reviews/pages/ScheduleReviewPage.tsx:164 | The unassigned roles are exactly the loaded roles without an employee, and there are no more of them than loaded roles. |
| Scheduling.UnassignedKeepsOrder | src/features/reviews/pages/ScheduleReviewPage.tsx:164 | The filter over a concatenation is the concatenation of the filtered parts, so loaded role order is kept. |
| Scheduling.UnassignedSingle | src/features/reviews/pages/ScheduleReviewPage.tsx:164 | One role is kept exactly when it has no employee. |
| Scheduling.Validate | src/features/reviews/pages/ScheduleReviewPage.tsx:163-169 | There is no error exactly when every loaded role has an employee. Otherwise the message lists the unassigned role names in loaded role order (see `UnassignedKeepsOrder`), joined by ", ". |
| Scheduling.NewForm | src/features/reviews/pages/ScheduleReviewPage.tsx:53-61 | A new form has empty title, description and part, no project and no status. Its date is a prefix of the ISO timestamp that ends at its first `T` (or at its end when there is none). |
| Scheduling.SelectProject | src/features/reviews/pages/ScheduleReviewPage.tsx:141-148 | The project id and name change together. Nothing else changes. |
| Scheduling.ClearProject | src/features/reviews/pages/ScheduleReviewPage.tsx:295 | The project id and name are cleared together. Nothing else changes. |
| Scheduling.Payload | src/features/reviews/pages/ScheduleReviewPage.tsx:172-180 | The payload copies the form without the project name. The manager id is the user's id, or null when it is missing or empty. |
| Scheduling.Rows | src/features/reviews/pages/ScheduleReviewPage.tsx:186-190 | There is one participant row per assignment, in insertion order, with the review id, employee id and role id. |
| Scheduling.Submit | src/features/reviews/pages/ScheduleReviewPage.tsx:156-209 | Validation failure creates nothing. Rows are inserted only after a created review with at least one assignment. A create throw shows its message or "Error al programar la revisión"; an insert error shows the fixed participants message. Navigation happens exactly when no error is left. |
| Scheduling.NavigatedSubmitCoversEveryRole | src/features/reviews/pages/ScheduleReviewPage.tsx:164-203 | A submit that navigates has sent a row for every loaded role, naming the employee chosen for it. |
| EmployeeReviews.Find | src/features/employees/pages/EmployeesPage.tsx:145-148 | `find` gives nothing exactly when no element matches. Otherwise it gives the first matching element: it matches and nothing before it does. |
| EmployeeReviews.FindIsFirst | src/features/employees/pages/EmployeesPage.tsx:145-148 | When element k matches and none before it does, `find` gives element k. |
| EmployeeReviews.Transform | src/features/employees/pages/EmployeesPage.tsx:144-168 | There is one history entry per participant, in order. |
| EmployeeReviews.JoinOne | src/features/employees/pages/EmployeesPage.tsx:144-167 | The entry keeps the participant's id and role. Its defaults are stated by `JoinDefaults`. |
| EmployeeReviews.JoinDefaults | src/features/employees/pages/EmployeesPage.tsx:150-166 | A missing review gives empty texts, "Sin proyecto" and no status. A found review gives its id and its texts, each defaulting to "". The project name is the matching project's name, or "Sin proyecto" when the project list is missing, has no match, or the match has no name. The role name is the first matching role's name, or "Sin rol". The status is null exactly when no fetched status matches. |
| EmployeeReviews.WithIds | src/features/employees/pages/EmployeesPage.tsx:100-103 | `.in('id', ids)` returns exactly the rows whose id is listed. |
| EmployeeReviews.ProjectIds | src/features/employees/pages/EmployeesPage.tsx:126 | The project ids queried are exactly the non-empty project ids of the reviews. |
| EmployeeReviews.StatusIds | src/features/employees/pages/EmployeesPage.tsx:135 | The status ids queried are exactly the reviews' non-null, non-zero status ids. |
| EmployeeReviews.Load | src/features/employees/pages/EmployeesPage.tsx:72-177 | A participants error or no participants stops after one query. A reviews or roles failure stops after the second or third query and keeps the old list. Otherwise five queries run and the list has one entry per participant, in order, with its id and role, and with the participant's review id exactly when the reviews table has that row. |
| EmployeeReviews.Joined | src/features/employees/pages/EmployeesPage.tsx:95-168 | The join over the id-list queries keeps each participant's id and role and shows its review id exactly when the reviews table has that row, "" otherwise. |
| EmployeeReviews.LoadDefaults | src/features/employees/pages/EmployeesPage.tsx:95-166 | In the loaded history, an entry whose review was not returned has empty texts, "Sin proyecto" and no status. One whose role was not returned has "Sin rol". A failed projects query gives "Sin proyecto". |
| EmployeeReviews.ZeroStatusNeverJoined | src/features/employees/pages/EmployeesPage.tsx:135-148 | A review whose status id is 0 is always shown without a status, because `filter(Boolean)` drops 0. |
| EmployeeReviews.ZeroStatusNotMatched | src/features/employees/pages/EmployeesPage.tsx:135-148 | In the join step, a participant whose review has status id 0 matches no fetched status row, since 0 is never among the fetched ids. |
| EmployeeReviews.StatusLabel | src/features/employees/pages/EmployeesPage.tsx:370 | A null status, or one with a null or empty name, shows "En Espera". A named one shows its name. |
| EmployeeReviews.CloseModal | src/features/employees/pages/EmployeesPage.tsx:184-187 | Closing the modal clears both the selected employee and the history list. |
| Settings.SelectedProfessionId | src/features/settings/pages/SettingsPage.tsx:78-82 | The selected profession is the id of the single relation or of the first array element, or "" when there is none. |
| Settings.LoadData | src/features/settings/pages/SettingsPage.tsx:53-100 | Without a user nothing changes. An employee error leaves the form and only records the error. Otherwise the fields are filled, and the professions list is replaced unless its query fails. |
| Settings.ProfileUpdateOf | src/features/settings/pages/SettingsPage.tsx:109-115 | The name is trimmed. The national id is trimmed, or null exactly when it is all white space. The profession is null exactly when it is empty. |
| Settings.ProfileUpdateIdempotent | src/features/settings/pages/SettingsPage.tsx:111-115 | Saving what was saved sends the same update again. |
| Settings.SavedNameNonEmpty | src/features/settings/pages/SettingsPage.tsx:338 | With the save button enabled, the saved name is non-empty and the typed name is not all white space. |
| Settings.SaveProfile | src/features/settings/pages/SettingsPage.tsx:102-130 | Saving sends the normalised update. It leaves "Perfil actualizado correctamente", or the fixed error when the update fails, and saving is off. |
| Settings.Utf16Length | src/features/settings/pages/SettingsPage.tsx:147 | A string's `.length` is at least its code-point count and at most twice that. |
| Settings.PasswordProblem | src/features/settings/pages/SettingsPage.tsx:138-149 | The checks run in source order: empty field, mismatch, then fewer than 6 UTF-16 units. There is no problem exactly when all three pass. |
| Settings.ChangePassword | src/features/settings/pages/SettingsPage.tsx:132-167 | A failed check sends nothing and shows its message. Success happens exactly when the checks pass and the update succeeds; it shows "Contraseña actualizada correctamente" and clears both fields. A failed update shows its message or the fallback and keeps both fields. |
| Settings.SentPasswordIsValid | src/features/settings/pages/SettingsPage.tsx:139-154 | A password is sent only when both fields agree and it has at least 6 UTF-16 units. |
| Settings.EnabledPasswordButton | src/features/settings/pages/SettingsPage.tsx:419 | With the button enabled, the empty-field message cannot occur. The mismatch and length checks still can fail. |
| Settings.AddProfession | src/features/settings/pages/SettingsPage.tsx:169-203 | A blank name is refused. Otherwise the trimmed name is inserted. On success the row is appended and selected, the modal closes and the name clears. On failure the message is shown. |
| Settings.EnabledAddButtonSends | src/features/settings/pages/SettingsPage.tsx:488 | With the create button enabled, the trimmed name is always sent. |
| Settings.AddedProfessionSelected | src/features/settings/pages/SettingsPage.tsx:187-191 | After a successful add, the old professions keep their order and the last one is the selected profession. |
| CreateUser.FieldsOf | src/features/users/services/user.service.ts:20-24 | The metadata copies the name. The national id is null exactly when it is missing or empty. The manager flag is true only for `true`. |
| CreateUser.Backoff | src/features/users/services/user.service.ts:50-53 | Attempt k waits 1000·k ms. |
| CreateUser.FirstFound | src/features/users/services/user.service.ts:61-65 | The loop stops at the first fetch that returned data without an error. |
| CreateUser.Expected | src/features/users/services/user.service.ts:6-99 | A sign-up error or a missing user stops everything. The admin session is restored only if one existed. The first good fetch wins; only five failed fetches trigger the manual insert. A failed insert throws its message or "Error desconocido". |
| CreateUser.CreateUserCall | src/features/users/services/user.service.ts:45-95 | The retry loop, one attempt per iteration, agrees with `Expected` on every input. |
| CreateUser.WaitIsBounded | src/features/users/services/user.service.ts:47-53 | The waits total at most 15 seconds. A manual insert happens only after all five fetches failed. |
| Js.TrimIsMaximalStrip | src/features/settings/pages/SettingsPage.tsx:112-113 | `trim` returns a slice with no white space at either end, which is empty exactly when the input is all white space. |
| Js.TrimIdempotent | src/features/settings/pages/SettingsPage.tsx:112-113 | Trimming twice is trimming once. |
| Js.JoinSplit | src/features/reviews/pages/MyReviewsPage.tsx:114 | Joining the parts of a split with the same separator gives back the input. |
| Js.SplitJoin | src/features/reviews/pages/MyReviewsPage.tsx:114 | Splitting a join of separator-free parts gives back the parts. |
| Js.DecimalRoundTrip | src/features/reviews/pages/MyReviewsPage.tsx:114 | The decimal text of a number consists of digits and parses back to that number. |

## Left out

- Timers and asynchronous interleaving: each asynchronous operation is one step
  applied when it completes, with its outcome (and for races, its timing) as input.
- Supabase server-side work: joins, ordering (`order('name')`, date order) and
  the status filters run on the server. Query results are inputs, except where
  the client combines rows itself (`WithIds` and the employee history join).
- `REVIEW_STATUSES` and `DEFAULT_STATUS` live in a types file that is not part of
  this model. The status table is a parameter.
- Date and number formatting with `toLocaleDateString`, and all JSX layout,
  icons and styles beyond the status class strings.
- React Router's case-insensitive and trailing-slash matching: paths match
  exactly.
- Inherited `Object.prototype` keys: `colors["constructor"]` and
  `selectedEmployees["constructor"]` are treated as absent.
- Integer-like property names, which JavaScript objects enumerate before other
  keys: `selectedEmployees` keeps plain insertion order (role ids are UUIDs).
- React discards state updates after unmount. `login` and `logout` do not check
  `mounted`, and the model applies them as written.
- The CRUD wrappers `getEmployees`, `getEmployeeById`, `updateEmployee` and
  `deleteEmployee` only forward a query and rethrow its error. Login form
  handling, `loadEmployees` and the projects and roles loaders only fill lists
  from queries.
- Console logging and the `setSession` call itself: only whether the session is
  restored is recorded.
- Identity.Race: a query settling at exactly the timeout instant counts as a
  timeout. JavaScript's timer ordering at that instant is not modelled.
- Js.ToNumber: `Number` is modelled for decimal digit strings with surrounding
  white space, and the empty string (0). Signs, decimals, exponents and hex
  forms give "not a number".
- Js.Trim: strings are sequences of code points. UTF-16 surrogate handling
  matters only for `.length`, which `Settings.Utf16Length` models.
- MyReviews.OnUserOrFilter: the pending/completed filter and the employee's rows
  are applied client-side in the model. The code asks the server for them.
- Settings.SaveProfile: the reload after a successful save is a following
  `Settings.LoadData` step, not part of this function.
- CreateUser.Expected: a manual insert that returns neither an error nor a row
  is not represented (`InsertOutcome` is a row or an error). The code would then
  return `null` through `employeeData!`.
