# TEEMO to-do app: a verified model of its logic

TEEMO is a single-component React to-do app. Its accounts and tasks live in
one persisted store `{ users, tasks, nextUserId, nextTaskId }`. The model
covers four parts:

- the declarative field validator `validate`;
- the `handle*` functions that update the store and the session (signed-in
  user, current screen, search keyword, error and success messages, and the
  e-mail and code of a password recovery);
- `getTasks`, which shows the signed-in user's tasks;
- the buttons that move between screens, and the render guards that mount
  the signed-in screens only while someone is signed in.

`todo.js` is an earlier copy of the same app without the password-recovery
flow. Its validator (todo.js lines 5-45), handlers (lines 71-221) and
`getTasks` (lines 224-238) are the same code as in todo.jsx, so they are
modelled by the same definitions, restricted to the controls todo.js has. The sprint board's `onDragEnd` (`src/pages/Board.jsx`) moves a card
within a column or between columns. It is modelled as a pure function on a
map from column id to card list.

Every handler is a function `App -> App`, where `App` is the store
together with the session. The four handlers used on the signed-in screens
(profile update, add, complete and delete task) require a current user. The
host calls become parameters:

- the random recovery code is a parameter in 1000..9999;
- the current time is an integer parameter;
- the answer to `confirm(...)` is a boolean parameter.

A user action is an `Event` (a button, or typing into the search box).
`Step` applies an event only when its control is on the mounted screen, and
`Run` replays a sequence of events.

Modules, one per file:

- `Base`: `Option`.
- `Seqs`: `Find`, which is `Array.prototype.find`, and `Filter`.
- `Text`: the string functions JavaScript provides, which are white space
  and `trim`, `toLowerCase`, `includes`, decimal rendering, and the e-mail
  pattern.
- `Validation`: `validate`.
- `Records`: the store and its updates.
- `Search`: `getTasks`.
- `Service`: the handlers.
- `Navigation`: events, screens, render guards and reachable states.
- `Legacy`: `todo.js`.
- `Board`: `onDragEnd`.

## Behaviour of the code worth knowing

- "Resend Code" (todo.jsx:457) only returns to the e-mail form and clears the error; it does not issue a new code. The kept code is not cleared, but it can never be entered again: the code form is reached only through a successful request, which replaces the code (todo.jsx:115-122), and a successful reset clears it (todo.jsx:159-160). The `ResendCode` event models exactly this.
- "Create New Account" (todo.jsx:368), "Profile" (todo.jsx:704), "New Task" (todo.jsx:734) and "Back to Tasks" (todo.jsx:600) change the screen and leave `error` as it was. `ApplyPlain` gives each button exactly the state changes its handler makes.
- Toggling a task the signed-in user does not own still hands a new store to `setDb`, and that store equals the old one (`Records.UnownedIsNoOp`).

## Model

| member | source | states |
|---|---|---|
| Text.TrimStart | todo.jsx:12 | `trim` drops a white-space prefix and nothing more: what is left does not start with white space |
| Text.TrimEnd | todo.jsx:12 | `trim` drops a white-space suffix and nothing more: what is left does not end with white space |
| Text.TrimEmptyIffBlank | todo.jsx:12 | `value.trim() === ''` holds exactly for the empty and the white-space-only strings |
| Text.Lower | todo.jsx:298-301 | lower-casing keeps the length, turns each upper-case ASCII letter into its lower-case letter, and keeps every other character in place |
| Text.LowerIgnoresCase | todo.jsx:298-301 | two strings that differ only in the case of ASCII letters lower to the same string |
| Text.Includes | todo.jsx:300-301 | `includes` holds exactly when the needle occurs at some position of the haystack |
| Text.Decimal | todo.jsx:114 | `toString()` of a natural number is a non-empty string of digits |
| Text.DecimalRoundTrip | todo.jsx:114 | reading the decimal rendering back gives the number |
| Text.DecimalInjective | todo.jsx:114 | different codes render as different strings |
| Text.FourDigits | todo.jsx:114 | a code in 1000..9999 renders as exactly four digits |
| Text.EmailMatchesPattern | todo.jsx:16 | the test `^[^\s@]+@[^\s@]+\.[^\s@]+$` holds exactly for an e-mail with no white space, exactly one `@`, a non-empty local part, and a `.` in the domain that is neither its first nor its last character |
| Seqs.Find | todo.jsx:85 | `find` returns nothing exactly when no element satisfies the test; otherwise it returns the first element that does |
| Seqs.FilterMultiset | todo.jsx:295-301 | `filter` keeps every satisfying element as often as it occurs and drops the others |
| Validation.Message | todo.jsx:12-39 | every rule's message is non-empty |
| Validation.FirstFailure | todo.jsx:11-41 | the inner loop stops at the first failing rule; it finds none exactly when every rule passes |
| Validation.FieldMessage | todo.jsx:11-41 | a field records a message exactly when one of its rules fails, and then it is the message of the first failing rule, which is non-empty |
| Validation.ValidateSpec | todo.jsx:5-45 | `success` holds exactly when no field's rules fail; each field records the message of its own first failing rule (nothing when all pass); only rule fields are recorded, and each at most once |
| Validation.Validate | todo.js:5-45 | `success` holds exactly when no field recorded a message |
| Validation.SurfacedIsFirstErroredField | todo.jsx:81 | `Object.values(errors)[0]` is the message of the first field, in rules order, whose rules fail |
| Validation.SurfacedNonEmpty | todo.jsx:81 | a failed validation always surfaces a non-empty error |
| Validation.RequiredRejectsBlank | todo.jsx:12 | `required` fails exactly on an empty or white-space-only value |
| Validation.FormatRulesSkipEmpty | todo.jsx:16-33 | `email`, `minLength` and `maxLength` never fail on an empty or missing value |
| Validation.ValidateFields | todo.jsx:8-44 | a form of up to three fields passes exactly when each of its fields passes |
| Records.InitialValid | todo.jsx:51 | the default store `{[], [], 1, 1}` satisfies the store invariant: counters above every id, distinct ids, distinct e-mails, every task owned by a stored user |
| Records.EmailOwner | todo.jsx:107 | the lookup by e-mail finds nothing exactly when no user has that e-mail; otherwise it finds a stored user with it |
| Records.CredentialsOwner | todo.jsx:85 | the credential lookup finds nothing exactly when no user matches both e-mail and password; otherwise it finds a stored user that does |
| Records.CredentialsUnique | todo.js:83 | with distinct e-mails, the credential lookup for a stored user's e-mail and password finds that user |
| Records.EmailTakenByOther | todo.jsx:213 | the check holds exactly when a user with a different id has the e-mail |
| Records.AddUser | todo.jsx:189-193 | registering appends the user with id `nextUserId`, raises that counter by one and leaves the tasks alone |
| Records.AddUserKeepsValid | todo.js:107-123 | registering a new e-mail keeps the store invariant, and the new id is fresh |
| Records.Patch | todo.jsx:221-222 | a profile patch keeps the id and creation time, sets the e-mail, and keeps the old password when the new one is empty |
| Records.UpdateUser | todo.jsx:218-225 | the user with the id is patched and every other user is unchanged |
| Records.UpdateUserKeepsValid | todo.jsx:213-225 | a profile update whose e-mail no other user holds keeps the store invariant |
| Records.UpdateUserChangesOne | todo.js:148-157 | with distinct ids, only the signed-in user's record changes |
| Records.SetPassword | todo.jsx:148-155 | a reset changes the password of the users with the recovered e-mail and nothing else |
| Records.SetPasswordKeepsValid | todo.jsx:148-155 | a reset keeps the store invariant |
| Records.SetPasswordChangesOne | todo.jsx:148-155 | with distinct e-mails, exactly the account with that e-mail gets the new password |
| Records.AddTask | todo.jsx:241-257 | adding appends a task with id `nextTaskId`, the owner's id, `completed = false`, and raises that counter by one |
| Records.AddTaskKeepsValid | todo.js:173-187 | adding a task for a stored user keeps the store invariant |
| Records.Toggle | todo.jsx:264-271 | toggling flips `completed` on the tasks with the id owned by the user and leaves every other task as it was, in place |
| Records.ToggleKeepsValid | todo.jsx:264-271 | toggling keeps the store invariant |
| Records.ToggleTwice | todo.jsx:264-271 | toggling twice gives the store back |
| Records.ToggleFlipsOne | todo.jsx:264-271 | with distinct ids, toggling an owned task flips that one task |
| Records.Delete | todo.jsx:278-281 | deleting keeps exactly the tasks that are not both matching and owned, and no counter goes down |
| Records.DeleteKeepsValid | todo.jsx:278-281 | deleting keeps the store invariant |
| Records.DeleteRemovesOne | todo.jsx:278-281 | with distinct ids, deleting an owned task removes that one task and keeps the rest in order |
| Records.UnownedIsNoOp | todo.js:193-212 | toggling or deleting an id the user does not own leaves the store unchanged |
| Search.Insert | todo.jsx:305-307 | inserting into a sorted list keeps it sorted and adds one element |
| Search.SortMultiset | todo.jsx:305-307 | the sort is a permutation |
| Search.SortStable | todo.jsx:305-307 | the sort is stable: tasks with equal keys keep their order |
| Search.SortedUnique | todo.jsx:305-307 | two sorted lists that agree per key are equal, so every stable sort by the key gives the same result |
| Search.TwoFilters | todo.jsx:295-303 | the owner filter followed by the keyword filter (when the keyword is non-empty) selects the tasks that pass both, in store order |
| Search.VisibleIsStableSortOfSelected | todo.jsx:294-308 | `getTasks` is sorted by due time, falling back to creation time; it holds every selected task as often as stored and nothing else; equal keys keep store order |
| Search.KeywordCaseInsensitive | todo.jsx:298-301 | the keyword test ignores ASCII letter case: tasks whose titles and contents differ only in case, tested with keywords that differ only in case, get the same answer |
| Search.VisibleOnlyOwn | todo.js:224-238 | nobody sees another user's task, and nothing is shown when nobody is signed in |
| Service.LoginRulesMeaning | todo.jsx:75-78 | the login form passes exactly for a valid e-mail and a non-blank password |
| Service.RegisterRulesMeaning | todo.jsx:166-170 | the registration form passes exactly for a valid e-mail, a non-blank password of at least 8 characters, and an identical confirmation |
| Service.ProfileRulesMeaning | todo.jsx:202-206 | the profile form passes exactly for a valid e-mail and a password that is empty or at least 8 characters |
| Service.TaskRulesMeaning | todo.jsx:234-236 | the task form passes exactly for a non-blank title of at most 50 characters |
| Service.RecoveryRulesMeaning | todo.jsx:98-100 | the recovery form passes exactly for a valid e-mail |
| Service.ResetRulesMeaning | todo.jsx:138-141 | the reset form passes exactly for a non-blank password of at least 8 characters and an identical confirmation |
| Service.HandleLogin | todo.jsx:73-93 | login succeeds exactly for valid input that matches a stored account; it then signs in the first matching user and opens the list. Otherwise only the error changes, to "Email or password incorrect" when no account matches. A failed validation sets `error` to the message of the first errored field |
| Service.HandleForgotPassword | todo.jsx:96-123 | with a stored e-mail it keeps the code as four digits and the e-mail, then opens the code screen. An unknown e-mail sets "Email not found" and nothing else. A failed validation sets `error` to the message of the first errored field |
| Service.HandleVerifyCode | todo.jsx:126-133 | it advances to the reset screen exactly when the input equals the kept code; otherwise it sets "Invalid code" and nothing else |
| Service.HandleResetPassword | todo.jsx:136-161 | a valid new password is stored for the recovered e-mail; the recovery fields are cleared, the success message is set and the login screen opens. Otherwise only the error changes. A failed validation sets `error` to the message of the first errored field |
| Service.HandleRegister | todo.jsx:164-197 | registering succeeds exactly for a valid form with an unused e-mail. It appends the user with the old counter as id, signs that user in and opens the list. A taken e-mail sets "This email is already in use"; every failure leaves the store unchanged. A failed validation sets `error` to the message of the first errored field |
| Service.HandleUpdateProfile | todo.jsx:200-229 | it succeeds exactly for a valid form whose e-mail no other user holds. It then patches the stored user and the signed-in user identically and sets the success message. An e-mail held by another id sets "Email already in use"; a failure clears the success message and changes nothing else; the screen never changes. A failed validation sets `error` to the message of the first errored field |
| Service.HandleAddTask | todo.jsx:232-260 | a valid title appends the signed-in user's task and returns to the list; otherwise only the error changes. A failed validation sets `error` to the message of the first errored field |
| Service.HandleCompleteTask | todo.jsx:263-272 | only the store changes: the signed-in user's task with the id is toggled |
| Service.HandleDeleteTask | todo.jsx:275-282 | an unconfirmed delete changes nothing; a confirmed one deletes the signed-in user's task with the id |
| Service.HandleLogout | todo.jsx:285-291 | sign-out clears the user, the keyword and both messages, and opens the login screen; the store is unchanged |
| Navigation.StartInv | todo.jsx:59-66 | the first load satisfies the invariant |
| Navigation.StepKeepsInv | todo.jsx:352-880 | every control keeps the invariant. The invariant: the store invariant holds; someone is signed in exactly on the profile, list and new-task screens; the signed-in user is a stored record; on the code and reset screens the kept e-mail belongs to an account and the code is four digits |
| Navigation.PlainStepKeepsInv | todo.jsx:359-826 | the navigation-only buttons keep the invariant |
| Navigation.PlainKeepsAccount | todo.jsx:359-826 | the buttons that only navigate (including "Resend Code", todo.jsx:457) change neither the store, the signed-in user, nor the kept recovery e-mail and code |
| Navigation.RunKeepsInv | todo.jsx:352-880 | every sequence of actions keeps the invariant |
| Navigation.ScreenAlwaysRendered | todo.jsx:896-903 | in every reachable state the render guards mount the screen named by `screen` |
| Navigation.RowOwned | todo.jsx:758-799 | each displayed row is a stored task of the signed-in user |
| Navigation.ResetOnlyAfterCode | todo.jsx:126-133 | the reset screen is entered only from the code screen, by entering the kept code |
| Navigation.SignInOnlyByCredentials | todo.jsx:89-92 | someone signs in only by a credential match on the login form or by a successful registration |
| Navigation.CountersNeverDecrease | todo.jsx:189-193 | no action lowers an id counter |
| Navigation.OthersTasksUntouched | todo.jsx:263-282 | no action of a signed-in user adds, removes or changes another user's task |
| Navigation.DeleteRowRemovesIt | todo.jsx:799 | a confirmed delete on a row removes exactly that task from the store and keeps the rest in order |
| Navigation.ToggleRowFlipsIt | todo.jsx:763 | the check button of a row flips exactly that task |
| Navigation.RegisterLogoutLogin | todo.jsx:164-197 | after registering and signing out, the new account signs in with its password |
| Navigation.Recover | todo.jsx:96-161 | requesting a code, entering it and giving a new password changes exactly the password of that account and returns to login with the success message |
| Navigation.RecoverThenLogin | todo.jsx:136-161 | after a recovery the account signs in with its new password |
| Legacy.SignInStaysOut | todo.js:71-127 | login and registration in todo.js never open a recovery screen or fill the recovery fields |
| Legacy.AccountStaysOut | todo.js:130-221 | profile update, adding a task and sign-out in todo.js never open a recovery screen or fill the recovery fields |
| Legacy.RowStaysOut | todo.js:193-212 | toggle and delete in todo.js never open a recovery screen or fill the recovery fields |
| Legacy.PlainStaysOut | todo.js:274-544 | the navigation buttons of todo.js lead only to its own screens |
| Legacy.ClickStaysOut | todo.js:240-592 | no control of todo.js opens a recovery screen or fills the recovery fields |
| Legacy.ReplayStaysOut | todo.js:58-238 | every sequence of actions in todo.js keeps the invariant and stays clear of the recovery flow |
| Legacy.ReplayIsRun | todo.js:266-592 | a bridge that holds by the definition of a todo.js click: on sequences of the controls todo.js has, its replay is the todo.jsx run, so every `Run` lemma applies to todo.js |
| Legacy.LegacyAlwaysRendered | todo.js:607-611 | in every reachable state of todo.js the root component mounts the current screen, and a signed-in screen only for a signed-in user |
| Board.RemoveAt | src/pages/Board.jsx:17 | `splice(i, 1)` keeps the cards before `i` and shifts the later ones down by one |
| Board.InsertAt | src/pages/Board.jsx:18 | `splice(i, 0, x)` puts `x` at `i`, or at the end when `i` is past it, and shifts the later cards up by one |
| Board.RemoveInsert | src/pages/Board.jsx:17-18 | removing an inserted card gives the list back |
| Board.InsertRemove | src/pages/Board.jsx:17-18 | putting a removed card back where it was gives the list back |
| Board.OnDragEnd | src/pages/Board.jsx:9-34 | a drop outside every column changes nothing; the set of columns is kept; columns other than the source and the destination are unchanged |
| Board.SameColumnMove | src/pages/Board.jsx:15-20 | a move within a column keeps its length and its cards; the dragged card lands at the drop index; the other cards keep their order |
| Board.CrossColumnMove | src/pages/Board.jsx:24-33 | a move across columns removes the card from its source, which shrinks by one, and puts it at the drop index of the destination, which grows by one; both keep the order of their other cards |
| Board.TotalPreserved | src/pages/Board.jsx:24-33 | the number of cards across all columns never changes |

## Left out

- Persistence (`localStorage`, `JSON.parse`/`JSON.stringify`, `saveDB` and its `useEffect`) is I/O. The store value stands for what is persisted, and `initDB` is modelled by its default only.
- `Math.random` is floating point. The recovery code is a parameter in 1000..9999, which is the range `Math.floor(1000 + Math.random() * 9000)` yields.
- `alert`, `console.log` and the screens' markup are output only and are not modelled.
- `confirm(...)` is a host dialog. Its answer is the boolean `confirmed` of `DeleteRow`.
- `new Date().toISOString()` and the `new Date(...)` comparison in the sort are replaced by caller-supplied integer timestamps. An empty due-date input is `None`, so the sort falls back to the creation time. How `Date` parses the two differing string formats is not modelled.
- Text.Lower: `toLowerCase` is modelled for ASCII letters only; Unicode case mapping is left out.
- Text.IsSpace: `\s` and `trim` are both modelled by the ECMAScript white-space and line-terminator set. String length is the length of the character sequence, not the UTF-16 count.
- React mechanics are not modelled. State updates apply in sequence, with no batching and no stale closures, such as `db.nextUserId` read while the update uses `prev`.
- The profile screen's local `isEditing` flag is not modelled. `EditProfile` and `CancelEdit` model only their effect on the shared messages. The save button's `if (!error) setIsEditing(false)` reads the error from before the save, which is a UI quirk.
- The form screens' local input state is not modelled; the values an event carries are what the inputs held.
- A task row is named by its position in the displayed list. The task id the row passes to the handler is the id of that displayed task.
- Service.HandleUpdateProfile, Service.HandleAddTask, Service.HandleCompleteTask and Service.HandleDeleteTask require someone to be signed in, because the render guards mount their screens only while someone is signed in. Called without a user, the source reads `currentUser.id` of `null` and throws only on some paths: after the form validates (profile, add task), or when a task with the id exists (complete, confirmed delete). Those signed-out calls are not modelled.
- Board.OnDragEnd requires that both columns exist and that the source index lies inside its column. The drag-and-drop library guarantees this. A destination index past the end is clamped the way `splice` clamps it, and negative indices cannot arise.
- `Validation.Validate` requires distinct field names, as the keys of an object literal are.
- The validator's rules are a closed datatype, so parsing rule strings (`startsWith`, `split`, `parseInt`) and rule strings that match no variant are left out. `Object.values` order is modelled as the rules' order, which it is for the non-numeric field names the app uses.
- The dashboard, layout, mock data and build configuration files, and the board's `Column` component, are presentation only.
