# Task manager client core, in Dafny

This project models the client-side logic of a small Vue task manager (inbox, board, planner and profile pages behind a local sign-in), and proves properties of that model. Each source file maps to one module:

- **Form engine** (`Form`, src/composable/useForm.ts). A class holds the state:
  - `values`, `errors` and `touched`;
  - `isSubmitting`;
  - a fixed validation policy (onSubmit, onBlur or onChange);
  - a `watching` flag that stands for the onChange deep watcher;
  - the caller's `initial` object itself (a `PlainObject` the caller may go on changing), which a `reset()` without argument reads as it is at that moment.

  The schema is an abstract validator with two parts: one rule per field, giving the issues of a value, and a whole-object parse, giving canonical data or issues. The submit callback's outcome is an input. The class covers `setValue`, `onBlur`, `validateField`, `validateCurrent`, `reset`, `handleSubmit` and `stopValidationWatcher`, and each is stated against pure functions of the inputs (`FieldErrors`, `FormErrors`).
- **Issue folding** (`Issues`, `Validator`, src/composable/useValidator.ts). Both the validator and the form engine fold an issue list into an error map: each issue overwrites the entry under its key, so the last issue for a key wins. The validator's key is the dotted path, or `form` for an empty path. The form engine's key is the first path segment.
- **Schemas** (`Zod`, `AuthSchema`, `InboxSchema`, src/schemas/*.ts). `Zod` is a small interpreter for the zod features the schemas use: strings with min-length, email, datetime and pattern checks; enums; arrays; optional fields; objects. The login, forgot-password and inbox-task schemas are instances of it. `ZodForm` presents a zod object schema as the form engine's validator. The `plannerDate` pattern is written out exactly. The email and datetime tests and zod's default message texts are parameters.
- **Password hashing** (`Secure`, src/utils/secure.ts). The SHA-256 digest is a parameter. The UTF-8 encoding before it is modelled exactly. So is the rendering after it: lowercase hex, two zero-padded digits per byte, with a decoder proving the rendering is one-to-one.
- **Auth store** (`Auth`, src/stores/useAuth.ts). A class over the user table and the password-free session user. It covers login (which doubles as registration), password reset, profile merge, setting the session and logout.
- **Inbox store** (`Inbox`, src/stores/useInbox.ts). A class over the stored task list, the in-memory `tasks`, `loading` and `error`. `getAll` only reads storage. `create`, `delete` and an `update` whose id is found re-read storage, write the changed list back and reload. An `update` whose id is missing records `Task not found` and writes nothing. An unreadable storage entry makes `create`, `update` and `delete` throw, and makes `getAll` record an error.
- **Board store** (`Board`, src/stores/useBoard.ts). It finds the selected task and builds three subtask patches through pure list transforms, sent through the inbox store's `update`.
- **Router** (`Router`, src/main.ts). The route table as data, with its `requiresAuth` meta. It also covers path resolution with redirects, and the `beforeEach` guard with a proof that the guard never redirects twice.

Fresh ids (`uuidv4`, `crypto.randomUUID`) and the current time are method parameters.

The model follows these behaviours of the code, which are easy to misread:

- Whole-form validation keeps the **last** issue per key (src/composable/useForm.ts:95-98).
- An issue with an empty path is filed by the form engine under the key `undefined`, because `issue.path[0]` is undefined. The validator, by contrast, files it under `form` (src/composable/useForm.ts:96, src/composable/useValidator.ts:18).
- `reset` copies the source over `values` with `Object.assign`, which deletes no stale keys (src/composable/useForm.ts:55).
- Passing the submit gate does not mean the form parses. Under onBlur or onChange the error map can be stale and empty, and the second parse then throws before the callback runs. `Form.StaleGateUnderOnBlur` shows one such run.

## Model

| member | source | states |
|---|---|---|
| Issues.Decimal | src/composable/useValidator.ts:18 | an array-index path segment renders as a non-empty run of decimal digits |
| Issues.Join | src/composable/useValidator.ts:18 | joining an empty path gives the empty string; joining a one-segment path gives that segment's text |
| Issues.LastWins | src/composable/useValidator.ts:17-20 | the fold of no issues is empty, and the last issue's key always holds the last issue's message |
| Issues.LastWinsSnoc | src/composable/useValidator.ts:17-20 | folding one more issue sets exactly that issue's key to its message and leaves the rest of the map |
| Issues.LastWinsAppendOne | src/composable/useValidator.ts:17-20 | appending zero or one issue changes at most that issue's key |
| Issues.LastWinsKeys | src/composable/useValidator.ts:16-22 | the error map has an entry for a key exactly when some issue is filed under it |
| Issues.LastWinsValue | src/composable/useValidator.ts:17-20 | the entry under a key is the message of the last issue with that key |
| Issues.LastWinsFrom | src/composable/useValidator.ts:16-22 | every entry holds the message of some issue filed under that key |
| Issues.LastWinsSize | src/composable/useValidator.ts:16-22 | the map never has more entries than there are issues |
| Validator.FieldOf | src/composable/useValidator.ts:18 | the key is never empty; an empty path gives `form`; a one-segment path whose text is not empty gives that text |
| Validator.RecordIssues | src/composable/useValidator.ts:17-20 | the loop builds exactly the last-wins fold of the issues under the dotted key |
| Validator.Validate | src/composable/useValidator.ts:6-23 | `ok` exactly when the schema accepts, with its parsed data; otherwise the errors are the last-wins fold of the issues under the dotted key, with one entry per distinct key and no more entries than issues |
| Wrappers.Lookup | src/composable/useForm.ts:72 | reading a property gives its value exactly when the object has it, `undefined` otherwise |
| Wrappers.FindFirst | src/stores/useAuth.ts:32 | `findIndex`: no index exactly when no element satisfies the test, else the first index that does |
| Form.FirstKey | src/composable/useForm.ts:96 | an empty path gives the key `undefined`; a property segment gives its name; an index segment gives a non-empty run of decimal digits |
| Form.FirstMessage | src/composable/useForm.ts:76 | the first issue's message when it is non-empty, else `Invalid`; never empty |
| Form.FieldErrors | src/composable/useForm.ts:69-79 | a field without a rule leaves the map unchanged; a passing field loses its entry; a failing field gets its first message; no other key changes |
| Form.FormErrors | src/composable/useForm.ts:81-101 | empty when the parse succeeds; otherwise the keys are exactly the issues' first path segments, each holding the message of the last issue with that key |
| Form.FormErrorsEmpty | src/composable/useForm.ts:81-107 | whole-form validation leaves no error exactly when the parse succeeds or reports no issue |
| Form.FormEngine.constructor | src/composable/useForm.ts:7-33 | values start as a copy of the properties of `initial`, with no errors, nothing touched and not submitting; the mode defaults to onSubmit; the watcher exists exactly under onChange; the form keeps the caller's `initial` object, not a copy |
| Form.FormEngine.ValidateField | src/composable/useForm.ts:69-79 | the new error map is `FieldErrors` of the old one |
| Form.FormEngine.ClearErrors | src/composable/useForm.ts:57-59 | deleting keys one by one empties the error map |
| Form.FormEngine.ValidateCurrent | src/composable/useForm.ts:81-101 | the new error map is `FormErrors` of the current values, whatever it was before, so running it twice gives the same map |
| Form.FormEngine.Watch | src/composable/useForm.ts:27-33 | while watching, a change of values is followed by whole-form validation; otherwise errors stay |
| Form.FormEngine.SetValue | src/composable/useForm.ts:35-43 | the value is written and its error removed; under onBlur a touched field is re-validated; under onSubmit, or onBlur with the field untouched, every other error entry is unchanged |
| Form.FormEngine.OnBlur | src/composable/useForm.ts:45-50 | the field joins `touched` and nothing leaves it; under onBlur the field is validated |
| Form.FormEngine.ClearTouched | src/composable/useForm.ts:61-63 | deleting keys one by one empties `touched` |
| Form.FormEngine.Reset | src/composable/useForm.ts:52-66 | the source is `newInitial`, else the caller's `initial` object as it is now; every key of the source takes the source's value and every other key keeps its value; the caller's object is not changed; errors and touched are empty and `isSubmitting` is false, unless the onChange watcher refills errors |
| Form.FormEngine.HandleSubmit | src/composable/useForm.ts:103-116 | under onSubmit it validates first; with errors it returns without the callback and leaves `isSubmitting`; otherwise it calls the callback with the parsed data, or reports the throwing parse, and `isSubmitting` ends false |
| Form.FormEngine.StopValidationWatcher | src/composable/useForm.ts:123-125 | the watcher is gone afterwards; outside onChange nothing changes |
| Form.StaleGateUnderOnBlur | src/composable/useForm.ts:103-111 | under onBlur an untouched, invalid form passes the gate and the parse throws before the callback |
| Form.ResetReadsCallerObject | src/composable/useForm.ts:52-55 | after the caller changes `initial`, `reset()` restores the changed value, and editing the form never reaches the caller's object |
| Zod.Utf16Length | src/schemas/auth.schema.ts:4 | `length` counts UTF-16 units, between one and two per character |
| Zod.Under | src/schemas/auth.schema.ts:3-8 | nested issues keep their count and messages and gain the segment in front of their paths |
| Zod.SingleCheck | src/schemas/auth.schema.ts:4-7 | a string schema with one check raises exactly that check's issues |
| Zod.ElementIssuesEmpty | src/schemas/inbox.schema.ts:9 | an array passes exactly when every element passes |
| Zod.ObjectIssuesSnoc | src/schemas/auth.schema.ts:3-8 | one more field adds that field's issues, under its name, after the others |
| Zod.ObjectIssues2 | src/schemas/auth.schema.ts:10-14 | the issues of a two-field object, field by field in order |
| Zod.ObjectIssues3 | src/schemas/auth.schema.ts:3-8 | the issues of a three-field object, field by field in order |
| Zod.ObjectIssuesEmpty | src/schemas/auth.schema.ts:3-8 | an object passes exactly when every field passes |
| Zod.ObjectIssuesHas | src/schemas/auth.schema.ts:3-8 | each issue a field raises appears in the object's issues under the field's name |
| Zod.ObjectIssuesFrom | src/schemas/auth.schema.ts:3-8 | each issue of an object lies under some field's name and comes from that field's rule |
| ZodForm.ShapeMapKeys | src/composable/useForm.ts:71 | `schema.shape` names exactly the shape's fields |
| ZodForm.ShapeMapAt | src/composable/useForm.ts:71 | with distinct names, each field's `schema.shape` entry runs that field's rule |
| ZodForm.FormErrorsAreFields | src/composable/useForm.ts:95-98 | over a zod object, whole-form errors are only filed under field names |
| AuthSchema.UsernameRuleSpec | src/schemas/auth.schema.ts:4 | a username shorter than 3 fails with the one username message, otherwise it passes |
| AuthSchema.EmailRuleSpec | src/schemas/auth.schema.ts:5 | an email the email test rejects fails with `Invalid email`, otherwise it passes |
| AuthSchema.PasswordRuleSpec | src/schemas/auth.schema.ts:6-7 | a password shorter than 8 fails with the one password message, otherwise it passes |
| AuthSchema.LoginIssues | src/schemas/auth.schema.ts:3-8 | a login form's issues, exactly: at most one per field, in field order, with the field's message |
| AuthSchema.ForgotIssues | src/schemas/auth.schema.ts:10-14 | a forgot-password form's issues, exactly |
| AuthSchema.ForgotIsLoginWithoutUsername | src/schemas/auth.schema.ts:10-14 | the forgot-password schema is the login schema without `username`, and has exactly the fields email and password |
| AuthSchema.LoginParseSpec | src/schemas/auth.schema.ts:3-8 | a login form passes exactly when username and password are long enough and the email test accepts the email, and then parses to itself |
| AuthSchema.ForgotParseSpec | src/schemas/auth.schema.ts:10-14 | a forgot-password form passes exactly when the email is accepted and the password is long enough |
| AuthSchema.LoginErrors | src/stores/useAuth.ts:80-84 | the error map of a failing login form has an entry exactly for each failing field, holding that field's message |
| AuthSchema.ForgotErrors | src/stores/useAuth.ts:55-59 | the error map of a failing forgot-password form, field by field |
| InboxSchema.TitleSpec | src/schemas/inbox.schema.ts:4 | a title passes exactly when it is a string of length at least 1 |
| InboxSchema.DescriptionSpec | src/schemas/inbox.schema.ts:5 | a description passes exactly when absent or a string |
| InboxSchema.TimestampSpec | src/schemas/inbox.schema.ts:6-7 | `createdAt` and `updatedAt` pass exactly when absent or a string the datetime test accepts |
| InboxSchema.StatusSpec | src/schemas/inbox.schema.ts:8 | status passes exactly when it is one of inbox, archived, done |
| InboxSchema.TagsSpec | src/schemas/inbox.schema.ts:9 | tags pass exactly when absent or an array of strings |
| InboxSchema.PrioritySpec | src/schemas/inbox.schema.ts:10 | priority passes exactly when absent or one of low, medium, high |
| InboxSchema.PlannerDateSpec | src/schemas/inbox.schema.ts:11 | `plannerDate` passes exactly when absent or a string matching `^\d{4}-\d{2}-\d{2}$` |
| InboxSchema.DateTextMatches | src/schemas/inbox.schema.ts:11 | every zero-padded year-month-day text matches the pattern, whatever the month and day |
| InboxSchema.DigitGroupsMatch | src/schemas/inbox.schema.ts:11 | four, two and two ASCII digits joined by dashes match the pattern |
| InboxSchema.PlannerDateIsDateText | src/schemas/inbox.schema.ts:11 | every string the pattern accepts is such a text |
| InboxSchema.NoRangeCheck | src/schemas/inbox.schema.ts:11 | `2024-99-99` passes: there is no calendar check |
| InboxSchema.PaddedValue | src/schemas/inbox.schema.ts:11 | reading back a zero-padded number gives the number |
| InboxSchema.ValuePadded | src/schemas/inbox.schema.ts:11 | padding the value of a digit string gives the string back |
| InboxSchema.InboxTaskParse | src/schemas/inbox.schema.ts:3-12 | a task passes exactly when all eight fields pass |
| InboxSchema.OptionalFieldsMayBeAbsent | src/schemas/inbox.schema.ts:5-11 | description, timestamps, tags, priority and `plannerDate` may be absent |
| Secure.Utf8Char | src/utils/secure.ts:2-3 | a character encodes to 1 to 4 bytes: one byte, its code, exactly for ASCII; otherwise a lead byte and continuation bytes |
| Secure.Utf8Encode | src/utils/secure.ts:2-3 | the encoding has between one and four bytes per character, and exactly one for ASCII text |
| Secure.Utf8Ascii | src/utils/secure.ts:2-3 | ASCII text encodes to its character codes |
| Secure.Radix16 | src/utils/secure.ts:5 | `toString(16)` has one digit exactly below 16, and two digits from 16 to 255 |
| Secure.PadStart | src/utils/secure.ts:5 | `padStart` keeps a long-enough string, else left-fills with zeros to the width, keeping the string as suffix |
| Secure.ByteHexDigits | src/utils/secure.ts:5 | each byte becomes exactly two lowercase hex digits, high nibble then low nibble |
| Secure.Hex | src/utils/secure.ts:5 | the rendering is twice as long as the digest |
| Secure.HexAt | src/utils/secure.ts:5 | byte i is rendered at characters 2i and 2i+1 |
| Secure.HexChars | src/utils/secure.ts:5 | every character is one of `0-9a-f` |
| Secure.UnHexHex | src/utils/secure.ts:5 | decoding a rendering gives the bytes back |
| Secure.HexUnHex | src/utils/secure.ts:5 | whatever decodes is the rendering of what it decodes to |
| Secure.HexInjective | src/utils/secure.ts:5 | distinct byte sequences render to distinct strings |
| Secure.HashPw | src/utils/secure.ts:1-6 | the hash is 64 lowercase hex characters |
| Secure.VerifyPw | src/utils/secure.ts:8-11 | only 64 lowercase hex characters can verify, and a password's own hash does |
| Secure.VerifyPwSpec | src/utils/secure.ts:8-11 | a hash verifies exactly when it decodes to the password's digest; a password verifies against its own hash; a hash of the wrong length or with a non-lowercase-hex character never verifies |
| Auth.FindEmail | src/stores/useAuth.ts:32 | `findIndex` by email: no index exactly when no user has the email, else the first such user |
| Auth.PasswordChangeKeepsDistinct | src/stores/useAuth.ts:72 | changing one password keeps emails and usernames pairwise distinct |
| Auth.RegistrationKeepsDistinct | src/stores/useAuth.ts:102-112 | appending a user with a new email and an unused username keeps them distinct |
| Auth.Merge | src/stores/useAuth.ts:35 | the password is never changed by a profile patch, and an empty patch changes nothing |
| Auth.MergeSpec | src/stores/useAuth.ts:35 | an empty patch changes nothing; merging twice is merging once; the password is kept; patched username and email win |
| Auth.AuthStore.constructor | src/stores/useAuth.ts:12-14 | the session starts as the one left in storage |
| Auth.AuthStore.IsLoggedIn | src/stores/useAuth.ts:17 | signed in exactly when a session user is set |
| Auth.AuthStore.SetSession | src/stores/useAuth.ts:41-45 | the session becomes the user without the password; signed in; the table is unchanged |
| Auth.AuthStore.Logout | src/stores/useAuth.ts:47-51 | the session is cleared and the table is unchanged |
| Auth.AuthStore.UpdateUser | src/stores/useAuth.ts:28-39 | a no-op when signed out or when the session's email is not in the table; otherwise the patch is merged into the first account with that email and the session is taken from it |
| Auth.AuthStore.Forgot | src/stores/useAuth.ts:53-76 | an invalid form gives `invalid model data` with the field errors; an unknown email gives `User not found`; otherwise only the first matching account's password becomes the new hash; the session never changes; distinct accounts stay distinct |
| Auth.AuthStore.Login | src/stores/useAuth.ts:78-117 | an invalid form gives `invalid model data` with the errors and no change; a known email signs in as the stored account when the password verifies, else `Incorrect password` and no change; a new email with a taken username gives `should be unique name`; otherwise exactly one account is appended and signed in; distinct accounts stay distinct |
| Inbox.NormaliseAll | src/stores/useInbox.ts:12-15 | count and order are kept, every task is unchanged except for missing subtasks, which become `[]` |
| Inbox.NormaliseAllFixes | src/stores/useInbox.ts:9-16 | loading an already-loaded list gives it back |
| Inbox.LoadTasks | src/stores/useInbox.ts:9-16 | loading fails exactly on an unreadable entry, else gives the normalised list |
| Inbox.FindTask | src/stores/useInbox.ts:54 | `findIndex` by id: no index exactly when no task has the id, else the first such task |
| Inbox.Fresh | src/stores/useInbox.ts:39-45 | a new task has the given id, no subtasks, and both timestamps set to now, whatever the draft said |
| Inbox.ApplyPatch | src/stores/useInbox.ts:59-63 | a patched task is stamped with now and keeps its subtasks present |
| Inbox.ApplyPatchSpec | src/stores/useInbox.ts:59-63 | an empty patch only stamps the time; patching twice is patching once; for each of the ten properties, a carried value wins and an absent one keeps the task's, and `updatedAt` is now |
| Inbox.UpdateAt | src/stores/useInbox.ts:53-63 | update fails exactly when no task has the id; otherwise the length is kept and only the first task with the id is patched and stamped |
| Inbox.UpdateAtNormalised | src/stores/useInbox.ts:53-63 | a successful update keeps loaded tasks normalised |
| Inbox.RemoveById | src/stores/useInbox.ts:70 | no remaining task has the id, every remaining task was there, and every task without the id remains |
| Inbox.RemoveByIdAppend | src/stores/useInbox.ts:70 | removal distributes over concatenation, so the order of the rest is kept |
| Inbox.RemoveByIdAbsent | src/stores/useInbox.ts:70 | removing an absent id is the identity |
| Inbox.RemoveByIdIdempotent | src/stores/useInbox.ts:70 | removing twice is removing once |
| Inbox.RemoveByIdNormalised | src/stores/useInbox.ts:70 | removal keeps loaded tasks normalised |
| Inbox.InboxStore.constructor | src/stores/useInbox.ts:22-36 | the store loads once on creation, or records `Failed to load tasks` |
| Inbox.InboxStore.GetAll | src/stores/useInbox.ts:27-36 | `tasks` becomes the loaded list, or keeps its value with `error` set to `Failed to load tasks`; `loading` ends false |
| Inbox.InboxStore.SaveTasks | src/stores/useInbox.ts:18-20 | storage holds the given list |
| Inbox.InboxStore.Create | src/stores/useInbox.ts:38-50 | exactly one fresh task is appended to the stored list and `tasks` mirrors storage; an unreadable entry throws and writes nothing |
| Inbox.InboxStore.Update | src/stores/useInbox.ts:52-66 | a missing id sets `Task not found` and writes nothing; otherwise only the first task with the id is patched and `tasks` mirrors storage; an unreadable entry throws |
| Inbox.InboxStore.Remove | src/stores/useInbox.ts:68-73 | every task with the id is dropped from storage and `tasks` mirrors storage; an unreadable entry throws |
| Board.FindById | src/stores/useBoard.ts:11-13 | `find` by id: none exactly when no task has the id, else the first such task |
| Board.AppendSubtask | src/stores/useBoard.ts:22-25 | exactly one subtask is appended after the old ones, which are unchanged |
| Board.SetStatus | src/stores/useBoard.ts:31-33 | length, order, ids and titles are kept; subtasks with the id get the status, all others are unchanged |
| Board.SetStatusSpec | src/stores/useBoard.ts:31-33 | setting a status twice is setting it once; an absent id changes nothing |
| Board.AddPatchApplied | src/stores/useBoard.ts:22-26 | on the stored task, the add patch sets the subtasks to the board's subtasks plus the new one, copies the board's id, title and status, takes each optional property (`createdAt` included) from the board when it has one and from the stored task otherwise, and stamps `updatedAt` |
| Board.SubtasksPatchApplied | src/stores/useBoard.ts:37-40 | on the stored task, `{subtasks: xs}` makes the subtasks exactly `xs` and changes nothing else but the time stamp |
| Board.BoardStore.constructor | src/stores/useBoard.ts:8-9 | no task is selected at first |
| Board.BoardStore.SelectedTask | src/stores/useBoard.ts:11-13 | the first in-memory inbox task with the selected id, or none exactly when no task has it |
| Board.BoardStore.AddSubtask | src/stores/useBoard.ts:15-27 | a no-op without a selected task; otherwise the inbox update with the selected task plus a new `todo` subtask |
| Board.BoardStore.UpdateSubtaskStatus | src/stores/useBoard.ts:29-35 | a no-op without a selected task; otherwise the inbox update with its subtasks' status set |
| Board.BoardStore.UpdateAllSubtasks | src/stores/useBoard.ts:37-40 | a no-op without a selected task; otherwise the inbox update with `{subtasks: xs}` |
| Router.FindChild | src/main.ts:40-46 | the first nested route whose full path is the path, or none exactly when none is |
| Router.MatchFrom | src/main.ts:17-49 | a match names a record, and a nested route of an exact record |
| Router.PublicPages | src/main.ts:18-35 | `/`, `/login` and `/forgot-password` resolve to themselves and need no session |
| Router.AppPages | src/main.ts:36-46 | the four app pages resolve to themselves and need a session |
| Router.AppRoot | src/main.ts:45 | `/app` redirects to `/app/inbox`, which needs a session |
| Router.NoAppChild | src/main.ts:40-46 | no other path matches a nested route of `/app` |
| Router.OtherPaths | src/main.ts:48 | every other path falls to the catch-all and ends at `/` |
| Router.Resolve | src/main.ts:17-49 | a navigation ends at its own path or at a redirect target of the table, `/` or `/app/inbox` |
| Router.RouteTable | src/main.ts:17-49 | how every path resolves, with its `requiresAuth` meta |
| Router.Guard | src/main.ts:58-68 | the guard redirects only to `/login` or `/app/inbox`, never a signed-in user to `/login` and never a signed-out user to `/app/inbox` |
| Router.GuardSpec | src/main.ts:58-68 | signed out, a protected route goes to `/login`; signed in, `/login` goes to `/app/inbox`; every other navigation proceeds |
| Router.NoLoop | src/main.ts:58-68 | wherever the guard redirects, it lets that navigation through |
| Router.ResolveSettles | src/main.ts:17-49 | the location a path resolves to resolves to itself |

## Left out

- Vue reactivity is not modelled: `reactive`, `toRefs`, `ref` and `computed` become plain fields and functions. The onChange deep watcher is a `watching` flag. It runs whole-form validation at the end of each operation that changed `values`. This is a synchronous stand-in for Vue's scheduled flush.
- Form.FormEngine.Reset: field values are opaque, so the nested arrays and objects that the shallow copies `{ ...initial }` and `{ ...source }` share between `values` and the caller's object are not modelled; only top-level properties are copied, and an in-place change of a nested value would show on both sides.
- Form.FormEngine.ValidateCurrent: exceptions from the parse other than a validation error are not modelled, because the abstract parse always returns an outcome.
- Form.FormEngine.HandleSubmit: the callback is synchronous and its outcome is an input. `await` and submission re-entrancy are not modelled.
- Zod internals are not modelled: the email and datetime tests and the default message texts are parameters. Values other than strings and arrays are one indistinct `Other`.
- `localStorage` and `JSON` are not modelled. The user table, the session and the task list are fields. For tasks, text that `JSON.parse` rejects is the `Unreadable` storage state. JSON dropping `undefined` properties is not modelled.
- Auth.AuthStore.Login: a corrupt users entry, on which `getUsers` throws, is not modelled; the same holds for Forgot and UpdateUser.
- Auth.AuthStore.UpdateUser: a patch property explicitly set to `undefined` is not modelled, nor a `password` property smuggled in at run time. Uniqueness of emails and usernames is not re-checked and is not claimed.
- Secure.HashPw: SHA-256 is a parameter returning 32 bytes. Strings are sequences of Unicode scalar values, so the lone surrogates that `TextEncoder` replaces are not representable.
- `sleep(1000)` and every `async`/`await` are dropped.
- Inbox.Fresh: `data` is taken to hold only the schema's fields, so an `id` property smuggled into it at run time, which `...data` would let override the fresh id, is not modelled.
- Inbox.NormaliseAll: a falsy non-array `subtasks` value, which `||` would also replace, is not modelled.
- Board.BoardStore.UpdateSubtaskStatus: it requires the inbox invariant, under which the in-memory tasks always carry subtasks. So the `subtasks?.map` branch that yields `undefined` is not modelled.
- Router.Resolve: vue-router's own path matching is not modelled: case-insensitivity, trailing slashes, query, hash and ranking by specificity. Matching is by exact path, in declaration order, with nested routes before their parent. This agrees with vue-router on this table.
- Router.AppRoot: the relative redirect `inbox` is resolved against the parent path `/app`. vue-router's resolution against the current location is not modelled.
- src/composable/useTheme.ts and src/composable/useToast.ts are UI plumbing and not part of this model. So is the static menu data in src/constants/index.ts.
- App bootstrap in src/main.ts (`createApp`, `createPinia`, `createRouter`, `mount`) is not part of this model.
- The `InboxTask` and `SubTask` types are not declared in src/interfaces/index.ts. Their fields are inferred from use, and a subtask status is any string.
