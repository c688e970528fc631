# Classroom dashboard: a Dafny model of its client-side logic

The dashboard is a thin web UI over a hosted backend with three boards and a
theme switch:

- the **task board** fetches the tasks, asks the backend for the profiles of
  their authors and joins them on the client; it filters by status, counts
  the tasks of each status, offers a create/edit form, and labels due dates as
  overdue or due today;
- the **announcements board** fetches announcements and posts new ones with a
  title, a body and tags toggled from a fixed vocabulary of four;
- the **presence board** fetches the roster and counts the profiles seen in
  the last minute;
- the **dashboard page** resolves the light/dark preference at startup and
  toggles it.

Each board is a `class` whose fields are the component's React state. Each
handler is a method that takes the backend's outcome as a parameter
(`Backend.Response`: rows, `null` data, an error, or a rejected promise;
`Backend.WriteResult` for writes) and states the new state. The list logic
(the join, the filters, the counts, the tag toggle, trimming) is pure
functions with lemmas.

Modules: `Backend` (outcomes, `Option`), `Text` (ECMAScript `trim`),
`Lists` (`[...new Set(xs)]` and `filter(y => y !== x)`), `TasksBoard`,
`AnnouncementsBoard`, `OnlineStudents`, `Dashboard`.

Modelling choices:

- JavaScript truthiness is written out. An empty due-date string counts as no
  due date. A user whose id is `''` counts as not signed in (`!user?.id`). An
  empty `data` array is still data: it replaces the announcements and the
  roster.
- `trim` strips ECMAScript's WhiteSpace and LineTerminator characters.
- Dates are integers (milliseconds). Parsing a task's due date is a parameter
  `instantOf: string -> int`. The calendar day of an instant is a parameter
  `dayOf: int -> int`. The current time `now` is a parameter.
- The browser is three values: `hasWindow` (the `typeof window` guard), the
  `dark` class flag and a `map<string, string>` for `localStorage`. The media
  query is an `Option<bool>`, `None` when `matchMedia` is missing.
- Toggling a selected tag twice is sometimes described as restoring the
  selection. The code restores which tags are selected, but the tag moves to
  the end of the list. The model follows the code
  (`AnnouncementsBoard.ToggleTwicePresent`).
- `fetchTasks` catches exceptions, so a rejected task query or profile lookup
  leaves `tasks = []`. A failed lookup that returns an error instead gives the
  tasks with no profiles. `fetchAnnouncements` and `fetchProfiles` have no
  `try`, so a rejected request ends them before `loading` is cleared. The
  model keeps all three behaviours.

## Model

| member | source | states |
|---|---|---|
| `Text.Trim` | src/components/TasksBoard.tsx:124 | the result has no whitespace at either end, is no longer than the input, and is empty exactly when the input is blank |
| `Text.TrimOfPadded` | src/components/TasksBoard.tsx:124 | any blank prefix and blank suffix around a text with no whitespace at its ends is exactly what `trim` strips |
| `Text.TrimIdempotent` | src/components/TasksBoard.tsx:124 | trimming twice gives the same text as trimming once |
| `Lists.Distinct` | src/components/TasksBoard.tsx:66 | `[...new Set(xs)]` has no duplicates and the same elements as `xs` |
| `Lists.RemoveAll` | src/components/AnnouncementsBoard.tsx:103 | the result holds exactly the elements different from the removed one |
| `TasksBoard.UserIds` | src/components/TasksBoard.tsx:66 | the ids sent to the profile lookup are free of duplicates and are exactly the tasks' `user_id`s |
| `TasksBoard.ProfilesMap` | src/components/TasksBoard.tsx:78-80 | the map's keys are exactly the user ids of the fetched profiles |
| `TasksBoard.ProfilesMapLastWins` | src/components/TasksBoard.tsx:78-80 | when a user id occurs more than once, the map keeps its last profile row |
| `TasksBoard.AttachProfiles` | src/components/TasksBoard.tsx:83-86 | same length and every original row kept in place; a task gets a profile iff its author is a key, and then that key's profile |
| `TasksBoard.JoinTasks` | src/components/TasksBoard.tsx:72-86 | same length and order, rows untouched; a task gets a profile iff its `user_id` is among the fetched profiles; a lookup error gives every task no profile |
| `TasksBoard.JoinAttachesLastProfile` | src/components/TasksBoard.tsx:78-86 | the profile attached to a task is the last fetched profile with its author's id |
| `TasksBoard.FetchedTasks` | src/components/TasksBoard.tsx:42-96 | a query error, a rejected request or `null` data leaves no tasks; a rejected lookup leaves no tasks; otherwise the joined list |
| `TasksBoard.Board.FetchTasks` | src/components/TasksBoard.tsx:42-96 | `tasks` becomes the joined list, `loading` is false on every path, the lookup asks for the distinct user ids only when there are tasks, nothing else changes |
| `TasksBoard.EmptyIfNull` | src/components/TasksBoard.tsx:179-180 | the form shows `''` exactly for a missing or empty stored value, and otherwise the stored value |
| `TasksBoard.NullIfEmpty` | src/components/TasksBoard.tsx:142 | the empty due date is sent as `null`; any other due date is sent as typed |
| `TasksBoard.NullIfBlank` | src/components/TasksBoard.tsx:141 | a blank description becomes `null`; any other description is sent as `Trim` of the typed text, which is non-empty and trimmed |
| `TasksBoard.NullEmptyRoundTrip` | src/components/TasksBoard.tsx:180 | a stored due date shown in the form (`''` when missing) and sent back (`null` when `''`) comes back as stored, unless it was stored as `''`; the description goes back through `NullIfBlank` instead |
| `TasksBoard.SignedIn` | src/components/TasksBoard.tsx:129 | a user counts as signed in exactly when present with a non-empty id |
| `TasksBoard.Payload` | src/components/TasksBoard.tsx:139-144 | the title is `Trim` of the typed title, empty iff blank; the description is `null` iff blank, otherwise `Trim` of the typed description; the due date is `null` iff empty, otherwise as typed; the status is kept |
| `TasksBoard.PayloadOfNormalFields` | src/components/TasksBoard.tsx:176-183 | fields in the form the board sends survive filling the form and sending it again unchanged |
| `TasksBoard.PayloadStable` | src/components/TasksBoard.tsx:139-144 | what is sent for a non-blank title is in normal form, and resending it from a refilled form sends the same fields |
| `TasksBoard.SubmitRequest` | src/components/TasksBoard.tsx:123-172 | no write iff the title is blank after trim or a create has no signed-in user; otherwise an update of the edited task's id or an insert with the user's id, with the normalised fields |
| `TasksBoard.EditSubmitRoundTrip` | src/components/TasksBoard.tsx:123-183 | for a task whose stored fields are already in the form the board writes (trimmed non-empty title, no blank or untrimmed description, no empty due date), opening it for editing and saving it untouched sends those fields back, whether or not a user is signed in |
| `TasksBoard.WithStatus` | src/components/TasksBoard.tsx:211 | the filtered list holds exactly the tasks of that status and is no longer than the input |
| `TasksBoard.WithStatusConcat` | src/components/TasksBoard.tsx:211 | filtering distributes over concatenation, so the kept tasks keep their original order |
| `TasksBoard.WithStatusAllMatch` | src/components/TasksBoard.tsx:211 | a list whose every task has the status is kept whole |
| `TasksBoard.VisibleTasks` | src/components/TasksBoard.tsx:209-211 | filter `'all'` shows `tasks` unchanged; a status filter shows exactly the tasks of that status |
| `TasksBoard.Counts` | src/components/TasksBoard.tsx:213-217 | no card counts more tasks than there are |
| `TasksBoard.CountIsFilteredLength` | src/components/TasksBoard.tsx:209-217 | each card's count equals the length of the list its filter shows |
| `TasksBoard.CountsPartition` | src/components/TasksBoard.tsx:213-217 | todo + doing + done = `tasks.length` |
| `TasksBoard.CountSplice` | src/components/TasksBoard.tsx:213-217 | adding one task anywhere raises its own status's count by one and leaves the other counts unchanged |
| `TasksBoard.NextFilter` | src/components/TasksBoard.tsx:240 | clicking card k gives `'all'` iff the filter already was k, and k otherwise |
| `TasksBoard.NextFilterTwice` | src/components/TasksBoard.tsx:240 | two clicks on card k return to the start iff the start was `'all'` or k; in particular from `'all'` |
| `TasksBoard.IsOverdue` | src/components/TasksBoard.tsx:333 | only a task with a due date can be overdue, and a done task never is |
| `TasksBoard.IsDueToday` | src/components/TasksBoard.tsx:334 | a task is due today exactly when it has a due date falling on the calendar day of `now` |
| `TasksBoard.DueLabelOf` | src/components/TasksBoard.tsx:407-413 | no due-date line iff no due date; the overdue label iff overdue; the due-today label iff due today and not overdue; never overdue when done |
| `TasksBoard.StatusAndDueDate` | src/components/TasksBoard.tsx:333-334 | a done task is never overdue; a task not done is overdue iff it has a due date strictly before now; status plays no part in due-today |
| `TasksBoard.ShowsOwnerActions` | src/components/TasksBoard.tsx:379 | edit and delete are shown iff the viewer is the task's author |
| `TasksBoard.Board.constructor` | src/components/TasksBoard.tsx:31-40 | the initial state: no tasks, loading, dialog closed, blank form, filter `'all'`, not submitting |
| `TasksBoard.Board.ResetForm` | src/components/TasksBoard.tsx:115-121 | the form becomes `''`/`''`/`''`/`'todo'`, no task is being edited, nothing else changes |
| `TasksBoard.Board.SetDialogOpen` | src/components/TasksBoard.tsx:263-266 | the dialog takes the new state; closing it resets the form |
| `TasksBoard.Board.HandleEdit` | src/components/TasksBoard.tsx:176-183 | the form shows the task's title and status, null description and due date as `''`; the task is being edited and the dialog is open |
| `TasksBoard.Board.HandleSubmit` | src/components/TasksBoard.tsx:123-174 | sends `SubmitRequest`'s write; with no write nothing changes; on success the form resets and the dialog closes; on error the form, the edited task and the dialog are kept; `submitting` ends false |
| `TasksBoard.Board.ClickStatusCard` | src/components/TasksBoard.tsx:240 | the filter becomes `NextFilter` of the old one and the shown list is that filter's view of `tasks`; nothing else changes |
| `TasksBoard.EditAndSave` | src/components/TasksBoard.tsx:123-183 | for a task whose stored fields are already in the form the board writes, editing it and saving it untouched on a successful write sends those fields and leaves a blank form and a closed dialog |
| `AnnouncementsBoard.ToggleTag` | src/components/AnnouncementsBoard.tsx:101-105 | a present tag is removed (every occurrence) and the others stay; an absent tag is appended at the end |
| `AnnouncementsBoard.ToggleTwiceAbsent` | src/components/AnnouncementsBoard.tsx:101-105 | toggling an absent tag twice restores the list exactly |
| `AnnouncementsBoard.ToggleTwicePresent` | src/components/AnnouncementsBoard.tsx:101-105 | toggling a present tag twice restores membership, with the tag moved to the end |
| `AnnouncementsBoard.ToggleKeepsDistinct` | src/components/AnnouncementsBoard.tsx:101-105 | toggling keeps a list free of duplicates and changes its length by exactly one |
| `AnnouncementsBoard.ToggleKeepsValid` | src/components/AnnouncementsBoard.tsx:171-178 | toggling an offered tag keeps the selection a duplicate-free subset of the four options |
| `AnnouncementsBoard.TagColor` | src/components/AnnouncementsBoard.tsx:109-116 | every string outside the four options gets the default class, and each option a different one |
| `AnnouncementsBoard.TagColorLength` | src/components/AnnouncementsBoard.tsx:109-116 | helper of `TagColorsDistinct`: the classes of the four options have lengths 35, 44, 56 and 55, which tells them apart |
| `AnnouncementsBoard.TagColorsDistinct` | src/components/AnnouncementsBoard.tsx:109-116 | the four options get four distinct classes |
| `AnnouncementsBoard.ShowsDelete` | src/components/AnnouncementsBoard.tsx:217 | the delete button is shown iff the viewer is the author |
| `AnnouncementsBoard.SubmitRequest` | src/components/AnnouncementsBoard.tsx:66-78 | no insert iff the title or the body is blank after trim; otherwise `Trim` of the typed title and body (both non-empty), the selected tags and `user?.id` |
| `AnnouncementsBoard.SubmitTrimmedText` | src/components/AnnouncementsBoard.tsx:73-78 | already trimmed text is sent as typed |
| `AnnouncementsBoard.Board.constructor` | src/components/AnnouncementsBoard.tsx:29-35 | the initial state: no announcements, loading, empty form, valid empty selection |
| `AnnouncementsBoard.Board.FetchAnnouncements` | src/components/AnnouncementsBoard.tsx:37-47 | rows replace the list; no data keeps the previous list; `loading` becomes false unless the request was rejected |
| `AnnouncementsBoard.Board.ClickTag` | src/components/AnnouncementsBoard.tsx:171-178 | the selection becomes `ToggleTag` of the old one and stays valid |
| `AnnouncementsBoard.Board.SetDialogOpen` | src/components/AnnouncementsBoard.tsx:137 | the dialog takes the new state and the form is kept |
| `AnnouncementsBoard.Board.HandleSubmit` | src/components/AnnouncementsBoard.tsx:66-90 | sends `SubmitRequest`'s insert; with none nothing changes; on success title, body and tags clear and the dialog closes; on error they are kept; `submitting` ends false |
| `OnlineStudents.IsOnline` | src/components/OnlineStudents.tsx:55-58 | a profile is online exactly when it was last seen less than 60000 ms before `now` |
| `OnlineStudents.OnlineBoundary` | src/components/OnlineStudents.tsx:55-58 | seen exactly 60000 ms ago is offline, 59999 ms ago online, and a last-seen time in the future online |
| `OnlineStudents.OfflineStaysOffline` | src/components/OnlineStudents.tsx:55-58 | offline at time t means offline at every later time |
| `OnlineStudents.OnlineProfiles` | src/components/OnlineStudents.tsx:64 | the filtered roster holds exactly the profiles online at `now` |
| `OnlineStudents.OnlineCount` | src/components/OnlineStudents.tsx:64 | the online count is at most the roster's length |
| `OnlineStudents.OnlineCountExtremes` | src/components/OnlineStudents.tsx:64 | the count is the roster's length when all are online and 0 when none is |
| `OnlineStudents.OnlineCountConcat` | src/components/OnlineStudents.tsx:64 | the count of a joined roster is the sum of the counts |
| `OnlineStudents.OnlineCountMonotone` | src/components/OnlineStudents.tsx:55-64 | with no new presence the count can only fall as time passes |
| `OnlineStudents.Roster.constructor` | src/components/OnlineStudents.tsx:18-19 | the initial state: no profiles, loading |
| `OnlineStudents.Roster.ShownOnlineCount` | src/components/OnlineStudents.tsx:64-96 | the displayed online count never exceeds the displayed total |
| `OnlineStudents.Roster.FetchProfiles` | src/components/OnlineStudents.tsx:21-31 | rows replace the roster; no data keeps the previous roster; `loading` becomes false unless the request was rejected |
| `Dashboard.StoredTheme` | src/pages/Dashboard.tsx:19 | a value is read exactly when the `theme` key is stored, and it is the stored value |
| `Dashboard.ShouldUseDark` | src/pages/Dashboard.tsx:19-21 | stored `'dark'` gives dark; any other non-empty stored value gives light; absent or `''` follows the system preference, light without `matchMedia` |
| `Dashboard.ThemeValue` | src/pages/Dashboard.tsx:38-44 | the toggle stores `'dark'` for the dark theme and `'light'` for the light one |
| `Dashboard.StoredChoiceWins` | src/pages/Dashboard.tsx:19-44 | the value the toggle stores decides the next startup, whatever the system preference |
| `Dashboard.Page.constructor` | src/pages/Dashboard.tsx:14 | `isDark` starts false |
| `Dashboard.Page.ApplyStartupTheme` | src/pages/Dashboard.tsx:16-30 | with a window, `isDark` becomes `ShouldUseDark` of the stored value and the class agrees; storage is untouched; without a window nothing changes |
| `Dashboard.Page.ToggleTheme` | src/pages/Dashboard.tsx:32-45 | with a window, `isDark` flips, the class agrees and `'dark'` or `'light'` is stored to match; without a window nothing changes |
| `Dashboard.ToggleTwice` | src/pages/Dashboard.tsx:32-45 | two toggles restore `isDark` and the class and leave the original theme stored |
| `Dashboard.ToggleThenReload` | src/pages/Dashboard.tsx:16-45 | after a toggle, a reload with the same storage starts in the chosen theme whatever the system prefers |

## Left out

- Backend plumbing: the `select`/`insert`/`update`/`delete` calls, the realtime channels and their teardown. Each request is modelled only by its outcome, which the caller supplies.
- The backend's orderings of tasks, announcements and profiles. The model takes the rows in the order the backend returns them.
- `handleStatusChange` and `handleDelete` of both boards: they only forward to the backend and show a toast.
- The 30-second refresh timer of the presence board (timer I/O).
- Races between concurrent fetches and the lack of cancellation: the model runs one handler at a time.
- date-fns and `Date` parsing (`isPast`, `isToday`, `format`, `formatDistanceToNow`, `new Date(...)`). They become the integer parameters `now`, `instantOf` and `dayOf`. An unparsable date (`NaN`, which classifies as offline and never overdue) is not represented.
- `OnlineStudents.OnlineCount`: `isOnline` reads `Date.now()` once per profile. The model uses a single `now` for the whole count.
- A rejected `insert` or `update` promise in either `handleSubmit`. Nothing catches it, so it would leave `submitting` true. The model's writes either succeed or report an error.
- Toasts, console logging, JSX, styling, animations, and `getInitial`, which is display-only case mapping.
- The form inputs' `onChange` handlers. Each one only assigns its field.
- The sign-in page and the static page: their only logic is a blank-name guard in front of the external auth service's calls.
