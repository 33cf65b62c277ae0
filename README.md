# DhyanSe cores in Dafny

This project models four handler cores of the DhyanSe React Native app and proves properties about them:

- **Focus timer** (`app/focus.tsx`). A focus/break countdown driven by two free-text minute fields, Start/Pause, Reset, Clear, Apply, and a one-second tick.
- **Task store** (`app/context/TaskContext.tsx`). The provider's task list, changed by add, update, delete and toggle-complete. Each operation also writes the list to storage.
- **Notes board** (`app/notes.tsx`). A list of coloured notes, plus one modal editor that either adds a note or rewrites the note being edited.
- **Task form and task screen** (`app/components/TaskForm.tsx`, `app/tasks.tsx`). The form's title guard, trimming and reset. The priority colours. The routing of a submitted form to add or update.

Every screen follows the same pattern:

- Its state hooks are the fields of a Dafny `class`.
- Each handler is a method of that class. The method's `ensures` gives the new state as a pure transition function of the old state.
- Lemmas about those transition functions state what the handlers promise.

Storage is a ghost field `stored`, holding the list last written.

`js_text.dfy` models the JavaScript built-ins the handlers depend on:

- `parseInt(s, 10)`: skips ECMAScript white space, takes one optional sign and the longest run of decimal digits, and gives NaN when there are no digits.
- `Number.prototype.toString` for integers and NaN.
- `String.prototype.trim`.
- `padStart(2, '0')`.
- The truncating `%` operator.

Module layout:

- `optional.dfy`: `Optional`.
- `js_text.dfy`: `JsText`.
- `focus.dfy`: `Focus`.
- `task_context.dfy`: `TaskContext`.
- `notes.dfy`: `Notes`.
- `task_form.dfy`: `TaskFormComponent`.
- `tasks_screen.dfy`: `TasksScreen`.

## The code as written

The model follows the code. Four behaviours stand out:

- **The timer fields start at "0", not at 60 and 10.** The initial state is focus "0", break "0", 0 seconds, paused (`app/focus.tsx:9-14`). The 60/10 defaults only appear through the fallbacks in Apply and in the phase switch.
- **Reset has a different fallback.** Reset falls back to 0 minutes for text that is not a positive integer (`app/focus.tsx:74-75`). Apply and the phase switch fall back to 60 and 10 (`app/focus.tsx:20-21, 45-46`). `Focus.ResetAndSwitchFallbacksDiffer` shows both fallbacks from the initial state.
- **`timeLeft` can exceed the current phase's duration.** The minute fields can be edited after Apply without pressing Apply again, and tick and reset read the fields directly. So "time left never exceeds the current phase's duration" is not an invariant of the code. After typing "25" and pressing Apply, 1500 seconds remain. If the focus field is then changed to "5", the phase is 300 seconds long (`Focus.CountdownMayExceedPhaseDuration`). The invariant that does hold is `timeLeft >= 0` (`Focus.RunKeepsNonNegative`, `Focus.Timer.Valid`).
- **Editing a task changes nothing.** The form submits a record without an `id` (`app/components/TaskForm.tsx:35-41`). On the edit path that record goes to `updateTask` (`app/tasks.tsx:112`), which matches on `id` and so matches no task. The id-less record is the `IdLess` case of `TaskContext.UpdateArg`, and `TasksScreen.EditRouteChangesNothing` proves that the list is unchanged.

The task form has one more quirk.

- **Its fields are not loaded from the task being edited.** The screen mounts a single `TaskForm` while `editingTask` is null, and `useState` initialisers only run at mount. So pressing a task does not load its fields into the form; the task only supplies `completed` when the form is submitted. This is why `TaskFormComponent.TaskForm` takes `initialValues` in its constructor (the mount) and again in `HandleSubmit` (the prop's value at the time of the submit).

## Model

| member | source | states |
|---|---|---|
| JsText.TrimStartIsSuffix | app/components/TaskForm.tsx:31 | trimming the start drops only white space, and what is left is empty or starts with a non-white-space character |
| JsText.TrimEndIsPrefix | app/components/TaskForm.tsx:36 | trimming the end drops only white space, and what is left is empty or ends with a non-white-space character |
| JsText.TrimEmptyIffBlank | app/notes.tsx:32 | `s.trim()` is empty exactly when every character of `s` is white space |
| JsText.TrimIsCanonical | app/components/TaskForm.tsx:36-37 | a trimmed string has no white space at either end, is no longer than the input, and trimming it again changes nothing |
| JsText.LeadingDigitsIsLongestDigitPrefix | app/focus.tsx:18-19 | the digits `parseInt` reads are the longest all-digit prefix of what follows the sign |
| JsText.NatToString | app/focus.tsx:23 | the decimal text of a natural number is all digits, denotes the number, has no leading zero, has one digit below 10 and at most two below 100 |
| JsText.IntToStringReadsBack | app/focus.tsx:18 | `parseInt(i.toString(), 10)` gives back every integer `i` |
| JsText.NumberToStringReadsBack | app/components/TaskForm.tsx:24 | `parseInt` of a number's text gives back the number, and NaN for NaN |
| JsText.ParseIntOfDigits | app/focus.tsx:18 | a string of digits parses to the value it denotes |
| JsText.ParseIntStopsAtNonDigit | app/focus.tsx:18 | `parseInt(" 7min")` is 7: leading space is skipped and the digits stop at the first non-digit |
| JsText.ParseIntWithoutDigits | app/focus.tsx:20 | `parseInt` gives NaN for "", "abc" and "- 5" |
| JsText.PadStart2 | app/focus.tsx:83 | `padStart(2, '0')` keeps the text as a suffix, adds only zeros in front, and gives length max(2, length) |
| JsText.Rem | app/focus.tsx:82 | the truncating `%`: `a - r` is a multiple of `b`, and `r` lies in 0..b-1 for a non-negative dividend and in -(b-1)..0 for a negative one |
| JsText.PaddedNumeral | app/focus.tsx:83 | a padded numeral is all digits and denotes the number, with exactly two digits below 100 |
| Focus.ApplyUsesParsedOrDefault | app/focus.tsx:18-21 | Apply uses each parsed value when it is a positive integer (focus: that many minutes times 60 s; each text becomes that number's numeral), else the defaults: 3600 s with focus text "60", break text "10" |
| Focus.ApplyPrimesFocus | app/focus.tsx:22-27 | after Apply: paused, Focus phase, settings closed, `timeLeft` is the valid focus minutes times 60, and both fields are rewritten to the canonical numerals of the valid minutes (`toString`: all digits, no leading zero), which read back as those minutes |
| Focus.ApplyIdempotent | app/focus.tsx:17-28 | applying twice is the same as applying once |
| Focus.ApplyExample | app/focus.tsx:17-28 | Apply on "25" and "5" gives 1500 s, Focus phase, paused, and the texts unchanged |
| Focus.ClearFromAnyState | app/focus.tsx:31-38 | Clear from any state gives "60", "10", 0 s, paused, Focus phase, settings closed, and the clock shows "00:00" |
| Focus.TickCountsDown | app/focus.tsx:48-51 | a tick while running with time left takes exactly one second off and changes nothing else, so the time stays non-negative |
| Focus.TickSwitchesPhase | app/focus.tsx:52-62 | a tick while running at 0 s flips the phase, loads the new phase's valid minutes (60/10 fallbacks) times 60, and pauses; the texts and the settings flag are kept |
| Focus.TickWhilePaused | app/focus.tsx:48-62 | a tick while paused changes nothing |
| Focus.TicksWhilePaused | app/focus.tsx:48-62 | any number of ticks while paused change nothing |
| Focus.TicksCountDown | app/focus.tsx:48-51 | n ticks while running with at least n seconds left take exactly n seconds off |
| Focus.FullCountdownSwitchesPhase | app/focus.tsx:48-62 | from t seconds, t+1 ticks run down to zero and then switch phase and pause |
| Focus.RunAppend | app/focus.tsx:40-78 | running two event sequences one after the other equals running their concatenation |
| Focus.TickFromOneSecond | app/focus.tsx:48-51 | running in Focus at 1 s, one tick gives 0 s, still running and still Focus |
| Focus.TickSwitchExample | app/focus.tsx:52-61 | running in Focus at 0 s with "25"/"5", one tick gives Break, 300 s and paused |
| Focus.ToggleTwiceRestores | app/focus.tsx:67-69 | toggling flips only `isActive`, so toggling twice restores the state |
| Focus.ClearToggleTick | app/focus.tsx:31-69 | Clear, Start, then one tick gives Break with 600 s, paused |
| Focus.ResetLoadsCurrentPhase | app/focus.tsx:71-78 | Reset loads the current phase's parsed minutes times 60, or 0 when the text is not a positive integer; it pauses and keeps the phase, the texts and the settings flag |
| Focus.ResetIdempotent | app/focus.tsx:71-78 | resetting twice is the same as resetting once |
| Focus.ResetBreakExample | app/focus.tsx:71-78 | in Break with break text "10", Reset gives 600 s, paused, still Break |
| Focus.ResetAndSwitchFallbacksDiffer | app/focus.tsx:45-75 | from the initial "0"/"0", Reset gives 0 s, but Start and a tick give a paused Break of 600 s |
| Focus.StepKeepsNonNegative | app/focus.tsx:17-78 | no event makes the time left negative |
| Focus.RunKeepsNonNegative | app/focus.tsx:17-78 | no sequence of events makes the time left negative |
| Focus.CountdownMayExceedPhaseDuration | app/focus.tsx:110 | after entering "25", Apply, then typing "5", 1500 s remain in a 300 s focus phase |
| Focus.FormatTimeReadsBack | app/focus.tsx:80-84 | for s >= 0 the clock face reads back as minutes s/60 and seconds s%60, with (s/60)*60 + s%60 == s, seconds < 60, and each field at least two digits |
| Focus.ClockFaceReadsBack | app/focus.tsx:83 | two padded numerals around ':' read back as the two numbers |
| Focus.TimerTextShowsCountdown | app/focus.tsx:146 | the clock shows "00:00" whenever time left <= 0 and the formatted time otherwise |
| Focus.Timer.constructor | app/focus.tsx:9-14 | a new timer is in the initial state: "0", "0", 0 s, paused, Focus, settings closed |
| Focus.Timer.SetFocusMinutes | app/focus.tsx:110 | typing in the focus field changes only the focus text |
| Focus.Timer.SetBreakMinutes | app/focus.tsx:121 | typing in the break field changes only the break text |
| Focus.Timer.OpenSettings | app/focus.tsx:168 | the customize button only opens the settings |
| Focus.Timer.CancelSettings | app/focus.tsx:136 | Cancel only closes the settings |
| Focus.Timer.ApplySettings | app/focus.tsx:17-28 | the new state is the Apply transition of the old one, and time left stays non-negative |
| Focus.Timer.ClearSession | app/focus.tsx:31-38 | the new state is the Clear transition |
| Focus.Timer.Tick | app/focus.tsx:48-62 | the new state is the tick transition of the old one |
| Focus.Timer.ToggleTimer | app/focus.tsx:67-69 | the new state is the old one with `isActive` flipped |
| Focus.Timer.ResetTimer | app/focus.tsx:71-78 | the new state is the Reset transition of the old one |
| TaskContext.Updated | app/context/TaskContext.tsx:62 | the update map keeps the length; each task whose id matches becomes the given task, every other task is unchanged |
| TaskContext.Removed | app/context/TaskContext.tsx:68 | the delete filter is no longer than its input and keeps no task with the deleted id |
| TaskContext.ToggledComplete | app/context/TaskContext.tsx:74-76 | the toggle map keeps the length, flips `completed` on matching tasks only and leaves their other fields alone |
| TaskContext.AddAppendsOne | app/context/TaskContext.tsx:51-56 | add appends exactly one task at the end, with the given fields and the fresh id, and keeps the existing tasks |
| TaskContext.AddThenDeleteRestores | app/context/TaskContext.tsx:51-71 | adding under an unused id and deleting that id gives back the list |
| TaskContext.UpdateReplacesMatching | app/context/TaskContext.tsx:61-64 | update keeps the length, each task with the given id becomes the given task, and the others are unchanged |
| TaskContext.UpdateAbsentIsNoop | app/context/TaskContext.tsx:62 | updating with an id no task has changes nothing |
| TaskContext.UpdateIdLessIsNoop | app/context/TaskContext.tsx:62 | updating with a record that has no id changes nothing |
| TaskContext.UpdateIdempotent | app/context/TaskContext.tsx:61-64 | updating twice with the same record is the same as once |
| TaskContext.RemovedConcat | app/context/TaskContext.tsx:68 | the delete filter distributes over concatenation |
| TaskContext.DeleteCounts | app/context/TaskContext.tsx:67-70 | delete removes every copy of the tasks with that id and keeps the count of every other task |
| TaskContext.DeleteAbsentIsNoop | app/context/TaskContext.tsx:68 | deleting an id no task has changes nothing |
| TaskContext.ToggleTwiceRestores | app/context/TaskContext.tsx:73-78 | toggling the same id twice restores the list |
| TaskContext.ToggleAbsentIsNoop | app/context/TaskContext.tsx:74 | toggling an id no task has changes nothing |
| TaskContext.TaskStore.constructor | app/context/TaskContext.tsx:24 | a new provider starts with no tasks |
| TaskContext.TaskStore.AddTask | app/context/TaskContext.tsx:51-59 | the list becomes the add of the old one, and storage holds the new list |
| TaskContext.TaskStore.UpdateTask | app/context/TaskContext.tsx:61-65 | the list becomes the update of the old one, and storage holds the new list |
| TaskContext.TaskStore.DeleteTask | app/context/TaskContext.tsx:67-71 | the list becomes the filter of the old one, and storage holds the new list |
| TaskContext.TaskStore.ToggleTaskComplete | app/context/TaskContext.tsx:73-79 | the list becomes the toggle of the old one, and storage holds the new list |
| Notes.EditedNotes | app/notes.tsx:34 | the edit map keeps the length; each note with the edited id gets the new text and colour and keeps its id, and the other notes are unchanged |
| Notes.RemovedNotes | app/notes.tsx:54 | the delete filter is no longer than its input and keeps no note with the deleted id |
| Notes.SaveBlankIsNoop | app/notes.tsx:32 | saving white-space-only input changes neither the notes nor the editor |
| Notes.SaveResetsEditor | app/notes.tsx:42-45 | a successful save closes the modal and resets the input to "", the colour to "#00fff9", and the target to none |
| Notes.SaveAddsNote | app/notes.tsx:36-41 | in add mode a save appends one note with the fresh id, the input as typed (untrimmed) and the chosen colour |
| Notes.SaveEditsNote | app/notes.tsx:33-35 | in edit mode a save keeps the length, gives the notes with the edited id the new text and colour, and leaves the others alone |
| Notes.EditThenSaveKeepsNotes | app/notes.tsx:33-35 | opening a note whose id is unique and saving it untouched gives back the same list |
| Notes.AddAfterCancelIsFresh | app/notes.tsx:62 | after a cancelled edit, "+" still opens an empty add form with the default colour |
| Notes.RemovedNotesMembers | app/notes.tsx:53-55 | a note survives delete exactly when it was in the list with a different id |
| Notes.RemovedNotesAbsent | app/notes.tsx:54 | deleting an id no note has changes nothing |
| Notes.RemovedNotesConcat | app/notes.tsx:54 | the note filter distributes over concatenation, so the order of the survivors is kept |
| Notes.AddThenDeleteRestores | app/notes.tsx:36-41 | adding a note under an unused id and deleting it gives back the list |
| Notes.NotesScreen.constructor | app/notes.tsx:14-18 | a new screen has no notes, a closed empty editor with colour "#00fff9" and no target |
| Notes.NotesScreen.SaveNotes | app/notes.tsx:26-29 | `saveNotes` sets the list and writes it to storage |
| Notes.NotesScreen.HandleSaveNote | app/notes.tsx:31-46 | the new state is the save transition; storage is written only when the input is not blank |
| Notes.NotesScreen.HandleEditNote | app/notes.tsx:47-52 | the note's text and colour go into the editor, the note becomes the target and the modal opens; the list and storage are unchanged |
| Notes.NotesScreen.HandleDeleteNote | app/notes.tsx:53-55 | the list becomes its filter, and storage holds the new list |
| Notes.NotesScreen.PressAdd | app/notes.tsx:62 | "+" sets no target, empty input, the default colour, and opens the modal |
| Notes.NotesScreen.SetNoteInput | app/notes.tsx:97 | typing changes only the input |
| Notes.NotesScreen.PickColor | app/notes.tsx:100-104 | pressing a palette swatch changes only the colour |
| Notes.NotesScreen.Cancel | app/notes.tsx:110 | Cancel only closes the modal |
| TaskFormComponent.NewFormDefaults | app/components/TaskForm.tsx:22-27 | without initial values the fields are "", "", "3" and today, and "3" is a button's priority |
| TaskFormComponent.FormOnTaskShowsTask | app/components/TaskForm.tsx:22-24 | with initial values the fields take the task's title and description ("" when absent), and the priority text reads back as the task's priority |
| TaskFormComponent.SubmitBlankTitleIsNoop | app/components/TaskForm.tsx:31-33 | submitting a white-space-only title sends nothing and leaves the fields unchanged |
| TaskFormComponent.SubmitSendsTrimmedRecord | app/components/TaskForm.tsx:35-47 | a non-blank title is sent trimmed and non-empty with no surrounding white space, the description is sent trimmed, `completed` is the initial value's (false when creating), and the fields reset to "", "", "3", today |
| TaskFormComponent.SubmitPriorityInRange | app/components/TaskForm.tsx:38 | a priority set by the default or a button is sent as a number in 1..5 |
| TaskFormComponent.TaskForm.constructor | app/components/TaskForm.tsx:22-27 | mounting the form gives its initial fields |
| TaskFormComponent.TaskForm.SetTitle | app/components/TaskForm.tsx:70 | typing changes only the title |
| TaskFormComponent.TaskForm.SetDescription | app/components/TaskForm.tsx:78 | typing changes only the description |
| TaskFormComponent.TaskForm.SelectPriority | app/components/TaskForm.tsx:93 | a priority button sets the priority to its number's text, which is a button's priority |
| TaskFormComponent.TaskForm.SetDueDate | app/components/TaskForm.tsx:121-125 | a picked date changes only the due date |
| TaskFormComponent.TaskForm.HandleSubmit | app/components/TaskForm.tsx:30-47 | the fields and the record sent are those of the submit transition |
| TasksScreen.PriorityColorCases | app/tasks.tsx:122-135 | 5, 4, 3 and 2 each map to their own colour and exactly those do; every other priority, including 1, 0, negatives and NaN, maps to "#3b82f6" |
| TasksScreen.CloseHidesForm | app/tasks.tsx:107-111 | closing clears both `showTaskForm` and `editingTask`, so the form is hidden |
| TasksScreen.EditRouteChangesNothing | app/tasks.tsx:20-23 | on the edit path the id-less record reaches `updateTask` and no task changes |
| TasksScreen.AddRouteAppends | app/tasks.tsx:16-18 | on the add path the record is appended with the fresh id |
| TasksScreen.EditingSubmitChangesNothing | app/tasks.tsx:112 | whatever the form holds, submitting while a task is being edited leaves the task list unchanged |
| TasksScreen.TasksScreen.constructor | app/tasks.tsx:13-14 | the screen starts with the form hidden and no task being edited, and mounts one empty form |
| TasksScreen.TasksScreen.PressAdd | app/tasks.tsx:90 | "+" sets `showTaskForm`, which shows the form |
| TasksScreen.TasksScreen.PressTask | app/tasks.tsx:59 | pressing a task makes it the task being edited, which shows the form |
| TasksScreen.TasksScreen.LongPressTask | app/tasks.tsx:60 | a long press toggles that task's completion in the store |
| TasksScreen.TasksScreen.ConfirmDelete | app/tasks.tsx:25-40 | a confirmed delete removes that id from the store |
| TasksScreen.TasksScreen.CloseForm | app/tasks.tsx:108-111 | closing clears both flags and hides the form |
| TasksScreen.TasksScreen.SubmitForm | app/tasks.tsx:106-114 | a blank title changes nothing; otherwise the record is routed to update (while editing) or add, storage holds the new list, and the form closes |

## Left out

- Loading from storage (`app/context/TaskContext.tsx:27-40`, `app/notes.tsx:20-24`) is left out, together with `JSON.parse`/`JSON.stringify`. The stored list is a ghost field, and a ghost value cannot feed the compiled list. The constructors take the previously stored value as a ghost parameter and start with an empty list, as the components do before the load resolves.
- Storage errors are not modelled (`app/context/TaskContext.tsx:46-48`): the model treats every write as successful.
- `Date.now().toString()` ids are a `freshId` parameter. The code does not guarantee unique ids, and the model does not claim they are; lemmas that need an unused id require it.
- Dates (`new Date()`, `toISOString`, `toLocaleDateString`) are opaque strings. "Now" is a `now` parameter. The form's due date is kept as the ISO text it would submit.
- `setInterval` timing and React effect re-creation are not modelled. One interval firing, or the effect's immediate phase switch, is one `Tick` event.
- `Focus.Run` lets any event occur in any state. That includes a user event while running at 0 s, a state the effect resolves before the next user event, and controls hidden behind the settings view. The model therefore allows more behaviours than the app; the invariants proved over `Run` hold on that larger set and so on the app's.
- JavaScript numbers are modelled as unbounded integers or NaN. Floating point, numbers past 2^53, and exponent notation in `toString` are left out. `parseInt` of an input such as "1e3" stops at the "e", as the model does.
- The task form's `showDatePicker` flag (`app/components/TaskForm.tsx:28, 109, 122`) and the dismissed-picker case are left out. They only control whether the picker is on screen.
- The submit button's `disabled` state (`app/components/TaskForm.tsx:135-137`) is not a separate member. It hides the same blank-title case that `HandleSubmit` already guards against.
- The delete `Alert` (`app/tasks.tsx:26-39`) is left out. Only the confirmed branch is modelled, as `ConfirmDelete`; a cancelled alert changes nothing.
- Modal props, animation, `StyleSheet` objects, swipe gestures and list rendering are left out.
- `app/ai-chat.tsx`, `app/index.tsx` and `app/_layout.tsx` are not part of this model.
