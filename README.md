# Warm calm notes: a Dafny model of the organizer's record collections

The organizer is a single-page app with three tabs: a month calendar of events,
a todo list and a notes list. Each tab shows one record collection. A dialog
creates or edits one record and hands a partial record (a *patch*) to the page.
The page keeps the three collections and applies these handlers to them:

- save: update by id, or create with a fresh id and the current time;
- toggle, for a todo's completion;
- delete by id.

This project models that core in Dafny:

- the record kinds and their patches (`types.dfy`);
- the page's handlers and dialog state, as the class `IndexPage.App` (`index_page.dfy`);
- the collection operations they compute, as functions (`collections.dfy`);
- the three list views: each view's filtering, counts, badges, previews and
  empty-list messages (`todo_list.dfy`, `notes_list.dfy`, `calendar_view.dfy`);
- the three dialogs' form logic (`event_dialog.dfy`, `todo_dialog.dfy`, `note_dialog.dfy`):
  how opening a dialog fills the form, the patch that Save builds, and when
  Save is enabled. Save and Delete are methods that call the page's handlers
  and then close the dialog; the event and todo Save methods can only be
  called while the title is not all whitespace, as their buttons are disabled
  otherwise.

Supporting modules:

- `sequences.dfy`: order-preserving `filter`, keyed `map`, `slice`;
- `text.dfy`: ECMAScript `trim`, ASCII `toLowerCase`, `includes`;
- `dates.dfy`: Gregorian month lengths, `addMonths` with day clamping, the days of a month;
- `wrappers.dfy`: `Option`.

JavaScript behaviour the model spells out:

- A patch's `id` is tested for truthiness. So a patch whose id is `''` is saved
  as a new record (`Collections.HasId`).
- A save by id is `{...old, ...patch}`. Every key present in the patch
  overwrites the old value. An optional field that is present but `undefined`
  clears the old value, so `Option<Option<T>>` fields exist in patches.
- The create branch reads the mandatory fields with non-null assertions. The
  save functions therefore require those fields when the patch carries no id.
  Every patch the dialogs build meets that requirement, as stated by their
  `SavePatch` contracts.
- `new Date('')` is an invalid date, and an invalid date is on no calendar day.
  An event saved after its date input is emptied is stored and never shown in
  the calendar (`EventDialogs.EmptiedDateIsOnNoDay`).
- A badge label always ends in `...`, even for a title of eight characters or fewer.

The id generator and the clock are parameters (`newId`, `now`). The collections
loaded from storage are the page constructor's parameters.

## Model

| member | source | states |
|---|---|---|
| Types.PriorityName | src/types/index.ts:6 | a priority's stored string is one of the three literals `low`, `medium`, `high` |
| Types.ParsePriority | src/types/index.ts:6 | a string names a priority exactly when it is one of the three literals, and then that priority's name is the string |
| Types.PriorityNameRoundTrip | src/types/index.ts:6 | parsing a priority's name gives back that priority |
| Sequences.Filter | src/components/Todos/TodoList.tsx:40-44 | `filter` keeps exactly the elements satisfying the predicate and is never longer than its input |
| Sequences.FilterIsSubsequence | src/components/Notes/NotesList.tsx:25-28 | a filtered list keeps the input's order (it is a subsequence) |
| Sequences.FilterCounts | src/components/Notes/NotesList.tsx:25-28 | `filter` keeps every copy of a kept element and no copy of a rejected one (the multiplicities of the result) |
| Sequences.FilterLength | src/components/Todos/TodoList.tsx:46-47 | a filter keeps the whole input exactly when every element passes, and nothing exactly when none does |
| Sequences.FilterIdempotent | src/components/Todos/TodoList.tsx:40-44 | filtering twice by the same predicate equals filtering once |
| Sequences.FilterAppend | src/pages/Index.tsx:64 | filtering distributes over appending, so filtering a collection after a record is appended filters the old part and the new record separately |
| Sequences.FilterComplement | src/components/Todos/TodoList.tsx:46-47 | filters by a predicate and by its negation split the input: lengths and multisets add up to the input's |
| Sequences.Take | src/components/Calendar/CalendarView.tsx:78 | `slice(0, n)` is a prefix of length `min(n, length)` |
| Sequences.UpdateKey | src/pages/Index.tsx:51 | the keyed `map` keeps the length and replaces exactly the elements with the key, each by its image |
| Sequences.UpdateKeyTwice | src/pages/Index.tsx:99 | applying a key-keeping involution twice by key restores the sequence |
| Sequences.UpdateAbsentKey | src/pages/Index.tsx:51 | an update for a key no element has changes nothing |
| Sequences.RemoveKey | src/pages/Index.tsx:68-70 | deleting by key keeps exactly the elements with other keys, in order, each with every copy it had; the key is gone afterwards; distinct keys stay distinct (the same filter is used at lines 102-104 and 132-134) |
| Sequences.RemoveKeyIdempotent | src/pages/Index.tsx:68-70 | deleting the same id twice is deleting it once |
| Sequences.RemoveAbsentKey | src/pages/Index.tsx:68-70 | deleting an id no record has changes nothing |
| Sequences.AppendKeepsDistinctKeys | src/pages/Index.tsx:54-64 | appending a record whose id is new keeps the ids distinct |
| Text.TrimStart | src/components/Calendar/EventDialog.tsx:173 | removes only leading whitespace, leaving a suffix that does not start with whitespace |
| Text.TrimEnd | src/components/Calendar/EventDialog.tsx:173 | removes only trailing whitespace, leaving a prefix that does not end with whitespace |
| Text.Trim | src/components/Notes/NoteDialog.tsx:40 | `trim` drops only whitespace at both ends; the result has no whitespace at either end; it is empty exactly when the string is all whitespace |
| Text.TrimIdempotent | src/components/Notes/NoteDialog.tsx:40 | trimming a trimmed string changes nothing |
| Text.HasText | src/components/Todos/TodoDialog.tsx:116 | `title.trim()` is truthy exactly when the title is not all whitespace |
| Text.Lower | src/components/Notes/NotesList.tsx:26-27 | `toLowerCase` keeps the length, turns every capital A-Z into its small letter, keeps every other character and leaves no capital |
| Text.LowerIdempotent | src/components/Notes/NotesList.tsx:26-27 | lowering twice equals lowering once |
| Text.LowerEqualIffSameUpToCase | src/components/Notes/NotesList.tsx:26-27 | two strings lower to the same string exactly when they differ only in the case of ASCII letters (a relation defined without `toLowerCase`) |
| Text.Contains | src/components/Notes/NotesList.tsx:26-27 | `includes` holds exactly when the needle occurs at some index |
| Text.ContainsEmpty | src/components/Notes/NotesList.tsx:26-27 | every string includes the empty string |
| Dates.DaysInMonth | src/components/Calendar/CalendarView.tsx:19-21 | month lengths are 28-31 days, and 29 exactly for February of a leap year |
| Dates.YearLength | src/components/Calendar/CalendarView.tsx:19-21 | the twelve month lengths add up to 366 days in a leap year and 365 otherwise |
| Dates.SameDayLaws | src/components/Calendar/CalendarView.tsx:24 | `isSameDay` is reflexive exactly on valid dates, symmetric and transitive, implies `isSameMonth`, and never holds for an invalid date |
| Dates.AddMonths | src/components/Calendar/CalendarView.tsx:27-33 | `addMonths(d, n)` is a valid date exactly `n` months away, with the day clamped to that month's length |
| Dates.NextThenPreviousMonth | src/components/Calendar/CalendarView.tsx:27-33 | the next month then the previous month returns to the same year and month; the day never grows, and days 1-28 come back unchanged |
| Dates.PreviousThenNextMonth | src/components/Calendar/CalendarView.tsx:27-33 | the same for the previous month and then the next month |
| Dates.MonthDays | src/components/Calendar/CalendarView.tsx:19-21 | the days from the first to the last of a month: as many as the month has, exactly the valid days of that month, in increasing order |
| Collections.BlankIdCreatesEvent | src/pages/Index.tsx:49 | a patch whose id is `''` is falsy and creates a new event with the fresh id after the old ones |
| Collections.BlankIdCreatesTodo | src/pages/Index.tsx:81 | a patch whose id is `''` creates a new todo with the fresh id |
| Collections.BlankIdCreatesNote | src/pages/Index.tsx:116 | a patch whose id is `''` creates a new note with the fresh id |
| Collections.MergeEventEmpty | src/pages/Index.tsx:51 | `{...e, ...{}}` is `e` |
| Collections.MergeEventIdempotent | src/pages/Index.tsx:51 | spreading the same patch twice is spreading it once |
| Collections.MergeTodoEmpty | src/pages/Index.tsx:83 | `{...t, ...{}}` is `t` |
| Collections.MergeTodoIdempotent | src/pages/Index.tsx:83 | spreading the same patch twice is spreading it once |
| Collections.MergeNoteEmpty | src/pages/Index.tsx:118 | `{...n, ...{}, updatedAt: now}` only stamps the update time |
| Collections.MergeNoteIdempotent | src/pages/Index.tsx:118 | spreading the same patch with the same clock reading twice is doing it once |
| Collections.NewEvent | src/pages/Index.tsx:54-63 | a created event has the fresh id and the current time, whatever the patch says |
| Collections.NewEventHoldsPatch | src/pages/Index.tsx:54-63 | apart from id and creation time, spreading the patch over a created event changes nothing: it holds every key of the patch |
| Collections.NewTodo | src/pages/Index.tsx:86-93 | a created todo has the fresh id and the current time and is not completed, whatever the patch says |
| Collections.NewTodoHoldsPatch | src/pages/Index.tsx:86-93 | apart from id, completion and creation time, a created todo holds every key of the patch |
| Collections.NewNote | src/pages/Index.tsx:121-127 | a created note has the fresh id and was created and updated at the one clock reading |
| Collections.NewNoteHoldsPatch | src/pages/Index.tsx:121-127 | apart from id and timestamps, a created note holds the patch's title and content |
| Collections.SaveEvent | src/pages/Index.tsx:48-66 | with an id: same length and ids, the matching events merged with the patch and all others unchanged; without one: the old events followed by one event with the fresh id, the current time, the patch's fields and its description or none |
| Collections.SaveEventUnknownId | src/pages/Index.tsx:49-51 | a patch whose id no event has leaves the events unchanged |
| Collections.SaveEventKeepsIdsUnique | src/pages/Index.tsx:48-66 | saving keeps event ids unique when the created event's id is fresh |
| Collections.DeleteEvent | src/pages/Index.tsx:68-70 | keeps exactly the events with other ids, in order, every copy of each; the id is gone; unique ids stay unique |
| Collections.SaveTodo | src/pages/Index.tsx:80-96 | as for events; a created todo is never completed and takes the patch's due date or none |
| Collections.SaveTodoUnknownId | src/pages/Index.tsx:81-83 | a patch whose id no todo has leaves the todos unchanged |
| Collections.SaveTodoKeepsIdsUnique | src/pages/Index.tsx:80-96 | saving keeps todo ids unique when the created todo's id is fresh |
| Collections.ToggleTodo | src/pages/Index.tsx:98-100 | same length and ids; exactly the todos with the id have `completed` flipped, every other field and todo unchanged |
| Collections.ToggleTwice | src/pages/Index.tsx:98-100 | toggling the same id twice restores the list |
| Collections.ToggleUnknownId | src/pages/Index.tsx:98-100 | toggling an id no todo has changes nothing |
| Collections.DeleteTodo | src/pages/Index.tsx:102-104 | keeps exactly the todos with other ids, in order, every copy of each; the id is gone; unique ids stay unique |
| Collections.SaveNote | src/pages/Index.tsx:114-130 | as for events, with one clock reading: an updated note gets `updatedAt = now`, a created one `createdAt = updatedAt = now` |
| Collections.SaveNoteStampsUpdate | src/pages/Index.tsx:118 | an updated note's `updatedAt` is now even if the patch carries one; creation time, title and content are kept when the patch omits them |
| Collections.SaveNoteKeepsTimestampsOrdered | src/pages/Index.tsx:114-130 | if the clock is not behind any stored creation time and the patch sets no creation time (as no dialog patch does), saving keeps every note's update time at or after its creation time |
| Collections.SaveNoteUnknownId | src/pages/Index.tsx:116-118 | a patch whose id no note has leaves the notes unchanged |
| Collections.SaveNoteKeepsIdsUnique | src/pages/Index.tsx:114-130 | saving keeps note ids unique when the created note's id is fresh |
| Collections.DeleteNote | src/pages/Index.tsx:132-134 | keeps exactly the notes with other ids, in order, every copy of each; the id is gone; unique ids stay unique |
| IndexPage.App.constructor | src/pages/Index.tsx:15-37 | the page opens on the calendar tab with the stored collections and all three dialogs closed |
| IndexPage.App.SetActiveTab | src/pages/Index.tsx:172 | a tab change sets the active tab and nothing else |
| IndexPage.App.EventCreate | src/pages/Index.tsx:40-42 | opens the event dialog for a new event on the given date |
| IndexPage.App.EventClick | src/pages/Index.tsx:44-46 | opens the event dialog on the given event |
| IndexPage.App.CloseEventDialog | src/pages/Index.tsx:178 | resets the event dialog to `{ isOpen: false }` |
| IndexPage.App.EventSave | src/pages/Index.tsx:48-66 | the events become `SaveEvent` of the old events; ids stay unique when the fresh id is new; nothing else changes |
| IndexPage.App.EventDelete | src/pages/Index.tsx:68-70 | the events become `DeleteEvent` of the old ones; ids stay unique; nothing else changes |
| IndexPage.App.TodoCreate | src/pages/Index.tsx:72-74 | opens the todo dialog with no todo |
| IndexPage.App.TodoEdit | src/pages/Index.tsx:76-78 | opens the todo dialog on the given todo |
| IndexPage.App.CloseTodoDialog | src/pages/Index.tsx:187 | resets the todo dialog |
| IndexPage.App.TodoSave | src/pages/Index.tsx:80-96 | the todos become `SaveTodo` of the old todos; ids stay unique when the fresh id is new |
| IndexPage.App.TodoToggle | src/pages/Index.tsx:98-100 | the todos become `ToggleTodo` of the old ones; ids stay unique |
| IndexPage.App.TodoDelete | src/pages/Index.tsx:102-104 | the todos become `DeleteTodo` of the old ones; ids stay unique |
| IndexPage.App.NoteCreate | src/pages/Index.tsx:106-108 | opens the note dialog with no note |
| IndexPage.App.NoteEdit | src/pages/Index.tsx:110-112 | opens the note dialog on the given note |
| IndexPage.App.CloseNoteDialog | src/pages/Index.tsx:195 | resets the note dialog |
| IndexPage.App.NoteSave | src/pages/Index.tsx:114-130 | the notes become `SaveNote` of the old notes with one clock reading; ids stay unique when the fresh id is new |
| IndexPage.App.NoteDelete | src/pages/Index.tsx:132-134 | the notes become `DeleteNote` of the old ones; ids stay unique |
| TodoListView.FilteredTodos | src/components/Todos/TodoList.tsx:40-44 | in list order: `all` keeps every todo, `pending` exactly the open ones, `completed` exactly the done ones, each with every copy it had |
| TodoListView.PendingCount | src/components/Todos/TodoList.tsx:46 | the pending count is at most the number of todos, zero exactly when all are done and the whole number exactly when none is |
| TodoListView.CompletedCount | src/components/Todos/TodoList.tsx:47 | the completed count is at most the number of todos, zero exactly when none is done and the whole number exactly when all are |
| TodoListView.PendingAndCompletedPartition | src/components/Todos/TodoList.tsx:46-47 | the pending and completed lists are disjoint; they hold every todo exactly once; the two counts add up to the number of todos |
| TodoListView.CountsMatchFilters | src/components/Todos/TodoList.tsx:46-47 | each filter button's count is the length of the list that filter shows |
| TodoListView.EmptyMessage | src/components/Todos/TodoList.tsx:84-90 | a placeholder exactly when the filtered list is empty (for `all`, exactly when there are no todos), worded by the filter |
| TodoListView.TodoList.constructor | src/components/Todos/TodoList.tsx:38 | the filter starts at `all` |
| TodoListView.TodoList.SetFilter | src/components/Todos/TodoList.tsx:60-80 | a filter button sets the filter |
| NotesListView.Matches | src/components/Notes/NotesList.tsx:26-27 | a note matches exactly when the lowered term occurs at some index of its lowered title or its lowered content; every note matches the empty term |
| NotesListView.FilteredNotes | src/components/Notes/NotesList.tsx:25-28 | exactly the notes whose lowered title or content includes the lowered term, in list order, every copy of each |
| NotesListView.EmptySearchKeepsAll | src/components/Notes/NotesList.tsx:25-28 | an empty search shows every note |
| NotesListView.SearchIgnoresTermCase | src/components/Notes/NotesList.tsx:25-28 | lowering the term's letters does not change the result |
| NotesListView.SearchIgnoresCase | src/components/Notes/NotesList.tsx:25-28 | search terms that differ only in letter case select the same notes |
| NotesListView.MatchIgnoresNoteCase | src/components/Notes/NotesList.tsx:26-27 | changing the case of letters in a note's title or content changes no match |
| NotesListView.CapitalTermFindsSmallTitle | src/components/Notes/NotesList.tsx:26-27 | the term "GROC" finds the note titled "groceries" |
| NotesListView.DisplayTitle | src/components/Notes/NotesList.tsx:67 | the shown title is never empty: the note's title, or "Untitled Note" when it is empty |
| NotesListView.Preview | src/components/Notes/NotesList.tsx:75-76 | content of up to 150 characters is shown whole; longer content shows its first 150 characters followed by "..." |
| NotesListView.EmptyMessage | src/components/Notes/NotesList.tsx:51-56 | a placeholder exactly when no note matches: the no-match message exactly when a non-empty search matched nothing, the first-note prompt exactly when there are no notes and no search |
| CalendarViews.EventsForDay | src/components/Calendar/CalendarView.tsx:23-25 | exactly the events on the same valid day, in collection order, every copy of each |
| CalendarViews.Badges | src/components/Calendar/CalendarView.tsx:78 | at most two badges: a prefix of the day's events, or all of them when there are at most two |
| CalendarViews.MoreCount | src/components/Calendar/CalendarView.tsx:92-96 | the "+k more" line appears exactly when a day has more than two events, with k the number left over |
| CalendarViews.BadgesAndMoreCoverDay | src/components/Calendar/CalendarView.tsx:78-96 | badges plus the "+k more" count cover every event of the day |
| CalendarViews.BadgeLabel | src/components/Calendar/CalendarView.tsx:89 | a label is a prefix of at most 8 characters of the title followed by "..." |
| CalendarViews.CalendarView.constructor | src/components/Calendar/CalendarView.tsx:17 | the view opens on today |
| CalendarViews.CalendarView.Days | src/components/Calendar/CalendarView.tsx:19-21 | every day of the displayed month once, in order; each is in the current month |
| CalendarViews.CalendarView.PreviousMonth | src/components/Calendar/CalendarView.tsx:27-29 | the displayed date moves one month back, clamped, and stays valid |
| CalendarViews.CalendarView.NextMonth | src/components/Calendar/CalendarView.tsx:31-33 | the displayed date moves one month forward, clamped, and stays valid |
| CalendarViews.StandupScenario | src/pages/Index.tsx:52-64 | saving the "Standup" event of 2024-06-03 into a collection with nothing that day makes it the day's only event |
| EventDialogs.SavePatch | src/components/Calendar/EventDialog.tsx:62-71 | the patch has an id exactly when an event is edited, and then it is that event's id; it always has every editable field and no creation time, so the page can create from it; an emptied date becomes an invalid date |
| EventDialogs.Synced | src/components/Calendar/EventDialog.tsx:44-60 | an edited event's title and date are copied; with no event but a selected day the title is empty, the date is that day and times and colour are the defaults; with neither the form is kept |
| EventDialogs.DateOfInputCases | src/components/Calendar/EventDialog.tsx:66 | a filled date input gives its date; an emptied one gives an invalid date that is on no day |
| EventDialogs.SaveWritesFormTitle | src/components/Calendar/EventDialog.tsx:62-71 | every event after a save is the old one at that place or carries the form's title |
| EventDialogs.SaveWritesNoBlankTitle | src/components/Calendar/EventDialog.tsx:173 | when the title has text (Save enabled), every event the save writes has a title with text |
| EventDialogs.EditUntouchedRoundTrip | src/components/Calendar/EventDialog.tsx:44-71 | opening an event and saving it untouched gives back the same event, except that a missing description becomes `''` |
| EventDialogs.CreateOnDayShowsOnDay | src/components/Calendar/EventDialog.tsx:52-59 | creating on a clicked day with a typed title appends an event with default times and colour on that day, and the calendar shows it there |
| EventDialogs.EmptiedDateIsOnNoDay | src/components/Calendar/EventDialog.tsx:66 | an event saved with an empty date input is stored with an invalid date and is on no calendar day |
| EventDialogs.EventDialog.constructor | src/components/Calendar/EventDialog.tsx:37-42 | the form starts empty with 09:00-10:00 and the first colour |
| EventDialogs.EventDialog.Sync | src/components/Calendar/EventDialog.tsx:44-60 | the form copies an edited event, or seeds the selected day with the defaults, or is kept when neither is given |
| EventDialogs.EventDialog.Save | src/components/Calendar/EventDialog.tsx:62-75 | callable only while the title is not all whitespace (the button's `disabled`, line 173); the page's events become `SaveEvent` of the form's patch, each one either untouched or carrying the form's title, and the dialog closes |
| EventDialogs.EventDialog.Delete | src/components/Calendar/EventDialog.tsx:77-82 | when an event is edited: it is deleted and the dialog closes; otherwise nothing changes |
| TodoDialogs.SavePatch | src/components/Todos/TodoDialog.tsx:42-48 | id and completion flag exactly when a todo is edited, and then they are that todo's; the title as typed, the priority, and the due date with an empty input as an explicit absence |
| TodoDialogs.Synced | src/components/Todos/TodoDialog.tsx:30-40 | an edited todo's title, priority and due date are copied; without one the title is empty, the priority medium and there is no due date |
| TodoDialogs.SaveWritesFormTitle | src/components/Todos/TodoDialog.tsx:42-48 | every todo after a save is the old one at that place or carries the form's title |
| TodoDialogs.SaveWritesNoBlankTitle | src/components/Todos/TodoDialog.tsx:116 | when the title has text (Save enabled), every todo the save writes has a title with text |
| TodoDialogs.EditSave | src/components/Todos/TodoDialog.tsx:42-48 | saving an edit replaces title, priority and due date (an emptied due date removes the old one), keeping id, completion and creation time |
| TodoDialogs.EditUntouchedRoundTrip | src/components/Todos/TodoDialog.tsx:30-48 | opening a todo and saving it untouched gives back the same todo |
| TodoDialogs.ShipReportScenario | src/pages/Index.tsx:86-99 | a created "Ship report" todo is open; toggling completes it and toggling again reopens it |
| TodoDialogs.TodoDialog.constructor | src/components/Todos/TodoDialog.tsx:26-28 | the form starts with an empty title, medium priority and no due date |
| TodoDialogs.TodoDialog.Sync | src/components/Todos/TodoDialog.tsx:30-40 | the form copies the edited todo, or is reset |
| TodoDialogs.TodoDialog.Save | src/components/Todos/TodoDialog.tsx:42-52 | callable only while the title is not all whitespace (the button's `disabled`, line 116); the page's todos become `SaveTodo` of the form's patch, each one either untouched or carrying the form's title, and the dialog closes |
| TodoDialogs.TodoDialog.Delete | src/components/Todos/TodoDialog.tsx:54-59 | when a todo is edited: it is deleted and the dialog closes; otherwise nothing changes |
| NoteDialogs.SavedTitle | src/components/Notes/NoteDialog.tsx:40 | the saved title is never empty and has no whitespace at either end: the trimmed title when it has text, else "Untitled Note" |
| NoteDialogs.Synced | src/components/Notes/NoteDialog.tsx:28-36 | an edited note's title and content are copied; without one both are empty |
| NoteDialogs.SavePatch | src/components/Notes/NoteDialog.tsx:38-43 | id exactly when a note is edited, and then it is that note's id; the saved title and the content as typed; no timestamps |
| NoteDialogs.EditUntouchedRoundTrip | src/components/Notes/NoteDialog.tsx:28-43 | opening a note and saving it untouched keeps it, apart from the trimmed or defaulted title and the new update time |
| NoteDialogs.UntitledDraftScenario | src/components/Notes/NoteDialog.tsx:40 | creating a note with an empty title and content "draft" stores the title "Untitled Note" with both timestamps now |
| NoteDialogs.NoteDialog.constructor | src/components/Notes/NoteDialog.tsx:25-26 | the form starts empty |
| NoteDialogs.NoteDialog.Sync | src/components/Notes/NoteDialog.tsx:28-36 | the form copies the edited note, or is reset |
| NoteDialogs.NoteDialog.Save | src/components/Notes/NoteDialog.tsx:38-47 | the page's notes become `SaveNote` of the form's patch, which is always possible, and the dialog closes |
| NoteDialogs.NoteDialog.Delete | src/components/Notes/NoteDialog.tsx:49-54 | when a note is edited: it is deleted and the dialog closes; otherwise nothing changes |

## Left out

- Persistence: `useLocalStorage` and JSON (de)serialisation are not modelled. The page's constructor receives the loaded collections, and a `Date` read back from storage is taken to be the same date.
- `uuidv4()` and `new Date()` are external: they are the parameters `newId` and `now`. Fresh-id uniqueness is a hypothesis of the id-uniqueness lemmas.
- The clock and its monotonicity are not modelled. `SaveNoteKeepsTimestampsOrdered` assumes a clock that is not behind any stored creation time, and strictly increasing update times are not claimed.
- The internals of the date library are left out. `format`/`new Date('yyyy-MM-dd')` are treated as an exact round trip of a calendar day, which ignores the UTC-midnight parsing that can shift a day in negative time zones. `format` throwing on an invalid date is not modelled.
- Times of day are not modelled: `Date` is a calendar day, and `isSameDay` compares days.
- `isToday` and the today-highlighting of a calendar cell are presentation only.
- A calendar cell click and the "Add New Event" button (`CalendarView.tsx:72`, `:106`) only forward a day, or today, to `App.EventCreate`. Today is a parameter.
- The month grid is not padded to whole weeks in the source, so the grid cells are just `Days()`.
- Text.Lower: `toLowerCase` is modelled for ASCII letters A-Z only. Other Unicode case mappings (and their length changes) are left out.
- Strings are sequences of characters, not UTF-16 code units. `slice`, `substring` and `length` on text outside the Basic Multilingual Plane are not modelled.
- Rendering (JSX, CSS classes, icons, colours of priority badges), the Layout component's tab bar beyond the tab change itself, and React's effect scheduling and re-rendering are left out. A dialog's effect is modelled as an explicit `Sync` call.
- When the effects run is not modelled. The todo and note effects depend only on `todo` and `note` (`TodoDialog.tsx:40`, `NoteDialog.tsx:36`), and the dialogs stay mounted while closed. So after a create, re-opening "create" does not re-run the effect, and the form still shows what was last typed. The model's explicit `Sync(None)` would reset it, so it hides this behaviour. The event dialog has no such gap: its effect depends on `[event, selectedDate]` (`EventDialog.tsx:60`), closing clears both, and every opening sets one of them.
- Keystroke `onChange` setters of the dialog inputs are plain field assignments of the dialog classes and are not separate operations.
- Collections.SaveEvent, Collections.SaveTodo, Collections.SaveNote: a patch that holds a mandatory key set to `undefined` cannot be written. Keys of mandatory fields are either absent or hold a value.
- `TodoList` receives `onDeleteTodo` and `NotesList` receives `onDeleteNote`, but neither calls it (`TodoList.tsx:16`, `:36`; `NotesList.tsx:14`, `:21`), so neither list has a delete of its own; deleting goes through the dialogs.
- Dialog Cancel and the close-on-overlay action are `CloseEventDialog`/`CloseTodoDialog`/`CloseNoteDialog` on the page.
- The type-level shape of records (required vs optional fields, the three-valued priority) is captured by the datatypes themselves, not by separate lemmas.
