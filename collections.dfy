/** The new collections that the organizer's save, toggle and delete handlers
    compute: update-by-id is a shallow merge (`{...old, ...patch}`), create
    appends a record with a fresh id and the current time, delete is a filter.
    The id generator and the clock are parameters (`newId`, `now`). */
module Collections {
  import opened Wrappers
  import opened Sequences
  import opened Types

  /** JavaScript truthiness of a patch's `id`: `undefined` and `''` are falsy,
      so a patch with either is saved as a new record. */
  predicate HasId(id: Option<string>) {
    id.Some? && id.value != ""
  }

  /** A patch whose id is the empty string is saved as a new event, under the
      fresh id, exactly like one without an id. */
  lemma BlankIdCreatesEvent(events: seq<Event>, p: EventPatch, newId: string, now: Timestamp)
    requires p.id == Some("") && CanCreateEvent(p)
    ensures var r := SaveEvent(events, p, newId, now);
      |r| == |events| + 1 && r[..|events|] == events && r[|events|].id == newId
  {
  }

  /** Likewise for todos. */
  lemma BlankIdCreatesTodo(todos: seq<Todo>, p: TodoPatch, newId: string, now: Timestamp)
    requires p.id == Some("") && CanCreateTodo(p)
    ensures var r := SaveTodo(todos, p, newId, now);
      |r| == |todos| + 1 && r[..|todos|] == todos && r[|todos|].id == newId
  {
  }

  /** Likewise for notes. */
  lemma BlankIdCreatesNote(notes: seq<Note>, p: NotePatch, newId: string, now: Timestamp)
    requires p.id == Some("") && CanCreateNote(p)
    ensures var r := SaveNote(notes, p, newId, now);
      |r| == |notes| + 1 && r[..|notes|] == notes && r[|notes|].id == newId
  {
  }

  function EventIds(events: seq<Event>): seq<string> { Keys(events, EventId) }
  function TodoIds(todos: seq<Todo>): seq<string> { Keys(todos, TodoId) }
  function NoteIds(notes: seq<Note>): seq<string> { Keys(notes, NoteId) }

  // ---------------------------------------------------------------- events

  /** `{ ...e, ...p }`: every key present in the patch overwrites the record's. */
  function MergeEvent(e: Event, p: EventPatch): Event {
    Event(
      p.id.GetOr(e.id), p.title.GetOr(e.title), p.description.GetOr(e.description),
      p.date.GetOr(e.date), p.startTime.GetOr(e.startTime), p.endTime.GetOr(e.endTime),
      p.color.GetOr(e.color), p.createdAt.GetOr(e.createdAt))
  }

  /** The patch with no keys. */
  const NoEventChanges := EventPatch(None, None, None, None, None, None, None, None)

  /** Spreading an empty patch copies the event. */
  lemma MergeEventEmpty(e: Event)
    ensures MergeEvent(e, NoEventChanges) == e
  {
  }

  /** Spreading the same patch a second time changes nothing more. */
  lemma MergeEventIdempotent(e: Event, p: EventPatch)
    ensures MergeEvent(MergeEvent(e, p), p) == MergeEvent(e, p)
  {
  }

  /** The keys the create branch reads with a non-null assertion (`p.title!`, ...). */
  predicate CanCreateEvent(p: EventPatch) {
    p.title.Some? && p.date.Some? && p.startTime.Some? && p.endTime.Some? && p.color.Some?
  }

  /** The created event: the fresh id and the current time, whatever the patch
      says about either, and every other key from the patch. */
  function NewEvent(p: EventPatch, newId: string, now: Timestamp): (r: Event)
    requires CanCreateEvent(p)
    ensures r.id == newId && r.createdAt == now
  {
    Event(newId, p.title.value, p.description.GetOr(None), p.date.value,
          p.startTime.value, p.endTime.value, p.color.value, now)
  }

  /** Apart from the id and the creation time, a created event holds the
      patch: spreading the rest of the patch over it changes nothing. */
  lemma NewEventHoldsPatch(p: EventPatch, newId: string, now: Timestamp)
    requires CanCreateEvent(p)
    ensures var e := NewEvent(p, newId, now); MergeEvent(e, p.(id := None, createdAt := None)) == e
  {
  }

  /** `handleEventSave`: a patch with an id merges into every event with that id
      and leaves the others, the length, the order and the ids alone; a patch
      without one appends a new event built from it. */
  function SaveEvent(events: seq<Event>, p: EventPatch, newId: string, now: Timestamp): (r: seq<Event>)
    requires HasId(p.id) || CanCreateEvent(p)
    ensures HasId(p.id) ==> |r| == |events| && EventIds(r) == EventIds(events)
    ensures HasId(p.id) ==> forall i :: 0 <= i < |events| ==>
      r[i] == if events[i].id == p.id.value then MergeEvent(events[i], p) else events[i]
    ensures !HasId(p.id) ==> |r| == |events| + 1 && r[..|events|] == events
    ensures !HasId(p.id) ==> var e := r[|events|];
      e.id == newId && e.createdAt == now && e.title == p.title.value &&
      e.description == p.description.GetOr(None) && e.date == p.date.value &&
      e.startTime == p.startTime.value && e.endTime == p.endTime.value && e.color == p.color.value
  {
    if HasId(p.id) then
      var merge := (e: Event) => MergeEvent(e, p);
      UpdateKeyKeepsKeys(events, EventId, p.id.value, merge);
      UpdateKey(events, EventId, p.id.value, merge)
    else
      events + [NewEvent(p, newId, now)]
  }

  /** Saving a patch whose id no event has changes nothing. */
  lemma SaveEventUnknownId(events: seq<Event>, p: EventPatch, newId: string, now: Timestamp)
    requires HasId(p.id) && p.id.value !in EventIds(events)
    ensures SaveEvent(events, p, newId, now) == events
  {
    UpdateAbsentKey(events, EventId, p.id.value, (e: Event) => MergeEvent(e, p));
  }

  /** Event ids stay unique when the id given to a created event is fresh. */
  lemma SaveEventKeepsIdsUnique(events: seq<Event>, p: EventPatch, newId: string, now: Timestamp)
    requires HasId(p.id) || CanCreateEvent(p)
    requires Distinct(EventIds(events))
    requires !HasId(p.id) ==> newId !in EventIds(events)
    ensures Distinct(EventIds(SaveEvent(events, p, newId, now)))
  {
    if !HasId(p.id) {
      AppendKeepsDistinctKeys(events, NewEvent(p, newId, now), EventId);
    }
  }

  /** `handleEventDelete`. */
  function DeleteEvent(events: seq<Event>, id: string): (r: seq<Event>)
    ensures forall e :: e in r <==> e in events && e.id != id
    ensures forall e :: multiset(r)[e] == if e.id != id then multiset(events)[e] else 0
    ensures IsSubsequence(r, events) && id !in EventIds(r)
    ensures Distinct(EventIds(events)) ==> Distinct(EventIds(r))
  {
    RemoveKey(events, EventId, id)
  }

  // ---------------------------------------------------------------- todos

  function MergeTodo(t: Todo, p: TodoPatch): Todo {
    Todo(
      p.id.GetOr(t.id), p.title.GetOr(t.title), p.completed.GetOr(t.completed),
      p.priority.GetOr(t.priority), p.dueDate.GetOr(t.dueDate), p.createdAt.GetOr(t.createdAt))
  }

  const NoTodoChanges := TodoPatch(None, None, None, None, None, None)

  lemma MergeTodoEmpty(t: Todo)
    ensures MergeTodo(t, NoTodoChanges) == t
  {
  }

  lemma MergeTodoIdempotent(t: Todo, p: TodoPatch)
    ensures MergeTodo(MergeTodo(t, p), p) == MergeTodo(t, p)
  {
  }

  predicate CanCreateTodo(p: TodoPatch) {
    p.title.Some? && p.priority.Some?
  }

  /** A new todo has the fresh id and the current time and is never completed,
      whatever the patch says about these three; its other keys come from the
      patch. */
  function NewTodo(p: TodoPatch, newId: string, now: Timestamp): (r: Todo)
    requires CanCreateTodo(p)
    ensures r.id == newId && r.createdAt == now && !r.completed
  {
    Todo(newId, p.title.value, false, p.priority.value, p.dueDate.GetOr(None), now)
  }

  /** Apart from the id, the completion flag and the creation time, a created
      todo holds the patch. */
  lemma NewTodoHoldsPatch(p: TodoPatch, newId: string, now: Timestamp)
    requires CanCreateTodo(p)
    ensures var t := NewTodo(p, newId, now); MergeTodo(t, p.(id := None, completed := None, createdAt := None)) == t
  {
  }

  /** `handleTodoSave`. */
  function SaveTodo(todos: seq<Todo>, p: TodoPatch, newId: string, now: Timestamp): (r: seq<Todo>)
    requires HasId(p.id) || CanCreateTodo(p)
    ensures HasId(p.id) ==> |r| == |todos| && TodoIds(r) == TodoIds(todos)
    ensures HasId(p.id) ==> forall i :: 0 <= i < |todos| ==>
      r[i] == if todos[i].id == p.id.value then MergeTodo(todos[i], p) else todos[i]
    ensures !HasId(p.id) ==> |r| == |todos| + 1 && r[..|todos|] == todos
    ensures !HasId(p.id) ==> var t := r[|todos|];
      t.id == newId && t.createdAt == now && !t.completed && t.title == p.title.value &&
      t.priority == p.priority.value && t.dueDate == p.dueDate.GetOr(None)
  {
    if HasId(p.id) then
      var merge := (t: Todo) => MergeTodo(t, p);
      UpdateKeyKeepsKeys(todos, TodoId, p.id.value, merge);
      UpdateKey(todos, TodoId, p.id.value, merge)
    else
      todos + [NewTodo(p, newId, now)]
  }

  lemma SaveTodoUnknownId(todos: seq<Todo>, p: TodoPatch, newId: string, now: Timestamp)
    requires HasId(p.id) && p.id.value !in TodoIds(todos)
    ensures SaveTodo(todos, p, newId, now) == todos
  {
    UpdateAbsentKey(todos, TodoId, p.id.value, (t: Todo) => MergeTodo(t, p));
  }

  lemma SaveTodoKeepsIdsUnique(todos: seq<Todo>, p: TodoPatch, newId: string, now: Timestamp)
    requires HasId(p.id) || CanCreateTodo(p)
    requires Distinct(TodoIds(todos))
    requires !HasId(p.id) ==> newId !in TodoIds(todos)
    ensures Distinct(TodoIds(SaveTodo(todos, p, newId, now)))
  {
    if !HasId(p.id) {
      AppendKeepsDistinctKeys(todos, NewTodo(p, newId, now), TodoId);
    }
  }

  function Toggled(t: Todo): Todo {
    t.(completed := !t.completed)
  }

  /** `handleTodoToggle`: flips `completed` on the todos with that id and on
      nothing else. */
  function ToggleTodo(todos: seq<Todo>, id: string): (r: seq<Todo>)
    ensures |r| == |todos| && TodoIds(r) == TodoIds(todos)
    ensures forall i :: 0 <= i < |todos| ==>
      r[i] == if todos[i].id == id then todos[i].(completed := !todos[i].completed) else todos[i]
  {
    UpdateKeyKeepsKeys(todos, TodoId, id, Toggled);
    UpdateKey(todos, TodoId, id, Toggled)
  }

  /** Toggling twice restores the list. */
  lemma ToggleTwice(todos: seq<Todo>, id: string)
    ensures ToggleTodo(ToggleTodo(todos, id), id) == todos
  {
    UpdateKeyTwice(todos, TodoId, id, Toggled);
  }

  lemma ToggleUnknownId(todos: seq<Todo>, id: string)
    requires id !in TodoIds(todos)
    ensures ToggleTodo(todos, id) == todos
  {
    UpdateAbsentKey(todos, TodoId, id, Toggled);
  }

  /** `handleTodoDelete`. */
  function DeleteTodo(todos: seq<Todo>, id: string): (r: seq<Todo>)
    ensures forall t :: t in r <==> t in todos && t.id != id
    ensures forall t :: multiset(r)[t] == if t.id != id then multiset(todos)[t] else 0
    ensures IsSubsequence(r, todos) && id !in TodoIds(r)
    ensures Distinct(TodoIds(todos)) ==> Distinct(TodoIds(r))
  {
    RemoveKey(todos, TodoId, id)
  }

  // ---------------------------------------------------------------- notes

  /** `{ ...n, ...p, updatedAt: now }`: a merge that always stamps the update time. */
  function MergeNote(n: Note, p: NotePatch, now: Timestamp): Note {
    Note(p.id.GetOr(n.id), p.title.GetOr(n.title), p.content.GetOr(n.content),
         p.createdAt.GetOr(n.createdAt), now)
  }

  const NoNoteChanges := NotePatch(None, None, None, None, None)

  /** Spreading an empty patch only stamps the update time. */
  lemma MergeNoteEmpty(n: Note, now: Timestamp)
    ensures MergeNote(n, NoNoteChanges, now) == n.(updatedAt := now)
  {
  }

  lemma MergeNoteIdempotent(n: Note, p: NotePatch, now: Timestamp)
    ensures MergeNote(MergeNote(n, p, now), p, now) == MergeNote(n, p, now)
  {
  }

  predicate CanCreateNote(p: NotePatch) {
    p.title.Some? && p.content.Some?
  }

  /** A new note has the fresh id and was created and last updated now; its
      title and content come from the patch. */
  function NewNote(p: NotePatch, newId: string, now: Timestamp): (r: Note)
    requires CanCreateNote(p)
    ensures r.id == newId && r.createdAt == now && r.updatedAt == now
  {
    Note(newId, p.title.value, p.content.value, now, now)
  }

  /** Apart from the id and the two times, a created note holds the patch. */
  lemma NewNoteHoldsPatch(p: NotePatch, newId: string, now: Timestamp)
    requires CanCreateNote(p)
    ensures var n := NewNote(p, newId, now); MergeNote(n, p.(id := None, createdAt := None), now) == n
  {
  }

  /** `handleNoteSave`. */
  function SaveNote(notes: seq<Note>, p: NotePatch, newId: string, now: Timestamp): (r: seq<Note>)
    requires HasId(p.id) || CanCreateNote(p)
    ensures HasId(p.id) ==> |r| == |notes| && NoteIds(r) == NoteIds(notes)
    ensures HasId(p.id) ==> forall i :: 0 <= i < |notes| ==>
      r[i] == if notes[i].id == p.id.value then MergeNote(notes[i], p, now) else notes[i]
    ensures !HasId(p.id) ==> |r| == |notes| + 1 && r[..|notes|] == notes
    ensures !HasId(p.id) ==> var n := r[|notes|];
      n.id == newId && n.createdAt == now && n.updatedAt == now &&
      n.title == p.title.value && n.content == p.content.value
  {
    if HasId(p.id) then
      var merge := (n: Note) => MergeNote(n, p, now);
      UpdateKeyKeepsKeys(notes, NoteId, p.id.value, merge);
      UpdateKey(notes, NoteId, p.id.value, merge)
    else
      notes + [NewNote(p, newId, now)]
  }

  /** An updated note carries `updatedAt = now` even when the patch has its own,
      and keeps its `createdAt` when the patch has none. */
  lemma SaveNoteStampsUpdate(notes: seq<Note>, p: NotePatch, newId: string, now: Timestamp, i: nat)
    requires HasId(p.id) && i < |notes| && notes[i].id == p.id.value
    ensures var n := SaveNote(notes, p, newId, now)[i];
      n.updatedAt == now && (p.createdAt.None? ==> n.createdAt == notes[i].createdAt) &&
      (p.title.None? ==> n.title == notes[i].title) && (p.content.None? ==> n.content == notes[i].content)
  {
  }

  /** Every note was updated no earlier than it was created. */
  ghost predicate TimestampsOrdered(notes: seq<Note>) {
    forall i :: 0 <= i < |notes| ==> notes[i].createdAt <= notes[i].updatedAt
  }

  /** With a clock that never reads earlier than a stored creation time, and a
      patch that does not overwrite `createdAt`, saving keeps updates no earlier
      than creations. */
  lemma SaveNoteKeepsTimestampsOrdered(notes: seq<Note>, p: NotePatch, newId: string, now: Timestamp)
    requires HasId(p.id) || CanCreateNote(p)
    requires TimestampsOrdered(notes) && p.createdAt.None?
    requires forall i :: 0 <= i < |notes| ==> notes[i].createdAt <= now
    ensures TimestampsOrdered(SaveNote(notes, p, newId, now))
  {
  }

  lemma SaveNoteUnknownId(notes: seq<Note>, p: NotePatch, newId: string, now: Timestamp)
    requires HasId(p.id) && p.id.value !in NoteIds(notes)
    ensures SaveNote(notes, p, newId, now) == notes
  {
    UpdateAbsentKey(notes, NoteId, p.id.value, (n: Note) => MergeNote(n, p, now));
  }

  lemma SaveNoteKeepsIdsUnique(notes: seq<Note>, p: NotePatch, newId: string, now: Timestamp)
    requires HasId(p.id) || CanCreateNote(p)
    requires Distinct(NoteIds(notes))
    requires !HasId(p.id) ==> newId !in NoteIds(notes)
    ensures Distinct(NoteIds(SaveNote(notes, p, newId, now)))
  {
    if !HasId(p.id) {
      AppendKeepsDistinctKeys(notes, NewNote(p, newId, now), NoteId);
    }
  }

  /** `handleNoteDelete`. */
  function DeleteNote(notes: seq<Note>, id: string): (r: seq<Note>)
    ensures forall n :: n in r <==> n in notes && n.id != id
    ensures forall n :: multiset(r)[n] == if n.id != id then multiset(notes)[n] else 0
    ensures IsSubsequence(r, notes) && id !in NoteIds(r)
    ensures Distinct(NoteIds(notes)) ==> Distinct(NoteIds(r))
  {
    RemoveKey(notes, NoteId, id)
  }
}
