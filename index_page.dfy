/** The organizer's top-level page: the active tab, the three persisted
    collections and the state of the three dialogs, with the handlers that
    overwrite them. Loading the collections from storage is outside the model:
    the constructor receives what was loaded. */
module IndexPage {
  import opened Wrappers
  import opened Sequences
  import opened Types
  import opened Collections

  datatype Tab = CalendarTab | TodosTab | NotesTab

  datatype EventDialogState = EventDialogState(isOpen: bool, event: Option<Event>, selectedDate: Option<Date>)
  datatype TodoDialogState = TodoDialogState(isOpen: bool, todo: Option<Todo>)
  datatype NoteDialogState = NoteDialogState(isOpen: bool, note: Option<Note>)

  /** `{ isOpen: false }`. */
  const ClosedEventDialog := EventDialogState(false, None, None)
  const ClosedTodoDialog := TodoDialogState(false, None)
  const ClosedNoteDialog := NoteDialogState(false, None)

  class App {
    var activeTab: Tab
    var events: seq<Event>
    var todos: seq<Todo>
    var notes: seq<Note>
    var eventDialog: EventDialogState
    var todoDialog: TodoDialogState
    var noteDialog: NoteDialogState

    /** No id occurs twice within a collection. */
    ghost predicate IdsUnique()
      reads this
    {
      Distinct(EventIds(events)) && Distinct(TodoIds(todos)) && Distinct(NoteIds(notes))
    }

    constructor (storedEvents: seq<Event>, storedTodos: seq<Todo>, storedNotes: seq<Note>)
      ensures activeTab == CalendarTab
      ensures events == storedEvents && todos == storedTodos && notes == storedNotes
      ensures eventDialog == ClosedEventDialog && todoDialog == ClosedTodoDialog && noteDialog == ClosedNoteDialog
    {
      activeTab := CalendarTab;
      events, todos, notes := storedEvents, storedTodos, storedNotes;
      eventDialog, todoDialog, noteDialog := ClosedEventDialog, ClosedTodoDialog, ClosedNoteDialog;
    }

    /** `onTabChange`. */
    method SetActiveTab(tab: Tab)
      modifies this`activeTab
      ensures activeTab == tab
    {
      activeTab := tab;
    }

    // ---------------------------------------------------------------- events

    /** `handleEventCreate`: open the event dialog to create an event on `date`. */
    method EventCreate(date: Date)
      modifies this`eventDialog
      ensures eventDialog == EventDialogState(true, None, Some(date))
    {
      eventDialog := EventDialogState(true, None, Some(date));
    }

    /** `handleEventClick`: open the event dialog on an existing event. */
    method EventClick(event: Event)
      modifies this`eventDialog
      ensures eventDialog == EventDialogState(true, Some(event), None)
    {
      eventDialog := EventDialogState(true, Some(event), None);
    }

    method CloseEventDialog()
      modifies this`eventDialog
      ensures eventDialog == ClosedEventDialog
    {
      eventDialog := ClosedEventDialog;
    }

    /** `handleEventSave`. */
    method EventSave(p: EventPatch, newId: string, now: Timestamp)
      requires HasId(p.id) || CanCreateEvent(p)
      modifies this`events
      ensures events == SaveEvent(old(events), p, newId, now)
      ensures old(IdsUnique()) && (!HasId(p.id) ==> newId !in EventIds(old(events))) ==> IdsUnique()
    {
      if IdsUnique() && (!HasId(p.id) ==> newId !in EventIds(events)) {
        SaveEventKeepsIdsUnique(events, p, newId, now);
      }
      events := SaveEvent(events, p, newId, now);
    }

    /** `handleEventDelete`. */
    method EventDelete(id: string)
      modifies this`events
      ensures events == DeleteEvent(old(events), id)
      ensures old(IdsUnique()) ==> IdsUnique()
    {
      events := DeleteEvent(events, id);
    }

    // ---------------------------------------------------------------- todos

    /** `handleTodoCreate`. */
    method TodoCreate()
      modifies this`todoDialog
      ensures todoDialog == TodoDialogState(true, None)
    {
      todoDialog := TodoDialogState(true, None);
    }

    /** `handleTodoEdit`. */
    method TodoEdit(todo: Todo)
      modifies this`todoDialog
      ensures todoDialog == TodoDialogState(true, Some(todo))
    {
      todoDialog := TodoDialogState(true, Some(todo));
    }

    method CloseTodoDialog()
      modifies this`todoDialog
      ensures todoDialog == ClosedTodoDialog
    {
      todoDialog := ClosedTodoDialog;
    }

    /** `handleTodoSave`. */
    method TodoSave(p: TodoPatch, newId: string, now: Timestamp)
      requires HasId(p.id) || CanCreateTodo(p)
      modifies this`todos
      ensures todos == SaveTodo(old(todos), p, newId, now)
      ensures old(IdsUnique()) && (!HasId(p.id) ==> newId !in TodoIds(old(todos))) ==> IdsUnique()
    {
      if IdsUnique() && (!HasId(p.id) ==> newId !in TodoIds(todos)) {
        SaveTodoKeepsIdsUnique(todos, p, newId, now);
      }
      todos := SaveTodo(todos, p, newId, now);
    }

    /** `handleTodoToggle`. */
    method TodoToggle(id: string)
      modifies this`todos
      ensures todos == ToggleTodo(old(todos), id)
      ensures old(IdsUnique()) ==> IdsUnique()
    {
      todos := ToggleTodo(todos, id);
    }

    /** `handleTodoDelete`. */
    method TodoDelete(id: string)
      modifies this`todos
      ensures todos == DeleteTodo(old(todos), id)
      ensures old(IdsUnique()) ==> IdsUnique()
    {
      todos := DeleteTodo(todos, id);
    }

    // ---------------------------------------------------------------- notes

    /** `handleNoteCreate`. */
    method NoteCreate()
      modifies this`noteDialog
      ensures noteDialog == NoteDialogState(true, None)
    {
      noteDialog := NoteDialogState(true, None);
    }

    /** `handleNoteEdit`. */
    method NoteEdit(note: Note)
      modifies this`noteDialog
      ensures noteDialog == NoteDialogState(true, Some(note))
    {
      noteDialog := NoteDialogState(true, Some(note));
    }

    method CloseNoteDialog()
      modifies this`noteDialog
      ensures noteDialog == ClosedNoteDialog
    {
      noteDialog := ClosedNoteDialog;
    }

    /** `handleNoteSave`: reads the clock once and uses it for every timestamp. */
    method NoteSave(p: NotePatch, newId: string, now: Timestamp)
      requires HasId(p.id) || CanCreateNote(p)
      modifies this`notes
      ensures notes == SaveNote(old(notes), p, newId, now)
      ensures old(IdsUnique()) && (!HasId(p.id) ==> newId !in NoteIds(old(notes))) ==> IdsUnique()
    {
      if IdsUnique() && (!HasId(p.id) ==> newId !in NoteIds(notes)) {
        SaveNoteKeepsIdsUnique(notes, p, newId, now);
      }
      notes := SaveNote(notes, p, newId, now);
    }

    /** `handleNoteDelete`. */
    method NoteDelete(id: string)
      modifies this`notes
      ensures notes == DeleteNote(old(notes), id)
      ensures old(IdsUnique()) ==> IdsUnique()
    {
      notes := DeleteNote(notes, id);
    }
  }
}
