/** The todo dialog: its three form fields, how opening it fills them, the patch
    its Save button builds, and its Save and Delete buttons. */
module TodoDialogs {
  import opened Wrappers
  import opened Sequences
  import opened Types
  import opened Text
  import opened Collections
  import opened IndexPage

  /** The form's contents. The due-date input holds `None` while it is empty. */
  datatype TodoFields = TodoFields(title: string, priority: Priority, dueDate: Option<Date>)

  const InitialTodoFields := TodoFields("", Medium, None)

  /** The effect run when `todo` changes: copy the edited todo, or reset. */
  function Synced(todo: Option<Todo>): (r: TodoFields)
    ensures todo.Some? ==> r.title == todo.value.title && r.priority == todo.value.priority && r.dueDate == todo.value.dueDate
    ensures todo.None? ==> r.title == "" && r.priority == Medium && r.dueDate.None?
  {
    if todo.Some? then TodoFields(todo.value.title, todo.value.priority, todo.value.dueDate)
    else InitialTodoFields
  }

  /** `handleSave`'s `todoData`: the title exactly as typed, the priority, the
      due date (present but `undefined` when the input is empty), and the id
      and completion flag of the edited todo, if any. */
  function SavePatch(f: TodoFields, todo: Option<Todo>): (p: TodoPatch)
    ensures p.id.Some? <==> todo.Some?
    ensures p.completed.Some? <==> todo.Some?
    ensures todo.Some? ==> p.id == Some(todo.value.id) && p.completed == Some(todo.value.completed)
    ensures CanCreateTodo(p) && p.createdAt.None?
    ensures p.title == Some(f.title) && p.priority == Some(f.priority) && p.dueDate == Some(f.dueDate)
  {
    TodoPatch(
      if todo.Some? then Some(todo.value.id) else None,
      Some(f.title),
      if todo.Some? then Some(todo.value.completed) else None,
      Some(f.priority), Some(f.dueDate), None)
  }

  /** Every todo a save leaves in the collection is either an untouched old
      one or carries the form's title; with Save enabled only while the title
      has text, no blank title reaches the collection. */
  lemma SaveWritesFormTitle(todos: seq<Todo>, f: TodoFields, todo: Option<Todo>, newId: string, now: Timestamp)
    ensures UntouchedOrKeyed(todos, SaveTodo(todos, SavePatch(f, todo), newId, now), TodoTitle, f.title)
  {
    var p := SavePatch(f, todo);
    var r := SaveTodo(todos, p, newId, now);
    forall i | 0 <= i < |r|
      ensures (i < |todos| && r[i] == todos[i]) || r[i].title == f.title
    {
      if !HasId(p.id) && i < |todos| {
        assert r[i] == r[..|todos|][i];
      }
    }
  }

  /** So a save from an enabled Save button writes no blank title. */
  lemma SaveWritesNoBlankTitle(todos: seq<Todo>, f: TodoFields, todo: Option<Todo>, newId: string, now: Timestamp)
    requires !AllWhitespace(f.title)
    ensures var r := SaveTodo(todos, SavePatch(f, todo), newId, now);
      forall i :: 0 <= i < |r| ==> (i < |todos| && r[i] == todos[i]) || HasText(r[i].title)
  {
    var r := SaveTodo(todos, SavePatch(f, todo), newId, now);
    SaveWritesFormTitle(todos, f, todo, newId, now);
    forall i | 0 <= i < |r| && !(i < |todos| && r[i] == todos[i])
      ensures HasText(r[i].title)
    {
      assert r[i].title == f.title;
    }
  }

  /** Saving an edit replaces title, priority and due date by the form's (an
      emptied due date removes the old one) and keeps id, completion and
      creation time. */
  lemma EditSave(t: Todo, f: TodoFields)
    ensures MergeTodo(t, SavePatch(f, Some(t))) ==
      Todo(t.id, f.title, t.completed, f.priority, f.dueDate, t.createdAt)
  {
  }

  /** Opening a todo and saving it untouched gives back the same todo. */
  lemma EditUntouchedRoundTrip(t: Todo)
    ensures MergeTodo(t, SavePatch(Synced(Some(t)), Some(t))) == t
  {
  }

  /** Creating "Ship report" with high priority gives an open todo; toggling it
      completes it, and toggling again reopens it. */
  lemma ShipReportScenario(todos: seq<Todo>, newId: string, now: Timestamp)
    requires newId !in TodoIds(todos)
    ensures var r := SaveTodo(todos, SavePatch(TodoFields("Ship report", High, None), None), newId, now);
      var once := ToggleTodo(r, newId);
      !r[|todos|].completed && once[|todos|].completed && !ToggleTodo(once, newId)[|todos|].completed
  {
    var r := SaveTodo(todos, SavePatch(TodoFields("Ship report", High, None), None), newId, now);
    assert r[|todos|].id == newId;
  }

  class TodoDialog {
    var title: string
    var priority: Priority
    var dueDate: Option<Date>

    function Fields(): TodoFields
      reads this
    {
      TodoFields(title, priority, dueDate)
    }

    constructor ()
      ensures Fields() == InitialTodoFields
    {
      title, priority, dueDate := "", Medium, None;
    }

    /** The `useEffect` on `[todo]`. */
    method Sync(todo: Option<Todo>)
      modifies this
      ensures Fields() == Synced(todo)
    {
      if todo.Some? {
        title := todo.value.title;
        priority := todo.value.priority;
        dueDate := todo.value.dueDate;
      } else {
        title := "";
        priority := Medium;
        dueDate := None;
      }
    }

    /** `handleSave`: `onSave(todoData)`, then `onClose()`; the button is
        disabled while the title is all whitespace (`!title.trim()`). */
    method Save(app: App, newId: string, now: Timestamp)
      requires !AllWhitespace(Fields().title)
      modifies app`todos, app`todoDialog
      ensures app.todos == SaveTodo(old(app.todos), SavePatch(Fields(), old(app.todoDialog.todo)), newId, now)
      ensures UntouchedOrKeyed(old(app.todos), app.todos, TodoTitle, Fields().title)
      ensures app.todoDialog == ClosedTodoDialog
    {
      var p := SavePatch(Fields(), app.todoDialog.todo);
      ghost var before := app.todos;
      SaveWritesFormTitle(before, Fields(), app.todoDialog.todo, newId, now);
      app.TodoSave(p, newId, now);
      assert app.todos == SaveTodo(before, p, newId, now);
      app.CloseTodoDialog();
    }

    /** `handleDelete`: only when a todo is being edited, delete it and close. */
    method Delete(app: App)
      modifies app`todos, app`todoDialog
      ensures old(app.todoDialog.todo).Some? ==>
        app.todos == DeleteTodo(old(app.todos), old(app.todoDialog.todo).value.id) &&
        app.todoDialog == ClosedTodoDialog
      ensures old(app.todoDialog.todo).None? ==>
        app.todos == old(app.todos) && app.todoDialog == old(app.todoDialog)
    {
      if app.todoDialog.todo.Some? {
        app.TodoDelete(app.todoDialog.todo.value.id);
        app.CloseTodoDialog();
      }
    }
  }
}
