/** The todo list view: the all / pending / completed filter, the counts on its
    buttons and the message shown when the filtered list is empty. */
module TodoListView {
  import opened Wrappers
  import opened Sequences
  import opened Types

  datatype TodoFilter = All | Pending | Completed

  function IsPending(t: Todo): bool { !t.completed }
  function IsCompleted(t: Todo): bool { t.completed }
  function Anything(t: Todo): bool { true }

  /** The predicate `filteredTodos` applies under a filter. */
  function Selects(filter: TodoFilter): Todo -> bool {
    match filter
    case Pending => IsPending
    case Completed => IsCompleted
    case All => Anything
  }

  /** `filteredTodos`: `all` keeps every todo, `pending` exactly the open ones,
      `completed` exactly the done ones, each in list order. */
  function FilteredTodos(todos: seq<Todo>, filter: TodoFilter): (r: seq<Todo>)
    ensures IsSubsequence(r, todos)
    ensures filter == All ==> r == todos
    ensures filter == Pending ==> forall t :: t in r <==> t in todos && !t.completed
    ensures filter == Completed ==> forall t :: t in r <==> t in todos && t.completed
    ensures filter == Pending ==> forall t :: multiset(r)[t] == if !t.completed then multiset(todos)[t] else 0
    ensures filter == Completed ==> forall t :: multiset(r)[t] == if t.completed then multiset(todos)[t] else 0
  {
    FilterCounts(todos, Selects(filter));
    FilterIsSubsequence(todos, Selects(filter));
    FilterKeepsAll(todos, Anything);
    Filter(todos, Selects(filter))
  }

  /** `pendingCount`: zero exactly when every todo is done, the whole length
      exactly when none is. */
  function PendingCount(todos: seq<Todo>): (r: nat)
    ensures r <= |todos|
    ensures r == 0 <==> forall t :: t in todos ==> t.completed
    ensures r == |todos| <==> forall t :: t in todos ==> !t.completed
  {
    FilterLength(todos, IsPending);
    |Filter(todos, IsPending)|
  }

  /** `completedCount`: zero exactly when every todo is open, the whole length
      exactly when every todo is done. */
  function CompletedCount(todos: seq<Todo>): (r: nat)
    ensures r <= |todos|
    ensures r == 0 <==> forall t :: t in todos ==> !t.completed
    ensures r == |todos| <==> forall t :: t in todos ==> t.completed
  {
    FilterLength(todos, IsCompleted);
    |Filter(todos, IsCompleted)|
  }

  /** The pending and completed lists are disjoint and together hold every todo
      exactly once, so the two counts add up to the `All` count. */
  lemma PendingAndCompletedPartition(todos: seq<Todo>)
    ensures PendingCount(todos) + CompletedCount(todos) == |todos|
    ensures multiset(FilteredTodos(todos, Pending)) + multiset(FilteredTodos(todos, Completed)) == multiset(todos)
    ensures forall t :: !(t in FilteredTodos(todos, Pending) && t in FilteredTodos(todos, Completed))
  {
    FilterComplement(todos, IsCompleted, IsPending);
  }

  /** The count shown on each filter button is the length of the list that
      filter shows. */
  lemma CountsMatchFilters(todos: seq<Todo>)
    ensures |FilteredTodos(todos, Pending)| == PendingCount(todos)
    ensures |FilteredTodos(todos, Completed)| == CompletedCount(todos)
    ensures |FilteredTodos(todos, All)| == |todos|
  {
  }

  const NoTodosMessage := "No todos yet. Create your first one!"
  const NoPendingMessage := "No pending todos. Great job!"
  const NoCompletedMessage := "No completed todos yet."

  /** The placeholder shown instead of the list: present exactly when the
      filtered list is empty, and worded by the current filter. */
  function EmptyMessage(todos: seq<Todo>, filter: TodoFilter): (r: Option<string>)
    ensures r.Some? <==> FilteredTodos(todos, filter) == []
    ensures filter == All ==> (r.Some? <==> todos == [])
    ensures r.Some? ==> r.value == match filter
      case All => NoTodosMessage
      case Pending => NoPendingMessage
      case Completed => NoCompletedMessage
  {
    if |FilteredTodos(todos, filter)| != 0 then None
    else if filter == All then Some(NoTodosMessage)
    else if filter == Pending then Some(NoPendingMessage)
    else Some(NoCompletedMessage)
  }

  /** The filter selector, the list's only state. */
  class TodoList {
    var filter: TodoFilter

    constructor ()
      ensures filter == All
    {
      filter := All;
    }

    /** One of the three filter buttons. */
    method SetFilter(f: TodoFilter)
      modifies this
      ensures filter == f
    {
      filter := f;
    }
  }
}
