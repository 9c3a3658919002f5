/** The three record kinds of the organizer (`Todo`, `Event`, `Note`) and the
    `Partial<T>` patches that dialogs hand to the collection operations.

    A JavaScript `Date` used as a calendar day is a `Date(year, month, day)`
    triple, with month 1-12; a `Date` that failed to parse is `InvalidDate`.
    Creation and update instants are `Timestamp`s (ordered numbers). */
module Types {
  import opened Wrappers

  type Timestamp = int

  datatype Date = Date(year: int, month: int, day: int) | InvalidDate

  datatype Priority = Low | Medium | High

  datatype Todo = Todo(
    id: string,
    title: string,
    completed: bool,
    priority: Priority,
    dueDate: Option<Date>,
    createdAt: Timestamp)

  datatype Event = Event(
    id: string,
    title: string,
    description: Option<string>,
    date: Date,
    startTime: string,
    endTime: string,
    color: string,
    createdAt: Timestamp)

  datatype Note = Note(
    id: string,
    title: string,
    content: string,
    createdAt: Timestamp,
    updatedAt: Timestamp)

  function TodoId(t: Todo): string { t.id }
  function EventId(e: Event): string { e.id }
  function NoteId(n: Note): string { n.id }
  function TodoTitle(t: Todo): string { t.title }
  function EventTitle(e: Event): string { e.title }

  /** The literal string of a priority, as stored and as shown on a todo's badge. */
  function PriorityName(p: Priority): (r: string)
    ensures r == "low" || r == "medium" || r == "high"
  {
    match p
    case Low => "low"
    case Medium => "medium"
    case High => "high"
  }

  /** The priority a literal string names, if any. */
  function ParsePriority(s: string): (r: Option<Priority>)
    ensures r.Some? <==> s == "low" || s == "medium" || s == "high"
    ensures r.Some? ==> PriorityName(r.value) == s
  {
    if s == "low" then Some(Low)
    else if s == "medium" then Some(Medium)
    else if s == "high" then Some(High)
    else None
  }

  /** Priorities and their literal strings correspond one to one. */
  lemma PriorityNameRoundTrip(p: Priority)
    ensures ParsePriority(PriorityName(p)) == Some(p)
  {
  }

  /** `Partial<T>`: a key of the record is absent (`None`) or present (`Some`).
      For the optional record fields a present key may hold `undefined`, which
      JavaScript's spread copies over the old value: such a patch field is an
      `Option<Option<T>>`, and `Some(None)` clears the field. */
  datatype TodoPatch = TodoPatch(
    id: Option<string>,
    title: Option<string>,
    completed: Option<bool>,
    priority: Option<Priority>,
    dueDate: Option<Option<Date>>,
    createdAt: Option<Timestamp>)

  datatype EventPatch = EventPatch(
    id: Option<string>,
    title: Option<string>,
    description: Option<Option<string>>,
    date: Option<Date>,
    startTime: Option<string>,
    endTime: Option<string>,
    color: Option<string>,
    createdAt: Option<Timestamp>)

  datatype NotePatch = NotePatch(
    id: Option<string>,
    title: Option<string>,
    content: Option<string>,
    createdAt: Option<Timestamp>,
    updatedAt: Option<Timestamp>)
}
