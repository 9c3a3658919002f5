/** The event dialog: its six form fields, how opening it fills them, the patch
    its Save button builds, and its Save and Delete buttons (Save only while
    the title has text), which call the page's handlers and then close the dialog. */
module EventDialogs {
  import opened Wrappers
  import opened Sequences
  import opened Types
  import opened Text
  import opened Dates
  import opened Collections
  import opened CalendarViews
  import opened IndexPage

  /** The palette; the first colour is the default. */
  const EventColors: seq<string> := ["#f97316", "#eab308", "#84cc16", "#06b6d4", "#8b5cf6", "#ec4899"]
  const DefaultStartTime := "09:00"
  const DefaultEndTime := "10:00"

  /** The form's contents. The date input holds `None` while it is empty. */
  datatype EventFields = EventFields(
    title: string, description: string, date: Option<Date>,
    startTime: string, endTime: string, color: string)

  const InitialEventFields := EventFields("", "", None, DefaultStartTime, DefaultEndTime, EventColors[0])

  /** The effect run when `event` or `selectedDate` changes: copy an edited
      event, seed a new one on the selected day, or otherwise keep the form. */
  function Synced(f: EventFields, event: Option<Event>, selectedDate: Option<Date>): (r: EventFields)
    ensures event.Some? ==> DateOfInput(r.date) == event.value.date && r.title == event.value.title
    ensures event.None? && selectedDate.Some? ==>
      r.title == "" && DateOfInput(r.date) == selectedDate.value &&
      r.startTime == DefaultStartTime && r.endTime == DefaultEndTime && r.color == EventColors[0]
    ensures event.None? && selectedDate.None? ==> r == f
  {
    if event.Some? then
      var e := event.value;
      EventFields(e.title, e.description.GetOr(""), Some(e.date), e.startTime, e.endTime, e.color)
    else if selectedDate.Some? then
      EventFields("", "", Some(selectedDate.value), DefaultStartTime, DefaultEndTime, EventColors[0])
    else
      f
  }

  /** `new Date(date)` of the date input. */
  function DateOfInput(input: Option<Date>): Date {
    input.GetOr(InvalidDate)
  }

  /** A filled date input gives its date; an emptied one gives an invalid
      date, which is on no calendar day. */
  lemma DateOfInputCases(input: Option<Date>, day: Date)
    ensures input.Some? ==> DateOfInput(input) == input.value
    ensures input.None? ==> !ValidDate(DateOfInput(input)) && !SameDay(DateOfInput(input), day)
  {
  }

  /** `handleSave`'s `eventData`: the id exactly when an event is being edited,
      and always every editable field, the description as `''` rather than
      omitted; enough for the page to create an event from it. */
  function SavePatch(f: EventFields, event: Option<Event>): (p: EventPatch)
    ensures p.id.Some? <==> event.Some?
    ensures event.Some? ==> p.id == Some(event.value.id)
    ensures CanCreateEvent(p) && p.createdAt.None?
    ensures p.title == Some(f.title) && p.description == Some(Some(f.description))
    ensures p.date == Some(DateOfInput(f.date)) && p.startTime == Some(f.startTime)
    ensures p.endTime == Some(f.endTime) && p.color == Some(f.color)
  {
    EventPatch(
      if event.Some? then Some(event.value.id) else None,
      Some(f.title), Some(Some(f.description)), Some(DateOfInput(f.date)),
      Some(f.startTime), Some(f.endTime), Some(f.color), None)
  }

  /** Every event a save leaves in the collection is either an untouched old
      one or carries the form's title; with Save enabled only while the title
      has text, no blank title reaches the collection. */
  lemma SaveWritesFormTitle(events: seq<Event>, f: EventFields, event: Option<Event>, newId: string, now: Timestamp)
    ensures UntouchedOrKeyed(events, SaveEvent(events, SavePatch(f, event), newId, now), EventTitle, f.title)
  {
    var p := SavePatch(f, event);
    var r := SaveEvent(events, p, newId, now);
    forall i | 0 <= i < |r|
      ensures (i < |events| && r[i] == events[i]) || r[i].title == f.title
    {
      if !HasId(p.id) && i < |events| {
        assert r[i] == r[..|events|][i];
      }
    }
  }

  /** So a save from an enabled Save button writes no blank title. */
  lemma SaveWritesNoBlankTitle(events: seq<Event>, f: EventFields, event: Option<Event>, newId: string, now: Timestamp)
    requires !AllWhitespace(f.title)
    ensures var r := SaveEvent(events, SavePatch(f, event), newId, now);
      forall i :: 0 <= i < |r| ==> (i < |events| && r[i] == events[i]) || HasText(r[i].title)
  {
    var r := SaveEvent(events, SavePatch(f, event), newId, now);
    SaveWritesFormTitle(events, f, event, newId, now);
    forall i | 0 <= i < |r| && !(i < |events| && r[i] == events[i])
      ensures HasText(r[i].title)
    {
      assert r[i].title == f.title;
    }
  }

  /** Opening an event and saving it untouched gives back the same event, except
      that a missing description is now `''`. */
  lemma EditUntouchedRoundTrip(e: Event, f: EventFields, selectedDate: Option<Date>)
    ensures MergeEvent(e, SavePatch(Synced(f, Some(e), selectedDate), Some(e))) ==
      e.(description := Some(e.description.GetOr("")))
  {
  }

  /** Clicking a day, typing a title and saving appends that event, with the
      default times and colour, and the calendar then shows it on that day. */
  lemma CreateOnDayShowsOnDay(events: seq<Event>, f: EventFields, day: Date, title: string, newId: string, now: Timestamp)
    requires ValidDate(day)
    ensures var form := Synced(f, None, Some(day)).(title := title);
      var r := SaveEvent(events, SavePatch(form, None), newId, now);
      r[|events|] == Event(newId, title, Some(""), day, DefaultStartTime, DefaultEndTime, EventColors[0], now) &&
      r[|events|] in EventsForDay(r, day)
  {
  }

  /** An event saved while the date input is empty is on no calendar day, so the
      calendar never shows it. */
  lemma EmptiedDateIsOnNoDay(events: seq<Event>, f: EventFields, newId: string, now: Timestamp, day: Date)
    requires f.date.None?
    ensures var r := SaveEvent(events, SavePatch(f, None), newId, now);
      r[|events|].date == InvalidDate && r[|events|] !in EventsForDay(r, day)
  {
  }

  class EventDialog {
    var title: string
    var description: string
    var date: Option<Date>
    var startTime: string
    var endTime: string
    var color: string

    function Fields(): EventFields
      reads this
    {
      EventFields(title, description, date, startTime, endTime, color)
    }

    constructor ()
      ensures Fields() == InitialEventFields
    {
      title, description, date := "", "", None;
      startTime, endTime, color := DefaultStartTime, DefaultEndTime, EventColors[0];
    }

    /** The `useEffect` on `[event, selectedDate]`. */
    method Sync(event: Option<Event>, selectedDate: Option<Date>)
      modifies this
      ensures Fields() == Synced(old(Fields()), event, selectedDate)
    {
      if event.Some? {
        var e := event.value;
        title := e.title;
        description := e.description.GetOr("");
        date := Some(e.date);
        startTime := e.startTime;
        endTime := e.endTime;
        color := e.color;
      } else if selectedDate.Some? {
        title := "";
        description := "";
        date := Some(selectedDate.value);
        startTime := DefaultStartTime;
        endTime := DefaultEndTime;
        color := EventColors[0];
      }
    }

    /** `handleSave`: `onSave(eventData)`, then `onClose()`; the dialog's `event`
        is the page's `eventDialog.event`, and the button is disabled while
        the title is all whitespace (`!title.trim()`). */
    method Save(app: App, newId: string, now: Timestamp)
      requires !AllWhitespace(Fields().title)
      modifies app`events, app`eventDialog
      ensures app.events == SaveEvent(old(app.events), SavePatch(Fields(), old(app.eventDialog.event)), newId, now)
      ensures UntouchedOrKeyed(old(app.events), app.events, EventTitle, Fields().title)
      ensures app.eventDialog == ClosedEventDialog
    {
      var p := SavePatch(Fields(), app.eventDialog.event);
      ghost var before := app.events;
      SaveWritesFormTitle(before, Fields(), app.eventDialog.event, newId, now);
      app.EventSave(p, newId, now);
      assert app.events == SaveEvent(before, p, newId, now);
      app.CloseEventDialog();
    }

    /** `handleDelete`: only when an event is being edited, delete it and close. */
    method Delete(app: App)
      modifies app`events, app`eventDialog
      ensures old(app.eventDialog.event).Some? ==>
        app.events == DeleteEvent(old(app.events), old(app.eventDialog.event).value.id) &&
        app.eventDialog == ClosedEventDialog
      ensures old(app.eventDialog.event).None? ==>
        app.events == old(app.events) && app.eventDialog == old(app.eventDialog)
    {
      if app.eventDialog.event.Some? {
        app.EventDelete(app.eventDialog.event.value.id);
        app.CloseEventDialog();
      }
    }
  }
}
