/** The calendar view: the displayed month, the days it lists, the events of a
    day and the badges of a day cell. */
module CalendarViews {
  import opened Wrappers
  import opened Sequences
  import opened Types
  import opened Dates
  import opened Collections

  function OnDay(day: Date): Event -> bool {
    (e: Event) => SameDay(e.date, day)
  }

  /** `getEventsForDay`: the events on the same calendar day as `day`, in the
      order of the collection; an event whose date is invalid is on no day. */
  function EventsForDay(events: seq<Event>, day: Date): (r: seq<Event>)
    ensures forall e :: e in r <==> e in events && SameDay(e.date, day)
    ensures forall e :: multiset(r)[e] == if SameDay(e.date, day) then multiset(events)[e] else 0
    ensures IsSubsequence(r, events)
    ensures forall e :: e in r ==> ValidDate(e.date)
  {
    FilterCounts(events, OnDay(day));
    FilterIsSubsequence(events, OnDay(day));
    Filter(events, OnDay(day))
  }

  const MaxBadges := 2

  /** `dayEvents.slice(0, 2)`: the events given a badge. */
  function Badges(dayEvents: seq<Event>): (r: seq<Event>)
    ensures |r| <= MaxBadges && r <= dayEvents
    ensures |dayEvents| <= MaxBadges ==> r == dayEvents
  {
    Take(dayEvents, MaxBadges)
  }

  /** The `+k more` line: present exactly when there are more than two events. */
  function MoreCount(dayEvents: seq<Event>): (r: Option<nat>)
    ensures r.Some? <==> |dayEvents| > MaxBadges
    ensures r.Some? ==> r.value == |dayEvents| - MaxBadges
  {
    if |dayEvents| > MaxBadges then Some(|dayEvents| - MaxBadges) else None
  }

  /** Every event of a day is either given a badge or counted in `+k more`. */
  lemma BadgesAndMoreCoverDay(dayEvents: seq<Event>)
    ensures |Badges(dayEvents)| + MoreCount(dayEvents).GetOr(0) == |dayEvents|
  {
  }

  /** `title.slice(0, 8) + '...'`: the ellipsis is added even to short titles. */
  function BadgeLabel(title: string): (r: string)
    ensures |r| == Min(8, |title|) + 3
    ensures r[..|r| - 3] <= title && r[|r| - 3..] == "..."
  {
    Take(title, 8) + "..."
  }

  /** The month view and its one piece of state, the date it is centred on. */
  class CalendarView {
    var currentDate: Date

    ghost predicate Valid()
      reads this
    {
      ValidDate(currentDate)
    }

    /** The view opens on today. */
    constructor (today: Date)
      requires ValidDate(today)
      ensures Valid() && currentDate == today
    {
      currentDate := today;
    }

    /** `days`: every day of the displayed month, from the first to the last,
        once each and in order, so each one is in the current month. */
    function Days(): (r: seq<Date>)
      reads this
      requires Valid()
      ensures |r| == DaysInMonth(currentDate.year, currentDate.month)
      ensures forall d :: d in r <==> ValidDate(d) && SameMonth(d, currentDate)
      ensures forall i, j :: 0 <= i < j < |r| ==> r[i].Date? && r[j].Date? && r[i].day < r[j].day
    {
      MonthDays(currentDate.year, currentDate.month)
    }

    /** `previousMonth`. */
    method PreviousMonth()
      requires Valid()
      modifies this
      ensures Valid()
      ensures currentDate == AddMonths(old(currentDate), -1)
    {
      currentDate := AddMonths(currentDate, -1);
    }

    /** `nextMonth`. */
    method NextMonth()
      requires Valid()
      modifies this
      ensures Valid()
      ensures currentDate == AddMonths(old(currentDate), 1)
    {
      currentDate := AddMonths(currentDate, 1);
    }
  }

  /** Saving the "Standup" event of 2024-06-03 into a collection with nothing
      on that day makes it that day's only event. */
  lemma StandupScenario(events: seq<Event>, newId: string, now: Timestamp)
    requires forall e :: e in events ==> !SameDay(e.date, Date(2024, 6, 3))
    ensures var p := EventPatch(None, Some("Standup"), None, Some(Date(2024, 6, 3)),
                                Some("09:00"), Some("09:15"), Some("#f97316"), None);
      EventsForDay(SaveEvent(events, p, newId, now), Date(2024, 6, 3)) ==
      [Event(newId, "Standup", None, Date(2024, 6, 3), "09:00", "09:15", "#f97316", now)]
  {
    var day := Date(2024, 6, 3);
    var e := Event(newId, "Standup", None, day, "09:00", "09:15", "#f97316", now);
    FilterAppend(events, [e], OnDay(day));
    FilterKeepsNone(events, OnDay(day));
    assert Filter([e], OnDay(day)) == [e];
  }
}
