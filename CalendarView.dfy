/**
 * The month calendar: the events of a day, the dot colour of a status, and
 * a day cell that shows at most two events and counts the rest.
 */
module CalendarView {
  import opened Wrappers
  import Sorting

  datatype SlotStatus = Available | Booked | Pending

  /** An event the calendar shows; `date` is a day number. */
  datatype CalendarEvent = CalendarEvent(date: int, title: string, status: SlotStatus)

  /** The status as the string the record carries. */
  function SlotName(s: SlotStatus): string
  {
    match s
    case Available => "available"
    case Booked => "booked"
    case Pending => "pending"
  }

  /** `getStatusColor`, which takes any string. */
  function StatusColor(status: string): string
  {
    if status == "available" then "bg-green-500"
    else if status == "booked" then "bg-red-500"
    else if status == "pending" then "bg-yellow-500"
    else "bg-gray-300"
  }

  /** The three statuses get three different colours, none of them the fallback grey; any other string is grey. */
  lemma StatusColorSpec(s: SlotStatus, t: SlotStatus, other: string)
    requires other != "available" && other != "booked" && other != "pending"
    ensures StatusColor(SlotName(s)) != "bg-gray-300"
    ensures s != t ==> StatusColor(SlotName(s)) != StatusColor(SlotName(t))
    ensures StatusColor(other) == "bg-gray-300"
  {
  }

  function Day(e: CalendarEvent): int
  {
    e.date
  }

  /** `getEventsForDay`: the events on that day, in their original order. */
  function EventsForDay(events: seq<CalendarEvent>, day: int): seq<CalendarEvent>
  {
    Sorting.WithKey(events, Day, day)
  }

  /**
   * The day's events are exactly the events dated that day, and the events
   * of a longer list are those of its parts, in order.
   */
  lemma {:induction false} EventsForDaySpec(events: seq<CalendarEvent>, day: int)
    ensures forall e :: e in EventsForDay(events, day) <==> e in events && e.date == day
    ensures |EventsForDay(events, day)| <= |events|
  {
    if events != [] {
      EventsForDaySpec(events[1..], day);
      assert events == [events[0]] + events[1..];
    }
  }

  lemma EventsForDayAppend(s: seq<CalendarEvent>, t: seq<CalendarEvent>, day: int)
    ensures EventsForDay(s + t, day) == EventsForDay(s, day) + EventsForDay(t, day)
  {
    Sorting.WithKeyAppend(s, t, Day, day);
  }

  /** The most events a day cell lists. */
  const CellCapacity := 2

  /** `dayEvents.slice(0, 2)`: the first events of the day, at most two. */
  function Shown(dayEvents: seq<CalendarEvent>): (r: seq<CalendarEvent>)
    ensures |r| <= CellCapacity
    ensures |r| == if |dayEvents| < CellCapacity then |dayEvents| else CellCapacity
    ensures r == dayEvents[..|r|]
  {
    if |dayEvents| <= CellCapacity then dayEvents else dayEvents[..CellCapacity]
  }

  /** The `+k more` note: present exactly when the day has more than two events. */
  function More(dayEvents: seq<CalendarEvent>): (r: Option<nat>)
    ensures r.Some? <==> |dayEvents| > CellCapacity
  {
    if |dayEvents| > CellCapacity then Some(|dayEvents| - CellCapacity) else None
  }

  /** Between the listed events and the note, a cell accounts for every event of its day. */
  lemma CellAccountsForAll(dayEvents: seq<CalendarEvent>)
    ensures |Shown(dayEvents)| + (if More(dayEvents).Some? then More(dayEvents).value else 0) == |dayEvents|
  {
  }
}
