/**
 * The dashboard's adapter from the calendar's simple events to full event
 * records: each element keeps its title and date, takes its id, guest count
 * and cost from its position, and gets fixed venue, time and type details.
 */
module DashboardEvents {
  import opened Wrappers
  import Text
  import EventsList
  import opened CalendarView

  const EventIdPrefix := "event-"
  const Venue := "Grand Ballroom"
  const VenueId := "venue-1"
  const Time := "14:00 - 18:00"
  const Duration := "4 hours"
  const Kind := "Corporate"
  const Location := "New York, NY"

  /** `` `event-${index}` ``. */
  function EventId(index: nat): string
  {
    EventIdPrefix + Text.NatToString(index)
  }

  /** Booked and pending slots are upcoming events; an available slot is a completed one. */
  function ToStatus(s: SlotStatus): (r: EventsList.Status)
    ensures r.Upcoming? <==> !s.Available?
    ensures r.Completed? <==> s.Available?
  {
    if s == Booked then EventsList.Upcoming
    else if s == Pending then EventsList.Upcoming
    else EventsList.Completed
  }

  /** The record for the simple event at position `index`. */
  function ToEvent(e: CalendarEvent, index: nat): EventsList.Event
  {
    EventsList.Event(EventId(index), e.title, Venue, VenueId, e.date, Time, Duration,
      100 + index * 20, ToStatus(e.status), Kind, Location, Some(2500 + index * 500))
  }

  /** The mapping over `events`, numbering positions from `base`. */
  function FormatFrom(events: seq<CalendarEvent>, base: nat): (r: seq<EventsList.Event>)
    ensures |r| == |events|
    ensures forall k :: 0 <= k < |events| ==> r[k] == ToEvent(events[k], base + k)
  {
    if events == [] then [] else [ToEvent(events[0], base)] + FormatFrom(events[1..], base + 1)
  }

  /** `formattedEvents`. */
  function FormattedEvents(events: seq<CalendarEvent>): seq<EventsList.Event>
  {
    FormatFrom(events, 0)
  }

  /**
   * Element `k` keeps the title and date of the `k`-th simple event, has id
   * `event-k`, 100 + 20k guests and cost 2500 + 500k, maps the status, and
   * carries the fixed details.
   */
  lemma FormattedEventsSpec(events: seq<CalendarEvent>, k: nat)
    requires k < |events|
    ensures |FormattedEvents(events)| == |events|
    ensures var e := FormattedEvents(events)[k];
      && e.title == events[k].title && e.date == events[k].date
      && e.id == EventIdPrefix + Text.NatToString(k)
      && e.guests == 100 + k * 20 && e.cost == Some(2500 + k * 500)
      && (e.status.Upcoming? <==> !events[k].status.Available?)
      && e.venue == Venue && e.venueId == VenueId && e.time == Time
      && e.duration == Duration && e.kind == Kind && e.location == Location
  {
    var r := FormatFrom(events, 0);
    assert r[k] == ToEvent(events[k], k);
  }

  /** No two positions get the same id. */
  lemma {:induction false} FormattedIdsDistinct(events: seq<CalendarEvent>, i: nat, j: nat)
    requires i < |events| && j < |events| && i != j
    ensures FormattedEvents(events)[i].id != FormattedEvents(events)[j].id
  {
    var r := FormattedEvents(events);
    if r[i].id == r[j].id {
      var a, b := Text.NatToString(i), Text.NatToString(j);
      assert EventId(i) == EventId(j);
      assert a == EventId(i)[|EventIdPrefix|..];
      assert b == EventId(j)[|EventIdPrefix|..];
      Text.NatToStringInjective(i, j);
    }
  }
}
