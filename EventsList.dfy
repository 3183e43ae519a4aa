/**
 * The dashboard's list of events: the event record, the status change a
 * row's menu triggers, the badge colour, the date ordering, and which
 * actions, columns and costs each role sees.
 */
module EventsList {
  import opened Wrappers
  import Sorting

  datatype Status = Upcoming | Completed | Cancelled

  datatype UserRole = Admin | Organizer | Client

  /**
   * An event. `date` is a day number standing for the `Date`; `cost` is
   * optional; `kind` is the record's `type` field.
   */
  datatype Event = Event(
    id: string,
    title: string,
    venue: string,
    venueId: string,
    date: int,
    time: string,
    duration: string,
    guests: nat,
    status: Status,
    kind: string,
    location: string,
    cost: Option<nat>)

  // ---------------------------------------------------------------- status change

  /** `prev.map(event => event.id === id ? {...event, status} : event)`. */
  function UpdateStatus(events: seq<Event>, id: string, status: Status): (r: seq<Event>)
    ensures |r| == |events|
    ensures forall i :: 0 <= i < |events| && events[i].id == id ==> r[i] == events[i].(status := status)
    ensures forall i :: 0 <= i < |events| && events[i].id != id ==> r[i] == events[i]
  {
    if events == [] then []
    else
      [if events[0].id == id then events[0].(status := status) else events[0]] + UpdateStatus(events[1..], id, status)
  }

  /** Repeating a status change makes no further difference. */
  lemma UpdateStatusIdempotent(events: seq<Event>, id: string, status: Status)
    ensures UpdateStatus(UpdateStatus(events, id, status), id, status) == UpdateStatus(events, id, status)
  {
    var r := UpdateStatus(events, id, status);
    var rr := UpdateStatus(r, id, status);
    assert forall i :: 0 <= i < |r| ==> r[i].id == events[i].id;
    assert forall i :: 0 <= i < |r| ==> rr[i] == r[i];
  }

  /** A status change leaves every event's identity and every other field as it was. */
  lemma UpdateStatusKeepsRecords(events: seq<Event>, id: string, status: Status)
    ensures var r := UpdateStatus(events, id, status);
      forall i :: 0 <= i < |events| ==> r[i].(status := events[i].status) == events[i]
  {
  }

  /** The list component's state: its events, and whether the page passed a status handler. */
  class List {
    const hasOnStatusChange: bool
    var displayEvents: seq<Event>

    constructor (events: seq<Event>, hasOnStatusChange: bool)
      ensures displayEvents == events && this.hasOnStatusChange == hasOnStatusChange
    {
      displayEvents := events;
      this.hasOnStatusChange := hasOnStatusChange;
    }

    /**
     * `handleStatusChange`: with a handler the change is passed on and the
     * list is untouched; without one the list itself is updated.
     */
    method HandleStatusChange(id: string, status: Status) returns (forwarded: Option<(string, Status)>)
      modifies this
      ensures hasOnStatusChange ==> forwarded == Some((id, status)) && displayEvents == old(displayEvents)
      ensures !hasOnStatusChange ==> forwarded == None && displayEvents == UpdateStatus(old(displayEvents), id, status)
    {
      if hasOnStatusChange {
        forwarded := Some((id, status));
      } else {
        forwarded := None;
        displayEvents := UpdateStatus(displayEvents, id, status);
      }
    }

    /** The events as the list shows them: earliest date first. */
    function Sorted(): seq<Event>
      reads this
    {
      SortedEvents(displayEvents)
    }
  }

  // ---------------------------------------------------------------- presentation

  /** `getStatusColor`; its default branch is unreachable for the three statuses. */
  function StatusColor(s: Status): string
  {
    match s
    case Upcoming => "bg-blue-500 hover:bg-blue-600"
    case Completed => "bg-green-500 hover:bg-green-600"
    case Cancelled => "bg-red-500 hover:bg-red-600"
  }

  /** Different statuses get different colours. */
  lemma StatusColorInjective(a: Status, b: Status)
    requires StatusColor(a) == StatusColor(b)
    ensures a == b
  {
  }

  function DateKey(e: Event): int
  {
    e.date
  }

  /** `sortedEvents`: the comparator `a.date - b.date`, so the earliest date comes first. */
  function SortedEvents(events: seq<Event>): seq<Event>
  {
    Sorting.SortBy(events, DateKey)
  }

  /**
   * The displayed order holds the same events, dates never decrease, and
   * events on the same date keep their relative order.
   */
  lemma {:induction false} SortedEventsSpec(events: seq<Event>, day: int)
    ensures multiset(SortedEvents(events)) == multiset(events)
    ensures forall i, j :: 0 <= i < j < |SortedEvents(events)| ==> SortedEvents(events)[i].date <= SortedEvents(events)[j].date
    ensures Sorting.WithKey(SortedEvents(events), DateKey, day) == Sorting.WithKey(events, DateKey, day)
  {
    Sorting.SortByPermutes(events, DateKey);
    Sorting.SortBySorted(events, DateKey);
    Sorting.SortByStable(events, DateKey, day);
  }

  /** "Mark as Completed" is in a row's menu. */
  predicate CanMarkCompleted(role: UserRole, s: Status)
  {
    role != Client && s == Upcoming
  }

  /** "Cancel Event" is in a row's menu. */
  predicate CanCancel(s: Status)
  {
    s == Upcoming
  }

  /** "Delete Event" is in a row's menu. */
  predicate CanDelete(role: UserRole)
  {
    role == Admin
  }

  /** The entries of a row's action menu. */
  datatype Action = ViewDetails | MarkCompleted | CancelEvent | DeleteEvent

  /** A row's action menu, top to bottom: details always, then the entries the role and status allow. */
  function Menu(role: UserRole, s: Status): (r: seq<Action>)
    ensures |r| >= 1 && r[0] == ViewDetails
    ensures forall i, j :: 0 <= i < j < |r| ==> r[i] != r[j]
  {
    [ViewDetails]
    + (if CanMarkCompleted(role, s) then [MarkCompleted] else [])
    + (if CanCancel(s) then [CancelEvent] else [])
    + (if CanDelete(role) then [DeleteEvent] else [])
  }

  /**
   * Who sees what: a client can only cancel an upcoming event, an admin can
   * always delete, and an event that is no longer upcoming offers no status
   * change to anyone.
   */
  lemma MenuByRole(role: UserRole, s: Status)
    ensures Menu(Client, s) == if s == Upcoming then [ViewDetails, CancelEvent] else [ViewDetails]
    ensures DeleteEvent in Menu(role, s) <==> role == Admin
    ensures s != Upcoming ==> Menu(role, s) == if role == Admin then [ViewDetails, DeleteEvent] else [ViewDetails]
    ensures s == Upcoming && role != Client ==> MarkCompleted in Menu(role, s) && CancelEvent in Menu(role, s)
  {
    var r := Menu(role, s);
    if role == Admin {
      assert r[|r| - 1] == DeleteEvent;
    }
    if s == Upcoming && role != Client {
      assert r[1] == MarkCompleted && r[2] == CancelEvent;
    }
  }

  /** Once an event is completed or cancelled through its menu, neither status action is offered for it again. */
  lemma {:induction false} StatusActionsClose(events: seq<Event>, id: string, status: Status, role: UserRole)
    requires status != Upcoming
    ensures forall e :: e in UpdateStatus(events, id, status) && e.id == id ==>
      MarkCompleted !in Menu(role, e.status) && CancelEvent !in Menu(role, e.status)
  {
    var r := UpdateStatus(events, id, status);
    forall e | e in r && e.id == id ensures e.status == status {
      var i :| 0 <= i < |r| && r[i] == e;
    }
    MenuByRole(role, status);
  }

  /** The table has a cost column for every role except the client. */
  predicate ShowsCostColumn(role: UserRole)
  {
    role != Client
  }

  /** The table headings for a role. */
  function Headings(role: UserRole): seq<string>
  {
    ["Event", "Venue", "Date & Time", "Guests", "Status"] + (if ShowsCostColumn(role) then ["Cost"] else []) + ["Actions"]
  }

  /** The span of the empty table's "No events found" cell. */
  function EmptyColSpan(role: UserRole): nat
  {
    if role != Client then 7 else 6
  }

  /** The empty-table cell spans exactly the table's columns. */
  lemma EmptyColSpanCoversHeadings(role: UserRole)
    ensures EmptyColSpan(role) == |Headings(role)|
  {
  }

  /**
   * What a grid card renders for `userRole !== 'client' && event.cost && …`:
   * nothing for the client or a missing cost, the amount for a non-zero
   * cost, and, since the expression then evaluates to the number 0, which
   * React renders as text, a bare "0" for a zero cost.
   */
  datatype CardCost = NoCost | ZeroText | Amount(value: nat)

  /** The cost line of one grid card. */
  function CardCostShown(role: UserRole, cost: Option<nat>): (r: CardCost)
    ensures r.Amount? <==> ShowsCostColumn(role) && cost.Some? && cost.value != 0
    ensures r.Amount? ==> cost == Some(r.value)
    ensures r == ZeroText <==> ShowsCostColumn(role) && cost == Some(0)
  {
    if role == Client then NoCost
    else match cost
      case None => NoCost
      case Some(c) => if c == 0 then ZeroText else Amount(c)
  }

  /** A card shows a cost only for a role whose table has the "Cost" column, so a client never sees one. */
  lemma CardCostNeedsColumn(role: UserRole, cost: Option<nat>)
    ensures CardCostShown(role, cost) != NoCost ==> "Cost" in Headings(role)
    ensures role == Client ==> CardCostShown(role, cost) == NoCost && "Cost" !in Headings(role)
  {
    var h := Headings(role);
    if role == Client {
      assert h == ["Event", "Venue", "Date & Time", "Guests", "Status", "Actions"];
    } else {
      assert h[5] == "Cost";
    }
  }
}
