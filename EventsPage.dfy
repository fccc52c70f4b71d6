/**
 * The public events page: its own query (approved, upcoming, ascending by date) and the
 * per-card capacity display computed from each event.
 */
module EventsPage {
  import opened Common
  import opened Collections
  import opened EventModel
  import opened EventsApi

  /** The page's own `find({status: "approved", date: {$gte: now}})`. */
  predicate Upcoming(e: Event, now: int) {
    e.status == Approved && e.date >= now
  }

  /** The events the page lists: every approved upcoming event, ascending by date. */
  function UpcomingEvents(events: seq<Event>, now: int): (r: seq<Event>)
    ensures SortedBy(r, DateKey)
    ensures forall e :: multiset(r)[e] == if Upcoming(e, now) then multiset(events)[e] else 0
    ensures forall i :: 0 <= i < |r| ==> r[i].status == Approved && r[i].date >= now
  {
    FindSorted(events, e => Upcoming(e, now), DateKey)
  }

  /** The page and `GET /api/events` without parameters list the same events, as often each.
      Both are sorted by date; events that share a date may come in either order. */
  lemma {:induction false} PageMatchesDefaultListing(events: seq<Event>, now: int)
    ensures multiset(UpcomingEvents(events, now)) == multiset(ListEvents(events, EventQuery(None, None, None), now))
  {
    var q := EventQuery(None, None, None);
    forall e ensures Upcoming(e, now) == Selected(e, q, now) {
      if StatusName(e.status) == "approved" {
        ParseStatusName(e.status);
      }
    }
  }

  /** `hasLimit`: a limit that is set and not zero. */
  predicate HasLimit(e: Event) {
    e.registrationLimit.Some? && e.registrationLimit.value != 0
  }

  /** `isFull`: a limit that is set and not zero, and reached. An unset or zero limit is
      never full, a positive one is full once reached, and a negative one always is. */
  predicate IsFull(e: Event)
    ensures IsFull(e) ==> HasLimit(e)
    ensures e.registrationLimit.None? || e.registrationLimit == Some(0) ==> !IsFull(e)
    ensures e.registrationLimit.Some? && e.registrationLimit.value > 0
      ==> (IsFull(e) <==> |e.registeredUsers| >= e.registrationLimit.value)
    ensures e.registrationLimit.Some? && e.registrationLimit.value < 0 ==> IsFull(e)
  {
    HasLimit(e) && |e.registeredUsers| >= e.registrationLimit.value
  }

  /** The second button of a card: disabled "Full", or a link to register on the event's page. */
  datatype CardAction = FullButton | RegisterLink(event: Id)

  /** What one card shows of the capacity: the count, the slots when a limit is set, the button. */
  datatype EventCard = EventCard(event: Id, registeredCount: nat, slots: Option<int>, action: CardAction)

  function Card(e: Event): (c: EventCard)
    ensures c.event == e.id && c.registeredCount == |e.registeredUsers|
    ensures c.slots.Some? <==> HasLimit(e)
    ensures c.slots.Some? ==> c.slots == e.registrationLimit
    ensures c.action == FullButton <==> IsFull(e)
    ensures c.action != FullButton ==> c.action == RegisterLink(e.id)
  {
    EventCard(
      e.id, |e.registeredUsers|,
      if HasLimit(e) then e.registrationLimit else None,
      if IsFull(e) then FullButton else RegisterLink(e.id))
  }

  /** The cards of the page, one per upcoming event, in the page's order. */
  function Page(events: seq<Event>, now: int): (cards: seq<EventCard>)
    ensures |cards| == |UpcomingEvents(events, now)|
    ensures forall i :: 0 <= i < |cards| ==> cards[i] == Card(UpcomingEvents(events, now)[i])
  {
    MapSeq(UpcomingEvents(events, now), Card)
  }
}
