/**
 * `GET /api/events`: either the events one user registered for, or the listing of one
 * status (approved unless asked otherwise), optionally of one club, from now on; both
 * ascending by date.
 */
module EventsApi {
  import opened Common
  import opened JsString
  import opened Collections
  import opened EventModel

  /** The search parameters. `None` is a parameter that is absent or empty, which the
      handler's truthiness tests treat alike. */
  datatype EventQuery = EventQuery(status: Option<string>, club: Option<Id>, userId: Option<Id>)

  /** The status the listing filters on: the parameter when given, `approved` otherwise. */
  function EffectiveStatus(q: EventQuery): (s: string)
    ensures Truthy(q.status) ==> s == q.status.value
    ensures !Truthy(q.status) ==> s == "approved"
  {
    if Truthy(q.status) then q.status.value else "approved"
  }

  /** The filter of the listing branch: status, club when given, and `date >= now`. */
  predicate InListing(e: Event, q: EventQuery, now: int) {
    && StatusName(e.status) == EffectiveStatus(q)
    && (q.club.Some? ==> e.club == q.club.value)
    && e.date >= now
  }

  /** The filter of the query the handler sends: `{registeredUsers: userId}` when a user
      is given, the listing filter otherwise. */
  predicate Selected(e: Event, q: EventQuery, now: int) {
    if q.userId.Some? then q.userId.value in e.registeredUsers else InListing(e, q, now)
  }

  function DateKey(e: Event): int {
    e.date
  }

  /**
   * The handler's answer: every selected event as often as it is stored, and no other,
   * ascending by date.
   */
  function ListEvents(events: seq<Event>, q: EventQuery, now: int): (r: seq<Event>)
    ensures SortedBy(r, DateKey)
    ensures forall e :: multiset(r)[e] == if Selected(e, q, now) then multiset(events)[e] else 0
    ensures forall i :: 0 <= i < |r| ==> Selected(r[i], q, now) && r[i] in events
  {
    FindSorted(events, e => Selected(e, q, now), DateKey)
  }

  /** With a user id, the answer holds exactly the stored events that list that user,
      whatever their status and date. */
  lemma ListingByUser(events: seq<Event>, q: EventQuery, now: int)
    requires q.userId.Some?
    ensures forall e :: e in ListEvents(events, q, now) <==> e in events && q.userId.value in e.registeredUsers
  {
    var r := ListEvents(events, q, now);
    forall e ensures e in r <==> e in events && q.userId.value in e.registeredUsers {
      assert e in r <==> multiset(r)[e] > 0;
      assert e in events <==> multiset(events)[e] > 0;
    }
  }

  /** Without a user id, every answered event has the effective status (approved when no
      status is asked for), is dated now or later, and is of the requested club. */
  lemma ListingFilters(events: seq<Event>, q: EventQuery, now: int)
    requires q.userId.None?
    ensures forall e :: e in ListEvents(events, q, now) ==>
      && StatusName(e.status) == EffectiveStatus(q)
      && e.date >= now
      && (q.club.Some? ==> e.club == q.club.value)
      && (!Truthy(q.status) ==> e.status == Approved)
  {
    var r := ListEvents(events, q, now);
    forall e | e in r
      ensures StatusName(e.status) == EffectiveStatus(q) && e.date >= now
      ensures (q.club.Some? ==> e.club == q.club.value) && (!Truthy(q.status) ==> e.status == Approved)
    {
      assert multiset(r)[e] > 0;
      ParseStatusName(e.status);
    }
  }

  /** Asking for `status=approved` explicitly lists the same events, as often each, as asking
      for none. Both answers are sorted by date; events that share a date may come in either order. */
  lemma ApprovedIsDefault(events: seq<Event>, club: Option<Id>, now: int)
    ensures multiset(ListEvents(events, EventQuery(Some("approved"), club, None), now))
         == multiset(ListEvents(events, EventQuery(None, club, None), now))
  {
    var q1, q2 := EventQuery(Some("approved"), club, None), EventQuery(None, club, None);
    var r1, r2 := ListEvents(events, q1, now), ListEvents(events, q2, now);
    forall e ensures multiset(r1)[e] == multiset(r2)[e] {
      assert Selected(e, q1, now) == Selected(e, q2, now);
    }
  }

  /** A status outside the enumeration matches no event: the listing is empty. */
  lemma UnknownStatusListsNothing(events: seq<Event>, q: EventQuery, now: int)
    requires q.userId.None? && Truthy(q.status) && ParseStatus(q.status.value).None?
    ensures ListEvents(events, q, now) == []
  {
    var r := ListEvents(events, q, now);
    forall i | 0 <= i < |r| ensures ParseStatus(StatusName(r[i].status)).Some? {
      ParseStatusName(r[i].status);
    }
  }
}
