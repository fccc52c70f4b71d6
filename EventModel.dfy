/** The event schema: a record with a status enumeration, its setters, default and validators. */
module EventModel {
  import opened Common
  import opened JsString

  datatype EventStatus = Pending | Approved | Rejected

  function StatusName(s: EventStatus): string {
    match s
    case Pending => "pending"
    case Approved => "approved"
    case Rejected => "rejected"
  }

  /** The `enum` validator of the status path. */
  function ParseStatus(s: string): (r: Option<EventStatus>)
    ensures r.Some? <==> s == "pending" || s == "approved" || s == "rejected"
    ensures r.Some? ==> StatusName(r.value) == s
  {
    if s == "pending" then Some(Pending)
    else if s == "approved" then Some(Approved)
    else if s == "rejected" then Some(Rejected)
    else None
  }

  /** Every status reads back as itself. */
  lemma ParseStatusName(s: EventStatus)
    ensures ParseStatus(StatusName(s)) == Some(s)
  {
  }

  const DefaultStatus: string := "pending"

  /** A stored event. `registeredUsers` is a plain list of user ids; `registrationLimit`
      is optional and has no lower bound. */
  datatype Event = Event(
    id: Id,
    title: string,
    description: string,
    club: Id,
    date: int,
    location: string,
    status: EventStatus,
    registeredUsers: seq<Id>,
    registrationLimit: Option<int>,
    createdAt: int)

  /** The paths of an event document before it is saved. */
  datatype EventFields = EventFields(
    title: Option<string>,
    description: Option<string>,
    club: Option<Id>,
    date: Option<int>,
    location: Option<string>,
    status: Option<string>,
    registeredUsers: seq<Id>,
    registrationLimit: Option<int>)

  /** The `trim` setter of the title path and the default of the status path. */
  function CastEvent(f: EventFields): (c: EventFields)
    ensures c.status.Some? && (f.status.None? ==> c.status == Some(DefaultStatus))
  {
    f.(title := if f.title.Some? then Some(Trim(f.title.value)) else None,
       status := if f.status.Some? then f.status else Some(DefaultStatus))
  }

  /** The validators: title, description, club, date and location are required, and a
      status, when there is one, must be in the enumeration. */
  predicate EventFieldsValid(f: EventFields) {
    && Truthy(f.title) && Truthy(f.description) && f.club.Some? && f.date.Some? && Truthy(f.location)
    && (f.status.Some? ==> ParseStatus(f.status.value).Some?)
  }

  predicate EventRecordValid(e: Event) {
    e.title != "" && Trimmed(e.title) && e.description != "" && e.location != ""
  }

  function EventRecord(f: EventFields, id: Id, createdAt: int): Event
    requires EventFieldsValid(f) && f.status.Some?
  {
    Event(id, f.title.value, f.description.value, f.club.value, f.date.value, f.location.value,
          ParseStatus(f.status.value).value, f.registeredUsers, f.registrationLimit, createdAt)
  }

  /** A cast document that passes validation is saved as a valid record, and with no
      status given it is saved as pending. */
  lemma CastEventRecordValid(f: EventFields, id: Id, createdAt: int)
    requires EventFieldsValid(CastEvent(f))
    ensures EventRecordValid(EventRecord(CastEvent(f), id, createdAt))
    ensures f.status.None? ==> EventRecord(CastEvent(f), id, createdAt).status == Pending
  {
    var _, _ := TrimSpec(f.title.value);
  }
}
