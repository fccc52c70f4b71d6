/**
 * The four admin read endpoints: a role gate, then counts or a projection of one
 * collection.
 */
module AdminApi {
  import opened Common
  import opened Collections
  import opened UserModel
  import opened ClubModel
  import opened EventModel
  import opened Session

  /** The gate of every admin endpoint: a session user whose role is admin. */
  predicate IsAdmin(session: Option<SessionUser>) {
    session.Some? && session.value.role == Admin
  }

  // ----- GET /api/admin/stats -----

  datatype Stats = Stats(
    totalUsers: nat, totalStudents: nat, totalCoordinators: nat, totalAdmins: nat,
    totalClubs: nat, totalEvents: nat, approvedEvents: nat, pendingEvents: nat)

  /** `UserModel.countDocuments({role})`. */
  function CountRole(users: seq<User>, role: Role): (n: nat)
    ensures n <= |users|
  {
    |Filter(users, (u: User) => u.role == role)|
  }

  /** `EventModel.countDocuments({status})`. */
  function CountStatus(events: seq<Event>, status: EventStatus): (n: nat)
    ensures n <= |events|
  {
    |Filter(events, (e: Event) => e.status == status)|
  }

  /** Every user has exactly one of the three roles, so the per-role counts add up. */
  lemma {:induction false} RoleCountsPartition(users: seq<User>)
    ensures CountRole(users, Student) + CountRole(users, Coordinator) + CountRole(users, Admin) == |users|
  {
    if users != [] {
      RoleCountsPartition(users[1..]);
    }
  }

  /** Rejected events are in neither count, so approved and pending add up to at most the total. */
  lemma ApprovedPendingBound(events: seq<Event>)
    ensures CountStatus(events, Approved) + CountStatus(events, Pending) <= |events|
  {
    FilterDisjoint(events, (e: Event) => e.status == Approved, (e: Event) => e.status == Pending);
  }

  /**
   * Non-admins get 401. An admin gets the collection sizes and the per-role and
   * per-status counts, which partition the users and bound the events.
   */
  function AdminStats(session: Option<SessionUser>, users: seq<User>, clubs: seq<Club>, events: seq<Event>)
    : (r: Reply<Stats>)
    ensures !IsAdmin(session) <==> r == Failure(Unauthorized)
    ensures IsAdmin(session) ==> r.Success? && r.status == Ok
    ensures r.Success? ==>
      && r.data.totalUsers == |users| && r.data.totalClubs == |clubs| && r.data.totalEvents == |events|
      && r.data.totalStudents == CountRole(users, Student)
      && r.data.totalCoordinators == CountRole(users, Coordinator)
      && r.data.totalAdmins == CountRole(users, Admin)
      && r.data.approvedEvents == CountStatus(events, Approved)
      && r.data.pendingEvents == CountStatus(events, Pending)
      && r.data.totalStudents + r.data.totalCoordinators + r.data.totalAdmins == r.data.totalUsers
      && r.data.approvedEvents + r.data.pendingEvents <= r.data.totalEvents
  {
    if !IsAdmin(session) then Failure(Unauthorized)
    else
      RoleCountsPartition(users);
      ApprovedPendingBound(events);
      Success(Ok, Stats(
        |users|, CountRole(users, Student), CountRole(users, Coordinator), CountRole(users, Admin),
        |clubs|, |events|, CountStatus(events, Approved), CountStatus(events, Pending)))
  }

  // ----- GET /api/admin/events -----

  /** One entry of the admin events list: the selected fields and the registration count. */
  datatype EventStat = EventStat(
    id: Id, title: string, description: string, club: Id, date: int, location: string,
    status: EventStatus, registeredCount: nat, registeredUsers: seq<Id>,
    registrationLimit: Option<int>, createdAt: int)

  function EventStatOf(e: Event): (s: EventStat)
    ensures s.registeredCount == |s.registeredUsers| && s.registeredUsers == e.registeredUsers
    ensures s.id == e.id && s.date == e.date && s.status == e.status && s.club == e.club
    ensures s.title == e.title && s.description == e.description && s.location == e.location
    ensures s.registrationLimit == e.registrationLimit && s.createdAt == e.createdAt
  {
    EventStat(e.id, e.title, e.description, e.club, e.date, e.location, e.status,
              |e.registeredUsers|, e.registeredUsers, e.registrationLimit, e.createdAt)
  }

  function NegDate(e: Event): int {
    -e.date
  }

  /**
   * Non-admins get 401. An admin gets one entry per stored event, of every status, as
   * a permutation of the projected collection, latest date first, each entry counting
   * its registered users.
   */
  function AdminEvents(session: Option<SessionUser>, events: seq<Event>): (r: Reply<seq<EventStat>>)
    ensures !IsAdmin(session) <==> r == Failure(Unauthorized)
    ensures IsAdmin(session) ==> r.Success? && r.status == Ok
    ensures r.Success? ==>
      && |r.data| == |events|
      && multiset(r.data) == multiset(MapSeq(events, EventStatOf))
      && (forall i, j :: 0 <= i < j < |r.data| ==> r.data[i].date >= r.data[j].date)
      && (forall i :: 0 <= i < |r.data| ==> r.data[i].registeredCount == |r.data[i].registeredUsers|)
  {
    if !IsAdmin(session) then Failure(Unauthorized)
    else
      var sorted := SortBy(events, NegDate);
      var data := MapSeq(sorted, EventStatOf);
      MapPermutation(sorted, events, EventStatOf);
      MapSorted(sorted, EventStatOf, NegDate, (s: EventStat) => -s.date);
      Success(Ok, data)
  }

  // ----- GET /api/admin/clubs -----

  /** One entry of the admin clubs list: the selected fields and the member count. */
  datatype ClubStat = ClubStat(
    id: Id, name: string, description: string, coordinator: Id, memberCount: nat,
    members: seq<Id>, createdAt: int)

  function ClubStatOf(c: Club): (s: ClubStat)
    ensures s.memberCount == |s.members|
    ensures s.id == c.id && s.name == c.name && s.coordinator == c.coordinator && s.members == c.members
  {
    ClubStat(c.id, c.name, c.description, c.coordinator, |c.members|, c.members, c.createdAt)
  }

  /**
   * Non-admins get 401. An admin gets one entry per stored club in stored order, with
   * name, coordinator and members passed through and the members counted.
   */
  function AdminClubs(session: Option<SessionUser>, clubs: seq<Club>): (r: Reply<seq<ClubStat>>)
    ensures !IsAdmin(session) <==> r == Failure(Unauthorized)
    ensures IsAdmin(session) ==> r.Success? && r.status == Ok
    ensures r.Success? ==>
      && |r.data| == |clubs|
      && forall i :: 0 <= i < |clubs| ==>
        && r.data[i].id == clubs[i].id && r.data[i].name == clubs[i].name
        && r.data[i].description == clubs[i].description
        && r.data[i].coordinator == clubs[i].coordinator && r.data[i].members == clubs[i].members
        && r.data[i].memberCount == |clubs[i].members| && r.data[i].createdAt == clubs[i].createdAt
  {
    if !IsAdmin(session) then Failure(Unauthorized)
    else
      var data := MapSeq(clubs, ClubStatOf);
      assert forall i :: 0 <= i < |clubs| ==> data[i] == ClubStatOf(clubs[i]);
      Success(Ok, data)
  }

  // ----- GET /api/admin/users -----

  /** The selected fields of a user: the password is not among them. */
  datatype UserSummary = UserSummary(
    id: Id, name: string, email: string, role: Role, studentId: Option<string>, createdAt: int)

  function Summary(u: User): (s: UserSummary)
    ensures s.id == u.id && s.name == u.name && s.email == u.email && s.role == u.role
    ensures s.studentId == u.studentId && s.createdAt == u.createdAt
  {
    UserSummary(u.id, u.name, u.email, u.role, u.studentId, u.createdAt)
  }

  function NegCreatedAt(u: User): int {
    -u.createdAt
  }

  /**
   * Non-admins get 401. An admin gets one password-free summary per stored user, as a
   * permutation of the summarised collection, newest first.
   */
  function AdminUsers(session: Option<SessionUser>, users: seq<User>): (r: Reply<seq<UserSummary>>)
    ensures !IsAdmin(session) <==> r == Failure(Unauthorized)
    ensures IsAdmin(session) ==> r.Success? && r.status == Ok
    ensures r.Success? ==>
      && |r.data| == |users|
      && multiset(r.data) == multiset(MapSeq(users, Summary))
      && forall i, j :: 0 <= i < j < |r.data| ==> r.data[i].createdAt >= r.data[j].createdAt
  {
    if !IsAdmin(session) then Failure(Unauthorized)
    else
      var sorted := SortBy(users, NegCreatedAt);
      MapPermutation(sorted, users, Summary);
      MapSorted(sorted, Summary, NegCreatedAt, (s: UserSummary) => -s.createdAt);
      Success(Ok, MapSeq(sorted, Summary))
  }
}
