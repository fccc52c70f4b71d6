/**
 * The four collections as an in-memory store, and the route handlers that write to it.
 * Each request runs atomically: its lookups, its checks and its single `save()`.
 */
module RecordStore {
  import opened Common
  import opened JsString
  import opened UserModel
  import opened ClubModel
  import opened EventModel
  import opened BudgetModel

  // ----- Lookups (`findOne`, `findById`) -----

  predicate EmailInUse(users: seq<User>, email: string) {
    exists i | 0 <= i < |users| :: users[i].email == email
  }

  predicate ClubNameTaken(clubs: seq<Club>, name: string) {
    exists i | 0 <= i < |clubs| :: clubs[i].name == name
  }

  predicate ClubExists(clubs: seq<Club>, id: Id) {
    exists i | 0 <= i < |clubs| :: clubs[i].id == id
  }

  /** `UserModel.findById(id)`: the first user with that id. */
  function FindUser(users: seq<User>, id: Id): (r: Option<User>)
    ensures r.Some? ==> r.value in users && r.value.id == id
    ensures r.None? ==> forall i :: 0 <= i < |users| ==> users[i].id != id
  {
    if users == [] then None
    else if users[0].id == id then Some(users[0])
    else FindUser(users[1..], id)
  }

  /** `BudgetModel.findOne({club})`: the position of the first budget of that club. */
  function FindBudget(budgets: seq<Budget>, club: Id): (r: Option<nat>)
    ensures r.Some? ==> r.value < |budgets| && budgets[r.value].club == club
    ensures r.None? ==> forall i :: 0 <= i < |budgets| ==> budgets[i].club != club
  {
    if budgets == [] then None
    else if budgets[0].club == club then Some(0)
    else
      var r := FindBudget(budgets[1..], club);
      if r.Some? then Some(r.value + 1) else None
  }

  // ----- Store-level invariants: validators passed, unique indexes hold -----

  predicate UniqueEmails(users: seq<User>) {
    forall i, j :: 0 <= i < j < |users| ==> users[i].email != users[j].email
  }

  predicate UsersValid(users: seq<User>) {
    (forall i :: 0 <= i < |users| ==> UserRecordValid(users[i])) && UniqueEmails(users)
  }

  predicate ClubsValid(clubs: seq<Club>) {
    (forall i :: 0 <= i < |clubs| ==> ClubRecordValid(clubs[i])) && UniqueClubNames(clubs)
  }

  predicate EventsValid(events: seq<Event>) {
    forall i :: 0 <= i < |events| ==> EventRecordValid(events[i])
  }

  predicate BudgetsValid(budgets: seq<Budget>) {
    (forall i :: 0 <= i < |budgets| ==> BudgetRecordValid(budgets[i])) && OneBudgetPerClub(budgets)
  }

  /** Every `_id` was handed out before `next`, and none is used twice in a collection. */
  predicate UserIdsFresh(users: seq<User>, next: Id) {
    (forall i :: 0 <= i < |users| ==> users[i].id < next)
    && forall i, j :: 0 <= i < j < |users| ==> users[i].id != users[j].id
  }

  predicate ClubIdsFresh(clubs: seq<Club>, next: Id) {
    (forall i :: 0 <= i < |clubs| ==> clubs[i].id < next)
    && forall i, j :: 0 <= i < j < |clubs| ==> clubs[i].id != clubs[j].id
  }

  predicate EventIdsFresh(events: seq<Event>, next: Id) {
    (forall i :: 0 <= i < |events| ==> events[i].id < next)
    && forall i, j :: 0 <= i < j < |events| ==> events[i].id != events[j].id
  }

  predicate BudgetIdsFresh(budgets: seq<Budget>, next: Id) {
    (forall i :: 0 <= i < |budgets| ==> budgets[i].id < next)
    && forall i, j :: 0 <= i < j < |budgets| ==> budgets[i].id != budgets[j].id
  }

  // ----- Inserting one record keeps the invariants -----

  lemma InsertUserKeepsValid(users: seq<User>, u: User, next: Id)
    requires UsersValid(users) && UserIdsFresh(users, next)
    requires UserRecordValid(u) && !EmailInUse(users, u.email) && u.id == next
    ensures UsersValid(users + [u]) && UserIdsFresh(users + [u], next + 1)
  {
    var s := users + [u];
    forall i, j | 0 <= i < j < |s| ensures s[i].email != s[j].email && s[i].id != s[j].id {
      if j == |users| {
        assert s[i] == users[i];
      }
    }
  }

  lemma InsertClubKeepsValid(clubs: seq<Club>, c: Club, next: Id)
    requires ClubsValid(clubs) && ClubIdsFresh(clubs, next)
    requires ClubRecordValid(c) && !ClubNameTaken(clubs, c.name) && c.id == next
    ensures ClubsValid(clubs + [c]) && ClubIdsFresh(clubs + [c], next + 1)
  {
    var s := clubs + [c];
    forall i, j | 0 <= i < j < |s| ensures s[i].name != s[j].name && s[i].id != s[j].id {
      if j == |clubs| {
        assert s[i] == clubs[i];
      }
    }
  }

  lemma InsertEventKeepsValid(events: seq<Event>, e: Event, next: Id)
    requires EventsValid(events) && EventIdsFresh(events, next)
    requires EventRecordValid(e) && e.id == next
    ensures EventsValid(events + [e]) && EventIdsFresh(events + [e], next + 1)
  {
  }

  lemma InsertBudgetKeepsValid(budgets: seq<Budget>, b: Budget, next: Id)
    requires BudgetsValid(budgets) && BudgetIdsFresh(budgets, next)
    requires BudgetRecordValid(b) && b.id == next
    requires forall i :: 0 <= i < |budgets| ==> budgets[i].club != b.club
    ensures BudgetsValid(budgets + [b]) && BudgetIdsFresh(budgets + [b], next + 1)
  {
  }

  /** Handing out an id keeps every other collection's ids below the counter. */
  lemma AdvanceIds(users: seq<User>, clubs: seq<Club>, events: seq<Event>, budgets: seq<Budget>, next: Id)
    requires UserIdsFresh(users, next) && ClubIdsFresh(clubs, next)
    requires EventIdsFresh(events, next) && BudgetIdsFresh(budgets, next)
    ensures UserIdsFresh(users, next + 1) && ClubIdsFresh(clubs, next + 1)
    ensures EventIdsFresh(events, next + 1) && BudgetIdsFresh(budgets, next + 1)
  {
  }

  // ----- Request bodies -----

  /** Body of `POST /api/users/register`. A `role` in the body is read by nobody. */
  datatype RegisterBody = RegisterBody(
    name: Option<string>, email: Option<string>, password: Option<string>,
    studentId: Option<string>, role: Option<string>)

  predicate RegisterComplete(b: RegisterBody) {
    Truthy(b.name) && Truthy(b.email) && Truthy(b.password)
  }

  /** The document the route builds: the role is always `student`. */
  function RegisterFields(b: RegisterBody): UserFields {
    UserFields(b.name, b.email, b.password, Some("student"), b.studentId)
  }

  /** The user answered on success: no password among its fields. */
  datatype PublicUser = PublicUser(id: Id, name: string, email: string, role: Role)

  function PublicView(u: User): PublicUser {
    PublicUser(u.id, u.name, u.email, u.role)
  }

  /** Body of `POST /api/clubs`. */
  datatype ClubBody = ClubBody(
    name: Option<string>, description: Option<string>, logoUrl: Option<string>, coordinatorId: Option<Id>)

  predicate ClubComplete(b: ClubBody) {
    Truthy(b.name) && Truthy(b.description) && b.coordinatorId.Some?
  }

  /** Body of `POST /api/budgets`. */
  datatype BudgetBody = BudgetBody(clubId: Option<Id>, allocatedAmount: JsNumber)

  /** Body of `POST /api/events`. The date is a JSON timestamp number, so `!date` also
      rejects a date of 0. A `status` in the body is read by nobody. */
  datatype EventBody = EventBody(
    title: Option<string>, description: Option<string>, clubId: Option<Id>, date: Option<int>,
    location: Option<string>, registrationLimit: Option<int>, status: Option<string>)

  predicate EventComplete(b: EventBody) {
    Truthy(b.title) && Truthy(b.description) && b.clubId.Some? && TruthyNumber(b.date) && Truthy(b.location)
  }

  /**
   * `save()` of a new user document: validation first, then the `pre('save')` hook, then
   * the record as stored. `None` is a rejected save.
   */
  method SaveNewUser(init: UserFields, hash: string -> string, id: Id, now: int) returns (saved: Option<User>)
    ensures saved.None? <==> !UserFieldsValid(CastUser(init))
    ensures init.password.Some? && Utf16Length(init.password.value) < MinPasswordLength ==> saved.None?
    ensures init.role.Some? && ParseRole(init.role.value).None? ==> saved.None?
    ensures saved.Some? ==>
      && saved.value == User(id, Trim(init.name.value), NormalizeEmail(init.email.value),
                             hash(init.password.value),
                             if init.role.None? then Student else ParseRole(init.role.value).value,
                             init.studentId, now)
      && UserRecordValid(saved.value)
  {
    var doc := new UserDocument(init);
    if !UserFieldsValid(doc.Fields()) {
      return None;
    }
    assert doc.Fields() == CastUser(init);
    var hashed := doc.HashPasswordHook(hash);
    assert hashed;
    assert doc.Fields() == CastUser(init).(password := Some(hash(init.password.value)));
    CastValidRecordValid(init, doc.password.value, id, now);
    saved := Some(UserRecord(doc.Fields(), id, now));
  }

  class Store {
    var users: seq<User>
    var clubs: seq<Club>
    var events: seq<Event>
    var budgets: seq<Budget>
    var nextId: Id

    ghost predicate Valid()
      reads this
    {
      && UsersValid(users) && ClubsValid(clubs) && EventsValid(events) && BudgetsValid(budgets)
      && UserIdsFresh(users, nextId) && ClubIdsFresh(clubs, nextId)
      && EventIdsFresh(events, nextId) && BudgetIdsFresh(budgets, nextId)
    }

    constructor ()
      ensures Valid()
      ensures users == [] && clubs == [] && events == [] && budgets == []
    {
      users, clubs, events, budgets := [], [], [], [];
      nextId := 0;
    }

    /** `GET /api/clubs`: every stored club, in stored order. */
    function ListClubs(): (r: seq<Club>)
      reads this
      ensures |r| == |clubs| && forall i :: 0 <= i < |r| ==> r[i] == clubs[i]
      ensures Valid() ==> UniqueClubNames(r) && forall i :: 0 <= i < |r| ==> ClubRecordValid(r[i])
    {
      clubs
    }

    /** `GET /api/budgets`: every stored budget, in stored order. */
    function ListBudgets(): (r: seq<Budget>)
      reads this
      ensures |r| == |budgets| && forall i :: 0 <= i < |r| ==> r[i] == budgets[i]
      ensures Valid() ==> OneBudgetPerClub(r) && forall i :: 0 <= i < |r| ==> BudgetRecordValid(r[i])
    {
      budgets
    }

    /** Inserting a new user document whose email is not stored yet. */
    method AddUser(u: User)
      requires Valid() && UserRecordValid(u) && !EmailInUse(users, u.email) && u.id == nextId
      modifies this
      ensures Valid()
      ensures users == old(users) + [u] && nextId == old(nextId) + 1
      ensures clubs == old(clubs) && events == old(events) && budgets == old(budgets)
    {
      InsertUserKeepsValid(users, u, nextId);
      AdvanceIds(users, clubs, events, budgets, nextId);
      users, nextId := users + [u], nextId + 1;
    }

    /** Inserting a new club document whose name is not stored yet. */
    method AddClub(c: Club)
      requires Valid() && ClubRecordValid(c) && !ClubNameTaken(clubs, c.name) && c.id == nextId
      modifies this
      ensures Valid()
      ensures clubs == old(clubs) + [c] && nextId == old(nextId) + 1
      ensures users == old(users) && events == old(events) && budgets == old(budgets)
    {
      InsertClubKeepsValid(clubs, c, nextId);
      AdvanceIds(users, clubs, events, budgets, nextId);
      clubs, nextId := clubs + [c], nextId + 1;
    }

    /** Inserting a new event document. */
    method AddEvent(e: Event)
      requires Valid() && EventRecordValid(e) && e.id == nextId
      modifies this
      ensures Valid()
      ensures events == old(events) + [e] && nextId == old(nextId) + 1
      ensures users == old(users) && clubs == old(clubs) && budgets == old(budgets)
    {
      InsertEventKeepsValid(events, e, nextId);
      AdvanceIds(users, clubs, events, budgets, nextId);
      events, nextId := events + [e], nextId + 1;
    }

    /** Inserting a new budget document for a club that has none. */
    method AddBudget(b: Budget)
      requires Valid() && BudgetRecordValid(b) && b.id == nextId
      requires forall i :: 0 <= i < |budgets| ==> budgets[i].club != b.club
      modifies this
      ensures Valid()
      ensures budgets == old(budgets) + [b] && nextId == old(nextId) + 1
      ensures users == old(users) && clubs == old(clubs) && events == old(events)
    {
      InsertBudgetKeepsValid(budgets, b, nextId);
      AdvanceIds(users, clubs, events, budgets, nextId);
      budgets, nextId := budgets + [b], nextId + 1;
    }

    /**
     * `POST /api/users/register`. In order: a missing name, email or password is 400; an
     * email already stored (after the setters, which Mongoose also applies to the query)
     * is 409; a document that fails validation is 500; otherwise exactly one student is
     * added, with the hashed password, and answered without it.
     */
    method Register(body: RegisterBody, hash: string -> string, now: int) returns (r: Reply<PublicUser>)
      requires Valid()
      modifies this
      ensures Valid()
      ensures clubs == old(clubs) && events == old(events) && budgets == old(budgets)
      ensures r.Failure? ==> users == old(users) && nextId == old(nextId)
      ensures !RegisterComplete(body) ==> r == Failure(BadRequest)
      ensures RegisterComplete(body) && EmailInUse(old(users), NormalizeEmail(body.email.value))
        ==> r == Failure(Conflict)
      ensures RegisterComplete(body) && !EmailInUse(old(users), NormalizeEmail(body.email.value))
        && !UserFieldsValid(CastUser(RegisterFields(body)))
        ==> r == Failure(InternalError)
      ensures RegisterComplete(body) && !EmailInUse(old(users), NormalizeEmail(body.email.value))
        && UserFieldsValid(CastUser(RegisterFields(body)))
        ==> var u := User(old(nextId), Trim(body.name.value), NormalizeEmail(body.email.value),
                          hash(body.password.value), Student, body.studentId, now);
            && r == Success(Created, PublicView(u))
            && users == old(users) + [u]
            && nextId == old(nextId) + 1
    {
      if !Truthy(body.name) || !Truthy(body.email) || !Truthy(body.password) {
        return Failure(BadRequest);
      }
      if EmailInUse(users, NormalizeEmail(body.email.value)) {
        return Failure(Conflict);
      }
      var saved := SaveNewUser(RegisterFields(body), hash, nextId, now);
      if saved.None? {
        return Failure(InternalError);
      }
      var u := saved.value;
      AddUser(u);
      r := Success(Created, PublicView(u));
    }

    /**
     * `POST /api/clubs`. In order: a missing name, description or coordinatorId is 400;
     * an unknown coordinator is 404; a name already stored (after trimming) is 409; a
     * name that trims to nothing fails validation, 500; otherwise exactly one club is
     * added, coordinated by the coordinator and with the coordinator as its only member.
     */
    method CreateClub(body: ClubBody, now: int) returns (r: Reply<Club>)
      requires Valid()
      modifies this
      ensures Valid()
      ensures users == old(users) && events == old(events) && budgets == old(budgets)
      ensures r.Failure? ==> clubs == old(clubs) && nextId == old(nextId)
      ensures !ClubComplete(body) ==> r == Failure(BadRequest)
      ensures ClubComplete(body) && FindUser(old(users), body.coordinatorId.value).None?
        ==> r == Failure(NotFound)
      ensures ClubComplete(body) && FindUser(old(users), body.coordinatorId.value).Some?
        && ClubNameTaken(old(clubs), Trim(body.name.value))
        ==> r == Failure(Conflict)
      ensures ClubComplete(body) && FindUser(old(users), body.coordinatorId.value).Some?
        && !ClubNameTaken(old(clubs), Trim(body.name.value)) && Trim(body.name.value) == ""
        ==> r == Failure(InternalError)
      ensures ClubComplete(body) && FindUser(old(users), body.coordinatorId.value).Some?
        && !ClubNameTaken(old(clubs), Trim(body.name.value)) && Trim(body.name.value) != ""
        ==> var c := Club(old(nextId), Trim(body.name.value), body.description.value, body.logoUrl,
                          body.coordinatorId.value, [body.coordinatorId.value], now);
            && r == Success(Created, c)
            && clubs == old(clubs) + [c]
            && nextId == old(nextId) + 1
    {
      if !Truthy(body.name) || !Truthy(body.description) || body.coordinatorId.None? {
        return Failure(BadRequest);
      }
      var coordinator := FindUser(users, body.coordinatorId.value);
      if coordinator.None? {
        return Failure(NotFound);
      }
      if ClubNameTaken(clubs, Trim(body.name.value)) {
        return Failure(Conflict);
      }
      var members := if coordinator.Some? then [coordinator.value.id] else [];
      var fields := CastClub(ClubFields(body.name, body.description, body.logoUrl, Some(coordinator.value.id), members));
      if !ClubFieldsValid(fields) {
        return Failure(InternalError);
      }
      CastClubRecordValid(ClubFields(body.name, body.description, body.logoUrl, Some(coordinator.value.id), members), nextId, now);
      var c := ClubRecord(fields, nextId, now);
      AddClub(c);
      r := Success(Created, c);
    }

    /**
     * `POST /api/budgets`, an upsert. In order: a missing clubId or an undefined amount
     * is 400 (zero and `null` pass this check); an unknown club is 404; an amount that
     * fails the schema (`null` or negative) is 500; otherwise the club's budget gets the
     * amount, created with no expenses if it had none, and the answer is 201 either way.
     */
    method AllocateBudget(body: BudgetBody, now: int) returns (r: Reply<Budget>)
      requires Valid()
      modifies this
      ensures Valid()
      ensures users == old(users) && clubs == old(clubs) && events == old(events)
      ensures r.Failure? ==> budgets == old(budgets) && nextId == old(nextId)
      ensures body.clubId.None? || body.allocatedAmount.Undefined? ==> r == Failure(BadRequest)
      ensures body.clubId.Some? && !body.allocatedAmount.Undefined? && !ClubExists(old(clubs), body.clubId.value)
        ==> r == Failure(NotFound)
      ensures body.clubId.Some? && !body.allocatedAmount.Undefined? && ClubExists(old(clubs), body.clubId.value)
        && !AmountValid(body.allocatedAmount)
        ==> r == Failure(InternalError)
      ensures body.clubId.Some? && ClubExists(old(clubs), body.clubId.value) && AmountValid(body.allocatedAmount)
        && FindBudget(old(budgets), body.clubId.value).None?
        ==> var b := Budget(old(nextId), body.clubId.value, body.allocatedAmount.n, [], now);
            && r == Success(Created, b)
            && budgets == old(budgets) + [b]
            && nextId == old(nextId) + 1
      ensures body.clubId.Some? && ClubExists(old(clubs), body.clubId.value) && AmountValid(body.allocatedAmount)
        && FindBudget(old(budgets), body.clubId.value).Some?
        ==> var k := FindBudget(old(budgets), body.clubId.value).value;
            var b := old(budgets)[k].(allocatedAmount := body.allocatedAmount.n);
            && r == Success(Created, b)
            && budgets == old(budgets)[k := b]
            && nextId == old(nextId)
    {
      if body.clubId.None? || body.allocatedAmount.Undefined? {
        return Failure(BadRequest);
      }
      var clubId := body.clubId.value;
      if !ClubExists(clubs, clubId) {
        return Failure(NotFound);
      }
      var existing := FindBudget(budgets, clubId);
      if existing.None? {
        var fields := BudgetFields(Some(clubId), body.allocatedAmount, []);
        if !BudgetFieldsValid(fields) {
          return Failure(InternalError);
        }
        var b := BudgetRecord(fields, nextId, now);
        AddBudget(b);
        r := Success(Created, b);
      } else {
        var k := existing.value;
        var old_ := budgets[k];
        var fields := BudgetFields(Some(old_.club), body.allocatedAmount, old_.expenses);
        if !BudgetFieldsValid(fields) {
          return Failure(InternalError);
        }
        var b := old_.(allocatedAmount := body.allocatedAmount.n);
        budgets := budgets[k := b];
        r := Success(Created, b);
      }
    }

    /**
     * `POST /api/events`. A missing title, description, clubId, date (or a date of 0) or
     * location is 400;
     * a title that trims to nothing fails validation, 500; otherwise exactly one event is
     * added, always pending and with nobody registered, its limit copied from the body.
     * The club id is not looked up.
     */
    method CreateEvent(body: EventBody, now: int) returns (r: Reply<Event>)
      requires Valid()
      modifies this
      ensures Valid()
      ensures users == old(users) && clubs == old(clubs) && budgets == old(budgets)
      ensures r.Failure? ==> events == old(events) && nextId == old(nextId)
      ensures !EventComplete(body) ==> r == Failure(BadRequest)
      ensures EventComplete(body) && Trim(body.title.value) == "" ==> r == Failure(InternalError)
      ensures EventComplete(body) && Trim(body.title.value) != ""
        ==> var e := Event(old(nextId), Trim(body.title.value), body.description.value, body.clubId.value,
                           body.date.value, body.location.value, Pending, [], body.registrationLimit, now);
            && r == Success(Created, e)
            && events == old(events) + [e]
            && nextId == old(nextId) + 1
    {
      if !Truthy(body.title) || !Truthy(body.description) || body.clubId.None? || !TruthyNumber(body.date) || !Truthy(body.location) {
        return Failure(BadRequest);
      }
      var given := EventFields(body.title, body.description, body.clubId, body.date, body.location,
                               Some("pending"), [], body.registrationLimit);
      var fields := CastEvent(given);
      if !EventFieldsValid(fields) {
        return Failure(InternalError);
      }
      CastEventRecordValid(given, nextId, now);
      var e := EventRecord(fields, nextId, now);
      assert e == Event(nextId, Trim(body.title.value), body.description.value, body.clubId.value,
                        body.date.value, body.location.value, Pending, [], body.registrationLimit, now);
      AddEvent(e);
      r := Success(Created, e);
    }
  }
}
