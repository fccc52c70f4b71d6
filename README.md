# Gymkhana IIIT-Kalyani: record-store bookkeeping in Dafny

This project models the server core of the Gymkhana IIIT-Kalyani club portal. The portal is a
Next.js application backed by four Mongoose collections: users, clubs, events and budgets.
The model covers:

- **The schemas**, as record datatypes, the setters and defaults applied when a document is
  built, and validity predicates. Files: `UserModel.dfy`, `ClubModel.dfy`, `EventModel.dfy`,
  `BudgetModel.dfy`.
  - Enumerations, `required`, `trim`, `lowercase`, `min` and `minlength` rules are modelled.
  - So are the email pattern and the password-rehash hook.
  - The user document that the hook mutates is a class, `UserModel.UserDocument`.
- **The writing route handlers**: register, create club, allocate budget and create event.
  - Each is a method on one in-memory `RecordStore.Store`, and returns `Failure(status)` or
    `Success(status, data)`.
  - Each method states its error precedence, the exact new state and "nothing else changes".
  - The store invariant `Valid()` holds the validators, the unique indexes (user email,
    club name, budget club) and id freshness. Every handler preserves it.
- **The reading handlers**, as functions over the collections: the event listing
  (`EventsApi.dfy`), the public events page and its capacity display (`EventsPage.dfy`), and
  the four admin endpoints behind the admin role gate (`AdminApi.dfy`).
- **The link lists** of the site header and the dashboard sidebar (`Navigation.dfy`). They are
  built, as in the source, by appending to a starting list under role tests.

Shared pieces:

- `Common.dfy`: `Option`, status codes, replies, JavaScript's undefined/null/number.
- `Session.dfy`: the signed-in user (id and role) that the header and the admin endpoints read.
- `JsString.dfy`: JavaScript truthiness, `trim`, `toLowerCase`.
- `Collections.dfy`: `find(filter)`, `sort` on one key, `map`.
  - MongoDB leaves the order of equal sort keys unspecified. The sort here is one stable
    choice, and every contract about a sorted result says only that it is sorted and a
    permutation. Two listings compared with each other are compared as multisets.

Inputs that the source takes from the environment are parameters of the model:

- The current time is `now`.
- bcrypt's `hash` is a function-typed parameter.
- The session is an optional `(id, role)` pair.
- Fresh `_id`s come from the store's counter `nextId`.

Two reading choices:

- Mongoose applies a path's `trim` and `lowercase` setters to query values too. So the
  duplicate checks of the register and club routes compare the normalized email or the
  trimmed name, and a duplicate that passes a route check is never left for the unique index
  to reject.
- A request field counts as present when JavaScript's `!field` test passes. That means
  present and non-empty for strings, present and non-zero for numbers (the event date is a
  JSON timestamp number), and present for ids.

## Model

| member | source | states |
|---|---|---|
| UserModel.ParseRole | models/user.model.ts:35-38 | the `enum` validator accepts exactly `student`, `coordinator` and `admin`, and the role it yields has that name |
| UserModel.CastUser | models/user.model.ts:17-39 | a built user document always has a role, an absent role becomes `student`, and the password is kept as given |
| UserModel.EmailShapeIsRegex | models/user.model.ts:28 | the executable shape check holds iff the email reads as `^\S+@\S+\.\S+$`: non-space runs around an `@` and a later `.` |
| UserModel.NormalizeEmailIdempotent | models/user.model.ts:26-27 | applying the email's `trim` and `lowercase` setters twice gives what applying them once gives |
| UserModel.CastUserIdempotent | models/user.model.ts:17-39 | casting an already cast user document changes nothing |
| UserModel.CastValidRecordValid | models/user.model.ts:15-46 | a document that passes the validators is stored with a non-empty trimmed name and a trimmed, lower-case, well-shaped email, whatever the password became |
| UserModel.UserDocument.constructor | models/user.model.ts:15-46 | a new document holds the cast fields, and a password given to it counts as modified |
| UserModel.UserDocument.HashPasswordHook | models/user.model.ts:52-61 | an unmodified password is left as it is; a modified one becomes `hash` of its old value; a modified but absent one aborts the save |
| JsString.TrimSpec | models/user.model.ts:20 | `trim` leaves no white space at either end and removes only white space: the input is the result padded by two all-space runs |
| JsString.TrimIdempotent | models/user.model.ts:20 | trimming twice gives what trimming once gives |
| JsString.Utf16Length | models/user.model.ts:33 | `minlength` counts UTF-16 code units: at least one and at most two per character, exactly one each when no character is outside the Basic Multilingual Plane |
| JsString.AstralLength | models/user.model.ts:33 | a string made only of characters outside the Basic Multilingual Plane has UTF-16 length twice its character count, so four of them already reach the minimum length of 8 |
| JsString.ToLowerKeepsTrimmed | models/user.model.ts:27 | lower-casing keeps a trimmed string trimmed and is idempotent |
| ClubModel.CastClubRecordValid | models/club.model.ts:14-40 | a club document that passes the validators (name, description, coordinator present) is stored with a non-empty trimmed name |
| EventModel.ParseStatus | models/event.model.ts:42-45 | the status `enum` accepts exactly `pending`, `approved` and `rejected`, and the status it yields has that name |
| EventModel.CastEvent | models/event.model.ts:42-46 | a built event document always has a status, and an absent one becomes `pending` |
| EventModel.CastEventRecordValid | models/event.model.ts:18-56 | an event document that passes the validators is stored valid with a trimmed title, and as pending when no status was given |
| BudgetModel.CastExpense | models/budget.model.ts:28-31 | an expense built without a date gets the current time; description and amount are kept |
| BudgetModel.ExpenseRecord | models/budget.model.ts:18-32 | an expense that passes the validators is stored with a non-empty description and an amount of at least zero |
| BudgetModel.BudgetRecord | models/budget.model.ts:34-50 | a budget that passes the validators is stored with an allocated amount of at least zero and only valid expenses |
| RecordStore.FindUser | app/api/clubs/route.ts:36-39 | `findById` yields a stored user with that id, or none when no stored user has it |
| RecordStore.FindBudget | app/api/budgets/route.ts:36 | `findOne({club})` yields the position of a budget of that club, or none when no budget has it |
| RecordStore.SaveNewUser | app/api/users/register/route.ts:24-32 | saving a new user fails iff validation fails (which it does for a password under 8 UTF-16 code units, as JavaScript counts `length`, or a role outside the enum); otherwise it stores the trimmed name, the normalized email, the hashed password and the role (default `student`), and the record is valid |
| RecordStore.Store.AddUser | models/user.model.ts:25 | inserting a valid user whose email is not stored keeps the store invariant (unique emails included), appends exactly that user and leaves the other collections alone |
| RecordStore.Store.AddClub | models/club.model.ts:19 | inserting a valid club whose name is not stored keeps the invariant (unique names included) and appends exactly that club |
| RecordStore.Store.AddEvent | app/api/events/route.ts:75 | inserting a valid event keeps the invariant and appends exactly that event |
| RecordStore.Store.AddBudget | models/budget.model.ts:36-41 | inserting a valid budget for a club without one keeps the invariant (one budget per club included) and appends exactly that budget |
| RecordStore.Store.Register | app/api/users/register/route.ts:5-50 | a missing field gives 400, then a stored email 409, then a failed validation 500, each with no change; otherwise 201 and exactly one new student (hashed password, any body role ignored), answered without the password |
| RecordStore.Store.CreateClub | app/api/clubs/route.ts:25-61 | a missing field gives 400, then an unknown coordinator 404, then a stored name 409, then a name that trims to nothing 500, each with no change; otherwise 201 and exactly one new club with that coordinator as its only member |
| RecordStore.Store.ListClubs | app/api/clubs/route.ts:11-23 | every stored club, in stored order; in a valid store the answered clubs pass the validators and have unique names |
| RecordStore.Store.AllocateBudget | app/api/budgets/route.ts:23-50 | a missing club id or an undefined amount gives 400 (zero passes), then an unknown club 404, then a null or negative amount 500, each with no change; otherwise 201, creating the club's budget with no expenses or overwriting only its amount |
| RecordStore.Store.ListBudgets | app/api/budgets/route.ts:12-21 | every stored budget, in stored order; in a valid store the answered budgets pass the validators and no club has two |
| RecordStore.Store.CreateEvent | app/api/events/route.ts:54-82 | a missing field (a date of 0 included, which `!date` rejects) gives 400, then a title that trims to nothing 500, each with no change; otherwise 201 and exactly one new event, pending whatever the body says, with nobody registered and the body's limit |
| Collections.Filter | app/api/events/route.ts:39-42 | the result holds each document that passes the filter as often as the input does, and no other |
| Collections.SortBy | app/api/events/route.ts:44 | the result is sorted on the key and is a permutation of the input |
| Collections.MapPermutation | app/api/admin/events/route.ts:27-30 | projecting two permutations of each other gives two permutations of each other |
| Collections.FilterDisjoint | app/api/admin/stats/route.ts:26-27 | two filters that no document passes together select at most the whole collection between them |
| EventsApi.EffectiveStatus | app/api/events/route.ts:29-33 | the status parameter when it is given, `approved` otherwise |
| EventsApi.ListEvents | app/api/events/route.ts:10-52 | ascending by date; every selected event as often as stored and no other, where the filter is `registeredUsers` containing the user when a user id is given and the listing filter otherwise |
| EventsApi.ListingByUser | app/api/events/route.ts:20-26 | with a user id, exactly the stored events that list that user, of any status and date |
| EventsApi.ListingFilters | app/api/events/route.ts:29-45 | without a user id, every answered event has the effective status (approved when none is asked for), is dated now or later, and is of the requested club when one is given |
| Collections.FindSorted | app/api/events/route.ts:39-45 | `find(filter).sort({key: 1})` answers the passing documents, as often as stored, sorted on the key |
| EventsApi.ApprovedIsDefault | app/api/events/route.ts:29-33 | asking for `status=approved` lists the same events, as often each, as giving no status |
| EventsApi.UnknownStatusListsNothing | app/api/events/route.ts:29-30 | a status outside the enumeration lists no event |
| EventsPage.UpcomingEvents | app/events/page.tsx:16-20 | every approved event dated now or later, as often as stored, and no other, ascending by date |
| EventsPage.PageMatchesDefaultListing | app/events/page.tsx:16-20 | the page lists the same events, as often each, as `GET /api/events` without parameters answers |
| EventsPage.IsFull | app/events/page.tsx:38-39 | an unset or zero limit is never full; a positive limit is full iff the registrations reach it; a negative limit is always full |
| EventsPage.Card | app/events/page.tsx:37-82 | a card counts the registered users, shows the slots iff a limit is set, and shows the disabled Full button iff the event is full, a Register link otherwise |
| EventsPage.Page | app/events/page.tsx:35 | one card per listed event, in the listing's order |
| AdminApi.CountRole | app/api/admin/stats/route.ts:21-23 | a per-role count is at most the number of users |
| AdminApi.CountStatus | app/api/admin/stats/route.ts:26-27 | a per-status count is at most the number of events |
| AdminApi.RoleCountsPartition | app/api/admin/stats/route.ts:20-23 | students, coordinators and admins add up to all users |
| AdminApi.ApprovedPendingBound | app/api/admin/stats/route.ts:25-27 | approved and pending events add up to at most all events |
| AdminApi.AdminStats | app/api/admin/stats/route.ts:8-45 | 401 iff the session user is not an admin; otherwise the collection sizes and the filtered counts, with the role counts adding up to the users and the approved and pending counts bounded by the events |
| AdminApi.EventStatOf | app/api/admin/events/route.ts:30-42 | an entry passes through the event's id, title, description, club, date, location, status, registered users, limit and creation time, and its registration count is the length of the registered users |
| AdminApi.AdminEvents | app/api/admin/events/route.ts:8-49 | 401 iff not an admin; otherwise one entry per stored event of every status, a permutation of the projected events, latest date first, each counting its registrations |
| AdminApi.ClubStatOf | app/api/admin/clubs/route.ts:27-35 | an entry's member count is the length of its members, which are the club's |
| AdminApi.AdminClubs | app/api/admin/clubs/route.ts:7-42 | 401 iff not an admin; otherwise one entry per stored club in stored order, with name, description, coordinator, members and creation time passed through and the members counted |
| AdminApi.Summary | app/api/admin/users/route.ts:18 | a summary keeps the user's id, name, email, role, student id and creation time, and has no password field |
| AdminApi.AdminUsers | app/api/admin/users/route.ts:6-27 | 401 iff not an admin; otherwise one password-free summary per stored user, a permutation of the summarised users, newest first |
| Navigation.DashboardLink | components/shared/MainNav.tsx:26-30 | only admins and coordinators have a dashboard entry |
| Navigation.GetNavLinks | components/shared/MainNav.tsx:17-36 | Home, Clubs, Events first; exactly those when signed out; when signed in, the role's dashboard (admin or coordinator only, at most one) and then My Profile last; 3, 4 or 5 links |
| Navigation.Section | components/shared/DashboardSidebar.tsx:32-37 | the sidebar's hrefs are under `/admin` exactly for an admin and under `/coordinator` otherwise |
| Navigation.GetLinks | components/shared/DashboardSidebar.tsx:28-90 | Dashboard and Events first, every href under the role's section; six links for an admin, five for a coordinator, two for anyone else, with the role-specific links in source order |
| Navigation.Heading | components/shared/DashboardSidebar.tsx:97 | the heading is "Admin Dashboard" iff the role is admin, "Coordinator Dashboard" otherwise |

## Left out

- `comparePassword` (models/user.model.ts:64-66) only calls bcrypt's `compare`, which is foreign code. bcrypt's salt rounds are folded into the `hash` parameter.
- HashPasswordHook: when bcrypt throws, the hook passes the error on. For a present password the model shows that path as a success, because `hash` is a total parameter here.
- Mongoose mechanics: `populate`, `lean`, `select` and casting strings to ObjectIds. So a malformed id, which makes the source's query throw and answer 500, has no counterpart here. Ids are naturals.
- The HTTP and JSON envelope, the messages and `console` logging. Replies carry only the status and the data.
- Requests run one at a time and atomically. The source's gap between `findOne` and `save()` (a race two concurrent registrations could lose) is not modelled. Nor are the connection cache (`dbConnect`) and authentication (`auth()`).
- The `updatedAt` timestamps: only `createdAt` is kept.
- Dates are integer timestamps. `new Date(date)` on an unparsable value, which gives an Invalid Date and a save failure, is not modelled.
- Amounts are integers. Non-numeric JSON values for `allocatedAmount` are not modelled: it is `undefined`, `null` or a number.
- `toLowerCase` is modelled on ASCII letters only. So `Register` misses a duplicate that differs from a stored email only in non-ASCII case: with `é@x.co` stored, `É@x.co` gets 409 in the source but 201 in the model.
- Arrays of ids are always present: Mongoose gives array paths the default `[]`, so `?.length || 0` is the length. The counts are of stored ids, not of `populate`d survivors.
- `find()` with no sort (clubs, budgets, admin clubs) answers in stored order.
- The POST handlers for clubs, budgets and events do not check the session role in the source, and the model does not either.
- The club-join, event-registration, expense and event-moderation handlers are not part of this model.
- The UI rendering of the site header (`MainNav`), the dashboard sidebar (`DashboardSidebar`) and the events page, and their click and state handlers.
- EventsPage.Card: with `registrationLimit: 0`, the source's `{hasLimit && ...}` (app/events/page.tsx:63) makes React render a stray `0` in the card. The card value has no place for that text.
