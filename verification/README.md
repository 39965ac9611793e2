# Event-sharing platform backend: a Dafny model of its decision logic

This project models the request-handling logic of the event-sharing platform's
Express/Mongoose backend. It covers three groups of code:

- the authentication middleware: bearer tokens, lazy demotion of an expired
  `TEMP_ADMIN`, and the role gate;
- the event controller: the admin policy, the ownership check, validation on
  create and update, the paging arithmetic, and the listing filter;
- the registration controller: register, change status, cancel, and list a
  user's registrations. The superseded `createRegistration` handler is modelled too.

The Mongoose schemas for users, events and registrations are modelled as
validators with defaults and unique indexes.

Each handler is a pure function. It takes the stored collections and the
request, and returns either an `Error(status, message)` or the new collections
together with the response value. The clock (`now`), date parsing
(`parseDate`), JWT verification (`verify`) and fresh document ids (`newId`) are
parameters.

Files and modules:

| file | module | contents |
|---|---|---|
| common.dfy | `Common` | `Option`, `Result`, `Outcome`, `Error`, JavaScript truthiness of an optional string, first-match search |
| text.dfy | `Text` | `trim`, the UTF-16 length JavaScript's `.length` reports, ASCII upper/lower case, prefix test |
| models.dfy | `Models` | User, Event and Registration schemas: enums, required fields, defaults, unique keys |
| auth.dfy | `Auth` | `AuthMiddleware`, lazy demotion, `authorizeRoles` |
| events.dfy | `Events` | `controllers/event.controller.js` |
| registrations.dfy | `Registrations` | `controllers/registration.controller.js` |
| invariants.dfy | `RegistrationInvariants` | counter, uniqueness and capacity invariants over any sequence of registration requests |
| legacy.dfy | `LegacyRegistrations` | `createRegistration` in `controller/Registration.controller.js` |

The central theorem is `RegistrationInvariants.CountersTrackRegistrations`. It
starts from a store with zero counters and no registrations. After any sequence
of register, cancel and status-change requests, three things hold:

- every event's `registeredCount` equals the number of its registrations, so
  the counter is never negative;
- no (event, user) pair is registered twice;
- every event with a positive capacity `c` has a counter below `c + 1`, that
  is, at most `c` rounded up. A capacity is a JSON number and may be
  fractional: capacity 2.5 admits a third registration
  (`RegistrationInvariants.FractionalCapacityOverfills`). For a whole
  capacity the counter never exceeds it.

Requests run one after another. `RegistrationInvariants.CancelHasNoFloor` shows
why that starting point matters: the decrement itself has no floor. Creating
an event keeps the store consistent, and updating one keeps the counters, but
an update may lower a capacity below the counter
(`RegistrationInvariants.UpdateCanOverfill`).

Where the code and the surrounding documentation disagree, the model follows
the code:

- The controller upper-cases the event type, so a general event reaches the
  schema as `GENERAL`, a spelling the enum (`IEEE`, `General`) does not list.
  `Event.create` and `save()` validate against the schema, and the handlers
  answer the refusal with 500 "Server Error". So every creation of a GENERAL
  event fails (`Events.GeneralCreateRefused`), and so does every update that
  sets the type to GENERAL (`Events.GeneralUpdateRefused`).
- The Event schema marks `capacity` as required. The controller passes
  `capacity || null`, so a creation with a missing, null or zero capacity
  fails with 500 (`Events.UncappedCreateRefused`). An update may still set a
  capacity of 0, which registration treats as unlimited.
- The schema also refuses an empty location. An update whose location is all
  blanks trims it to "" and fails with 500 (`Events.BlankLocationRefused`).
- String lengths are JavaScript's `.length`, which counts UTF-16 code units:
  a character above U+FFFF counts twice (`Events.AstralTitleLongEnough`).
- The controller accepts any number as a capacity, including negative ones.
- The event controller never imports the Registration model. So `deleteEvent`
  and `getEventRegistrations` end in 500 "Server Error" whenever their gate
  passes (`Events.DeleteEvent`, `Events.GetEventRegistrations`).
- Registration decides the status from the stored type string, so any event
  whose type reads "FREE" is free (`Registrations.StatusDependsOnTypeName`).
- In `getEvents`, the branch for `upcoming === "false"` can never be taken. A
  non-empty string is truthy, so `upcoming=false` selects upcoming events
  (`Events.UpcomingFalseSelectsUpcoming`).
- The event's registrations can be viewed only by its organizer or a
  `SUPER_ADMIN`. A `TEMP_ADMIN` who is not the organizer is refused.

## Model

| member | source | states |
|---|---|---|
| Text.Trim | backend/controllers/event.controller.js:80-98 | the result is a contiguous slice of the input with only white space before and after it, and it neither starts nor ends with white space; it is empty exactly when the input is all white space, and equals the input exactly when the input has no white space at either end |
| Text.Utf16Length | backend/controllers/event.controller.js:80-98 | a string's UTF-16 length is at least its number of characters and at most twice that |
| Text.Utf16LengthIsLength | backend/controllers/event.controller.js:80-98 | the UTF-16 length equals the number of characters exactly when no character lies above U+FFFF |
| Text.ToUpper | backend/controllers/event.controller.js:92 | the result has the input's length and each character is the upper-case form of the input's character at the same index |
| Text.ToLower | backend/controller/Registration.controller.js:31 | the result has the input's length and each character is the lower-case form of the input's character at the same index |
| Text.IeeeSpellingsAgree | backend/controller/Registration.controller.js:31 | for the ASCII case mapping modelled, a type string is "IEEE" after upper-casing exactly when it is "ieee" after lower-casing |
| Models.ParseRole | backend/models/User.js:17-21 | exactly the three enum spellings parse, each to the role whose name it is |
| Models.RoleNameRoundTrip | backend/models/User.js:17-21 | parsing a role's stored name gives the role back |
| Models.ParseBranch | backend/models/User.js:29-33 | exactly the six branch spellings parse, each to the branch whose name it is |
| Models.ValidateUser | backend/models/User.js:3-39 | a user document is accepted exactly when name, email, password and branch are present and the branch is in the enum, and any given role is in the enum; the role defaults to USER and `isIEEE` to false; the stored user keeps the document's id, email and promotion date |
| Models.InsertUser | backend/models/User.js:8-12 | an insert succeeds exactly when neither the id nor the email is already taken; the users collection stays keyed by id with unique emails |
| Models.TypeFromName | backend/controllers/registration.controller.js:26-29 | the parsed event type's stored name is the input string, so FREE, IEEE and GENERAL are recognised only in exactly those spellings |
| Models.TypeNameRoundTrip | backend/controllers/event.controller.js:118 | parsing an event type's stored name gives the type back |
| Models.ValidateEvent | backend/models/Event.js:3-47 | an event document is accepted exactly when every required field is present, the type is `IEEE` or `General`, and a capacity is given; the counter defaults to 0 and `isActive` to true |
| Models.Saveable | backend/models/Event.js:3-47 | an event can be written exactly when its title, description and location are non-empty, its type is a spelling the enum lists, and it has a capacity |
| Models.ParseStatus | backend/models/Registration.js:15-20 | exactly REGISTERED and AWAITING_CONFIRMATION parse, each to its status |
| Models.StatusNameRoundTrip | backend/models/Registration.js:15-20 | parsing a status's stored name gives the status back |
| Models.ValidateRegistration | backend/models/Registration.js:4-26 | a registration document is accepted exactly when event and user are present and any given status is in the enum; the status defaults to AWAITING_CONFIRMATION |
| Models.InsertRegistration | backend/models/Registration.js:29 | an insert succeeds exactly when neither the id nor the (event, user) pair is already stored; on success the record is appended and pairs stay unique |
| Auth.ExtractToken | backend/middleware/Auth.js:10-17 | a token is extracted exactly when the header starts with "Bearer " and has text after it; the header is the prefix followed by the token; every failure is 401 |
| Auth.ExtractTokenRoundTrip | backend/middleware/Auth.js:10-17 | a header built from a non-empty token yields that token |
| Auth.Demote | backend/middleware/Auth.js:25-29 | the result is never an expired TEMP_ADMIN; an expired one becomes USER with no promotion date; anyone else is returned unchanged; no other field changes |
| Auth.Authenticate | backend/middleware/Auth.js:8-37 | authentication succeeds exactly when the header carries a token that verifies to a stored user; that user is demoted if expired and the demotion is persisted; every failure is 401 |
| Auth.AuthorizeRoles | backend/middleware/Auth.js:40-52 | with no user the result is 401; otherwise the gate passes exactly when the user's role is allowed, and any refusal is 403 |
| Auth.DemoteIdempotent | backend/middleware/Auth.js:25-29 | demoting an already demoted user changes nothing |
| Auth.DemoteLater | backend/middleware/Auth.js:25-29 | a demotion at an earlier time followed by one at a later time equals the later demotion alone |
| Auth.AuthorizeRolesMonotone | backend/middleware/Auth.js:40-52 | a caller admitted by a list of roles is admitted by every list that contains it |
| Auth.PlainUserCannotUpdateStatus | backend/routes/registration.routes.js:27-32 | an authenticated caller whose role is USER after demotion is refused by the status-update route's role gate |
| Auth.LapsedTempAdminCannotUpdateStatus | backend/routes/registration.routes.js:27-32 | a stored TEMP_ADMIN whose promotion has lapsed is demoted on authentication and then refused by the status-update route with 403 |
| Events.CanOrganize | backend/controllers/event.controller.js:71-77 | a SUPER_ADMIN is always admitted, a USER never, and a TEMP_ADMIN without a promotion date or whose promotion has ended by now is refused |
| Events.PolicyAfterDemotion | backend/controllers/event.controller.js:71-77 | once the middleware has demoted the caller, the admin policy admits exactly a SUPER_ADMIN or a TEMP_ADMIN that still has a promotion date, whatever the clock says |
| Events.ExpiryInstantRefused | backend/controllers/event.controller.js:74 | a TEMP_ADMIN whose promotion ends exactly now is refused by the policy, and the middleware demotes them to USER at that instant |
| Events.OrganizerGate | backend/controllers/event.controller.js:142-160 | a caller outside the admin policy gets 403; a missing event gets 404; a TEMP_ADMIN who is not the organizer gets 403; otherwise the gate passes |
| Events.SuperAdminNeverOwnershipChecked | backend/controllers/event.controller.js:158-160 | a SUPER_ADMIN passes the gate for any stored event |
| Events.DeleteEventDecision | backend/controllers/event.controller.js:206-229 | the delete gate passes exactly when the caller is under the admin policy, the event is stored, and the caller is a SUPER_ADMIN or its organizer; a refusal is 403 or 404 |
| Events.DeleteEvent | backend/controllers/event.controller.js:206-238 | the handler never deletes: a gate refusal is passed on, and once the gate passes the reference to the undefined `Registration` ends in 500 "Server Error" |
| Events.DeleteImpliesUpdateAndView | backend/controllers/event.controller.js:142-257 | a caller who passes the delete gate also passes the update gate and the view gate (both handlers then fail with 500 at the undefined `Registration`, but the gates agree) |
| Events.GetEventById | backend/controllers/event.controller.js:51-63 | the lookup succeeds exactly when the event is stored, and returns it; otherwise 404 |
| Events.CreatedCapacity | backend/controllers/event.controller.js:122 | the capacity handed to the schema: a missing, null or zero capacity becomes null, which the schema refuses, and any other number is passed on as given |
| Events.CreateValidation | backend/controllers/event.controller.js:80-113 | validation passes exactly when the input meets every creation rule, lengths counted in UTF-16 code units after trimming; a short or missing title is the first error reported |
| Events.AstralTitleLongEnough | backend/controllers/event.controller.js:80 | a title of two characters above U+FFFF has length 4, so it meets the three-unit minimum |
| Events.UpperNeverGeneral | backend/models/Event.js:14 | no upper-cased string is the enum's `General` spelling |
| Events.CreateEvent | backend/controllers/event.controller.js:66-134 | a caller outside the admin policy gets 403, then invalid input gets 400; a valid request whose type upper-cases to GENERAL or whose capacity becomes null is refused by the schema with 500; creation succeeds exactly when none of these applies and the id is fresh; the stored event passes the schema and has trimmed text of the required UTF-16 lengths, type IEEE, the parsed dates in order, the caller as organizer, a zero counter, and is active; no other event changes |
| Events.GeneralCreateRefused | backend/controllers/event.controller.js:115-132 | every otherwise valid creation of a GENERAL event ends in 500 "Server Error" |
| Events.UncappedCreateRefused | backend/controllers/event.controller.js:115-132 | every otherwise valid creation with a missing, null or zero capacity ends in 500 "Server Error" |
| Events.CreatedEventIsFound | backend/controllers/event.controller.js:51-134 | after a successful creation, looking up the new id returns the created event |
| Events.UpdatedCapacity | backend/controllers/event.controller.js:193 | an absent capacity keeps the current one, null clears it, and any number, zero included, replaces it |
| Events.Patched | backend/controllers/event.controller.js:176-193 | each truthy field replaces the stored one, text trimmed and type upper-cased; each absent field is kept; the dates change only as a pair; the capacity follows the update rule; counter, organizer and activity are kept |
| Events.UpdateEvent | backend/controllers/event.controller.js:136-204 | a gate refusal is passed on and an invalid field is 400; the patched event is saved exactly when it passes the schema, and otherwise the result is 500; on success the store holds the patched event under the same id and no other event changes |
| Events.EmptyUpdateIsIdentity | backend/controllers/event.controller.js:176-193 | an update with no fields succeeds exactly when the stored event passes the schema, and then leaves the event and the store unchanged |
| Events.UpdateAcceptsShortLocation | backend/controllers/event.controller.js:162-192 | for a stored event that passes the schema, an update stores a two-character location, which creation would refuse |
| Events.SingleDateIgnored | backend/controllers/event.controller.js:176-187 | an update that gives only a start date succeeds exactly when the stored event passes the schema, and then keeps the event as it was |
| Events.BlankLocationRefused | backend/controllers/event.controller.js:192-202 | a location of blanks passes the update's checks, trims to the empty string, and the save is refused with 500 |
| Events.GeneralUpdateRefused | backend/controllers/event.controller.js:191-202 | an update that sets the type to GENERAL is refused by the schema with 500 |
| Events.NullCapacityUpdateRefused | backend/controllers/event.controller.js:193-202 | an update that sets the capacity to null is refused by the schema with 500 |
| Events.CeilDiv | backend/controllers/event.controller.js:43 | the result is the least integer at or above the exact quotient |
| Events.WindowOf | backend/controllers/event.controller.js:24 | page 1 starts at offset 0; a page's window ends where the next page begins; the offset is non-negative for positive pages |
| Events.EventsMeta | backend/controllers/event.controller.js:37-44 | page and limit default to 1 and 10; the page count is absent (null) exactly for a zero limit, and for a positive limit it is the least number of pages that covers the total |
| Events.PageNonEmptyIffWithinTotal | backend/controllers/event.controller.js:24-43 | for a positive limit, a page's window starts inside the total exactly when the page number is at most the page count |
| Events.NumberOr | backend/controllers/event.controller.js:259-261 | a missing, non-numeric or zero query value takes the default and any other value is kept; the result is never zero |
| Events.ViewRegistrationsDecision | backend/controllers/event.controller.js:240-261 | a missing event is 404; otherwise only the organizer or a SUPER_ADMIN passes; a missing or zero page or limit becomes 1 or 20, any other value is used as given, and the offset is (page - 1) * limit |
| Events.GetEventRegistrations | backend/controllers/event.controller.js:240-282 | the handler never lists: a 404 or 403 from the gate is passed on, and once the gate passes the reference to the undefined `Registration` ends in 500 "Server Error" |
| Events.DemotedOrganizerKeepsView | backend/controllers/event.controller.js:250-257 | an organizer may view their event's registrations whatever their current role |
| Events.FilterEvents | backend/controllers/event.controller.js:8-15 | the listing holds exactly the stored events that match the type and upcoming filters |
| Events.UpcomingFalseSelectsUpcoming | backend/controllers/event.controller.js:11-15 | `upcoming=false` selects upcoming events, like `upcoming=true` |
| Events.NoFilterExcludesUpcoming | backend/controllers/event.controller.js:11-15 | an upcoming event that passes the type filter is listed whatever `upcoming` says |
| Events.TypeFilterIsCaseSensitive | backend/controllers/event.controller.js:8-10 | the filter "ieee" does not match a stored IEEE event, the only type creation stores |
| Registrations.IsFull | backend/controllers/registration.controller.js:15 | an event with no capacity is never full; with a positive capacity it is full exactly when its counter has reached the capacity |
| Registrations.FindPair | backend/controllers/registration.controller.js:19 | a found index holds a registration of the (event, user) pair, and nothing is found exactly when the pair has no registration |
| Registrations.DecideStatus | backend/controllers/registration.controller.js:23-47 | a status is decided exactly when the stored type string is "FREE", it is "IEEE" and the member is an IEEE member, or a payment id is given; the status is REGISTERED exactly in the first two cases; a refusal is 400 with the IEEE or general payment message |
| Registrations.StatusDependsOnTypeName | backend/controllers/registration.controller.js:26-47 | two event types with the same stored name get the same status decision |
| Registrations.RegisterForEvent | backend/controllers/registration.controller.js:8-68 | a missing event is 404, then a full event is 400, then an existing pair is 400; a payment refusal is answered with the status decision's 400 and message; registration succeeds exactly when none of these applies; the new record is appended and only that event's counter rises by one |
| Registrations.FullBeforeDuplicate | backend/controllers/registration.controller.js:15-21 | a user already registered for a full event is told the event is full, not that they are registered |
| Registrations.UnlimitedNeverFull | backend/controllers/registration.controller.js:15 | an event with no capacity, or capacity 0, is never full |
| Registrations.UpdateRegistrationStatus | backend/controllers/registration.controller.js:108-132 | an invalid status is 400 before any lookup; a missing registration is 404; otherwise only that registration's status changes |
| Registrations.UpdateStatusIdempotent | backend/controllers/registration.controller.js:118-122 | applying the same status update twice gives the same store as applying it once |
| Registrations.SelfOrAdmin | backend/controllers/registration.controller.js:140-142 | a caller may always act for themself, and a plain USER for nobody else |
| Registrations.CancelRegistration | backend/controllers/registration.controller.js:137-159 | a caller who is neither the user nor an admin gets 403; a missing pair gets 404; otherwise that one registration is removed and its event's counter drops by one |
| Registrations.OfUser | backend/controllers/registration.controller.js:172 | each of the user's registrations occurs in the selection as often as in the store, and no other registration occurs; nondecreasing creation times stay nondecreasing |
| Registrations.GetUserRegistrations | backend/controllers/registration.controller.js:163-181 | the request is refused exactly when the caller is neither the user nor an admin, with 403; otherwise the list holds each of the user's registrations as often as the store does and nothing else, and the count is its length; when stored creation times never decrease, the list is newest first |
| RegistrationInvariants.CountConcat | backend/controllers/registration.controller.js:56 | an event's registration count over two concatenated lists is the sum of the counts |
| RegistrationInvariants.RegisterCountsOne | backend/controllers/registration.controller.js:49-56 | a successful registration adds exactly one registration for the event and raises its counter by one, and no other event's count changes |
| RegistrationInvariants.RegisterPreserves | backend/controllers/registration.controller.js:8-68 | registration keeps counters equal to counts, pairs unique, references valid, and each counter below its positive capacity plus one |
| RegistrationInvariants.CancelPreserves | backend/controllers/registration.controller.js:137-159 | cancellation keeps the same invariants, lowers the event's count by one and leaves its counter non-negative |
| RegistrationInvariants.UpdateStatusPreserves | backend/controllers/registration.controller.js:108-132 | a status change keeps the same invariants |
| RegistrationInvariants.RunPreserves | backend/controllers/registration.controller.js:8-159 | any sequence of requests keeps the invariants |
| RegistrationInvariants.CountersTrackRegistrations | backend/controllers/registration.controller.js:8-159 | from a fresh store, after any sequence of requests, every counter equals its event's registrations and is non-negative, pairs are unique, and every counter is at most its positive capacity rounded up |
| RegistrationInvariants.CancelHasNoFloor | backend/controllers/registration.controller.js:152 | a counter of 0 becomes -1 when a registration exists, because the decrement has no floor |
| RegistrationInvariants.CapacityBound | backend/controllers/registration.controller.js:15 | under the capacity invariant a counter is at most its capacity rounded up, and at most the capacity itself when that is whole |
| RegistrationInvariants.FractionalCapacityOverfills | backend/controllers/registration.controller.js:15-56 | with capacity 2.5 and two registrations, a third registration succeeds and the counter reaches 3, and the store stays consistent |
| RegistrationInvariants.CreatePreserves | backend/controllers/event.controller.js:115-125 | creating an event keeps counters, pairs, references and the capacity bound consistent |
| RegistrationInvariants.UpdateKeepsCounters | backend/controllers/event.controller.js:189-195 | updating an event keeps every counter equal to its registrations, references valid and pairs unique |
| RegistrationInvariants.UpdateCanOverfill | backend/controllers/event.controller.js:193 | an update may set a capacity below the counter: capacity 1 on an event with two registrations is saved and breaks the capacity bound |
| LegacyRegistrations.CreateRegistration | backend/controller/Registration.controller.js:4-64 | a missing event is 404, then a past deadline is 400, then an existing pair is 409; success happens exactly when none applies and the required evidence is given; the record is appended; the free-entry message is given exactly for an IEEE event with an IEEE id |
| LegacyRegistrations.DeadlineInstantAllowed | backend/controller/Registration.controller.js:17-21 | registering exactly at the deadline is allowed |
| LegacyRegistrations.IeeeTestMatchesCurrent | backend/controller/Registration.controller.js:31 | for the ASCII case mapping modelled, the legacy lower-case IEEE test accepts the same type strings as the current upper-case one |
| LegacyRegistrations.SecondAttemptConflicts | backend/controller/Registration.controller.js:23-29 | repeating a successful legacy registration is refused with 409 |

## Left out

- HTTP routing and Express plumbing are not modelled: route tables, `req`/`res` objects, success status codes and response bodies beyond the fields named above.
- The routes for events import the Auth module as a whole rather than its named middleware. This wiring is not modelled; each handler takes the authenticated caller directly.
- Mongoose I/O is not modelled: `populate`, `select`, `lean`, and the database's own errors. Every database failure other than a duplicate key is a 500 that the model does not produce.
- The `search` regular-expression filter in `getEvents` is not modelled, because regular expressions are out of scope. `FilterEvents` covers the type and upcoming filters only.
- The sort in `getEvents` is not modelled. It sorts on a field `date` that events do not have, so the order of a listing page is left unspecified.
- `deleteEvent` never deletes anything. Once its gate passes, it calls `Registration.deleteMany`, but the controller never imports `Registration`; the ReferenceError is caught and answered with 500 "Server Error" (`Events.DeleteEvent`). What the removal would do if the import existed is not modelled.
- `getEventRegistrations` never lists anything. Once its gate passes, its query on `Registration` throws the same ReferenceError and the answer is 500 "Server Error" (`Events.GetEventRegistrations`). The listing it would return is not modelled.
- Events.EventsMeta: query strings are modelled as already-converted integers. JavaScript's `Number` conversion of arbitrary text (NaN) is not modelled.
- Events.EventsMeta: a negative offset, which the database refuses with a 500, is not modelled.
- Concurrent requests are not modelled. The read-check-write sequences in `registerForEvent` and `cancelRegistration` are not atomic, so the invariants hold only for requests that run one after another.
- JWT signing and verification are not modelled. `verify` is a parameter, and an expired or malformed token is any token for which it returns `None`.
- Password hashing is not modelled. The password hash is an opaque string.
- Dates are not modelled beyond a parameter. `parseDate` stands for JavaScript's `Date` parsing, and `now` is a natural number.
- Text.Trim removes space, tab, line feed, carriage return, vertical tab, form feed, U+00A0 and U+FEFF only. JavaScript's `trim` also removes the other Unicode space separators and the line terminators U+2028 and U+2029.
- Text.ToUpper and Text.ToLower map ASCII letters only; JavaScript maps all of Unicode.
- Text.IeeeSpellingsAgree: holds only for the ASCII case mapping. In JavaScript "ıeee" (dotless i, U+0131) upper-cases to "IEEE" but lower-cases to "ıeee", so the two tests disagree on it.
- LegacyRegistrations.IeeeTestMatchesCurrent: holds only for the ASCII case mapping, for the same reason; the legacy handler refuses "ıeee" as an IEEE type while `createEvent` accepts it.
- RegistrationInvariants.CountersTrackRegistrations: the capacity bound covers registration, cancellation and status changes only. An update may set any capacity, so the bound does not survive updates (`RegistrationInvariants.UpdateCanOverfill`).
- Fresh document ids are parameters. A clash with a stored id is read as the database's duplicate-key error (500).
- Registrations.GetUserRegistrations: newest-first order is proved only when stored creation times do not decrease. It also does not model ties between equal creation times, whose order the database leaves open.
- The promotion of a user to `TEMP_ADMIN` (`promoteUser`) is not part of this model. Only the demotion it enables is covered.
- `backend/controller/Event.controller.js` and the legacy handlers `getRegistrations`, `getRegistrationById` and `deleteRegistration` are not modelled. The current controllers supersede them, and the legacy lookups hold no decision logic.
- `createRegistration` stores a record shape that differs from the current Registration schema. `LegacyRegistrations` models that record as written and does not validate it against the schema.
- The frontend, the rate limiter, the database configuration and the migration utility are not part of this model.
- Expectations in the test suites that no code implements are not modelled.
