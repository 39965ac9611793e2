/** The event controller's decisions: the organizer policy, creation with
    field validation, partial update, the gates in front of deletion and of
    the registrations listing, and the filter and pagination arithmetic of
    the events listing. */
module Events {
  import opened Common
  import opened Text
  import opened Models
  import Auth

  // ------------------------------------------------------------- policies

  /** Who may create, update or delete events: a SUPER_ADMIN, or a TEMP_ADMIN
      whose promotion lasts strictly beyond `now`. (A null promotion compares
      as 0, which is never after a time since the epoch.) */
  predicate CanOrganize(u: User, now: nat)
    ensures u.role == SuperAdmin ==> CanOrganize(u, now)
    ensures u.role == UserRole ==> !CanOrganize(u, now)
    ensures u.role == TempAdmin && (u.promotedUntil.None? || u.promotedUntil.value <= now) ==> !CanOrganize(u, now)
  {
    u.role == SuperAdmin || (u.role == TempAdmin && u.promotedUntil.Some? && u.promotedUntil.value > now)
  }

  /** After the middleware's demotion, the policy no longer depends on the
      clock: it holds exactly for SUPER_ADMINs and for TEMP_ADMINs that have
      a promotion date. */
  lemma PolicyAfterDemotion(u: User, now: nat)
    ensures var d := Auth.Demote(u, now);
      CanOrganize(d, now) <==> d.role == SuperAdmin || (d.role == TempAdmin && d.promotedUntil.Some?)
  {
  }

  /** At the instant of expiry a TEMP_ADMIN is refused by the policy and
      demoted by the middleware. */
  lemma ExpiryInstantRefused(u: User, now: nat)
    requires u.role == TempAdmin && u.promotedUntil == Some(now as int)
    ensures !CanOrganize(u, now)
    ensures Auth.Demote(u, now).role == UserRole
  {
  }

  /** The gate shared by update and delete: the organizer policy (403), the
      event's existence (404), then, for a TEMP_ADMIN only, ownership (403).
      `action` is the verb the messages use. */
  function OrganizerGate(events: map<Id, Event>, caller: User, eventId: Id, now: nat, action: string): (r: Outcome)
    ensures !CanOrganize(caller, now) ==>
      r == Fail(Error(403, "You are not authorized to " + action + " this event"))
    ensures CanOrganize(caller, now) && eventId !in events ==> r == Fail(Error(404, "Event not found"))
    ensures r.Pass? <==>
      && CanOrganize(caller, now) && eventId in events
      && (caller.role == SuperAdmin || events[eventId].organizer == caller.id)
    ensures r.Fail? && CanOrganize(caller, now) && eventId in events ==>
      r.error == Error(403, "You can only " + action + " your own events")
  {
    if !CanOrganize(caller, now) then Fail(Error(403, "You are not authorized to " + action + " this event"))
    else if eventId !in events then Fail(Error(404, "Event not found"))
    else if caller.role == TempAdmin && events[eventId].organizer != caller.id then
      Fail(Error(403, "You can only " + action + " your own events"))
    else Pass
  }

  /** A SUPER_ADMIN may update or delete any existing event. */
  lemma SuperAdminNeverOwnershipChecked(events: map<Id, Event>, caller: User, eventId: Id, now: nat, action: string)
    requires caller.role == SuperAdmin && eventId in events
    ensures OrganizerGate(events, caller, eventId, now, action) == Pass
  {
  }

  /** `deleteEvent` up to the cascade: the gate's decision. */
  function DeleteEventDecision(events: map<Id, Event>, caller: User, eventId: Id, now: nat): (r: Outcome)
    ensures r.Pass? <==>
      && CanOrganize(caller, now) && eventId in events
      && (caller.role == SuperAdmin || events[eventId].organizer == caller.id)
    ensures r.Fail? ==> r.error.status in {403, 404}
    ensures r.Fail? && r.error.status == 404 ==> CanOrganize(caller, now) && eventId !in events
  {
    OrganizerGate(events, caller, eventId, now, "delete")
  }

  /** `deleteEvent` as a whole. Past the gate the handler calls
      `Registration.deleteMany`, but the controller never imports
      `Registration`: the ReferenceError is caught and answered with 500, so
      no request ever deletes an event. */
  function DeleteEvent(events: map<Id, Event>, caller: User, eventId: Id, now: nat): (r: Outcome)
    ensures r.Fail?
    ensures r.error == EventServerError <==> DeleteEventDecision(events, caller, eventId, now).Pass?
    ensures DeleteEventDecision(events, caller, eventId, now).Fail? ==> r == DeleteEventDecision(events, caller, eventId, now)
  {
    match DeleteEventDecision(events, caller, eventId, now)
    case Fail(e) => Fail(e)
    case Pass => Fail(EventServerError)
  }

  /** Whoever may delete an event may also update it, and may view its
      registrations. */
  lemma DeleteImpliesUpdateAndView(events: map<Id, Event>, caller: User, eventId: Id, now: nat,
                                   pageQ: Option<int>, limitQ: Option<int>)
    requires DeleteEventDecision(events, caller, eventId, now).Pass?
    ensures OrganizerGate(events, caller, eventId, now, "update").Pass?
    ensures ViewRegistrationsDecision(events, caller, eventId, pageQ, limitQ).Ok?
  {
  }

  /** `getEventById`: the stored event, or 404. */
  function GetEventById(events: map<Id, Event>, eventId: Id): (r: Result<Event>)
    ensures r.Ok? <==> eventId in events
    ensures r.Ok? ==> r.value == events[eventId]
    ensures r.Err? ==> r.error == Error(404, "Event not found")
  {
    if eventId in events then Ok(events[eventId]) else Err(Error(404, "Event not found"))
  }

  /** The event controller's answer to anything thrown, including the event
      schema refusing a document and a duplicate key. */
  const EventServerError := Error(500, "Server Error")

  // ------------------------------------------------------------- creation

  /** A capacity in a request body: absent, null, or a JSON number. */
  datatype CapacityInput = Absent | Null | Num(n: real)

  /** The fields of a create or update request body. Date strings are
      read by the parameter `parseDate` (`new Date(s)`, `None` when the
      result is an invalid date). */
  datatype EventInput = EventInput(
    title: Option<string>,
    description: Option<string>,
    kind: Option<string>,
    location: Option<string>,
    startDate: Option<string>,
    endDate: Option<string>,
    capacity: CapacityInput)

  /** The types a create or update request may name, after upper-casing. */
  predicate AdmittedType(s: string) {
    ToUpper(s) == "IEEE" || ToUpper(s) == "GENERAL"
  }

  /** Both dates parse and the end is strictly after the start. */
  predicate DatesValid(start: string, end: string, parseDate: string -> Option<int>) {
    parseDate(start).Some? && parseDate(end).Some? && parseDate(end).value > parseDate(start).value
  }

  /** A field given as a non-empty string whose trimmed JavaScript length
      (in UTF-16 code units) is at least `n`. */
  predicate LongEnough(f: Option<string>, n: nat) {
    Truthy(f) && Utf16Length(Trim(f.value)) >= n
  }

  /** Every requirement `createEvent` puts on the request body. */
  predicate CreateInputValid(input: EventInput, parseDate: string -> Option<int>) {
    && LongEnough(input.title, 3)
    && LongEnough(input.description, 10)
    && Truthy(input.kind) && AdmittedType(input.kind.value)
    && LongEnough(input.location, 3)
    && Truthy(input.startDate) && Truthy(input.endDate)
    && DatesValid(input.startDate.value, input.endDate.value, parseDate)
  }

  /** `capacity || null`, the capacity handed to the schema: a missing, null
      or zero capacity becomes null. */
  function CreatedCapacity(c: CapacityInput): (r: Option<real>)
    ensures r.Some? <==> c.Num? && c.n != 0.0
    ensures r.Some? ==> r.value == c.n
  {
    if c.Num? && c.n != 0.0 then Some(c.n) else None
  }

  /** The first validation failure of a create request, in the order the
      handler checks the fields. */
  function CreateValidation(input: EventInput, parseDate: string -> Option<int>): (r: Outcome)
    ensures r.Pass? <==> CreateInputValid(input, parseDate)
    ensures r.Fail? ==> r.error.status == 400
    ensures !LongEnough(input.title, 3) ==>
      r == Fail(Error(400, "Title is required and must be at least 3 characters long"))
  {
    if !LongEnough(input.title, 3) then
      Fail(Error(400, "Title is required and must be at least 3 characters long"))
    else if !LongEnough(input.description, 10) then
      Fail(Error(400, "Description is required and must be at least 10 characters long"))
    else if !Truthy(input.kind) || !AdmittedType(input.kind.value) then
      Fail(Error(400, "Type must be 'IEEE' or 'GENERAL'"))
    else if !LongEnough(input.location, 3) then
      Fail(Error(400, "Location is required"))
    else if !Truthy(input.startDate) || !Truthy(input.endDate) then
      Fail(Error(400, "Both startDate and endDate are required"))
    else if parseDate(input.startDate.value).None? || parseDate(input.endDate.value).None? then
      Fail(Error(400, "Invalid date format"))
    else if parseDate(input.endDate.value).value <= parseDate(input.startDate.value).value then
      Fail(Error(400, "endDate must be after startDate"))
    else Pass
  }

  /** Two astral characters are four UTF-16 code units, so a title of two
      emoji meets the three-character minimum. */
  lemma AstralTitleLongEnough()
    ensures Utf16Length(Trim("\U{1F600}\U{1F600}")) == 4
  {
    assert Trim("\U{1F600}\U{1F600}") == "\U{1F600}\U{1F600}";
    assert "\U{1F600}\U{1F600}"[1..] == "\U{1F600}";
  }

  /** Upper-casing never yields a lower-case letter, so it never yields the
      schema's spelling "General". */
  lemma UpperNeverGeneral(s: string)
    ensures ToUpper(s) != "General"
  {
    if |s| == 7 {
      assert ToUpper(s)[1] == UpperChar(s[1]) != 'e';
    }
  }

  /** `createEvent`: the policy (403), the field validation (400), then
      `Event.create`, whose schema validation refuses a GENERAL type and a
      null capacity, and whose duplicate key refuses a taken `newId`; the
      handler answers both with 500. The result is the new events collection
      and the stored event. */
  function CreateEvent(events: map<Id, Event>, caller: User, input: EventInput, parseDate: string -> Option<int>,
                       newId: Id, now: nat): (r: Result<(map<Id, Event>, Event)>)
    ensures !CanOrganize(caller, now) ==> r == Err(Error(403, "Unauthorized to create event"))
    ensures CanOrganize(caller, now) && !CreateInputValid(input, parseDate) ==> r.Err? && r.error.status == 400
    ensures CanOrganize(caller, now) && CreateInputValid(input, parseDate)
            && (ToUpper(input.kind.value) != "IEEE" || CreatedCapacity(input.capacity).None?) ==>
      r == Err(EventServerError)
    ensures r.Ok? <==>
      && CanOrganize(caller, now) && CreateInputValid(input, parseDate)
      && ToUpper(input.kind.value) == "IEEE" && CreatedCapacity(input.capacity).Some?
      && newId !in events
    ensures r.Ok? ==>
      var ev := r.value.1;
      && r.value.0 == events[newId := ev]
      && Saveable(ev)
      && ev.title == Trim(input.title.value) && Utf16Length(ev.title) >= 3
      && ev.description == Trim(input.description.value) && Utf16Length(ev.description) >= 10
      && ev.location == Trim(input.location.value) && Utf16Length(ev.location) >= 3
      && ev.kind == IEEE
      && Some(ev.startDate) == parseDate(input.startDate.value)
      && Some(ev.endDate) == parseDate(input.endDate.value)
      && ev.startDate < ev.endDate
      && ev.registeredCount == 0 && ev.organizer == caller.id && ev.isActive
      && ev.capacity == CreatedCapacity(input.capacity)
  {
    if !CanOrganize(caller, now) then Err(Error(403, "Unauthorized to create event"))
    else
      match CreateValidation(input, parseDate)
      case Fail(e) => Err(e)
      case Pass =>
        var ev := Event(
          Trim(input.title.value), Trim(input.description.value), TypeFromName(ToUpper(input.kind.value)),
          Trim(input.location.value), parseDate(input.startDate.value).value, parseDate(input.endDate.value).value,
          caller.id, 0, CreatedCapacity(input.capacity), true);
        UpperNeverGeneral(input.kind.value);
        if !Saveable(ev) then Err(EventServerError)
        else if newId in events then Err(EventServerError)
        else Ok((events[newId := ev], ev))
  }

  /** Every valid request to create a GENERAL event is refused: the
      controller upper-cases the type, and the schema's enumeration lists
      only "IEEE" and "General". */
  lemma GeneralCreateRefused(events: map<Id, Event>, caller: User, input: EventInput,
                             parseDate: string -> Option<int>, newId: Id, now: nat)
    requires CanOrganize(caller, now) && CreateInputValid(input, parseDate)
    requires ToUpper(input.kind.value) == "GENERAL"
    ensures CreateEvent(events, caller, input, parseDate, newId, now) == Err(EventServerError)
  {
  }

  /** Every valid request without a capacity, with a null one or with 0 is
      refused: `capacity || null` hands null to a schema that requires it. */
  lemma UncappedCreateRefused(events: map<Id, Event>, caller: User, input: EventInput,
                              parseDate: string -> Option<int>, newId: Id, now: nat)
    requires CanOrganize(caller, now) && CreateInputValid(input, parseDate)
    requires input.capacity == Absent || input.capacity == Null || input.capacity == Num(0.0)
    ensures CreateEvent(events, caller, input, parseDate, newId, now) == Err(EventServerError)
  {
  }

  /** A created event is found by its id. */
  lemma CreatedEventIsFound(events: map<Id, Event>, caller: User, input: EventInput,
                            parseDate: string -> Option<int>, newId: Id, now: nat)
    requires CreateEvent(events, caller, input, parseDate, newId, now).Ok?
    ensures var (events', ev) := CreateEvent(events, caller, input, parseDate, newId, now).value;
      GetEventById(events', newId) == Ok(ev)
  {
  }

  // --------------------------------------------------------------- update

  /** Every requirement `updateEvent` puts on the request body: only truthy
      fields are checked, dates only when both are given, the location never. */
  predicate UpdateInputValid(input: EventInput, parseDate: string -> Option<int>) {
    && (Truthy(input.title) ==> LongEnough(input.title, 3))
    && (Truthy(input.description) ==> LongEnough(input.description, 10))
    && (Truthy(input.kind) ==> AdmittedType(input.kind.value))
    && (Truthy(input.startDate) && Truthy(input.endDate) ==>
          DatesValid(input.startDate.value, input.endDate.value, parseDate))
  }

  /** A text field of an update: replaced by the trimmed value when truthy. */
  function UpdatedText(current: string, f: Option<string>): string {
    if Truthy(f) then Trim(f.value) else current
  }

  /** A capacity of an update: applied whenever it is not undefined, so null
      and 0 are written as they are. */
  function UpdatedCapacity(current: Option<real>, c: CapacityInput): (r: Option<real>)
    ensures c.Absent? ==> r == current
    ensures c.Null? ==> r.None?
    ensures c.Num? ==> r == Some(c.n)
  {
    match c
    case Absent => current
    case Null => None
    case Num(n) => Some(n)
  }

  /** The event `updateEvent` hands to `save()`: each truthy field of the
      body replaces the stored one, both dates change only together, the
      capacity whenever it is given, and nothing else changes. */
  function Patched(ev: Event, input: EventInput, parseDate: string -> Option<int>): (p: Event)
    requires UpdateInputValid(input, parseDate)
    ensures Truthy(input.title) ==> p.title == Trim(input.title.value)
    ensures !Truthy(input.title) ==> p.title == ev.title
    ensures Truthy(input.description) ==> p.description == Trim(input.description.value)
    ensures !Truthy(input.description) ==> p.description == ev.description
    ensures Truthy(input.kind) ==> TypeName(p.kind) == ToUpper(input.kind.value)
    ensures !Truthy(input.kind) ==> p.kind == ev.kind
    ensures Truthy(input.location) ==> p.location == Trim(input.location.value)
    ensures !Truthy(input.location) ==> p.location == ev.location
    ensures Truthy(input.startDate) && Truthy(input.endDate) ==>
      && Some(p.startDate) == parseDate(input.startDate.value)
      && Some(p.endDate) == parseDate(input.endDate.value) && p.startDate < p.endDate
    ensures !(Truthy(input.startDate) && Truthy(input.endDate)) ==>
      p.startDate == ev.startDate && p.endDate == ev.endDate
    ensures p.capacity == UpdatedCapacity(ev.capacity, input.capacity)
    ensures p.registeredCount == ev.registeredCount
    ensures p.organizer == ev.organizer && p.isActive == ev.isActive
  {
    var bothDates := Truthy(input.startDate) && Truthy(input.endDate);
    ev.(
      title := UpdatedText(ev.title, input.title),
      description := UpdatedText(ev.description, input.description),
      kind := if Truthy(input.kind) then TypeFromName(ToUpper(input.kind.value)) else ev.kind,
      location := UpdatedText(ev.location, input.location),
      startDate := if bothDates then parseDate(input.startDate.value).value else ev.startDate,
      endDate := if bothDates then parseDate(input.endDate.value).value else ev.endDate,
      capacity := UpdatedCapacity(ev.capacity, input.capacity))
  }

  /** `updateEvent`: the gate, then the validation of the truthy fields
      (400, nothing saved), then `save()` of the patched event, whose schema
      validation failure the handler answers with 500. */
  function UpdateEvent(events: map<Id, Event>, caller: User, eventId: Id, input: EventInput,
                       parseDate: string -> Option<int>, now: nat): (r: Result<(map<Id, Event>, Event)>)
    ensures OrganizerGate(events, caller, eventId, now, "update").Fail? ==>
      r == Err(OrganizerGate(events, caller, eventId, now, "update").error)
    ensures OrganizerGate(events, caller, eventId, now, "update").Pass? && !UpdateInputValid(input, parseDate) ==>
      r.Err? && r.error.status == 400
    ensures OrganizerGate(events, caller, eventId, now, "update").Pass? && UpdateInputValid(input, parseDate)
            && !Saveable(Patched(events[eventId], input, parseDate)) ==>
      r == Err(EventServerError)
    ensures r.Ok? <==>
      && OrganizerGate(events, caller, eventId, now, "update").Pass? && UpdateInputValid(input, parseDate)
      && Saveable(Patched(events[eventId], input, parseDate))
    ensures r.Ok? ==>
      && r.value.1 == Patched(events[eventId], input, parseDate)
      && r.value.0 == events[eventId := r.value.1]
  {
    match OrganizerGate(events, caller, eventId, now, "update")
    case Fail(e) => Err(e)
    case Pass =>
      var ev := events[eventId];
      if Truthy(input.title) && !LongEnough(input.title, 3) then
        Err(Error(400, "Title must be at least 3 characters long"))
      else if Truthy(input.description) && !LongEnough(input.description, 10) then
        Err(Error(400, "Description must be at least 10 characters long"))
      else if Truthy(input.kind) && !AdmittedType(input.kind.value) then
        Err(Error(400, "Type must be 'IEEE' or 'GENERAL'"))
      else if Truthy(input.startDate) && Truthy(input.endDate)
              && (parseDate(input.startDate.value).None? || parseDate(input.endDate.value).None?) then
        Err(Error(400, "Invalid date format"))
      else if Truthy(input.startDate) && Truthy(input.endDate)
              && parseDate(input.endDate.value).value <= parseDate(input.startDate.value).value then
        Err(Error(400, "endDate must be after startDate"))
      else
        var updated := Patched(ev, input, parseDate);
        if !Saveable(updated) then Err(EventServerError)
        else Ok((events[eventId := updated], updated))
  }

  /** An update whose body has no truthy field and no capacity saves the
      event as it was; it succeeds exactly when the stored event passes the
      schema. */
  lemma EmptyUpdateIsIdentity(events: map<Id, Event>, caller: User, eventId: Id,
                              parseDate: string -> Option<int>, now: nat)
    requires OrganizerGate(events, caller, eventId, now, "update").Pass?
    ensures var r := UpdateEvent(events, caller, eventId, EventInput(None, None, None, None, None, None, Absent), parseDate, now);
      && (r.Ok? <==> Saveable(events[eventId]))
      && (r.Ok? ==> r.value.1 == events[eventId] && r.value.0 == events)
  {
  }

  /** Update never checks the location's length: a two-letter location, which
      creation refuses, is stored by an update. */
  lemma UpdateAcceptsShortLocation(events: map<Id, Event>, caller: User, eventId: Id,
                                   parseDate: string -> Option<int>, now: nat)
    requires OrganizerGate(events, caller, eventId, now, "update").Pass?
    requires Saveable(events[eventId])
    ensures var input := EventInput(None, None, None, Some("ab"), None, None, Absent);
      && UpdateEvent(events, caller, eventId, input, parseDate, now).Ok?
      && UpdateEvent(events, caller, eventId, input, parseDate, now).value.1.location == "ab"
      && !CreateInputValid(input, parseDate)
  {
    assert Trim("ab") == "ab";
  }

  /** A location of blanks passes the update's checks, trims to "", and is
      refused by the schema on save. */
  lemma BlankLocationRefused(events: map<Id, Event>, caller: User, eventId: Id,
                             parseDate: string -> Option<int>, now: nat)
    requires OrganizerGate(events, caller, eventId, now, "update").Pass?
    ensures var input := EventInput(None, None, None, Some("   "), None, None, Absent);
      UpdateEvent(events, caller, eventId, input, parseDate, now) == Err(EventServerError)
  {
    assert Trim("   ") == "";
  }

  /** Changing the type to GENERAL is refused by the schema on save. */
  lemma GeneralUpdateRefused(events: map<Id, Event>, caller: User, eventId: Id, k: string,
                             parseDate: string -> Option<int>, now: nat)
    requires OrganizerGate(events, caller, eventId, now, "update").Pass?
    requires ToUpper(k) == "GENERAL"
    ensures UpdateEvent(events, caller, eventId, EventInput(None, None, Some(k), None, None, None, Absent), parseDate, now)
      == Err(EventServerError)
  {
    var input := EventInput(None, None, Some(k), None, None, None, Absent);
    assert UpdateInputValid(input, parseDate);
    assert Patched(events[eventId], input, parseDate).kind == GENERAL;
  }

  /** Clearing the capacity with null is refused by the schema on save. */
  lemma NullCapacityUpdateRefused(events: map<Id, Event>, caller: User, eventId: Id,
                                  parseDate: string -> Option<int>, now: nat)
    requires OrganizerGate(events, caller, eventId, now, "update").Pass?
    ensures UpdateEvent(events, caller, eventId, EventInput(None, None, None, None, None, None, Null), parseDate, now)
      == Err(EventServerError)
  {
    var input := EventInput(None, None, None, None, None, None, Null);
    assert UpdateInputValid(input, parseDate);
    assert Patched(events[eventId], input, parseDate).capacity.None?;
  }

  /** A single date in an update body is ignored: dates change only as a
      pair, so the event is saved as it was. */
  lemma SingleDateIgnored(events: map<Id, Event>, caller: User, eventId: Id, start: string,
                          parseDate: string -> Option<int>, now: nat)
    requires OrganizerGate(events, caller, eventId, now, "update").Pass?
    ensures var r := UpdateEvent(events, caller, eventId, EventInput(None, None, None, None, Some(start), None, Absent), parseDate, now);
      && (r.Ok? <==> Saveable(events[eventId]))
      && (r.Ok? ==> r.value.1 == events[eventId])
  {
  }

  // --------------------------------------------------- listing and paging

  /** `Math.ceil(a / b)` for a non-zero divisor. */
  function CeilDiv(a: int, b: int): (r: int)
    requires b != 0
    ensures b > 0 ==> (r - 1) * b < a <= r * b
    ensures b < 0 ==> r * b <= a < (r - 1) * b
  {
    if b > 0 then -((-a) / b) else -(a / (-b))
  }

  /** The page window a listing reads: how many records it skips and how many
      it returns at most. */
  datatype Window = Window(page: int, limit: int, skip: int)

  /** `skip = (page - 1) * limit`. */
  function WindowOf(page: int, limit: int): (w: Window)
    ensures w.page == page && w.limit == limit
    ensures page >= 1 && limit >= 0 ==> w.skip >= 0
    ensures page == 1 ==> w.skip == 0
    ensures w.skip + limit == (page * limit)
  {
    var w := Window(page, limit, (page - 1) * limit);
    if page >= 1 && limit >= 0 then MulMonotone(0, page - 1, limit); w else w
  }

  /** The `meta` block of the events listing. `totalPages` is `None` where
      the division is not finite (a zero limit), which JSON renders as null. */
  datatype Meta = Meta(page: int, limit: int, total: nat, totalPages: Option<int>)

  /** `getEvents`' paging: `page` defaults to 1 and `limit` to 10 when absent. */
  function EventsMeta(pageQ: Option<int>, limitQ: Option<int>, total: nat): (m: Meta)
    ensures m.page == (if pageQ.None? then 1 else pageQ.value)
    ensures m.limit == (if limitQ.None? then 10 else limitQ.value)
    ensures m.totalPages.None? <==> m.limit == 0
    ensures m.limit > 0 ==>
      && m.totalPages.Some?
      && (m.totalPages.value - 1) * m.limit < total <= m.totalPages.value * m.limit
  {
    var page := if pageQ.None? then 1 else pageQ.value;
    var limit := if limitQ.None? then 10 else limitQ.value;
    Meta(page, limit, total, if limit == 0 then None else Some(CeilDiv(total, limit)))
  }

  /** With a positive limit, page `p` (counted from 1) reads a non-empty
      window exactly when `p` is at most `totalPages`. */
  lemma {:induction false} PageNonEmptyIffWithinTotal(page: int, limit: int, total: nat)
    requires page >= 1 && limit >= 1
    ensures var m := EventsMeta(Some(page), Some(limit), total);
      WindowOf(page, limit).skip < total <==> page <= m.totalPages.value
  {
    var t := EventsMeta(Some(page), Some(limit), total).totalPages.value;
    var s := (page - 1) * limit;
    if page <= t {
      assert s <= (t - 1) * limit by {
        assert page - 1 <= t - 1;
        MulMonotone(page - 1, t - 1, limit);
      }
    } else {
      assert t * limit <= s by {
        assert t <= page - 1;
        MulMonotone(t, page - 1, limit);
      }
    }
  }

  lemma MulMonotone(a: int, b: int, c: int)
    requires a <= b && c >= 0
    ensures a * c <= b * c
  {
  }

  /** `parseInt(q) || d`: a missing, non-numeric (`None`) or zero value
      falls back to `d`. */
  function NumberOr(q: Option<int>, d: int): (r: int)
    requires d != 0
    ensures r != 0
    ensures q.Some? && q.value != 0 ==> r == q.value
    ensures q.None? || q.value == 0 ==> r == d
  {
    if q.Some? && q.value != 0 then q.value else d
  }

  /** `getEventRegistrations` up to the database query: 404 for a missing
      event, then only the event's organizer (whatever their role now) or a
      SUPER_ADMIN may look; the page defaults to 1 and the limit to 20. */
  function ViewRegistrationsDecision(events: map<Id, Event>, caller: User, eventId: Id,
                                     pageQ: Option<int>, limitQ: Option<int>): (r: Result<Window>)
    ensures eventId !in events ==> r == Err(Error(404, "Event not found"))
    ensures r.Ok? <==> eventId in events && (events[eventId].organizer == caller.id || caller.role == SuperAdmin)
    ensures r.Err? && eventId in events ==> r.error.status == 403
    ensures r.Ok? ==>
      && r.value.page != 0 && r.value.limit != 0
      && r.value.skip == (r.value.page - 1) * r.value.limit
      && (pageQ.None? || pageQ.value == 0 ==> r.value.page == 1)
      && (limitQ.None? || limitQ.value == 0 ==> r.value.limit == 20)
      && (pageQ.Some? && pageQ.value != 0 ==> r.value.page == pageQ.value)
      && (limitQ.Some? && limitQ.value != 0 ==> r.value.limit == limitQ.value)
  {
    if eventId !in events then Err(Error(404, "Event not found"))
    else if events[eventId].organizer != caller.id && caller.role != SuperAdmin then
      Err(Error(403, "You are not authorized to view these registrations"))
    else Ok(WindowOf(NumberOr(pageQ, 1), NumberOr(limitQ, 20)))
  }

  /** `getEventRegistrations` as a whole. Past the gate the handler queries
      `Registration`, which the controller never imports: the ReferenceError
      is caught and answered with 500, so no request ever lists an event's
      registrations. */
  function GetEventRegistrations(events: map<Id, Event>, caller: User, eventId: Id,
                                 pageQ: Option<int>, limitQ: Option<int>): (r: Outcome)
    ensures r.Fail?
    ensures r.error == EventServerError <==> ViewRegistrationsDecision(events, caller, eventId, pageQ, limitQ).Ok?
    ensures ViewRegistrationsDecision(events, caller, eventId, pageQ, limitQ).Err? ==>
      r.error == ViewRegistrationsDecision(events, caller, eventId, pageQ, limitQ).error
  {
    match ViewRegistrationsDecision(events, caller, eventId, pageQ, limitQ)
    case Err(e) => Fail(e)
    case Ok(_) => Fail(EventServerError)
  }

  /** An organizer keeps access to the registrations of their events after
      their promotion lapses. */
  lemma DemotedOrganizerKeepsView(events: map<Id, Event>, caller: User, eventId: Id, now: nat)
    requires eventId in events && events[eventId].organizer == caller.id
    ensures ViewRegistrationsDecision(events, Auth.Demote(caller, now), eventId, None, None).Ok?
  {
  }

  /** `getEvents`' filter as written: a truthy `type` must equal the stored
      type exactly; a truthy `upcoming` keeps events starting at or after
      `now`; otherwise `upcoming == "false"` keeps past events. */
  predicate Matches(e: Event, typeQ: Option<string>, upcomingQ: Option<string>, now: nat) {
    && (Truthy(typeQ) ==> TypeName(e.kind) == typeQ.value)
    && (if Truthy(upcomingQ) then e.startDate >= now
        else if upcomingQ == Some("false") then e.startDate < now
        else true)
  }

  /** The events a listing selects, before paging. */
  function FilterEvents(events: map<Id, Event>, typeQ: Option<string>, upcomingQ: Option<string>, now: nat)
    : (r: set<Id>)
    ensures r <= events.Keys
    ensures forall k :: k in events && Matches(events[k], typeQ, upcomingQ, now) ==> k in r
    ensures forall k :: k in r ==> Matches(events[k], typeQ, upcomingQ, now)
  {
    set k | k in events && Matches(events[k], typeQ, upcomingQ, now)
  }

  /** The string "false" is truthy, so `upcoming=false` keeps upcoming events
      like any other value: the past-events branch never applies. */
  lemma UpcomingFalseSelectsUpcoming(e: Event, typeQ: Option<string>, now: nat)
    ensures Matches(e, typeQ, Some("false"), now) == Matches(e, typeQ, Some("true"), now)
    ensures Matches(e, typeQ, Some("false"), now) ==> e.startDate >= now
  {
  }

  /** No value of `upcoming` ever drops an event because it is upcoming. */
  lemma NoFilterExcludesUpcoming(e: Event, typeQ: Option<string>, upcomingQ: Option<string>, now: nat)
    requires e.startDate >= now
    requires Truthy(typeQ) ==> TypeName(e.kind) == typeQ.value
    ensures Matches(e, typeQ, upcomingQ, now)
  {
  }

  /** The type filter is exact: a lower-case type query never matches an
      event stored by `createEvent`, whose type is upper-cased. */
  lemma TypeFilterIsCaseSensitive(e: Event, now: nat)
    requires e.kind == IEEE
    ensures !Matches(e, Some("ieee"), None, now)
  {
  }
}
