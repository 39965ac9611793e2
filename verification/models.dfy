/** The three document schemas (users, events, registrations): the records
    the handlers work on, the enumerations and defaults the schemas declare,
    and the validation a schema applies to a raw document before it is
    stored, including the unique indexes. */
module Models {
  import opened Common

  // ---------------------------------------------------------------- users

  datatype Role = UserRole | TempAdmin | SuperAdmin

  datatype Branch = CSE | AIDS | ECE | EEE | CIVIL | MECH

  /** A stored user. `promotedUntil` is the expiry of a TEMP_ADMIN role
      (milliseconds since the epoch), `None` when the field is null. */
  datatype User = User(
    id: Id,
    name: string,
    email: string,
    passwordHash: string,
    role: Role,
    promotedUntil: Option<int>,
    isIEEE: bool,
    branch: Branch,
    year: Option<string>)

  function RoleName(r: Role): string {
    match r
    case UserRole => "USER"
    case TempAdmin => "TEMP_ADMIN"
    case SuperAdmin => "SUPER_ADMIN"
  }

  /** The role enumeration: the role whose name is `s`, if any. */
  function ParseRole(s: string): (r: Option<Role>)
    ensures r.Some? <==> s in ["USER", "TEMP_ADMIN", "SUPER_ADMIN"]
    ensures r.Some? ==> RoleName(r.value) == s
  {
    if s == "USER" then Some(UserRole)
    else if s == "TEMP_ADMIN" then Some(TempAdmin)
    else if s == "SUPER_ADMIN" then Some(SuperAdmin)
    else None
  }

  lemma RoleNameRoundTrip(r: Role)
    ensures ParseRole(RoleName(r)) == Some(r)
  {
  }

  function BranchName(b: Branch): string {
    match b
    case CSE => "CSE"
    case AIDS => "AIDS"
    case ECE => "ECE"
    case EEE => "EEE"
    case CIVIL => "CIVIL"
    case MECH => "MECH"
  }

  /** The branch enumeration: the branch whose name is `s`, if any. */
  function ParseBranch(s: string): (r: Option<Branch>)
    ensures r.Some? <==> s in ["CSE", "AIDS", "ECE", "EEE", "CIVIL", "MECH"]
    ensures r.Some? ==> BranchName(r.value) == s
  {
    if s == "CSE" then Some(CSE)
    else if s == "AIDS" then Some(AIDS)
    else if s == "ECE" then Some(ECE)
    else if s == "EEE" then Some(EEE)
    else if s == "CIVIL" then Some(CIVIL)
    else if s == "MECH" then Some(MECH)
    else None
  }

  /** A user document as submitted, before the schema fills in defaults. */
  datatype UserDoc = UserDoc(
    name: Option<string>,
    email: Option<string>,
    passwordHash: Option<string>,
    role: Option<string>,
    promotedUntil: Option<int>,
    isIEEE: Option<bool>,
    branch: Option<string>,
    year: Option<string>)

  /** A schema's validation failure, which the handlers answer with 500. */
  const SchemaRejected := ServerError

  /** A required string path: Mongoose's `required` refuses an empty string. */
  predicate Present(f: Option<string>) {
    f.Some? && f.value != ""
  }

  /** The user schema: name, email, password and branch are required, role
      defaults to USER and must name a role, `isIEEE` defaults to false,
      branch must name a branch. */
  function ValidateUser(id: Id, doc: UserDoc): (r: Result<User>)
    ensures r.Ok? <==>
      && Present(doc.name) && Present(doc.email) && Present(doc.passwordHash)
      && (doc.role.None? || ParseRole(doc.role.value).Some?)
      && Present(doc.branch) && ParseBranch(doc.branch.value).Some?
    ensures r.Err? ==> r.error == SchemaRejected
    ensures r.Ok? ==> r.value.id == id && r.value.email == doc.email.value
    ensures r.Ok? ==> RoleName(r.value.role) == (if doc.role.None? then "USER" else doc.role.value)
    ensures r.Ok? ==> r.value.isIEEE == (doc.isIEEE == Some(true))
    ensures r.Ok? ==> BranchName(r.value.branch) == doc.branch.value
    ensures r.Ok? ==> r.value.promotedUntil == doc.promotedUntil
  {
    if !Present(doc.name) || !Present(doc.email) || !Present(doc.passwordHash) then Err(SchemaRejected)
    else if !Present(doc.branch) then Err(SchemaRejected)
    else
      var role := if doc.role.None? then Some(UserRole) else ParseRole(doc.role.value);
      var branch := ParseBranch(doc.branch.value);
      if role.None? || branch.None? then Err(SchemaRejected)
      else
        var isIEEE := if doc.isIEEE.Some? then doc.isIEEE.value else false;
        Ok(User(id, doc.name.value, doc.email.value, doc.passwordHash.value, role.value,
                doc.promotedUntil, isIEEE, branch.value, doc.year))
  }

  /** The unique index on email (and the primary key). */
  ghost predicate UsersWellKeyed(users: map<Id, User>) {
    && (forall k :: k in users ==> users[k].id == k)
    && forall k1, k2 :: k1 in users && k2 in users && users[k1].email == users[k2].email ==> k1 == k2
  }

  /** Storing a new user: the database refuses a taken id or a taken email
      with a duplicate-key error. */
  function InsertUser(users: map<Id, User>, u: User): (r: Result<map<Id, User>>)
    ensures r.Ok? <==> u.id !in users && forall k :: k in users ==> users[k].email != u.email
    ensures r.Ok? ==> r.value == users[u.id := u]
    ensures r.Err? ==> r.error == ServerError
    ensures r.Ok? && UsersWellKeyed(users) ==> UsersWellKeyed(r.value)
  {
    if u.id in users then Err(ServerError)
    else if exists k :: k in users && users[k].email == u.email then Err(ServerError)
    else Ok(users[u.id := u])
  }

  // --------------------------------------------------------------- events

  /** The event type. The registration controller branches on the names
      FREE and IEEE; any other name falls into `Other`. */
  datatype EventType = FREE | IEEE | GENERAL | Other(name: string)

  function TypeName(t: EventType): string {
    match t
    case FREE => "FREE"
    case IEEE => "IEEE"
    case GENERAL => "GENERAL"
    case Other(n) => n
  }

  /** The type a stored type string denotes. */
  function TypeFromName(s: string): (t: EventType)
    ensures TypeName(t) == s
    ensures t.Other? <==> s !in ["FREE", "IEEE", "GENERAL"]
  {
    if s == "FREE" then FREE
    else if s == "IEEE" then IEEE
    else if s == "GENERAL" then GENERAL
    else Other(s)
  }

  lemma TypeNameRoundTrip(t: EventType)
    requires t.Other? ==> t.name !in ["FREE", "IEEE", "GENERAL"]
    ensures TypeFromName(TypeName(t)) == t
  {
  }

  /** A stored event (the key of the events map is its id). Dates are
      milliseconds since the epoch. `capacity` is a JSON number, so it may be
      fractional; it is `None` for null. */
  datatype Event = Event(
    title: string,
    description: string,
    kind: EventType,
    location: string,
    startDate: int,
    endDate: int,
    organizer: Id,
    registeredCount: int,
    capacity: Option<real>,
    isActive: bool)

  /** An event document as submitted, before the schema fills in defaults. */
  datatype EventDoc = EventDoc(
    title: Option<string>,
    description: Option<string>,
    kind: Option<string>,
    location: Option<string>,
    startDate: Option<int>,
    endDate: Option<int>,
    organizer: Option<Id>,
    registeredCount: Option<int>,
    capacity: Option<real>,
    isActive: Option<bool>)

  /** The names the event schema's type enumeration admits. */
  predicate SchemaTypeName(s: string) {
    s == "IEEE" || s == "General"
  }

  /** The event schema: all text fields, both dates and the organizer are
      required, type must be IEEE or General, `registeredCount` defaults to
      0, `isActive` to true, and `capacity` defaults to null but is also
      required, so a document whose capacity is null is refused. */
  function ValidateEvent(doc: EventDoc): (r: Result<Event>)
    ensures r.Ok? <==>
      && Present(doc.title) && Present(doc.description) && Present(doc.location)
      && Present(doc.kind) && SchemaTypeName(doc.kind.value)
      && doc.startDate.Some? && doc.endDate.Some? && doc.organizer.Some?
      && doc.capacity.Some?
    ensures r.Err? ==> r.error == SchemaRejected
    ensures r.Ok? ==> r.value.registeredCount == (if doc.registeredCount.None? then 0 else doc.registeredCount.value)
    ensures r.Ok? ==> r.value.isActive == (doc.isActive != Some(false))
    ensures r.Ok? ==> r.value.capacity == doc.capacity && r.value.organizer == doc.organizer.value
    ensures r.Ok? ==> TypeName(r.value.kind) == doc.kind.value
  {
    var count := if doc.registeredCount.Some? then doc.registeredCount.value else 0;
    var active := if doc.isActive.Some? then doc.isActive.value else true;
    if !Present(doc.title) || !Present(doc.description) || !Present(doc.location) then Err(SchemaRejected)
    else if !Present(doc.kind) || !SchemaTypeName(doc.kind.value) then Err(SchemaRejected)
    else if doc.startDate.None? || doc.endDate.None? || doc.organizer.None? then Err(SchemaRejected)
    else if doc.capacity.None? then Err(SchemaRejected)
    else
      Ok(Event(doc.title.value, doc.description.value, TypeFromName(doc.kind.value), doc.location.value,
               doc.startDate.value, doc.endDate.value, doc.organizer.value, count, doc.capacity, active))
  }

  /** The document `save()` writes for a stored event. */
  function DocOf(e: Event): EventDoc {
    EventDoc(Some(e.title), Some(e.description), Some(TypeName(e.kind)), Some(e.location),
             Some(e.startDate), Some(e.endDate), Some(e.organizer), Some(e.registeredCount),
             e.capacity, Some(e.isActive))
  }

  /** A stored event the event schema accepts when it is saved: `create` and
      `save` both validate the whole document. */
  predicate Saveable(e: Event)
    ensures Saveable(e) <==>
      && e.title != "" && e.description != "" && e.location != ""
      && SchemaTypeName(TypeName(e.kind)) && e.capacity.Some?
  {
    ValidateEvent(DocOf(e)).Ok?
  }

  // -------------------------------------------------------- registrations

  datatype RegStatus = Registered | AwaitingConfirmation

  function StatusName(s: RegStatus): string {
    match s
    case Registered => "REGISTERED"
    case AwaitingConfirmation => "AWAITING_CONFIRMATION"
  }

  /** The status enumeration; `updateRegistrationStatus` uses the same list. */
  function ParseStatus(s: string): (r: Option<RegStatus>)
    ensures r.Some? <==> s in ["REGISTERED", "AWAITING_CONFIRMATION"]
    ensures r.Some? ==> StatusName(r.value) == s
  {
    if s == "REGISTERED" then Some(Registered)
    else if s == "AWAITING_CONFIRMATION" then Some(AwaitingConfirmation)
    else None
  }

  lemma StatusNameRoundTrip(s: RegStatus)
    ensures ParseStatus(StatusName(s)) == Some(s)
  {
  }

  /** A stored registration. `createdAt` is the schema's creation timestamp. */
  datatype Registration = Registration(
    id: Id,
    event: Id,
    user: Id,
    status: RegStatus,
    paymentTransactionId: Option<string>,
    createdAt: nat)

  /** A registration document as submitted. */
  datatype RegistrationDoc = RegistrationDoc(
    event: Option<Id>,
    user: Option<Id>,
    status: Option<string>,
    paymentTransactionId: Option<string>)

  /** The registration schema: event and user are required, status must be
      in the enumeration and defaults to AWAITING_CONFIRMATION, the payment
      transaction id is an optional string. */
  function ValidateRegistration(id: Id, doc: RegistrationDoc, now: nat): (r: Result<Registration>)
    ensures r.Ok? <==> doc.event.Some? && doc.user.Some? && (doc.status.None? || ParseStatus(doc.status.value).Some?)
    ensures r.Err? ==> r.error == SchemaRejected
    ensures r.Ok? ==> r.value.id == id && r.value.event == doc.event.value && r.value.user == doc.user.value
    ensures r.Ok? ==> StatusName(r.value.status) == (if doc.status.None? then "AWAITING_CONFIRMATION" else doc.status.value)
    ensures r.Ok? ==> r.value.paymentTransactionId == doc.paymentTransactionId && r.value.createdAt == now
  {
    if doc.event.None? || doc.user.None? then Err(SchemaRejected)
    else
      var status := if doc.status.None? then Some(AwaitingConfirmation) else ParseStatus(doc.status.value);
      if status.None? then Err(SchemaRejected)
      else Ok(Registration(id, doc.event.value, doc.user.value, status.value, doc.paymentTransactionId, now))
  }

  predicate SamePair(r: Registration, event: Id, user: Id) {
    r.event == event && r.user == user
  }

  /** The unique index on (event, user): no two stored registrations share
      the pair. */
  ghost predicate UniquePairs(regs: seq<Registration>) {
    forall i, j :: 0 <= i < j < |regs| ==> !SamePair(regs[j], regs[i].event, regs[i].user)
  }

  /** Storing a new registration: the database refuses a taken id or a taken
      (event, user) pair with a duplicate-key error; otherwise the record is
      appended, so the collection stays in creation order. */
  function InsertRegistration(regs: seq<Registration>, r: Registration): (res: Result<seq<Registration>>)
    ensures res.Ok? <==>
      forall i :: 0 <= i < |regs| ==> regs[i].id != r.id && !SamePair(regs[i], r.event, r.user)
    ensures res.Ok? ==> res.value == regs + [r]
    ensures res.Err? ==> res.error == ServerError
    ensures res.Ok? && UniquePairs(regs) ==> UniquePairs(res.value)
  {
    var clash := FirstIndex(regs, (x: Registration) => x.id == r.id || SamePair(x, r.event, r.user));
    if clash.Some? then Err(ServerError) else Ok(regs + [r])
  }
}
