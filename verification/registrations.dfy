/** The registration controller as pure transitions over a store of events
    and registrations: registering for an event, changing a registration's
    status, cancelling, and listing a user's registrations. */
module Registrations {
  import opened Common
  import opened Models

  /** The two collections the controller reads and writes. Registrations are
      kept in creation order, the order a collection scan returns them in. */
  datatype Store = Store(events: map<Id, Event>, regs: seq<Registration>)

  /** `event.capacity && event.registeredCount >= event.capacity`: a null or
      zero capacity never makes an event full, and an event with a positive
      capacity takes registrations while its counter is below the capacity,
      which may be fractional. */
  predicate IsFull(ev: Event)
    ensures ev.capacity.None? ==> !IsFull(ev)
    ensures ev.capacity.Some? && ev.capacity.value > 0.0 ==>
      (!IsFull(ev) <==> (ev.registeredCount as real) < ev.capacity.value)
  {
    ev.capacity.Some? && ev.capacity.value != 0.0 && ev.registeredCount as real >= ev.capacity.value
  }

  /** `Registration.findOne({ event, user })`: the first registration of the pair. */
  function FindPair(regs: seq<Registration>, event: Id, user: Id): (r: Option<nat>)
    ensures r.Some? ==> r.value < |regs| && SamePair(regs[r.value], event, user)
    ensures r.None? <==> forall i :: 0 <= i < |regs| ==> !SamePair(regs[i], event, user)
  {
    FirstIndex(regs, (x: Registration) => SamePair(x, event, user))
  }

  /** `Registration.findById(id)`: the registration with that id, if any. */
  function FindById(regs: seq<Registration>, id: Id): (r: Option<nat>)
    ensures r.Some? ==> r.value < |regs| && regs[r.value].id == id
    ensures r.Some? ==> forall j :: 0 <= j < r.value ==> regs[j].id != id
    ensures r.None? <==> forall i :: 0 <= i < |regs| ==> regs[i].id != id
  {
    FirstIndex(regs, (x: Registration) => x.id == id)
  }

  // -------------------------------------------------------------- register

  /** The registrant needs no payment evidence: an event whose stored type
      string is "FREE", or one whose type string is "IEEE" and an IEEE member. */
  predicate Exempt(kind: EventType, isIEEE: bool) {
    TypeName(kind) == "FREE" || (TypeName(kind) == "IEEE" && isIEEE)
  }

  /** The status a registration receives, or the 400 a registrant without a
      payment transaction id gets. An empty id counts as none. */
  function DecideStatus(kind: EventType, isIEEE: bool, payment: Option<string>): (r: Result<RegStatus>)
    ensures r.Ok? <==> Exempt(kind, isIEEE) || Truthy(payment)
    ensures r.Ok? ==> (r.value == Registered <==> Exempt(kind, isIEEE))
    ensures r.Err? ==>
      r.error == Error(400, if TypeName(kind) == "IEEE" then "Payment id required for non-IEEE members" else "Payment id required")
  {
    if TypeName(kind) == "FREE" then Ok(Registered)
    else if TypeName(kind) == "IEEE" then
      if isIEEE then Ok(Registered)
      else if !Truthy(payment) then Err(Error(400, "Payment id required for non-IEEE members"))
      else Ok(AwaitingConfirmation)
    else if !Truthy(payment) then Err(Error(400, "Payment id required"))
    else Ok(AwaitingConfirmation)
  }

  /** The decision reads only the stored type string: two kinds with the same
      name are treated alike. */
  lemma StatusDependsOnTypeName(a: EventType, b: EventType, isIEEE: bool, payment: Option<string>)
    requires TypeName(a) == TypeName(b)
    ensures DecideStatus(a, isIEEE, payment) == DecideStatus(b, isIEEE, payment)
  {
  }

  /** `payment_transaction_id || undefined`. */
  function StoredPayment(payment: Option<string>): Option<string> {
    if Truthy(payment) then payment else None
  }

  /** `registerForEvent`, for the authenticated `caller`. The checks run in
      order: missing event (404), full event (400), existing registration of
      the pair (400), payment evidence (400). On success the registration,
      stored under the database-assigned `newId`, is appended and the
      event's counter rises by one. */
  function RegisterForEvent(s: Store, caller: User, eventId: Id, payment: Option<string>, newId: Id, now: nat)
    : (r: Result<(Store, Registration)>)
    ensures eventId !in s.events ==> r == Err(Error(404, "Event not found"))
    ensures eventId in s.events && IsFull(s.events[eventId]) ==> r == Err(Error(400, "Event is full"))
    ensures eventId in s.events && !IsFull(s.events[eventId]) && FindPair(s.regs, eventId, caller.id).Some? ==>
      r == Err(Error(400, "Already registered"))
    ensures eventId in s.events && !IsFull(s.events[eventId]) && FindPair(s.regs, eventId, caller.id).None?
            && DecideStatus(s.events[eventId].kind, caller.isIEEE, payment).Err? ==>
      r == Err(DecideStatus(s.events[eventId].kind, caller.isIEEE, payment).error)
    ensures r.Ok? <==>
      && eventId in s.events && !IsFull(s.events[eventId])
      && (forall i :: 0 <= i < |s.regs| ==> !SamePair(s.regs[i], eventId, caller.id))
      && (Exempt(s.events[eventId].kind, caller.isIEEE) || Truthy(payment))
      && (forall i :: 0 <= i < |s.regs| ==> s.regs[i].id != newId)
    ensures r.Ok? ==>
      var reg := r.value.1;
      var ev := s.events[eventId];
      && reg.id == newId && reg.event == eventId && reg.user == caller.id && reg.createdAt == now
      && (reg.status == Registered <==> Exempt(ev.kind, caller.isIEEE))
      && reg.paymentTransactionId == StoredPayment(payment)
      && r.value.0.regs == s.regs + [reg]
      && r.value.0.events == s.events[eventId := ev.(registeredCount := ev.registeredCount + 1)]
  {
    if eventId !in s.events then Err(Error(404, "Event not found"))
    else
      var ev := s.events[eventId];
      if IsFull(ev) then Err(Error(400, "Event is full"))
      else if FindPair(s.regs, eventId, caller.id).Some? then Err(Error(400, "Already registered"))
      else
        match DecideStatus(ev.kind, caller.isIEEE, payment)
        case Err(e) => Err(e)
        case Ok(status) =>
          var doc := RegistrationDoc(Some(eventId), Some(caller.id), Some(StatusName(status)), StoredPayment(payment));
          match ValidateRegistration(newId, doc, now)
          case Err(e) => Err(e)
          case Ok(reg) =>
            match InsertRegistration(s.regs, reg)
            case Err(e) => Err(e)
            case Ok(regs) =>
              Ok((Store(s.events[eventId := ev.(registeredCount := ev.registeredCount + 1)], regs), reg))
  }

  /** The capacity check precedes the duplicate check: a registrant who is
      already registered for a full event is told the event is full. */
  lemma FullBeforeDuplicate(s: Store, caller: User, eventId: Id, payment: Option<string>, newId: Id, now: nat)
    requires eventId in s.events && IsFull(s.events[eventId])
    requires exists i :: 0 <= i < |s.regs| && SamePair(s.regs[i], eventId, caller.id)
    ensures RegisterForEvent(s, caller, eventId, payment, newId, now) == Err(Error(400, "Event is full"))
  {
  }

  /** A null or zero capacity never rejects a registration. */
  lemma UnlimitedNeverFull(ev: Event)
    requires ev.capacity == None || ev.capacity == Some(0.0)
    ensures !IsFull(ev)
  {
  }

  // ---------------------------------------------------------- status update

  /** `updateRegistrationStatus`: a status outside the enumeration is 400
      before any lookup, an unknown id is 404, otherwise only the status of
      that registration changes. */
  function UpdateRegistrationStatus(s: Store, regId: Id, status: Option<string>): (r: Result<(Store, Registration)>)
    ensures status.None? || ParseStatus(status.value).None? ==> r == Err(Error(400, "Invalid status"))
    ensures r.Ok? <==>
      && status.Some? && status.value in ["REGISTERED", "AWAITING_CONFIRMATION"]
      && exists i :: 0 <= i < |s.regs| && s.regs[i].id == regId
    ensures r.Err? && status.Some? && ParseStatus(status.value).Some? ==>
      r.error == Error(404, "Registration not found")
    ensures r.Ok? ==>
      var i := FindById(s.regs, regId).value;
      && r.value.0.events == s.events
      && r.value.1 == s.regs[i].(status := r.value.1.status)
      && StatusName(r.value.1.status) == status.value
      && r.value.0.regs == s.regs[i := r.value.1]
  {
    var st := if status.None? then None else ParseStatus(status.value);
    if st.None? then Err(Error(400, "Invalid status"))
    else
      match FindById(s.regs, regId)
      case None => Err(Error(404, "Registration not found"))
      case Some(i) =>
        var reg := s.regs[i].(status := st.value);
        Ok((Store(s.events, s.regs[i := reg]), reg))
  }

  /** Repeating a status update changes nothing further. */
  lemma {:induction false} UpdateStatusIdempotent(s: Store, regId: Id, status: Option<string>)
    requires UpdateRegistrationStatus(s, regId, status).Ok?
    ensures var (s', reg) := UpdateRegistrationStatus(s, regId, status).value;
      UpdateRegistrationStatus(s', regId, status) == Ok((s', reg))
  {
    var (s', reg) := UpdateRegistrationStatus(s, regId, status).value;
    var i := FindById(s.regs, regId).value;
    assert forall j :: 0 <= j < |s'.regs| ==> s'.regs[j].id == s.regs[j].id;
    assert s'.regs[i] == reg && reg.id == regId;
    var k := FindById(s'.regs, regId).value;
    assert k == i;
    assert s'.regs[i := reg] == s'.regs;
  }

  // ------------------------------------------------------------ cancelling

  /** The self-or-admin gate of cancelling and listing: the caller acts on
      their own registrations, or is a SUPER_ADMIN or TEMP_ADMIN. */
  predicate SelfOrAdmin(caller: User, target: Id)
    ensures caller.id == target ==> SelfOrAdmin(caller, target)
    ensures caller.role == UserRole ==> (SelfOrAdmin(caller, target) <==> caller.id == target)
  {
    caller.id == target || caller.role == SuperAdmin || caller.role == TempAdmin
  }

  /** `cancelRegistration`: 403 before any lookup unless self or admin, 404
      when the pair has no registration, otherwise that registration is
      removed and the event's counter falls by one (no floor). A missing
      event document is left alone by the counter update. */
  function CancelRegistration(s: Store, caller: User, eventId: Id, userId: Id): (r: Result<Store>)
    ensures !SelfOrAdmin(caller, userId) ==> r == Err(Error(403, "Forbidden - Cannot cancel for other users"))
    ensures SelfOrAdmin(caller, userId) && FindPair(s.regs, eventId, userId).None? ==>
      r == Err(Error(404, "Registration not found"))
    ensures r.Ok? <==>
      SelfOrAdmin(caller, userId) && exists i :: 0 <= i < |s.regs| && SamePair(s.regs[i], eventId, userId)
    ensures r.Ok? ==>
      var i := FindPair(s.regs, eventId, userId).value;
      && r.value.regs == s.regs[..i] + s.regs[i + 1..]
      && |r.value.regs| == |s.regs| - 1
      && r.value.events.Keys == s.events.Keys
      && (forall e :: e in s.events && e != eventId ==> r.value.events[e] == s.events[e])
      && (eventId in s.events ==>
            r.value.events[eventId] == s.events[eventId].(registeredCount := s.events[eventId].registeredCount - 1))
  {
    if !SelfOrAdmin(caller, userId) then Err(Error(403, "Forbidden - Cannot cancel for other users"))
    else
      match FindPair(s.regs, eventId, userId)
      case None => Err(Error(404, "Registration not found"))
      case Some(i) =>
        var regs := s.regs[..i] + s.regs[i + 1..];
        var events :=
          if eventId in s.events then
            s.events[eventId := s.events[eventId].(registeredCount := s.events[eventId].registeredCount - 1)]
          else s.events;
        Ok(Store(events, regs))
  }

  // --------------------------------------------------------------- listing

  /** Registrations whose creation timestamps never decrease along the sequence. */
  predicate CreatedInOrder(regs: seq<Registration>) {
    forall i, j :: 0 <= i < j < |regs| ==> regs[i].createdAt <= regs[j].createdAt
  }

  /** The registrations of `user`, in the order stored: each of them as
      often as it is stored, and nothing else. */
  function OfUser(regs: seq<Registration>, user: Id): (r: seq<Registration>)
    ensures |r| <= |regs|
    ensures forall x :: multiset(r)[x] == (if x.user == user then multiset(regs)[x] else 0)
    ensures forall x :: x in r <==> x in regs && x.user == user
    ensures CreatedInOrder(regs) ==> CreatedInOrder(r)
  {
    if |regs| == 0 then []
    else
      var front := regs[..|regs| - 1];
      var rest := OfUser(front, user);
      var last := regs[|regs| - 1];
      assert regs == front + [last];
      assert multiset(regs) == multiset(front) + multiset{last};
      OrderedPrefix(regs);
      if last.user == user then
        assert multiset(rest + [last]) == multiset(rest) + multiset{last};
        OrderedAppend(rest, front, last);
        rest + [last]
      else rest
  }

  /** A prefix of an ordered sequence is ordered. */
  lemma OrderedPrefix(regs: seq<Registration>)
    requires |regs| > 0
    ensures CreatedInOrder(regs) ==> CreatedInOrder(regs[..|regs| - 1])
  {
    var front := regs[..|regs| - 1];
    assert forall i :: 0 <= i < |front| ==> front[i] == regs[i];
  }

  /** Appending the last of an ordered sequence to an ordered selection of
      the rest keeps the selection ordered. */
  lemma OrderedAppend(sel: seq<Registration>, front: seq<Registration>, last: Registration)
    requires forall x :: x in sel ==> x in front
    ensures CreatedInOrder(front + [last]) && CreatedInOrder(sel) ==> CreatedInOrder(sel + [last])
  {
    if CreatedInOrder(front + [last]) && CreatedInOrder(sel) {
      var whole := front + [last];
      forall i | 0 <= i < |sel|
        ensures sel[i].createdAt <= last.createdAt
      {
        assert sel[i] in front;
        var k :| 0 <= k < |front| && front[k] == sel[i];
        assert whole[k] == sel[i] && whole[|front|] == last;
      }
    }
  }

  function Reverse<T>(s: seq<T>): (r: seq<T>)
    ensures |r| == |s|
    ensures forall i :: 0 <= i < |s| ==> r[i] == s[|s| - 1 - i]
    ensures multiset(r) == multiset(s)
  {
    if |s| == 0 then []
    else
      assert s == s[..|s| - 1] + [s[|s| - 1]];
      [s[|s| - 1]] + Reverse(s[..|s| - 1])
  }

  /** The response of `getUserRegistrations`. */
  datatype UserRegistrations = UserRegistrations(count: nat, registrations: seq<Registration>)

  /** `getUserRegistrations`: 403 unless self or admin; otherwise the user's
      registrations, newest first, with their count. */
  function GetUserRegistrations(s: Store, caller: User, userId: Id): (r: Result<UserRegistrations>)
    ensures r.Err? <==> !SelfOrAdmin(caller, userId)
    ensures r.Err? ==> r.error == Error(403, "Forbidden")
    ensures r.Ok? ==> r.value.count == |r.value.registrations|
    ensures r.Ok? ==> forall x :: x in r.value.registrations <==> x in s.regs && x.user == userId
    ensures r.Ok? ==>
      forall x :: multiset(r.value.registrations)[x] == (if x.user == userId then multiset(s.regs)[x] else 0)
    ensures r.Ok? && CreatedInOrder(s.regs) ==>
      forall i, j :: 0 <= i < j < |r.value.registrations| ==>
        r.value.registrations[i].createdAt >= r.value.registrations[j].createdAt
  {
    if !SelfOrAdmin(caller, userId) then Err(Error(403, "Forbidden"))
    else
      var mine := OfUser(s.regs, userId);
      var list := Reverse(mine);
      assert forall x :: x in list <==> x in mine by {
        assert multiset(list) == multiset(mine);
        forall x ensures x in list <==> x in mine {
          assert x in list <==> multiset(list)[x] > 0;
          assert x in mine <==> multiset(mine)[x] > 0;
        }
      }
      Ok(UserRegistrations(|list|, list))
  }
}
