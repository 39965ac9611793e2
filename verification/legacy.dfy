/** The superseded registration handler, `createRegistration`, kept apart
    from the current controller: it checks a registration deadline, answers
    a duplicate with 409, and asks for an IEEE id or a payment screenshot
    instead of a payment transaction id. It keeps no counter. */
module LegacyRegistrations {
  import opened Common
  import opened Text

  /** The event fields this handler reads. `deadLine` is a timestamp. */
  datatype LegacyEvent = LegacyEvent(deadLine: Option<int>, eventType: Option<string>)

  /** The record this handler stores. */
  datatype LegacyRegistration = LegacyRegistration(
    eventId: Id,
    userId: Id,
    ieeeId: Option<string>,
    paymentScreenshot: Option<string>)

  /** The success response: the stored record and its message. */
  datatype Created = Created(registration: LegacyRegistration, message: string)

  const FreeEntryMessage := "Registered successfully using IEEE ID (Free entry)"
  const AwaitingPaymentMessage := "Registration successful waiting for payment verification"

  /** `event.eventType?.toLowerCase() === "ieee"`. */
  predicate IsIeeeEvent(ev: LegacyEvent) {
    ev.eventType.Some? && ToLower(ev.eventType.value) == "ieee"
  }

  /** The registration period is over strictly after the deadline. */
  predicate PastDeadline(ev: LegacyEvent, now: nat) {
    ev.deadLine.Some? && now > ev.deadLine.value
  }

  /** The evidence the event asks for: an IEEE id or a screenshot for an
      IEEE event, a screenshot for any other. */
  predicate EvidenceGiven(ev: LegacyEvent, ieeeId: Option<string>, screenshot: Option<string>) {
    if IsIeeeEvent(ev) then Truthy(ieeeId) || Truthy(screenshot) else Truthy(screenshot)
  }

  /** Some stored record already pairs `eventId` with `userId`. */
  predicate AlreadyRegistered(regs: seq<LegacyRegistration>, eventId: Id, userId: Id) {
    exists i :: 0 <= i < |regs| && regs[i].eventId == eventId && regs[i].userId == userId
  }

  /** The evidence check, with the handler's two refusals. */
  function CheckEvidence(ev: LegacyEvent, ieeeId: Option<string>, screenshot: Option<string>): (r: Outcome)
    ensures r.Pass? <==> EvidenceGiven(ev, ieeeId, screenshot)
    ensures r.Fail? ==> r.error.status == 400
  {
    if IsIeeeEvent(ev) && !Truthy(ieeeId) && !Truthy(screenshot) then
      Fail(Error(400, "Please provide IEEE ID or payment screenshot for IEEE events."))
    else if !IsIeeeEvent(ev) && !Truthy(screenshot) then
      Fail(Error(400, "Please provide payment screenshot for non-IEEE events."))
    else Pass
  }

  /** `x || null`. */
  function OrNull(x: Option<string>): Option<string> {
    if Truthy(x) then x else None
  }

  /** `createRegistration`: missing event (404), past deadline (400),
      duplicate (409), missing evidence (400); otherwise the record is
      appended and the message says whether entry is free. */
  function CreateRegistration(events: map<Id, LegacyEvent>, regs: seq<LegacyRegistration>, eventId: Id, userId: Id,
                              ieeeId: Option<string>, screenshot: Option<string>, now: nat)
    : (r: Result<(seq<LegacyRegistration>, Created)>)
    ensures eventId !in events ==> r == Err(Error(404, "Event not found"))
    ensures eventId in events && PastDeadline(events[eventId], now) ==>
      r == Err(Error(400, "Registration Period for this event expired"))
    ensures eventId in events && !PastDeadline(events[eventId], now)
            && AlreadyRegistered(regs, eventId, userId) ==>
      r == Err(Error(409, "Already Registered for this event"))
    ensures r.Ok? <==>
      && eventId in events && !PastDeadline(events[eventId], now)
      && !AlreadyRegistered(regs, eventId, userId)
      && EvidenceGiven(events[eventId], ieeeId, screenshot)
    ensures r.Err? && eventId in events && !PastDeadline(events[eventId], now) && r.error.status != 409 ==>
      r.error.status == 400
    ensures r.Ok? ==>
      var rec := r.value.1.registration;
      && rec == LegacyRegistration(eventId, userId, OrNull(ieeeId), OrNull(screenshot))
      && r.value.0 == regs + [rec]
      && (r.value.1.message == FreeEntryMessage <==> IsIeeeEvent(events[eventId]) && Truthy(ieeeId))
      && (r.value.1.message != FreeEntryMessage ==> r.value.1.message == AwaitingPaymentMessage)
  {
    if eventId !in events then Err(Error(404, "Event not found"))
    else
      var ev := events[eventId];
      var found := FirstIndex(regs, (x: LegacyRegistration) => x.eventId == eventId && x.userId == userId);
      assert found.Some? <==> AlreadyRegistered(regs, eventId, userId);
      if PastDeadline(ev, now) then Err(Error(400, "Registration Period for this event expired"))
      else if found.Some? then
        Err(Error(409, "Already Registered for this event"))
      else if CheckEvidence(ev, ieeeId, screenshot).Fail? then Err(CheckEvidence(ev, ieeeId, screenshot).error)
      else
        var rec := LegacyRegistration(eventId, userId, OrNull(ieeeId), OrNull(screenshot));
        var message := if IsIeeeEvent(ev) && Truthy(ieeeId) then FreeEntryMessage else AwaitingPaymentMessage;
        Ok((regs + [rec], Created(rec, message)))
  }

  /** Registering exactly at the deadline is still allowed. */
  lemma DeadlineInstantAllowed(ev: LegacyEvent, now: nat)
    requires ev.deadLine == Some(now)
    ensures !PastDeadline(ev, now)
  {
  }

  /** The legacy IEEE test and the current controller's upper-case IEEE test
      accept the same type strings. */
  lemma IeeeTestMatchesCurrent(ev: LegacyEvent)
    requires ev.eventType.Some?
    ensures IsIeeeEvent(ev) <==> ToUpper(ev.eventType.value) == "IEEE"
  {
    IeeeSpellingsAgree(ev.eventType.value);
  }

  /** A successful registration adds exactly one record for the pair, so a
      second identical request is refused with 409. */
  lemma SecondAttemptConflicts(events: map<Id, LegacyEvent>, regs: seq<LegacyRegistration>, eventId: Id, userId: Id,
                               ieeeId: Option<string>, screenshot: Option<string>, now: nat)
    requires CreateRegistration(events, regs, eventId, userId, ieeeId, screenshot, now).Ok?
    ensures var regs' := CreateRegistration(events, regs, eventId, userId, ieeeId, screenshot, now).value.0;
      CreateRegistration(events, regs', eventId, userId, ieeeId, screenshot, now)
        == Err(Error(409, "Already Registered for this event"))
  {
    var regs' := CreateRegistration(events, regs, eventId, userId, ieeeId, screenshot, now).value.0;
    assert regs'[|regs|].eventId == eventId && regs'[|regs|].userId == userId;
  }
}
