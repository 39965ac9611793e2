/** What the registration transitions keep true when requests run one after
    another: every event's `registeredCount` equals the number of its
    registrations, no (event, user) pair is registered twice, every
    registration names a stored event, and an event with a positive capacity
    holds no more registrations than the capacity rounded up. Also how event
    creation and update interact with these facts. */
module RegistrationInvariants {
  import opened Common
  import opened Models
  import opened Registrations
  import opened Events

  /** The number of stored registrations for event `e`. */
  function CountFor(regs: seq<Registration>, e: Id): nat {
    if |regs| == 0 then 0
    else CountFor(regs[..|regs| - 1], e) + (if regs[|regs| - 1].event == e then 1 else 0)
  }

  lemma {:induction false} CountConcat(a: seq<Registration>, b: seq<Registration>, e: Id)
    ensures CountFor(a + b, e) == CountFor(a, e) + CountFor(b, e)
    decreases |b|
  {
    if |b| == 0 {
      assert a + b == a;
    } else {
      assert (a + b)[..|a + b| - 1] == a + b[..|b| - 1];
      CountConcat(a, b[..|b| - 1], e);
    }
  }

  /** Removing the registration at `i` lowers its event's count by one and
      leaves every other event's count alone. */
  lemma CountRemove(regs: seq<Registration>, i: nat, e: Id)
    requires i < |regs|
    ensures CountFor(regs[..i] + regs[i + 1..], e) == CountFor(regs, e) - (if regs[i].event == e then 1 else 0)
  {
    assert regs == regs[..i] + [regs[i]] + regs[i + 1..];
    CountConcat(regs[..i] + [regs[i]], regs[i + 1..], e);
    CountConcat(regs[..i], [regs[i]], e);
    CountConcat(regs[..i], regs[i + 1..], e);
    assert CountFor([regs[i]], e) == (if regs[i].event == e then 1 else 0) by {
      assert [regs[i]][..0] == [];
    }
  }

  /** Replacing a registration by one for the same event keeps every count. */
  lemma CountReplace(regs: seq<Registration>, i: nat, x: Registration, e: Id)
    requires i < |regs| && x.event == regs[i].event
    ensures CountFor(regs[i := x], e) == CountFor(regs, e)
  {
    assert regs == regs[..i] + [regs[i]] + regs[i + 1..];
    assert regs[i := x] == regs[..i] + [x] + regs[i + 1..];
    CountConcat(regs[..i] + [regs[i]], regs[i + 1..], e);
    CountConcat(regs[..i], [regs[i]], e);
    CountConcat(regs[..i] + [x], regs[i + 1..], e);
    CountConcat(regs[..i], [x], e);
    assert [x][..0] == [] && [regs[i]][..0] == [];
  }

  /** Every registration refers to one of `events`. */
  ghost predicate RefsIn(regs: seq<Registration>, events: set<Id>) {
    forall i :: 0 <= i < |regs| ==> regs[i].event in events
  }

  /** Every registration refers to a stored event. */
  ghost predicate RefsValid(s: Store) {
    RefsIn(s.regs, s.events.Keys)
  }

  /** Every event's counter equals the number of its registrations. */
  ghost predicate CountersMatch(s: Store) {
    forall e :: e in s.events ==> s.events[e].registeredCount == CountFor(s.regs, e)
  }

  /** Every event with a positive capacity `c` has a counter below `c + 1`:
      registration is refused only once the counter reaches `c`, so a
      fractional capacity lets the counter reach `c` rounded up. */
  ghost predicate WithinCapacity(s: Store) {
    forall e :: e in s.events && s.events[e].capacity.Some? && s.events[e].capacity.value > 0.0 ==>
      (s.events[e].registeredCount as real) < s.events[e].capacity.value + 1.0
  }

  /** The least integer at or above `x`. */
  function Ceiling(x: real): (k: int)
    ensures x <= k as real < x + 1.0
  {
    -((-x).Floor)
  }

  /** Under `WithinCapacity` a counter never exceeds its capacity rounded up,
      and never exceeds a whole-number capacity. */
  lemma CapacityBound(s: Store, e: Id)
    requires WithinCapacity(s) && e in s.events
    requires s.events[e].capacity.Some? && s.events[e].capacity.value > 0.0
    ensures s.events[e].registeredCount <= Ceiling(s.events[e].capacity.value)
    ensures s.events[e].capacity.value == s.events[e].capacity.value.Floor as real ==>
      s.events[e].registeredCount as real <= s.events[e].capacity.value
  {
    CeilingBound(s.events[e].registeredCount, s.events[e].capacity.value);
  }

  /** An integer below `c + 1` is at most `c` rounded up. */
  lemma CeilingBound(n: int, c: real)
    requires n as real < c + 1.0
    ensures n <= Ceiling(c)
    ensures c == c.Floor as real ==> n as real <= c
  {
    var k := Ceiling(c);
    assert c <= k as real;
    assert n as real < (k + 1) as real;
    if c == c.Floor as real {
      var f := c.Floor;
      assert n as real < (f + 1) as real;
      assert n < f + 1;
      assert n as real <= f as real;
    }
  }

  ghost predicate Consistent(s: Store) {
    RefsValid(s) && UniquePairs(s.regs) && CountersMatch(s) && WithinCapacity(s)
  }

  /** A fresh store: events with zero counters and no registrations. */
  ghost predicate Initial(s: Store) {
    s.regs == [] && forall e :: e in s.events ==> s.events[e].registeredCount == 0
  }

  lemma InitialConsistent(s: Store)
    requires Initial(s)
    ensures Consistent(s)
  {
  }

  /** A successful registration adds exactly one registration, for the
      caller's pair, and raises that event's count by exactly one. */
  lemma RegisterCountsOne(s: Store, caller: User, eventId: Id, payment: Option<string>, newId: Id, now: nat)
    requires RegisterForEvent(s, caller, eventId, payment, newId, now).Ok?
    ensures var s' := RegisterForEvent(s, caller, eventId, payment, newId, now).value.0;
      && CountFor(s'.regs, eventId) == CountFor(s.regs, eventId) + 1
      && s'.events[eventId].registeredCount == s.events[eventId].registeredCount + 1
      && (forall e :: e != eventId ==> CountFor(s'.regs, e) == CountFor(s.regs, e))
  {
    var (s', reg) := RegisterForEvent(s, caller, eventId, payment, newId, now).value;
    assert s'.regs[..|s'.regs| - 1] == s.regs;
  }

  lemma RegisterPreserves(s: Store, caller: User, eventId: Id, payment: Option<string>, newId: Id, now: nat)
    requires Consistent(s)
    requires RegisterForEvent(s, caller, eventId, payment, newId, now).Ok?
    ensures Consistent(RegisterForEvent(s, caller, eventId, payment, newId, now).value.0)
  {
    var (s', reg) := RegisterForEvent(s, caller, eventId, payment, newId, now).value;
    RegisterCountsOne(s, caller, eventId, payment, newId, now);
    assert UniquePairs(s'.regs) by {
      forall i, j | 0 <= i < j < |s'.regs|
        ensures !SamePair(s'.regs[j], s'.regs[i].event, s'.regs[i].user)
      {
        if j == |s.regs| {
          assert !SamePair(s.regs[i], eventId, caller.id);
        }
      }
    }
  }

  /** Removing one registration keeps the pairs unique. */
  lemma RemoveKeepsUnique(regs: seq<Registration>, i: nat)
    requires i < |regs| && UniquePairs(regs)
    ensures UniquePairs(regs[..i] + regs[i + 1..])
  {
    var rest := regs[..i] + regs[i + 1..];
    forall a, b | 0 <= a < b < |rest|
      ensures !SamePair(rest[b], rest[a].event, rest[a].user)
    {
      var a' := if a < i then a else a + 1;
      var b' := if b < i then b else b + 1;
      assert rest[a] == regs[a'] && rest[b] == regs[b'] && a' < b';
    }
  }

  /** Removing one registration keeps every reference to a stored event. */
  lemma RemoveKeepsRefs(regs: seq<Registration>, i: nat, events: set<Id>)
    requires i < |regs| && RefsIn(regs, events)
    ensures RefsIn(regs[..i] + regs[i + 1..], events)
  {
    var rest := regs[..i] + regs[i + 1..];
    forall k | 0 <= k < |rest|
      ensures rest[k].event in events
    {
      if k < i { assert rest[k] == regs[k]; } else { assert rest[k] == regs[k + 1]; }
    }
  }

  /** A successful cancellation removes one registration of the event and
      lowers its counter by one. */
  lemma CancelPreserves(s: Store, caller: User, eventId: Id, userId: Id)
    requires Consistent(s)
    requires CancelRegistration(s, caller, eventId, userId).Ok?
    ensures Consistent(CancelRegistration(s, caller, eventId, userId).value)
    ensures var s' := CancelRegistration(s, caller, eventId, userId).value;
      && eventId in s.events
      && CountFor(s'.regs, eventId) == CountFor(s.regs, eventId) - 1
      && s'.events[eventId].registeredCount >= 0
  {
    var s' := CancelRegistration(s, caller, eventId, userId).value;
    var i := FindPair(s.regs, eventId, userId).value;
    assert s.regs[i].event == eventId;
    forall e | e in s.events
      ensures s'.events[e].registeredCount == CountFor(s'.regs, e)
    {
      CountRemove(s.regs, i, e);
    }
    RemoveKeepsRefs(s.regs, i, s.events.Keys);
    RemoveKeepsUnique(s.regs, i);
    CountRemove(s.regs, i, eventId);
  }

  lemma UpdateStatusPreserves(s: Store, regId: Id, status: Option<string>)
    requires Consistent(s)
    requires UpdateRegistrationStatus(s, regId, status).Ok?
    ensures Consistent(UpdateRegistrationStatus(s, regId, status).value.0)
  {
    var (s', reg) := UpdateRegistrationStatus(s, regId, status).value;
    var i := FindById(s.regs, regId).value;
    forall e | e in s.events
      ensures s'.events[e].registeredCount == CountFor(s'.regs, e)
    {
      CountReplace(s.regs, i, reg, e);
    }
  }

  /** One request against the store; a refused request changes nothing. */
  datatype Op =
    | Register(caller: User, eventId: Id, payment: Option<string>, newId: Id, now: nat)
    | Cancel(caller: User, eventId: Id, userId: Id)
    | SetStatus(regId: Id, status: Option<string>)

  function Step(s: Store, op: Op): Store {
    match op
    case Register(caller, eventId, payment, newId, now) =>
      var r := RegisterForEvent(s, caller, eventId, payment, newId, now);
      if r.Ok? then r.value.0 else s
    case Cancel(caller, eventId, userId) =>
      var r := CancelRegistration(s, caller, eventId, userId);
      if r.Ok? then r.value else s
    case SetStatus(regId, status) =>
      var r := UpdateRegistrationStatus(s, regId, status);
      if r.Ok? then r.value.0 else s
  }

  function Run(s: Store, ops: seq<Op>): Store
    decreases |ops|
  {
    if |ops| == 0 then s else Run(Step(s, ops[0]), ops[1..])
  }

  lemma StepPreserves(s: Store, op: Op)
    requires Consistent(s)
    ensures Consistent(Step(s, op))
  {
    match op
    case Register(caller, eventId, payment, newId, now) =>
      if RegisterForEvent(s, caller, eventId, payment, newId, now).Ok? {
        RegisterPreserves(s, caller, eventId, payment, newId, now);
      }
    case Cancel(caller, eventId, userId) =>
      if CancelRegistration(s, caller, eventId, userId).Ok? {
        CancelPreserves(s, caller, eventId, userId);
      }
    case SetStatus(regId, status) =>
      if UpdateRegistrationStatus(s, regId, status).Ok? {
        UpdateStatusPreserves(s, regId, status);
      }
  }

  lemma {:induction false} RunPreserves(s: Store, ops: seq<Op>)
    requires Consistent(s)
    ensures Consistent(Run(s, ops))
    decreases |ops|
  {
    if |ops| > 0 {
      StepPreserves(s, ops[0]);
      RunPreserves(Step(s, ops[0]), ops[1..]);
    }
  }

  /** From a fresh store, any sequence of registrations, cancellations and
      status updates keeps each counter equal to its event's registrations,
      never negative and within a positive capacity, with one registration
      per (event, user) pair. */
  lemma {:induction false} CountersTrackRegistrations(s: Store, ops: seq<Op>)
    requires Initial(s)
    ensures var t := Run(s, ops);
      && t.events.Keys == s.events.Keys
      && UniquePairs(t.regs)
      && (forall e :: e in t.events ==> t.events[e].registeredCount == CountFor(t.regs, e) >= 0)
      && (forall e :: e in t.events && t.events[e].capacity.Some? && t.events[e].capacity.value > 0.0 ==>
            t.events[e].registeredCount <= Ceiling(t.events[e].capacity.value))
  {
    InitialConsistent(s);
    RunPreserves(s, ops);
    RunKeepsEventKeys(s, ops);
    var t := Run(s, ops);
    forall e | e in t.events && t.events[e].capacity.Some? && t.events[e].capacity.value > 0.0
      ensures t.events[e].registeredCount <= Ceiling(t.events[e].capacity.value)
    {
      CapacityBound(t, e);
    }
  }

  lemma {:induction false} RunKeepsEventKeys(s: Store, ops: seq<Op>)
    ensures Run(s, ops).events.Keys == s.events.Keys
    decreases |ops|
  {
    if |ops| > 0 {
      RunKeepsEventKeys(Step(s, ops[0]), ops[1..]);
    }
  }

  /** Without the invariant nothing stops the counter going below zero: the
      decrement has no floor. A counter that has drifted to 0 while a
      registration exists becomes -1 on cancellation. */
  lemma CancelHasNoFloor(ev: Event, reg: Registration, caller: User)
    requires ev.registeredCount == 0 && reg.event == 1 && reg.user == caller.id
    ensures var s := Store(map[1 := ev], [reg]);
      && CancelRegistration(s, caller, 1, caller.id).Ok?
      && CancelRegistration(s, caller, 1, caller.id).value.events[1].registeredCount == -1
  {
  }

  // ----------------------------------------------------- concrete stores

  /** An IEEE event with the given counter and capacity, organised by user 9. */
  function SampleEvent(count: int, capacity: real): Event {
    Event("Hack night", "An evening of hacking", IEEE, "Main hall", 0, 1, 9, count, Some(capacity), true)
  }

  /** Users 1 and 2 registered for event 1. */
  function TwoRegistrations(): seq<Registration> {
    [Registration(10, 1, 1, Registered, None, 0), Registration(11, 1, 2, Registered, None, 0)]
  }

  /** A JSON capacity of 2.5 admits three registrations: the third is taken
      while the counter (2) is still below 2.5, and leaves it at 3. */
  lemma FractionalCapacityOverfills()
    ensures var s := Store(map[1 := SampleEvent(2, 2.5)], TwoRegistrations());
      var member := User(3, "Ana", "ana@example.org", "hash", UserRole, None, true, CSE, None);
      && Consistent(s)
      && RegisterForEvent(s, member, 1, None, 12, 0).Ok?
      && RegisterForEvent(s, member, 1, None, 12, 0).value.0.events[1].registeredCount == 3
      && Consistent(RegisterForEvent(s, member, 1, None, 12, 0).value.0)
  {
    var s := Store(map[1 := SampleEvent(2, 2.5)], TwoRegistrations());
    var member := User(3, "Ana", "ana@example.org", "hash", UserRole, None, true, CSE, None);
    assert s.regs[..1] == [s.regs[0]] && s.regs[..1][..0] == [];
    assert Consistent(s);
    RegisterPreserves(s, member, 1, None, 12, 0);
  }

  // ------------------------------------------------ creation and update

  /** An event id no registration refers to has no registrations. */
  lemma {:induction false} CountOutside(regs: seq<Registration>, keys: set<Id>, e: Id)
    requires RefsIn(regs, keys) && e !in keys
    ensures CountFor(regs, e) == 0
    decreases |regs|
  {
    if |regs| > 0 {
      var front := regs[..|regs| - 1];
      assert forall i :: 0 <= i < |front| ==> front[i] == regs[i];
      CountOutside(front, keys, e);
    }
  }

  /** Creating an event keeps the store consistent: the new event has a zero
      counter and no registration refers to its fresh id. */
  lemma CreatePreserves(s: Store, caller: User, input: EventInput, parseDate: string -> Option<int>,
                        newId: Id, now: nat)
    requires Consistent(s)
    requires CreateEvent(s.events, caller, input, parseDate, newId, now).Ok?
    ensures Consistent(Store(CreateEvent(s.events, caller, input, parseDate, newId, now).value.0, s.regs))
  {
    CountOutside(s.regs, s.events.Keys, newId);
  }

  /** Updating an event keeps every counter equal to its registrations, the
      references valid and the pairs unique. */
  lemma UpdateKeepsCounters(s: Store, caller: User, eventId: Id, input: EventInput,
                            parseDate: string -> Option<int>, now: nat)
    requires Consistent(s)
    requires UpdateEvent(s.events, caller, eventId, input, parseDate, now).Ok?
    ensures var s' := Store(UpdateEvent(s.events, caller, eventId, input, parseDate, now).value.0, s.regs);
      RefsValid(s') && UniquePairs(s'.regs) && CountersMatch(s')
  {
  }

  /** The capacity bound is not kept by updates: the handler writes any
      capacity, including one below the current counter. */
  lemma UpdateCanOverfill(parseDate: string -> Option<int>)
    ensures var s := Store(map[1 := SampleEvent(2, 5.0)], TwoRegistrations());
      var admin := User(4, "Ravi", "ravi@example.org", "hash", SuperAdmin, None, false, ECE, None);
      var r := UpdateEvent(s.events, admin, 1, EventInput(None, None, None, None, None, None, Num(1.0)), parseDate, 0);
      && Consistent(s)
      && r.Ok?
      && !WithinCapacity(Store(r.value.0, s.regs))
  {
    var s := Store(map[1 := SampleEvent(2, 5.0)], TwoRegistrations());
    var admin := User(4, "Ravi", "ravi@example.org", "hash", SuperAdmin, None, false, ECE, None);
    var input := EventInput(None, None, None, None, None, None, Num(1.0));
    assert s.regs[..1] == [s.regs[0]] && s.regs[..1][..0] == [];
    assert Consistent(s);
    assert OrganizerGate(s.events, admin, 1, 0, "update").Pass?;
    assert UpdateInputValid(input, parseDate);
    var p := Patched(s.events[1], input, parseDate);
    assert p == SampleEvent(2, 1.0);
    assert Saveable(p);
    var r := UpdateEvent(s.events, admin, 1, input, parseDate, 0);
    assert r.Ok? && r.value.0 == map[1 := p];
    var s' := Store(r.value.0, s.regs);
    assert 1 in s'.events && s'.events[1].capacity == Some(1.0) && s'.events[1].registeredCount == 2;
    assert !((s'.events[1].registeredCount as real) < s'.events[1].capacity.value + 1.0);
  }
}
