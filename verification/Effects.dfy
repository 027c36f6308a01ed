/** What each step does to the booking map, and that every step keeps the schema's keys. */
module Effects {
  import opened Domain
  import opened DateTime
  import opened Schema
  import opened Conflicts
  import opened Transitions

  // ---------------------------------------------------------- Inserting links

  /** How many leading members of a list come before the first one already seen. */
  function FirstRepeat(staff: seq<Id>, seen: set<Id>): (k: nat)
    ensures k <= |staff|
  {
    if staff == [] || staff[0] in seen then 0 else 1 + FirstRepeat(staff[1..], seen + {staff[0]})
  }

  lemma {:induction false} FirstRepeatMeans(staff: seq<Id>, seen: set<Id>)
    ensures FirstRepeat(staff, seen) == |staff| <==> RepeatFree(staff) && Members(staff) !! seen
  {
    if staff != [] {
      var rest := staff[1..];
      FirstRepeatMeans(rest, seen + {staff[0]});
      assert Members(staff) == {staff[0]} + Members(rest);
      if RepeatFree(staff) {
        assert staff[0] !in Members(rest);
      }
      if RepeatFree(rest) && staff[0] !in Members(rest) {
        forall i, j | 0 <= i < j < |staff| ensures staff[i] != staff[j] {
          assert staff[j] == rest[j - 1];
        }
      }
    }
  }

  function LinkRows(id: Id, staff: seq<Id>): seq<LinkRow> {
    seq(|staff|, i requires 0 <= i < |staff| => LinkRow(id, staff[i]))
  }

  lemma StaffOfAppend(links: seq<LinkRow>, id: Id, staff: seq<Id>)
    ensures StaffOf(links + LinkRows(id, staff), id) == StaffOf(links, id) + Members(staff)
    ensures forall other :: other != id ==> StaffOf(links + LinkRows(id, staff), other) == StaffOf(links, other)
  {
    var more := LinkRows(id, staff);
    forall x | x in Members(staff) ensures LinkRow(id, x) in more {
      var i :| 0 <= i < |staff| && staff[i] == x;
      assert more[i] == LinkRow(id, x);
    }
    assert forall l :: l in links + more <==> l in links || l in more;
  }

  /** The link loop inserts exactly the members before the first repeat, and raises iff there is one. */
  lemma {:induction false} InsertLinksEffect(links: seq<LinkRow>, known: set<Id>, id: Id, staff: seq<Id>)
    requires Members(staff) <= known && RepeatFree(links)
    ensures var k := FirstRepeat(staff, StaffOf(links, id));
            var (links', ok) := InsertLinks(links, known, id, staff);
            && links' == links + LinkRows(id, staff[..k])
            && (ok <==> k == |staff|)
            && RepeatFree(links')
    decreases |staff|
  {
    if staff != [] && staff[0] !in StaffOf(links, id) {
      var first, rest := LinkRow(id, staff[0]), staff[1..];
      assert Members(staff) == {staff[0]} + Members(rest);
      assert first !in links;
      assert staff[..1] == [staff[0]] && LinkRows(id, [staff[0]]) == [first];
      StaffOfAppend(links, id, [staff[0]]);
      assert Members([staff[0]]) == {staff[0]};
      InsertLinksEffect(links + [first], known, id, rest);
      var k := FirstRepeat(rest, StaffOf(links, id) + {staff[0]});
      assert [first] + LinkRows(id, rest[..k]) == LinkRows(id, staff[..k + 1]);
      assert links + [first] + LinkRows(id, rest[..k]) == links + ([first] + LinkRows(id, rest[..k]));
    } else {
      assert staff[..0] == [];
      assert staff != [] ==> LinkRow(id, staff[0]) in links;
    }
  }

  // ------------------------------------------------------------- One more row

  lemma FindAfterAppend(rows: seq<AllocationRow>, a: AllocationRow, id: Id)
    requires a.id !in AllocationIds(rows)
    ensures FindAllocation(rows + [a], id) == if id == a.id then Some(a) else FindAllocation(rows, id)
  {
    if rows != [] {
      assert (rows + [a])[1..] == rows[1..] + [a];
      assert rows[0].id in AllocationIds(rows);
      forall b | b in rows[1..] ensures b.id in AllocationIds(rows) {
        assert b in rows;
      }
      FindAfterAppend(rows[1..], a, id);
    } else {
      assert rows + [a] == [a];
    }
  }

  /** Adding a row with a fresh id, and links for it only, adds one booking to the map. */
  lemma BookingsAppend(rows: seq<AllocationRow>, links: seq<LinkRow>, a: AllocationRow, staff: seq<Id>)
    requires a.id !in AllocationIds(rows) && StaffOf(links, a.id) == {}
    ensures Bookings(rows + [a], links + LinkRows(a.id, staff))
         == Bookings(rows, links)[a.id := BookingOf(a, LinkRows(a.id, staff))]
    ensures StaffOf(LinkRows(a.id, staff), a.id) == Members(staff)
  {
    var rows', links' := rows + [a], links + LinkRows(a.id, staff);
    var expected := Bookings(rows, links)[a.id := BookingOf(a, LinkRows(a.id, staff))];
    StaffOfAppend(links, a.id, staff);
    StaffOfAppend([], a.id, staff);
    assert [] + LinkRows(a.id, staff) == LinkRows(a.id, staff);
    assert AllocationIds(rows') == AllocationIds(rows) + {a.id} by {
      assert forall b :: b in rows' <==> b in rows || b == a;
    }
    forall id | id in AllocationIds(rows') ensures Bookings(rows', links')[id] == expected[id] {
      FindAfterAppend(rows, a, id);
    }
  }

  lemma {:induction false} FindAfterRelease(rows: seq<AllocationRow>, id: Id, x: Id)
    ensures FindAllocation(WithAllocationStatus(rows, id, Released), x) ==
      match FindAllocation(rows, x)
      case None => None
      case Some(a) => Some(if x == id then a.(status := Released) else a)
  {
    if rows != [] {
      FindAfterRelease(rows[1..], id, x);
      assert WithAllocationStatus(rows, id, Released)[1..] == WithAllocationStatus(rows[1..], id, Released);
    }
  }

  lemma IdsAfterRelease(rows: seq<AllocationRow>, id: Id)
    ensures AllocationIds(WithAllocationStatus(rows, id, Released)) == AllocationIds(rows)
  {
    forall x ensures x in AllocationIds(WithAllocationStatus(rows, id, Released)) <==> x in AllocationIds(rows) {
      FindAfterRelease(rows, id, x);
    }
  }

  lemma BookingAfterRelease(rows: seq<AllocationRow>, links: seq<LinkRow>, id: Id, x: Id)
    requires x in AllocationIds(rows)
    ensures x in AllocationIds(WithAllocationStatus(rows, id, Released))
    ensures var b := BookingOf(FindAllocation(rows, x).value, links);
            BookingOf(FindAllocation(WithAllocationStatus(rows, id, Released), x).value, links)
            == if x == id then b.(active := false) else b
  {
    FindAfterRelease(rows, id, x);
  }

  /** Changing the status of one allocation changes just that booking. */
  lemma BookingsRelease(rows: seq<AllocationRow>, links: seq<LinkRow>, id: Id)
    requires id in AllocationIds(rows)
    ensures Bookings(WithAllocationStatus(rows, id, Released), links)
         == Bookings(rows, links)[id := Bookings(rows, links)[id].(active := false)]
  {
    IdsAfterRelease(rows, id);
    forall x | x in AllocationIds(rows)
      ensures var b := BookingOf(FindAllocation(rows, x).value, links);
              BookingOf(FindAllocation(WithAllocationStatus(rows, id, Released), x).value, links)
              == if x == id then b.(active := false) else b
    {
      BookingAfterRelease(rows, links, id, x);
    }
  }

  lemma KeysAfterRelease(t: Tables, id: Id)
    requires BookingKeys(t)
    ensures BookingKeys(t.(allocations := WithAllocationStatus(t.allocations, id, Released)))
  {
    var rows' := WithAllocationStatus(t.allocations, id, Released);
    IdsAfterRelease(t.allocations, id);
    forall a | a in rows'
      ensures a.flight in t.flights && a.gate in t.gates && a.vehicle in t.vehicles && a.status != Failed
    {
      var i :| 0 <= i < |rows'| && rows'[i] == a;
      assert t.allocations[i] in t.allocations;
    }
  }

  // --------------------------------------------------- Allocate and release

  /** The guard and the conflict check of `allocate`, both passed. */
  predicate Admissible(t: Tables, r: Request) {
    && r.flight in t.flights
    && Allocatable(t.flights[r.flight].status)
    && CheckConflict(t, r) == NoConflict
  }

  function NextId(s: State): Id {
    Render("AL", s.nextAllocation)
  }

  predicate IdIsFresh(s: State) {
    NextId(s) !in BookingMap(s.t)
  }

  /** The booking an allocation leaves behind: all the staff asked for, or, when the list repeats
      someone, those before the first repeat. */
  function BookingFor(r: Request): Booking {
    Booking(r.flight, r.gate, r.vehicle, Members(r.staff[..FirstRepeat(r.staff, {})]), r.start, r.end, true)
  }

  lemma MarkKeepsKeys(t: Tables, gate: Id, vehicle: Id, staff: set<Id>, status: ResourceStatus)
    ensures var t' := Mark(t, gate, vehicle, staff, status);
            && t'.gates.Keys == t.gates.Keys && t'.vehicles.Keys == t.vehicles.Keys && t'.staff.Keys == t.staff.Keys
  {
  }

  lemma NothingLinkedYet(t: Tables, id: Id)
    requires BookingKeys(t) && id !in AllocationIds(t.allocations)
    ensures StaffOf(t.links, id) == {}
  {
    assert forall l :: l in t.links ==> l.allocation != id;
  }

  /** The whole effect of `allocate`, on every exit: a rejection changes nothing at all; an id
      clash raises after marking the resources and adds no row; otherwise one booking is added,
      and the call succeeds iff no staff member is named twice. */
  lemma AllocateEffect(s: State, r: Request)
    requires BookingKeys(s.t)
    ensures var (s', o) := Allocate(s, r);
            && BookingKeys(s'.t)
            && (!Admissible(s.t, r) ==> s' == s && o.Rejected?)
            && (Admissible(s.t, r) ==>
                 && s'.nextAllocation == s.nextAllocation + 1
                 && s' == s.(t := s'.t, nextAllocation := s'.nextAllocation)
                 && s'.t == Mark(s.t, r.gate, r.vehicle, Members(r.staff), Occupied)
                              .(allocations := s'.t.allocations, links := s'.t.links)
                 && (!IdIsFresh(s) ==>
                      && o == Thrown(DatabaseFailure)
                      && s'.t.allocations == s.t.allocations && s'.t.links == s.t.links)
                 && (IdIsFresh(s) ==>
                      && s'.t.allocations == s.t.allocations + [RowFor(NextId(s), r)]
                      && s'.t.links == s.t.links + LinkRows(NextId(s), r.staff[..FirstRepeat(r.staff, {})])
                      && BookingMap(s'.t) == BookingMap(s.t)[NextId(s) := BookingFor(r)]
                      && o == if RepeatFree(r.staff) then Allocated(NextId(s)) else Thrown(DatabaseFailure)))
  {
    if Admissible(s.t, r) {
      var id := NextId(s);
      var marked := Mark(s.t, r.gate, r.vehicle, Members(r.staff), Occupied);
      MarkKeepsKeys(s.t, r.gate, r.vehicle, Members(r.staff), Occupied);
      AllKnownMeans(s.t.staff, r.staff);
      FirstRepeatMeans(r.staff, {});
      if IdIsFresh(s) {
        var k := FirstRepeat(r.staff, {});
        NothingLinkedYet(s.t, id);
        InsertLinksEffect(s.t.links, s.t.staff.Keys, id, r.staff);
        BookingsAppend(s.t.allocations, s.t.links, RowFor(id, r), r.staff[..k]);
        KeysAfterInsert(marked, RowFor(id, r), r.staff[..k]);
      }
    }
  }

  lemma {:induction false} InsertedLinksAreKnown(links: seq<LinkRow>, known: set<Id>, id: Id, staff: seq<Id>)
    requires InsertLinks(links, known, id, staff).1
    ensures Members(staff) <= known
    decreases |staff|
  {
    if staff != [] {
      InsertedLinksAreKnown(links + [LinkRow(id, staff[0])], known, id, staff[1..]);
      assert Members(staff) == {staff[0]} + Members(staff[1..]);
    }
  }

  /** Saving an allocation goes through iff every key holds. */
  lemma SaveGoesThrough(t: Tables, a: AllocationRow, staff: seq<Id>)
    requires BookingKeys(t)
    ensures InsertAllocation(t, a, staff).1
       <==> AllocationKeysHold(t, a) && Members(staff) <= t.staff.Keys && RepeatFree(staff)
  {
    if AllocationKeysHold(t, a) {
      if Members(staff) <= t.staff.Keys {
        NothingLinkedYet(t, a.id);
        InsertLinksEffect(t.links, t.staff.Keys, a.id, staff);
        FirstRepeatMeans(staff, {});
      } else if InsertAllocation(t, a, staff).1 {
        InsertedLinksAreKnown(t.links, t.staff.Keys, a.id, staff);
      }
    }
  }

  lemma SavedRows(t: Tables, a: AllocationRow, staff: seq<Id>)
    requires BookingKeys(t) && InsertAllocation(t, a, staff).1
    ensures AllocationKeysHold(t, a) && StaffOf(t.links, a.id) == {}
    ensures InsertAllocation(t, a, staff).0
         == t.(allocations := t.allocations + [a], links := t.links + LinkRows(a.id, staff))
  {
    SaveGoesThrough(t, a, staff);
    NothingLinkedYet(t, a.id);
    InsertLinksEffect(t.links, t.staff.Keys, a.id, staff);
    FirstRepeatMeans(staff, {});
    assert staff[..|staff|] == staff;
  }

  /** What was saved is found again: the same row, with the same staff linked. */
  lemma SaveThenFind(t: Tables, a: AllocationRow, staff: seq<Id>)
    requires BookingKeys(t) && InsertAllocation(t, a, staff).1
    ensures var t' := InsertAllocation(t, a, staff).0;
            FindAllocation(t'.allocations, a.id) == Some(a) && StaffOf(t'.links, a.id) == Members(staff)
  {
    SavedRows(t, a, staff);
    FindAfterAppend(t.allocations, a, a.id);
    StaffOfAppend(t.links, a.id, staff);
  }

  /** In the map of bookings, saving adds one entry and changes no other. */
  lemma SaveAddsOneBooking(t: Tables, a: AllocationRow, staff: seq<Id>)
    requires BookingKeys(t) && InsertAllocation(t, a, staff).1
    ensures BookingMap(InsertAllocation(t, a, staff).0) == BookingMap(t)[a.id :=
              Booking(a.flight, a.gate, a.vehicle, Members(staff), a.start, a.end, a.status == Success)]
  {
    SavedRows(t, a, staff);
    BookingsAppend(t.allocations, t.links, a, staff);
  }

  lemma KeysAfterInsert(t: Tables, a: AllocationRow, staff: seq<Id>)
    requires BookingKeys(t) && AllocationKeysHold(t, a) && a.status != Failed
    requires Members(staff) <= t.staff.Keys && RepeatFree(t.links + LinkRows(a.id, staff))
    ensures BookingKeys(t.(allocations := t.allocations + [a], links := t.links + LinkRows(a.id, staff)))
  {
    var rows', links' := t.allocations + [a], t.links + LinkRows(a.id, staff);
    assert forall b :: b in rows' <==> b in t.allocations || b == a;
    forall i, j | 0 <= i < j < |rows'| ensures rows'[i].id != rows'[j].id {
      assert rows'[i] in t.allocations;
      assert j < |t.allocations| ==> rows'[j] == t.allocations[j];
    }
    assert AllocationIds(rows') == AllocationIds(t.allocations) + {a.id};
    forall l | l in links' ensures l.allocation in AllocationIds(rows') && l.staff in t.staff {
      if l in LinkRows(a.id, staff) {
        assert l.staff in Members(staff);
      }
    }
  }

  lemma ReleaseEffect(t: Tables, id: Id)
    requires BookingKeys(t)
    ensures var (t', o) := Release(t, id);
            && BookingKeys(t')
            && o == (if id !in BookingMap(t) then Thrown(NotFound)
                     else if !BookingMap(t)[id].active then Thrown(Validation) else Done)
            && (o != Done ==> t' == t)
            && (o == Done ==>
                  var b := BookingMap(t)[id];
                  && BookingMap(t') == BookingMap(t)[id := b.(active := false)]
                  && t'.allocations == WithAllocationStatus(t.allocations, id, Released)
                  && t' == Mark(t, b.gate, b.vehicle, b.staff, Available).(allocations := t'.allocations))
  {
    if id in BookingMap(t) && BookingMap(t)[id].active {
      var b := BookingMap(t)[id];
      MarkKeepsKeys(t, b.gate, b.vehicle, b.staff, Available);
      KeysAfterRelease(t, id);
      BookingsRelease(t.allocations, t.links, id);
    }
  }

  // ------------------------------------------- What an operation leaves alone

  /** No flight and no resource is removed. */
  predicate Grows(t: Tables, t': Tables) {
    && t.flights.Keys <= t'.flights.Keys && t.gates.Keys <= t'.gates.Keys
    && t.vehicles.Keys <= t'.vehicles.Keys && t.staff.Keys <= t'.staff.Keys
  }

  predicate SameBookings(t: Tables, t': Tables) {
    t'.allocations == t.allocations && t'.links == t.links
  }

  predicate SameResources(t: Tables, t': Tables) {
    t'.gates == t.gates && t'.vehicles == t.vehicles && t'.staff == t.staff
  }

  predicate TouchesFlights(op: Op) {
    op.CreateFlightOp? || op.TransitionOp? || op.ApplyDelayOp? || op.DeclareEmergencyOp?
    || op.BeginGroundHandlingOp? || op.SeedOp?
  }

  /** The parts of the state that each kind of operation leaves as they were. */
  predicate Frame(s: State, op: Op, s': State) {
    var restart := op.RestartOp?;
    && Grows(s.t, s'.t)
    && (!IsAllocationOp(op) ==> SameBookings(s.t, s'.t))
    && (!op.AllocateOp? && !restart ==> s'.nextAllocation == s.nextAllocation)
    && (!IsResourceOp(op) && !IsAllocationOp(op) && !op.SeedOp? ==> SameResources(s.t, s'.t))
    && (!TouchesFlights(op) ==> s'.t.flights == s.t.flights)
    && (!op.CreateFlightOp? && !op.SeedOp? ==> s'.t.flights.Keys == s.t.flights.Keys)
    && (!op.CreateFlightOp? && !op.ApplyDelayOp? && !op.SeedOp? ==> s'.t.schedules == s.t.schedules)
    && (!op.CreateFlightOp? && !restart ==> s'.nextSchedule == s.nextSchedule)
    && (!op.ApplyDelayOp? ==> s'.t.delays == s.t.delays)
    && (!op.ApplyDelayOp? && !restart ==> s'.nextDelay == s.nextDelay)
    && (!IsEmergencyOp(op) ==> s'.t.emergencies == s.t.emergencies)
    && (!op.DeclareEmergencyOp? && !restart ==> s'.nextEmergency == s.nextEmergency)
  }

  lemma MoveFrame(t: Tables, flight: Id, to: FlightStatus)
    ensures var t' := MoveFlight(t, flight, to).0;
            t' == t.(flights := t'.flights) && t'.flights.Keys == t.flights.Keys
  {
  }

  lemma CreateFrame(s: State, flight: Id, row: FlightRow, arrival: int, departure: int)
    ensures var s' := CreateFlight(s, flight, row, arrival, departure).0;
            s' == s.(t := s.t.(flights := s'.t.flights, schedules := s'.t.schedules), nextSchedule := s'.nextSchedule)
            && s.t.flights.Keys <= s'.t.flights.Keys
  {
  }

  lemma DelayFrame(s: State, flight: Id, reason: DelayReason, minutes: int, notes: string)
    ensures var s' := ApplyDelay(s, flight, reason, minutes, notes).0;
            && s'.t == s.t.(flights := s'.t.flights, schedules := s'.t.schedules, delays := s'.t.delays)
            && s' == s.(t := s'.t, nextDelay := s'.nextDelay) && s'.t.flights.Keys == s.t.flights.Keys
  {
  }

  lemma DeclareFrame(s: State, flight: Id, cause: string, now: int)
    ensures var s' := DeclareEmergency(s, flight, cause, now).0;
            && s' == s.(t := s.t.(flights := s'.t.flights, emergencies := s'.t.emergencies),
                        nextEmergency := s'.nextEmergency)
            && s'.t.flights.Keys == s.t.flights.Keys
  {
  }

  lemma HandlingFrame(t: Tables, flight: Id, id: Id)
    ensures var t' := BeginGroundHandling(t, flight, id).0;
            t' == t.(flights := t'.flights, emergencies := t'.emergencies) && t'.flights.Keys == t.flights.Keys
  {
  }

  lemma SeedFrame(t: Tables, day: int)
    ensures var t' := Seed(t, day);
            && Grows(t, t')
            && t' == t.(flights := t'.flights, schedules := t'.schedules,
                        gates := t'.gates, vehicles := t'.vehicles, staff := t'.staff)
  {
  }

  lemma AllocateFrame(s: State, r: Request)
    ensures var s' := Allocate(s, r).0;
            && Grows(s.t, s'.t)
            && s'.t == s.t.(gates := s'.t.gates, vehicles := s'.t.vehicles, staff := s'.t.staff,
                            allocations := s'.t.allocations, links := s'.t.links)
            && s' == s.(t := s'.t, nextAllocation := s'.nextAllocation)
  {
  }

  lemma ReleaseFrame(t: Tables, id: Id)
    ensures var t' := Release(t, id).0;
            && Grows(t, t')
            && t' == t.(gates := t'.gates, vehicles := t'.vehicles, staff := t'.staff, allocations := t'.allocations)
  {
  }

  /** The identifiers of a list of resources to be saved. */
  function Listed(entries: seq<(Id, string)>): set<Id> {
    set e | e in entries :: e.0
  }

  /** Saving a list of resources makes each of them Available and leaves every other one alone. */
  lemma {:induction false} SavedResources(rows: map<Id, ResourceRow>, entries: seq<(Id, string)>)
    ensures var saved := SaveResources(rows, entries);
            && saved.Keys == rows.Keys + Listed(entries)
            && (forall id :: id in Listed(entries) ==> saved[id].status == Available)
            && (forall id :: id in rows && id !in Listed(entries) ==> saved[id] == rows[id])
    decreases |entries|
  {
    if entries != [] {
      SavedResources(SaveResource(rows, entries[0].0, entries[0].1), entries[1..]);
      assert Listed(entries) == {entries[0].0} + Listed(entries[1..]) by {
        assert entries == [entries[0]] + entries[1..];
      }
    }
  }

  lemma ResourceStepFrame(s: State, op: Op)
    requires IsResourceOp(op)
    ensures Frame(s, op, Next(s, op))
  {
  }

  lemma FlightStepFrame(s: State, op: Op)
    requires IsFlightOp(op)
    ensures Frame(s, op, Next(s, op))
  {
    match op
    case CreateFlightOp(flight, number, origin, destination, aircraft, arrival, departure) =>
      CreateFrame(s, flight, FlightRow(number, origin, destination, aircraft, Scheduled), arrival, departure);
    case TransitionOp(flight, to) => MoveFrame(s.t, flight, to);
    case ApplyDelayOp(flight, reason, minutes, notes) => DelayFrame(s, flight, reason, minutes, notes);
  }

  lemma EmergencyStepFrame(s: State, op: Op)
    requires IsEmergencyOp(op)
    ensures Frame(s, op, Next(s, op))
  {
    match op
    case DeclareEmergencyOp(flight, cause, now) => DeclareFrame(s, flight, cause, now);
    case RecordLandingOp(_, _) =>
    case BeginGroundHandlingOp(flight, id) => HandlingFrame(s.t, flight, id);
    case ResolveEmergencyOp(_) =>
  }

  lemma AllocationStepFrame(s: State, op: Op)
    requires IsAllocationOp(op)
    ensures Frame(s, op, Next(s, op))
  {
    match op
    case AllocateOp(r) => AllocateFrame(s, r);
    case ReleaseOp(id) => ReleaseFrame(s.t, id);
  }

  lemma StartStepFrame(s: State, op: Op)
    requires op.SeedOp? || op.RestartOp?
    ensures Frame(s, op, Next(s, op))
  {
    match op
    case SeedOp(day) => SeedFrame(s.t, day);
    case RestartOp =>
  }

  lemma StepFrame(s: State, op: Op)
    ensures Frame(s, op, Next(s, op))
  {
    if IsResourceOp(op) {
      ResourceStepFrame(s, op);
    } else if IsFlightOp(op) {
      FlightStepFrame(s, op);
    } else if IsEmergencyOp(op) {
      EmergencyStepFrame(s, op);
    } else if IsAllocationOp(op) {
      AllocationStepFrame(s, op);
    } else {
      StartStepFrame(s, op);
    }
  }

  lemma StepKeepsBookingKeys(s: State, op: Op)
    requires BookingKeys(s.t)
    ensures BookingKeys(Next(s, op).t)
  {
    match op
    case AllocateOp(r) => AllocateEffect(s, r);
    case ReleaseOp(id) => ReleaseEffect(s.t, id);
    case _ => StepFrame(s, op);
  }
}
