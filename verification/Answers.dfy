/** What each operation answers and what it writes, field by field and on every exit. The laws called
    Answers and Writes speak of a step's outcome and tables only, not of the functions that compute the
    step, so they fix each answer on their own. */
module Answers {
  import opened Domain
  import opened DateTime
  import opened Lifecycle
  import opened Schema
  import opened Conflicts
  import opened Transitions
  import opened Effects
  import opened DelayLaws

  // ------------------------------------------------------------------ Flights

  /** Creating a flight: a known id raises and nothing happens; otherwise the flight is stored as given,
      Scheduled, and if the generated schedule id is unused its schedule is stored as given. */
  lemma CreateFlightAnswers(s: State, op: Op)
    requires op.CreateFlightOp?
    ensures var (s', o) := Step(s, op);
            var id := Render("SC", s.nextSchedule);
            && (op.flight in s.t.flights ==> o == Thrown(Validation) && s' == s)
            && (op.flight !in s.t.flights ==>
                 && o == Done
                 && s'.t.flights
                    == s.t.flights[op.flight := FlightRow(op.number, op.origin, op.destination, op.aircraft, Scheduled)]
                 && s' == s.(t := s.t.(flights := s'.t.flights, schedules := s'.t.schedules),
                             nextSchedule := s.nextSchedule + 1)
                 && ((forall r :: r in s.t.schedules ==> r.id != id) ==>
                       s'.t.schedules == s.t.schedules
                         + [ScheduleRow(id, op.flight, op.arrival, op.departure, op.arrival, op.departure)]))
  {
  }

  /** A transition: an unknown flight and a missing edge raise, each its own error, and nothing happens;
      otherwise just the status of that flight changes. */
  lemma TransitionAnswers(s: State, op: Op)
    requires op.TransitionOp?
    ensures var (s', o) := Step(s, op);
            var known := op.flight in s.t.flights;
            && (!known ==> o == Thrown(NotFound) && s' == s)
            && (known && op.to !in Successors(s.t.flights[op.flight].status) ==>
                 o == Thrown(IllegalTransition) && s' == s)
            && (known && op.to in Successors(s.t.flights[op.flight].status) ==>
                 && o == Done
                 && s' == s.(t := s.t.(flights := s.t.flights[op.flight := s.t.flights[op.flight].(status := op.to)])))
  {
  }

  // ---------------------------------------------------------------- Resources

  /** Adding to a table: a known id raises and nothing happens; otherwise the table gains just that
      resource, Available and described as given. */
  ghost predicate Adds(rows: map<Id, ResourceRow>, rows': map<Id, ResourceRow>, id: Id, detail: string, o: Outcome) {
    if id in rows then o == Thrown(Validation) && rows' == rows
    else o == Done && rows' == rows[id := ResourceRow(detail, Available)]
  }

  lemma AddGateAnswers(s: State, op: Op)
    requires op.AddGateOp?
    ensures var (s', o) := Step(s, op);
            Adds(s.t.gates, s'.t.gates, op.id, op.detail, o) && s' == s.(t := s.t.(gates := s'.t.gates))
  {
  }

  lemma AddVehicleAnswers(s: State, op: Op)
    requires op.AddVehicleOp?
    ensures var (s', o) := Step(s, op);
            Adds(s.t.vehicles, s'.t.vehicles, op.id, op.detail, o) && s' == s.(t := s.t.(vehicles := s'.t.vehicles))
  {
  }

  lemma AddStaffAnswers(s: State, op: Op)
    requires op.AddStaffOp?
    ensures var (s', o) := Step(s, op);
            Adds(s.t.staff, s'.t.staff, op.id, op.detail, o) && s' == s.(t := s.t.(staff := s'.t.staff))
  {
  }

  /** Overriding a status: an unknown id raises and nothing happens; otherwise just that resource
      changes, and of it just the status. */
  ghost predicate Overrides(rows: map<Id, ResourceRow>, rows': map<Id, ResourceRow>, id: Id, status: ResourceStatus,
                            o: Outcome) {
    if id !in rows then o == Thrown(NotFound) && rows' == rows
    else o == Done && rows' == rows[id := ResourceRow(rows[id].detail, status)]
  }

  lemma SetGateAnswers(s: State, op: Op)
    requires op.SetGateOp?
    ensures var (s', o) := Step(s, op);
            Overrides(s.t.gates, s'.t.gates, op.id, op.status, o) && s' == s.(t := s.t.(gates := s'.t.gates))
  {
    OneStatus(s.t.gates, op.id, op.status);
  }

  lemma SetVehicleAnswers(s: State, op: Op)
    requires op.SetVehicleOp?
    ensures var (s', o) := Step(s, op);
            && Overrides(s.t.vehicles, s'.t.vehicles, op.id, op.status, o)
            && s' == s.(t := s.t.(vehicles := s'.t.vehicles))
  {
    OneStatus(s.t.vehicles, op.id, op.status);
  }

  lemma SetStaffAnswers(s: State, op: Op)
    requires op.SetStaffOp?
    ensures var (s', o) := Step(s, op);
            Overrides(s.t.staff, s'.t.staff, op.id, op.status, o) && s' == s.(t := s.t.(staff := s'.t.staff))
  {
    OneStatus(s.t.staff, op.id, op.status);
  }

  lemma OneStatus(rows: map<Id, ResourceRow>, id: Id, status: ResourceStatus)
    ensures WithStatus(rows, {id}, status)
         == if id in rows then rows[id := ResourceRow(rows[id].detail, status)] else rows
  {
  }

  /** The named resources have the status, no other resource changes, and no detail does. */
  ghost predicate Restatused(rows: map<Id, ResourceRow>, rows': map<Id, ResourceRow>, ids: set<Id>,
                             status: ResourceStatus) {
    && rows'.Keys == rows.Keys
    && forall id :: id in rows ==>
         rows'[id] == ResourceRow(rows[id].detail, if id in ids then status else rows[id].status)
  }

  lemma StatusesSet(rows: map<Id, ResourceRow>, ids: set<Id>, status: ResourceStatus)
    ensures Restatused(rows, WithStatus(rows, ids, status), ids, status)
  {
  }

  // -------------------------------------------------------------- Allocations

  lemma ClosedToAllocation(status: FlightStatus)
    ensures Allocatable(status) <==> status !in {Boarding, ReadyForDeparture, Departed, Completed, Cancelled}
  {
    match status
    case Scheduled => case Approaching => case Arrived => case EmergencyLanding => case GroundOperations =>
    case Boarding => case ReadyForDeparture => case Departed => case Completed => case Delayed => case Cancelled =>
  }

  /** How an allocation is decided: an unknown flight first, then the flight's status, then the verdict
      of the conflict check. A rejection writes nothing. */
  lemma AllocateAnswers(s: State, r: Request)
    requires BookingKeys(s.t)
    ensures var (s', o) := Step(s, AllocateOp(r));
            var verdict := Verdict(AvailabilityOf(s.t), r);
            if r.flight !in s.t.flights then o == Rejected(InvalidResource) && s' == s
            else if s.t.flights[r.flight].status in {Boarding, ReadyForDeparture, Departed, Completed, Cancelled}
            then o == Rejected(InvalidFlightState) && s' == s
            else if verdict != NoConflict then o == Rejected(verdict) && s' == s
            else !o.Rejected?
  {
    AllocateStep(s, r);
    if r.flight in s.t.flights {
      ClosedToAllocation(s.t.flights[r.flight].status);
    }
    assert CheckConflict(s.t, r) == Verdict(AvailabilityOf(s.t), r) by { CheckConflictDecides(s.t, r); }
  }

  lemma AllocateMarks(s: State, r: Request)
    requires BookingKeys(s.t) && !Allocate(s, r).1.Rejected?
    ensures r.gate in s.t.gates && r.vehicle in s.t.vehicles && Members(r.staff) <= s.t.staff.Keys
    ensures var t' := Allocate(s, r).0.t;
            && Restatused(s.t.gates, t'.gates, {r.gate}, Occupied)
            && Restatused(s.t.vehicles, t'.vehicles, {r.vehicle}, Occupied)
            && Restatused(s.t.staff, t'.staff, Members(r.staff), Occupied)
  {
    assert CheckConflict(s.t, r) == NoConflict;
    CheckConflictDecides(s.t, r);
    AllocateEffect(s, r);
    StatusesSet(s.t.gates, {r.gate}, Occupied);
    StatusesSet(s.t.vehicles, {r.vehicle}, Occupied);
    StatusesSet(s.t.staff, Members(r.staff), Occupied);
  }

  /** The links of the first k of a list of staff have been appended. */
  ghost predicate Linked(links: seq<LinkRow>, links': seq<LinkRow>, id: Id, staff: seq<Id>, k: nat) {
    && k <= |staff| && |links'| == |links| + k && links'[..|links|] == links
    && forall i :: 0 <= i < k ==> links'[|links| + i] == LinkRow(id, staff[i])
  }

  lemma AllocateStores(s: State, r: Request)
    requires BookingKeys(s.t) && !Allocate(s, r).1.Rejected?
    ensures var (s', o) := Allocate(s, r);
            var id, k := Render("AL", s.nextAllocation), FirstRepeat(r.staff, {});
            var unused := forall a :: a in s.t.allocations ==> a.id != id;
            && o == (if unused && RepeatFree(r.staff) then Allocated(id) else Thrown(DatabaseFailure))
            && s'.t.allocations == s.t.allocations
                 + (if unused then [AllocationRow(id, r.flight, r.gate, r.vehicle, r.start, r.end, Success)] else [])
            && Linked(s.t.links, s'.t.links, id, r.staff, if unused then k else 0)
  {
    AllocateStored(s, r);
    assert s.t.allocations + [] == s.t.allocations;
  }

  lemma AllocateStored(s: State, r: Request)
    requires BookingKeys(s.t) && !Allocate(s, r).1.Rejected?
    ensures var (s', o) := Allocate(s, r);
            && o == (if IdIsFresh(s) && RepeatFree(r.staff) then Allocated(NextId(s)) else Thrown(DatabaseFailure))
            && (if IdIsFresh(s) then
                  && s'.t.allocations == s.t.allocations + [RowFor(NextId(s), r)]
                  && s'.t.links == s.t.links + LinkRows(NextId(s), r.staff[..FirstRepeat(r.staff, {})])
                else s'.t.allocations == s.t.allocations && s'.t.links == s.t.links)
  {
    AllocateEffect(s, r);
  }

  /** What an allocation writes that is not rejected. The resources asked for become Occupied; if the
      generated id is unused, the row is stored as asked for, and links to its staff up to the first
      one named twice (`FirstRepeatIsFirst`); it succeeds iff the id is unused and no one is named twice. */
  lemma AllocateWrites(s: State, r: Request)
    requires BookingKeys(s.t) && !Step(s, AllocateOp(r)).1.Rejected?
    ensures var (s', o) := Step(s, AllocateOp(r));
            var id, k := Render("AL", s.nextAllocation), FirstRepeat(r.staff, {});
            var unused := forall a :: a in s.t.allocations ==> a.id != id;
            && o == (if unused && RepeatFree(r.staff) then Allocated(id) else Thrown(DatabaseFailure))
            && s' == s.(t := s'.t, nextAllocation := s.nextAllocation + 1)
            && s'.t == s.t.(gates := s'.t.gates, vehicles := s'.t.vehicles, staff := s'.t.staff,
                            allocations := s'.t.allocations, links := s'.t.links)
            && Restatused(s.t.gates, s'.t.gates, {r.gate}, Occupied)
            && Restatused(s.t.vehicles, s'.t.vehicles, {r.vehicle}, Occupied)
            && Restatused(s.t.staff, s'.t.staff, Members(r.staff), Occupied)
            && s'.t.allocations == s.t.allocations
                 + (if unused then [AllocationRow(id, r.flight, r.gate, r.vehicle, r.start, r.end, Success)] else [])
            && Linked(s.t.links, s'.t.links, id, r.staff, if unused then k else 0)
  {
    AllocateStep(s, r);
    AllocateMarks(s, r);
    AllocateStores(s, r);
    AllocateFrame(s, r);
    AllocateCounts(s, r);
  }

  lemma AllocateCounts(s: State, r: Request)
    requires BookingKeys(s.t) && !Allocate(s, r).1.Rejected?
    ensures Allocate(s, r).0.nextAllocation == s.nextAllocation + 1
  {
    AllocateEffect(s, r);
  }

  /** Which staff are linked when the list repeats someone: those before the first repeated one. */
  lemma {:induction false} FirstRepeatIsFirst(staff: seq<Id>, seen: set<Id>)
    ensures var k := FirstRepeat(staff, seen);
            && RepeatFree(staff[..k]) && Members(staff[..k]) !! seen
            && (k < |staff| ==> staff[k] in seen || staff[k] in staff[..k])
  {
    if staff != [] && staff[0] !in seen {
      var k, rest := FirstRepeat(staff, seen), staff[1..];
      FirstRepeatIsFirst(rest, seen + {staff[0]});
      assert staff[..k] == [staff[0]] + rest[..k - 1];
      forall i, j | 0 <= i < j < k ensures staff[i] != staff[j] {
        assert staff[j] == rest[..k - 1][j - 1];
        assert staff[j] in Members(rest[..k - 1]);
        assert i > 0 ==> staff[i] == rest[..k - 1][i - 1];
      }
      assert k < |staff| ==> staff[k] == rest[k - 1];
      assert forall x :: x in Members(staff[..k]) ==> x == staff[0] || x in Members(rest[..k - 1]);
    }
  }

  /** The row with this id is Released; nothing else about it changes, and no other row does. */
  ghost predicate OneReleased(rows: seq<AllocationRow>, rows': seq<AllocationRow>, id: Id) {
    && |rows'| == |rows|
    && (forall i :: 0 <= i < |rows| && rows[i].id != id ==> rows'[i] == rows[i])
    && (forall i :: 0 <= i < |rows| && rows[i].id == id ==>
         rows'[i] ==
         AllocationRow(id, rows[i].flight, rows[i].gate, rows[i].vehicle, rows[i].start, rows[i].end, Released))
  }

  /** A release: an unknown allocation and a released one raise, each its own error, and nothing
      happens; otherwise what the booking names becomes Available, and its row Released. */
  lemma ReleaseAnswers(s: State, op: Op)
    requires op.ReleaseOp? && BookingKeys(s.t)
    ensures var (s', o) := Step(s, op);
            var m := BookingMap(s.t);
            && (op.allocation !in m ==> o == Thrown(NotFound) && s' == s)
            && (op.allocation in m && !m[op.allocation].active ==> o == Thrown(Validation) && s' == s)
            && (op.allocation in m && m[op.allocation].active ==>
                 var b := m[op.allocation];
                 && o == Done
                 && s' == s.(t := s.t.(gates := s'.t.gates, vehicles := s'.t.vehicles, staff := s'.t.staff,
                                       allocations := s'.t.allocations))
                 && Restatused(s.t.gates, s'.t.gates, {b.gate}, Available)
                 && Restatused(s.t.vehicles, s'.t.vehicles, {b.vehicle}, Available)
                 && Restatused(s.t.staff, s'.t.staff, b.staff, Available)
                 && |s'.t.allocations| == |s.t.allocations|
                 && OneReleased(s.t.allocations, s'.t.allocations, op.allocation))
  {
    ReleaseEffect(s.t, op.allocation);
    if op.allocation in BookingMap(s.t) {
      var b := BookingMap(s.t)[op.allocation];
      StatusesSet(s.t.gates, {b.gate}, Available);
      StatusesSet(s.t.vehicles, {b.vehicle}, Available);
      StatusesSet(s.t.staff, b.staff, Available);
    }
  }

  // ------------------------------------------------------------------- Delays

  /** The flight's schedule rows have these estimates; nothing else about them changes. */
  ghost predicate Reestimated(rows: seq<ScheduleRow>, rows': seq<ScheduleRow>, flight: Id,
                              arrival: int, departure: int) {
    && |rows'| == |rows|
    && (forall i :: 0 <= i < |rows| && rows[i].flight != flight ==> rows'[i] == rows[i])
    && (forall i :: 0 <= i < |rows| && rows[i].flight == flight ==>
         rows'[i] ==
         ScheduleRow(rows[i].id, flight, rows[i].scheduledArrival, rows[i].scheduledDeparture, arrival, departure))
  }

  lemma ReestimatedRows(rows: seq<ScheduleRow>, flight: Id, arrival: int, departure: int)
    ensures Reestimated(rows, WithEstimates(rows, flight, arrival, departure), flight, arrival, departure)
  {
  }

  lemma RescheduleAnswers(t: Tables, flight: Id, delay: Id, minutes: int)
    ensures var (t', o) := Reschedule(t, flight, delay, minutes);
            var found := FindSchedule(t.schedules, flight);
            if found.None? then o == Thrown(NotFound) && t' == t
            else
              var arrival := found.value.estimatedArrival + 60 * minutes;
              var departure := found.value.estimatedDeparture + 60 * minutes;
              && o.DelayApplied? && o.id == delay && o.arrival == arrival && o.departure == departure
              && t' == t.(schedules := t'.schedules)
              && Reestimated(t.schedules, t'.schedules, flight, arrival, departure)
  {
    var found := FindSchedule(t.schedules, flight);
    if found.Some? {
      ReestimatedRows(t.schedules, flight, found.value.estimatedArrival + 60 * minutes,
                      found.value.estimatedDeparture + 60 * minutes);
    }
  }

  /** The delay row has been stored, and the flight is Delayed. */
  function Suspended(t: Tables, row: DelayRow): Tables
    requires row.flight in t.flights
  {
    t.(delays := t.delays + [row],
       flights := t.flights[row.flight := t.flights[row.flight].(status := Delayed)])
  }

  lemma SuspendedAnswers(s: State, row: DelayRow)
    requires row.minutes > 0 && row.flight in s.t.flights && row.id == Render("DL", s.nextDelay)
    requires s.t.flights[row.flight].status in {GroundOperations, Boarding, ReadyForDeparture}
    requires forall d :: d in s.t.delays ==> d.id != row.id
    ensures var (s', o) := ApplyDelay(s, row.flight, row.reason, row.minutes, row.notes);
            var (t, outcome) := Reschedule(Suspended(s.t, row), row.flight, row.id, row.minutes);
            s' == s.(t := t, nextDelay := s.nextDelay + 1) && o == outcome
  {
  }

  lemma RaisedAnswers(s: State, flight: Id, reason: DelayReason, minutes: int, notes: string)
    ensures var (s', o) := ApplyDelay(s, flight, reason, minutes, notes);
            var id := Render("DL", s.nextDelay);
            var recorded := s.t.delays + [DelayRow(id, flight, reason, minutes, notes)];
            if minutes <= 0 then o == Thrown(Validation) && s' == s
            else if flight !in s.t.flights then o == Thrown(NotFound) && s' == s
            else if exists d :: d in s.t.delays && d.id == id then
              o == Thrown(DatabaseFailure) && s' == s.(nextDelay := s.nextDelay + 1)
            else s.t.flights[flight].status !in {GroundOperations, Boarding, ReadyForDeparture} ==>
              o == Thrown(IllegalTransition) && s' == s.(t := s.t.(delays := recorded), nextDelay := s.nextDelay + 1)
  {
  }

  /** How a delay call ends. In this order: minutes that are not positive, an unknown flight, a used id,
      a status that cannot be delayed, a missing schedule; each raises its own error, and what was
      written by then stays. Otherwise the answer carries the delay's id and the shifted times. */
  lemma DelayAnswers(s: State, op: Op)
    requires op.ApplyDelayOp?
    ensures var (s', o) := Step(s, op);
            var id := Render("DL", s.nextDelay);
            var recorded := s.t.delays + [DelayRow(id, op.flight, op.reason, op.minutes, op.notes)];
            var found := FindSchedule(s.t.schedules, op.flight);
            if op.minutes <= 0 then o == Thrown(Validation) && s' == s
            else if op.flight !in s.t.flights then o == Thrown(NotFound) && s' == s
            else if exists d :: d in s.t.delays && d.id == id then
              o == Thrown(DatabaseFailure) && s' == s.(nextDelay := s.nextDelay + 1)
            else if s.t.flights[op.flight].status !in {GroundOperations, Boarding, ReadyForDeparture} then
              o == Thrown(IllegalTransition) && s' == s.(t := s.t.(delays := recorded), nextDelay := s.nextDelay + 1)
            else
              var t := Suspended(s.t, DelayRow(id, op.flight, op.reason, op.minutes, op.notes));
              if found.None? then o == Thrown(NotFound) && s' == s.(t := t, nextDelay := s.nextDelay + 1)
              else
                var arrival := found.value.estimatedArrival + 60 * op.minutes;
                var departure := found.value.estimatedDeparture + 60 * op.minutes;
                && o.DelayApplied? && o.id == id && o.arrival == arrival && o.departure == departure
                && s' == s.(t := t.(schedules := s'.t.schedules), nextDelay := s.nextDelay + 1)
                && Reestimated(s.t.schedules, s'.t.schedules, op.flight, arrival, departure)
  {
    DelayStep(s, op);
    RaisedAnswers(s, op.flight, op.reason, op.minutes, op.notes);
    var row := DelayRow(Render("DL", s.nextDelay), op.flight, op.reason, op.minutes, op.notes);
    if op.minutes > 0 && op.flight in s.t.flights && (forall d :: d in s.t.delays ==> d.id != row.id)
       && s.t.flights[op.flight].status in {GroundOperations, Boarding, ReadyForDeparture} {
      SuspendedAnswers(s, row);
      RescheduleAnswers(Suspended(s.t, row), op.flight, row.id, op.minutes);
    }
  }

  // -------------------------------------------------------------- Emergencies

  /** A declaration: an unknown flight, a flight that is not approaching, and a used id raise, each its
      own error; the last one after the flight has moved. Otherwise the record is stored as given. */
  lemma DeclarationAnswers(s: State, op: Op)
    requires op.DeclareEmergencyOp?
    ensures var (s', o) := Step(s, op);
            var id := Render("EM", s.nextEmergency);
            if op.flight !in s.t.flights then o == Thrown(NotFound) && s' == s
            else if s.t.flights[op.flight].status != Approaching then o == Thrown(IllegalTransition) && s' == s
            else
              var landing := s.t.flights[op.flight].(status := EmergencyLanding);
              var moved := s.t.(flights := s.t.flights[op.flight := landing]);
              if exists e :: e in s.t.emergencies && e.id == id then
                o == Thrown(DatabaseFailure) && s' == s.(t := moved, nextEmergency := s.nextEmergency + 1)
              else
                var record := EmergencyRow(id, op.flight, op.cause, op.now, 0, Declared);
                && o == EmergencyDeclared(id)
                && s' == s.(t := moved.(emergencies := s.t.emergencies + [record]),
                            nextEmergency := s.nextEmergency + 1)
  {
  }

  /** The records with this id have the landing time and the status; nothing else about them changes. */
  ghost predicate Updated(rows: seq<EmergencyRow>, rows': seq<EmergencyRow>, id: Id, landing: int,
                          status: EmergencyStatus) {
    && |rows'| == |rows|
    && (forall i :: 0 <= i < |rows| && rows[i].id != id ==> rows'[i] == rows[i])
    && (forall i :: 0 <= i < |rows| && rows[i].id == id ==>
         rows'[i] == EmergencyRow(id, rows[i].flight, rows[i].reason, rows[i].declaredAt, landing, status))
  }

  /** Recording a landing raises for an unknown record, and otherwise stores the time. */
  lemma LandingAnswers(s: State, op: Op)
    requires op.RecordLandingOp?
    ensures var (s', o) := Step(s, op);
            if forall e :: e in s.t.emergencies ==> e.id != op.emergency then o == Thrown(NotFound) && s' == s
            else
              && o == Done && s' == s.(t := s.t.(emergencies := s'.t.emergencies))
              && Updated(s.t.emergencies, s'.t.emergencies, op.emergency, op.now, Landed)
  {
  }

  /** Beginning ground handling: an unknown record, a record of another flight, an unknown flight, and a
      flight that may not enter ground operations raise, each its own error, and nothing happens. */
  lemma HandlingAnswers(s: State, op: Op)
    requires op.BeginGroundHandlingOp?
    ensures var (s', o) := Step(s, op);
            var found := FindEmergency(s.t.emergencies, op.emergency);
            if found.None? then o == Thrown(NotFound) && s' == s
            else if found.value.flight != op.flight then o == Thrown(Validation) && s' == s
            else if op.flight !in s.t.flights then o == Thrown(NotFound) && s' == s
            else if s.t.flights[op.flight].status !in {EmergencyLanding, Arrived, Delayed} then
              o == Thrown(IllegalTransition) && s' == s
            else
              var flights := s.t.flights[op.flight := s.t.flights[op.flight].(status := GroundOperations)];
              && o == Done && s' == s.(t := s.t.(flights := flights, emergencies := s'.t.emergencies))
              && Updated(s.t.emergencies, s'.t.emergencies, op.emergency, found.value.landingTime, GroundHandling)
  {
  }

  /** Resolving raises for an unknown record, and otherwise changes its status only. */
  lemma ResolvingAnswers(s: State, op: Op)
    requires op.ResolveEmergencyOp?
    ensures var (s', o) := Step(s, op);
            var found := FindEmergency(s.t.emergencies, op.emergency);
            if found.None? then o == Thrown(NotFound) && s' == s
            else
              && o == Done && s' == s.(t := s.t.(emergencies := s'.t.emergencies))
              && Updated(s.t.emergencies, s'.t.emergencies, op.emergency, found.value.landingTime, Resolved)
  {
  }

  // ---------------------------------------------------------------- Start-up

  /** A restart keeps the tables and starts the counters over. */
  lemma RestartAnswers(s: State)
    ensures Step(s, RestartOp) == (State(s.t, 1, 1000, 1, 1), Done)
  {
  }

  /** What seeding stores in a database without flights, and that it does nothing to one with flights. */
  lemma SeedFlightsAnswers(s: State, day: int)
    ensures var (s', o) := Step(s, SeedOp(day));
            && o == Done && (s.t.flights != map[] ==> s' == s)
            && (s.t.flights == map[] ==>
                 && s' == s.(t := s.t.(flights := s'.t.flights, schedules := s'.t.schedules, gates := s'.t.gates,
                                       vehicles := s'.t.vehicles, staff := s'.t.staff))
                 && s'.t.flights == map[
                      "FL001" := FlightRow("AI101", "DEL", "BOM", "A320", Scheduled),
                      "FL002" := FlightRow("AI202", "BOM", "BLR", "B737", Scheduled),
                      "FL003" := FlightRow("AI303", "BLR", "MAA", "A321", Scheduled)])
  {
  }

  lemma {:induction false} SaveFirst(rows: map<Id, ResourceRow>, first: (Id, string), rest: seq<(Id, string)>)
    ensures SaveResources(rows, [first] + rest)
         == SaveResources(rows[first.0 := ResourceRow(first.1, Available)], rest)
  {
    assert ([first] + rest)[1..] == rest;
  }

  lemma SeedGates(t: Tables, day: int)
    requires t.flights == map[]
    ensures Seed(t, day).gates == t.gates["G01" := ResourceRow("A", Available)]["G02" := ResourceRow("A", Available)]
                                         ["G03" := ResourceRow("B", Available)]
  {
    var one := t.gates["G01" := ResourceRow("A", Available)];
    var two := one["G02" := ResourceRow("A", Available)];
    assert SAMPLE_GATES == [("G01", "A")] + ([("G02", "A")] + ([("G03", "B")] + []));
    SaveFirst(t.gates, ("G01", "A"), [("G02", "A")] + ([("G03", "B")] + []));
    SaveFirst(one, ("G02", "A"), [("G03", "B")] + []);
    SaveFirst(two, ("G03", "B"), []);
  }

  lemma SeedVehicles(t: Tables, day: int)
    requires t.flights == map[]
    ensures Seed(t, day).vehicles == t.vehicles["V01" := ResourceRow("Baggage Tractor", Available)]
                                               ["V02" := ResourceRow("Fuel Truck", Available)]
  {
    var one := t.vehicles["V01" := ResourceRow("Baggage Tractor", Available)];
    assert SAMPLE_VEHICLES == [("V01", "Baggage Tractor")] + ([("V02", "Fuel Truck")] + []);
    SaveFirst(t.vehicles, ("V01", "Baggage Tractor"), [("V02", "Fuel Truck")] + []);
    SaveFirst(one, ("V02", "Fuel Truck"), []);
  }

  lemma SeedStaff(t: Tables, day: int)
    requires t.flights == map[]
    ensures Seed(t, day).staff == t.staff["GS01" := ResourceRow("Baggage Handling", Available)]
                                         ["GS02" := ResourceRow("Ramp Agent", Available)]
                                         ["GS03" := ResourceRow("Cleaning Crew", Available)]
                                         ["GS04" := ResourceRow("Catering Crew", Available)]
  {
    var one := t.staff["GS01" := ResourceRow("Baggage Handling", Available)];
    var two := one["GS02" := ResourceRow("Ramp Agent", Available)];
    var three := two["GS03" := ResourceRow("Cleaning Crew", Available)];
    var last := [("GS04", "Catering Crew")] + [];
    assert SAMPLE_STAFF
        == [("GS01", "Baggage Handling")] + ([("GS02", "Ramp Agent")] + ([("GS03", "Cleaning Crew")] + last));
    SaveFirst(t.staff, ("GS01", "Baggage Handling"), [("GS02", "Ramp Agent")] + ([("GS03", "Cleaning Crew")] + last));
    SaveFirst(one, ("GS02", "Ramp Agent"), [("GS03", "Cleaning Crew")] + last);
    SaveFirst(two, ("GS03", "Cleaning Crew"), last);
    SaveFirst(three, ("GS04", "Catering Crew"), []);
  }

  /** The sample schedules, from nine, eleven and one o'clock for an hour and a half each. */
  lemma SeedSchedules(t: Tables, day: int)
    requires ScheduleKeys(t) && t.flights == map[]
    ensures var nine, eleven, one := day + 9 * 3600, day + 11 * 3600, day + 13 * 3600;
            Seed(t, day).schedules == [
              ScheduleRow("SC0001", "FL001", nine, nine + 5400, nine, nine + 5400),
              ScheduleRow("SC0002", "FL002", eleven, eleven + 5400, eleven, eleven + 5400),
              ScheduleRow("SC0003", "FL003", one, one + 5400, one, one + 5400)]
  {
    NoFlightsNoSchedules(t);
    SampleSaved(day);
  }

  // ------------------------------------------------------------------ Details

  /** The descriptions of known resources are the same. */
  ghost predicate SameDetails(rows: map<Id, ResourceRow>, rows': map<Id, ResourceRow>) {
    forall id :: id in rows ==> id in rows' && rows'[id].detail == rows[id].detail
  }

  ghost predicate DetailsKept(t: Tables, t': Tables) {
    SameDetails(t.gates, t'.gates) && SameDetails(t.vehicles, t'.vehicles) && SameDetails(t.staff, t'.staff)
  }

  /** No step changes the terminal of a gate, the class of a vehicle or the specialization of a staff
      member, except that seeding a database without flights describes the sample resources anew. */
  lemma DetailsStay(s: State, op: Op)
    requires BookingKeys(s.t) && !(op.SeedOp? && s.t.flights == map[])
    ensures DetailsKept(s.t, Next(s, op).t)
  {
    if IsResourceOp(op) {
      ResourceStepDetails(s, op);
    } else if op.AllocateOp? {
      AllocateDetails(s, op.request);
    } else if op.ReleaseOp? {
      ReleaseAnswers(s, op);
    } else if op.SeedOp? {
      SeedFlightsAnswers(s, op.day);
    } else {
      StepFrame(s, op);
    }
  }

  lemma AllocateDetails(s: State, r: Request)
    requires BookingKeys(s.t)
    ensures DetailsKept(s.t, Allocate(s, r).0.t)
  {
    if Allocate(s, r).1.Rejected? {
      AllocateEffect(s, r);
    } else {
      AllocateMarks(s, r);
    }
  }

  lemma ResourceStepDetails(s: State, op: Op)
    requires IsResourceOp(op)
    ensures DetailsKept(s.t, Next(s, op).t)
  {
    match op
    case AddGateOp(_, _) => AddGateAnswers(s, op);
    case AddVehicleOp(_, _) => AddVehicleAnswers(s, op);
    case AddStaffOp(_, _) => AddStaffAnswers(s, op);
    case SetGateOp(_, _) => SetGateAnswers(s, op);
    case SetVehicleOp(_, _) => SetVehicleAnswers(s, op);
    case SetStaffOp(_, _) => SetStaffAnswers(s, op);
  }

  /** What seeding a database without flights does to each resource: those it names are described anew,
      and all others stay as they are. */
  lemma SeedDetails(t: Tables, day: int)
    requires t.flights == map[]
    ensures var t' := Seed(t, day);
            && (forall id :: id in t.gates && id !in {"G01", "G02", "G03"} ==>
                  id in t'.gates && t'.gates[id] == t.gates[id])
            && (forall id :: id in t.vehicles && id !in {"V01", "V02"} ==>
                  id in t'.vehicles && t'.vehicles[id] == t.vehicles[id])
            && (forall id :: id in t.staff && id !in {"GS01", "GS02", "GS03", "GS04"} ==>
                  id in t'.staff && t'.staff[id] == t.staff[id])
  {
    SeedGates(t, day);
    SeedVehicles(t, day);
    SeedStaff(t, day);
  }
}
