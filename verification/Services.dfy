/** The services. Each operation is written step by step over the repository and is proved to take
    exactly the step that `Transitions` describes. */
module Services {
  import opened Domain
  import opened DateTime
  import opened Lifecycle
  import opened Models
  import opened Schema
  import opened Conflicts
  import opened Transitions
  import opened Database

  class FlightService {
    const db: AirportDatabase
    const scheduleIdGen: IdGenerator

    constructor (db: AirportDatabase)
      ensures this.db == db && fresh(scheduleIdGen)
      ensures scheduleIdGen.prefix == "SC" && scheduleIdGen.counter == 1000
    {
      this.db := db;
      scheduleIdGen := new IdGenerator("SC", 1000);
    }

    method CreateFlight(flightId: Id, flightNumber: string, origin: string, destination: string, aircraftType: string,
                        scheduledArrival: int, scheduledDeparture: int) returns (outcome: Outcome)
      requires scheduleIdGen.prefix == "SC"
      modifies db, scheduleIdGen
      ensures forall a, d, e: nat ::
        (State(db.Snapshot(), a, scheduleIdGen.counter, d, e), outcome)
        == Transitions.CreateFlight(State(old(db.Snapshot()), a, old(scheduleIdGen.counter), d, e), flightId,
             FlightRow(flightNumber, origin, destination, aircraftType, Scheduled),
             scheduledArrival, scheduledDeparture)
    {
      var existing := db.FindFlightById(flightId);
      if existing != null {
        return Thrown(Validation);
      }
      var flight := new Flight(flightId, flightNumber, origin, destination, aircraftType);
      db.SaveFlight(flight);
      var scheduleId := scheduleIdGen.Next();
      var schedule := new FlightSchedule(scheduleId, flightId, scheduledArrival, scheduledDeparture);
      db.SaveFlightSchedule(schedule);
      UpsertedRows(old(db.schedules), schedule.Row(), db.schedules);
      outcome := Done;
    }

    /** Null stands for the raised NotFound. */
    method GetFlight(flightId: Id) returns (flight: Flight?)
      ensures flight == null <==> flightId !in db.flights
      ensures flight != null ==>
        && fresh(flight) && flight.flightId == flightId
        && db.flights[flightId] == FlightRow(flight.flightNumber, flight.origin, flight.destination,
                                             flight.aircraftType, flight.status)
    {
      flight := db.FindFlightById(flightId);
    }

    method TransitionFlightStatus(flightId: Id, newStatus: FlightStatus) returns (outcome: Outcome)
      modifies db
      ensures (db.Snapshot(), outcome) == MoveFlight(old(db.Snapshot()), flightId, newStatus)
    {
      var flight := GetFlight(flightId);
      if flight == null {
        return Thrown(NotFound);
      }
      var ok := flight.TransitionTo(newStatus);
      if !ok {
        return Thrown(IllegalTransition);
      }
      db.UpdateFlightStatus(flightId, newStatus);
      outcome := Done;
    }
  }

  class ResourceService {
    const db: AirportDatabase

    constructor (db: AirportDatabase)
      ensures this.db == db
    {
      this.db := db;
    }

    method AddGate(id: Id, terminal: string) returns (outcome: Outcome)
      modifies db
      ensures db.Snapshot() == old(db.Snapshot()).(gates := Add(old(db.gates), id, terminal))
      ensures outcome == AddOutcome(old(db.gates), id)
    {
      if id in db.gates { return Thrown(Validation); }
      db.SaveGate(id, terminal);
      outcome := Done;
    }

    method AddVehicle(id: Id, vehicleClass: string) returns (outcome: Outcome)
      modifies db
      ensures db.Snapshot() == old(db.Snapshot()).(vehicles := Add(old(db.vehicles), id, vehicleClass))
      ensures outcome == AddOutcome(old(db.vehicles), id)
    {
      if id in db.vehicles { return Thrown(Validation); }
      db.SaveVehicle(id, vehicleClass);
      outcome := Done;
    }

    method AddGroundStaffResource(id: Id, specialization: string) returns (outcome: Outcome)
      modifies db
      ensures db.Snapshot() == old(db.Snapshot()).(staff := Add(old(db.staff), id, specialization))
      ensures outcome == AddOutcome(old(db.staff), id)
    {
      if id in db.staff { return Thrown(Validation); }
      db.SaveGroundStaffResource(id, specialization);
      outcome := Done;
    }

    method SetGateStatus(id: Id, status: ResourceStatus) returns (outcome: Outcome)
      modifies db
      ensures db.Snapshot() == old(db.Snapshot()).(gates := WithStatus(old(db.gates), {id}, status))
      ensures outcome == SetOutcome(old(db.gates), id)
    {
      if id !in db.gates {
        assert WithStatus(db.gates, {id}, status) == db.gates;
        return Thrown(NotFound);
      }
      db.UpdateGateStatus(id, status);
      outcome := Done;
    }

    method SetVehicleStatus(id: Id, status: ResourceStatus) returns (outcome: Outcome)
      modifies db
      ensures db.Snapshot() == old(db.Snapshot()).(vehicles := WithStatus(old(db.vehicles), {id}, status))
      ensures outcome == SetOutcome(old(db.vehicles), id)
    {
      if id !in db.vehicles {
        assert WithStatus(db.vehicles, {id}, status) == db.vehicles;
        return Thrown(NotFound);
      }
      db.UpdateVehicleStatus(id, status);
      outcome := Done;
    }

    method SetGroundStaffStatus(id: Id, status: ResourceStatus) returns (outcome: Outcome)
      modifies db
      ensures db.Snapshot() == old(db.Snapshot()).(staff := WithStatus(old(db.staff), {id}, status))
      ensures outcome == SetOutcome(old(db.staff), id)
    {
      if id !in db.staff {
        assert WithStatus(db.staff, {id}, status) == db.staff;
        return Thrown(NotFound);
      }
      db.UpdateGroundStaffResourceStatus(id, status);
      outcome := Done;
    }
  }

  /** The conflict check as it is written: searches over the repository's lists that stop at the
      first obstacle. It is proved to answer as `Conflicts.CheckConflict` does. */
  class ConflictDetector {
    const db: AirportDatabase

    constructor (db: AirportDatabase)
      ensures this.db == db
    {
      this.db := db;
    }

    method CheckConflict(request: Request) returns (conflict: ConflictType)
      ensures conflict == Conflicts.CheckConflict(db.Snapshot(), request)
    {
      if request.flight !in db.flights {
        return InvalidResource;
      }
      if request.gate !in db.gates {
        return InvalidResource;
      }
      if request.vehicle !in db.vehicles {
        return InvalidResource;
      }
      for i := 0 to |request.staff|
        invariant AllKnown(db.staff, request.staff[i..]) == AllKnown(db.staff, request.staff)
      {
        assert request.staff[i..][1..] == request.staff[i + 1..];
        if request.staff[i] !in db.staff {
          return InvalidResource;
        }
      }
      conflict := CheckGate(request);
      if conflict != NoConflict {
        return;
      }
      conflict := CheckVehicle(request);
      if conflict != NoConflict {
        return;
      }
      conflict := CheckGroundStaff(request);
    }

    method CheckGate(request: Request) returns (conflict: ConflictType)
      requires request.gate in db.gates
      ensures conflict == Conflicts.CheckGate(db.Snapshot(), request)
    {
      if db.gates[request.gate].status == Maintenance {
        return GateUnavailable;
      }
      ghost var rows := ActiveForGate(db.Snapshot(), request.gate);
      var active := db.ListActiveAllocationsForGate(request.gate);
      for i := 0 to |active|
        invariant BlockedBy(request, rows[i..]) == BlockedBy(request, rows)
      {
        assert Loads(active[i], rows[i], db.links) && rows[i..][1..] == rows[i + 1..];
        if active[i].flightId == request.flight {
          continue;
        }
        if Overlaps(request.start, request.end, active[i].windowStart, active[i].windowEnd) {
          return GateUnavailable;
        }
      }
      conflict := NoConflict;
    }

    method CheckVehicle(request: Request) returns (conflict: ConflictType)
      requires request.vehicle in db.vehicles
      ensures conflict == Conflicts.CheckVehicle(db.Snapshot(), request)
    {
      if db.vehicles[request.vehicle].status == Maintenance {
        return VehicleUnavailable;
      }
      ghost var rows := ActiveForVehicle(db.Snapshot(), request.vehicle);
      var active := db.ListActiveAllocationsForVehicle(request.vehicle);
      for i := 0 to |active|
        invariant BlockedBy(request, rows[i..]) == BlockedBy(request, rows)
      {
        assert Loads(active[i], rows[i], db.links) && rows[i..][1..] == rows[i + 1..];
        if active[i].flightId == request.flight {
          continue;
        }
        if Overlaps(request.start, request.end, active[i].windowStart, active[i].windowEnd) {
          return VehicleUnavailable;
        }
      }
      conflict := NoConflict;
    }

    method CheckGroundStaff(request: Request) returns (conflict: ConflictType)
      requires AllKnown(db.staff, request.staff)
      ensures conflict == Conflicts.CheckGroundStaff(db.Snapshot(), request, request.staff)
    {
      var staff := request.staff;
      for i := 0 to |staff|
        invariant AllKnown(db.staff, staff[i..])
        invariant Conflicts.CheckGroundStaff(db.Snapshot(), request, staff[i..])
               == Conflicts.CheckGroundStaff(db.Snapshot(), request, staff)
      {
        assert staff[i..][1..] == staff[i + 1..];
        if db.staff[staff[i]].status == Maintenance {
          return GroundStaffUnavailable;
        }
        ghost var rows := ActiveForStaff(db.Snapshot(), staff[i]);
        var active := db.ListActiveAllocationsForStaff(staff[i]);
        for j := 0 to |active|
          invariant BlockedBy(request, rows[j..]) == BlockedBy(request, rows)
        {
          assert Loads(active[j], rows[j], db.links) && rows[j..][1..] == rows[j + 1..];
          if active[j].flightId == request.flight {
            continue;
          }
          if Overlaps(request.start, request.end, active[j].windowStart, active[j].windowEnd) {
            return GroundStaffUnavailable;
          }
        }
      }
      conflict := NoConflict;
    }
  }

  class AllocationService {
    const db: AirportDatabase
    const conflictDetector: ConflictDetector
    const allocationIdGen: IdGenerator

    constructor (db: AirportDatabase)
      ensures this.db == conflictDetector.db == db && fresh(allocationIdGen)
      ensures allocationIdGen.prefix == "AL" && allocationIdGen.counter == 1
    {
      this.db := db;
      conflictDetector := new ConflictDetector(db);
      allocationIdGen := new IdGenerator("AL", 1);
    }

    /** The loop that sets the status of each staff member in turn. */
    method MarkStaff(staffIds: seq<Id>, status: ResourceStatus)
      modifies db
      ensures db.Snapshot() == old(db.Snapshot()).(staff := WithStatus(old(db.staff), Members(staffIds), status))
    {
      assert WithStatus(db.staff, {}, status) == db.staff;
      for i := 0 to |staffIds|
        invariant db.Snapshot()
               == old(db.Snapshot()).(staff := WithStatus(old(db.staff), Members(staffIds[..i]), status))
      {
        assert staffIds[..i + 1] == staffIds[..i] + [staffIds[i]];
        assert Members(staffIds[..i + 1]) == Members(staffIds[..i]) + {staffIds[i]};
        assert WithStatus(WithStatus(old(db.staff), Members(staffIds[..i]), status), {staffIds[i]}, status)
            == WithStatus(old(db.staff), Members(staffIds[..i + 1]), status);
        db.UpdateGroundStaffResourceStatus(staffIds[i], status);
      }
      assert staffIds[..|staffIds|] == staffIds;
    }

    /** Marks everything that is requested, and then stores the allocation. */
    method Commit(allocationId: Id, request: Request) returns (ok: bool)
      modifies db
      ensures var marked :=
                Mark(old(db.Snapshot()), request.gate, request.vehicle, Members(request.staff), Occupied);
              (db.Snapshot(), ok) == InsertAllocation(marked, RowFor(allocationId, request), request.staff)
    {
      var allocation := new Allocation(allocationId, request.flight, request.gate, request.vehicle, request.staff,
                                       request.start, request.end);
      db.UpdateGateStatus(request.gate, Occupied);
      db.UpdateVehicleStatus(request.vehicle, Occupied);
      MarkStaff(request.staff, Occupied);
      ok := db.SaveAllocation(allocation);
    }

    method Allocate(request: Request) returns (outcome: Outcome)
      requires allocationIdGen.prefix == "AL" && conflictDetector.db == db
      modifies db, allocationIdGen
      ensures forall c, d, e: nat ::
        (State(db.Snapshot(), allocationIdGen.counter, c, d, e), outcome)
        == Transitions.Allocate(State(old(db.Snapshot()), old(allocationIdGen.counter), c, d, e), request)
    {
      var flight := db.FindFlightById(request.flight);
      if flight == null {
        return Rejected(InvalidResource);
      }
      if !Allocatable(flight.status) {
        return Rejected(InvalidFlightState);
      }
      var conflict := conflictDetector.CheckConflict(request);
      if conflict != NoConflict {
        return Rejected(conflict);
      }
      var allocationId := allocationIdGen.Next();
      var ok := Commit(allocationId, request);
      outcome := if ok then Allocated(allocationId) else Thrown(DatabaseFailure);
    }

    method Release(allocationId: Id) returns (outcome: Outcome)
      modifies db
      ensures (db.Snapshot(), outcome) == Transitions.Release(old(db.Snapshot()), allocationId)
    {
      var allocation := db.FindAllocationById(allocationId);
      if allocation == null {
        return Thrown(NotFound);
      }
      if allocation.status == Released {
        return Thrown(Validation);
      }
      db.UpdateGateStatus(allocation.gateId, Available);
      db.UpdateVehicleStatus(allocation.vehicleId, Available);
      MarkStaff(allocation.groundStaffIds, Available);
      db.UpdateAllocationStatus(allocationId, Released);
      outcome := Done;
    }
  }

  class DelayService {
    const db: AirportDatabase
    const flightService: FlightService
    const conflictDetector: ConflictDetector
    const delayIdGen: IdGenerator

    constructor (db: AirportDatabase, flightService: FlightService)
      ensures this.db == conflictDetector.db == db && this.flightService == flightService && fresh(delayIdGen)
      ensures delayIdGen.prefix == "DL" && delayIdGen.counter == 1
    {
      this.db, this.flightService := db, flightService;
      conflictDetector := new ConflictDetector(db);
      delayIdGen := new IdGenerator("DL", 1);
    }

    /** The re-check answers the same for a record's staff in any order. */
    static lemma ProbeIgnoresOrder(t: Tables, row: AllocationRow, staffIds: seq<Id>, start: int, end: int)
      requires BookingKeys(t) && Members(staffIds) == StaffOf(t.links, row.id)
      ensures Conflicts.CheckConflict(t, Request(row.flight, row.gate, row.vehicle, staffIds, start, end))
           == Conflicts.CheckConflict(t, Probe(t, row, start, end))
    {
      var probe := Request(row.flight, row.gate, row.vehicle, staffIds, start, end);
      CheckIgnoresOrder(t, t, probe, Probe(t, row, start, end));
    }

    /** The check of one allocation at the new window. */
    method ProbeAgain(allocation: Allocation, ghost row: AllocationRow, arrival: int, departure: int)
      returns (conflict: ConflictType)
      requires BookingKeys(db.Snapshot()) && conflictDetector.db == db && Loads(allocation, row, db.links)
      ensures conflict == Conflicts.CheckConflict(db.Snapshot(), Probe(db.Snapshot(), row, arrival, departure))
    {
      var probe := Request(allocation.flightId, allocation.gateId, allocation.vehicleId, allocation.groundStaffIds,
                           arrival, departure);
      ProbeIgnoresOrder(db.Snapshot(), row, allocation.groundStaffIds, arrival, departure);
      conflict := conflictDetector.CheckConflict(probe);
    }

    /** The re-check loop: one warning for each active allocation in conflict, in table order. */
    method Recheck(flightId: Id, arrival: int, departure: int) returns (warnings: seq<Warning>)
      requires BookingKeys(db.Snapshot()) && conflictDetector.db == db
      ensures warnings == Warnings(db.Snapshot(), AllocationsForFlight(db.Snapshot(), flightId), arrival, departure)
    {
      var t := db.Snapshot();
      ghost var rows := AllocationsForFlight(t, flightId);
      SelectKeeps(t.allocations, (a: AllocationRow) => a.flight == flightId);
      var allocations := db.ListAllocationsForFlight(flightId);
      warnings := [];
      for i := 0 to |allocations|
        invariant LoadsAll(allocations, rows, t.links)
        invariant warnings == Warnings(t, rows[..i], arrival, departure)
      {
        assert rows[..i + 1][..i] == rows[..i];
        assert rows[i] in rows;
        assert Loads(allocations[i], rows[i], t.links);
        if allocations[i].status != Success {
          continue;
        }
        var conflict := ProbeAgain(allocations[i], rows[i], arrival, departure);
        if conflict != NoConflict {
          warnings := warnings + [Warning(allocations[i].allocationId, conflict)];
        }
      }
      assert rows[..|rows|] == rows;
    }

    /** Shifts the flight's schedule and re-checks its allocations at the new window. */
    method Reschedule(flightId: Id, delayId: Id, delayMinutes: int) returns (outcome: Outcome)
      requires BookingKeys(db.Snapshot()) && conflictDetector.db == db
      modifies db
      ensures (db.Snapshot(), outcome) == Transitions.Reschedule(old(db.Snapshot()), flightId, delayId, delayMinutes)
    {
      var schedule := db.FindScheduleByFlightId(flightId);
      if schedule == null {
        return Thrown(NotFound);
      }
      schedule.ApplyDelay(delayMinutes);
      db.UpdateScheduleEstimates(flightId, schedule.estimatedArrival, schedule.estimatedDeparture);
      var warnings := Recheck(flightId, schedule.estimatedArrival, schedule.estimatedDeparture);
      outcome := DelayApplied(delayId, schedule.estimatedArrival, schedule.estimatedDeparture, warnings);
    }

    /** Sets the flight Delayed and, if that is allowed, reschedules it. */
    method Postpone(flightId: Id, delayId: Id, delayMinutes: int) returns (outcome: Outcome)
      requires flightService.db == conflictDetector.db == db && BookingKeys(db.Snapshot())
      modifies db
      ensures (db.Snapshot(), outcome) == Transitions.Postpone(old(db.Snapshot()), flightId, delayId, delayMinutes)
    {
      outcome := flightService.TransitionFlightStatus(flightId, Delayed);
      if outcome != Done {
        return;
      }
      outcome := Reschedule(flightId, delayId, delayMinutes);
    }

    method ApplyDelay(flightId: Id, reason: DelayReason, delayMinutes: int, notes: string) returns (outcome: Outcome)
      requires delayIdGen.prefix == "DL" && flightService.db == conflictDetector.db == db && BookingKeys(db.Snapshot())
      modifies db, delayIdGen
      ensures forall a, c, e: nat ::
        (State(db.Snapshot(), a, c, delayIdGen.counter, e), outcome)
        == Transitions.ApplyDelay(State(old(db.Snapshot()), a, c, old(delayIdGen.counter), e),
                                  flightId, reason, delayMinutes, notes)
    {
      if delayMinutes <= 0 {
        return Thrown(Validation);
      }
      var flight := flightService.GetFlight(flightId);
      if flight == null {
        return Thrown(NotFound);
      }
      var delayId := delayIdGen.Next();
      var saved := db.SaveDelay(DelayRow(delayId, flightId, reason, delayMinutes, notes));
      if !saved {
        return Thrown(DatabaseFailure);
      }
      outcome := Postpone(flightId, delayId, delayMinutes);
    }
  }

  class EmergencyService {
    const db: AirportDatabase
    const flightService: FlightService
    const emergencyIdGen: IdGenerator

    constructor (db: AirportDatabase, flightService: FlightService)
      ensures this.db == db && this.flightService == flightService && fresh(emergencyIdGen)
      ensures emergencyIdGen.prefix == "EM" && emergencyIdGen.counter == 1
    {
      this.db, this.flightService := db, flightService;
      emergencyIdGen := new IdGenerator("EM", 1);
    }

    method DeclareEmergency(flightId: Id, reason: string, now: int) returns (outcome: Outcome)
      requires emergencyIdGen.prefix == "EM" && flightService.db == db
      modifies db, emergencyIdGen
      ensures forall a, c, d: nat ::
        (State(db.Snapshot(), a, c, d, emergencyIdGen.counter), outcome)
        == Transitions.DeclareEmergency(State(old(db.Snapshot()), a, c, d, old(emergencyIdGen.counter)),
                                        flightId, reason, now)
    {
      outcome := flightService.TransitionFlightStatus(flightId, EmergencyLanding);
      if outcome != Done {
        return;
      }
      var emergencyId := emergencyIdGen.Next();
      var emergency := new Emergency(emergencyId, flightId, reason, now);
      var saved := db.SaveEmergency(emergency);
      outcome := if saved then EmergencyDeclared(emergencyId) else Thrown(DatabaseFailure);
    }

    method RecordLanding(emergencyId: Id, now: int) returns (outcome: Outcome)
      modifies db
      ensures (db.Snapshot(), outcome) == Transitions.RecordLanding(old(db.Snapshot()), emergencyId, now)
    {
      var emergency := GetEmergency(emergencyId);
      if emergency == null {
        return Thrown(NotFound);
      }
      emergency.RecordLanding(now);
      db.UpdateEmergency(emergency);
      outcome := Done;
    }

    method BeginGroundHandling(flightId: Id, emergencyId: Id) returns (outcome: Outcome)
      requires flightService.db == db
      modifies db
      ensures (db.Snapshot(), outcome) == Transitions.BeginGroundHandling(old(db.Snapshot()), flightId, emergencyId)
    {
      var emergency := GetEmergency(emergencyId);
      if emergency == null {
        return Thrown(NotFound);
      }
      if emergency.flightId != flightId {
        return Thrown(Validation);
      }
      outcome := flightService.TransitionFlightStatus(flightId, GroundOperations);
      if outcome != Done {
        return;
      }
      emergency.UpdateStatus(GroundHandling);
      db.UpdateEmergency(emergency);
    }

    method ResolveEmergency(emergencyId: Id) returns (outcome: Outcome)
      modifies db
      ensures (db.Snapshot(), outcome) == Transitions.ResolveEmergency(old(db.Snapshot()), emergencyId)
    {
      var emergency := GetEmergency(emergencyId);
      if emergency == null {
        return Thrown(NotFound);
      }
      emergency.UpdateStatus(Resolved);
      db.UpdateEmergency(emergency);
      outcome := Done;
    }

    /** A linear search; null stands for the raised NotFound. */
    method GetEmergency(emergencyId: Id) returns (emergency: Emergency?)
      ensures emergency == null <==> FindEmergency(db.emergencies, emergencyId).None?
      ensures emergency != null ==>
        fresh(emergency) && emergency.Row() == FindEmergency(db.emergencies, emergencyId).value
    {
      var all := db.ListAllEmergencies();
      for i := 0 to |all|
        invariant FindEmergency(db.emergencies, emergencyId) == FindEmergency(db.emergencies[i..], emergencyId)
      {
        assert db.emergencies[i..][1..] == db.emergencies[i + 1..];
        if all[i].emergencyId == emergencyId {
          return all[i];
        }
      }
      emergency := null;
    }
  }
}
