/** The repository: typed operations over the tables, each the meaning of its SQL statements.

    A statement that breaks a key raises and changes nothing by itself; the flag `ok` is false then.
    Rows come back in insertion order, except the staff of an allocation, whose order is left open. */
module Database {
  import opened Domain
  import opened Lifecycle
  import opened Models
  import opened Schema
  import opened Transitions

  /** A loaded record: the row's fields, with the linked staff in some order. */
  ghost predicate Loads(a: Allocation, row: AllocationRow, links: seq<LinkRow>)
    reads a
  {
    && a.Row() == row.(status := if row.status == Released then Released else Success)
    && Members(a.groundStaffIds) == StaffOf(links, row.id)
  }

  ghost predicate LoadsAll(found: seq<Allocation>, rows: seq<AllocationRow>, links: seq<LinkRow>)
    reads found
  {
    |found| == |rows| && forall i :: 0 <= i < |rows| ==> Loads(found[i], rows[i], links)
  }

  class AirportDatabase {
    var flights: map<Id, FlightRow>
    var schedules: seq<ScheduleRow>
    var gates: map<Id, ResourceRow>
    var vehicles: map<Id, ResourceRow>
    var staff: map<Id, ResourceRow>
    var allocations: seq<AllocationRow>
    var links: seq<LinkRow>
    var delays: seq<DelayRow>
    var emergencies: seq<EmergencyRow>

    function Snapshot(): Tables
      reads this
    {
      Tables(flights, schedules, gates, vehicles, staff, allocations, links, delays, emergencies)
    }

    constructor ()
      ensures Snapshot() == EMPTY
    {
      flights, schedules, gates, vehicles, staff := map[], [], map[], map[], map[];
      allocations, links, delays, emergencies := [], [], [], [];
    }

    // ---------------------------------------------------------------- Flights

    method SaveFlight(flight: Flight)
      modifies this
      ensures Snapshot() == old(Snapshot()).(flights := old(flights)[flight.flightId :=
        FlightRow(flight.flightNumber, flight.origin, flight.destination, flight.aircraftType, flight.status)])
    {
      flights := flights[flight.flightId :=
        FlightRow(flight.flightNumber, flight.origin, flight.destination, flight.aircraftType, flight.status)];
    }

    method UpdateFlightStatus(flightId: Id, status: FlightStatus)
      modifies this
      ensures Snapshot() == WithFlightStatus(old(Snapshot()), flightId, status)
    {
      if flightId in flights {
        flights := flights[flightId := flights[flightId].(status := status)];
      }
    }

    method FindFlightById(flightId: Id) returns (flight: Flight?)
      ensures flight == null <==> flightId !in flights
      ensures flight != null ==>
        && fresh(flight) && flight.flightId == flightId
        && flights[flightId] == FlightRow(flight.flightNumber, flight.origin, flight.destination, flight.aircraftType,
                                          flight.status)
    {
      if flightId !in flights {
        return null;
      }
      var row := flights[flightId];
      flight := new Flight(flightId, row.number, row.origin, row.destination, row.aircraft);
      flight.SetStatusUnchecked(row.status);
    }

    // -------------------------------------------------------------- Schedules

    /** An unused id appends the schedule. A used id only has the estimates of its row overwritten:
        that row keeps its flight and its scheduled times, and no row is added. */
    method SaveFlightSchedule(schedule: FlightSchedule)
      modifies this
      ensures Snapshot() == old(Snapshot()).(schedules := schedules)
      ensures schedules == old(schedules) + [schedule.Row()]
         <==> forall s :: s in old(schedules) ==> s.id != schedule.scheduleId
      ensures (exists s :: s in old(schedules) && s.id == schedule.scheduleId) ==> |schedules| == |old(schedules)|
      ensures forall i :: 0 <= i < |old(schedules)| ==>
        var row := old(schedules)[i];
        schedules[i] == if row.id != schedule.scheduleId then row else
          row.(estimatedArrival := schedule.estimatedArrival, estimatedDeparture := schedule.estimatedDeparture)
    {
      schedules := UpsertSchedule(schedules, schedule.Row());
    }

    method UpdateScheduleEstimates(flightId: Id, arrival: int, departure: int)
      modifies this
      ensures Snapshot() == old(Snapshot()).(schedules := WithEstimates(old(schedules), flightId, arrival, departure))
    {
      schedules := WithEstimates(schedules, flightId, arrival, departure);
    }

    method FindScheduleByFlightId(flightId: Id) returns (schedule: FlightSchedule?)
      ensures schedule == null <==> FindSchedule(schedules, flightId).None?
      ensures schedule != null ==> fresh(schedule) && schedule.Row() == FindSchedule(schedules, flightId).value
    {
      var found := FindSchedule(schedules, flightId);
      if found.None? {
        return null;
      }
      var row := found.value;
      schedule := new FlightSchedule(row.id, row.flight, row.scheduledArrival, row.scheduledDeparture);
      schedule.SetEstimates(row.estimatedArrival, row.estimatedDeparture);
    }

    // -------------------------------------------------------------- Resources

    method SaveGate(id: Id, terminal: string)
      modifies this
      ensures Snapshot() == old(Snapshot()).(gates := SaveResource(old(gates), id, terminal))
    {
      gates := SaveResource(gates, id, terminal);
    }

    method SaveVehicle(id: Id, vehicleClass: string)
      modifies this
      ensures Snapshot() == old(Snapshot()).(vehicles := SaveResource(old(vehicles), id, vehicleClass))
    {
      vehicles := SaveResource(vehicles, id, vehicleClass);
    }

    method SaveGroundStaffResource(id: Id, specialization: string)
      modifies this
      ensures Snapshot() == old(Snapshot()).(staff := SaveResource(old(staff), id, specialization))
    {
      staff := SaveResource(staff, id, specialization);
    }

    method UpdateGateStatus(id: Id, status: ResourceStatus)
      modifies this
      ensures Snapshot() == old(Snapshot()).(gates := WithStatus(old(gates), {id}, status))
    {
      if id in gates {
        gates := gates[id := gates[id].(status := status)];
      }
      assert gates == WithStatus(old(gates), {id}, status);
    }

    method UpdateVehicleStatus(id: Id, status: ResourceStatus)
      modifies this
      ensures Snapshot() == old(Snapshot()).(vehicles := WithStatus(old(vehicles), {id}, status))
    {
      if id in vehicles {
        vehicles := vehicles[id := vehicles[id].(status := status)];
      }
      assert vehicles == WithStatus(old(vehicles), {id}, status);
    }

    method UpdateGroundStaffResourceStatus(id: Id, status: ResourceStatus)
      modifies this
      ensures Snapshot() == old(Snapshot()).(staff := WithStatus(old(staff), {id}, status))
    {
      if id in staff {
        staff := staff[id := staff[id].(status := status)];
      }
      assert staff == WithStatus(old(staff), {id}, status);
    }

    // ------------------------------------------------------------ Allocations

    /** The row, then one link per staff member, with no transaction around them. */
    method SaveAllocation(allocation: Allocation) returns (ok: bool)
      modifies this
      ensures (Snapshot(), ok) == InsertAllocation(old(Snapshot()), allocation.Row(), allocation.groundStaffIds)
    {
      var row := allocation.Row();
      if !AllocationKeysHold(Snapshot(), row) {
        return false;
      }
      allocations := allocations + [row];
      var staffIds := allocation.groundStaffIds;
      var i := 0;
      while i < |staffIds|
        invariant 0 <= i <= |staffIds|
        invariant Snapshot() == old(Snapshot()).(allocations := old(allocations) + [row], links := links)
        invariant InsertLinks(links, staff.Keys, row.id, staffIds[i..])
               == InsertLinks(old(links), staff.Keys, row.id, staffIds)
      {
        var link := LinkRow(row.id, staffIds[i]);
        if staffIds[i] !in staff || link in links {
          return false;
        }
        assert staffIds[i..][1..] == staffIds[i + 1..];
        links := links + [link];
        i := i + 1;
      }
      ok := true;
    }

    method UpdateAllocationStatus(allocationId: Id, status: AllocationStatus)
      modifies this
      ensures Snapshot() ==
        old(Snapshot()).(allocations := WithAllocationStatus(old(allocations), allocationId, status))
    {
      allocations := WithAllocationStatus(allocations, allocationId, status);
    }

    method LoadStaffForAllocation(allocationId: Id) returns (staffIds: seq<Id>)
      ensures Members(staffIds) == StaffOf(links, allocationId)
    {
      staffIds := [];
      for i := 0 to |links|
        invariant Members(staffIds) == StaffOf(links[..i], allocationId)
      {
        assert links[..i + 1] == links[..i] + [links[i]];
        if links[i].allocation == allocationId {
          assert Members(staffIds + [links[i].staff]) == Members(staffIds) + {links[i].staff};
          staffIds := staffIds + [links[i].staff];
        }
      }
      assert links[..|links|] == links;
    }

    method RowToAllocation(row: AllocationRow) returns (allocation: Allocation)
      ensures fresh(allocation) && Loads(allocation, row, links)
    {
      var staffIds := LoadStaffForAllocation(row.id);
      allocation := new Allocation(row.id, row.flight, row.gate, row.vehicle, staffIds, row.start, row.end);
      if row.status == Released {
        allocation.Release();
      }
    }

    method FindAllocationById(allocationId: Id) returns (allocation: Allocation?)
      ensures allocation == null <==> FindAllocation(allocations, allocationId).None?
      ensures allocation != null ==>
        fresh(allocation) && Loads(allocation, FindAllocation(allocations, allocationId).value, links)
    {
      var found := FindAllocation(allocations, allocationId);
      if found.None? {
        return null;
      }
      allocation := RowToAllocation(found.value);
    }

    method ListActiveAllocationsForGate(gateId: Id) returns (result: seq<Allocation>)
      ensures fresh(result) && LoadsAll(result, ActiveForGate(Snapshot(), gateId), links)
    {
      result := [];
      ghost var keep := (a: AllocationRow) => a.gate == gateId && a.status == Success;
      for i := 0 to |allocations|
        invariant fresh(result) && LoadsAll(result, Select(allocations[..i], keep), links)
      {
        SelectPrefix(allocations, i, keep);
        if allocations[i].gate == gateId && allocations[i].status == Success {
          var a := RowToAllocation(allocations[i]);
          result := result + [a];
        }
      }
      assert allocations[..|allocations|] == allocations;
    }

    method ListActiveAllocationsForVehicle(vehicleId: Id) returns (result: seq<Allocation>)
      ensures fresh(result) && LoadsAll(result, ActiveForVehicle(Snapshot(), vehicleId), links)
    {
      result := [];
      ghost var keep := (a: AllocationRow) => a.vehicle == vehicleId && a.status == Success;
      for i := 0 to |allocations|
        invariant fresh(result) && LoadsAll(result, Select(allocations[..i], keep), links)
      {
        SelectPrefix(allocations, i, keep);
        if allocations[i].vehicle == vehicleId && allocations[i].status == Success {
          var a := RowToAllocation(allocations[i]);
          result := result + [a];
        }
      }
      assert allocations[..|allocations|] == allocations;
    }

    /** The inner side of the join: the row is pushed once for every link row that matches it. */
    method RowPerLink(row: AllocationRow, staffId: Id) returns (result: seq<Allocation>)
      ensures fresh(result) && LoadsAll(result, seq(multiset(links)[LinkRow(row.id, staffId)], _ => row), links)
    {
      result := [];
      for i := 0 to |links|
        invariant fresh(result)
        invariant LoadsAll(result, seq(multiset(links[..i])[LinkRow(row.id, staffId)], _ => row), links)
      {
        assert links[..i + 1] == links[..i] + [links[i]];
        if links[i] == LinkRow(row.id, staffId) {
          var a := RowToAllocation(row);
          result := result + [a];
        }
      }
      assert links[..|links|] == links;
    }

    method ListActiveAllocationsForStaff(staffId: Id) returns (result: seq<Allocation>)
      ensures fresh(result) && LoadsAll(result, ActiveForStaff(Snapshot(), staffId), links)
    {
      result := [];
      for i := 0 to |allocations|
        invariant fresh(result) && LoadsAll(result, StaffJoin(allocations[..i], links, staffId), links)
      {
        assert allocations[..i + 1][..i] == allocations[..i];
        if allocations[i].status == Success {
          var more := RowPerLink(allocations[i], staffId);
          result := result + more;
        }
      }
      assert allocations[..|allocations|] == allocations;
    }

    method ListAllocationsForFlight(flightId: Id) returns (result: seq<Allocation>)
      ensures fresh(result) && LoadsAll(result, AllocationsForFlight(Snapshot(), flightId), links)
    {
      result := [];
      ghost var keep := (a: AllocationRow) => a.flight == flightId;
      for i := 0 to |allocations|
        invariant fresh(result) && LoadsAll(result, Select(allocations[..i], keep), links)
      {
        SelectPrefix(allocations, i, keep);
        if allocations[i].flight == flightId {
          var a := RowToAllocation(allocations[i]);
          result := result + [a];
        }
      }
      assert allocations[..|allocations|] == allocations;
    }

    // -------------------------------------------------- Delays and emergencies

    method SaveDelay(row: DelayRow) returns (ok: bool)
      modifies this
      ensures ok == (row.flight in old(flights) && forall d :: d in old(delays) ==> d.id != row.id)
      ensures Snapshot() == old(Snapshot()).(delays := if ok then old(delays) + [row] else old(delays))
    {
      ok := row.flight in flights && forall d | d in delays :: d.id != row.id;
      if ok {
        delays := delays + [row];
      }
    }

    method SaveEmergency(emergency: Emergency) returns (ok: bool)
      modifies this
      ensures ok == (emergency.flightId in old(flights)
                     && forall e :: e in old(emergencies) ==> e.id != emergency.emergencyId)
      ensures Snapshot() == old(Snapshot()).(emergencies :=
        if ok then old(emergencies) + [emergency.Row()] else old(emergencies))
    {
      ok := emergency.flightId in flights && forall e | e in emergencies :: e.id != emergency.emergencyId;
      if ok {
        emergencies := emergencies + [emergency.Row()];
      }
    }

    method UpdateEmergency(emergency: Emergency)
      modifies this
      ensures Snapshot() == old(Snapshot()).(emergencies :=
        WithEmergency(old(emergencies), emergency.emergencyId, emergency.landingTime, emergency.status))
    {
      emergencies := WithEmergency(emergencies, emergency.emergencyId, emergency.landingTime, emergency.status);
    }

    method ListAllEmergencies() returns (result: seq<Emergency>)
      ensures fresh(result) && |result| == |emergencies|
      ensures forall i :: 0 <= i < |result| ==> result[i].Row() == emergencies[i]
    {
      result := [];
      for i := 0 to |emergencies|
        invariant fresh(result) && |result| == i
        invariant forall j :: 0 <= j < i ==> result[j].Row() == emergencies[j]
      {
        var row := emergencies[i];
        var e := new Emergency(row.id, row.flight, row.reason, row.declaredAt);
        if row.landingTime != 0 {
          e.RecordLanding(row.landingTime);
        }
        e.UpdateStatus(row.status);
        result := result + [e];
      }
    }

    // --------------------------------------------------------------- Start-up

    /** Does nothing unless there are no flights at all. */
    method SeedSampleDataIfEmpty(day: int)
      modifies this
      ensures Snapshot() == Seed(old(Snapshot()), day)
    {
      if flights != map[] {
        return;
      }
      SaveGate("G01", "A");
      SaveGate("G02", "A");
      SaveGate("G03", "B");
      SaveVehicle("V01", "Baggage Tractor");
      SaveVehicle("V02", "Fuel Truck");
      SaveGroundStaffResource("GS01", "Baggage Handling");
      SaveGroundStaffResource("GS02", "Ramp Agent");
      SaveGroundStaffResource("GS03", "Cleaning Crew");
      SaveGroundStaffResource("GS04", "Catering Crew");
      SampleResourcesSaved(old(Snapshot()), Snapshot());
      SeedFlights(day);
    }

    /** Saving the sample resources one by one is saving the sample lists. */
    static lemma SampleResourcesSaved(t: Tables, t': Tables)
      requires t'.gates == SaveResource(SaveResource(SaveResource(t.gates, "G01", "A"), "G02", "A"), "G03", "B")
      requires t'.vehicles == SaveResource(SaveResource(t.vehicles, "V01", "Baggage Tractor"), "V02", "Fuel Truck")
      requires t'.staff ==
        SaveResource(SaveResource(SaveResource(SaveResource(t.staff, "GS01", "Baggage Handling"), "GS02", "Ramp Agent"),
                                  "GS03", "Cleaning Crew"), "GS04", "Catering Crew")
      ensures t'.gates == SaveResources(t.gates, SAMPLE_GATES)
      ensures t'.vehicles == SaveResources(t.vehicles, SAMPLE_VEHICLES)
      ensures t'.staff == SaveResources(t.staff, SAMPLE_STAFF)
    {
      SaveTwo(SaveResource(t.gates, "G01", "A"), ("G02", "A"), ("G03", "B"));
      assert SAMPLE_GATES[1..] == [("G02", "A"), ("G03", "B")];
      SaveTwo(t.vehicles, ("V01", "Baggage Tractor"), ("V02", "Fuel Truck"));
      var two := SaveResource(SaveResource(t.staff, "GS01", "Baggage Handling"), "GS02", "Ramp Agent");
      SaveTwo(two, ("GS03", "Cleaning Crew"), ("GS04", "Catering Crew"));
      assert SAMPLE_STAFF[1..][1..] == [("GS03", "Cleaning Crew"), ("GS04", "Catering Crew")];
      assert SaveResources(t.staff, SAMPLE_STAFF) == SaveResources(two, SAMPLE_STAFF[1..][1..]);
    }

    static lemma SaveTwo(rows: map<Id, ResourceRow>, a: (Id, string), b: (Id, string))
      ensures SaveResources(rows, [a, b]) == SaveResource(SaveResource(rows, a.0, a.1), b.0, b.1)
    {
      var first := SaveResource(rows, a.0, a.1);
      assert [a, b][1..] == [b] && [b][1..] == [];
      assert SaveResources(first, [b]) == SaveResource(first, b.0, b.1);
    }

    method SeedFlights(day: int)
      requires flights == map[]
      modifies this
      ensures Snapshot() == old(Snapshot()).(flights := SAMPLE_FLIGHTS,
                                             schedules := SaveSchedules(old(schedules), SampleSchedules(day)))
    {
      var f1 := new Flight("FL001", "AI101", "DEL", "BOM", "A320");
      SaveFlight(f1);
      var f2 := new Flight("FL002", "AI202", "BOM", "BLR", "B737");
      SaveFlight(f2);
      var f3 := new Flight("FL003", "AI303", "BLR", "MAA", "A321");
      SaveFlight(f3);
      assert flights == SAMPLE_FLIGHTS;
      SeedSchedules(day);
    }

    method SeedSchedules(day: int)
      modifies this
      ensures Snapshot() == old(Snapshot()).(schedules := SaveSchedules(old(schedules), SampleSchedules(day)))
    {
      var rows := SampleSchedules(day);
      for i := 0 to |rows|
        invariant Snapshot() == old(Snapshot()).(schedules := schedules)
        invariant SaveSchedules(schedules, rows[i..]) == SaveSchedules(old(schedules), rows)
      {
        assert rows[i..][1..] == rows[i + 1..];
        var schedule := new FlightSchedule(rows[i].id, rows[i].flight, rows[i].scheduledArrival,
                                           rows[i].scheduledDeparture);
        assert schedule.Row() == rows[i];
        ghost var before := schedules;
        SaveFlightSchedule(schedule);
        UpsertedRows(before, rows[i], schedules);
      }
    }
  }
}
