/** The running program: the services wired to one database, executing operations one at a time. */
module Airport {
  import opened Schema
  import opened Transitions
  import opened Database
  import opened Services
  import opened Safety

  /** The services of one process. */
  class Process {
    const db: AirportDatabase
    const flights: FlightService
    const resources: ResourceService
    const allocations: AllocationService
    const delays: DelayService
    const emergencies: EmergencyService

    constructor (db: AirportDatabase)
      ensures this.db == db && Valid() && fresh(Generators())
      ensures Now() == INITIAL.(t := db.Snapshot())
    {
      var flightService := new FlightService(db);
      this.db, flights := db, flightService;
      resources := new ResourceService(db);
      allocations := new AllocationService(db);
      delays := new DelayService(db, flightService);
      emergencies := new EmergencyService(db, flightService);
    }

    function Generators(): set<object> {
      {flights.scheduleIdGen, allocations.allocationIdGen, delays.delayIdGen, emergencies.emergencyIdGen}
    }

    /** The services share the database, and each has its own generator with its own prefix. */
    ghost predicate Valid() {
      && flights.db == resources.db == allocations.db == delays.db == emergencies.db == db
      && allocations.conflictDetector.db == delays.conflictDetector.db == db
      && delays.flightService.db == db && emergencies.flightService.db == db
      && flights.scheduleIdGen.prefix == "SC" && allocations.allocationIdGen.prefix == "AL"
      && delays.delayIdGen.prefix == "DL" && emergencies.emergencyIdGen.prefix == "EM"
    }

    function Now(): State
      reads db, Generators()
    {
      State(db.Snapshot(), allocations.allocationIdGen.counter, flights.scheduleIdGen.counter,
            delays.delayIdGen.counter, emergencies.emergencyIdGen.counter)
    }

    method ExecuteResource(op: Op) returns (outcome: Outcome)
      requires Valid() && IsResourceOp(op)
      modifies db
      ensures (Now(), outcome) == Step(old(Now()), op)
    {
      match op
      case AddGateOp(id, terminal) => outcome := resources.AddGate(id, terminal);
      case AddVehicleOp(id, vehicleClass) => outcome := resources.AddVehicle(id, vehicleClass);
      case AddStaffOp(id, specialization) => outcome := resources.AddGroundStaffResource(id, specialization);
      case SetGateOp(id, status) => outcome := resources.SetGateStatus(id, status);
      case SetVehicleOp(id, status) => outcome := resources.SetVehicleStatus(id, status);
      case SetStaffOp(id, status) => outcome := resources.SetGroundStaffStatus(id, status);
    }

    method ExecuteFlight(op: Op) returns (outcome: Outcome)
      requires Valid() && IsFlightOp(op) && BookingKeys(db.Snapshot())
      modifies db, Generators()
      ensures (Now(), outcome) == Step(old(Now()), op)
    {
      match op
      case CreateFlightOp(flight, number, origin, destination, aircraft, arrival, departure) =>
        outcome := flights.CreateFlight(flight, number, origin, destination, aircraft, arrival, departure);
      case TransitionOp(flight, to) => outcome := flights.TransitionFlightStatus(flight, to);
      case ApplyDelayOp(flight, reason, minutes, notes) => outcome := delays.ApplyDelay(flight, reason, minutes, notes);
    }

    method ExecuteAllocation(op: Op) returns (outcome: Outcome)
      requires Valid() && IsAllocationOp(op)
      modifies db, Generators()
      ensures (Now(), outcome) == Step(old(Now()), op)
    {
      match op
      case AllocateOp(request) => outcome := allocations.Allocate(request);
      case ReleaseOp(allocation) => outcome := allocations.Release(allocation);
    }

    method ExecuteEmergency(op: Op) returns (outcome: Outcome)
      requires Valid() && IsEmergencyOp(op)
      modifies db, Generators()
      ensures (Now(), outcome) == Step(old(Now()), op)
    {
      match op
      case DeclareEmergencyOp(flight, cause, now) => outcome := emergencies.DeclareEmergency(flight, cause, now);
      case RecordLandingOp(emergency, now) => outcome := emergencies.RecordLanding(emergency, now);
      case BeginGroundHandlingOp(flight, emergency) => outcome := emergencies.BeginGroundHandling(flight, emergency);
      case ResolveEmergencyOp(emergency) => outcome := emergencies.ResolveEmergency(emergency);
    }

    /** Dispatches to the service in charge. */
    method Execute(op: Op) returns (outcome: Outcome)
      requires Valid() && !op.RestartOp? && BookingKeys(db.Snapshot())
      modifies db, Generators()
      ensures (Now(), outcome) == Step(old(Now()), op)
    {
      if IsResourceOp(op) {
        outcome := ExecuteResource(op);
      } else if IsFlightOp(op) {
        outcome := ExecuteFlight(op);
      } else if IsAllocationOp(op) {
        outcome := ExecuteAllocation(op);
      } else if IsEmergencyOp(op) {
        outcome := ExecuteEmergency(op);
      } else {
        db.SeedSampleDataIfEmpty(op.day);
        outcome := Done;
      }
    }
  }

  /** One database file over its whole life, and the process that currently works on it. The ghost
      run ties the concrete objects to the transition system, so that all that is proved of runs
      holds of them. */
  class Program {
    const db: AirportDatabase
    var process: Process
    ghost var run: Run

    /** A process on an empty file. */
    constructor ()
      ensures Valid() && run == Run([INITIAL], [], [])
      ensures fresh(db) && fresh(process.Generators())
    {
      var file := new AirportDatabase();
      db := file;
      process := new Process(file);
      run := Run([INITIAL], [], []);
    }

    ghost predicate Valid()
      reads this, db, process.Generators()
    {
      process.db == db && process.Valid() && IsRun(run, INITIAL) && process.Now() == Final(run)
    }

    /** Whatever has been executed, the database books nothing twice. */
    lemma NothingBookedTwice()
      requires Valid()
      ensures NoDoubleBooking(BookingMap(db.Snapshot()))
    {
      RunIsSafe(run);
    }

    /** One operation of the running process. */
    method Execute(op: Op) returns (outcome: Outcome)
      requires Valid() && !op.RestartOp?
      modifies `run, db, process.Generators()
      ensures Valid() && run == Extended(old(run), op, process.Now(), outcome)
      ensures (process.Now(), outcome) == Step(old(process.Now()), op)
    {
      assert BookingKeys(db.Snapshot()) by { RunKeepsKeys(run); }
      outcome := process.Execute(op);
      Logged(run, INITIAL, op, process.Now(), outcome);
      run := Extended(run, op, process.Now(), outcome);
    }

    /** What every start does first: the sample data is saved if there are no flights. */
    method SeedIfEmpty(day: int)
      requires Valid()
      modifies `run, db, process.Generators()
      ensures Valid() && run == Extended(old(run), SeedOp(day), process.Now(), Done)
    {
      var _ := Execute(SeedOp(day));
    }

    /** The first start on an empty file: a process is made, and the sample data is saved. */
    static method Start(day: int) returns (program: Program)
      ensures fresh(program) && program.Valid()
      ensures program.run == Extended(Run([INITIAL], [], []), SeedOp(day), program.process.Now(), Done)
    {
      program := new Program();
      program.SeedIfEmpty(day);
    }

    /** The process ends, and a new one is made on the same database. */
    method NewProcess()
      requires Valid()
      modifies this
      ensures Valid() && fresh(process.Generators())
      ensures run == Extended(old(run), RestartOp, INITIAL.(t := db.Snapshot()), Done)
    {
      process := new Process(db);
      Logged(run, INITIAL, RestartOp, process.Now(), Done);
      run := Extended(run, RestartOp, process.Now(), Done);
    }

    /** A start on the existing file. */
    method Restart(day: int)
      requires Valid()
      modifies this, db
      ensures Valid() && fresh(process.Generators())
      ensures var restarted := Extended(old(run), RestartOp, INITIAL.(t := old(db.Snapshot())), Done);
              run == Extended(restarted, SeedOp(day), process.Now(), Done)
    {
      NewProcess();
      SeedIfEmpty(day);
    }
  }
}
