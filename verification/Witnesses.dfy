/** Runs that show the departures from the documentation to be reachable: each starts from the empty
    database and saves the sample data first. */
module Witnesses {
  import opened Domain
  import opened DateTime
  import opened Lifecycle
  import opened Schema
  import opened Conflicts
  import opened Transitions
  import opened Effects
  import opened Safety
  import opened AllocationLaws
  import opened Batch
  import opened Numbering
  import opened StatusFlags
  import opened MaintenanceFlags
  import opened DelayLaws
  import opened EmergencyLaws
  import opened FlightRuns
  import opened ConsoleRuns

  lemma Continue(run: Run, op: Op) returns (longer: Run)
    requires IsRun(run, INITIAL)
    ensures IsRun(longer, INITIAL) && Final(longer) == Next(Final(run), op)
  {
    OneMoreStep(run, INITIAL, op);
    longer := Extended(run, op, Step(Final(run), op).0, Step(Final(run), op).1);
  }

  // ------------------------------------------------------- The sample database

  ghost predicate Blank(t: Tables) {
    && t.flights == map[] && t.gates == map[] && t.vehicles == map[] && t.staff == map[]
    && t.schedules == [] && t.allocations == [] && t.links == [] && t.delays == [] && t.emergencies == []
  }

  /** No counter has been used. */
  predicate Fresh(s: State) {
    s.nextAllocation == s.nextDelay == s.nextEmergency == 1
  }

  lemma BlankRun() returns (run: Run)
    ensures IsRun(run, INITIAL) && Blank(Final(run).t) && Fresh(Final(run))
  {
    run := Run([INITIAL], [], []);
  }

  /** A database with two scheduled flights, and a gate, two vehicles and two staff members that are
      available, where nothing is booked, delayed or declared yet. */
  ghost predicate Ready(t: Tables) {
    && "FL001" in t.flights && t.flights["FL001"].status == Scheduled
    && "FL002" in t.flights && t.flights["FL002"].status == Scheduled
    && "G01" in t.gates && {"V01", "V02"} <= t.vehicles.Keys && {"GS01", "GS02"} <= t.staff.Keys
    && Offline(t.gates) == {} && Offline(t.vehicles) == {} && Offline(t.staff) == {}
    && t.allocations == [] && t.links == [] && t.delays == [] && t.emergencies == []
  }

  /** Saved into an empty table, all resources of a list are there, and none is under maintenance. */
  lemma SavedAreOnline(rows: map<Id, ResourceRow>, entries: seq<(Id, string)>)
    requires rows == map[]
    ensures SaveResources(rows, entries).Keys == Listed(entries) && Offline(SaveResources(rows, entries)) == {}
  {
    SavedResources(rows, entries);
  }

  lemma SampleNames()
    ensures "G01" in Listed(SAMPLE_GATES)
    ensures {"V01", "V02"} <= Listed(SAMPLE_VEHICLES) && {"GS01", "GS02"} <= Listed(SAMPLE_STAFF)
  {
    assert SAMPLE_GATES[0] == ("G01", "A") && SAMPLE_GATES[0] in SAMPLE_GATES;
    assert SAMPLE_VEHICLES[0] in SAMPLE_VEHICLES && SAMPLE_VEHICLES[1] in SAMPLE_VEHICLES;
    assert SAMPLE_STAFF[0] in SAMPLE_STAFF && SAMPLE_STAFF[1] in SAMPLE_STAFF;
  }

  lemma SeededIsReady(t: Tables, day: int)
    requires Blank(t)
    ensures Ready(Seed(t, day))
  {
    SampleNames();
    SavedAreOnline(t.gates, SAMPLE_GATES);
    SavedAreOnline(t.vehicles, SAMPLE_VEHICLES);
    SavedAreOnline(t.staff, SAMPLE_STAFF);
    assert "FL001" in SAMPLE_FLIGHTS && "FL002" in SAMPLE_FLIGHTS;
  }

  lemma SeedStep(s: State, day: int)
    ensures Next(s, SeedOp(day)).t == Seed(s.t, day)
  {
  }

  /** How every process starts on a new file. */
  lemma ReadyRun() returns (run: Run)
    ensures IsRun(run, INITIAL) && Ready(Final(run).t) && Fresh(Final(run))
  {
    var blank := BlankRun();
    SeedStep(Final(blank), 0);
    SeededIsReady(Final(blank).t, 0);
    StepFrame(Final(blank), SeedOp(0));
    run := Continue(blank, SeedOp(0));
  }

  // -------------------------------------------------- Two bookings of one gate

  /** Nothing is booked, and two requests for the same gate and different vehicles can both be granted. */
  ghost predicate Stage(s: State, a: Request, b: Request) {
    && BookingKeys(s.t) && BookingMap(s.t) == map[]
    && Admissible(s.t, a) && Admissible(s.t, b) && Compatible(a, b)
    && a.gate == b.gate && a.vehicle != b.vehicle
    && RepeatFree(a.staff) && RepeatFree(b.staff)
  }

  lemma ReadyAdmits(t: Tables, r: Request)
    requires Ready(t) && r.flight in {"FL001", "FL002"} && r.gate == "G01" && r.vehicle in {"V01", "V02"}
    requires Members(r.staff) <= {"GS01", "GS02"}
    ensures BookingKeys(t) && BookingMap(t) == map[] && Admissible(t, r)
  {
    CheckConflictDecides(t, r);
  }

  lemma StageRun() returns (run: Run, a: Request, b: Request)
    ensures IsRun(run, INITIAL) && Stage(Final(run), a, b) && Final(run).nextAllocation == 1
  {
    run := ReadyRun();
    a := Request("FL001", "G01", "V01", ["GS01"], 0, 10);
    b := Request("FL002", "G01", "V02", ["GS02"], 10, 20);
    ReadyAdmits(Final(run).t, a);
    ReadyAdmits(Final(run).t, b);
  }

  /** Both requests are granted, one after the other. */
  lemma BothGranted(s: State, a: Request, b: Request)
    requires Stage(s, a, b)
    ensures var (s1, o1) := Allocate(s, a);
            && o1.Allocated? && BookingKeys(s1.t) && Admissible(s1.t, b) && Allocate(s1, b).1.Allocated?
            && NextId(s1) != NextId(s)
  {
    assert FreshIds(s, 2);
    FirstSucceeds(s, a);
    FreshAfter(s, a, 1);
    AdmissibleAfter(s, a, b);
    FirstSucceeds(Allocate(s, a).0, b);
    GrantedMarks(s, a);
    GrantedMarks(Allocate(s, a).0, b);
  }

  lemma RunToFirst() returns (run: Run, s: State, a: Request, b: Request)
    ensures IsRun(run, INITIAL) && Stage(s, a, b) && s.nextAllocation == 1 && Final(run) == Allocate(s, a).0
  {
    run, a, b := StageRun();
    s := Final(run);
    AllocateStep(s, a);
    run := Continue(run, AllocateOp(a));
  }

  /** An Occupied gate is granted: the check does not look at that flag. */
  lemma OccupiedIsGranted()
    ensures exists run, r: Request ::
      IsRun(run, INITIAL) && Has(Final(run).t, Gate(r.gate), Occupied) && Allocate(Final(run), r).1.Allocated?
  {
    var run, s, a, b := RunToFirst();
    BothGranted(s, a, b);
    GateIsOccupied(s, a);
    assert Has(Final(run).t, Gate(b.gate), Occupied);
  }

  lemma GateIsOccupied(s: State, r: Request)
    requires BookingKeys(s.t) && Allocate(s, r).1.Allocated?
    ensures Has(Allocate(s, r).0.t, Gate(r.gate), Occupied)
  {
    GrantedMarks(s, r);
    AllocateEffect(s, r);
    assert Uses(BookingFor(r), Gate(r.gate));
    assert Known(s.t, Gate(r.gate));
  }

  /** After both grants the first booking is active, and the second one shares the gate with it. */
  lemma GateIsShared(s: State, a: Request, b: Request)
    requires Stage(s, a, b)
    ensures var t := Allocate(Allocate(s, a).0, b).0.t;
            BookingKeys(t) && Shared(BookingMap(t), NextId(s))
  {
    BothGranted(s, a, b);
    var s1 := Allocate(s, a).0;
    GrantedMarks(s, a);
    GrantedMarks(s1, b);
    AllocateEffect(s1, b);
    var m := BookingMap(Allocate(s1, b).0.t);
    assert Uses(m[NextId(s1)], Gate(a.gate)) && Uses(m[NextId(s)], Gate(a.gate));
    assert ShareResource(m[NextId(s1)], m[NextId(s)]);
  }

  /** A release leaves something Available that another flight has booked, without any override. */
  lemma ReleaseStrandsAResource()
    ensures exists run, id, resource ::
      && IsRun(run, INITIAL) && Release(Final(run).t, id).1 == Done
      && Has(Release(Final(run).t, id).0, resource, Available)
      && Named(BookingMap(Release(Final(run).t, id).0), resource)
  {
    var run, s, a, b := RunToFirst();
    AllocateStep(Final(run), b);
    run := Continue(run, AllocateOp(b));
    GateIsShared(s, a, b);
    SharedIsStranded(Final(run).t, NextId(s));
  }

  lemma SharedIsStranded(t: Tables, id: Id)
    requires BookingKeys(t) && Shared(BookingMap(t), id)
    ensures Release(t, id).1 == Done
    ensures exists resource ::
      Has(Release(t, id).0, resource, Available) && Named(BookingMap(Release(t, id).0), resource)
  {
    ReleaseEffect(t, id);
    ReleaseStrandsShared(t, id);
  }

  lemma MaintenanceIsLifted(s: State, r: Request, t: Tables)
    requires BookingKeys(s.t) && Allocate(s, r).1.Allocated?
    requires t == Next(Allocate(s, r).0, SetGateOp(r.gate, Maintenance)).t
    ensures r.gate in Offline(t.gates) && Release(t, NextId(s)).1 == Done
    ensures r.gate !in Offline(Release(t, NextId(s)).0.gates)
  {
    var s1, op := Allocate(s, r).0, SetGateOp(r.gate, Maintenance);
    GrantedMarks(s, r);
    AllocateEffect(s, r);
    GateIsOccupied(s, r);
    SetStatusMeans(s1, op, Gate(r.gate), Maintenance);
    OtherStepsKeepMap(s1, op);
    StepKeepsBookingKeys(s1, op);
    ReleaseEffect(t, NextId(s));
    AvailabilityAfterRelease(t, NextId(s));
  }

  /** A release takes a gate out of the maintenance that an administrator ordered. */
  lemma ReleaseLiftsOrderedMaintenance()
    ensures exists run, id, gate ::
      && IsRun(run, INITIAL) && gate in Offline(Final(run).t.gates)
      && Release(Final(run).t, id).1 == Done && gate !in Offline(Release(Final(run).t, id).0.gates)
  {
    var run, s, a, b := RunToFirst();
    BothGranted(s, a, b);
    run := Continue(run, SetGateOp(a.gate, Maintenance));
    MaintenanceIsLifted(s, a, Final(run).t);
  }

  lemma GateIsAdded(s: State, gate: Id)
    ensures Known(Next(s, AddGateOp(gate, "")).t, Gate(gate))
  {
  }

  /** A gate is added to the empty database and put under maintenance. */
  lemma RunToMaintenance(gate: Id) returns (run: Run)
    ensures IsRun(run, INITIAL) && UnderMaintenance(Final(run).t, Gate(gate)) && Final(run).t.flights == map[]
  {
    run := BlankRun();
    GateIsAdded(Final(run), gate);
    StepFrame(Final(run), AddGateOp(gate, ""));
    run := Continue(run, AddGateOp(gate, ""));
    RunKeepsKeys(run);
    StepMaintains(Final(run), SetGateOp(gate, Maintenance), Gate(gate));
    StepFrame(Final(run), SetGateOp(gate, Maintenance));
    run := Continue(run, SetGateOp(gate, Maintenance));
  }

  /** Saving the sample data takes a gate out of the maintenance that an administrator ordered. */
  lemma SeedLiftsOrderedMaintenance()
    ensures exists run, day, gate ::
      && IsRun(run, INITIAL) && UnderMaintenance(Final(run).t, Gate(gate))
      && !UnderMaintenance(Next(Final(run), SeedOp(day)).t, Gate(gate))
  {
    var run := RunToMaintenance("G01");
    RunKeepsKeys(run);
    SampleNames();
    StepMaintains(Final(run), SeedOp(0), Gate("G01"));
  }

  // ---------------------------------------------------------------- Restarts

  lemma RestartStep(s: State)
    ensures Next(s, RestartOp) == INITIAL.(t := s.t)
  {
  }

  /** After a restart an admissible request without repeated staff raises. */
  lemma RestartMakesIdsClash()
    ensures exists run, r: Request ::
      && IsRun(run, INITIAL) && Admissible(Final(run).t, r) && RepeatFree(r.staff)
      && Allocate(Final(run), r).1 == Thrown(DatabaseFailure)
  {
    var first, s, a, b := RunToFirst();
    BothGranted(s, a, b);
    var run := Continue(first, RestartOp);
    RestartStep(Final(first));
    GrantedMarks(s, a);
    assert NextId(Final(run)) == NextId(s);
    NotFreshRaises(Final(run), b);
  }

  /** An allocation that raises leaves a vehicle Occupied that nobody has booked. */
  lemma RaisingAllocationOccupies()
    ensures exists run, r: Request ::
      IsRun(run, INITIAL) &&
      var (s', o) := Allocate(Final(run), r);
      o.Thrown? && Has(s'.t, Vehicle(r.vehicle), Occupied) && !Named(BookingMap(s'.t), Vehicle(r.vehicle))
  {
    var first, s, a, b := RunToFirst();
    BothGranted(s, a, b);
    var run := Continue(first, RestartOp);
    RestartStep(Final(first));
    ClashMarks(s, a, b, Final(run));
  }

  lemma ClashMarks(s: State, a: Request, b: Request, restarted: State)
    requires Stage(s, a, b) && s.nextAllocation == 1 && restarted == INITIAL.(t := Allocate(s, a).0.t)
    ensures var (s', o) := Allocate(restarted, b);
            && o.Thrown?
            && Has(s'.t, Vehicle(b.vehicle), Occupied) && !Named(BookingMap(s'.t), Vehicle(b.vehicle))
  {
    BothGranted(s, a, b);
    GrantedMarks(s, a);
    assert NextId(restarted) == NextId(s);
    VehicleIsMarked(restarted, b);
  }

  lemma VehicleIsMarked(s: State, r: Request)
    requires BookingKeys(s.t) && Admissible(s.t, r) && !IdIsFresh(s)
    ensures var (s', o) := Allocate(s, r);
            && o.Thrown? && Has(s'.t, Vehicle(r.vehicle), Occupied)
            && (Named(BookingMap(s'.t), Vehicle(r.vehicle)) <==> Named(BookingMap(s.t), Vehicle(r.vehicle)))
  {
    NotFreshRaises(s, r);
    AttemptMarks(s, r);
    AskedAreKnown(s.t, r);
    assert Uses(Asked(r), Vehicle(r.vehicle)) && Known(s.t, Vehicle(r.vehicle));
  }

  lemma CreationClashes(s: State, other: Id, flight: Id)
    requires s.t.schedules == [] && s.t.flights == map[] && s.nextSchedule == 1000 && other != flight
    ensures var op := CreateFlightOp(other, "", "", "", "", 0, 1);
            Clashes(INITIAL.(t := Next(s, op).t), CreateFlightOp(flight, "", "", "", "", 0, 1))
  {
    var t := Next(s, CreateFlightOp(other, "", "", "", "", 0, 1)).t;
    assert t.schedules == [ScheduleRow(Render("SC", 1000), other, 0, 1, 0, 1)];
    assert t.schedules[0] in t.schedules;
  }

  lemma RunToUnscheduled() returns (run: Run, flight: Id)
    ensures IsRun(run, INITIAL) && Unscheduled(Final(run).t, flight)
    ensures Final(run).t.flights[flight].status == Scheduled && Final(run).t.delays == []
  {
    var blank := Run([INITIAL], [], []);
    flight := "B";
    CreationClashes(INITIAL, "A", flight);
    run := Continue(blank, CreateFlightOp("A", "", "", "", "", 0, 1));
    RestartStep(Final(run));
    run := Continue(run, RestartOp);
    var s, op := Final(run), CreateFlightOp(flight, "", "", "", "", 0, 1);
    RunKeepsSchedules(run);
    ClashLeavesUnscheduled(s, op);
    run := Continue(run, op);
  }

  /** After a restart a new flight may get no schedule. */
  lemma RestartLosesASchedule()
    ensures exists run, flight :: IsRun(run, INITIAL) && Unscheduled(Final(run).t, flight)
  {
    var run, flight := RunToUnscheduled();
  }

  // ------------------------------------------------------------------ Delays

  /** A delay call raises for a flight that is in no state to be delayed, and its row is kept. */
  lemma RaisingDelayIsKept()
    ensures exists run, flight, minutes ::
      && IsRun(run, INITIAL)
      && ApplyDelay(Final(run), flight, Other, minutes, "").1.Thrown?
      && ApplyDelay(Final(run), flight, Other, minutes, "").0.t.delays != Final(run).t.delays
  {
    var run := ReadyRun();
    RaisingDelayLeaves(Final(run), "FL001", Other, 30, "");
    assert Records(Final(run), "FL001", 30);
  }

  /** After a restart a delay call for a known flight and a positive delay raises before it records
      anything. */
  lemma RestartMakesDelaysClash()
    ensures exists run, flight, minutes ::
      && IsRun(run, INITIAL) && minutes > 0 && flight in Final(run).t.flights
      && ApplyDelay(Final(run), flight, Other, minutes, "").1 == Thrown(DatabaseFailure)
      && ApplyDelay(Final(run), flight, Other, minutes, "").0.t == Final(run).t
  {
    var flight, minutes := "FL001", 30;
    var run := ReadyRun();
    ApplyDelayWrites(Final(run), flight, Other, minutes, "");
    DelayStep(Final(run), ApplyDelayOp(flight, Other, minutes, ""));
    StepFrame(Final(run), ApplyDelayOp(flight, Other, minutes, ""));
    run := Continue(run, ApplyDelayOp(flight, Other, minutes, ""));
    RestartStep(Final(run));
    run := Continue(run, RestartOp);
    assert Final(run).t.delays[0] in Final(run).t.delays;
    DelayClashes(Final(run), flight, Other, minutes, "");
  }

  lemma Move(run: Run, flight: Id, to: FlightStatus) returns (longer: Run)
    requires IsRun(run, INITIAL) && flight in Final(run).t.flights
    requires to in Successors(Final(run).t.flights[flight].status)
    ensures IsRun(longer, INITIAL) && Final(longer) == Final(run).(t := WithFlightStatus(Final(run).t, flight, to))
  {
    longer := Continue(run, TransitionOp(flight, to));
  }

  /** A delay call raises for a flight that has lost its schedule, and leaves it Delayed. */
  lemma RaisingDelaySuspends()
    ensures exists run, flight, minutes ::
      && IsRun(run, INITIAL) && flight in Final(run).t.flights
      && ApplyDelay(Final(run), flight, Other, minutes, "").1.Thrown?
      && ApplyDelay(Final(run), flight, Other, minutes, "").0.t.flights
         == Final(run).t.flights[flight := Final(run).t.flights[flight].(status := Delayed)]
  {
    var run, flight := RunToUnscheduled();
    run := Move(run, flight, Approaching);
    run := Move(run, flight, Arrived);
    run := Move(run, flight, GroundOperations);
    ApplyDelaySuspends(Final(run), flight, Other, 30, "");
    ApplyDelayOutcome(Final(run), flight, Other, 30, "");
    assert Suspends(Final(run), flight, 30);
  }

  // ------------------------------------------------------------- Emergencies

  lemma DeclareStep(s: State, flight: Id)
    ensures Next(s, DeclareEmergencyOp(flight, "", 0)) == DeclareEmergency(s, flight, "", 0).0
  {
  }

  lemma LandingStep(s: State, id: Id)
    ensures Next(s, RecordLandingOp(id, 0)).t == RecordLanding(s.t, id, 0).0
  {
  }

  lemma HandlingStep(s: State, flight: Id, id: Id)
    ensures Next(s, BeginGroundHandlingOp(flight, id)).t == BeginGroundHandling(s.t, flight, id).0
  {
  }

  lemma ResolveStep(s: State, id: Id)
    ensures Next(s, ResolveEmergencyOp(id)).t == ResolveEmergency(s.t, id).0
  {
  }

  /** An approaching flight is taken through the four steps of the emergency workflow. */
  lemma WorkflowRun(run: Run, flight: Id, id: Id) returns (longer: Run)
    requires IsRun(run, INITIAL) && flight in Final(run).t.flights
    requires Final(run).t.flights[flight].status == Approaching && Final(run).t.emergencies == []
    requires id == Render("EM", Final(run).nextEmergency)
    ensures IsRun(longer, INITIAL) && Final(longer).t.emergencies == [EmergencyRow(id, flight, "", 0, 0, Resolved)]
    ensures flight in Final(longer).t.flights && Final(longer).t.flights[flight].status == GroundOperations
  {
    EmergencyWorkflow(Final(run), flight, "", 0, 0);
    DeclareStep(Final(run), flight);
    longer := Continue(run, DeclareEmergencyOp(flight, "", 0));
    LandingStep(Final(longer), id);
    longer := Continue(longer, RecordLandingOp(id, 0));
    HandlingStep(Final(longer), flight, id);
    longer := Continue(longer, BeginGroundHandlingOp(flight, id));
    ResolveStep(Final(longer), id);
    longer := Continue(longer, ResolveEmergencyOp(id));
  }

  lemma DeclarationOf(s: State, flight: Id)
    requires flight in s.t.flights && s.t.flights[flight].status == Approaching && s.t.emergencies == []
    ensures var s' := DeclareEmergency(s, flight, "", 0).0;
            && s'.t.emergencies == [EmergencyRow(Render("EM", s.nextEmergency), flight, "", 0, 0, Declared)]
            && s'.t.flights == s.t.flights[flight := s.t.flights[flight].(status := EmergencyLanding)]
  {
  }

  /** After a restart an emergency landing may leave no record. */
  lemma RestartLosesARecord()
    ensures exists run, flight ::
      IsRun(run, INITIAL) && StatusOf(Final(run).t, flight) == Some(EmergencyLanding) && !Recorded(Final(run).t, flight)
  {
    var run := ReadyRun();
    run := Move(run, "FL001", Approaching);
    var s := Final(run);
    DeclareStep(s, "FL001");
    DeclarationOf(s, "FL001");
    run := Continue(run, DeclareEmergencyOp("FL001", "", 0));
    RestartStep(Final(run));
    run := Continue(run, RestartOp);
    run := Move(run, "FL002", Approaching);
    var op := DeclareEmergencyOp("FL002", "", 0);
    assert Final(run).t.emergencies[0] in Final(run).t.emergencies;
    assert DeclarationClashes(Final(run), op);
    OneEmergencyRecord(run);
    ClashLeavesUnrecorded(Final(run), op);
    run := Continue(run, op);
  }

  /** The ground handling of a resolved emergency is begun again. */
  lemma ResolvedEmergencyReopens()
    ensures exists run, flight, id ::
      && IsRun(run, INITIAL)
      && FindEmergency(Final(run).t.emergencies, id).Some?
      && FindEmergency(Final(run).t.emergencies, id).value.status == Resolved
      && BeginGroundHandling(Final(run).t, flight, id).1 == Done
  {
    var flight := "FL001";
    var run := ReadyRun();
    run := Move(run, flight, Approaching);
    var id := Render("EM", Final(run).nextEmergency);
    run := WorkflowRun(run, flight, id);
    run := Move(run, flight, Delayed);
    var rows := Final(run).t.emergencies;
    assert rows[0] in rows && rows[0].id == id;
    GroundHandlingIsUnguarded(Final(run).t, flight, id);
  }
}
