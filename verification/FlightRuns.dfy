/** Flights over whole runs of the system: their histories, emergencies and closed flights. */
module FlightRuns {
  import opened Domain
  import opened Lifecycle
  import opened Schema
  import opened Transitions
  import opened Effects

  /** A flight stayed or moved along one edge; a new flight is Scheduled. */
  predicate Moves(before: map<Id, FlightRow>, after: map<Id, FlightRow>, flight: Id) {
    if flight in before then
      && flight in after
      && (after[flight].status == before[flight].status || after[flight].status in Successors(before[flight].status))
    else flight in after ==> after[flight].status == Scheduled
  }

  lemma MoveFlightMoves(t: Tables, moved: Id, to: FlightStatus, flight: Id)
    ensures Moves(t.flights, MoveFlight(t, moved, to).0.flights, flight)
  {
  }

  /** A requested transition takes effect exactly when the table has the edge; it then changes the
      status of that flight and nothing else, and otherwise it raises and changes nothing. */
  lemma TransitionIsExact(t: Tables, flight: Id, to: FlightStatus)
    ensures var (t', o) := MoveFlight(t, flight, to);
            && (o == Done <==> flight in t.flights && IsTransitionAllowed(t.flights[flight].status, to))
            && (o != Done ==> t' == t && o.Thrown?)
            && (o == Done ==> t'.flights[flight] == t.flights[flight].(status := to))
            && t'.flights.Keys == t.flights.Keys
            && (forall f :: f != flight && f in t.flights ==> t'.flights[f] == t.flights[f])
            && t'.(flights := t.flights) == t
  {
  }

  /** Seeding twice is seeding once, and only an empty database is seeded. */
  lemma SeedOnce(t: Tables, day: int, later: int)
    ensures Seed(Seed(t, day), later) == Seed(t, day)
    ensures t.flights == map[] ==> |Seed(t, day).flights| == 3
    ensures t.flights != map[] ==> Seed(t, day) == t
  {
    assert "FL001" in SAMPLE_FLIGHTS;
    assert SAMPLE_FLIGHTS.Keys == {"FL001", "FL002", "FL003"};
  }

  lemma DelayMoves(s: State, delayed: Id, reason: DelayReason, minutes: int, notes: string, flight: Id)
    ensures Moves(s.t.flights, ApplyDelay(s, delayed, reason, minutes, notes).0.t.flights, flight)
  {
    MoveFlightMoves(s.t, delayed, Delayed, flight);
  }

  lemma DeclareMoves(s: State, declared: Id, cause: string, now: int, flight: Id)
    ensures Moves(s.t.flights, DeclareEmergency(s, declared, cause, now).0.t.flights, flight)
  {
    MoveFlightMoves(s.t, declared, EmergencyLanding, flight);
  }

  lemma HandlingMoves(t: Tables, handled: Id, id: Id, flight: Id)
    ensures Moves(t.flights, BeginGroundHandling(t, handled, id).0.flights, flight)
  {
    MoveFlightMoves(t, handled, GroundOperations, flight);
  }

  lemma CreationMoves(s: State, created: Id, row: FlightRow, arrival: int, departure: int, flight: Id)
    requires row.status == Scheduled
    ensures Moves(s.t.flights, CreateFlight(s, created, row, arrival, departure).0.t.flights, flight)
  {
  }

  lemma SeedMoves(t: Tables, day: int, flight: Id)
    ensures Moves(t.flights, Seed(t, day).flights, flight)
  {
  }

  lemma FlightStepMoves(s: State, op: Op, flight: Id)
    requires IsFlightOp(op)
    ensures Moves(s.t.flights, Next(s, op).t.flights, flight)
  {
    match op
    case CreateFlightOp(created, number, origin, destination, aircraft, arrival, departure) =>
      var row := FlightRow(number, origin, destination, aircraft, Scheduled);
      CreationMoves(s, created, row, arrival, departure, flight);
    case TransitionOp(moved, to) => MoveFlightMoves(s.t, moved, to, flight);
    case ApplyDelayOp(delayed, reason, minutes, notes) => DelayMoves(s, delayed, reason, minutes, notes, flight);
  }

  lemma EmergencyStepMoves(s: State, op: Op, flight: Id)
    requires op.DeclareEmergencyOp? || op.BeginGroundHandlingOp?
    ensures Moves(s.t.flights, Next(s, op).t.flights, flight)
  {
    match op
    case DeclareEmergencyOp(declared, cause, now) => DeclareMoves(s, declared, cause, now, flight);
    case BeginGroundHandlingOp(handled, id) => HandlingMoves(s.t, handled, id, flight);
  }

  /** One step moves a flight along at most one edge, and a new flight starts at Scheduled. */
  lemma FlightMoves(s: State, op: Op, flight: Id)
    ensures Moves(s.t.flights, Next(s, op).t.flights, flight)
  {
    if IsFlightOp(op) {
      FlightStepMoves(s, op, flight);
    } else if op.DeclareEmergencyOp? || op.BeginGroundHandlingOp? {
      EmergencyStepMoves(s, op, flight);
    } else if op.SeedOp? {
      SeedMoves(s.t, op.day, flight);
    } else {
      StepFrame(s, op);
    }
  }

  /** The statuses a flight goes through in a sequence of states, each one noted when it is entered. */
  function History(states: seq<State>, flight: Id): seq<FlightStatus> {
    if states == [] then []
    else
      var earlier := History(states[..|states| - 1], flight);
      var flights := states[|states| - 1].t.flights;
      if flight in flights && (earlier == [] || earlier[|earlier| - 1] != flights[flight].status)
      then earlier + [flights[flight].status] else earlier
  }

  /** Every flight's history in every run of the system is a legal run of the life cycle that ends
      at the flight's present status. */
  lemma {:induction false} HistoryIsLegal(run: Run, flight: Id)
    requires IsRun(run, INITIAL)
    ensures var history := History(run.states, flight);
            var flights := Final(run).t.flights;
            if flight in flights then LegalRun(history) && history[|history| - 1] == flights[flight].status
            else history == []
    decreases |run.ops|
  {
    if run.ops == [] {
      assert run.states[..0] == [];
    } else {
      LastStep(run, INITIAL);
      HistoryIsLegal(Front(run), flight);
      FlightMoves(Final(Front(run)), LastOp(run), flight);
      var before, after := Final(Front(run)).t.flights, Final(run).t.flights;
      if flight in before && after[flight].status != before[flight].status {
        Extend(History(Front(run).states, flight), after[flight].status);
      }
    }
  }

  /** So in any run of the system a flight that was delayed d times has changed status at most
      7 + 4d times. */
  lemma FlightLengthBound(run: Run, flight: Id)
    requires IsRun(run, INITIAL) && flight in Final(run).t.flights
    ensures |History(run.states, flight)| - 1 <= 7 + 4 * Delays(History(run.states, flight))
  {
    HistoryIsLegal(run, flight);
    LengthBound(History(run.states, flight));
  }

  /** And a completed flight has passed every milestone, in order. */
  lemma CompletedFlight(run: Run, flight: Id)
    requires IsRun(run, INITIAL) && flight in Final(run).t.flights
    requires Final(run).t.flights[flight].status == Completed
    ensures Milestones(History(run.states, flight))
  {
    HistoryIsLegal(run, flight);
    CompletedMilestones(History(run.states, flight));
  }

  // -------------------------------------------------------------- Emergencies

  /** A flight that has an emergency record is past its landing, and has just the one. */
  ghost predicate EmergenciesOnce(t: Tables) {
    && (forall i, j :: 0 <= i < j < |t.emergencies| ==> t.emergencies[i].flight != t.emergencies[j].flight)
    && (forall e :: e in t.emergencies ==>
          e.flight in t.flights && t.flights[e.flight].status !in {Scheduled, Approaching, Arrived})
  }

  /** The same records, row by row, whatever their landing times and statuses. */
  predicate SameRecords(before: seq<EmergencyRow>, after: seq<EmergencyRow>) {
    && |before| == |after|
    && forall i :: 0 <= i < |before| ==> after[i].flight == before[i].flight && after[i].id == before[i].id
  }

  /** Moving flights along edges, and changing emergency rows but not their flights, keeps it. */
  lemma MovingKeepsEmergencies(t: Tables, t': Tables)
    requires EmergenciesOnce(t)
    requires SameRecords(t.emergencies, t'.emergencies)
    requires forall f :: Moves(t.flights, t'.flights, f)
    ensures EmergenciesOnce(t')
  {
    forall e | e in t'.emergencies
      ensures e.flight in t'.flights && t'.flights[e.flight].status !in {Scheduled, Approaching, Arrived}
    {
      var i :| 0 <= i < |t'.emergencies| && t'.emergencies[i] == e;
      assert t.emergencies[i] in t.emergencies;
      assert Moves(t.flights, t'.flights, e.flight);
    }
  }

  lemma EmergencyStepKeepsRecords(s: State, op: Op)
    requires op.RecordLandingOp? || op.BeginGroundHandlingOp? || op.ResolveEmergencyOp?
    ensures SameRecords(s.t.emergencies, Next(s, op).t.emergencies)
  {
    match op
    case RecordLandingOp(id, now) => LandingKeepsRecords(s.t, id, now);
    case BeginGroundHandlingOp(flight, id) => HandlingKeepsRecords(s.t, flight, id);
    case ResolveEmergencyOp(id) => ResolvingKeepsRecords(s.t, id);
  }

  /** Steps other than a declaration add no emergency row and rename none. */
  lemma OtherStepsAddNoEmergency(s: State, op: Op)
    requires !op.DeclareEmergencyOp?
    ensures SameRecords(s.t.emergencies, Next(s, op).t.emergencies)
  {
    if IsEmergencyOp(op) {
      EmergencyStepKeepsRecords(s, op);
    } else {
      StepFrame(s, op);
    }
  }

  lemma LandingKeepsRecords(t: Tables, id: Id, now: int)
    ensures SameRecords(t.emergencies, RecordLanding(t, id, now).0.emergencies)
  {
  }

  lemma HandlingKeepsRecords(t: Tables, flight: Id, id: Id)
    ensures SameRecords(t.emergencies, BeginGroundHandling(t, flight, id).0.emergencies)
  {
  }

  lemma ResolvingKeepsRecords(t: Tables, id: Id)
    ensures SameRecords(t.emergencies, ResolveEmergency(t, id).0.emergencies)
  {
  }

  lemma DeclareKeepsEmergencies(s: State, flight: Id, cause: string, now: int)
    requires EmergenciesOnce(s.t)
    ensures EmergenciesOnce(DeclareEmergency(s, flight, cause, now).0.t)
  {
    var (moved, outcome) := MoveFlight(s.t, flight, EmergencyLanding);
    if outcome == Done {
      forall f ensures Moves(s.t.flights, moved.flights, f) {
        MoveFlightMoves(s.t, flight, EmergencyLanding, f);
      }
      MovingKeepsEmergencies(s.t, moved);
      assert forall e :: e in s.t.emergencies ==> e.flight != flight;
      var t' := DeclareEmergency(s, flight, cause, now).0.t;
      if |t'.emergencies| > |s.t.emergencies| {
        assert forall e :: e in t'.emergencies <==> e in s.t.emergencies || e == t'.emergencies[|s.t.emergencies|];
      }
    }
  }

  lemma StepKeepsEmergencies(s: State, op: Op)
    requires EmergenciesOnce(s.t)
    ensures EmergenciesOnce(Next(s, op).t)
  {
    if op.DeclareEmergencyOp? {
      DeclareKeepsEmergencies(s, op.flight, op.cause, op.now);
    } else {
      OtherStepsAddNoEmergency(s, op);
      forall f ensures Moves(s.t.flights, Next(s, op).t.flights, f) {
        FlightMoves(s, op, f);
      }
      MovingKeepsEmergencies(s.t, Next(s, op).t);
    }
  }

  /** In every run, also across restarts, a flight gets at most one emergency record. */
  lemma {:induction false} OneEmergencyRecord(run: Run)
    requires IsRun(run, INITIAL)
    ensures EmergenciesOnce(Final(run).t)
    decreases |run.ops|
  {
    if run.ops != [] {
      LastStep(run, INITIAL);
      OneEmergencyRecord(Front(run));
      StepKeepsEmergencies(Final(Front(run)), LastOp(run));
    }
  }

  // ------------------------------------------------------------ Closed flights

  ghost predicate IsClosed(t: Tables, flight: Id) {
    flight in t.flights && Closed(t.flights[flight].status)
  }

  /** Between two tables a flight gained no booking, and its bookings at most went from active to
      released. */
  ghost predicate OnlyReleases(m: map<Id, Booking>, m': map<Id, Booking>, flight: Id) {
    && (forall id :: id in m' && m'[id].flight == flight ==> id in m && m[id].flight == flight)
    && (forall id :: id in m && m[id].flight == flight ==>
          id in m' && (m'[id] == m[id] || (m[id].active && m'[id] == m[id].(active := false))))
  }

  lemma ClosedStepOnlyReleases(s: State, op: Op, flight: Id)
    requires BookingKeys(s.t) && IsClosed(s.t, flight)
    ensures OnlyReleases(BookingMap(s.t), BookingMap(Next(s, op).t), flight)
  {
    if op.AllocateOp? {
      ClosedTakesNoAllocation(s, op.request, flight);
    } else if op.ReleaseOp? {
      ReleaseOnlyReleases(s.t, op.allocation, flight);
    } else {
      StepFrame(s, op);
    }
  }

  lemma ClosedTakesNoAllocation(s: State, r: Request, flight: Id)
    requires BookingKeys(s.t) && IsClosed(s.t, flight)
    ensures OnlyReleases(BookingMap(s.t), BookingMap(Allocate(s, r).0.t), flight)
  {
    AllocateEffect(s, r);
  }

  lemma ReleaseOnlyReleases(t: Tables, id: Id, flight: Id)
    requires BookingKeys(t)
    ensures OnlyReleases(BookingMap(t), BookingMap(Release(t, id).0), flight)
  {
    var m, m' := BookingMap(t), BookingMap(Release(t, id).0);
    assert m' == m || (id in m && m[id].active && m' == m[id := m[id].(active := false)]) by { ReleaseEffect(t, id); }
  }

  lemma ClosedStaysClosed(s: State, op: Op, flight: Id)
    requires IsClosed(s.t, flight)
    ensures IsClosed(Next(s, op).t, flight)
  {
    FlightMoves(s, op, flight);
    MovingStaysClosed(s.t.flights, Next(s, op).t.flights, flight);
  }

  lemma MovingStaysClosed(before: map<Id, FlightRow>, after: map<Id, FlightRow>, flight: Id)
    requires Moves(before, after, flight) && flight in before && Closed(before[flight].status)
    ensures flight in after && Closed(after[flight].status)
  {
  }

  /** From the moment a flight has departed, completed or been cancelled, no continuation of the
      run reopens it or gives it another allocation. */
  lemma {:induction false} ClosedForGood(run: Run, start: State, flight: Id)
    requires IsRun(run, start) && BookingKeys(start.t) && IsClosed(start.t, flight)
    ensures BookingKeys(Final(run).t) && IsClosed(Final(run).t, flight)
    ensures OnlyReleases(BookingMap(start.t), BookingMap(Final(run).t), flight)
    decreases |run.ops|
  {
    if run.ops != [] {
      var s, op := Final(Front(run)), LastOp(run);
      LastStep(run, start);
      ClosedForGood(Front(run), start, flight);
      ClosedStaysClosed(s, op, flight);
      StepKeepsBookingKeys(s, op);
      ClosedStepOnlyReleases(s, op, flight);
      ReleasesCompose(BookingMap(start.t), BookingMap(s.t), BookingMap(Final(run).t), flight);
    }
  }

  lemma ReleasesCompose(a: map<Id, Booking>, b: map<Id, Booking>, c: map<Id, Booking>, flight: Id)
    requires OnlyReleases(a, b, flight) && OnlyReleases(b, c, flight)
    ensures OnlyReleases(a, c, flight)
  {
  }
}
