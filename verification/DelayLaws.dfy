/** Schedules and delays over whole runs, and what the delay workflow's warnings mean. */
module DelayLaws {
  import opened Domain
  import opened DateTime
  import opened Schema
  import opened Conflicts
  import opened Transitions
  import opened Effects
  import opened Safety
  import opened Numbering

  // ---------------------------------------------------------- Schedule rows

  lemma {:induction false} FindAfterUpsert(rows: seq<ScheduleRow>, row: ScheduleRow, flight: Id)
    ensures FindSchedule(rows + [row], flight) ==
      match FindSchedule(rows, flight)
      case Some(found) => Some(found)
      case None => if row.flight == flight then Some(row) else None
  {
    if rows != [] {
      assert (rows + [row])[1..] == rows[1..] + [row];
      FindAfterUpsert(rows[1..], row, flight);
    } else {
      assert rows + [row] == [row];
    }
  }

  lemma {:induction false} FindAfterEstimates(rows: seq<ScheduleRow>, moved: Id, arrival: int, departure: int,
                                              flight: Id)
    ensures FindSchedule(WithEstimates(rows, moved, arrival, departure), flight) ==
      match FindSchedule(rows, flight)
      case None => None
      case Some(found) =>
        Some(if flight == moved then found.(estimatedArrival := arrival, estimatedDeparture := departure) else found)
  {
    if rows != [] {
      assert WithEstimates(rows, moved, arrival, departure)[1..] == WithEstimates(rows[1..], moved, arrival, departure);
      FindAfterEstimates(rows[1..], moved, arrival, departure, flight);
    }
  }

  /** The keys of the schedule table, and at most one schedule per flight. */
  ghost predicate ScheduleKeys(t: Tables) {
    && UniqueSchedules(t.schedules)
    && OneSchedulePerFlight(t.schedules)
    && forall row :: row in t.schedules ==> row.flight in t.flights
  }

  lemma SampleSaved(day: int)
    ensures SaveSchedules([], SampleSchedules(day)) == SampleSchedules(day)
  {
    var rows := SampleSchedules(day);
    assert rows[1..] == [rows[1], rows[2]] && rows[1..][1..] == [rows[2]];
    assert UpsertSchedule([], rows[0]) == [rows[0]];
    assert UpsertSchedule([rows[0]], rows[1]) == [rows[0], rows[1]];
    assert UpsertSchedule([rows[0], rows[1]], rows[2]) == rows;
    assert SaveSchedules(rows, []) == rows;
    assert SaveSchedules([rows[0], rows[1]], [rows[2]]) == rows;
    assert SaveSchedules([rows[0]], rows[1..]) == rows;
  }

  lemma ScheduleNeedsFlight(t: Tables)
    requires ScheduleKeys(t) && t.schedules != []
    ensures t.flights != map[]
  {
    assert t.schedules[0] in t.schedules;
  }

  lemma NoFlightsNoSchedules(t: Tables)
    requires ScheduleKeys(t) && t.flights == map[]
    ensures t.schedules == []
  {
    if t.schedules != [] {
      ScheduleNeedsFlight(t);
    }
  }

  lemma CreateKeepsSchedules(s: State, flight: Id, row: FlightRow, arrival: int, departure: int)
    requires ScheduleKeys(s.t)
    ensures ScheduleKeys(CreateFlight(s, flight, row, arrival, departure).0.t)
  {
    var t' := CreateFlight(s, flight, row, arrival, departure).0.t;
    forall r | r in t'.schedules ensures r.flight in t'.flights {
      var i :| 0 <= i < |t'.schedules| && t'.schedules[i] == r;
      if i < |s.t.schedules| {
        assert s.t.schedules[i] in s.t.schedules;
      }
    }
    assert forall r :: r in s.t.schedules ==> flight !in s.t.flights ==> r.flight != flight;
  }

  /** A delay call changes the schedules only when it returns, and then only the estimates. */
  lemma DelayedSchedules(s: State, flight: Id, reason: DelayReason, minutes: int, notes: string)
    ensures var (s', o) := ApplyDelay(s, flight, reason, minutes, notes);
            && s'.t.flights.Keys == s.t.flights.Keys
            && s'.nextSchedule == s.nextSchedule
            && (!o.DelayApplied? ==> s'.t.schedules == s.t.schedules)
            && (o.DelayApplied? ==>
                 && s'.t.schedules == WithEstimates(s.t.schedules, flight, o.arrival, o.departure)
                 && FindSchedule(s.t.schedules, flight).Some?
                 && o.arrival == AddMinutes(FindSchedule(s.t.schedules, flight).value.estimatedArrival, minutes)
                 && o.departure == AddMinutes(FindSchedule(s.t.schedules, flight).value.estimatedDeparture, minutes))
  {
  }

  lemma EstimatesKeepRows(rows: seq<ScheduleRow>, flight: Id, arrival: int, departure: int)
    ensures var rows' := WithEstimates(rows, flight, arrival, departure);
            && (UniqueSchedules(rows) ==> UniqueSchedules(rows'))
            && (OneSchedulePerFlight(rows) ==> OneSchedulePerFlight(rows'))
            && forall row :: row in rows' ==> exists r :: r in rows && r.id == row.id && r.flight == row.flight
  {
    var rows' := WithEstimates(rows, flight, arrival, departure);
    forall row | row in rows' ensures exists r :: r in rows && r.id == row.id && r.flight == row.flight {
      var i :| 0 <= i < |rows'| && rows'[i] == row;
      assert rows[i] in rows;
    }
  }

  lemma DelayKeepsSchedules(s: State, flight: Id, reason: DelayReason, minutes: int, notes: string)
    requires ScheduleKeys(s.t)
    ensures ScheduleKeys(ApplyDelay(s, flight, reason, minutes, notes).0.t)
  {
    var o := ApplyDelay(s, flight, reason, minutes, notes).1;
    DelayedSchedules(s, flight, reason, minutes, notes);
    if o.DelayApplied? {
      EstimatesKeepRows(s.t.schedules, flight, o.arrival, o.departure);
    }
  }

  lemma SeedKeepsSchedules(t: Tables, day: int)
    requires ScheduleKeys(t)
    ensures ScheduleKeys(Seed(t, day))
  {
    if t.flights == map[] {
      NoFlightsNoSchedules(t);
      SampleSaved(day);
      SampleKeys(day);
    }
  }

  lemma SampleKeys(day: int)
    ensures var rows := SampleSchedules(day);
            && UniqueSchedules(rows) && OneSchedulePerFlight(rows)
            && forall row :: row in rows ==> row.flight in SAMPLE_FLIGHTS
  {
    assert "FL001" in SAMPLE_FLIGHTS && "FL002" in SAMPLE_FLIGHTS && "FL003" in SAMPLE_FLIGHTS;
  }

  lemma StepKeepsSchedules(s: State, op: Op)
    requires ScheduleKeys(s.t)
    ensures ScheduleKeys(Next(s, op).t)
  {
    match op
    case CreateFlightOp(flight, number, origin, destination, aircraft, arrival, departure) =>
      CreateKeepsSchedules(s, flight, FlightRow(number, origin, destination, aircraft, Scheduled), arrival, departure);
    case ApplyDelayOp(flight, reason, minutes, notes) => DelayKeepsSchedules(s, flight, reason, minutes, notes);
    case SeedOp(day) => SeedKeepsSchedules(s.t, day);
    case _ => StepFrame(s, op);
  }

  // ------------------------------------------------------------ Conservation

  /** The flight has a schedule, and both its estimates are the scheduled times plus `total` minutes. */
  ghost predicate Shifted(t: Tables, flight: Id, total: int) {
    var found := FindSchedule(t.schedules, flight);
    && found.Some?
    && found.value.estimatedArrival == AddMinutes(found.value.scheduledArrival, total)
    && found.value.estimatedDeparture == AddMinutes(found.value.scheduledDeparture, total)
  }

  /** A known flight is shifted by the total; of an unknown one there is nothing to shift. */
  ghost predicate Tracks(t: Tables, flight: Id, total: int) {
    if flight in t.flights then Shifted(t, flight, total) else total == 0
  }

  ghost predicate ScheduleIdUnused(s: State) {
    forall row :: row in s.t.schedules ==> row.id != Render("SC", s.nextSchedule)
  }

  /** The operation creates a flight, and the schedule id that is generated for it is in use. */
  ghost predicate Clashes(s: State, op: Op) {
    op.CreateFlightOp? && op.flight !in s.t.flights && !ScheduleIdUnused(s)
  }

  ghost predicate Unclashed(run: Run) {
    |run.ops| < |run.states| && forall i :: 0 <= i < |run.ops| ==> !Clashes(run.states[i], run.ops[i])
  }

  /** What one operation adds to a flight's total: the minutes of a delay call that returned. */
  function Added(op: Op, outcome: Outcome, flight: Id): int {
    if op.ApplyDelayOp? && op.flight == flight && outcome.DelayApplied? then op.minutes else 0
  }

  /** The total minutes of the flight's delay calls that returned. */
  function Applied(ops: seq<Op>, outcomes: seq<Outcome>, flight: Id): int
    requires |ops| == |outcomes|
  {
    if ops == [] then 0
    else Applied(ops[..|ops| - 1], outcomes[..|outcomes| - 1], flight)
         + Added(ops[|ops| - 1], outcomes[|outcomes| - 1], flight)
  }

  function AppliedIn(run: Run, flight: Id): int
    requires |run.ops| == |run.outcomes|
  {
    Applied(run.ops, run.outcomes, flight)
  }

  lemma CreateShifts(s: State, created: Id, row: FlightRow, arrival: int, departure: int, flight: Id, total: int)
    requires ScheduleKeys(s.t) && Tracks(s.t, flight, total)
    requires created !in s.t.flights ==> ScheduleIdUnused(s)
    ensures Tracks(CreateFlight(s, created, row, arrival, departure).0.t, flight, total)
  {
    if created !in s.t.flights {
      var schedule := ScheduleRow(Render("SC", s.nextSchedule), created, arrival, departure, arrival, departure);
      FindAfterUpsert(s.t.schedules, schedule, flight);
      assert UpsertSchedule(s.t.schedules, schedule) == s.t.schedules + [schedule];
    }
  }

  lemma DelayShifts(s: State, delayed: Id, reason: DelayReason, minutes: int, notes: string, flight: Id, total: int)
    requires Tracks(s.t, flight, total)
    ensures var (s', o) := ApplyDelay(s, delayed, reason, minutes, notes);
            Tracks(s'.t, flight, total + if delayed == flight && o.DelayApplied? then minutes else 0)
  {
    var o := ApplyDelay(s, delayed, reason, minutes, notes).1;
    DelayedSchedules(s, delayed, reason, minutes, notes);
    if o.DelayApplied? {
      FindAfterEstimates(s.t.schedules, delayed, o.arrival, o.departure, flight);
      assert delayed in s.t.flights;
    }
  }

  lemma SampleFound(day: int)
    ensures var rows := SampleSchedules(day);
            && FindSchedule(rows, "FL001") == Some(rows[0])
            && FindSchedule(rows, "FL002") == Some(rows[1])
            && FindSchedule(rows, "FL003") == Some(rows[2])
  {
    var rows := SampleSchedules(day);
    assert rows[1..] == [rows[1], rows[2]] && rows[1..][1..] == [rows[2]];
    assert FindSchedule(rows[1..], "FL002") == Some(rows[1]);
    assert FindSchedule(rows[1..][1..], "FL003") == Some(rows[2]);
    assert FindSchedule(rows[1..], "FL003") == Some(rows[2]);
  }

  lemma SeedShifts(t: Tables, day: int, flight: Id, total: int)
    requires ScheduleKeys(t) && Tracks(t, flight, total)
    ensures Tracks(Seed(t, day), flight, total)
  {
    if t.flights == map[] {
      NoFlightsNoSchedules(t);
      SampleSaved(day);
      SampleFound(day);
    }
  }

  lemma CreateStepShifts(s: State, op: Op, flight: Id, total: int)
    requires op.CreateFlightOp? && ScheduleKeys(s.t) && !Clashes(s, op) && Tracks(s.t, flight, total)
    ensures Tracks(Next(s, op).t, flight, total)
  {
    var row := FlightRow(op.number, op.origin, op.destination, op.aircraft, Scheduled);
    CreateShifts(s, op.flight, row, op.arrival, op.departure, flight, total);
  }

  lemma DelayStepShifts(s: State, op: Op, flight: Id, total: int)
    requires op.ApplyDelayOp? && Tracks(s.t, flight, total)
    ensures Tracks(Next(s, op).t, flight, total + Added(op, Step(s, op).1, flight))
  {
    DelayShifts(s, op.flight, op.reason, op.minutes, op.notes, flight, total);
  }

  lemma StepShifts(s: State, op: Op, flight: Id, total: int)
    requires ScheduleKeys(s.t) && !Clashes(s, op) && Tracks(s.t, flight, total)
    ensures Tracks(Next(s, op).t, flight, total + Added(op, Step(s, op).1, flight))
  {
    if op.CreateFlightOp? {
      CreateStepShifts(s, op, flight, total);
    } else if op.ApplyDelayOp? {
      DelayStepShifts(s, op, flight, total);
    } else if op.SeedOp? {
      SeedShifts(s.t, op.day, flight, total);
    } else {
      StepFrame(s, op);
    }
  }

  lemma {:induction false} RunKeepsSchedules(run: Run)
    requires IsRun(run, INITIAL)
    ensures ScheduleKeys(Final(run).t)
    decreases |run.ops|
  {
    if run.ops != [] {
      LastStep(run, INITIAL);
      RunKeepsSchedules(Front(run));
      StepKeepsSchedules(Final(Front(run)), LastOp(run));
    }
  }

  lemma UnclashedFront(run: Run)
    requires run.ops != [] && run.outcomes != [] && |run.states| == |run.ops| + 1
    ensures Unclashed(run) <==> Unclashed(Front(run)) && !Clashes(Final(Front(run)), LastOp(run))
  {
    var front := Front(run);
    assert forall i :: 0 <= i < |front.ops| ==> front.states[i] == run.states[i] && front.ops[i] == run.ops[i];
  }

  lemma AppliedGrows(run: Run, flight: Id)
    requires IsRun(run, INITIAL) && run.ops != []
    ensures AppliedIn(run, flight)
         == AppliedIn(Front(run), flight) + Added(LastOp(run), run.outcomes[|run.outcomes| - 1], flight)
  {
  }

  lemma {:induction false} RunShifts(run: Run, flight: Id)
    requires IsRun(run, INITIAL) && Unclashed(run)
    ensures Tracks(Final(run).t, flight, AppliedIn(run, flight))
    decreases |run.ops|
  {
    if run.ops != [] {
      LastStep(run, INITIAL);
      UnclashedFront(run);
      RunShifts(Front(run), flight);
      RunKeepsSchedules(Front(run));
      AppliedGrows(run, flight);
      StepShifts(Final(Front(run)), LastOp(run), flight, AppliedIn(Front(run), flight));
    }
  }

  /** A generated schedule id is unused in the table exactly when its series has not used it: it is
      never one of the sample ids. */
  lemma ScheduleIdIsGenerated(s: State)
    requires 1000 <= s.nextSchedule
    ensures ScheduleIdUnused(s) <==> IdUnused(s, SC)
  {
    SampleIdsAreOthers(0, s.nextSchedule);
  }

  /** Within one process generated schedule ids never clash. */
  lemma {:induction false} SingleProcessUnclashed(run: Run)
    requires SingleProcess(run)
    ensures Unclashed(run)
    decreases |run.ops|
  {
    if run.ops != [] {
      SingleProcessFront(run);
      SingleProcessUnclashed(Front(run));
      UnclashedFront(run);
      SingleProcessIds(Front(run), SC);
      ProcessTakesIds(Front(run), INITIAL, SC);
      ScheduleIdIsGenerated(Final(Front(run)));
    }
  }

  /** After a restart on a database with n generated schedule ids, exactly the first n new flights
      clash, whatever else the new process does. */
  lemma RestartedCreationClashes(before: Run, run: Run, op: Op)
    requires IsRun(before, INITIAL) && IsRun(run, INITIAL.(t := Final(before).t)) && NoRestart(run.ops)
    requires op.CreateFlightOp? && op.flight !in Final(run).t.flights
    ensures Clashes(Final(run), op) <==> IdsTaken(run.states, run.ops, SC) < |UsedIds(Final(before).t, SC)|
  {
    RunKeepsKeys(before);
    RestartReusesIds(before, run, SC);
    ProcessTakesIds(run, INITIAL.(t := Final(before).t), SC);
    ScheduleIdIsGenerated(Final(run));
  }

  /** The row is the flight's only one, and has been shifted by the minutes. */
  ghost predicate OnlyRow(rows: seq<ScheduleRow>, i: nat, flight: Id, minutes: int)
    requires i < |rows|
  {
    var row := rows[i];
    && row.flight == flight && (forall j :: 0 <= j < |rows| && rows[j].flight == flight ==> j == i)
    && row.estimatedArrival == row.scheduledArrival + 60 * minutes
    && row.estimatedDeparture == row.scheduledDeparture + 60 * minutes
    && row.estimatedDeparture - row.estimatedArrival == row.scheduledDeparture - row.scheduledArrival
    && MinutesSince(row.estimatedArrival, row.scheduledArrival) == minutes
  }

  /** Creating a flight gives it a schedule iff the generated schedule id is unused. After a restart
      it may be used: then the flight has no schedule, and another flight's estimates are overwritten. */
  lemma CreateFlightSchedules(s: State, flight: Id, row: FlightRow, arrival: int, departure: int)
    requires ScheduleKeys(s.t) && flight !in s.t.flights
    ensures var rows, rows' := s.t.schedules, CreateFlight(s, flight, row, arrival, departure).0.t.schedules;
            && FindSchedule(rows', flight) == (if !ScheduleIdUnused(s) then None else
                 Some(ScheduleRow(Render("SC", s.nextSchedule), flight, arrival, departure, arrival, departure)))
            && forall i :: 0 <= i < |rows| ==>
                 rows'[i] == if rows[i].id == Render("SC", s.nextSchedule)
                             then rows[i].(estimatedArrival := arrival, estimatedDeparture := departure) else rows[i]
  {
    var id := Render("SC", s.nextSchedule);
    var schedule := ScheduleRow(id, flight, arrival, departure, arrival, departure);
    var rows' := UpsertSchedule(s.t.schedules, schedule);
    if ScheduleIdUnused(s) {
      FindAfterUpsert(s.t.schedules, schedule, flight);
    } else {
      assert |rows'| == |s.t.schedules|;
      forall r | r in rows' ensures r.flight != flight {
        var i :| 0 <= i < |rows'| && rows'[i] == r;
        assert s.t.schedules[i] in s.t.schedules;
      }
    }
  }

  ghost predicate Conserved(rows: seq<ScheduleRow>, flight: Id, minutes: int) {
    exists i :: 0 <= i < |rows| && OnlyRow(rows, i, flight, minutes)
  }

  lemma TrackedIsConserved(t: Tables, flight: Id, minutes: int)
    requires ScheduleKeys(t) && flight in t.flights && Tracks(t, flight, minutes)
    ensures Conserved(t.schedules, flight, minutes)
  {
    var found := FindSchedule(t.schedules, flight).value;
    var i :| 0 <= i < |t.schedules| && t.schedules[i] == found;
    MinutesRecovered(found.scheduledArrival, minutes);
    assert OnlyRow(t.schedules, i, flight, minutes);
  }

  ghost predicate Unscheduled(t: Tables, flight: Id) {
    flight in t.flights && FindSchedule(t.schedules, flight).None?
  }

  lemma ClashLeavesUnscheduled(s: State, op: Op)
    requires ScheduleKeys(s.t) && Clashes(s, op)
    ensures Unscheduled(Next(s, op).t, op.flight)
  {
    var row := FlightRow(op.number, op.origin, op.destination, op.aircraft, Scheduled);
    CreateFlightSchedules(s, op.flight, row, op.arrival, op.departure);
  }

  lemma CreateKeepsUnscheduled(s: State, created: Id, row: FlightRow, arrival: int, departure: int, flight: Id)
    requires Unscheduled(s.t, flight)
    ensures Unscheduled(CreateFlight(s, created, row, arrival, departure).0.t, flight)
  {
    var t' := CreateFlight(s, created, row, arrival, departure).0.t;
    forall r | r in t'.schedules ensures r.flight != flight {
      var i :| 0 <= i < |t'.schedules| && t'.schedules[i] == r;
      assert i < |s.t.schedules| ==> s.t.schedules[i] in s.t.schedules;
    }
  }

  /** A flight without a schedule never gets one. */
  lemma StepKeepsUnscheduled(s: State, op: Op, flight: Id)
    requires Unscheduled(s.t, flight)
    ensures Unscheduled(Next(s, op).t, flight)
  {
    match op
    case CreateFlightOp(created, number, origin, destination, aircraft, arrival, departure) =>
      var row := FlightRow(number, origin, destination, aircraft, Scheduled);
      CreateKeepsUnscheduled(s, created, row, arrival, departure, flight);
    case ApplyDelayOp(delayed, reason, minutes, notes) =>
      DelayedSchedules(s, delayed, reason, minutes, notes);
      var o := ApplyDelay(s, delayed, reason, minutes, notes).1;
      if o.DelayApplied? {
        FindAfterEstimates(s.t.schedules, delayed, o.arrival, o.departure, flight);
      }
    case SeedOp(_) =>
    case _ => StepFrame(s, op);
  }

  lemma {:induction false} ClashedRunLeavesUnscheduled(run: Run) returns (flight: Id)
    requires IsRun(run, INITIAL) && !Unclashed(run)
    ensures Unscheduled(Final(run).t, flight)
    decreases |run.ops|
  {
    LastStep(run, INITIAL);
    UnclashedFront(run);
    if Unclashed(Front(run)) {
      flight := LastOp(run).flight;
      RunKeepsSchedules(Front(run));
      ClashLeavesUnscheduled(Final(Front(run)), LastOp(run));
    } else {
      flight := ClashedRunLeavesUnscheduled(Front(run));
      StepKeepsUnscheduled(Final(Front(run)), LastOp(run), flight);
    }
  }

  /** In every run, restarts included: each flight has exactly one schedule row, both its estimates
      differ from the scheduled times by the minutes of all the delay calls that returned, the
      turnaround has not changed, and the minutes can be read back, if and only if no creation of a
      flight clashed with a schedule id in use. Within one process none does. */
  lemma DelayConservation(run: Run)
    requires IsRun(run, INITIAL)
    ensures var t := Final(run).t;
            Unclashed(run) <==>
              forall flight :: flight in t.flights ==> Conserved(t.schedules, flight, AppliedIn(run, flight))
    ensures SingleProcess(run) ==> Unclashed(run)
  {
    var t := Final(run).t;
    if Unclashed(run) {
      forall flight | flight in t.flights ensures Conserved(t.schedules, flight, AppliedIn(run, flight)) {
        RunShifts(run, flight);
        RunKeepsSchedules(run);
        TrackedIsConserved(t, flight, AppliedIn(run, flight));
      }
    } else {
      var flight := ClashedRunLeavesUnscheduled(run);
      assert !Conserved(t.schedules, flight, AppliedIn(run, flight));
    }
    if SingleProcess(run) {
      SingleProcessUnclashed(run);
    }
  }

  // ------------------------------------------------- How a delay call ends

  /** The call gets as far as saving its delay row. */
  ghost predicate Records(s: State, flight: Id, minutes: int) {
    minutes > 0 && flight in s.t.flights && forall d :: d in s.t.delays ==> d.id != Render("DL", s.nextDelay)
  }

  /** The call gets as far as setting the flight Delayed. */
  ghost predicate Suspends(s: State, flight: Id, minutes: int) {
    Records(s, flight, minutes) && s.t.flights[flight].status in {GroundOperations, Boarding, ReadyForDeparture}
  }

  /** What a delay call leaves behind, however it ends. */
  lemma ApplyDelayWrites(s: State, flight: Id, reason: DelayReason, minutes: int, notes: string)
    ensures var t' := ApplyDelay(s, flight, reason, minutes, notes).0.t;
            var row := DelayRow(Render("DL", s.nextDelay), flight, reason, minutes, notes);
            && t'.delays == (if Records(s, flight, minutes) then s.t.delays + [row] else s.t.delays)
            && t'.allocations == s.t.allocations && t'.links == s.t.links
  {
  }

  lemma ApplyDelaySuspends(s: State, flight: Id, reason: DelayReason, minutes: int, notes: string)
    ensures ApplyDelay(s, flight, reason, minutes, notes).0.t.flights
         == if Suspends(s, flight, minutes)
            then s.t.flights[flight := s.t.flights[flight].(status := Delayed)] else s.t.flights
  {
  }

  /** The call returns exactly when it suspends the flight and the flight has a schedule. Otherwise
      it raises and no schedule changes; a flight without a schedule is then left Delayed. */
  lemma ApplyDelayOutcome(s: State, flight: Id, reason: DelayReason, minutes: int, notes: string)
    ensures var (s', o) := ApplyDelay(s, flight, reason, minutes, notes);
            var completes := Suspends(s, flight, minutes) && FindSchedule(s.t.schedules, flight).Some?;
            && (o.DelayApplied? <==> completes)
            && (o.Thrown? <==> !completes)
            && (!completes ==> s'.t.schedules == s.t.schedules)
  {
  }

  /** A delay call raises and yet leaves its row behind exactly when it saves the row and then finds
      the flight in no state that may be delayed, or without a schedule; in the latter case the flight
      is left Delayed as well. */
  lemma RaisingDelayLeaves(s: State, flight: Id, reason: DelayReason, minutes: int, notes: string)
    ensures var (s', o) := ApplyDelay(s, flight, reason, minutes, notes);
            var scheduled := FindSchedule(s.t.schedules, flight).Some?;
            && (o.Thrown? && s'.t.delays != s.t.delays
                <==> Records(s, flight, minutes) && !(Suspends(s, flight, minutes) && scheduled))
            && (o.Thrown? && s'.t.flights != s.t.flights <==> Suspends(s, flight, minutes) && !scheduled)
  {
    ApplyDelayWrites(s, flight, reason, minutes, notes);
    ApplyDelaySuspends(s, flight, reason, minutes, notes);
    ApplyDelayOutcome(s, flight, reason, minutes, notes);
    var row := DelayRow(Render("DL", s.nextDelay), flight, reason, minutes, notes);
    assert s.t.delays + [row] != s.t.delays;
    if Suspends(s, flight, minutes) {
      assert s.t.flights[flight := s.t.flights[flight].(status := Delayed)][flight].status == Delayed;
    }
  }

  /** After a restart on a database with n delay rows, exactly the first n delay calls that are for a
      known flight and a positive delay raise before they record anything, whatever else the new
      process does. */
  lemma RestartedDelayRaises(before: Run, run: Run, flight: Id, reason: DelayReason, minutes: int, notes: string)
    requires IsRun(before, INITIAL) && IsRun(run, INITIAL.(t := Final(before).t)) && NoRestart(run.ops)
    requires minutes > 0 && flight in Final(run).t.flights
    ensures var s, (s', o) := Final(run), ApplyDelay(Final(run), flight, reason, minutes, notes);
            var used := IdsTaken(run.states, run.ops, DL) < |UsedIds(Final(before).t, DL)|;
            && (used <==> o == Thrown(DatabaseFailure)) && (used <==> s'.t == s.t)
  {
    RestartReusesIds(before, run, DL);
    DelayClashes(Final(run), flight, reason, minutes, notes);
  }

  lemma DelayClashes(s: State, flight: Id, reason: DelayReason, minutes: int, notes: string)
    requires minutes > 0 && flight in s.t.flights
    ensures var (s', o) := ApplyDelay(s, flight, reason, minutes, notes);
            (!IdUnused(s, DL) <==> o == Thrown(DatabaseFailure)) && (!IdUnused(s, DL) <==> s'.t == s.t)
  {
    ApplyDelayWrites(s, flight, reason, minutes, notes);
    var row := DelayRow(Render("DL", s.nextDelay), flight, reason, minutes, notes);
    assert s.t.delays + [row] != s.t.delays;
    assert Records(s, flight, minutes) <==> IdUnused(s, DL);
  }

  // ---------------------------------------------------------------- Warnings

  /** A row about which the re-check warns. */
  predicate Warned(t: Tables, a: AllocationRow, start: int, end: int) {
    a.status == Success && CheckConflict(t, Probe(t, a, start, end)) != NoConflict
  }

  /** The warnings are, in table order and without repetition, the rows that the re-check finds in
      conflict, each with the conflict found. */
  lemma {:induction false} WarningsAreSelected(t: Tables, rows: seq<AllocationRow>, start: int, end: int)
    ensures var warnings := Warnings(t, rows, start, end);
            var warned := Select(rows, (a: AllocationRow) => Warned(t, a, start, end));
            && |warnings| == |warned|
            && forall i :: 0 <= i < |warned| ==>
                 warnings[i] == Warning(warned[i].id, CheckConflict(t, Probe(t, warned[i], start, end)))
  {
    if rows != [] {
      WarningsAreSelected(t, rows[..|rows| - 1], start, end);
    }
  }

  ghost predicate NamesOffline(v: Availability, b: Booking) {
    b.gate in v.offlineGates || b.vehicle in v.offlineVehicles || !(b.staff !! v.offlineStaff)
  }

  /** A booking, moved to the window, would double-book something. */
  ghost predicate WouldClash(m: map<Id, Booking>, b: Booking, start: int, end: int) {
    exists j :: j in m && m[j].active && m[j].flight != b.flight && ShareResource(m[j], b)
                && Overlaps(start, end, m[j].start, m[j].end)
  }

  lemma TakenMeansClash(v: Availability, b: Booking, r: Request)
    requires r.flight == b.flight && r.gate == b.gate && r.vehicle == b.vehicle && Members(r.staff) == b.staff
    ensures WouldClash(v.bookings, b, r.start, r.end) <==>
      || GateTaken(v.bookings, r) || VehicleTaken(v.bookings, r)
      || exists x :: x in b.staff && StaffTaken(v.bookings, r, x)
  {
    var m := v.bookings;
    if j :| j in m && m[j].gate == r.gate && Blocks(m[j], r) {
      assert Uses(m[j], Gate(b.gate)) && Uses(b, Gate(b.gate));
    }
    if j :| j in m && m[j].vehicle == r.vehicle && Blocks(m[j], r) {
      assert Uses(m[j], Vehicle(b.vehicle)) && Uses(b, Vehicle(b.vehicle));
    }
    if x, j :| x in b.staff && j in m && x in m[j].staff && Blocks(m[j], r) {
      assert Uses(m[j], Staff(x)) && Uses(b, Staff(x));
    }
    if WouldClash(m, b, r.start, r.end) {
      var j :| j in m && m[j].active && m[j].flight != b.flight && ShareResource(m[j], b)
               && Overlaps(r.start, r.end, m[j].start, m[j].end);
      var resource :| Uses(m[j], resource) && Uses(b, resource);
      assert Blocks(m[j], r);
      match resource
      case Gate(_) => assert GateTaken(m, r);
      case Vehicle(_) => assert VehicleTaken(m, r);
      case Staff(x) => assert StaffTaken(m, r, x);
    }
  }

  /** The re-check of an existing allocation fails iff it names something under maintenance or
      would double-book something at the new window. */
  lemma ProbeDecides(t: Tables, a: AllocationRow, start: int, end: int)
    requires BookingKeys(t) && a in t.allocations
    ensures var b := BookingOf(a, t.links);
            CheckConflict(t, Probe(t, a, start, end)) != NoConflict
            <==> NamesOffline(AvailabilityOf(t), b) || WouldClash(BookingMap(t), b, start, end)
  {
    var b, r, v := BookingOf(a, t.links), Probe(t, a, start, end), AvailabilityOf(t);
    CheckConflictDecides(t, r);
    TakenMeansClash(v, b, r);
    assert Exist(v, r) by {
      forall x | x in Members(r.staff) ensures x in t.staff {
        var l :| l in t.links && l.allocation == a.id && l.staff == x;
      }
    }
  }

  /** The bookings with all of a flight's active ones moved to a window. */
  function MoveBookings(m: map<Id, Booking>, flight: Id, start: int, end: int): map<Id, Booking> {
    map id | id in m :: if m[id].active && m[id].flight == flight then m[id].(start := start, end := end) else m[id]
  }

  lemma MovingSharesAlike(m: map<Id, Booking>, flight: Id, start: int, end: int)
    ensures var m' := MoveBookings(m, flight, start, end);
            forall i, j :: i in m && j in m ==> (ShareResource(m'[i], m'[j]) <==> ShareResource(m[i], m[j]))
  {
    var m' := MoveBookings(m, flight, start, end);
    assert forall i, resource :: i in m ==> (Uses(m'[i], resource) <==> Uses(m[i], resource));
  }

  /** None of the flight's active bookings would clash at the new window. */
  ghost predicate NoneWouldClash(m: map<Id, Booking>, flight: Id, start: int, end: int) {
    forall id :: id in m && m[id].active && m[id].flight == flight ==> !WouldClash(m, m[id], start, end)
  }

  lemma SafeMoveMeansNoClash(m: map<Id, Booking>, flight: Id, start: int, end: int)
    requires NoDoubleBooking(MoveBookings(m, flight, start, end))
    ensures NoneWouldClash(m, flight, start, end)
  {
    var m' := MoveBookings(m, flight, start, end);
    MovingSharesAlike(m, flight, start, end);
    forall id, j | id in m && m[id].active && m[id].flight == flight
                   && j in m && m[j].active && m[j].flight != flight && ShareResource(m[j], m[id])
      ensures !Overlaps(start, end, m[j].start, m[j].end)
    {
      assert ShareResource(m'[j], m'[id]) && !Overlapping(m'[j], m'[id]);
    }
  }

  lemma NoClashMeansSafeMove(m: map<Id, Booking>, flight: Id, start: int, end: int)
    requires NoDoubleBooking(m) && NoneWouldClash(m, flight, start, end)
    ensures NoDoubleBooking(MoveBookings(m, flight, start, end))
  {
    var m' := MoveBookings(m, flight, start, end);
    MovingSharesAlike(m, flight, start, end);
    forall i, j | i in m' && j in m' && m'[i].active && m'[j].active && m'[i].flight != m'[j].flight
                  && ShareResource(m'[i], m'[j])
      ensures !Overlapping(m'[i], m'[j])
    {
      assert ShareResource(m[j], m[i]) && ShareResource(m[i], m[j]);
      if m[i].flight == flight {
        assert !WouldClash(m, m[i], start, end);
      } else if m[j].flight == flight {
        assert !WouldClash(m, m[j], start, end);
      }
    }
  }

  /** Moving a flight's bookings is safe iff none of them would clash at the new window. */
  lemma MovingIsSafe(m: map<Id, Booking>, flight: Id, start: int, end: int)
    requires NoDoubleBooking(m)
    ensures NoDoubleBooking(MoveBookings(m, flight, start, end)) <==> NoneWouldClash(m, flight, start, end)
  {
    if NoneWouldClash(m, flight, start, end) {
      NoClashMeansSafeMove(m, flight, start, end);
    } else if NoDoubleBooking(MoveBookings(m, flight, start, end)) {
      SafeMoveMeansNoClash(m, flight, start, end);
    }
  }

  /** A booking that the re-check must warn about: it would clash at the new window, or it names
      something under maintenance. */
  ghost predicate NeedsWarning(t: Tables, id: Id, flight: Id, start: int, end: int) {
    var m := BookingMap(t);
    && id in m && m[id].active && m[id].flight == flight
    && (NamesOffline(AvailabilityOf(t), m[id]) || WouldClash(m, m[id], start, end))
  }

  lemma RowNeedsWarning(t: Tables, a: AllocationRow, flight: Id, start: int, end: int)
    requires BookingKeys(t) && a in t.allocations
    ensures NeedsWarning(t, a.id, flight, start, end) <==> a.flight == flight && Warned(t, a, start, end)
  {
    BookingOfRow(t, a);
    ProbeDecides(t, a, start, end);
  }

  /** The rows of the flight that are warned about. */
  function WarnedRows(t: Tables, flight: Id, start: int, end: int): seq<AllocationRow> {
    Select(AllocationsForFlight(t, flight), (a: AllocationRow) => Warned(t, a, start, end))
  }

  lemma WarnedRowsMeaning(t: Tables, flight: Id, start: int, end: int)
    requires BookingKeys(t)
    ensures forall id ::
      id in AllocationIds(WarnedRows(t, flight, start, end)) <==> NeedsWarning(t, id, flight, start, end)
  {
    var warned := WarnedRows(t, flight, start, end);
    SelectKeeps(AllocationsForFlight(t, flight), (a: AllocationRow) => Warned(t, a, start, end));
    SelectKeeps(t.allocations, (a: AllocationRow) => a.flight == flight);
    forall id ensures id in AllocationIds(warned) <==> NeedsWarning(t, id, flight, start, end) {
      if a :| a in warned && a.id == id {
        RowNeedsWarning(t, a, flight, start, end);
      }
      if NeedsWarning(t, id, flight, start, end) {
        var a := FindAllocation(t.allocations, id).value;
        RowNeedsWarning(t, a, flight, start, end);
        assert a in warned;
      }
    }
  }

  ghost predicate WarnsAbout(warnings: seq<Warning>, id: Id) {
    exists i :: 0 <= i < |warnings| && warnings[i].allocation == id
  }

  /** The warnings of a delay call, over the bookings: one for each of the flight's active bookings
      that would clash at the new window or that name something under maintenance, in table order
      and never two for the same booking. */
  lemma WarningsMeaning(t: Tables, flight: Id, start: int, end: int)
    requires BookingKeys(t)
    ensures var warnings := Warnings(t, AllocationsForFlight(t, flight), start, end);
            && (forall id :: WarnsAbout(warnings, id) <==> NeedsWarning(t, id, flight, start, end))
            && (forall i, j :: 0 <= i < j < |warnings| ==> warnings[i].allocation != warnings[j].allocation)
  {
    var warnings, warned := Warnings(t, AllocationsForFlight(t, flight), start, end), WarnedRows(t, flight, start, end);
    WarningsAreSelected(t, AllocationsForFlight(t, flight), start, end);
    WarnedRowsMeaning(t, flight, start, end);
    SelectUnique(t.allocations, (a: AllocationRow) => a.flight == flight);
    SelectUnique(AllocationsForFlight(t, flight), (a: AllocationRow) => Warned(t, a, start, end));
    forall id ensures WarnsAbout(warnings, id) <==> id in AllocationIds(warned) {
      if i :| 0 <= i < |warnings| && warnings[i].allocation == id {
        assert warned[i] in warned;
      }
      if id in AllocationIds(warned) {
        var i :| 0 <= i < |warned| && warned[i].id == id;
        assert warnings[i].allocation == id;
      }
    }
  }

  lemma NoWarnings(t: Tables, flight: Id, start: int, end: int)
    requires BookingKeys(t)
    ensures Warnings(t, AllocationsForFlight(t, flight), start, end) == []
       <==> forall id :: !NeedsWarning(t, id, flight, start, end)
  {
    WarningsMeaning(t, flight, start, end);
    var warnings := Warnings(t, AllocationsForFlight(t, flight), start, end);
    if warnings != [] {
      assert WarnsAbout(warnings, warnings[0].allocation);
    } else {
      assert forall id :: !WarnsAbout(warnings, id);
    }
  }

  /** None of the flight's active bookings names anything under maintenance. */
  ghost predicate NothingOffline(v: Availability, flight: Id) {
    forall id :: id in v.bookings && v.bookings[id].active && v.bookings[id].flight == flight
      ==> !NamesOffline(v, v.bookings[id])
  }

  /** There is nothing to warn about iff nothing would clash and nothing is offline. */
  lemma SilenceMeans(t: Tables, flight: Id, start: int, end: int)
    requires BookingKeys(t)
    ensures Warnings(t, AllocationsForFlight(t, flight), start, end) == []
       <==> NoneWouldClash(BookingMap(t), flight, start, end) && NothingOffline(AvailabilityOf(t), flight)
  {
    var m, v := BookingMap(t), AvailabilityOf(t);
    NoWarnings(t, flight, start, end);
    if forall id :: !NeedsWarning(t, id, flight, start, end) {
      forall id | id in m && m[id].active && m[id].flight == flight
        ensures !WouldClash(m, m[id], start, end) && !NamesOffline(v, m[id])
      {
        assert !NeedsWarning(t, id, flight, start, end);
      }
    }
  }

  lemma NoWarningsMeansMovable(t: Tables, flight: Id, start: int, end: int)
    requires BookingKeys(t) && NoDoubleBooking(BookingMap(t))
    ensures Warnings(t, AllocationsForFlight(t, flight), start, end) == []
       <==> && NoDoubleBooking(MoveBookings(BookingMap(t), flight, start, end))
            && NothingOffline(AvailabilityOf(t), flight)
  {
    SilenceMeans(t, flight, start, end);
    MovingIsSafe(BookingMap(t), flight, start, end);
  }

  lemma DelayLeavesAvailability(s: State, flight: Id, reason: DelayReason, minutes: int, notes: string)
    requires BookingKeys(s.t) && ApplyDelay(s, flight, reason, minutes, notes).1.DelayApplied?
    ensures var (s', o) := ApplyDelay(s, flight, reason, minutes, notes);
            && BookingKeys(s'.t) && BookingMap(s'.t) == BookingMap(s.t) && AvailabilityOf(s'.t) == AvailabilityOf(s.t)
            && o.warnings == Warnings(s'.t, AllocationsForFlight(s'.t, flight), o.arrival, o.departure)
  {
    ApplyDelayWrites(s, flight, reason, minutes, notes);
    ApplyDelaySuspends(s, flight, reason, minutes, notes);
  }

  /** In a safe state, a returned delay call gives no warnings exactly when the flight's active
      bookings can all be moved to the new window with nothing booked twice, and none of them names
      anything under maintenance. */
  lemma NoWarningsMeansSafe(s: State, flight: Id, reason: DelayReason, minutes: int, notes: string)
    requires BookingKeys(s.t) && NoDoubleBooking(BookingMap(s.t))
    requires ApplyDelay(s, flight, reason, minutes, notes).1.DelayApplied?
    ensures var o := ApplyDelay(s, flight, reason, minutes, notes).1;
            o.warnings == [] <==>
              && NoDoubleBooking(MoveBookings(BookingMap(s.t), flight, o.arrival, o.departure))
              && NothingOffline(AvailabilityOf(s.t), flight)
  {
    var (s', o) := ApplyDelay(s, flight, reason, minutes, notes);
    DelayLeavesAvailability(s, flight, reason, minutes, notes);
    NoWarningsMeansMovable(s'.t, flight, o.arrival, o.departure);
  }
}
