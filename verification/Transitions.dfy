/** The system as a transition system: its state, its steps, and its runs.

    A step ends normally, with a returned failure, or with a raised error; a raised error keeps
    whatever was written before it, because nothing here runs inside a transaction. */
module Transitions {
  import opened Domain
  import opened DateTime
  import opened Lifecycle
  import opened Schema
  import opened Conflicts

  /** The tables, and the identifier counters of the services of the running process. */
  datatype State = State(t: Tables, nextAllocation: nat, nextSchedule: nat, nextDelay: nat, nextEmergency: nat)

  const INITIAL := State(EMPTY, 1, 1000, 1, 1)

  datatype Op =
    | CreateFlightOp(flight: Id, number: string, origin: string, destination: string, aircraft: string,
                     arrival: int, departure: int)
    | AddGateOp(id: Id, detail: string)
    | AddVehicleOp(id: Id, detail: string)
    | AddStaffOp(id: Id, detail: string)
    | SetGateOp(id: Id, status: ResourceStatus)
    | SetVehicleOp(id: Id, status: ResourceStatus)
    | SetStaffOp(id: Id, status: ResourceStatus)
    | TransitionOp(flight: Id, to: FlightStatus)
    | AllocateOp(request: Request)
    | ReleaseOp(allocation: Id)
    | ApplyDelayOp(flight: Id, reason: DelayReason, minutes: int, notes: string)
    | DeclareEmergencyOp(flight: Id, cause: string, now: int)
    | RecordLandingOp(emergency: Id, now: int)
    | BeginGroundHandlingOp(flight: Id, emergency: Id)
    | ResolveEmergencyOp(emergency: Id)
    | SeedOp(day: int)
    | RestartOp

  predicate IsResourceOp(op: Op) {
    op.AddGateOp? || op.AddVehicleOp? || op.AddStaffOp? || op.SetGateOp? || op.SetVehicleOp? || op.SetStaffOp?
  }

  predicate IsFlightOp(op: Op) {
    op.CreateFlightOp? || op.TransitionOp? || op.ApplyDelayOp?
  }

  predicate IsAllocationOp(op: Op) {
    op.AllocateOp? || op.ReleaseOp?
  }

  predicate IsEmergencyOp(op: Op) {
    op.DeclareEmergencyOp? || op.RecordLandingOp? || op.BeginGroundHandlingOp? || op.ResolveEmergencyOp?
  }

  datatype Outcome =
    | Done
    | Allocated(id: Id)
    | Rejected(conflict: ConflictType)
    | DelayApplied(id: Id, arrival: int, departure: int, warnings: seq<Warning>)
    | EmergencyDeclared(id: Id)
    | Thrown(error: Error)

  // ------------------------------------------------------------------ Flights

  function WithFlightStatus(t: Tables, flight: Id, status: FlightStatus): Tables {
    if flight in t.flights then t.(flights := t.flights[flight := t.flights[flight].(status := status)]) else t
  }

  function MoveFlight(t: Tables, flight: Id, to: FlightStatus): (Tables, Outcome) {
    if flight !in t.flights then (t, Thrown(NotFound))
    else if to !in Successors(t.flights[flight].status) then (t, Thrown(IllegalTransition))
    else (WithFlightStatus(t, flight, to), Done)
  }

  function CreateFlight(s: State, flight: Id, row: FlightRow, arrival: int, departure: int): (State, Outcome) {
    if flight in s.t.flights then (s, Thrown(Validation))
    else
      var schedule := ScheduleRow(Render("SC", s.nextSchedule), flight, arrival, departure, arrival, departure);
      (s.(t := s.t.(flights := s.t.flights[flight := row], schedules := UpsertSchedule(s.t.schedules, schedule)),
          nextSchedule := s.nextSchedule + 1),
       Done)
  }

  // ---------------------------------------------------------------- Resources

  function Add(rows: map<Id, ResourceRow>, id: Id, detail: string): map<Id, ResourceRow> {
    if id in rows then rows else SaveResource(rows, id, detail)
  }

  function AddOutcome(rows: map<Id, ResourceRow>, id: Id): Outcome {
    if id in rows then Thrown(Validation) else Done
  }

  function SetOutcome(rows: map<Id, ResourceRow>, id: Id): Outcome {
    if id in rows then Done else Thrown(NotFound)
  }

  // -------------------------------------------------------------- Allocations

  predicate Allocatable(status: FlightStatus) {
    status in {Scheduled, Approaching, Arrived, EmergencyLanding, GroundOperations, Delayed}
  }

  /** The statuses of everything a request names, set. */
  function Mark(t: Tables, gate: Id, vehicle: Id, staff: set<Id>, status: ResourceStatus): Tables {
    t.(gates := WithStatus(t.gates, {gate}, status),
       vehicles := WithStatus(t.vehicles, {vehicle}, status),
       staff := WithStatus(t.staff, staff, status))
  }

  function RowFor(id: Id, r: Request): AllocationRow {
    AllocationRow(id, r.flight, r.gate, r.vehicle, r.start, r.end, Success)
  }

  function Allocate(s: State, r: Request): (State, Outcome) {
    if r.flight !in s.t.flights then (s, Rejected(InvalidResource))
    else if !Allocatable(s.t.flights[r.flight].status) then (s, Rejected(InvalidFlightState))
    else
      var conflict := CheckConflict(s.t, r);
      if conflict != NoConflict then (s, Rejected(conflict))
      else
        var id := Render("AL", s.nextAllocation);
        var marked := Mark(s.t, r.gate, r.vehicle, Members(r.staff), Occupied);
        var (t, ok) := InsertAllocation(marked, RowFor(id, r), r.staff);
        (s.(t := t, nextAllocation := s.nextAllocation + 1), if ok then Allocated(id) else Thrown(DatabaseFailure))
  }

  function Release(t: Tables, id: Id): (Tables, Outcome) {
    var found := FindAllocation(t.allocations, id);
    if found.None? then (t, Thrown(NotFound))
    else if found.value.status == Released then (t, Thrown(Validation))
    else
      var a := found.value;
      (Mark(t, a.gate, a.vehicle, StaffOf(t.links, id), Available)
         .(allocations := WithAllocationStatus(t.allocations, id, Released)), Done)
  }

  // ------------------------------------------------------------------- Delays

  /** The re-check of one of the flight's allocations at the new window. */
  function Probe(t: Tables, a: AllocationRow, start: int, end: int): Request {
    Request(a.flight, a.gate, a.vehicle, LinkedStaff(t.links, a.id), start, end)
  }

  /** The warnings about a list of allocation rows, in the order of the list. */
  function Warnings(t: Tables, rows: seq<AllocationRow>, start: int, end: int): seq<Warning> {
    if rows == [] then []
    else
      var last := rows[|rows| - 1];
      var conflict := CheckConflict(t, Probe(t, last, start, end));
      Warnings(t, rows[..|rows| - 1], start, end)
      + (if last.status == Success && conflict != NoConflict then [Warning(last.id, conflict)] else [])
  }

  /** The second half of a delay call: shift the estimates, then re-check the allocations. */
  function Reschedule(t: Tables, flight: Id, delay: Id, minutes: int): (Tables, Outcome) {
    var found := FindSchedule(t.schedules, flight);
    if found.None? then (t, Thrown(NotFound))
    else
      var arrival := AddMinutes(found.value.estimatedArrival, minutes);
      var departure := AddMinutes(found.value.estimatedDeparture, minutes);
      var t' := t.(schedules := WithEstimates(t.schedules, flight, arrival, departure));
      (t', DelayApplied(delay, arrival, departure, Warnings(t', AllocationsForFlight(t', flight), arrival, departure)))
  }

  /** What a delay call does once its row is saved: set the flight Delayed, and reschedule it. */
  function Postpone(t: Tables, flight: Id, delay: Id, minutes: int): (Tables, Outcome) {
    var (moved, outcome) := MoveFlight(t, flight, Delayed);
    if outcome != Done then (moved, outcome) else Reschedule(moved, flight, delay, minutes)
  }

  function ApplyDelay(s: State, flight: Id, reason: DelayReason, minutes: int, notes: string): (State, Outcome) {
    if minutes <= 0 then (s, Thrown(Validation))
    else if flight !in s.t.flights then (s, Thrown(NotFound))
    else
      var id := Render("DL", s.nextDelay);
      var s1 := s.(nextDelay := s.nextDelay + 1);
      if exists d :: d in s.t.delays && d.id == id then (s1, Thrown(DatabaseFailure))
      else
        var recorded := s.t.(delays := s.t.delays + [DelayRow(id, flight, reason, minutes, notes)]);
        var (t, o) := Postpone(recorded, flight, id, minutes);
        (s1.(t := t), o)
  }

  // -------------------------------------------------------------- Emergencies

  function DeclareEmergency(s: State, flight: Id, cause: string, now: int): (State, Outcome) {
    var (t, outcome) := MoveFlight(s.t, flight, EmergencyLanding);
    if outcome != Done then (s, outcome)
    else
      var id := Render("EM", s.nextEmergency);
      var s1 := s.(t := t, nextEmergency := s.nextEmergency + 1);
      if exists e :: e in t.emergencies && e.id == id then (s1, Thrown(DatabaseFailure))
      else
        var row := EmergencyRow(id, flight, cause, now, 0, Declared);
        (s1.(t := t.(emergencies := t.emergencies + [row])), EmergencyDeclared(id))
  }

  function RecordLanding(t: Tables, id: Id, now: int): (Tables, Outcome) {
    if FindEmergency(t.emergencies, id).None? then (t, Thrown(NotFound))
    else (t.(emergencies := WithEmergency(t.emergencies, id, now, Landed)), Done)
  }

  function BeginGroundHandling(t: Tables, flight: Id, id: Id): (Tables, Outcome) {
    var found := FindEmergency(t.emergencies, id);
    if found.None? then (t, Thrown(NotFound))
    else if found.value.flight != flight then (t, Thrown(Validation))
    else
      var (moved, outcome) := MoveFlight(t, flight, GroundOperations);
      if outcome != Done then (t, outcome)
      else
        (moved.(emergencies := WithEmergency(moved.emergencies, id, found.value.landingTime, GroundHandling)), Done)
  }

  function ResolveEmergency(t: Tables, id: Id): (Tables, Outcome) {
    var found := FindEmergency(t.emergencies, id);
    if found.None? then (t, Thrown(NotFound))
    else (t.(emergencies := WithEmergency(t.emergencies, id, found.value.landingTime, Resolved)), Done)
  }

  // ---------------------------------------------------------------- Start-up

  function SampleSchedule(id: Id, flight: Id, day: int, arrivalMinute: int): ScheduleRow {
    var arrival, departure := AddMinutes(day, arrivalMinute), AddMinutes(day, arrivalMinute + 90);
    ScheduleRow(id, flight, arrival, departure, arrival, departure)
  }

  /** An upsert of a new resource: whatever was there, it is Available now. */
  function SaveResource(rows: map<Id, ResourceRow>, id: Id, detail: string): map<Id, ResourceRow> {
    rows[id := ResourceRow(detail, Available)]
  }

  /** Saves a list of resources. */
  function SaveResources(rows: map<Id, ResourceRow>, entries: seq<(Id, string)>): (saved: map<Id, ResourceRow>)
    ensures rows.Keys <= saved.Keys
    ensures forall id :: id in saved ==> saved[id].status == Available || (id in rows && saved[id] == rows[id])
    decreases |entries|
  {
    if entries == [] then rows
    else SaveResources(SaveResource(rows, entries[0].0, entries[0].1), entries[1..])
  }

  const SAMPLE_GATES: seq<(Id, string)> := [("G01", "A"), ("G02", "A"), ("G03", "B")]
  const SAMPLE_VEHICLES: seq<(Id, string)> := [("V01", "Baggage Tractor"), ("V02", "Fuel Truck")]
  const SAMPLE_STAFF: seq<(Id, string)> :=
    [("GS01", "Baggage Handling"), ("GS02", "Ramp Agent"), ("GS03", "Cleaning Crew"), ("GS04", "Catering Crew")]

  const SAMPLE_FLIGHTS: map<Id, FlightRow> := map[
    "FL001" := FlightRow("AI101", "DEL", "BOM", "A320", Scheduled),
    "FL002" := FlightRow("AI202", "BOM", "BLR", "B737", Scheduled),
    "FL003" := FlightRow("AI303", "BLR", "MAA", "A321", Scheduled)]

  function SampleSchedules(day: int): seq<ScheduleRow> {
    [SampleSchedule("SC0001", "FL001", day, 540),
     SampleSchedule("SC0002", "FL002", day, 660),
     SampleSchedule("SC0003", "FL003", day, 780)]
  }

  function SaveSchedules(rows: seq<ScheduleRow>, more: seq<ScheduleRow>): seq<ScheduleRow>
    decreases |more|
  {
    if more == [] then rows else SaveSchedules(UpsertSchedule(rows, more[0]), more[1..])
  }

  /** The sample data, saved only into a database without flights. `day` is the midnight that
      starts the sample day. */
  function Seed(t: Tables, day: int): Tables {
    if t.flights != map[] then t
    else t.(gates := SaveResources(t.gates, SAMPLE_GATES),
            vehicles := SaveResources(t.vehicles, SAMPLE_VEHICLES),
            staff := SaveResources(t.staff, SAMPLE_STAFF),
            flights := SAMPLE_FLIGHTS,
            schedules := SaveSchedules(t.schedules, SampleSchedules(day)))
  }

  // -------------------------------------------------------------- Steps, runs

  function Step(s: State, op: Op): (State, Outcome) {
    match op
    case CreateFlightOp(flight, number, origin, destination, aircraft, arrival, departure) =>
      CreateFlight(s, flight, FlightRow(number, origin, destination, aircraft, Scheduled), arrival, departure)
    case AddGateOp(id, detail) => (s.(t := s.t.(gates := Add(s.t.gates, id, detail))), AddOutcome(s.t.gates, id))
    case AddVehicleOp(id, detail) =>
      (s.(t := s.t.(vehicles := Add(s.t.vehicles, id, detail))), AddOutcome(s.t.vehicles, id))
    case AddStaffOp(id, detail) => (s.(t := s.t.(staff := Add(s.t.staff, id, detail))), AddOutcome(s.t.staff, id))
    case SetGateOp(id, status) =>
      (s.(t := s.t.(gates := WithStatus(s.t.gates, {id}, status))), SetOutcome(s.t.gates, id))
    case SetVehicleOp(id, status) =>
      (s.(t := s.t.(vehicles := WithStatus(s.t.vehicles, {id}, status))), SetOutcome(s.t.vehicles, id))
    case SetStaffOp(id, status) =>
      (s.(t := s.t.(staff := WithStatus(s.t.staff, {id}, status))), SetOutcome(s.t.staff, id))
    case TransitionOp(flight, to) => var (t, o) := MoveFlight(s.t, flight, to); (s.(t := t), o)
    case AllocateOp(r) => Allocate(s, r)
    case ReleaseOp(id) => var (t, o) := Release(s.t, id); (s.(t := t), o)
    case ApplyDelayOp(flight, reason, minutes, notes) => ApplyDelay(s, flight, reason, minutes, notes)
    case DeclareEmergencyOp(flight, cause, now) => DeclareEmergency(s, flight, cause, now)
    case RecordLandingOp(id, now) => var (t, o) := RecordLanding(s.t, id, now); (s.(t := t), o)
    case BeginGroundHandlingOp(flight, id) => var (t, o) := BeginGroundHandling(s.t, flight, id); (s.(t := t), o)
    case ResolveEmergencyOp(id) => var (t, o) := ResolveEmergency(s.t, id); (s.(t := t), o)
    case SeedOp(day) => (s.(t := Seed(s.t, day)), Done)
    case RestartOp => (INITIAL.(t := s.t), Done)
  }

  function Next(s: State, op: Op): State {
    Step(s, op).0
  }

  lemma AllocateStep(s: State, r: Request)
    ensures Step(s, AllocateOp(r)) == Allocate(s, r)
  {
  }

  lemma ReleaseStep(s: State, id: Id)
    ensures Next(s, ReleaseOp(id)) == s.(t := Release(s.t, id).0)
  {
  }

  lemma DelayStep(s: State, op: Op)
    requires op.ApplyDelayOp?
    ensures Step(s, op) == ApplyDelay(s, op.flight, op.reason, op.minutes, op.notes)
  {
  }

  /** A run: the operations executed, what each returned, and the states around them. A restart
      ends one process on a database and begins the next. */
  datatype Run = Run(states: seq<State>, ops: seq<Op>, outcomes: seq<Outcome>)

  ghost predicate IsRun(run: Run, start: State) {
    && |run.states| == |run.ops| + 1 && |run.outcomes| == |run.ops|
    && run.states[0] == start
    && forall i {:trigger run.ops[i]} :: 0 <= i < |run.ops| ==>
         (run.states[i + 1], run.outcomes[i]) == Step(run.states[i], run.ops[i])
  }

  function Final(run: Run): State
    requires run.states != []
  {
    run.states[|run.states| - 1]
  }

  /** The run without its last operation. */
  function Front(run: Run): Run
    requires run.ops != [] && run.states != [] && run.outcomes != []
  {
    Run(run.states[..|run.states| - 1], run.ops[..|run.ops| - 1], run.outcomes[..|run.outcomes| - 1])
  }

  function Extended(run: Run, op: Op, s: State, outcome: Outcome): Run {
    Run(run.states + [s], run.ops + [op], run.outcomes + [outcome])
  }

  function LastOp(run: Run): Op
    requires run.ops != []
  {
    run.ops[|run.ops| - 1]
  }

  lemma LastStep(run: Run, start: State)
    requires IsRun(run, start) && run.ops != []
    ensures IsRun(Front(run), start)
    ensures (Final(run), run.outcomes[|run.outcomes| - 1]) == Step(Final(Front(run)), LastOp(run))
  {
    var front := Front(run);
    forall i | 0 <= i < |front.ops|
      ensures (front.states[i + 1], front.outcomes[i]) == Step(front.states[i], front.ops[i])
    {
      assert front.ops[i] == run.ops[i];
    }
  }

  ghost predicate NoRestart(ops: seq<Op>) {
    forall i :: 0 <= i < |ops| ==> !ops[i].RestartOp?
  }

  /** A run of one process on a new database. */
  ghost predicate SingleProcess(run: Run) {
    IsRun(run, INITIAL) && NoRestart(run.ops)
  }

  lemma SingleProcessFront(run: Run)
    requires SingleProcess(run) && run.ops != []
    ensures SingleProcess(Front(run)) && !LastOp(run).RestartOp?
    ensures (Final(run), run.outcomes[|run.outcomes| - 1]) == Step(Final(Front(run)), LastOp(run))
  {
    LastStep(run, INITIAL);
  }

  lemma OneMoreStep(run: Run, start: State, op: Op)
    requires IsRun(run, start)
    ensures var (s, o) := Step(Final(run), op);
            IsRun(Extended(run, op, s, o), start) && Final(Extended(run, op, s, o)) == s
  {
    var longer := Extended(run, op, Step(Final(run), op).0, Step(Final(run), op).1);
    forall i | 0 <= i < |longer.ops|
      ensures (longer.states[i + 1], longer.outcomes[i]) == Step(longer.states[i], longer.ops[i])
    {
      if i < |run.ops| {
        assert longer.ops[i] == run.ops[i];
      }
    }
  }

  /** The same, for a step whose result is known under other names. */
  lemma Logged(run: Run, start: State, op: Op, s: State, outcome: Outcome)
    requires IsRun(run, start) && (s, outcome) == Step(Final(run), op)
    ensures IsRun(Extended(run, op, s, outcome), start) && Final(Extended(run, op, s, outcome)) == s
  {
    OneMoreStep(run, start, op);
  }
}
