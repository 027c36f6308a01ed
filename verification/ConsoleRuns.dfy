/** Runs driven from the console, where a status change can only be asked for from its menu: then
    the life cycle, the delay calls and the emergency records tell the same story. */
module ConsoleRuns {
  import opened Domain
  import opened DateTime
  import opened Lifecycle
  import opened Schema
  import opened Transitions
  import opened Effects
  import opened Numbering
  import opened DelayLaws
  import opened FlightRuns

  /** The target statuses of the console's menu. */
  const MENU: set<FlightStatus> :=
    {Approaching, Arrived, GroundOperations, Boarding, ReadyForDeparture, Departed, Completed, Cancelled}

  /** The status that a choice from the menu asks for; anything else cancels. */
  function Chosen(choice: int): FlightStatus {
    match choice
    case 1 => Approaching
    case 2 => Arrived
    case 3 => GroundOperations
    case 4 => Boarding
    case 5 => ReadyForDeparture
    case 6 => Departed
    case 7 => Completed
    case _ => Cancelled
  }

  /** The menu's statuses are exactly those that some choice asks for. */
  lemma MenuIsChosen(status: FlightStatus)
    ensures status in MENU <==> exists choice :: Chosen(choice) == status
  {
    assert Chosen(1) == Approaching && Chosen(2) == Arrived && Chosen(3) == GroundOperations && Chosen(4) == Boarding;
    assert Chosen(5) == ReadyForDeparture && Chosen(6) == Departed && Chosen(7) == Completed && Chosen(8) == Cancelled;
  }

  predicate FromConsole(op: Op) {
    op.TransitionOp? ==> op.to in MENU
  }

  ghost predicate ConsoleRun(run: Run) {
    IsRun(run, INITIAL) && forall i :: 0 <= i < |run.ops| ==> FromConsole(run.ops[i])
  }

  lemma ConsoleFront(run: Run)
    requires ConsoleRun(run) && run.ops != []
    ensures ConsoleRun(Front(run)) && FromConsole(LastOp(run))
    ensures (Final(run), run.outcomes[|run.outcomes| - 1]) == Step(Final(Front(run)), LastOp(run))
  {
    LastStep(run, INITIAL);
  }

  function StatusOf(t: Tables, flight: Id): Option<FlightStatus> {
    if flight in t.flights then Some(t.flights[flight].status) else None
  }

  // ------------------------------------------------------------------ Delays

  predicate DelayReturned(op: Op, outcome: Outcome, flight: Id) {
    op.ApplyDelayOp? && op.flight == flight && outcome.DelayApplied?
  }

  /** How many of the flight's delay calls returned. */
  function DelayCalls(ops: seq<Op>, outcomes: seq<Outcome>, flight: Id): nat
    requires |ops| == |outcomes|
  {
    if ops == [] then 0
    else DelayCalls(ops[..|ops| - 1], outcomes[..|outcomes| - 1], flight)
         + (if DelayReturned(ops[|ops| - 1], outcomes[|outcomes| - 1], flight) then 1 else 0)
  }

  lemma DelayCallEntersDelayed(s: State, delayed: Id, reason: DelayReason, minutes: int, notes: string, flight: Id)
    ensures var (s', o) := ApplyDelay(s, delayed, reason, minutes, notes);
            var op := ApplyDelayOp(delayed, reason, minutes, notes);
            && (DelayReturned(op, o, flight) || Stranding(s, op, flight)
                <==> StatusOf(s'.t, flight) == Some(Delayed) && StatusOf(s.t, flight) != Some(Delayed))
            && !(DelayReturned(op, o, flight) && Stranding(s, op, flight))
  {
    ApplyDelayOutcome(s, delayed, reason, minutes, notes);
    ApplyDelaySuspends(s, delayed, reason, minutes, notes);
  }

  /** Which statuses a console step can newly give a flight. */
  predicate Enters(before: Option<FlightStatus>, after: Option<FlightStatus>, entered: set<FlightStatus>) {
    after != before ==> after.Some? && after.value in entered
  }

  lemma MoveEnters(t: Tables, moved: Id, to: FlightStatus, flight: Id)
    ensures Enters(StatusOf(t, flight), StatusOf(MoveFlight(t, moved, to).0, flight), {to})
  {
  }

  lemma DelayEnters(s: State, delayed: Id, reason: DelayReason, minutes: int, notes: string, flight: Id)
    ensures var s' := ApplyDelay(s, delayed, reason, minutes, notes).0;
            Enters(StatusOf(s.t, flight), StatusOf(s'.t, flight), {Delayed})
  {
    ApplyDelaySuspends(s, delayed, reason, minutes, notes);
  }

  lemma DeclareEnters(s: State, declared: Id, cause: string, now: int, flight: Id)
    ensures Enters(StatusOf(s.t, flight), StatusOf(DeclareEmergency(s, declared, cause, now).0.t, flight),
                   {EmergencyLanding})
  {
  }

  lemma HandlingEnters(t: Tables, handled: Id, id: Id, flight: Id)
    ensures Enters(StatusOf(t, flight), StatusOf(BeginGroundHandling(t, handled, id).0, flight), {GroundOperations})
  {
  }

  /** What a console step can make of a flight's status. */
  function MayEnter(op: Op): set<FlightStatus> {
    match op
    case ApplyDelayOp(_, _, _, _) => {Delayed}
    case DeclareEmergencyOp(_, _, _) => {EmergencyLanding}
    case _ => MENU + {Scheduled}
  }

  lemma FlightStepEnters(s: State, op: Op, flight: Id)
    requires FromConsole(op) && (op.TransitionOp? || op.ApplyDelayOp?)
    ensures Enters(StatusOf(s.t, flight), StatusOf(Next(s, op).t, flight), MayEnter(op))
  {
    match op
    case TransitionOp(moved, to) => MoveEnters(s.t, moved, to, flight);
    case ApplyDelayOp(delayed, reason, minutes, notes) => DelayEnters(s, delayed, reason, minutes, notes, flight);
  }

  lemma EmergencyStepEnters(s: State, op: Op, flight: Id)
    requires op.DeclareEmergencyOp? || op.BeginGroundHandlingOp?
    ensures Enters(StatusOf(s.t, flight), StatusOf(Next(s, op).t, flight), MayEnter(op))
  {
    match op
    case DeclareEmergencyOp(declared, cause, now) => DeclareEnters(s, declared, cause, now, flight);
    case BeginGroundHandlingOp(handled, id) => HandlingEnters(s.t, handled, id, flight);
  }

  lemma CreationEnters(s: State, op: Op, flight: Id)
    requires op.CreateFlightOp? || op.SeedOp?
    ensures Enters(StatusOf(s.t, flight), StatusOf(Next(s, op).t, flight), {Scheduled})
  {
    FlightMoves(s, op, flight);
  }

  lemma ConsoleStepEnters(s: State, op: Op, flight: Id)
    requires FromConsole(op)
    ensures Enters(StatusOf(s.t, flight), StatusOf(Next(s, op).t, flight), MayEnter(op))
  {
    if op.TransitionOp? || op.ApplyDelayOp? {
      FlightStepEnters(s, op, flight);
    } else if op.DeclareEmergencyOp? || op.BeginGroundHandlingOp? {
      EmergencyStepEnters(s, op, flight);
    } else if op.CreateFlightOp? || op.SeedOp? {
      CreationEnters(s, op, flight);
    } else {
      StepFrame(s, op);
    }
  }

  lemma OtherStepsDelayNothing(s: State, op: Op, flight: Id)
    requires FromConsole(op) && !op.ApplyDelayOp?
    ensures StatusOf(Next(s, op).t, flight) == Some(Delayed) ==> StatusOf(s.t, flight) == Some(Delayed)
  {
    ConsoleStepEnters(s, op, flight);
  }

  /** A delay call that moves the flight and then raises, because the flight has no schedule. */
  ghost predicate Stranding(s: State, op: Op, flight: Id) {
    && op.ApplyDelayOp? && op.flight == flight
    && Suspends(s, flight, op.minutes) && FindSchedule(s.t.schedules, flight).None?
  }

  lemma EntersDelayed(s: State, op: Op, flight: Id)
    requires FromConsole(op)
    ensures DelayReturned(op, Step(s, op).1, flight) || Stranding(s, op, flight)
       <==> StatusOf(Next(s, op).t, flight) == Some(Delayed) && StatusOf(s.t, flight) != Some(Delayed)
    ensures !(DelayReturned(op, Step(s, op).1, flight) && Stranding(s, op, flight))
  {
    match op
    case ApplyDelayOp(delayed, reason, minutes, notes) =>
      DelayCallEntersDelayed(s, delayed, reason, minutes, notes, flight);
    case _ => OtherStepsDelayNothing(s, op, flight);
  }

  /** One more operation lengthens the history exactly when it changes the flight's status. */
  lemma HistoryGrows(run: Run, flight: Id)
    requires IsRun(run, INITIAL) && run.ops != []
    ensures var before, after := StatusOf(Final(Front(run)).t, flight), StatusOf(Final(run).t, flight);
            var earlier := History(Front(run).states, flight);
            && (after != before ==> after.Some? && History(run.states, flight) == earlier + [after.value])
            && (after == before ==> History(run.states, flight) == earlier)
  {
    LastStep(run, INITIAL);
    HistoryIsLegal(Front(run), flight);
    FlightMoves(Final(Front(run)), LastOp(run), flight);
  }

  lemma DelaysGrow(run: Run, flight: Id)
    requires IsRun(run, INITIAL) && run.ops != []
    ensures var before, after := StatusOf(Final(Front(run)).t, flight), StatusOf(Final(run).t, flight);
            Delays(History(run.states, flight))
            == Delays(History(Front(run).states, flight))
               + (if after == Some(Delayed) && before != Some(Delayed) then 1 else 0)
  {
    HistoryGrows(run, flight);
  }

  lemma DelayCallsGrow(run: Run, flight: Id)
    requires IsRun(run, INITIAL) && run.ops != []
    ensures DelayCalls(run.ops, run.outcomes, flight)
         == DelayCalls(Front(run).ops, Front(run).outcomes, flight)
            + (if DelayReturned(LastOp(run), run.outcomes[|run.outcomes| - 1], flight) then 1 else 0)
  {
  }

  /** How many operations of a run stranded the flight. */
  ghost function Strandings(states: seq<State>, ops: seq<Op>, flight: Id): nat
    requires |states| == |ops| + 1
    decreases |ops|
  {
    if ops == [] then 0
    else
      var n := |ops| - 1;
      Strandings(states[..n + 1], ops[..n], flight) + (if Stranding(states[n], ops[n], flight) then 1 else 0)
  }

  ghost predicate NeverStranding(states: seq<State>, ops: seq<Op>, flight: Id)
    requires |states| == |ops| + 1
  {
    forall i :: 0 <= i < |ops| ==> !Stranding(states[i], ops[i], flight)
  }

  lemma {:induction false} NoStrandings(states: seq<State>, ops: seq<Op>, flight: Id)
    requires |states| == |ops| + 1
    ensures Strandings(states, ops, flight) == 0 <==> NeverStranding(states, ops, flight)
    decreases |ops|
  {
    if ops != [] {
      var n := |ops| - 1;
      var earlier, front := states[..n + 1], ops[..n];
      NoStrandings(earlier, front, flight);
      assert forall i :: 0 <= i < n ==> earlier[i] == states[i] && front[i] == ops[i];
    }
  }

  /** On every console run, the flight entered Delayed as often as its delay calls returned or
      stranded it. */
  lemma {:induction false} DelaysAreCounted(run: Run, flight: Id)
    requires ConsoleRun(run)
    ensures Delays(History(run.states, flight))
         == DelayCalls(run.ops, run.outcomes, flight) + Strandings(run.states, run.ops, flight)
    decreases |run.ops|
  {
    if run.ops == [] {
      HistoryIsLegal(run, flight);
    } else {
      ConsoleFront(run);
      DelaysAreCounted(Front(run), flight);
      DelaysGrow(run, flight);
      DelayCallsGrow(run, flight);
      StrandingsGrow(run, flight);
      EntersDelayed(Final(Front(run)), LastOp(run), flight);
    }
  }

  lemma StrandingsGrow(run: Run, flight: Id)
    requires run.ops != [] && run.outcomes != [] && |run.states| == |run.ops| + 1
    ensures Strandings(run.states, run.ops, flight)
         == Strandings(Front(run).states, Front(run).ops, flight)
            + (if Stranding(Final(Front(run)), LastOp(run), flight) then 1 else 0)
  {
  }

  /** On every console run, at least as many delays as returned calls; and just as many if and only if
      no delay call raised for want of a schedule after it had moved the flight. */
  lemma DelaysAreDelayCalls(run: Run, flight: Id)
    requires ConsoleRun(run)
    ensures var delays, calls := Delays(History(run.states, flight)), DelayCalls(run.ops, run.outcomes, flight);
            calls <= delays && (delays == calls <==> NeverStranding(run.states, run.ops, flight))
    ensures Unclashed(run) ==> NeverStranding(run.states, run.ops, flight)
  {
    DelaysAreCounted(run, flight);
    NoStrandings(run.states, run.ops, flight);
    if Unclashed(run) {
      UnclashedNeverStrands(run, flight);
    }
  }

  lemma {:induction false} UnclashedNeverStrands(run: Run, flight: Id)
    requires IsRun(run, INITIAL) && Unclashed(run)
    ensures NeverStranding(run.states, run.ops, flight)
    decreases |run.ops|
  {
    if run.ops != [] {
      var front := Front(run);
      LastStep(run, INITIAL);
      UnclashedFront(run);
      UnclashedNeverStrands(front, flight);
      RunShifts(front, flight);
      NeverStrandingFront(run, flight);
    }
  }

  lemma NeverStrandingFront(run: Run, flight: Id)
    requires run.ops != [] && run.outcomes != [] && |run.states| == |run.ops| + 1
    ensures NeverStranding(run.states, run.ops, flight)
       <==> && NeverStranding(Front(run).states, Front(run).ops, flight)
            && !Stranding(Final(Front(run)), LastOp(run), flight)
  {
    var front := Front(run);
    assert forall i :: 0 <= i < |front.ops| ==> front.states[i] == run.states[i] && front.ops[i] == run.ops[i];
  }

  /** So on every console run the number of status changes of a flight is bounded by its delay calls
      that returned and those that stranded it; when none did, by the calls that returned alone, and
      the time its schedule has moved by is at least a minute for each of them. */
  lemma ConsoleLengthBound(run: Run, flight: Id)
    requires ConsoleRun(run) && flight in Final(run).t.flights
    ensures var calls := DelayCalls(run.ops, run.outcomes, flight);
            var changes := |History(run.states, flight)| - 1;
            && changes <= 7 + 4 * (calls + Strandings(run.states, run.ops, flight))
            && (NeverStranding(run.states, run.ops, flight) ==> changes <= 7 + 4 * calls)
            && calls <= AppliedIn(run, flight)
  {
    DelaysAreCounted(run, flight);
    NoStrandings(run.states, run.ops, flight);
    FlightLengthBound(run, flight);
    CallsCostMinutes(run, flight);
  }

  /** A delay call that returned was for at least a minute. */
  lemma ReturnedCallCosts(s: State, delayed: Id, reason: DelayReason, minutes: int, notes: string)
    ensures ApplyDelay(s, delayed, reason, minutes, notes).1.DelayApplied? ==> minutes >= 1
  {
  }

  lemma OneCallCosts(s: State, op: Op, flight: Id)
    ensures DelayReturned(op, Step(s, op).1, flight) ==> Added(op, Step(s, op).1, flight) >= 1
    ensures Added(op, Step(s, op).1, flight) >= 0
  {
    if op.ApplyDelayOp? {
      ReturnedCallCosts(s, op.flight, op.reason, op.minutes, op.notes);
    }
  }

  lemma {:induction false} CallsCostMinutes(run: Run, flight: Id)
    requires IsRun(run, INITIAL)
    ensures DelayCalls(run.ops, run.outcomes, flight) <= AppliedIn(run, flight)
    decreases |run.ops|
  {
    if run.ops != [] {
      LastStep(run, INITIAL);
      CallsCostMinutes(Front(run), flight);
      OneCallCosts(Final(Front(run)), LastOp(run), flight);
    }
  }

  // -------------------------------------------------------------- Emergencies

  ghost predicate Recorded(t: Tables, flight: Id) {
    exists e :: e in t.emergencies && e.flight == flight
  }

  lemma SameRecordsBothWays(before: seq<EmergencyRow>, after: seq<EmergencyRow>)
    requires SameRecords(before, after)
    ensures forall e :: e in after ==> exists b :: b in before && b.flight == e.flight && b.id == e.id
    ensures forall b :: b in before ==> exists e :: e in after && b.flight == e.flight
  {
    forall e | e in after ensures exists b :: b in before && b.flight == e.flight && b.id == e.id {
      var i :| 0 <= i < |after| && after[i] == e;
      assert before[i] in before;
    }
    forall b | b in before ensures exists e :: e in after && b.flight == e.flight {
      var i :| 0 <= i < |before| && before[i] == b;
      assert after[i] in after;
    }
  }

  lemma OtherStepsDeclareNothing(s: State, op: Op, flight: Id)
    requires FromConsole(op) && !op.DeclareEmergencyOp?
    ensures StatusOf(Next(s, op).t, flight) == Some(EmergencyLanding) ==>
              StatusOf(s.t, flight) == Some(EmergencyLanding)
  {
    ConsoleStepEnters(s, op, flight);
  }

  ghost predicate EmergencyIdUnused(s: State) {
    forall e :: e in s.t.emergencies ==> e.id != Render("EM", s.nextEmergency)
  }

  /** The operation declares an emergency for an approaching flight, and the id that is generated
      for the record is in use. */
  ghost predicate DeclarationClashes(s: State, op: Op) {
    op.DeclareEmergencyOp? && StatusOf(s.t, op.flight) == Some(Approaching) && !EmergencyIdUnused(s)
  }

  ghost predicate DeclarationsUnclashed(run: Run) {
    |run.ops| < |run.states| && forall i :: 0 <= i < |run.ops| ==> !DeclarationClashes(run.states[i], run.ops[i])
  }

  lemma DeclarationsUnclashedFront(run: Run)
    requires run.ops != [] && run.outcomes != [] && |run.states| == |run.ops| + 1
    ensures DeclarationsUnclashed(run)
       <==> DeclarationsUnclashed(Front(run)) && !DeclarationClashes(Final(Front(run)), LastOp(run))
  {
    var front := Front(run);
    assert forall i :: 0 <= i < |front.ops| ==> front.states[i] == run.states[i] && front.ops[i] == run.ops[i];
  }

  /** A declaration moves an approaching flight, and then adds a record for it iff the id is unused. */
  lemma DeclarationRecords(s: State, declared: Id, cause: string, now: int, flight: Id)
    ensures var (s', o) := DeclareEmergency(s, declared, cause, now);
            var moves := declared == flight && StatusOf(s.t, flight) == Some(Approaching);
            && (Recorded(s'.t, flight) <==> Recorded(s.t, flight) || (moves && EmergencyIdUnused(s)))
            && (moves <==> && StatusOf(s'.t, flight) == Some(EmergencyLanding)
                           && StatusOf(s.t, flight) != Some(EmergencyLanding))
  {
    var (s', o) := DeclareEmergency(s, declared, cause, now);
    if o.EmergencyDeclared? {
      var row := s'.t.emergencies[|s.t.emergencies|];
      assert forall e :: e in s'.t.emergencies <==> e in s.t.emergencies || e == row;
    }
  }

  lemma OtherStepsKeepRecords(s: State, op: Op, flight: Id)
    requires !op.DeclareEmergencyOp?
    ensures Recorded(Next(s, op).t, flight) <==> Recorded(s.t, flight)
  {
    OtherStepsAddNoEmergency(s, op);
    SameRecordsBothWays(s.t.emergencies, Next(s, op).t.emergencies);
  }

  /** A console step without a clash adds a record for a flight exactly when the flight enters
      EmergencyLanding. */
  lemma RecordsFollowStatus(s: State, op: Op, flight: Id)
    requires FromConsole(op) && !DeclarationClashes(s, op)
    ensures var before, after := StatusOf(s.t, flight), StatusOf(Next(s, op).t, flight);
            Recorded(Next(s, op).t, flight)
            <==> Recorded(s.t, flight) || (after == Some(EmergencyLanding) && before != Some(EmergencyLanding))
  {
    if op.DeclareEmergencyOp? {
      DeclarationRecords(s, op.flight, op.cause, op.now, flight);
    } else {
      OtherStepsKeepRecords(s, op, flight);
      OtherStepsDeclareNothing(s, op, flight);
    }
  }

  lemma {:induction false} UnclashedLandingsAreRecorded(run: Run, flight: Id)
    requires ConsoleRun(run) && DeclarationsUnclashed(run)
    ensures EmergencyLanding in History(run.states, flight) <==> Recorded(Final(run).t, flight)
    decreases |run.ops|
  {
    if run.ops == [] {
      HistoryIsLegal(run, flight);
    } else {
      ConsoleFront(run);
      DeclarationsUnclashedFront(run);
      UnclashedLandingsAreRecorded(Front(run), flight);
      RecordsFollowStatus(Final(Front(run)), LastOp(run), flight);
      HistoryGrows(run, flight);
    }
  }

  /** The flight is past the point where an emergency can be declared, and there is no record. */
  ghost predicate Unrecorded(t: Tables, flight: Id) {
    && flight in t.flights && t.flights[flight].status !in {Scheduled, Approaching}
    && !Recorded(t, flight)
  }

  lemma ClashLeavesUnrecorded(s: State, op: Op)
    requires EmergenciesOnce(s.t) && DeclarationClashes(s, op)
    ensures Unrecorded(Next(s, op).t, op.flight)
    ensures StatusOf(Next(s, op).t, op.flight) == Some(EmergencyLanding)
  {
    DeclarationRecords(s, op.flight, op.cause, op.now, op.flight);
    assert !Recorded(s.t, op.flight);
  }

  lemma StepKeepsUnrecorded(s: State, op: Op, flight: Id)
    requires Unrecorded(s.t, flight)
    ensures Unrecorded(Next(s, op).t, flight)
  {
    FlightMoves(s, op, flight);
    if op.DeclareEmergencyOp? {
      DeclarationRecords(s, op.flight, op.cause, op.now, flight);
    } else {
      OtherStepsKeepRecords(s, op, flight);
    }
  }

  lemma {:induction false} ClashedRunLeavesUnrecorded(run: Run) returns (flight: Id)
    requires ConsoleRun(run) && !DeclarationsUnclashed(run)
    ensures Unrecorded(Final(run).t, flight) && EmergencyLanding in History(run.states, flight)
    decreases |run.ops|
  {
    ConsoleFront(run);
    DeclarationsUnclashedFront(run);
    if DeclarationsUnclashed(Front(run)) {
      flight := LastOp(run).flight;
      OneEmergencyRecord(Front(run));
      ClashLeavesUnrecorded(Final(Front(run)), LastOp(run));
    } else {
      flight := ClashedRunLeavesUnrecorded(Front(run));
      StepKeepsUnrecorded(Final(Front(run)), LastOp(run), flight);
    }
    HistoryGrows(run, flight);
  }

  /** On a console run, every flight landed as an emergency iff there is an emergency record for it,
      if and only if no declaration clashed with an emergency id in use. By `OneEmergencyRecord`
      there is never more than one record for a flight. */
  lemma EmergencyLandingsAreRecorded(run: Run)
    requires ConsoleRun(run)
    ensures DeclarationsUnclashed(run)
       <==> forall flight :: EmergencyLanding in History(run.states, flight) <==> Recorded(Final(run).t, flight)
    ensures SingleProcess(run) ==> DeclarationsUnclashed(run)
  {
    if DeclarationsUnclashed(run) {
      forall flight ensures EmergencyLanding in History(run.states, flight) <==> Recorded(Final(run).t, flight) {
        UnclashedLandingsAreRecorded(run, flight);
      }
    } else {
      var flight := ClashedRunLeavesUnrecorded(run);
      assert EmergencyLanding in History(run.states, flight) && !Recorded(Final(run).t, flight);
    }
    if SingleProcess(run) {
      SingleProcessDeclares(run);
    }
  }

  /** Within one process generated emergency ids never clash. */
  lemma {:induction false} SingleProcessDeclares(run: Run)
    requires SingleProcess(run)
    ensures DeclarationsUnclashed(run)
    decreases |run.ops|
  {
    if run.ops != [] {
      SingleProcessFront(run);
      SingleProcessDeclares(Front(run));
      DeclarationsUnclashedFront(run);
      SingleProcessIds(Front(run), EM);
      UnusedMeansUnused(Final(Front(run)));
    }
  }

  lemma UnusedMeansUnused(s: State)
    ensures EmergencyIdUnused(s) <==> IdUnused(s, EM)
  {
  }

  /** After a restart on a database with n emergency records, exactly the first n declarations for an
      approaching flight clash, whatever else the new process does. */
  lemma RestartedDeclarationClashes(before: Run, run: Run, op: Op)
    requires IsRun(before, INITIAL) && IsRun(run, INITIAL.(t := Final(before).t)) && NoRestart(run.ops)
    requires op.DeclareEmergencyOp? && StatusOf(Final(run).t, op.flight) == Some(Approaching)
    ensures DeclarationClashes(Final(run), op)
       <==> IdsTaken(run.states, run.ops, EM) < |UsedIds(Final(before).t, EM)|
  {
    RestartReusesIds(before, run, EM);
    UnusedMeansUnused(Final(run));
  }
}
