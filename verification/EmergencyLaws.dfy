/** The emergency workflow, and how far its operations are guarded. */
module EmergencyLaws {
  import opened Domain
  import opened DateTime
  import opened Lifecycle
  import opened Schema
  import opened Transitions
  import opened Effects
  import opened Safety

  lemma {:induction false} FindAfterDeclaration(rows: seq<EmergencyRow>, row: EmergencyRow, id: Id)
    ensures FindEmergency(rows + [row], id) ==
      match FindEmergency(rows, id)
      case Some(e) => Some(e)
      case None => if row.id == id then Some(row) else None
  {
    if rows != [] {
      assert (rows + [row])[1..] == rows[1..] + [row];
      FindAfterDeclaration(rows[1..], row, id);
    } else {
      assert rows + [row] == [row];
    }
  }

  /** Updating the last row, whose id no other row has. */
  lemma UpdateLast(rows: seq<EmergencyRow>, row: EmergencyRow, landingTime: int, status: EmergencyStatus)
    requires forall e :: e in rows ==> e.id != row.id
    ensures WithEmergency(rows + [row], row.id, landingTime, status)
         == rows + [row.(landingTime := landingTime, status := status)]
  {
    var all := WithEmergency(rows + [row], row.id, landingTime, status);
    forall i | 0 <= i < |rows| ensures all[i] == rows[i] {
      assert rows[i] in rows;
    }
  }

  /** The table ends with this row, and no other row has its id. */
  ghost predicate EndsWith(t: Tables, rows: seq<EmergencyRow>, row: EmergencyRow) {
    t.emergencies == rows + [row] && forall e :: e in rows ==> e.id != row.id
  }

  lemma LandLast(t: Tables, rows: seq<EmergencyRow>, row: EmergencyRow, landed: int)
    requires EndsWith(t, rows, row)
    ensures RecordLanding(t, row.id, landed)
         == (t.(emergencies := rows + [row.(landingTime := landed, status := Landed)]), Done)
  {
    FindAfterDeclaration(rows, row, row.id);
    UpdateLast(rows, row, landed, Landed);
  }

  lemma HandleLast(t: Tables, rows: seq<EmergencyRow>, row: EmergencyRow)
    requires EndsWith(t, rows, row) && row.flight in t.flights && t.flights[row.flight].status == EmergencyLanding
    ensures BeginGroundHandling(t, row.flight, row.id)
         == (WithFlightStatus(t, row.flight, GroundOperations)
               .(emergencies := rows + [row.(status := GroundHandling)]), Done)
  {
    FindAfterDeclaration(rows, row, row.id);
    UpdateLast(rows, row, row.landingTime, GroundHandling);
  }

  lemma ResolveLast(t: Tables, rows: seq<EmergencyRow>, row: EmergencyRow)
    requires EndsWith(t, rows, row)
    ensures ResolveEmergency(t, row.id) == (t.(emergencies := rows + [row.(status := Resolved)]), Done)
  {
    FindAfterDeclaration(rows, row, row.id);
    UpdateLast(rows, row, row.landingTime, Resolved);
  }

  lemma DeclareAppends(s: State, flight: Id, cause: string, declared: int)
    requires flight in s.t.flights && s.t.flights[flight].status == Approaching
    requires forall e :: e in s.t.emergencies ==> e.id != Render("EM", s.nextEmergency)
    ensures var id := Render("EM", s.nextEmergency);
            var (s', o) := DeclareEmergency(s, flight, cause, declared);
            && o == EmergencyDeclared(id)
            && s'.t == WithFlightStatus(s.t, flight, EmergencyLanding)
                         .(emergencies := s.t.emergencies + [EmergencyRow(id, flight, cause, declared, 0, Declared)])
  {
  }

  /** The last three of the four operations, on the last record of the table. */
  lemma LandHandleResolve(t: Tables, rows: seq<EmergencyRow>, row: EmergencyRow, landed: int)
    requires EndsWith(t, rows, row) && row.flight in t.flights && t.flights[row.flight].status == EmergencyLanding
    ensures var (t2, o2) := RecordLanding(t, row.id, landed);
            var (t3, o3) := BeginGroundHandling(t2, row.flight, row.id);
            var (t4, o4) := ResolveEmergency(t3, row.id);
            && o2 == Done && o3 == Done && o4 == Done
            && t4.flights == WithFlightStatus(t, row.flight, GroundOperations).flights
            && t4.emergencies == rows + [row.(landingTime := landed, status := Resolved)]
  {
    var row2 := row.(landingTime := landed, status := Landed);
    LandLast(t, rows, row, landed);
    var t2 := t.(emergencies := rows + [row2]);
    HandleLast(t2, rows, row2);
    ResolveLast(BeginGroundHandling(t2, row.flight, row.id).0, rows, row2.(status := GroundHandling));
  }

  /** The four operations in their intended order, from an approaching flight: each one goes
      through, the flight ends in ground operations, and the one new record ends resolved with the
      landing time that was recorded. */
  lemma EmergencyWorkflow(s: State, flight: Id, cause: string, declared: int, landed: int)
    requires flight in s.t.flights && s.t.flights[flight].status == Approaching
    requires forall e :: e in s.t.emergencies ==> e.id != Render("EM", s.nextEmergency)
    ensures var id := Render("EM", s.nextEmergency);
            var (s1, o1) := DeclareEmergency(s, flight, cause, declared);
            var (t2, o2) := RecordLanding(s1.t, id, landed);
            var (t3, o3) := BeginGroundHandling(t2, flight, id);
            var (t4, o4) := ResolveEmergency(t3, id);
            && o1 == EmergencyDeclared(id) && o2 == Done && o3 == Done && o4 == Done
            && t4.flights == s.t.flights[flight := s.t.flights[flight].(status := GroundOperations)]
            && t4.emergencies == s.t.emergencies + [EmergencyRow(id, flight, cause, declared, landed, Resolved)]
  {
    var id, rows := Render("EM", s.nextEmergency), s.t.emergencies;
    var row := EmergencyRow(id, flight, cause, declared, 0, Declared);
    DeclareAppends(s, flight, cause, declared);
    LandHandleResolve(DeclareEmergency(s, flight, cause, declared).0.t, rows, row, landed);
  }

  /** The record exists and belongs to the flight, and the flight may enter ground operations. */
  predicate MayHandle(t: Tables, flight: Id, id: Id) {
    var found := FindEmergency(t.emergencies, id);
    && found.Some? && found.value.flight == flight
    && flight in t.flights && t.flights[flight].status in {EmergencyLanding, Arrived, Delayed}
  }

  /** Ground handling goes through exactly when the record exists, belongs to the flight, and the
      flight may enter ground operations. The record's own status plays no part, so a resolved
      emergency of a delayed flight is reopened. */
  lemma GroundHandlingIsUnguarded(t: Tables, flight: Id, id: Id)
    ensures BeginGroundHandling(t, flight, id).1 == Done <==> MayHandle(t, flight, id)
  {
    if flight in t.flights {
      assert GroundOperations in Successors(t.flights[flight].status)
        <==> t.flights[flight].status in {EmergencyLanding, Arrived, Delayed};
    }
  }

  // ---------------------------------------------------------- Resolved records

  predicate IsResolved(t: Tables, id: Id) {
    FindEmergency(t.emergencies, id).Some? && FindEmergency(t.emergencies, id).value.status == Resolved
  }

  /** The operation resolves the emergency. */
  predicate Resolves(s: State, op: Op, id: Id) {
    op.ResolveEmergencyOp? && op.emergency == id && FindEmergency(s.t.emergencies, id).Some?
  }

  /** The operation takes the emergency out of its resolved state, if it is in it: its landing is
      recorded, or its ground handling begins. */
  predicate Reopens(s: State, op: Op, id: Id) {
    || (op.RecordLandingOp? && op.emergency == id)
    || (op.BeginGroundHandlingOp? && op.emergency == id && MayHandle(s.t, op.flight, id))
  }

  lemma {:induction false} FindUpdated(rows: seq<EmergencyRow>, updated: Id, landing: int, status: EmergencyStatus,
                                       id: Id)
    ensures FindEmergency(WithEmergency(rows, updated, landing, status), id) ==
      match FindEmergency(rows, id)
      case None => None
      case Some(e) => Some(if id == updated then e.(landingTime := landing, status := status) else e)
  {
    if rows != [] {
      assert WithEmergency(rows, updated, landing, status)[1..] == WithEmergency(rows[1..], updated, landing, status);
      FindUpdated(rows[1..], updated, landing, status, id);
    }
  }

  lemma DeclarationResolvesNothing(s: State, flight: Id, cause: string, now: int, id: Id)
    ensures IsResolved(DeclareEmergency(s, flight, cause, now).0.t, id) <==> IsResolved(s.t, id)
  {
    var row := EmergencyRow(Render("EM", s.nextEmergency), flight, cause, now, 0, Declared);
    FindAfterDeclaration(s.t.emergencies, row, id);
  }

  lemma LandingReopens(t: Tables, landed: Id, now: int, id: Id)
    ensures IsResolved(RecordLanding(t, landed, now).0, id) <==> IsResolved(t, id) && landed != id
  {
    FindUpdated(t.emergencies, landed, now, Landed, id);
  }

  lemma HandlingReopens(t: Tables, flight: Id, handled: Id, id: Id)
    ensures IsResolved(BeginGroundHandling(t, flight, handled).0, id)
       <==> IsResolved(t, id) && !(handled == id && MayHandle(t, flight, handled))
  {
    GroundHandlingIsUnguarded(t, flight, handled);
    var found := FindEmergency(t.emergencies, handled);
    if found.Some? {
      FindUpdated(t.emergencies, handled, found.value.landingTime, GroundHandling, id);
    }
  }

  lemma ResolvingResolves(t: Tables, resolved: Id, id: Id)
    ensures IsResolved(ResolveEmergency(t, resolved).0, id)
       <==> IsResolved(t, id) || (resolved == id && FindEmergency(t.emergencies, id).Some?)
  {
    var found := FindEmergency(t.emergencies, resolved);
    if found.Some? {
      FindUpdated(t.emergencies, resolved, found.value.landingTime, Resolved, id);
    }
  }

  /** After a step an emergency is resolved exactly when the step resolves it, or it was resolved and
      the step does not reopen it. */
  lemma StepResolves(s: State, op: Op, id: Id)
    ensures IsResolved(Next(s, op).t, id)
       <==> Resolves(s, op, id) || (IsResolved(s.t, id) && !Reopens(s, op, id))
  {
    if op.DeclareEmergencyOp? {
      DeclarationResolvesNothing(s, op.flight, op.cause, op.now, id);
    } else if op.RecordLandingOp? {
      LandingReopens(s.t, op.emergency, op.now, id);
    } else if op.BeginGroundHandlingOp? {
      HandlingReopens(s.t, op.flight, op.emergency, id);
    } else if op.ResolveEmergencyOp? {
      ResolvingResolves(s.t, op.emergency, id);
    } else {
      StepFrame(s, op);
    }
  }

  /** The i-th operation resolved the emergency, and no later one reopened it. */
  predicate ResolutionStands(run: Run, id: Id, i: int) {
    && |run.ops| < |run.states| && 0 <= i < |run.ops|
    && Resolves(run.states[i], run.ops[i], id)
    && forall j :: i < j < |run.ops| ==> !Reopens(run.states[j], run.ops[j], id)
  }

  /** After any run an emergency is resolved exactly when some operation resolved it and no later one
      recorded its landing or began its ground handling. */
  lemma ResolvedAndNotReopened(run: Run, id: Id)
    requires IsRun(run, INITIAL)
    ensures IsResolved(Final(run).t, id) <==> exists i :: ResolutionStands(run, id, i)
  {
    var resolves := (s, op) => Resolves(s, op, id);
    var reopens := (s, op) => Reopens(s, op, id);
    forall s: State, op | BookingKeys(s.t)
      ensures IsResolved(Next(s, op).t, id) <==> resolves(s, op) || (IsResolved(s.t, id) && !reopens(s, op))
    {
      StepResolves(s, op, id);
    }
    SetAndCleared(run, (s: State) => IsResolved(s.t, id), resolves, reopens);
    forall i ensures Standing(run, i, resolves, reopens) <==> ResolutionStands(run, id, i) {
    }
  }
}
