/** The flight life cycle: the edge table, and what every legal run through it looks like. */
module Lifecycle {
  import opened Domain

  datatype Edge = Edge(from: FlightStatus, to: FlightStatus)

  /** The static edge table. The program keeps it as a list, which it only scans for an equal pair. */
  const ALLOWED: set<Edge> := {
    Edge(Scheduled, Approaching),
    Edge(Scheduled, Cancelled),
    Edge(Approaching, Arrived),
    Edge(Approaching, EmergencyLanding),
    Edge(Approaching, Cancelled),
    Edge(EmergencyLanding, GroundOperations),
    Edge(Arrived, GroundOperations),
    Edge(GroundOperations, Boarding),
    Edge(GroundOperations, Delayed),
    Edge(Boarding, ReadyForDeparture),
    Edge(Boarding, Delayed),
    Edge(ReadyForDeparture, Departed),
    Edge(ReadyForDeparture, Delayed),
    Edge(Departed, Completed),
    Edge(Delayed, GroundOperations),
    Edge(Delayed, Boarding),
    Edge(Delayed, ReadyForDeparture),
    Edge(Delayed, Cancelled)
  }

  /** The transition table of the design notes, one row per status. */
  function Successors(from: FlightStatus): set<FlightStatus> {
    match from
    case Scheduled => {Approaching, Cancelled}
    case Approaching => {Arrived, EmergencyLanding, Cancelled}
    case EmergencyLanding => {GroundOperations}
    case Arrived => {GroundOperations}
    case GroundOperations => {Boarding, Delayed}
    case Boarding => {ReadyForDeparture, Delayed}
    case ReadyForDeparture => {Departed, Delayed}
    case Departed => {Completed}
    case Delayed => {GroundOperations, Boarding, ReadyForDeparture, Cancelled}
    case Completed => {}
    case Cancelled => {}
  }

  /** The edge list of the code is the table of the design notes. */
  predicate IsTransitionAllowed(from: FlightStatus, to: FlightStatus): (allowed: bool)
    ensures allowed <==> to in Successors(from)
  {
    from != to && Edge(from, to) in ALLOWED
  }

  /** The table read by its targets: where a flight can come from. */
  lemma TransitionsByTarget(from: FlightStatus, to: FlightStatus)
    ensures IsTransitionAllowed(from, to) <==>
      match to
      case Scheduled => false
      case Approaching => from == Scheduled
      case Arrived => from == Approaching
      case EmergencyLanding => from == Approaching
      case GroundOperations => from in {Arrived, EmergencyLanding, Delayed}
      case Boarding => from in {GroundOperations, Delayed}
      case ReadyForDeparture => from in {Boarding, Delayed}
      case Departed => from == ReadyForDeparture
      case Completed => from == Departed
      case Delayed => from in {GroundOperations, Boarding, ReadyForDeparture}
      case Cancelled => from in {Scheduled, Approaching, Delayed}
  {
  }

  /** A run: starts at Scheduled and follows edges (of the design table, which is the edge list). */
  ghost predicate LegalRun(run: seq<FlightStatus>) {
    && run != []
    && run[0] == Scheduled
    && forall i :: 0 <= i < |run| - 1 ==> run[i + 1] in Successors(run[i])
  }

  /** How often a run enters Delayed. */
  function Delays(run: seq<FlightStatus>): nat {
    multiset(run)[Delayed]
  }

  /** The most steps still possible from a status without entering Delayed again. */
  function Potential(status: FlightStatus): nat {
    match status
    case Scheduled => 7
    case Approaching => 6
    case Arrived => 5
    case EmergencyLanding => 5
    case Delayed => 5
    case GroundOperations => 4
    case Boarding => 3
    case ReadyForDeparture => 2
    case Departed => 1
    case Completed => 0
    case Cancelled => 0
  }

  /** A run with d delays has at most 7 + 4d transitions, although the table is cyclic. */
  lemma {:induction false} LengthBound(run: seq<FlightStatus>)
    requires LegalRun(run)
    ensures |run| - 1 + Potential(run[|run| - 1]) <= 7 + 4 * Delays(run)
  {
    if |run| > 1 {
      var front := run[..|run| - 1];
      LengthBound(front);
      assert run == front + [run[|run| - 1]];
      assert run[|run| - 1] in Successors(run[|run| - 2]);
    }
  }

  /** A legal run goes on being legal when one legal step is appended. */
  lemma Extend(run: seq<FlightStatus>, next: FlightStatus)
    requires LegalRun(run) && next in Successors(run[|run| - 1])
    ensures LegalRun(run + [next])
    ensures Delays(run + [next]) == Delays(run) + (if next == Delayed then 1 else 0)
  {
    var all := run + [next];
    forall i | 0 <= i < |all| - 1 ensures all[i + 1] in Successors(all[i]) {
      assert i < |run| - 1 ==> run[i + 1] in Successors(run[i]);
    }
  }

  /** One round through Delayed, from ReadyForDeparture back to it. */
  lemma ExtendByRound(run: seq<FlightStatus>) returns (longer: seq<FlightStatus>)
    requires LegalRun(run) && run[|run| - 1] == ReadyForDeparture
    ensures LegalRun(longer) && longer[|longer| - 1] == ReadyForDeparture
    ensures |longer| == |run| + 4 && Delays(longer) == Delays(run) + 1
  {
    Extend(run, Delayed);
    longer := run + [Delayed];
    Extend(longer, GroundOperations);
    longer := longer + [GroundOperations];
    Extend(longer, Boarding);
    longer := longer + [Boarding];
    Extend(longer, ReadyForDeparture);
    longer := longer + [ReadyForDeparture];
  }

  /** A run of d rounds through Delayed that has reached ReadyForDeparture. */
  lemma {:induction false} ReadyAfter(d: nat) returns (run: seq<FlightStatus>)
    ensures LegalRun(run) && Delays(run) == d
    ensures |run| == 6 + 4 * d && run[|run| - 1] == ReadyForDeparture
  {
    if d == 0 {
      run := [Scheduled, Approaching, Arrived, GroundOperations, Boarding, ReadyForDeparture];
    } else {
      run := ReadyAfter(d - 1);
      run := ExtendByRound(run);
    }
  }

  /** The bound is attained for every number of delays, so runs have no common length limit. */
  lemma LengthBoundIsTight(d: nat)
    ensures exists run :: LegalRun(run) && Delays(run) == d && |run| - 1 == 7 + 4 * d
  {
    var run := ReadyAfter(d);
    Extend(run, Departed);
    Extend(run + [Departed], Completed);
  }

  /** Completed and Cancelled are never left: they occur only at the end of a run. */
  lemma FinalStatesAreFinal(run: seq<FlightStatus>, i: nat)
    requires LegalRun(run) && i < |run| && run[i] in {Completed, Cancelled}
    ensures i == |run| - 1
  {
    assert i < |run| - 1 ==> run[i + 1] in Successors(run[i]);
  }

  /** The statuses of a flight that is on the ground or beyond. */
  const GROUND_OR_LATER: set<FlightStatus> :=
    {GroundOperations, Boarding, ReadyForDeparture, Departed, Completed, Delayed, Cancelled}

  /** How a run begins: its first four statuses are forced, unless the flight is cancelled early,
      and from index 3 on it never goes back. */
  lemma {:induction false} RunBegins(run: seq<FlightStatus>)
    requires LegalRun(run)
    ensures |run| > 1 ==> run[1] in {Approaching, Cancelled}
    ensures |run| > 2 ==> run[1] == Approaching && run[2] in {Arrived, EmergencyLanding, Cancelled}
    ensures |run| > 3 ==> run[2] in {Arrived, EmergencyLanding} && run[3] == GroundOperations
    ensures forall i :: 3 <= i < |run| ==> run[i] in GROUND_OR_LATER
  {
    if |run| > 1 {
      var front := run[..|run| - 1];
      RunBegins(front);
      assert run[|run| - 1] in Successors(run[|run| - 2]);
    }
  }

  /** An undelayed run that got to ReadyForDeparture or beyond has boarded. */
  lemma {:induction false} BoardedUnlessDelayed(run: seq<FlightStatus>)
    requires LegalRun(run) && Delayed !in run
    requires run[|run| - 1] in {Boarding, ReadyForDeparture, Departed, Completed}
    ensures Boarding in run
  {
    var last := run[|run| - 1];
    if last != Boarding {
      var front := run[..|run| - 1];
      assert last in Successors(run[|run| - 2]);
      assert front[|front| - 1] in run;
      BoardedUnlessDelayed(front);
      assert forall x :: x in front ==> x in run;
    }
  }

  /** What a completed run has passed, and where: the two ends are fixed, Arrived and
      EmergencyLanding occur only at index 2, and only a delayed run may not have boarded. */
  ghost predicate Milestones(run: seq<FlightStatus>) {
    && |run| >= 7
    && run[1] == Approaching && run[2] in {Arrived, EmergencyLanding} && run[3] == GroundOperations
    && (forall i :: 0 <= i < |run| && run[i] in {Arrived, EmergencyLanding} ==> i == 2)
    && run[|run| - 3] == ReadyForDeparture && run[|run| - 2] == Departed && run[|run| - 1] == Completed
    && (Delayed !in run ==> Boarding in run)
  }

  lemma CompletedEnding(run: seq<FlightStatus>)
    requires LegalRun(run) && run[|run| - 1] == Completed
    ensures |run| >= 7 && run[|run| - 3] == ReadyForDeparture && run[|run| - 2] == Departed
  {
    var n := |run|;
    RunBegins(run);
    assert run[n - 2 + 1] in Successors(run[n - 2]);
    assert run[n - 3 + 1] in Successors(run[n - 3]);
    assert run[n - 4 + 1] in Successors(run[n - 4]);
  }

  /** The milestones of every run that reaches Completed. */
  lemma CompletedMilestones(run: seq<FlightStatus>)
    requires LegalRun(run) && run[|run| - 1] == Completed
    ensures Milestones(run)
  {
    CompletedEnding(run);
    RunBegins(run);
    if Delayed !in run {
      BoardedUnlessDelayed(run);
    }
  }

  /** At most one emergency landing in any run, whether or not it completes. */
  lemma OneEmergency(run: seq<FlightStatus>, i: nat, j: nat)
    requires LegalRun(run) && i < |run| && j < |run|
    requires run[i] == run[j] == EmergencyLanding
    ensures i == j == 2
  {
    RunBegins(run);
  }

  /** A flight that has departed or ended; such flights take no more allocations. */
  predicate Closed(status: FlightStatus) {
    status in {Departed, Completed, Cancelled}
  }

  /** The in-memory flight entity. */
  class Flight {
    const flightId: Id
    const flightNumber: string
    const origin: string
    const destination: string
    const aircraftType: string
    var status: FlightStatus

    constructor (flightId: Id, flightNumber: string, origin: string, destination: string, aircraftType: string)
      ensures this.flightId == flightId && this.flightNumber == flightNumber && this.origin == origin
      ensures this.destination == destination && this.aircraftType == aircraftType
      ensures status == Scheduled
    {
      this.flightId, this.flightNumber, this.origin := flightId, flightNumber, origin;
      this.destination, this.aircraftType := destination, aircraftType;
      status := Scheduled;
    }

    method SetStatusUnchecked(newStatus: FlightStatus)
      modifies this
      ensures status == newStatus
    {
      status := newStatus;
    }

    /** Moves along an edge of the table; otherwise raises and leaves the flight as it was. */
    method TransitionTo(newStatus: FlightStatus) returns (ok: bool)
      modifies this
      ensures ok == (newStatus in Successors(old(status)))
      ensures status == if ok then newStatus else old(status)
    {
      ok := IsTransitionAllowed(status, newStatus);
      if ok {
        status := newStatus;
      }
    }
  }
}
