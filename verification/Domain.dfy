/** The vocabulary shared by every layer: statuses, requests, errors.

    Identifiers are strings and times are integers (seconds). */
module Domain {

  type Id = string

  datatype Option<+T> = None | Some(value: T)

  datatype FlightStatus =
    | Scheduled | Approaching | Arrived | EmergencyLanding | GroundOperations | Boarding
    | ReadyForDeparture | Departed | Completed | Delayed | Cancelled

  datatype ResourceStatus = Available | Occupied | Maintenance

  datatype AllocationStatus = Success | Failed | Released

  /** Several of these are never produced by the conflict check; see `Conflicts.CheckConflictDecides`. */
  datatype ConflictType =
    | NoConflict | GateUnavailable | VehicleUnavailable | GroundStaffUnavailable
    | TimeOverlap | InvalidFlightState | InvalidResource

  datatype DelayReason = Weather | Atc | GroundOperation | ResourceConflict | TechnicalIssue | Other

  datatype EmergencyStatus = Declared | Landed | GroundHandling | Resolved

  /** The exception classes the services raise. */
  datatype Error = NotFound | Validation | IllegalTransition | DatabaseFailure

  /** What a caller asks to have allocated to a flight. */
  datatype Request = Request(flight: Id, gate: Id, vehicle: Id, staff: seq<Id>, start: int, end: int)

  /** One booking, as the two allocation tables represent it. */
  datatype Booking = Booking(flight: Id, gate: Id, vehicle: Id, staff: set<Id>, start: int, end: int, active: bool)

  /** A re-check warning of the delay workflow: which allocation, and why. */
  datatype Warning = Warning(allocation: Id, conflict: ConflictType)

  /** The distinct members of a list. */
  function Members<T>(xs: seq<T>): set<T> {
    set x | x in xs
  }

  ghost predicate RepeatFree<T>(xs: seq<T>) {
    forall i, j :: 0 <= i < j < |xs| ==> xs[i] != xs[j]
  }
}
