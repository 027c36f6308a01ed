/** The mutable domain entities besides the flight itself. */
module Models {
  import opened Domain
  import opened DateTime
  import opened Schema

  /** A booking record; releasing it is one-way. */
  class Allocation {
    const allocationId: Id
    const flightId: Id
    const gateId: Id
    const vehicleId: Id
    const groundStaffIds: seq<Id>
    const windowStart: int
    const windowEnd: int
    var status: AllocationStatus

    constructor (allocationId: Id, flightId: Id, gateId: Id, vehicleId: Id, groundStaffIds: seq<Id>,
                 windowStart: int, windowEnd: int)
      ensures Row() == AllocationRow(allocationId, flightId, gateId, vehicleId, windowStart, windowEnd, Success)
      ensures this.groundStaffIds == groundStaffIds
    {
      this.allocationId, this.flightId, this.gateId, this.vehicleId := allocationId, flightId, gateId, vehicleId;
      this.groundStaffIds, this.windowStart, this.windowEnd := groundStaffIds, windowStart, windowEnd;
      status := Success;
    }

    function Row(): AllocationRow
      reads this
    {
      AllocationRow(allocationId, flightId, gateId, vehicleId, windowStart, windowEnd, status)
    }

    method Release()
      modifies this
      ensures Row() == old(Row()).(status := Released)
    {
      status := Released;
    }
  }

  class FlightSchedule {
    const scheduleId: Id
    const flightId: Id
    const scheduledArrival: int
    const scheduledDeparture: int
    var estimatedArrival: int
    var estimatedDeparture: int

    constructor (scheduleId: Id, flightId: Id, scheduledArrival: int, scheduledDeparture: int)
      ensures Row() == ScheduleRow(scheduleId, flightId, scheduledArrival, scheduledDeparture,
                                   scheduledArrival, scheduledDeparture)
    {
      this.scheduleId, this.flightId := scheduleId, flightId;
      this.scheduledArrival, this.scheduledDeparture := scheduledArrival, scheduledDeparture;
      estimatedArrival, estimatedDeparture := scheduledArrival, scheduledDeparture;
    }

    function Row(): ScheduleRow
      reads this
    {
      ScheduleRow(scheduleId, flightId, scheduledArrival, scheduledDeparture, estimatedArrival, estimatedDeparture)
    }

    method SetEstimates(arrival: int, departure: int)
      modifies this
      ensures Row() == old(Row()).(estimatedArrival := arrival, estimatedDeparture := departure)
    {
      estimatedArrival, estimatedDeparture := arrival, departure;
    }

    /** Shifts both estimates, and so keeps the time between them. */
    method ApplyDelay(delayMinutes: int)
      modifies this
      ensures Row() == old(Row()).(estimatedArrival := AddMinutes(old(estimatedArrival), delayMinutes),
                                   estimatedDeparture := AddMinutes(old(estimatedDeparture), delayMinutes))
      ensures estimatedDeparture - estimatedArrival == old(estimatedDeparture - estimatedArrival)
    {
      estimatedArrival := AddMinutes(estimatedArrival, delayMinutes);
      estimatedDeparture := AddMinutes(estimatedDeparture, delayMinutes);
    }
  }

  class Emergency {
    const emergencyId: Id
    const flightId: Id
    const reason: string
    const declaredAt: int
    var landingTime: int
    var status: EmergencyStatus

    constructor (emergencyId: Id, flightId: Id, reason: string, declaredAt: int)
      ensures Row() == EmergencyRow(emergencyId, flightId, reason, declaredAt, 0, Declared)
    {
      this.emergencyId, this.flightId, this.reason, this.declaredAt := emergencyId, flightId, reason, declaredAt;
      landingTime, status := 0, Declared;
    }

    function Row(): EmergencyRow
      reads this
    {
      EmergencyRow(emergencyId, flightId, reason, declaredAt, landingTime, status)
    }

    method RecordLanding(time: int)
      modifies this
      ensures Row() == old(Row()).(landingTime := time, status := Landed)
    {
      landingTime, status := time, Landed;
    }

    method UpdateStatus(newStatus: EmergencyStatus)
      modifies this
      ensures Row() == old(Row()).(status := newStatus)
    {
      status := newStatus;
    }
  }
}
