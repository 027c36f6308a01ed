/** The conflict check, and the specification it decides. */
module Conflicts {
  import opened Domain
  import opened DateTime
  import opened Schema

  // ------------------------------------------------------------- The detector

  /** The search loop over the active allocations of one resource. */
  predicate BlockedBy(r: Request, rows: seq<AllocationRow>) {
    rows != [] &&
    ((rows[0].flight != r.flight && Overlaps(r.start, r.end, rows[0].start, rows[0].end))
     || BlockedBy(r, rows[1..]))
  }

  function CheckGate(t: Tables, r: Request): ConflictType
    requires r.gate in t.gates
  {
    if t.gates[r.gate].status == Maintenance then GateUnavailable
    else if BlockedBy(r, ActiveForGate(t, r.gate)) then GateUnavailable
    else NoConflict
  }

  function CheckVehicle(t: Tables, r: Request): ConflictType
    requires r.vehicle in t.vehicles
  {
    if t.vehicles[r.vehicle].status == Maintenance then VehicleUnavailable
    else if BlockedBy(r, ActiveForVehicle(t, r.vehicle)) then VehicleUnavailable
    else NoConflict
  }

  /** The loop over the requested staff, from the first member of `staff` on. */
  function CheckGroundStaff(t: Tables, r: Request, staff: seq<Id>): ConflictType
    requires AllKnown(t.staff, staff)
  {
    if staff == [] then NoConflict
    else if t.staff[staff[0]].status == Maintenance then GroundStaffUnavailable
    else if BlockedBy(r, ActiveForStaff(t, staff[0])) then GroundStaffUnavailable
    else CheckGroundStaff(t, r, staff[1..])
  }

  predicate AllKnown(rows: map<Id, ResourceRow>, ids: seq<Id>) {
    ids != [] ==> ids[0] in rows && AllKnown(rows, ids[1..])
  }

  function CheckConflict(t: Tables, r: Request): ConflictType {
    if r.flight !in t.flights then InvalidResource
    else if r.gate !in t.gates then InvalidResource
    else if r.vehicle !in t.vehicles then InvalidResource
    else if !AllKnown(t.staff, r.staff) then InvalidResource
    else
      var gate := CheckGate(t, r);
      if gate != NoConflict then gate
      else
        var vehicle := CheckVehicle(t, r);
        if vehicle != NoConflict then vehicle
        else CheckGroundStaff(t, r, r.staff)
  }

  // -------------------------------------------------------- The specification

  /** A booking stands in the way of a request: active, of another flight, overlapping. */
  predicate Blocks(b: Booking, r: Request) {
    b.active && b.flight != r.flight && Overlaps(r.start, r.end, b.start, b.end)
  }

  ghost predicate GateTaken(m: map<Id, Booking>, r: Request) {
    exists id :: id in m && m[id].gate == r.gate && Blocks(m[id], r)
  }

  ghost predicate VehicleTaken(m: map<Id, Booking>, r: Request) {
    exists id :: id in m && m[id].vehicle == r.vehicle && Blocks(m[id], r)
  }

  ghost predicate StaffTaken(m: map<Id, Booking>, r: Request, staff: Id) {
    exists id :: id in m && staff in m[id].staff && Blocks(m[id], r)
  }

  /** The resources under maintenance. */
  function Offline(rows: map<Id, ResourceRow>): set<Id> {
    set id | id in rows && rows[id].status == Maintenance
  }

  /** All that the conflict check depends on: which flights and resources exist, which resources
      are under maintenance, and the bookings. */
  datatype Availability = Availability(
    flights: set<Id>, gates: set<Id>, vehicles: set<Id>, staff: set<Id>,
    offlineGates: set<Id>, offlineVehicles: set<Id>, offlineStaff: set<Id>,
    bookings: map<Id, Booking>)

  function AvailabilityOf(t: Tables): Availability {
    Availability(t.flights.Keys, t.gates.Keys, t.vehicles.Keys, t.staff.Keys,
                 Offline(t.gates), Offline(t.vehicles), Offline(t.staff), BookingMap(t))
  }

  ghost predicate Exist(v: Availability, r: Request) {
    r.flight in v.flights && r.gate in v.gates && r.vehicle in v.vehicles && Members(r.staff) <= v.staff
  }

  ghost predicate GateFree(v: Availability, r: Request) {
    r.gate !in v.offlineGates && !GateTaken(v.bookings, r)
  }

  ghost predicate VehicleFree(v: Availability, r: Request) {
    r.vehicle !in v.offlineVehicles && !VehicleTaken(v.bookings, r)
  }

  ghost predicate StaffFree(v: Availability, r: Request) {
    forall s :: s in Members(r.staff) ==> s !in v.offlineStaff && !StaffTaken(v.bookings, r, s)
  }

  /** The answer the check should give, in the order invalid, gate, vehicle, staff. */
  ghost function Verdict(v: Availability, r: Request): ConflictType {
    if !Exist(v, r) then InvalidResource
    else if !GateFree(v, r) then GateUnavailable
    else if !VehicleFree(v, r) then VehicleUnavailable
    else if !StaffFree(v, r) then GroundStaffUnavailable
    else NoConflict
  }

  // --------------------------------------------------------------- The proof

  lemma {:induction false} BlockedByMeans(r: Request, rows: seq<AllocationRow>)
    ensures BlockedBy(r, rows) <==>
      exists a :: a in rows && a.flight != r.flight && Overlaps(r.start, r.end, a.start, a.end)
  {
    if rows != [] {
      BlockedByMeans(r, rows[1..]);
      assert rows == [rows[0]] + rows[1..];
    }
  }

  /** A list that holds exactly the active bookings `ids` blocks a request iff one of them does. */
  lemma BlockedByListed(t: Tables, r: Request, rows: seq<AllocationRow>, ids: set<Id>)
    requires BookingKeys(t) && ListsExactly(rows, t, ids)
    requires forall id :: id in ids ==> id in BookingMap(t) && BookingMap(t)[id].active
    ensures BlockedBy(r, rows) <==> exists id :: id in ids && Blocks(BookingMap(t)[id], r)
  {
    BlockedByMeans(r, rows);
    forall a | a in rows ensures a.id in ids && BookingMap(t)[a.id] == BookingOf(a, t.links) {
      BookingOfRow(t, a);
    }
    if BlockedBy(r, rows) {
      var a :| a in rows && a.flight != r.flight && Overlaps(r.start, r.end, a.start, a.end);
      assert Blocks(BookingMap(t)[a.id], r);
    }
    if id :| id in ids && Blocks(BookingMap(t)[id], r) {
      assert id in AllocationIds(rows);
    }
  }

  lemma GateDecides(t: Tables, r: Request)
    requires BookingKeys(t) && r.gate in t.gates
    ensures CheckGate(t, r) == if GateFree(AvailabilityOf(t), r) then NoConflict else GateUnavailable
  {
    ListsAreExact(t, r.gate);
    var m := BookingMap(t);
    BlockedByListed(t, r, ActiveForGate(t, r.gate), set id | id in m && m[id].active && m[id].gate == r.gate);
  }

  lemma VehicleDecides(t: Tables, r: Request)
    requires BookingKeys(t) && r.vehicle in t.vehicles
    ensures CheckVehicle(t, r) == if VehicleFree(AvailabilityOf(t), r) then NoConflict else VehicleUnavailable
  {
    ListsAreExact(t, r.vehicle);
    var m := BookingMap(t);
    BlockedByListed(t, r, ActiveForVehicle(t, r.vehicle),
                    set id | id in m && m[id].active && m[id].vehicle == r.vehicle);
  }

  lemma StaffMemberDecides(t: Tables, r: Request, s: Id)
    requires BookingKeys(t)
    ensures BlockedBy(r, ActiveForStaff(t, s)) <==> StaffTaken(BookingMap(t), r, s)
  {
    StaffListIsExact(t, s);
    var m := BookingMap(t);
    BlockedByListed(t, r, ActiveForStaff(t, s), set id | id in m && m[id].active && s in m[id].staff);
  }

  lemma {:induction false} GroundStaffDecides(t: Tables, r: Request, staff: seq<Id>)
    requires BookingKeys(t) && AllKnown(t.staff, staff)
    ensures CheckGroundStaff(t, r, staff) ==
      if StaffFree(AvailabilityOf(t), r.(staff := staff)) then NoConflict else GroundStaffUnavailable
  {
    if staff != [] {
      var rest := staff[1..];
      GroundStaffDecides(t, r, rest);
      StaffMemberDecides(t, r, staff[0]);
      AllKnownMeans(t.staff, staff);
      assert Members(staff) == {staff[0]} + Members(rest);
      SameWindow(BookingMap(t), r, r.(staff := staff));
      SameWindow(BookingMap(t), r, r.(staff := rest));
    }
  }

  /** Whether a staff member is taken does not depend on who else is asked for. */
  lemma SameWindow(m: map<Id, Booking>, r: Request, r': Request)
    requires r.flight == r'.flight && r.start == r'.start && r.end == r'.end
    ensures forall s :: StaffTaken(m, r, s) <==> StaffTaken(m, r', s)
  {
    assert forall id :: id in m ==> (Blocks(m[id], r) <==> Blocks(m[id], r'));
  }

  lemma {:induction false} AllKnownMeans(rows: map<Id, ResourceRow>, ids: seq<Id>)
    ensures AllKnown(rows, ids) <==> Members(ids) <= rows.Keys
  {
    if ids != [] {
      AllKnownMeans(rows, ids[1..]);
      assert Members(ids) == {ids[0]} + Members(ids[1..]);
    }
  }

  /** The check decides its specification, and its answer depends on the tables only through
      their availability. It never reports a bare time overlap or a flight-state error. */
  lemma CheckConflictDecides(t: Tables, r: Request)
    requires BookingKeys(t)
    ensures CheckConflict(t, r) == Verdict(AvailabilityOf(t), r)
    ensures CheckConflict(t, r) !in {TimeOverlap, InvalidFlightState}
  {
    AllKnownMeans(t.staff, r.staff);
    if Exist(AvailabilityOf(t), r) {
      GateDecides(t, r);
      VehicleDecides(t, r);
      GroundStaffDecides(t, r, r.staff);
    }
  }

  lemma VerdictIgnoresOrder(v: Availability, r: Request, r': Request)
    requires Members(r.staff) == Members(r'.staff) && r' == r.(staff := r'.staff)
    ensures Verdict(v, r) == Verdict(v, r')
  {
    var m := v.bookings;
    assert forall id :: id in m ==> (Blocks(m[id], r) <==> Blocks(m[id], r'));
    assert GateTaken(m, r) <==> GateTaken(m, r');
    assert VehicleTaken(m, r) <==> VehicleTaken(m, r');
    SameWindow(m, r, r');
  }

  /** The answer is the same for any order or repetition of the requested staff, and for any
      order of the rows in the tables (`RowOrderIsInvisible`). */
  lemma CheckIgnoresOrder(t: Tables, t': Tables, r: Request, r': Request)
    requires BookingKeys(t) && BookingKeys(t') && AvailabilityOf(t) == AvailabilityOf(t')
    requires Members(r.staff) == Members(r'.staff) && r' == r.(staff := r'.staff)
    ensures CheckConflict(t, r) == CheckConflict(t', r')
  {
    CheckConflictDecides(t, r);
    CheckConflictDecides(t', r');
    VerdictIgnoresOrder(AvailabilityOf(t), r, r');
  }

  /** The same rows inserted in another order represent the same bookings. */
  lemma RowOrderIsInvisible(rows: seq<AllocationRow>, rows': seq<AllocationRow>,
                            links: seq<LinkRow>, links': seq<LinkRow>)
    requires UniqueAllocations(rows) && UniqueAllocations(rows')
    requires forall a :: a in rows <==> a in rows'
    requires forall l :: l in links <==> l in links'
    ensures Bookings(rows, links) == Bookings(rows', links')
  {
    assert AllocationIds(rows) == AllocationIds(rows');
    forall id | id in AllocationIds(rows)
      ensures Bookings(rows, links)[id] == Bookings(rows', links')[id]
    {
      FoundRow(rows', FindAllocation(rows, id).value);
      assert StaffOf(links, id) == StaffOf(links', id);
    }
  }
}
