/** The relational tables, what each query and update statement means, and the simple map of
    bookings that `allocations` joined with `allocation_staff` stands for.

    A table with a text primary key that is only ever read by that key is a map; the others are
    sequences of rows in the order they were inserted. */
module Schema {
  import opened Domain

  datatype FlightRow =
    FlightRow(number: string, origin: string, destination: string, aircraft: string, status: FlightStatus)

  datatype ResourceRow = ResourceRow(detail: string, status: ResourceStatus)

  datatype ScheduleRow =
    ScheduleRow(id: Id, flight: Id, scheduledArrival: int, scheduledDeparture: int,
                estimatedArrival: int, estimatedDeparture: int)

  datatype AllocationRow =
    AllocationRow(id: Id, flight: Id, gate: Id, vehicle: Id, start: int, end: int, status: AllocationStatus)

  datatype LinkRow = LinkRow(allocation: Id, staff: Id)

  datatype DelayRow = DelayRow(id: Id, flight: Id, reason: DelayReason, minutes: int, notes: string)

  datatype EmergencyRow =
    EmergencyRow(id: Id, flight: Id, reason: string, declaredAt: int, landingTime: int, status: EmergencyStatus)

  datatype Tables = Tables(
    flights: map<Id, FlightRow>,
    schedules: seq<ScheduleRow>,
    gates: map<Id, ResourceRow>,
    vehicles: map<Id, ResourceRow>,
    staff: map<Id, ResourceRow>,
    allocations: seq<AllocationRow>,
    links: seq<LinkRow>,
    delays: seq<DelayRow>,
    emergencies: seq<EmergencyRow>)

  const EMPTY := Tables(map[], [], map[], map[], map[], [], [], [], [])

  // ---------------------------------------------------------------- Queries

  /** The rows of a table that meet a condition, in table order. */
  function Select<T>(rows: seq<T>, keep: T -> bool): seq<T> {
    if rows == [] then []
    else
      var front := Select(rows[..|rows| - 1], keep);
      var last := rows[|rows| - 1];
      if keep(last) then front + [last] else front
  }

  function AllocationIds(rows: seq<AllocationRow>): set<Id> {
    set a | a in rows :: a.id
  }

  function FindAllocation(rows: seq<AllocationRow>, id: Id): (r: Option<AllocationRow>)
    ensures r.Some? <==> id in AllocationIds(rows)
    ensures r.Some? ==> r.value in rows && r.value.id == id
  {
    if rows == [] then None
    else if rows[0].id == id then Some(rows[0])
    else FindAllocation(rows[1..], id)
  }

  function FindSchedule(rows: seq<ScheduleRow>, flight: Id): (r: Option<ScheduleRow>)
    ensures r.Some? ==> r.value in rows && r.value.flight == flight
    ensures r.None? ==> forall s :: s in rows ==> s.flight != flight
  {
    if rows == [] then None
    else if rows[0].flight == flight then Some(rows[0])
    else FindSchedule(rows[1..], flight)
  }

  function FindEmergency(rows: seq<EmergencyRow>, id: Id): (r: Option<EmergencyRow>)
    ensures r.Some? ==> r.value in rows && r.value.id == id
    ensures r.None? ==> forall e :: e in rows ==> e.id != id
  {
    if rows == [] then None
    else if rows[0].id == id then Some(rows[0])
    else FindEmergency(rows[1..], id)
  }

  function ActiveForGate(t: Tables, gate: Id): seq<AllocationRow> {
    Select(t.allocations, (a: AllocationRow) => a.gate == gate && a.status == Success)
  }

  function ActiveForVehicle(t: Tables, vehicle: Id): seq<AllocationRow> {
    Select(t.allocations, (a: AllocationRow) => a.vehicle == vehicle && a.status == Success)
  }

  function AllocationsForFlight(t: Tables, flight: Id): seq<AllocationRow> {
    Select(t.allocations, (a: AllocationRow) => a.flight == flight)
  }

  /** The join of allocations with their staff links: an active row appears once for every
      matching link row. */
  function StaffJoin(rows: seq<AllocationRow>, links: seq<LinkRow>, staff: Id): seq<AllocationRow> {
    if rows == [] then []
    else
      var last := rows[|rows| - 1];
      var copies := if last.status == Success then multiset(links)[LinkRow(last.id, staff)] else 0;
      StaffJoin(rows[..|rows| - 1], links, staff) + seq(copies, _ => last)
  }

  function ActiveForStaff(t: Tables, staff: Id): seq<AllocationRow> {
    StaffJoin(t.allocations, t.links, staff)
  }

  /** The staff linked to an allocation, in link order. */
  function LinkedStaff(links: seq<LinkRow>, id: Id): (staff: seq<Id>)
    ensures Members(staff) == StaffOf(links, id)
  {
    if links == [] then []
    else
      var front, last := links[..|links| - 1], links[|links| - 1];
      assert links == front + [last];
      var rest := LinkedStaff(front, id);
      if last.allocation == id then
        assert Members(rest + [last.staff]) == Members(rest) + {last.staff};
        rest + [last.staff]
      else rest
  }

  // ---------------------------------------------------------------- Updates

  /** Sets the status of the named rows; names that match no row are ignored. */
  function WithStatus(rows: map<Id, ResourceRow>, ids: set<Id>, status: ResourceStatus): map<Id, ResourceRow> {
    map id | id in rows :: if id in ids then rows[id].(status := status) else rows[id]
  }

  function WithAllocationStatus(rows: seq<AllocationRow>, id: Id, status: AllocationStatus): seq<AllocationRow> {
    seq(|rows|, i requires 0 <= i < |rows| => if rows[i].id == id then rows[i].(status := status) else rows[i])
  }

  function WithEstimates(rows: seq<ScheduleRow>, flight: Id, arrival: int, departure: int): seq<ScheduleRow> {
    seq(|rows|, i requires 0 <= i < |rows| =>
      if rows[i].flight == flight
      then rows[i].(estimatedArrival := arrival, estimatedDeparture := departure) else rows[i])
  }

  function WithEmergency(rows: seq<EmergencyRow>, id: Id, landingTime: int, status: EmergencyStatus)
    : seq<EmergencyRow>
  {
    seq(|rows|, i requires 0 <= i < |rows| =>
      if rows[i].id == id then rows[i].(landingTime := landingTime, status := status) else rows[i])
  }

  /** An upsert: a schedule whose id exists only overwrites that row's estimates, and the row
      keeps the flight it already has. */
  function UpsertSchedule(rows: seq<ScheduleRow>, row: ScheduleRow): seq<ScheduleRow> {
    if exists s :: s in rows && s.id == row.id then
      seq(|rows|, i requires 0 <= i < |rows| =>
        if rows[i].id == row.id
        then rows[i].(estimatedArrival := row.estimatedArrival, estimatedDeparture := row.estimatedDeparture)
        else rows[i])
    else rows + [row]
  }

  /** What an upsert does, row by row. */
  lemma UpsertedRows(rows: seq<ScheduleRow>, row: ScheduleRow, rows': seq<ScheduleRow>)
    requires rows' == rows + [row] <==> forall s :: s in rows ==> s.id != row.id
    requires (exists s :: s in rows && s.id == row.id) ==> |rows'| == |rows|
    requires forall i :: 0 <= i < |rows| ==>
      && i < |rows'|
      && rows'[i] == if rows[i].id != row.id then rows[i] else
           rows[i].(estimatedArrival := row.estimatedArrival, estimatedDeparture := row.estimatedDeparture)
    ensures rows' == UpsertSchedule(rows, row)
  {
  }

  /** Inserts the staff links of an allocation one by one. The first that breaks a key stops the
      loop: the links before it stay, and the flag says so. */
  function InsertLinks(links: seq<LinkRow>, known: set<Id>, id: Id, staff: seq<Id>): (seq<LinkRow>, bool)
    decreases |staff|
  {
    if staff == [] then (links, true)
    else if staff[0] !in known || LinkRow(id, staff[0]) in links then (links, false)
    else InsertLinks(links + [LinkRow(id, staff[0])], known, id, staff[1..])
  }

  predicate AllocationKeysHold(t: Tables, a: AllocationRow) {
    && a.id !in AllocationIds(t.allocations)
    && a.flight in t.flights && a.gate in t.gates && a.vehicle in t.vehicles
  }

  /** The row, then the links, with no transaction around them. */
  function InsertAllocation(t: Tables, a: AllocationRow, staff: seq<Id>): (Tables, bool) {
    if !AllocationKeysHold(t, a) then (t, false)
    else
      var (links, ok) := InsertLinks(t.links, t.staff.Keys, a.id, staff);
      (t.(allocations := t.allocations + [a], links := links), ok)
  }

  // ---------------------------------------------------------- Schema and map

  predicate UniqueAllocations(rows: seq<AllocationRow>) {
    forall i, j :: 0 <= i < j < |rows| ==> rows[i].id != rows[j].id
  }

  predicate UniqueSchedules(rows: seq<ScheduleRow>) {
    forall i, j :: 0 <= i < j < |rows| ==> rows[i].id != rows[j].id
  }

  predicate OneSchedulePerFlight(rows: seq<ScheduleRow>) {
    forall i, j :: 0 <= i < j < |rows| ==> rows[i].flight != rows[j].flight
  }

  /** What the schema's primary and foreign keys guarantee of the two allocation tables. */
  ghost predicate BookingKeys(t: Tables) {
    && UniqueAllocations(t.allocations)
    && RepeatFree(t.links)
    && (forall a :: a in t.allocations ==>
          a.flight in t.flights && a.gate in t.gates && a.vehicle in t.vehicles && a.status != Failed)
    && (forall l :: l in t.links ==> l.allocation in AllocationIds(t.allocations) && l.staff in t.staff)
  }

  function StaffOf(links: seq<LinkRow>, id: Id): set<Id> {
    set l | l in links && l.allocation == id :: l.staff
  }

  function BookingOf(a: AllocationRow, links: seq<LinkRow>): Booking {
    Booking(a.flight, a.gate, a.vehicle, StaffOf(links, a.id), a.start, a.end, a.status == Success)
  }

  /** The map from allocation id to booking that the two tables represent. */
  function Bookings(rows: seq<AllocationRow>, links: seq<LinkRow>): map<Id, Booking> {
    map id | id in AllocationIds(rows) :: BookingOf(FindAllocation(rows, id).value, links)
  }

  function BookingMap(t: Tables): map<Id, Booking> {
    Bookings(t.allocations, t.links)
  }

  // --------------------------------------------------- Facts about the queries

  lemma {:induction false} SelectKeeps<T>(rows: seq<T>, keep: T -> bool)
    ensures forall a :: a in Select(rows, keep) <==> a in rows && keep(a)
  {
    if rows != [] {
      SelectKeeps(rows[..|rows| - 1], keep);
      assert rows == rows[..|rows| - 1] + [rows[|rows| - 1]];
    }
  }

  lemma SelectAppend<T>(rows: seq<T>, row: T, keep: T -> bool)
    ensures Select(rows + [row], keep) == Select(rows, keep) + (if keep(row) then [row] else [])
  {
    assert (rows + [row])[..|rows|] == rows;
  }

  lemma SelectPrefix<T>(rows: seq<T>, i: nat, keep: T -> bool)
    requires i < |rows|
    ensures Select(rows[..i + 1], keep) == Select(rows[..i], keep) + (if keep(rows[i]) then [rows[i]] else [])
  {
    assert rows[..i + 1] == rows[..i] + [rows[i]];
    SelectAppend(rows[..i], rows[i], keep);
  }

  lemma {:induction false} SelectUnique(rows: seq<AllocationRow>, keep: AllocationRow -> bool)
    requires UniqueAllocations(rows)
    ensures UniqueAllocations(Select(rows, keep))
  {
    if rows != [] {
      var front := rows[..|rows| - 1];
      SelectUnique(front, keep);
      SelectKeeps(front, keep);
      forall a | a in Select(front, keep) ensures a.id != rows[|rows| - 1].id {
        assert a in front;
      }
    }
  }

  lemma {:induction false} FoundRow(rows: seq<AllocationRow>, a: AllocationRow)
    requires UniqueAllocations(rows) && a in rows
    ensures FindAllocation(rows, a.id) == Some(a)
  {
    if rows[0].id == a.id {
      var i :| 0 <= i < |rows| && rows[i] == a;
      assert i == 0;
    } else {
      FoundRow(rows[1..], a);
    }
  }

  /** Each booking of the map is the row with that id, and each row is a booking. */
  lemma BookingOfRow(t: Tables, a: AllocationRow)
    requires BookingKeys(t) && a in t.allocations
    ensures a.id in BookingMap(t) && BookingMap(t)[a.id] == BookingOf(a, t.links)
  {
    FoundRow(t.allocations, a);
  }

  /** With repeat-free links the join lists every active row linked to the member just once. */
  lemma {:induction false} StaffJoinIsSelect(rows: seq<AllocationRow>, links: seq<LinkRow>, staff: Id)
    requires RepeatFree(links)
    ensures StaffJoin(rows, links, staff)
         == Select(rows, (a: AllocationRow) => a.status == Success && LinkRow(a.id, staff) in links)
  {
    if rows != [] {
      StaffJoinIsSelect(rows[..|rows| - 1], links, staff);
      RepeatFreeCount(links, LinkRow(rows[|rows| - 1].id, staff));
    }
  }

  lemma {:induction false} RepeatFreeCount<T>(xs: seq<T>, x: T)
    requires RepeatFree(xs)
    ensures multiset(xs)[x] == if x in xs then 1 else 0
  {
    if xs != [] {
      var front, last := xs[..|xs| - 1], xs[|xs| - 1];
      RepeatFreeCount(front, x);
      assert xs == front + [last];
      assert last !in front;
    }
  }

  ghost predicate ListsExactly(rows: seq<AllocationRow>, t: Tables, ids: set<Id>) {
    && UniqueAllocations(rows)
    && AllocationIds(rows) == ids
    && forall a :: a in rows ==> a in t.allocations
  }

  /** Each list query returns exactly the matching active bookings of the map, once each. */
  lemma ListsAreExact(t: Tables, x: Id)
    requires BookingKeys(t)
    ensures var m := BookingMap(t);
            && ListsExactly(ActiveForGate(t, x), t, set id | id in m && m[id].active && m[id].gate == x)
            && ListsExactly(ActiveForVehicle(t, x), t, set id | id in m && m[id].active && m[id].vehicle == x)
            && ListsExactly(AllocationsForFlight(t, x), t, set id | id in m && m[id].flight == x)
  {
    SelectIsExact(t, (a: AllocationRow) => a.gate == x && a.status == Success);
    SelectIsExact(t, (a: AllocationRow) => a.vehicle == x && a.status == Success);
    SelectIsExact(t, (a: AllocationRow) => a.flight == x);
    forall a | a in t.allocations ensures a.id in BookingMap(t) && BookingMap(t)[a.id] == BookingOf(a, t.links) {
      BookingOfRow(t, a);
    }
  }

  lemma StaffListIsExact(t: Tables, x: Id)
    requires BookingKeys(t)
    ensures var m := BookingMap(t);
            ListsExactly(ActiveForStaff(t, x), t, set id | id in m && m[id].active && x in m[id].staff)
  {
    StaffJoinIsSelect(t.allocations, t.links, x);
    SelectIsExact(t, (a: AllocationRow) => a.status == Success && LinkRow(a.id, x) in t.links);
    forall a | a in t.allocations
      ensures a.id in BookingMap(t) && BookingMap(t)[a.id] == BookingOf(a, t.links)
      ensures x in BookingMap(t)[a.id].staff <==> LinkRow(a.id, x) in t.links
    {
      BookingOfRow(t, a);
    }
  }

  lemma SelectIsExact(t: Tables, keep: AllocationRow -> bool)
    requires BookingKeys(t)
    ensures ListsExactly(Select(t.allocations, keep), t, set a | a in t.allocations && keep(a) :: a.id)
  {
    SelectUnique(t.allocations, keep);
    SelectKeeps(t.allocations, keep);
  }
}
