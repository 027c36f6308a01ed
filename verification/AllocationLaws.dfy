/** Laws of `allocate` and `release`: completeness, monotonicity, undoing, and independence of order. */
module AllocationLaws {
  import opened Domain
  import opened Schema
  import opened Conflicts
  import opened Transitions
  import opened Effects

  // ------------------------------------------------------------ Availability

  lemma OfflineAfterMark(rows: map<Id, ResourceRow>, ids: set<Id>, status: ResourceStatus)
    requires status != Maintenance
    ensures Offline(WithStatus(rows, ids, status)) == Offline(rows) - ids
  {
    var rows' := WithStatus(rows, ids, status);
    forall id ensures id in Offline(rows') <==> id in Offline(rows) - ids {
      if id in rows {
        assert rows'[id].status == if id in ids then status else rows[id].status;
      }
    }
  }

  /** After `allocate`, on any exit, the availability differs by at most the one new booking. */
  lemma AvailabilityAfterAllocate(s: State, r: Request)
    requires BookingKeys(s.t)
    ensures BookingKeys(Allocate(s, r).0.t)
    ensures AvailabilityOf(Allocate(s, r).0.t) ==
              if Admissible(s.t, r) && IdIsFresh(s)
              then AvailabilityOf(s.t).(bookings := BookingMap(s.t)[NextId(s) := BookingFor(r)])
              else AvailabilityOf(s.t)
  {
    AllocateEffect(s, r);
    if Admissible(s.t, r) {
      OccupyingKeepsOffline(s.t, r);
    }
  }

  lemma OccupyingKeepsOffline(t: Tables, r: Request)
    requires BookingKeys(t) && Admissible(t, r)
    ensures var t' := Mark(t, r.gate, r.vehicle, Members(r.staff), Occupied);
            && t'.gates.Keys == t.gates.Keys && t'.vehicles.Keys == t.vehicles.Keys && t'.staff.Keys == t.staff.Keys
            && Offline(t'.gates) == Offline(t.gates) && Offline(t'.vehicles) == Offline(t.vehicles)
            && Offline(t'.staff) == Offline(t.staff)
  {
    CheckConflictDecides(t, r);
    MarkKeepsKeys(t, r.gate, r.vehicle, Members(r.staff), Occupied);
    OfflineAfterMark(t.gates, {r.gate}, Occupied);
    OfflineAfterMark(t.vehicles, {r.vehicle}, Occupied);
    OfflineAfterMark(t.staff, Members(r.staff), Occupied);
    assert Offline(t.gates) - {r.gate} == Offline(t.gates);
    assert Offline(t.vehicles) - {r.vehicle} == Offline(t.vehicles);
    assert Offline(t.staff) - Members(r.staff) == Offline(t.staff);
  }

  /** The availability once a booking is released: it no longer counts, and nothing it names is
      under maintenance any more. */
  function WithoutBooking(v: Availability, id: Id): Availability
    requires id in v.bookings
  {
    var b := v.bookings[id];
    v.(offlineGates := v.offlineGates - {b.gate},
       offlineVehicles := v.offlineVehicles - {b.vehicle},
       offlineStaff := v.offlineStaff - b.staff,
       bookings := v.bookings[id := b.(active := false)])
  }

  lemma AvailabilityAfterRelease(t: Tables, id: Id)
    requires BookingKeys(t) && Release(t, id).1 == Done
    ensures id in BookingMap(t) && BookingKeys(Release(t, id).0)
    ensures AvailabilityOf(Release(t, id).0) == WithoutBooking(AvailabilityOf(t), id)
  {
    ReleaseEffect(t, id);
    var b := BookingMap(t)[id];
    MarkKeepsKeys(t, b.gate, b.vehicle, b.staff, Available);
    OfflineAfterMark(t.gates, {b.gate}, Available);
    OfflineAfterMark(t.vehicles, {b.vehicle}, Available);
    OfflineAfterMark(t.staff, b.staff, Available);
  }

  // ------------------------------------------------------------ Completeness

  /** How `allocate` ends, exactly. It succeeds iff the guards pass, the id is fresh and no staff
      member is named twice; it raises iff the guards pass but one of the other two fails; and a
      rejection leaves every table and the counter as they were. */
  lemma AllocateCompletesOrDoesNothing(s: State, r: Request)
    requires BookingKeys(s.t)
    ensures var (s', o) := Allocate(s, r);
            && (o == Allocated(NextId(s)) <==> Admissible(s.t, r) && IdIsFresh(s) && RepeatFree(r.staff))
            && (o.Thrown? <==> Admissible(s.t, r) && !(IdIsFresh(s) && RepeatFree(r.staff)))
            && (o.Rejected? <==> !Admissible(s.t, r))
            && (o.Rejected? ==> s' == s)
            && (o.Allocated? ==> BookingMap(s'.t) == BookingMap(s.t)[NextId(s) :=
                  Booking(r.flight, r.gate, r.vehicle, Members(r.staff), r.start, r.end, true)])
  {
    AllocateEffect(s, r);
    FirstRepeatMeans(r.staff, {});
    assert r.staff[..|r.staff|] == r.staff;
  }

  // -------------------------------------------------- Undoing and monotonicity

  lemma NewBookingBlocks(v: Availability, id: Id, b: Booking, q: Request)
    requires id !in v.bookings
    ensures var m' := v.bookings[id := b];
            && (GateTaken(m', q) <==> GateTaken(v.bookings, q) || (b.gate == q.gate && Blocks(b, q)))
            && (VehicleTaken(m', q) <==> VehicleTaken(v.bookings, q) || (b.vehicle == q.vehicle && Blocks(b, q)))
            && (forall x :: StaffTaken(m', q, x) <==> StaffTaken(v.bookings, q, x) || (x in b.staff && Blocks(b, q)))
  {
    var m, m' := v.bookings, v.bookings[id := b];
    assert m'[id] == b;
    assert forall i :: i in m ==> i in m' && m'[i] == m[i];
    assert forall i :: i in m' && i != id ==> i in m && m[i] == m'[i];
  }

  /** An inactive booking is as good as none. */
  lemma InactiveIsInvisible(v: Availability, id: Id, b: Booking, q: Request)
    requires id !in v.bookings && !b.active
    ensures Verdict(v.(bookings := v.bookings[id := b]), q) == Verdict(v, q)
  {
    NewBookingBlocks(v, id, b, q);
  }

  /** Adding a booking and then releasing it leaves every verdict as it was, unless the release
      took something out of maintenance. */
  lemma AddThenRelease(v: Availability, id: Id, b: Booking, q: Request)
    requires id !in v.bookings
    requires b.gate !in v.offlineGates && b.vehicle !in v.offlineVehicles && b.staff !! v.offlineStaff
    ensures Verdict(WithoutBooking(v.(bookings := v.bookings[id := b]), id), q) == Verdict(v, q)
  {
    var released := b.(active := false);
    assert v.bookings[id := b][id := released] == v.bookings[id := released];
    assert v.offlineGates - {b.gate} == v.offlineGates;
    assert v.offlineVehicles - {b.vehicle} == v.offlineVehicles;
    assert v.offlineStaff - b.staff == v.offlineStaff;
    InactiveIsInvisible(v, id, released, q);
  }

  lemma NamedAreOnline(t: Tables, r: Request)
    requires BookingKeys(t) && Admissible(t, r)
    ensures var v := AvailabilityOf(t);
            && r.gate !in v.offlineGates && r.vehicle !in v.offlineVehicles && BookingFor(r).staff !! v.offlineStaff
  {
    CheckConflictDecides(t, r);
    assert BookingFor(r).staff <= Members(r.staff);
  }

  lemma ReleasableAfterAllocate(s: State, r: Request)
    requires BookingKeys(s.t) && Allocate(s, r).1.Allocated?
    ensures Admissible(s.t, r) && IdIsFresh(s) && Allocate(s, r).1.id == NextId(s)
    ensures Release(Allocate(s, r).0.t, NextId(s)).1 == Done
  {
    AllocateEffect(s, r);
    ReleaseEffect(Allocate(s, r).0.t, NextId(s));
  }

  /** Allocating and then releasing is invisible: whatever is asked next, the conflict check
      answers as it did before. */
  lemma AllocateThenRelease(s: State, r: Request, q: Request)
    requires BookingKeys(s.t) && Allocate(s, r).1.Allocated?
    ensures var (t, o) := Release(Allocate(s, r).0.t, Allocate(s, r).1.id);
            o == Done && CheckConflict(t, q) == CheckConflict(s.t, q)
  {
    ReleasableAfterAllocate(s, r);
    var v, v' := AvailabilityOf(s.t), AvailabilityOf(Release(Allocate(s, r).0.t, NextId(s)).0);
    assert v' == WithoutBooking(v.(bookings := v.bookings[NextId(s) := BookingFor(r)]), NextId(s)) by {
      AvailabilityAfterAllocate(s, r);
      AvailabilityAfterRelease(Allocate(s, r).0.t, NextId(s));
    }
    assert Verdict(v', q) == Verdict(v, q) by {
      NamedAreOnline(s.t, r);
      AddThenRelease(v, NextId(s), BookingFor(r), q);
    }
    assert BookingKeys(Release(Allocate(s, r).0.t, NextId(s)).0) by {
      AvailabilityAfterAllocate(s, r);
      AvailabilityAfterRelease(Allocate(s, r).0.t, NextId(s));
    }
    CheckConflictDecides(s.t, q);
    CheckConflictDecides(Release(Allocate(s, r).0.t, NextId(s)).0, q);
  }

  lemma AddingNeverFrees(v: Availability, id: Id, b: Booking, q: Request)
    requires id !in v.bookings && Verdict(v, q) != NoConflict
    ensures Verdict(v.(bookings := v.bookings[id := b]), q) != NoConflict
  {
    NewBookingBlocks(v, id, b, q);
  }

  lemma ReleasingNeverBlocks(v: Availability, id: Id, q: Request)
    requires id in v.bookings && Verdict(v, q) == NoConflict
    ensures Verdict(WithoutBooking(v, id), q) == NoConflict
  {
    var m, m' := v.bookings, WithoutBooking(v, id).bookings;
    assert forall i :: i in m' && Blocks(m'[i], q) ==> i in m && m[i] == m'[i];
  }

  /** `allocate`, however it ends, never makes a conflicting request conflict-free. */
  lemma AllocateNeverFrees(s: State, r: Request, q: Request)
    requires BookingKeys(s.t) && CheckConflict(s.t, q) != NoConflict
    ensures CheckConflict(Allocate(s, r).0.t, q) != NoConflict
  {
    var v, v' := AvailabilityOf(s.t), AvailabilityOf(Allocate(s, r).0.t);
    AvailabilityAfterAllocate(s, r);
    assert Verdict(v, q) != NoConflict by { CheckConflictDecides(s.t, q); }
    assert Verdict(v', q) != NoConflict by {
      if v' != v {
        AddingNeverFrees(v, NextId(s), BookingFor(r), q);
      }
    }
    CheckConflictDecides(Allocate(s, r).0.t, q);
  }

  /** `release` never makes a conflict-free request conflicting. */
  lemma ReleaseNeverBlocks(t: Tables, id: Id, q: Request)
    requires BookingKeys(t) && CheckConflict(t, q) == NoConflict
    ensures CheckConflict(Release(t, id).0, q) == NoConflict
  {
    if Release(t, id).1 == Done {
      AvailabilityAfterRelease(t, id);
      assert Verdict(WithoutBooking(AvailabilityOf(t), id), q) == NoConflict by {
        CheckConflictDecides(t, q);
        ReleasingNeverBlocks(AvailabilityOf(t), id, q);
      }
      CheckConflictDecides(Release(t, id).0, q);
    }
  }

  /** A release sets everything it names Available, so it takes resources out of maintenance: the
      set under maintenance survives it iff none of its resources was in that set. */
  lemma ReleaseLiftsMaintenance(t: Tables, id: Id)
    requires BookingKeys(t) && Release(t, id).1 == Done
    ensures id in BookingMap(t)
    ensures var b := BookingMap(t)[id];
            var v, v' := AvailabilityOf(t), AvailabilityOf(Release(t, id).0);
            (&& v'.offlineGates == v.offlineGates && v'.offlineVehicles == v.offlineVehicles
             && v'.offlineStaff == v.offlineStaff)
            <==> b.gate !in v.offlineGates && b.vehicle !in v.offlineVehicles && b.staff !! v.offlineStaff
  {
    AvailabilityAfterRelease(t, id);
    var b := BookingMap(t)[id];
    var v := AvailabilityOf(t);
    assert v.offlineGates - {b.gate} == v.offlineGates <==> b.gate !in v.offlineGates;
    assert v.offlineVehicles - {b.vehicle} == v.offlineVehicles <==> b.vehicle !in v.offlineVehicles;
    assert v.offlineStaff - b.staff == v.offlineStaff <==> b.staff !! v.offlineStaff;
  }

  lemma MarksCommute(rows: map<Id, ResourceRow>, a: set<Id>, b: set<Id>, status: ResourceStatus)
    ensures WithStatus(WithStatus(rows, a, status), b, status) == WithStatus(rows, a + b, status)
  {
  }

  /** The tables once bookings `a` and `b`, with ids `i` and `j`, have both been released. */
  function BothReleased(t: Tables, a: Booking, b: Booking, i: Id, j: Id): Tables {
    t.(gates := WithStatus(t.gates, {a.gate, b.gate}, Available),
       vehicles := WithStatus(t.vehicles, {a.vehicle, b.vehicle}, Available),
       staff := WithStatus(t.staff, a.staff + b.staff, Available),
       allocations := WithAllocationStatus(WithAllocationStatus(t.allocations, i, Released), j, Released))
  }

  /** The tables once booking `b` with this id has been released. */
  function Freed(t: Tables, b: Booking, id: Id): Tables {
    Mark(t, b.gate, b.vehicle, b.staff, Available).(allocations := WithAllocationStatus(t.allocations, id, Released))
  }

  lemma ReleaseIsFreed(t: Tables, id: Id)
    requires BookingKeys(t) && id in BookingMap(t) && BookingMap(t)[id].active
    ensures Release(t, id) == (Freed(t, BookingMap(t)[id], id), Done)
    ensures BookingKeys(Freed(t, BookingMap(t)[id], id))
    ensures BookingMap(Freed(t, BookingMap(t)[id], id)) == BookingMap(t)[id := BookingMap(t)[id].(active := false)]
  {
    ReleaseEffect(t, id);
  }

  lemma FreedTwice(t: Tables, a: Booking, b: Booking, i: Id, j: Id)
    ensures Freed(Freed(t, a, i), b, j) == BothReleased(t, a, b, i, j)
  {
    MarksCommute(t.gates, {a.gate}, {b.gate}, Available);
    MarksCommute(t.vehicles, {a.vehicle}, {b.vehicle}, Available);
    MarksCommute(t.staff, a.staff, b.staff, Available);
    assert {a.gate} + {b.gate} == {a.gate, b.gate};
    assert {a.vehicle} + {b.vehicle} == {a.vehicle, b.vehicle};
  }

  lemma ReleaseTwice(t: Tables, i: Id, j: Id)
    requires BookingKeys(t) && i != j && i in BookingMap(t) && j in BookingMap(t)
    requires BookingMap(t)[i].active && BookingMap(t)[j].active
    ensures Release(Release(t, i).0, j) == (BothReleased(t, BookingMap(t)[i], BookingMap(t)[j], i, j), Done)
  {
    ReleaseIsFreed(t, i);
    ReleaseIsFreed(Freed(t, BookingMap(t)[i], i), j);
    FreedTwice(t, BookingMap(t)[i], BookingMap(t)[j], i, j);
  }

  lemma BothReleasedIsSymmetric(t: Tables, a: Booking, b: Booking, i: Id, j: Id)
    ensures BothReleased(t, a, b, i, j) == BothReleased(t, b, a, j, i)
  {
    assert {a.gate, b.gate} == {b.gate, a.gate} && {a.vehicle, b.vehicle} == {b.vehicle, a.vehicle};
    assert a.staff + b.staff == b.staff + a.staff;
    assert WithAllocationStatus(WithAllocationStatus(t.allocations, i, Released), j, Released)
        == WithAllocationStatus(WithAllocationStatus(t.allocations, j, Released), i, Released);
  }

  /** Releases of two active bookings commute: the tables end up the same. */
  lemma ReleasesCommute(t: Tables, i: Id, j: Id)
    requires BookingKeys(t) && i != j && i in BookingMap(t) && j in BookingMap(t)
    requires BookingMap(t)[i].active && BookingMap(t)[j].active
    ensures Release(Release(t, i).0, j) == Release(Release(t, j).0, i)
  {
    ReleaseTwice(t, i, j);
    ReleaseTwice(t, j, i);
    BothReleasedIsSymmetric(t, BookingMap(t)[i], BookingMap(t)[j], i, j);
  }
}
