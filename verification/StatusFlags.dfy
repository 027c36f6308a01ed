/** What the status flag of a resource says about the bookings that name it. */
module StatusFlags {
  import opened Domain
  import opened Schema
  import opened Conflicts
  import opened Transitions
  import opened Effects
  import opened AllocationLaws
  import opened Safety

  function TableOf(t: Tables, resource: Resource): map<Id, ResourceRow> {
    match resource
    case Gate(_) => t.gates
    case Vehicle(_) => t.vehicles
    case Staff(_) => t.staff
  }

  predicate Known(t: Tables, resource: Resource) {
    resource.id in TableOf(t, resource)
  }

  predicate Has(t: Tables, resource: Resource, status: ResourceStatus) {
    Known(t, resource) && TableOf(t, resource)[resource.id].status == status
  }

  ghost predicate Named(m: map<Id, Booking>, resource: Resource) {
    exists id :: id in m && m[id].active && Uses(m[id], resource)
  }

  /** A resource marked Occupied is named by some active booking. */
  ghost predicate Justified(t: Tables) {
    forall resource :: Has(t, resource, Occupied) ==> Named(BookingMap(t), resource)
  }

  /** Exact flags: a resource is Occupied iff an active booking names it and Available otherwise,
      and no resource is named by two active bookings. */
  ghost predicate Exact(t: Tables) {
    && (forall resource :: Known(t, resource) ==>
          Has(t, resource, if Named(BookingMap(t), resource) then Occupied else Available))
    && Exclusive(BookingMap(t))
  }

  ghost predicate Exclusive(m: map<Id, Booking>) {
    forall i, j :: i in m && j in m && m[i].active && m[j].active && ShareResource(m[i], m[j]) ==> i == j
  }

  /** The administrator's three status overrides. */
  predicate SetsStatus(op: Op) {
    op.SetGateOp? || op.SetVehicleOp? || op.SetStaffOp?
  }

  function Target(op: Op): Resource
    requires SetsStatus(op)
  {
    match op
    case SetGateOp(id, _) => Gate(id)
    case SetVehicleOp(id, _) => Vehicle(id)
    case SetStaffOp(id, _) => Staff(id)
  }

  /** A simple way for flags to be justified: allocations end normally, and no administrator sets
      anything Occupied. */
  predicate Orderly(op: Op, outcome: Outcome) {
    (op.AllocateOp? ==> !outcome.Thrown?) && (SetsStatus(op) ==> op.status != Occupied)
  }

  /** What a run must respect for its flags to be exact: allocations end normally, those that
      succeed name only Available resources, and no administrator sets any status. */
  ghost predicate Strict(s: State, op: Op, outcome: Outcome) {
    && !SetsStatus(op)
    && (op.AllocateOp? ==> !outcome.Thrown?)
    && (op.AllocateOp? && outcome.Allocated? ==>
          forall resource :: Uses(BookingFor(op.request), resource) ==> Has(s.t, resource, Available))
  }

  ghost predicate OrderlyRun(run: Run) {
    IsRun(run, INITIAL) && forall i :: 0 <= i < |run.ops| ==> Orderly(run.ops[i], run.outcomes[i])
  }

  ghost predicate StrictRun(run: Run) {
    IsRun(run, INITIAL) && forall i :: 0 <= i < |run.ops| ==> Strict(run.states[i], run.ops[i], run.outcomes[i])
  }

  // --------------------------------------------------------- The two big steps

  /** How marking the resources of a booking changes the status of each resource. */
  lemma MarkMeans(t: Tables, b: Booking, status: ResourceStatus, resource: Resource, asked: ResourceStatus)
    ensures Has(Mark(t, b.gate, b.vehicle, b.staff, status), resource, asked)
       <==> if Uses(b, resource) && Known(t, resource) then status == asked else Has(t, resource, asked)
  {
  }

  lemma NamedAfterAdding(m: map<Id, Booking>, id: Id, b: Booking, resource: Resource)
    requires id !in m && b.active
    ensures Named(m[id := b], resource) <==> Named(m, resource) || Uses(b, resource)
  {
    var m' := m[id := b];
    assert m'[id] == b;
    assert forall i :: i in m ==> i in m' && m'[i] == m[i];
    assert forall i :: i in m' && i != id ==> i in m && m[i] == m'[i];
  }

  lemma GrantedTables(s: State, r: Request)
    requires BookingKeys(s.t) && Allocate(s, r).1.Allocated?
    ensures var t' := Allocate(s, r).0.t;
            var b := BookingFor(r);
            && NextId(s) !in BookingMap(s.t)
            && BookingMap(t') == BookingMap(s.t)[NextId(s) := b]
            && t'.(allocations := [], links := [])
               == Mark(s.t, b.gate, b.vehicle, b.staff, Occupied).(allocations := [], links := [])
  {
    AllocateEffect(s, r);
    FirstRepeatMeans(r.staff, {});
    assert r.staff[..|r.staff|] == r.staff;
  }

  /** A granted request, seen by the flags. */
  lemma GrantedMarks(s: State, r: Request)
    requires BookingKeys(s.t) && Allocate(s, r).1.Allocated?
    ensures NextId(s) !in BookingMap(s.t)
    ensures BookingMap(Allocate(s, r).0.t) == BookingMap(s.t)[NextId(s) := BookingFor(r)]
    ensures Marked(s.t, Allocate(s, r).0.t, BookingFor(r), Occupied)
  {
    GrantedTables(s, r);
    MarkMeansMarked(s.t, Allocate(s, r).0.t, BookingFor(r), Occupied);
  }

  /** The resources a booking uses have the status, and all others are as they were. */
  ghost predicate Marked(t: Tables, t': Tables, b: Booking, status: ResourceStatus) {
    && (forall resource, asked ::
          Has(t', resource, asked) <==>
            if Uses(b, resource) && Known(t, resource) then asked == status else Has(t, resource, asked))
    && (forall resource :: Known(t', resource) <==> Known(t, resource))
  }

  lemma MarkMeansMarked(t: Tables, t': Tables, b: Booking, status: ResourceStatus)
    requires var marked := Mark(t, b.gate, b.vehicle, b.staff, status);
             t'.gates == marked.gates && t'.vehicles == marked.vehicles && t'.staff == marked.staff
    ensures Marked(t, t', b, status)
  {
    forall resource, asked
      ensures Has(t', resource, asked) <==>
        if Uses(b, resource) && Known(t, resource) then asked == status else Has(t, resource, asked)
    {
      MarkMeans(t, b, status, resource, asked);
    }
  }

  /** A release, seen by the flags. */
  lemma ReleasedMarks(t: Tables, id: Id)
    requires BookingKeys(t) && id in BookingMap(t) && BookingMap(t)[id].active
    ensures BookingMap(Release(t, id).0) == BookingMap(t)[id := BookingMap(t)[id].(active := false)]
    ensures Marked(t, Release(t, id).0, BookingMap(t)[id], Available)
  {
    ReleaseIsFreed(t, id);
    MarkMeansMarked(t, Release(t, id).0, BookingMap(t)[id], Available);
  }

  lemma NamedAfterRelease(m: map<Id, Booking>, id: Id, resource: Resource)
    requires id in m && m[id].active
    ensures Named(m[id := m[id].(active := false)], resource)
       <==> exists i :: i in m && i != id && m[i].active && Uses(m[i], resource)
  {
    var m' := m[id := m[id].(active := false)];
    assert forall i :: i in m' && i != id ==> m'[i] == m[i];
    assert !m'[id].active;
  }

  // ------------------------------------------------------------ Other steps

  /** The resource is as it was, or it is new and Available. */
  predicate Untouched(t: Tables, t': Tables, resource: Resource) {
    Known(t', resource) ==>
      if Known(t, resource) then TableOf(t', resource)[resource.id] == TableOf(t, resource)[resource.id]
      else Has(t', resource, Available)
  }

  lemma AddingTouchesNothing(s: State, op: Op, resource: Resource)
    requires IsResourceOp(op) && !SetsStatus(op)
    ensures Untouched(s.t, Next(s, op).t, resource)
  {
    match op
    case AddGateOp(_, _) =>
    case AddVehicleOp(_, _) =>
    case AddStaffOp(_, _) =>
  }

  /** Any other step leaves each resource as it was or adds it Available. */
  lemma OtherStepsTouchNothing(s: State, op: Op, resource: Resource)
    requires !op.AllocateOp? && !op.ReleaseOp? && !SetsStatus(op) && !op.SeedOp?
    ensures Untouched(s.t, Next(s, op).t, resource)
  {
    if IsResourceOp(op) {
      AddingTouchesNothing(s, op, resource);
    } else {
      StepFrame(s, op);
    }
  }

  lemma NoFlightsNoBookings(t: Tables)
    requires BookingKeys(t) && t.flights == map[]
    ensures BookingMap(t) == map[]
  {
    assert forall a :: a in t.allocations ==> a.flight in t.flights;
  }

  /** A booking's resources exist. */
  lemma NamedExists(t: Tables, resource: Resource)
    requires BookingKeys(t) && Named(BookingMap(t), resource)
    ensures Known(t, resource)
  {
    var id :| id in BookingMap(t) && BookingMap(t)[id].active && Uses(BookingMap(t)[id], resource);
    var a := FindAllocation(t.allocations, id).value;
    assert a in t.allocations;
  }

  lemma SetStatusMeans(s: State, op: Op, resource: Resource, asked: ResourceStatus)
    requires SetsStatus(op)
    ensures Has(Next(s, op).t, resource, asked)
       <==> if resource == Target(op) && Known(s.t, resource) then asked == op.status else Has(s.t, resource, asked)
  {
    match op
    case SetGateOp(_, _) =>
    case SetVehicleOp(_, _) =>
    case SetStaffOp(_, _) =>
  }

  /** The booking a request asks for, with all its staff. */
  function Asked(r: Request): Booking {
    Booking(r.flight, r.gate, r.vehicle, Members(r.staff), r.start, r.end, true)
  }

  /** What is kept uses no more than what was asked for, and all of it when no one is named twice. */
  lemma KeptIsAsked(r: Request, resource: Resource)
    ensures Uses(BookingFor(r), resource) ==> Uses(Asked(r), resource)
    ensures RepeatFree(r.staff) ==> (Uses(BookingFor(r), resource) <==> Uses(Asked(r), resource))
  {
    FirstRepeatMeans(r.staff, {});
    assert r.staff[..|r.staff|] == r.staff;
  }

  /** An admissible request, seen by the flags: all it asks for is marked, and the new booking, if
      its id is fresh, names what was kept. */
  lemma AttemptMarks(s: State, r: Request)
    requires BookingKeys(s.t) && Admissible(s.t, r)
    ensures Marked(s.t, Allocate(s, r).0.t, Asked(r), Occupied)
    ensures forall resource ::
      Named(BookingMap(Allocate(s, r).0.t), resource)
      <==> Named(BookingMap(s.t), resource) || (IdIsFresh(s) && Uses(BookingFor(r), resource))
  {
    AllocateEffect(s, r);
    MarkMeansMarked(s.t, Allocate(s, r).0.t, Asked(r), Occupied);
    if IdIsFresh(s) {
      forall resource ensures Named(BookingMap(s.t)[NextId(s) := BookingFor(r)], resource)
        <==> Named(BookingMap(s.t), resource) || Uses(BookingFor(r), resource)
      {
        NamedAfterAdding(BookingMap(s.t), NextId(s), BookingFor(r), resource);
      }
    }
  }

  // ---------------------------------------------------------- Occupied flags

  /** The operation leaves something Occupied that no active booking names: an administrator's
      override, or an allocation that raises after marking what it then does not book. */
  ghost predicate Inflates(s: State, op: Op) {
    var m := BookingMap(s.t);
    || (SetsStatus(op) && op.status == Occupied && Known(s.t, Target(op)) && !Named(m, Target(op)))
    || (op.AllocateOp? && Admissible(s.t, op.request) && exists resource ::
          Uses(Asked(op.request), resource) && !Named(m, resource)
          && !(IdIsFresh(s) && Uses(BookingFor(op.request), resource)))
  }

  lemma AllocateJustifies(s: State, r: Request)
    requires BookingKeys(s.t) && Justified(s.t)
    ensures Justified(Allocate(s, r).0.t) <==> !Inflates(s, AllocateOp(r))
  {
    if Admissible(s.t, r) {
      AttemptMarks(s, r);
      AskedAreKnown(s.t, r);
    } else {
      RejectionChangesNothing(s, r);
    }
  }

  lemma RejectionChangesNothing(s: State, r: Request)
    requires BookingKeys(s.t) && !Admissible(s.t, r)
    ensures Allocate(s, r).0 == s
  {
    AllocateEffect(s, r);
  }

  lemma AskedAreKnown(t: Tables, r: Request)
    requires Admissible(t, r)
    ensures forall resource :: Uses(Asked(r), resource) ==> Known(t, resource)
  {
    AllKnownMeans(t.staff, r.staff);
  }

  lemma ReleaseJustifies(t: Tables, id: Id)
    requires BookingKeys(t) && Justified(t)
    ensures Justified(Release(t, id).0)
  {
    ReleaseEffect(t, id);
    if Release(t, id).1 == Done {
      ReleasedMarks(t, id);
      var m := BookingMap(t);
      forall resource | Has(Release(t, id).0, resource, Occupied)
        ensures Named(BookingMap(Release(t, id).0), resource)
      {
        NamedAfterRelease(m, id, resource);
        assert Named(m, resource);
      }
    }
  }

  lemma SetJustifies(s: State, op: Op)
    requires BookingKeys(s.t) && Justified(s.t) && SetsStatus(op)
    ensures Justified(Next(s, op).t) <==> !Inflates(s, op)
  {
    OtherStepsKeepMap(s, op);
    forall resource ensures Has(Next(s, op).t, resource, Occupied)
      <==> if resource == Target(op) && Known(s.t, resource) then op.status == Occupied
           else Has(s.t, resource, Occupied)
    {
      SetStatusMeans(s, op, resource, Occupied);
    }
  }

  lemma PlainStepJustifies(s: State, op: Op)
    requires Justified(s.t) && !op.AllocateOp? && !op.ReleaseOp? && !SetsStatus(op)
    ensures Justified(Next(s, op).t)
  {
    OtherStepsKeepMap(s, op);
    forall resource | Has(Next(s, op).t, resource, Occupied) ensures Has(s.t, resource, Occupied) {
      if op.SeedOp? {
        SeedMakesAvailable(s.t, op.day, resource);
      } else {
        OtherStepsTouchNothing(s, op, resource);
      }
    }
  }

  lemma AllocateStepJustifies(s: State, r: Request)
    requires BookingKeys(s.t) && Justified(s.t)
    ensures Justified(Next(s, AllocateOp(r)).t) <==> !Inflates(s, AllocateOp(r))
  {
    AllocateStep(s, r);
    AllocateJustifies(s, r);
  }

  lemma ReleaseStepJustifies(s: State, id: Id)
    requires BookingKeys(s.t) && Justified(s.t)
    ensures Justified(Next(s, ReleaseOp(id)).t) && !Inflates(s, ReleaseOp(id))
  {
    ReleaseStep(s, id);
    ReleaseJustifies(s.t, id);
  }

  /** A step from a state in which Occupied means booked leads to another one iff it does not
      inflate a flag. */
  lemma StepJustifies(s: State, op: Op)
    requires BookingKeys(s.t) && Justified(s.t)
    ensures Justified(Next(s, op).t) <==> !Inflates(s, op)
  {
    if op.AllocateOp? {
      AllocateStepJustifies(s, op.request);
    } else if op.ReleaseOp? {
      ReleaseStepJustifies(s, op.allocation);
    } else if SetsStatus(op) {
      SetJustifies(s, op);
    } else {
      PlainStepJustifies(s, op);
    }
  }

  ghost predicate AlwaysJustified(run: Run) {
    forall i :: 0 <= i < |run.states| ==> Justified(run.states[i].t)
  }

  ghost predicate NeverInflates(run: Run) {
    |run.ops| < |run.states| && forall i :: 0 <= i < |run.ops| ==> !Inflates(run.states[i], run.ops[i])
  }

  /** On every run, Occupied means booked in all its states if and only if none of its operations
      inflates a flag. */
  lemma OccupiedMeansBooked(run: Run)
    requires IsRun(run, INITIAL)
    ensures AlwaysJustified(run) <==> NeverInflates(run)
  {
    forall s: State, op | BookingKeys(s.t) && Justified(s.t) ensures Justified(Next(s, op).t) <==> !Inflates(s, op) {
      StepJustifies(s, op);
    }
    ExactOnRuns(run, (s: State) => Justified(s.t), (s, op) => Inflates(s, op));
  }

  lemma OrderlyStep(s: State, op: Op)
    requires BookingKeys(s.t) && Orderly(op, Step(s, op).1)
    ensures !Inflates(s, op)
  {
    if op.AllocateOp? {
      AllocateCompletesOrDoesNothing(s, op.request);
      forall resource ensures Uses(Asked(op.request), resource) && RepeatFree(op.request.staff) ==>
        Uses(BookingFor(op.request), resource)
      {
        KeptIsAsked(op.request, resource);
      }
    }
  }

  /** So on every orderly run, whatever is marked Occupied is booked. */
  lemma OrderlyRunsAreJustified(run: Run)
    requires OrderlyRun(run)
    ensures AlwaysJustified(run)
  {
    forall i | 0 <= i < |run.ops| ensures !Inflates(run.states[i], run.ops[i]) {
      KeysOfState(run, i);
      assert (run.states[i + 1], run.outcomes[i]) == Step(run.states[i], run.ops[i]);
      OrderlyStep(run.states[i], run.ops[i]);
    }
    OccupiedMeansBooked(run);
  }

  lemma {:induction false} KeysOfState(run: Run, i: nat)
    requires IsRun(run, INITIAL) && i < |run.states|
    ensures BookingKeys(run.states[i].t)
    decreases |run.ops|
  {
    if i == |run.states| - 1 {
      RunKeepsKeys(run);
    } else {
      LastStep(run, INITIAL);
      KeysOfState(Front(run), i);
    }
  }

  // ----------------------------------------------------------------- Exact

  lemma AllocateKeepsExact(s: State, r: Request)
    requires BookingKeys(s.t) && Exact(s.t) && Strict(s, AllocateOp(r), Allocate(s, r).1)
    ensures Exact(Allocate(s, r).0.t)
  {
    AllocateCompletesOrDoesNothing(s, r);
    if Allocate(s, r).1.Allocated? {
      GrantedMarks(s, r);
      var m, m', t' := BookingMap(s.t), BookingMap(Allocate(s, r).0.t), Allocate(s, r).0.t;
      forall resource ensures Named(m', resource) <==> Named(m, resource) || Uses(BookingFor(r), resource) {
        NamedAfterAdding(m, NextId(s), BookingFor(r), resource);
      }
      forall resource | Known(t', resource)
        ensures Has(t', resource, if Named(m', resource) then Occupied else Available)
      {
      }
      assert forall resource :: Uses(BookingFor(r), resource) ==> !Named(m, resource);
      ExclusiveAfterAdding(m, NextId(s), BookingFor(r));
    }
  }

  lemma ExclusiveAfterAdding(m: map<Id, Booking>, id: Id, b: Booking)
    requires Exclusive(m) && id !in m
    requires forall resource :: Uses(b, resource) ==> !Named(m, resource)
    ensures Exclusive(m[id := b])
  {
    var m' := m[id := b];
    forall i, j | i in m' && j in m' && m'[i].active && m'[j].active && ShareResource(m'[i], m'[j])
      ensures i == j
    {
      var resource :| Uses(m'[i], resource) && Uses(m'[j], resource);
      assert i != id && j == id ==> Named(m, resource);
      assert j != id && i == id ==> Named(m, resource);
    }
  }

  lemma ExclusiveAfterRelease(m: map<Id, Booking>, id: Id)
    requires Exclusive(m) && id in m && m[id].active
    ensures Exclusive(m[id := m[id].(active := false)])
    ensures forall resource ::
      Named(m[id := m[id].(active := false)], resource) <==> Named(m, resource) && !Uses(m[id], resource)
  {
    var m' := m[id := m[id].(active := false)];
    assert forall i :: i in m' && m'[i].active ==> i != id && i in m && m'[i] == m[i];
    forall resource ensures Named(m', resource) <==> Named(m, resource) && !Uses(m[id], resource) {
      NamedAfterRelease(m, id, resource);
      assert forall i :: i in m && Uses(m[i], resource) && Uses(m[id], resource) ==> ShareResource(m[i], m[id]);
    }
  }

  lemma ReleaseKeepsExact(t: Tables, id: Id)
    requires BookingKeys(t) && Exact(t)
    ensures Exact(Release(t, id).0)
  {
    ReleaseEffect(t, id);
    if Release(t, id).1 == Done {
      ReleasedMarks(t, id);
      ExclusiveAfterRelease(BookingMap(t), id);
    }
  }

  /** Seeding leaves each resource as it was or makes it Available. */
  lemma SeedMakesAvailable(t: Tables, day: int, resource: Resource)
    ensures var t' := Seed(t, day);
            Known(t', resource) ==>
              || Has(t', resource, Available)
              || (Known(t, resource) && TableOf(t', resource)[resource.id] == TableOf(t, resource)[resource.id])
  {
  }

  /** Seeding happens only while there is no flight, and then there is no booking. */
  lemma SeedKeepsExact(t: Tables, day: int)
    requires BookingKeys(t) && Exact(t)
    ensures Exact(Seed(t, day))
  {
    if t.flights == map[] {
      NoFlightsNoBookings(t);
      forall resource | Known(Seed(t, day), resource) ensures Has(Seed(t, day), resource, Available) {
        SeedMakesAvailable(t, day, resource);
        assert Known(t, resource) ==> Has(t, resource, Available);
      }
    }
  }

  lemma StepKeepsExact(s: State, op: Op)
    requires BookingKeys(s.t) && Exact(s.t) && Strict(s, op, Step(s, op).1)
    ensures Exact(Next(s, op).t)
  {
    match op
    case AllocateOp(r) => AllocateKeepsExact(s, r);
    case ReleaseOp(id) => ReleaseKeepsExact(s.t, id);
    case SeedOp(day) => SeedKeepsExact(s.t, day);
    case _ => OtherStepKeepsExact(s, op);
  }

  lemma OtherStepKeepsExact(s: State, op: Op)
    requires BookingKeys(s.t) && Exact(s.t) && Strict(s, op, Step(s, op).1)
    requires !op.AllocateOp? && !op.ReleaseOp? && !op.SeedOp?
    ensures Exact(Next(s, op).t)
  {
    StepFrame(s, op);
    var t' := Next(s, op).t;
    forall resource | Known(t', resource)
      ensures Has(t', resource, if Named(BookingMap(s.t), resource) then Occupied else Available)
    {
      OtherStepsTouchNothing(s, op, resource);
      if Named(BookingMap(s.t), resource) {
        NamedExists(s.t, resource);
      }
    }
  }

  /** On every strict run, a resource is Occupied exactly when one active booking names it, that
      booking is the only one, and otherwise the resource is Available. */
  lemma {:induction false} FlagsAreExact(run: Run)
    requires StrictRun(run)
    ensures Exact(Final(run).t)
    decreases |run.ops|
  {
    if run.ops != [] {
      LastStep(run, INITIAL);
      assert Final(Front(run)) == run.states[|run.ops| - 1];
      FlagsAreExact(Front(run));
      RunKeepsKeys(Front(run));
      StepKeepsExact(Final(Front(run)), LastOp(run));
    }
  }

  // --------------------------------------------------------- Available flags

  /** A resource marked Available is named by no active booking. */
  ghost predicate AvailableMeansFree(t: Tables) {
    forall resource :: Has(t, resource, Available) ==> !Named(BookingMap(t), resource)
  }

  /** Another active booking shares something with this one. */
  ghost predicate Shared(m: map<Id, Booking>, id: Id) {
    id in m && m[id].active && exists i :: i in m && i != id && m[i].active && ShareResource(m[i], m[id])
  }

  /** The operation sets something Available that stays booked: it releases one of two active
      bookings that share a resource, or overrides the status of something an active booking names. */
  ghost predicate Strands(s: State, op: Op) {
    || (op.ReleaseOp? && Shared(BookingMap(s.t), op.allocation))
    || (SetsStatus(op) && op.status == Available && Named(BookingMap(s.t), Target(op)))
  }

  lemma AllocateStrandsNothing(s: State, r: Request)
    requires BookingKeys(s.t) && AvailableMeansFree(s.t)
    ensures AvailableMeansFree(Allocate(s, r).0.t)
  {
    if !Admissible(s.t, r) {
      RejectionChangesNothing(s, r);
    } else {
      AttemptMarks(s, r);
      forall resource ensures Uses(BookingFor(r), resource) ==> Uses(Asked(r), resource) {
        KeptIsAsked(r, resource);
      }
    }
  }

  /** A release leaves something Available and still booked iff another active booking shares
      something with the released one. */
  lemma ReleaseStrandsShared(t: Tables, id: Id)
    requires BookingKeys(t) && id in BookingMap(t) && BookingMap(t)[id].active
    ensures var m := BookingMap(t);
            var t' := Release(t, id).0;
            Shared(m, id) <==> exists resource ::
              Uses(m[id], resource) && Has(t', resource, Available) && Named(BookingMap(t'), resource)
  {
    ReleasedMarks(t, id);
    var m, t' := BookingMap(t), Release(t, id).0;
    forall resource ensures Named(BookingMap(t'), resource)
      <==> exists i :: i in m && i != id && m[i].active && Uses(m[i], resource)
    {
      NamedAfterRelease(m, id, resource);
    }
    if i :| i in m && i != id && m[i].active && ShareResource(m[i], m[id]) {
      var resource :| Uses(m[i], resource) && Uses(m[id], resource);
      assert Named(m, resource);
      NamedExists(t, resource);
      assert Has(t', resource, Available) && Named(BookingMap(t'), resource);
    }
  }

  lemma ReleaseStrands(t: Tables, id: Id)
    requires BookingKeys(t) && AvailableMeansFree(t)
    ensures AvailableMeansFree(Release(t, id).0) <==> !Shared(BookingMap(t), id)
  {
    ReleaseEffect(t, id);
    if Release(t, id).1 == Done {
      var m, t' := BookingMap(t), Release(t, id).0;
      ReleaseStrandsShared(t, id);
      ReleasedMarks(t, id);
      forall resource | Named(BookingMap(t'), resource) ensures Named(m, resource) {
        NamedAfterRelease(m, id, resource);
      }
    }
  }

  lemma SetStrands(s: State, op: Op)
    requires BookingKeys(s.t) && AvailableMeansFree(s.t) && SetsStatus(op)
    ensures AvailableMeansFree(Next(s, op).t) <==> !Strands(s, op)
  {
    OtherStepsKeepMap(s, op);
    forall resource ensures Has(Next(s, op).t, resource, Available)
      <==> if resource == Target(op) && Known(s.t, resource) then op.status == Available
           else Has(s.t, resource, Available)
    {
      SetStatusMeans(s, op, resource, Available);
    }
    if Named(BookingMap(s.t), Target(op)) {
      NamedExists(s.t, Target(op));
    }
  }

  lemma PlainStepStrandsNothing(s: State, op: Op)
    requires BookingKeys(s.t) && AvailableMeansFree(s.t)
    requires !op.AllocateOp? && !op.ReleaseOp? && !SetsStatus(op)
    ensures AvailableMeansFree(Next(s, op).t)
  {
    OtherStepsKeepMap(s, op);
    if op.SeedOp? && s.t.flights == map[] {
      NoFlightsNoBookings(s.t);
    } else {
      forall resource | Has(Next(s, op).t, resource, Available) ensures !Named(BookingMap(s.t), resource) {
        if Named(BookingMap(s.t), resource) {
          NamedExists(s.t, resource);
          if !op.SeedOp? {
            OtherStepsTouchNothing(s, op, resource);
          }
        }
      }
    }
  }

  lemma AllocateStepStrands(s: State, r: Request)
    requires BookingKeys(s.t) && AvailableMeansFree(s.t)
    ensures AvailableMeansFree(Next(s, AllocateOp(r)).t) && !Strands(s, AllocateOp(r))
  {
    AllocateStep(s, r);
    AllocateStrandsNothing(s, r);
  }

  lemma ReleaseStepStrands(s: State, id: Id)
    requires BookingKeys(s.t) && AvailableMeansFree(s.t)
    ensures AvailableMeansFree(Next(s, ReleaseOp(id)).t) <==> !Strands(s, ReleaseOp(id))
  {
    ReleaseStep(s, id);
    ReleaseStrands(s.t, id);
  }

  /** A step from a state in which Available means free leads to another one iff it strands nothing. */
  lemma StepStrands(s: State, op: Op)
    requires BookingKeys(s.t) && AvailableMeansFree(s.t)
    ensures AvailableMeansFree(Next(s, op).t) <==> !Strands(s, op)
  {
    if op.AllocateOp? {
      AllocateStepStrands(s, op.request);
    } else if op.ReleaseOp? {
      ReleaseStepStrands(s, op.allocation);
    } else if SetsStatus(op) {
      SetStrands(s, op);
    } else {
      PlainStepStrandsNothing(s, op);
    }
  }

  ghost predicate AlwaysFree(run: Run) {
    forall i :: 0 <= i < |run.states| ==> AvailableMeansFree(run.states[i].t)
  }

  ghost predicate NeverStrands(run: Run) {
    |run.ops| < |run.states| && forall i :: 0 <= i < |run.ops| ==> !Strands(run.states[i], run.ops[i])
  }

  /** On every run, Available means free in all its states if and only if none of its operations
      strands anything. */
  lemma AvailableMeansUnbooked(run: Run)
    requires IsRun(run, INITIAL)
    ensures AlwaysFree(run) <==> NeverStrands(run)
  {
    forall s: State, op | BookingKeys(s.t) && AvailableMeansFree(s.t)
      ensures AvailableMeansFree(Next(s, op).t) <==> !Strands(s, op)
    {
      StepStrands(s, op);
    }
    ExactOnRuns(run, (s: State) => AvailableMeansFree(s.t), (s, op) => Strands(s, op));
  }
}
