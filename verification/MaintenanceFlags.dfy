/** Which operations take a resource into maintenance and out of it. */
module MaintenanceFlags {
  import opened Domain
  import opened Schema
  import opened Conflicts
  import opened Transitions
  import opened Effects
  import opened Safety
  import opened StatusFlags

  /** The sample resources of the same kind. */
  function Samples(resource: Resource): seq<(Id, string)> {
    match resource
    case Gate(_) => SAMPLE_GATES
    case Vehicle(_) => SAMPLE_VEHICLES
    case Staff(_) => SAMPLE_STAFF
  }

  predicate UnderMaintenance(t: Tables, resource: Resource) {
    Has(t, resource, Maintenance)
  }

  /** An administrator puts the resource under maintenance. */
  predicate Orders(s: State, op: Op, resource: Resource) {
    SetsStatus(op) && Target(op) == resource && op.status == Maintenance && Known(s.t, resource)
  }

  /** The operation takes the resource out of maintenance, if it is there: an administrator's override,
      the release of an active booking that uses it, or the saving of sample data that names it. */
  predicate Lifts(s: State, op: Op, resource: Resource) {
    var m := BookingMap(s.t);
    || (SetsStatus(op) && Target(op) == resource && op.status != Maintenance)
    || (op.ReleaseOp? && op.allocation in m && m[op.allocation].active && Uses(m[op.allocation], resource))
    || (op.SeedOp? && s.t.flights == map[] && resource.id in Listed(Samples(resource)))
  }

  lemma AllocateMaintains(s: State, r: Request, resource: Resource)
    requires BookingKeys(s.t)
    ensures UnderMaintenance(Allocate(s, r).0.t, resource) <==> UnderMaintenance(s.t, resource)
  {
    if Admissible(s.t, r) {
      AttemptMarks(s, r);
      AskedAreOnline(s.t, r, resource);
    } else {
      RejectionChangesNothing(s, r);
    }
  }

  lemma AskedAreOnline(t: Tables, r: Request, resource: Resource)
    requires BookingKeys(t) && Admissible(t, r)
    ensures Uses(Asked(r), resource) ==> !UnderMaintenance(t, resource)
  {
    CheckConflictDecides(t, r);
  }

  lemma ReleaseMaintains(t: Tables, id: Id, resource: Resource)
    requires BookingKeys(t)
    ensures var m := BookingMap(t);
            UnderMaintenance(Release(t, id).0, resource)
            <==> UnderMaintenance(t, resource) && !(id in m && m[id].active && Uses(m[id], resource))
  {
    ReleaseEffect(t, id);
    if Release(t, id).1 == Done {
      ReleasedMarks(t, id);
    }
  }

  lemma SavedMaintains(rows: map<Id, ResourceRow>, entries: seq<(Id, string)>, id: Id)
    ensures var saved := SaveResources(rows, entries);
            id in saved && saved[id].status == Maintenance
            <==> id in rows && rows[id].status == Maintenance && id !in Listed(entries)
  {
    SavedResources(rows, entries);
  }

  lemma SeedSaves(t: Tables, day: int, resource: Resource)
    ensures TableOf(Seed(t, day), resource)
         == if t.flights == map[] then SaveResources(TableOf(t, resource), Samples(resource)) else TableOf(t, resource)
  {
  }

  lemma SeedMaintains(t: Tables, day: int, resource: Resource)
    ensures UnderMaintenance(Seed(t, day), resource)
       <==> UnderMaintenance(t, resource) && !(t.flights == map[] && resource.id in Listed(Samples(resource)))
  {
    SeedSaves(t, day, resource);
    SavedMaintains(TableOf(t, resource), Samples(resource), resource.id);
  }

  /** After a step a resource is under maintenance exactly when the step ordered it, or it was and the
      step does not lift it. */
  lemma StepMaintains(s: State, op: Op, resource: Resource)
    requires BookingKeys(s.t)
    ensures UnderMaintenance(Next(s, op).t, resource)
       <==> Orders(s, op, resource) || (UnderMaintenance(s.t, resource) && !Lifts(s, op, resource))
  {
    if op.AllocateOp? {
      AllocateMaintains(s, op.request, resource);
    } else if op.ReleaseOp? {
      ReleaseMaintains(s.t, op.allocation, resource);
    } else if SetsStatus(op) {
      SetStatusMeans(s, op, resource, Maintenance);
    } else if op.SeedOp? {
      SeedMaintains(s.t, op.day, resource);
    } else {
      OtherStepsTouchNothing(s, op, resource);
      NothingRemoved(s, op, resource);
    }
  }

  lemma NothingRemoved(s: State, op: Op, resource: Resource)
    ensures Known(s.t, resource) ==> Known(Next(s, op).t, resource)
  {
    StepFrame(s, op);
  }

  /** The i-th operation ordered maintenance for the resource, and no later one lifted it. */
  predicate OrderStands(run: Run, resource: Resource, i: int) {
    && |run.ops| < |run.states| && 0 <= i < |run.ops|
    && Orders(run.states[i], run.ops[i], resource)
    && forall j :: i < j < |run.ops| ==> !Lifts(run.states[j], run.ops[j], resource)
  }

  /** After any run a resource is under maintenance exactly when an administrator ordered it and no
      later operation lifted it. */
  lemma OrderedAndNotLifted(run: Run, resource: Resource)
    requires IsRun(run, INITIAL)
    ensures UnderMaintenance(Final(run).t, resource) <==> exists i :: OrderStands(run, resource, i)
  {
    var orders := (s, op) => Orders(s, op, resource);
    var lifts := (s, op) => Lifts(s, op, resource);
    forall s: State, op | BookingKeys(s.t)
      ensures UnderMaintenance(Next(s, op).t, resource)
         <==> orders(s, op) || (UnderMaintenance(s.t, resource) && !lifts(s, op))
    {
      StepMaintains(s, op, resource);
    }
    SetAndCleared(run, (s: State) => UnderMaintenance(s.t, resource), orders, lifts);
    forall i ensures Standing(run, i, orders, lifts) <==> OrderStands(run, resource, i) {
    }
  }
}
