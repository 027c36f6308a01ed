/** No double booking over every run, and what follows from it by counting. */
module Safety {
  import opened Domain
  import opened DateTime
  import opened Schema
  import opened Conflicts
  import opened Transitions
  import opened Effects

  datatype Resource = Gate(id: Id) | Vehicle(id: Id) | Staff(id: Id)

  predicate Uses(b: Booking, resource: Resource) {
    match resource
    case Gate(id) => b.gate == id
    case Vehicle(id) => b.vehicle == id
    case Staff(id) => id in b.staff
  }

  ghost predicate ShareResource(a: Booking, b: Booking) {
    exists resource :: Uses(a, resource) && Uses(b, resource)
  }

  predicate Overlapping(a: Booking, b: Booking) {
    Overlaps(a.start, a.end, b.start, b.end)
  }

  /** Active bookings of different flights that share anything never overlap. */
  ghost predicate NoDoubleBooking(m: map<Id, Booking>) {
    forall i, j :: i in m && j in m ==>
      m[i].active && m[j].active && m[i].flight != m[j].flight && ShareResource(m[i], m[j]) ==>
      !Overlapping(m[i], m[j])
  }

  /** A booking made for a conflict-free request clashes with no booking already there. */
  lemma ConflictFree(v: Availability, r: Request, b: Booking)
    requires Verdict(v, r) == NoConflict && b in v.bookings.Values
    requires b.active && b.flight != r.flight && ShareResource(BookingFor(r), b)
    ensures !Overlapping(BookingFor(r), b) && !Overlapping(b, BookingFor(r))
  {
    var resource :| Uses(BookingFor(r), resource) && Uses(b, resource);
    var id :| id in v.bookings && v.bookings[id] == b;
    match resource
    case Gate(_) => assert Blocks(b, r) ==> GateTaken(v.bookings, r);
    case Vehicle(_) => assert Blocks(b, r) ==> VehicleTaken(v.bookings, r);
    case Staff(staff) =>
      assert staff in Members(r.staff);
      assert Blocks(b, r) ==> StaffTaken(v.bookings, r, staff);
  }

  lemma InsertKeepsSafety(v: Availability, r: Request, id: Id)
    requires NoDoubleBooking(v.bookings) && Verdict(v, r) == NoConflict && id !in v.bookings
    ensures NoDoubleBooking(v.bookings[id := BookingFor(r)])
  {
    var m, m' := v.bookings, v.bookings[id := BookingFor(r)];
    forall i, j | i in m' && j in m' && m'[i].active && m'[j].active && m'[i].flight != m'[j].flight
                  && ShareResource(m'[i], m'[j])
      ensures !Overlapping(m'[i], m'[j])
    {
      if i == id {
        ConflictFree(v, r, m'[j]);
      } else if j == id {
        ConflictFree(v, r, m'[i]);
      }
    }
  }

  lemma AllocateKeepsSafety(s: State, r: Request)
    requires BookingKeys(s.t) && NoDoubleBooking(BookingMap(s.t))
    ensures NoDoubleBooking(BookingMap(Allocate(s, r).0.t))
  {
    AllocateEffect(s, r);
    if Admissible(s.t, r) && IdIsFresh(s) {
      CheckConflictDecides(s.t, r);
      InsertKeepsSafety(AvailabilityOf(s.t), r, NextId(s));
    }
  }

  lemma ReleaseKeepsSafety(t: Tables, id: Id)
    requires BookingKeys(t) && NoDoubleBooking(BookingMap(t))
    ensures NoDoubleBooking(BookingMap(Release(t, id).0))
  {
    ReleaseEffect(t, id);
  }

  lemma OtherStepsKeepMap(s: State, op: Op)
    requires !op.AllocateOp? && !op.ReleaseOp?
    ensures BookingMap(Next(s, op).t) == BookingMap(s.t)
  {
    StepFrame(s, op);
  }

  lemma AllocateStepKeepsSafety(s: State, op: Op)
    requires op.AllocateOp? && BookingKeys(s.t) && NoDoubleBooking(BookingMap(s.t))
    ensures NoDoubleBooking(BookingMap(Next(s, op).t))
  {
    AllocateKeepsSafety(s, op.request);
  }

  lemma ReleaseStepKeepsSafety(s: State, op: Op)
    requires op.ReleaseOp? && BookingKeys(s.t) && NoDoubleBooking(BookingMap(s.t))
    ensures NoDoubleBooking(BookingMap(Next(s, op).t))
  {
    ReleaseKeepsSafety(s.t, op.allocation);
  }

  /** Every step keeps the invariant, whichever way it ends: also an `allocate` that raises after
      marking the resources, or partway through the staff links, and also a restart. */
  lemma StepKeepsSafety(s: State, op: Op)
    requires BookingKeys(s.t) && NoDoubleBooking(BookingMap(s.t))
    ensures NoDoubleBooking(BookingMap(Next(s, op).t))
  {
    if op.AllocateOp? {
      AllocateStepKeepsSafety(s, op);
    } else if op.ReleaseOp? {
      ReleaseStepKeepsSafety(s, op);
    } else {
      OtherStepsKeepMap(s, op);
    }
  }

  lemma {:induction false} RunKeepsKeys(run: Run)
    requires IsRun(run, INITIAL)
    ensures BookingKeys(Final(run).t)
    decreases |run.ops|
  {
    if run.ops != [] {
      LastStep(run, INITIAL);
      RunKeepsKeys(Front(run));
      StepKeepsBookingKeys(Final(Front(run)), LastOp(run));
    }
  }

  ghost predicate AllGood(run: Run, good: State -> bool) {
    forall i :: 0 <= i < |run.states| ==> good(run.states[i])
  }

  ghost predicate NoneBad(run: Run, bad: (State, Op) -> bool) {
    |run.ops| < |run.states| && forall i :: 0 <= i < |run.ops| ==> !bad(run.states[i], run.ops[i])
  }

  lemma AllGoodFront(run: Run, good: State -> bool)
    requires run.ops != [] && run.outcomes != [] && |run.states| == |run.ops| + 1
    ensures AllGood(run, good) <==> AllGood(Front(run), good) && good(Final(run))
  {
    var front, n := Front(run), |run.ops|;
    assert forall i :: 0 <= i < n ==> front.states[i] == run.states[i];
  }

  lemma NoneBadFront(run: Run, bad: (State, Op) -> bool)
    requires run.ops != [] && run.outcomes != [] && |run.states| == |run.ops| + 1
    ensures NoneBad(run, bad) <==> NoneBad(Front(run), bad) && !bad(Final(Front(run)), LastOp(run))
  {
    var front, n := Front(run), |run.ops|;
    assert forall i :: 0 <= i < n ==> front.states[i] == run.states[i];
    assert forall i :: 0 <= i < n - 1 ==> front.ops[i] == run.ops[i];
  }

  /** If from good states a step leads to a good state exactly when it is not a bad step, then all
      states of a run are good exactly when none of its steps is bad. */
  lemma {:induction false} ExactOnRuns(run: Run, good: State -> bool, bad: (State, Op) -> bool)
    requires IsRun(run, INITIAL) && good(INITIAL)
    requires forall s: State, op :: BookingKeys(s.t) && good(s) ==> (good(Next(s, op)) <==> !bad(s, op))
    ensures AllGood(run, good) <==> NoneBad(run, bad)
    decreases |run.ops|
  {
    if run.ops != [] {
      LastStep(run, INITIAL);
      ExactOnRuns(Front(run), good, bad);
      AllGoodFront(run, good);
      NoneBadFront(run, bad);
      if AllGood(Front(run), good) {
        RunKeepsKeys(Front(run));
        assert good(Final(Front(run))) && Final(run) == Next(Final(Front(run)), LastOp(run));
      }
    }
  }

  /** The i-th operation of the run set something, and no later one cleared it. */
  ghost predicate Standing(run: Run, i: int, sets: (State, Op) -> bool, clears: (State, Op) -> bool) {
    && |run.ops| < |run.states| && 0 <= i < |run.ops|
    && sets(run.states[i], run.ops[i])
    && forall j :: i < j < |run.ops| ==> !clears(run.states[j], run.ops[j])
  }

  lemma StandingGrows(run: Run, sets: (State, Op) -> bool, clears: (State, Op) -> bool)
    requires run.ops != [] && run.outcomes != [] && |run.states| == |run.ops| + 1
    ensures var s, op := Final(Front(run)), LastOp(run);
            (exists i :: Standing(run, i, sets, clears))
            <==> sets(s, op) || ((exists i :: Standing(Front(run), i, sets, clears)) && !clears(s, op))
  {
    var front, n := Front(run), |run.ops|;
    assert forall i :: 0 <= i < n ==> front.states[i] == run.states[i];
    assert forall i :: 0 <= i < n - 1 ==> front.ops[i] == run.ops[i];
    if sets(Final(front), LastOp(run)) {
      assert Standing(run, n - 1, sets, clears);
    } else if i :| Standing(front, i, sets, clears) && !clears(Final(front), LastOp(run)) {
      assert Standing(run, i, sets, clears);
    } else if i :| Standing(run, i, sets, clears) {
      assert Standing(front, i, sets, clears);
    }
  }

  /** If a step makes something hold exactly when it sets it, or it held and the step does not clear
      it, then it holds after a run exactly when some operation set it and no later one cleared it. */
  lemma {:induction false} SetAndCleared(run: Run, holds: State -> bool,
                                         sets: (State, Op) -> bool, clears: (State, Op) -> bool)
    requires IsRun(run, INITIAL) && !holds(INITIAL)
    requires forall s: State, op :: BookingKeys(s.t) ==>
      (holds(Next(s, op)) <==> sets(s, op) || (holds(s) && !clears(s, op)))
    ensures holds(Final(run)) <==> exists i :: Standing(run, i, sets, clears)
    decreases |run.ops|
  {
    if run.ops != [] {
      LastStep(run, INITIAL);
      SetAndCleared(Front(run), holds, sets, clears);
      StandingGrows(run, sets, clears);
      RunKeepsKeys(Front(run));
      assert Final(run) == Next(Final(Front(run)), LastOp(run));
    }
  }

  /** In every state any run reaches, nothing is booked twice. */
  lemma {:induction false} RunIsSafe(run: Run)
    requires IsRun(run, INITIAL)
    ensures NoDoubleBooking(BookingMap(Final(run).t))
    decreases |run.ops|
  {
    if run.ops != [] {
      LastStep(run, INITIAL);
      RunIsSafe(Front(run));
      RunKeepsKeys(Front(run));
      StepKeepsSafety(Final(Front(run)), LastOp(run));
    }
  }

  ghost predicate ActiveAt(m: map<Id, Booking>, id: Id, instant: int) {
    id in m && m[id].active && Covers(m[id].start, m[id].end, instant)
  }

  /** In every reachable state and at every instant, a resource serves at most one flight. */
  lemma OneFlightPerInstant(run: Run, m: map<Id, Booking>, i: Id, j: Id, resource: Resource, instant: int)
    requires IsRun(run, INITIAL) && m == BookingMap(Final(run).t)
    requires ActiveAt(m, i, instant) && ActiveAt(m, j, instant) && Uses(m[i], resource) && Uses(m[j], resource)
    ensures m[i].flight == m[j].flight
  {
    RunIsSafe(run);
    SharedInstantMeansSameFlight(m, i, j, resource, instant);
  }

  lemma SharedInstantMeansSameFlight(m: map<Id, Booking>, i: Id, j: Id, resource: Resource, instant: int)
    requires NoDoubleBooking(m) && ActiveAt(m, i, instant) && ActiveAt(m, j, instant)
    requires Uses(m[i], resource) && Uses(m[j], resource)
    ensures m[i].flight == m[j].flight
  {
    assert ShareResource(m[i], m[j]);
  }

  // ----------------------------------------------------------------- Packing

  function Length(b: Booking): nat {
    if b.start < b.end then b.end - b.start else 0
  }

  function TotalLength(m: map<Id, Booking>, ids: seq<Id>): nat
    requires Members(ids) <= m.Keys
  {
    if ids == [] then 0
    else
      assert Members(ids[..|ids| - 1]) <= Members(ids);
      assert ids[|ids| - 1] in Members(ids);
      TotalLength(m, ids[..|ids| - 1]) + Length(m[ids[|ids| - 1]])
  }

  function Instants(start: int, end: int): (r: set<int>)
    ensures |r| == if start < end then end - start else 0
    ensures forall x :: x in r <==> Covers(start, end, x)
    decreases end - start
  {
    if start < end then
      var rest := Instants(start + 1, end);
      assert start !in rest;
      {start} + rest
    else {}
  }

  /** All the instants some listed booking covers. */
  ghost function Covered(m: map<Id, Booking>, ids: seq<Id>): set<int>
    requires Members(ids) <= m.Keys
  {
    if ids == [] then {}
    else
      assert Members(ids[..|ids| - 1]) <= Members(ids);
      assert ids[|ids| - 1] in Members(ids);
      var b := m[ids[|ids| - 1]];
      Covered(m, ids[..|ids| - 1]) + Instants(b.start, b.end)
  }

  /** Active bookings of pairwise different flights that all use one resource. */
  ghost predicate Contenders(m: map<Id, Booking>, ids: seq<Id>, resource: Resource) {
    && Members(ids) <= m.Keys
    && (forall i :: 0 <= i < |ids| ==> ids[i] in m && m[ids[i]].active && Uses(m[ids[i]], resource))
    && (forall i, j :: 0 <= i < j < |ids| ==> ids[i] in m && ids[j] in m && m[ids[i]].flight != m[ids[j]].flight)
  }

  lemma {:induction false} CoveredMeans(m: map<Id, Booking>, ids: seq<Id>)
    requires Members(ids) <= m.Keys
    ensures forall x :: x in Covered(m, ids) <==> (exists i ::
      0 <= i < |ids| && ids[i] in m && Covers(m[ids[i]].start, m[ids[i]].end, x))
  {
    if ids != [] {
      var front, last := ids[..|ids| - 1], ids[|ids| - 1];
      assert ids == front + [last];
      assert Members(front) <= Members(ids) && last in Members(ids);
      CoveredMeans(m, front);
      forall x
        ensures x in Covered(m, ids) <==> (exists i ::
          0 <= i < |ids| && ids[i] in m && Covers(m[ids[i]].start, m[ids[i]].end, x))
      {
        if Covers(m[last].start, m[last].end, x) {
          assert ids[|ids| - 1] == last;
        }
        if i :| 0 <= i < |front| && front[i] in m && Covers(m[front[i]].start, m[front[i]].end, x) {
          assert ids[i] == front[i];
        }
      }
    }
  }

  /** The windows are disjoint, so their lengths add up to the number of instants covered. */
  lemma {:induction false} LengthsAddUp(m: map<Id, Booking>, ids: seq<Id>, resource: Resource)
    requires NoDoubleBooking(m) && Contenders(m, ids, resource)
    ensures TotalLength(m, ids) == |Covered(m, ids)|
  {
    if ids != [] {
      var front, last := ids[..|ids| - 1], ids[|ids| - 1];
      assert Members(front) <= Members(ids) && last in Members(ids);
      LengthsAddUp(m, front, resource);
      DisjointFromRest(m, ids, resource);
    }
  }

  lemma DisjointFromRest(m: map<Id, Booking>, ids: seq<Id>, resource: Resource)
    requires NoDoubleBooking(m) && Contenders(m, ids, resource) && ids != []
    requires Members(ids[..|ids| - 1]) <= m.Keys
    ensures var last := m[ids[|ids| - 1]]; Covered(m, ids[..|ids| - 1]) !! Instants(last.start, last.end)
  {
    var front, last := ids[..|ids| - 1], ids[|ids| - 1];
    CoveredMeans(m, front);
    forall i, x | 0 <= i < |front| && Covers(m[front[i]].start, m[front[i]].end, x)
      ensures !Covers(m[last].start, m[last].end, x)
    {
      assert front[i] == ids[i];
      if ActiveAt(m, last, x) {
        SharedInstantMeansSameFlight(m, front[i], last, resource, x);
      }
    }
  }

  lemma {:induction false} SubsetIsSmaller<T>(a: set<T>, b: set<T>)
    requires a <= b
    ensures |a| <= |b|
  {
    if a != {} {
      var x :| x in a;
      SubsetIsSmaller(a - {x}, b - {x});
    }
  }

  lemma CoveredWithin(m: map<Id, Booking>, ids: seq<Id>, from: int, to: int)
    requires Members(ids) <= m.Keys
    requires forall i :: 0 <= i < |ids| ==> ids[i] in m && from <= m[ids[i]].start && m[ids[i]].end <= to
    ensures Covered(m, ids) <= Instants(from, to)
  {
    CoveredMeans(m, ids);
  }

  lemma PackedSideBySide(m: map<Id, Booking>, ids: seq<Id>, resource: Resource, from: int, to: int)
    requires NoDoubleBooking(m) && Contenders(m, ids, resource) && from <= to
    requires forall i :: 0 <= i < |ids| ==> ids[i] in m && from <= m[ids[i]].start && m[ids[i]].end <= to
    ensures TotalLength(m, ids) <= to - from
  {
    LengthsAddUp(m, ids, resource);
    CoveredWithin(m, ids, from, to);
    SubsetIsSmaller(Covered(m, ids), Instants(from, to));
  }

  /** In every reachable state, the windows of different flights on one gate, one vehicle or one
      staff member fit side by side into any period that contains them. */
  lemma PackingBound(run: Run, m: map<Id, Booking>, ids: seq<Id>, resource: Resource, from: int, to: int)
    requires IsRun(run, INITIAL) && m == BookingMap(Final(run).t)
    requires Contenders(m, ids, resource) && from <= to
    requires forall i :: 0 <= i < |ids| ==> ids[i] in m && from <= m[ids[i]].start && m[ids[i]].end <= to
    ensures TotalLength(m, ids) <= to - from
  {
    assert NoDoubleBooking(m) by { RunIsSafe(run); }
    PackedSideBySide(m, ids, resource, from, to);
  }

  // ---------------------------------------------------------------- Capacity

  /** The flights being served at an instant. */
  ghost function FlightsAt(m: map<Id, Booking>, instant: int): set<Id> {
    set id | id in m && ActiveAt(m, id, instant) :: m[id].flight
  }

  /** If the flights each hold something of `things`, and no two hold the same, there are at most
      as many flights as things. */
  lemma {:induction false} Pigeonhole(flights: set<Id>, things: set<Id>, held: map<Id, Id>)
    requires held.Keys == flights && held.Values <= things
    requires forall f, g :: f in held && g in held && held[f] == held[g] ==> f == g
    ensures |flights| <= |things|
  {
    if flights != {} {
      var f :| f in flights;
      var rest := held - {f};
      assert held[f] in held.Values;
      forall x | x in rest.Values ensures x in things - {held[f]} {
        var g :| g in rest && rest[g] == x;
        assert held[g] in held.Values;
      }
      Pigeonhole(flights - {f}, things - {held[f]}, rest);
    }
  }

  /** One of a flight's bookings that covers the instant. */
  ghost function Serving(m: map<Id, Booking>, flight: Id, instant: int): (id: Id)
    requires flight in FlightsAt(m, instant)
    ensures ActiveAt(m, id, instant) && m[id].flight == flight
  {
    var id :| ActiveAt(m, id, instant) && m[id].flight == flight;
    id
  }

  lemma GateCapacity(t: Tables, instant: int)
    requires BookingKeys(t) && NoDoubleBooking(BookingMap(t))
    ensures |FlightsAt(BookingMap(t), instant)| <= |t.gates|
  {
    var m := BookingMap(t);
    var held := map f | f in FlightsAt(m, instant) :: m[Serving(m, f, instant)].gate;
    forall f, g | f in held && g in held && held[f] == held[g] ensures f == g {
      SharedInstantMeansSameFlight(m, Serving(m, f, instant), Serving(m, g, instant), Gate(held[f]), instant);
    }
    Pigeonhole(FlightsAt(m, instant), t.gates.Keys, held);
  }

  lemma VehicleCapacity(t: Tables, instant: int)
    requires BookingKeys(t) && NoDoubleBooking(BookingMap(t))
    ensures |FlightsAt(BookingMap(t), instant)| <= |t.vehicles|
  {
    var m := BookingMap(t);
    var held := map f | f in FlightsAt(m, instant) :: m[Serving(m, f, instant)].vehicle;
    forall f, g | f in held && g in held && held[f] == held[g] ensures f == g {
      SharedInstantMeansSameFlight(m, Serving(m, f, instant), Serving(m, g, instant), Vehicle(held[f]), instant);
    }
    Pigeonhole(FlightsAt(m, instant), t.vehicles.Keys, held);
  }

  /** In every reachable state and at every instant, at most as many flights are being served as
      there are gates, and as there are vehicles. */
  lemma CapacityBound(run: Run, instant: int)
    requires IsRun(run, INITIAL)
    ensures var t := Final(run).t;
            |FlightsAt(BookingMap(t), instant)| <= |t.gates| && |FlightsAt(BookingMap(t), instant)| <= |t.vehicles|
  {
    RunIsSafe(run);
    RunKeepsKeys(run);
    GateCapacity(Final(run).t, instant);
    VehicleCapacity(Final(run).t, instant);
  }
}
