/** Allocating a batch of requests: when all of them succeed, and that their order does not matter. */
module Batch {
  import opened Domain
  import opened DateTime
  import opened Schema
  import opened Conflicts
  import opened Transitions
  import opened Effects
  import opened AllocationLaws

  function AllocateAll(s: State, requests: seq<Request>): State
    decreases |requests|
  {
    if requests == [] then s else AllocateAll(Allocate(s, requests[0]).0, requests[1..])
  }

  predicate AllSucceed(s: State, requests: seq<Request>)
    decreases |requests|
  {
    requests != [] ==>
      Allocate(s, requests[0]).1.Allocated? && AllSucceed(Allocate(s, requests[0]).0, requests[1..])
  }

  /** Two requests can both be granted: same flight, or nothing shared, or no overlap. */
  predicate Compatible(a: Request, b: Request) {
    || a.flight == b.flight
    || (a.gate != b.gate && a.vehicle != b.vehicle && Members(a.staff) !! Members(b.staff))
    || !Overlaps(a.start, a.end, b.start, b.end)
  }

  /** Each is admissible in the state before the batch, and they are pairwise compatible. */
  ghost predicate Grantable(t: Tables, requests: set<Request>) {
    && (forall r :: r in requests ==> Admissible(t, r))
    && (forall a, b :: a in requests && b in requests ==> Compatible(a, b))
  }

  ghost predicate FreshIds(s: State, n: nat) {
    forall k :: s.nextAllocation <= k < s.nextAllocation + n ==> Render("AL", k) !in BookingMap(s.t)
  }

  ghost predicate NoRepeatedStaff(requests: seq<Request>) {
    forall i :: 0 <= i < |requests| ==> RepeatFree(requests[i].staff)
  }

  // ------------------------------------------------------------ One request

  lemma BookingForAll(r: Request)
    requires RepeatFree(r.staff)
    ensures BookingFor(r) == Booking(r.flight, r.gate, r.vehicle, Members(r.staff), r.start, r.end, true)
  {
    FirstRepeatMeans(r.staff, {});
    assert r.staff[..|r.staff|] == r.staff;
  }

  lemma VerdictAfterAdding(v: Availability, id: Id, r: Request, q: Request)
    requires id !in v.bookings && RepeatFree(r.staff)
    ensures Verdict(v.(bookings := v.bookings[id := BookingFor(r)]), q) == NoConflict
       <==> Verdict(v, q) == NoConflict && Compatible(r, q)
  {
    BookingForAll(r);
    NewBookingBlocks(v, id, BookingFor(r), q);
  }

  /** What one granted request changes for the next one: just whether they are compatible. */
  lemma AdmissibleAfter(s: State, r: Request, q: Request)
    requires BookingKeys(s.t) && Allocate(s, r).1.Allocated? && RepeatFree(r.staff)
    ensures Admissible(Allocate(s, r).0.t, q) <==> Admissible(s.t, q) && Compatible(r, q)
  {
    ReleasableAfterAllocate(s, r);
    AvailabilityAfterAllocate(s, r);
    CheckConflictDecides(s.t, q);
    CheckConflictDecides(Allocate(s, r).0.t, q);
    VerdictAfterAdding(AvailabilityOf(s.t), NextId(s), r, q);
  }

  lemma FreshAfter(s: State, r: Request, n: nat)
    requires BookingKeys(s.t) && Allocate(s, r).1.Allocated? && FreshIds(s, n + 1)
    ensures BookingKeys(Allocate(s, r).0.t) && FreshIds(Allocate(s, r).0, n)
  {
    AllocateEffect(s, r);
    var s' := Allocate(s, r).0;
    forall k | s'.nextAllocation <= k < s'.nextAllocation + n ensures Render("AL", k) !in BookingMap(s'.t) {
      RenderInjective("AL", s.nextAllocation, k);
    }
  }

  lemma FirstSucceeds(s: State, r: Request)
    requires BookingKeys(s.t) && RepeatFree(r.staff) && FreshIds(s, 1)
    ensures Allocate(s, r).1.Allocated? <==> Admissible(s.t, r)
  {
    AllocateCompletesOrDoesNothing(s, r);
  }

  // -------------------------------------------------------------- The batch

  lemma GrantableAfter(s: State, requests: seq<Request>)
    requires requests != [] && NoRepeatedStaff(requests)
    requires BookingKeys(s.t) && Allocate(s, requests[0]).1.Allocated? && Admissible(s.t, requests[0])
    ensures Grantable(Allocate(s, requests[0]).0.t, Members(requests[1..])) <==> Grantable(s.t, Members(requests))
  {
    var r, rest := requests[0], requests[1..];
    assert Members(requests) == {r} + Members(rest);
    forall q | q in Members(rest)
      ensures Admissible(Allocate(s, r).0.t, q) <==> Admissible(s.t, q) && Compatible(r, q)
    {
      AdmissibleAfter(s, r, q);
    }
    assert forall a, b :: Compatible(a, b) <==> Compatible(b, a);
  }

  lemma {:induction false} RepeatFreeBatchSucceeds(s: State, requests: seq<Request>)
    requires BookingKeys(s.t) && NoRepeatedStaff(requests) && FreshIds(s, |requests|)
    ensures AllSucceed(s, requests) <==> Grantable(s.t, Members(requests))
    decreases |requests|
  {
    if requests != [] {
      var r, rest := requests[0], requests[1..];
      FirstSucceeds(s, r);
      assert r in Members(requests);
      if Allocate(s, r).1.Allocated? {
        FreshAfter(s, r, |rest|);
        assert NoRepeatedStaff(rest);
        RepeatFreeBatchSucceeds(Allocate(s, r).0, rest);
        GrantableAfter(s, requests);
      }
    }
  }

  lemma GrantNeedsNoRepeats(s: State, r: Request)
    requires BookingKeys(s.t) && Allocate(s, r).1.Allocated?
    ensures RepeatFree(r.staff) && BookingKeys(Allocate(s, r).0.t)
  {
    AllocateEffect(s, r);
  }

  /** A batch with a request that names someone twice does not succeed. */
  lemma {:induction false} SuccessNeedsNoRepeats(s: State, requests: seq<Request>)
    requires BookingKeys(s.t) && AllSucceed(s, requests)
    ensures NoRepeatedStaff(requests)
    decreases |requests|
  {
    if requests != [] {
      GrantNeedsNoRepeats(s, requests[0]);
      SuccessNeedsNoRepeats(Allocate(s, requests[0]).0, requests[1..]);
      assert forall i :: 1 <= i < |requests| ==> requests[i] == requests[1..][i - 1];
    }
  }

  /** A whole batch succeeds iff no request names anyone twice, each is admissible at the start, and
      they are pairwise compatible: a condition that mentions neither the order nor the intermediate
      states. */
  lemma BatchSucceeds(s: State, requests: seq<Request>)
    requires BookingKeys(s.t) && FreshIds(s, |requests|)
    ensures AllSucceed(s, requests) <==> NoRepeatedStaff(requests) && Grantable(s.t, Members(requests))
  {
    if AllSucceed(s, requests) {
      SuccessNeedsNoRepeats(s, requests);
    }
    if NoRepeatedStaff(requests) {
      RepeatFreeBatchSucceeds(s, requests);
    }
  }

  // --------------------------------------------------------- The final state

  /** The active bookings, counted without their ids. */
  function ActiveContents(rows: seq<AllocationRow>, links: seq<LinkRow>): multiset<Booking> {
    if rows == [] then multiset{}
    else
      var last := rows[|rows| - 1];
      ActiveContents(rows[..|rows| - 1], links)
      + (if last.status == Success then multiset{BookingOf(last, links)} else multiset{})
  }

  /** The images of a list's members, counted. */
  function Bag<T, U>(f: T -> U, xs: seq<T>): multiset<U> {
    if xs == [] then multiset{} else multiset{f(xs[0])} + Bag(f, xs[1..])
  }

  function Requested(requests: seq<Request>): multiset<Booking> {
    Bag(BookingFor, requests)
  }

  function GatesOf(requests: set<Request>): set<Id> { set r | r in requests :: r.gate }

  function VehiclesOf(requests: set<Request>): set<Id> { set r | r in requests :: r.vehicle }

  function StaffIn(requests: set<Request>): set<Id> { set r, x | r in requests && x in r.staff :: x }

  lemma {:induction false} ContentsDependOnStaff(rows: seq<AllocationRow>, links: seq<LinkRow>, links': seq<LinkRow>)
    requires forall a :: a in rows ==> StaffOf(links, a.id) == StaffOf(links', a.id)
    ensures ActiveContents(rows, links) == ActiveContents(rows, links')
  {
    if rows != [] {
      ContentsDependOnStaff(rows[..|rows| - 1], links, links');
      assert rows[|rows| - 1] in rows;
    }
  }

  lemma ContentsAfter(s: State, r: Request)
    requires BookingKeys(s.t) && Allocate(s, r).1.Allocated?
    ensures var t' := Allocate(s, r).0.t;
            ActiveContents(t'.allocations, t'.links)
            == ActiveContents(s.t.allocations, s.t.links) + multiset{BookingFor(r)}
  {
    var t' := Allocate(s, r).0.t;
    var a := RowFor(NextId(s), r);
    AllocateEffect(s, r);
    assert t'.allocations[..|s.t.allocations|] == s.t.allocations;
    StaffOfAppend(s.t.links, a.id, r.staff[..FirstRepeat(r.staff, {})]);
    assert forall b :: b in s.t.allocations ==> b.id in AllocationIds(s.t.allocations);
    ContentsDependOnStaff(s.t.allocations, s.t.links, t'.links);
    assert a in t'.allocations;
    BookingOfRow(t', a);
  }

  /** The tables after a successful batch, up to the rows of the two allocation tables. */
  function Granted(t: Tables, requests: set<Request>): Tables {
    t.(gates := WithStatus(t.gates, GatesOf(requests), Occupied),
       vehicles := WithStatus(t.vehicles, VehiclesOf(requests), Occupied),
       staff := WithStatus(t.staff, StaffIn(requests), Occupied),
       allocations := [], links := [])
  }

  lemma GrantedStep(t: Tables, r: Request, rest: set<Request>)
    ensures Granted(Mark(t, r.gate, r.vehicle, Members(r.staff), Occupied), rest) == Granted(t, {r} + rest)
  {
    MarksCommute(t.gates, {r.gate}, GatesOf(rest), Occupied);
    MarksCommute(t.vehicles, {r.vehicle}, VehiclesOf(rest), Occupied);
    MarksCommute(t.staff, Members(r.staff), StaffIn(rest), Occupied);
    assert {r.gate} + GatesOf(rest) == GatesOf({r} + rest);
    assert {r.vehicle} + VehiclesOf(rest) == VehiclesOf({r} + rest);
    assert Members(r.staff) + StaffIn(rest) == StaffIn({r} + rest);
  }

  lemma GrantedNothing(t: Tables)
    ensures Granted(t, {}) == t.(allocations := [], links := [])
  {
    assert WithStatus(t.gates, {}, Occupied) == t.gates;
    assert WithStatus(t.vehicles, {}, Occupied) == t.vehicles;
    assert WithStatus(t.staff, {}, Occupied) == t.staff;
  }

  lemma MarkedByAllocate(s: State, r: Request, rest: set<Request>)
    requires BookingKeys(s.t) && Allocate(s, r).1.Allocated?
    ensures Granted(Allocate(s, r).0.t, rest) == Granted(s.t, {r} + rest)
    ensures Allocate(s, r).0.nextAllocation == s.nextAllocation + 1
    ensures BookingKeys(Allocate(s, r).0.t)
  {
    AllocateEffect(s, r);
    GrantedStep(s.t, r, rest);
  }

  /** The state a successful batch leads to, described without the order of the requests. */
  ghost predicate LeadsTo(s: State, requests: seq<Request>, s': State) {
    && s'.t.(allocations := [], links := []) == Granted(s.t, Members(requests))
    && s'.nextAllocation == s.nextAllocation + |requests|
    && ActiveContents(s'.t.allocations, s'.t.links)
       == ActiveContents(s.t.allocations, s.t.links) + Requested(requests)
  }

  lemma LeadsToStep(s: State, requests: seq<Request>, s': State)
    requires requests != [] && BookingKeys(s.t) && Allocate(s, requests[0]).1.Allocated?
    requires LeadsTo(Allocate(s, requests[0]).0, requests[1..], s')
    ensures LeadsTo(s, requests, s')
  {
    assert Members(requests) == {requests[0]} + Members(requests[1..]);
    MarkedByAllocate(s, requests[0], Members(requests[1..]));
    ContentsAfter(s, requests[0]);
  }

  lemma {:induction false} BatchResult(s: State, requests: seq<Request>)
    requires BookingKeys(s.t) && AllSucceed(s, requests)
    ensures LeadsTo(s, requests, AllocateAll(s, requests))
    decreases |requests|
  {
    if requests == [] {
      GrantedNothing(s.t);
    } else {
      MarkedByAllocate(s, requests[0], {});
      BatchResult(Allocate(s, requests[0]).0, requests[1..]);
      LeadsToStep(s, requests, AllocateAll(s, requests));
    }
  }

  // ------------------------------------------------------------------- Order

  lemma {:induction false} BagConcat<T, U>(f: T -> U, a: seq<T>, b: seq<T>)
    ensures Bag(f, a + b) == Bag(f, a) + Bag(f, b)
  {
    if a == [] {
      assert a + b == b;
    } else {
      var rest := a[1..] + b;
      assert (a + b)[1..] == rest && (a + b)[0] == a[0];
      assert Bag(f, a + b) == multiset{f(a[0])} + Bag(f, rest);
      assert Bag(f, rest) == Bag(f, a[1..]) + Bag(f, b) by { BagConcat(f, a[1..], b); }
    }
  }

  lemma BagRemove<T, U>(f: T -> U, xs: seq<T>, i: nat)
    requires i < |xs|
    ensures Bag(f, xs) == multiset{f(xs[i])} + Bag(f, xs[..i] + xs[i + 1..])
  {
    BagConcat(f, xs[..i], xs[i..]);
    BagConcat(f, xs[..i], xs[i + 1..]);
    assert xs == xs[..i] + xs[i..] && xs[i..][1..] == xs[i + 1..];
  }

  lemma WithoutIndex<T>(xs: seq<T>, i: nat)
    requires i < |xs|
    ensures multiset(xs[..i] + xs[i + 1..]) == multiset(xs) - multiset{xs[i]}
  {
    assert xs == xs[..i] + [xs[i]] + xs[i + 1..];
  }

  lemma {:induction false} BagPermutes<T, U>(f: T -> U, a: seq<T>, b: seq<T>)
    requires multiset(a) == multiset(b)
    ensures Bag(f, a) == Bag(f, b)
    decreases |a|
  {
    if a == [] {
      assert |multiset(b)| == 0;
    } else {
      assert a[0] in multiset(b);
      var i :| 0 <= i < |b| && b[i] == a[0];
      assert multiset(a[1..]) == multiset(b[..i] + b[i + 1..]) by {
        WithoutIndex(a, 0);
        WithoutIndex(b, i);
        assert a[..0] + a[1..] == a[1..];
      }
      BagPermutes(f, a[1..], b[..i] + b[i + 1..]);
      BagRemove(f, b, i);
    }
  }

  lemma PermutationHasSameMembers(a: seq<Request>, b: seq<Request>)
    requires multiset(a) == multiset(b)
    ensures Members(a) == Members(b) && |a| == |b|
  {
    assert forall x :: x in a <==> x in multiset(a);
    assert forall x :: x in b <==> x in multiset(b);
    assert |a| == |multiset(a)| && |b| == |multiset(b)|;
  }

  /** The same counter, the same tables besides the bookings, and the same active bookings up to ids. */
  ghost predicate SameEnd(a: State, b: State) {
    && a.t.(allocations := [], links := []) == b.t.(allocations := [], links := [])
    && a.nextAllocation == b.nextAllocation
    && ActiveContents(a.t.allocations, a.t.links) == ActiveContents(b.t.allocations, b.t.links)
  }

  /** Order does not matter: a batch succeeds in one order iff it succeeds in every order, and then
      every order ends with the same resources in the same status, the same other tables, the same
      counter, and the same active bookings up to ids. */
  lemma OrderDoesNotMatter(s: State, a: seq<Request>, b: seq<Request>)
    requires BookingKeys(s.t) && multiset(a) == multiset(b) && FreshIds(s, |a|)
    ensures AllSucceed(s, a) <==> AllSucceed(s, b)
    ensures AllSucceed(s, a) ==> SameEnd(AllocateAll(s, a), AllocateAll(s, b))
  {
    PermutationHasSameMembers(a, b);
    NoRepeatsPermute(a, b);
    BatchSucceeds(s, a);
    BatchSucceeds(s, b);
    if AllSucceed(s, a) {
      BatchResult(s, a);
      BatchResult(s, b);
      BagPermutes(BookingFor, a, b);
    }
  }

  lemma NoRepeatsPermute(a: seq<Request>, b: seq<Request>)
    requires Members(a) == Members(b)
    ensures NoRepeatedStaff(a) <==> NoRepeatedStaff(b)
  {
    assert forall i :: 0 <= i < |a| ==> a[i] in Members(b);
    assert forall i :: 0 <= i < |b| ==> b[i] in Members(a);
  }
}
