/** Which generated ids are in use after any run, and what a restart therefore costs. */
module Numbering {
  import opened Domain
  import opened DateTime
  import opened Schema
  import opened Conflicts
  import opened Transitions
  import opened Effects
  import opened Safety
  import opened AllocationLaws
  import opened Batch
  import opened FlightRuns

  /** The four series of generated ids: of allocations, schedules, delays and emergencies. */
  datatype Series = AL | SC | DL | EM

  function Prefix(x: Series): string {
    match x
    case AL => "AL"
    case SC => "SC"
    case DL => "DL"
    case EM => "EM"
  }

  /** Where a new process starts the series. */
  function First(x: Series): nat {
    if x.SC? then 1000 else 1
  }

  function Counter(s: State, x: Series): nat {
    match x
    case AL => s.nextAllocation
    case SC => s.nextSchedule
    case DL => s.nextDelay
    case EM => s.nextEmergency
  }

  function IdAt(x: Series, k: nat): Id {
    Render(Prefix(x), k)
  }

  /** The ids for the counters from `start` up to but not including `end`. */
  function Ids(x: Series, start: nat, end: nat): set<Id> {
    set k: nat | start <= k < end :: IdAt(x, k)
  }

  /** The schedule ids of the sample data, which no generator produced. */
  const SAMPLE_IDS: set<Id> := {"SC0001", "SC0002", "SC0003"}

  function ScheduleIds(rows: seq<ScheduleRow>): set<Id> {
    set r | r in rows :: r.id
  }

  /** The ids of the series that are in use in the tables. */
  function UsedIds(t: Tables, x: Series): set<Id> {
    match x
    case AL => AllocationIds(t.allocations)
    case SC => ScheduleIds(t.schedules) - SAMPLE_IDS
    case DL => set d | d in t.delays :: d.id
    case EM => set e | e in t.emergencies :: e.id
  }

  ghost predicate IdUnused(s: State, x: Series) {
    IdAt(x, Counter(s, x)) !in UsedIds(s.t, x)
  }

  lemma InIds(x: Series, k: nat, start: nat, end: nat)
    ensures IdAt(x, k) in Ids(x, start, end) <==> start <= k < end
  {
    if IdAt(x, k) in Ids(x, start, end) {
      var j: nat :| start <= j < end && IdAt(x, j) == IdAt(x, k);
      RenderInjective(Prefix(x), j, k);
    }
  }

  lemma OneMoreId(x: Series, start: nat, end: nat)
    requires start <= end
    ensures Ids(x, start, end + 1) == Ids(x, start, end) + {IdAt(x, end)}
  {
  }

  lemma {:induction false} IdCount(x: Series, start: nat, end: nat)
    requires start <= end
    ensures |Ids(x, start, end)| == end - start
    decreases end
  {
    if start < end {
      IdCount(x, start, end - 1);
      InIds(x, end - 1, start, end - 1);
      OneMoreId(x, start, end - 1);
    }
  }

  // ---------------------------------------------------------------- One step

  /** Whether the operation gets as far as taking an id of the series. */
  predicate Takes(s: State, op: Op, x: Series) {
    match x
    case AL => op.AllocateOp? && Admissible(s.t, op.request)
    case SC => op.CreateFlightOp? && op.flight !in s.t.flights
    case DL => op.ApplyDelayOp? && op.minutes > 0 && op.flight in s.t.flights
    case EM => op.DeclareEmergencyOp? && op.flight in s.t.flights && s.t.flights[op.flight].status == Approaching
  }

  /** The step takes the next id of the series, or leaves the series alone. */
  predicate Advances(s: State, s': State, x: Series, taken: bool) {
    && Counter(s', x) == Counter(s, x) + (if taken then 1 else 0)
    && UsedIds(s'.t, x) == UsedIds(s.t, x) + (if taken then {IdAt(x, Counter(s, x))} else {})
  }

  lemma AllocateAdvances(s: State, r: Request)
    requires BookingKeys(s.t)
    ensures Advances(s, Allocate(s, r).0, AL, Admissible(s.t, r))
  {
    AllocateEffect(s, r);
    IdsAfterAppend(s.t.allocations, RowFor(NextId(s), r));
  }

  lemma IdsAfterAppend(rows: seq<AllocationRow>, a: AllocationRow)
    ensures AllocationIds(rows + [a]) == AllocationIds(rows) + {a.id}
  {
    assert forall b :: b in rows + [a] <==> b in rows || b == a;
  }

  lemma ReleaseKeepsIds(t: Tables, id: Id)
    ensures AllocationIds(Release(t, id).0.allocations) == AllocationIds(t.allocations)
  {
    IdsAfterRelease(t.allocations, id);
  }

  lemma AllocationStepAdvances(s: State, op: Op)
    requires BookingKeys(s.t) && !op.RestartOp?
    ensures Advances(s, Next(s, op), AL, Takes(s, op, AL))
  {
    if op.AllocateOp? {
      AllocateAdvances(s, op.request);
    } else if op.ReleaseOp? {
      StepFrame(s, op);
      ReleaseKeepsIds(s.t, op.allocation);
    } else {
      StepFrame(s, op);
    }
  }

  lemma IdsAfterUpsert(rows: seq<ScheduleRow>, row: ScheduleRow)
    ensures ScheduleIds(UpsertSchedule(rows, row)) == ScheduleIds(rows) + {row.id}
  {
    var rows' := UpsertSchedule(rows, row);
    if exists s :: s in rows && s.id == row.id {
      SameScheduleIds(rows, rows');
    } else {
      assert forall r :: r in rows' <==> r in rows || r == row;
    }
  }

  lemma SameScheduleIds(rows: seq<ScheduleRow>, rows': seq<ScheduleRow>)
    requires |rows| == |rows'| && forall i :: 0 <= i < |rows| ==> rows'[i].id == rows[i].id
    ensures ScheduleIds(rows') == ScheduleIds(rows)
  {
    forall id ensures id in ScheduleIds(rows') <==> id in ScheduleIds(rows) {
      if r :| r in rows' && r.id == id {
        var i :| 0 <= i < |rows'| && rows'[i] == r;
        assert rows[i] in rows;
      }
      if r :| r in rows && r.id == id {
        var i :| 0 <= i < |rows| && rows[i] == r;
        assert rows'[i] in rows';
      }
    }
  }

  lemma {:induction false} IdsAfterSaving(rows: seq<ScheduleRow>, more: seq<ScheduleRow>)
    ensures ScheduleIds(SaveSchedules(rows, more)) == ScheduleIds(rows) + ScheduleIds(more)
    decreases |more|
  {
    if more != [] {
      IdsAfterUpsert(rows, more[0]);
      IdsAfterSaving(UpsertSchedule(rows, more[0]), more[1..]);
      FirstAndRest(more);
    }
  }

  lemma FirstAndRest(rows: seq<ScheduleRow>)
    requires rows != []
    ensures ScheduleIds(rows) == {rows[0].id} + ScheduleIds(rows[1..])
  {
    assert rows == [rows[0]] + rows[1..];
  }

  lemma SampleIdsAreOthers(day: int, k: nat)
    requires 1000 <= k
    ensures ScheduleIds(SampleSchedules(day)) == SAMPLE_IDS && Render("SC", k) !in SAMPLE_IDS
  {
    RenderInjective("SC", 1, k);
    RenderInjective("SC", 2, k);
    RenderInjective("SC", 3, k);
    assert Zeros(3) == "000";
    assert Render("SC", 1) == "SC0001" && Render("SC", 2) == "SC0002" && Render("SC", 3) == "SC0003";
    var rows := SampleSchedules(day);
    assert rows[0] in rows && rows[1] in rows && rows[2] in rows;
  }

  lemma CreationAdvances(s: State, flight: Id, row: FlightRow, arrival: int, departure: int)
    requires 1000 <= s.nextSchedule
    ensures Advances(s, CreateFlight(s, flight, row, arrival, departure).0, SC, flight !in s.t.flights)
  {
    SampleIdsAreOthers(0, s.nextSchedule);
    IdsAfterUpsert(s.t.schedules,
      ScheduleRow(Render("SC", s.nextSchedule), flight, arrival, departure, arrival, departure));
  }

  lemma DelayKeepsScheduleIds(s: State, flight: Id, reason: DelayReason, minutes: int, notes: string)
    ensures ScheduleIds(ApplyDelay(s, flight, reason, minutes, notes).0.t.schedules) == ScheduleIds(s.t.schedules)
  {
    SameScheduleIds(s.t.schedules, ApplyDelay(s, flight, reason, minutes, notes).0.t.schedules);
  }

  lemma SeedKeepsGeneratedIds(t: Tables, day: int)
    ensures ScheduleIds(Seed(t, day).schedules) - SAMPLE_IDS == ScheduleIds(t.schedules) - SAMPLE_IDS
  {
    SampleIdsAreOthers(day, 1000);
    IdsAfterSaving(t.schedules, SampleSchedules(day));
  }

  lemma ScheduleStepAdvances(s: State, op: Op)
    requires 1000 <= s.nextSchedule && !op.RestartOp?
    ensures Advances(s, Next(s, op), SC, Takes(s, op, SC))
  {
    if op.CreateFlightOp? {
      var row := FlightRow(op.number, op.origin, op.destination, op.aircraft, Scheduled);
      CreationAdvances(s, op.flight, row, op.arrival, op.departure);
    } else if op.ApplyDelayOp? {
      StepFrame(s, op);
      DelayKeepsScheduleIds(s, op.flight, op.reason, op.minutes, op.notes);
    } else if op.SeedOp? {
      StepFrame(s, op);
      SeedKeepsGeneratedIds(s.t, op.day);
    } else {
      StepFrame(s, op);
    }
  }

  lemma DelayAdvances(s: State, flight: Id, reason: DelayReason, minutes: int, notes: string)
    ensures Advances(s, ApplyDelay(s, flight, reason, minutes, notes).0, DL, minutes > 0 && flight in s.t.flights)
  {
    var row := DelayRow(Render("DL", s.nextDelay), flight, reason, minutes, notes);
    assert forall d :: d in s.t.delays + [row] <==> d in s.t.delays || d == row;
  }

  lemma DelayStepAdvances(s: State, op: Op)
    requires !op.RestartOp?
    ensures Advances(s, Next(s, op), DL, Takes(s, op, DL))
  {
    if op.ApplyDelayOp? {
      DelayAdvances(s, op.flight, op.reason, op.minutes, op.notes);
    } else {
      StepFrame(s, op);
    }
  }

  lemma DeclarationAdvances(s: State, flight: Id, cause: string, now: int)
    ensures Advances(s, DeclareEmergency(s, flight, cause, now).0, EM,
                     flight in s.t.flights && s.t.flights[flight].status == Approaching)
  {
    var row := EmergencyRow(Render("EM", s.nextEmergency), flight, cause, now, 0, Declared);
    assert forall e :: e in s.t.emergencies + [row] <==> e in s.t.emergencies || e == row;
  }

  lemma SameEmergencyIds(before: seq<EmergencyRow>, after: seq<EmergencyRow>)
    requires SameRecords(before, after)
    ensures (set e | e in after :: e.id) == (set e | e in before :: e.id)
  {
    forall e | e in after ensures exists b :: b in before && b.id == e.id {
      var i :| 0 <= i < |after| && after[i] == e;
      assert before[i] in before;
    }
    forall b | b in before ensures exists e :: e in after && e.id == b.id {
      var i :| 0 <= i < |before| && before[i] == b;
      assert after[i] in after;
    }
  }

  lemma EmergencyStepAdvances(s: State, op: Op)
    requires !op.RestartOp?
    ensures Advances(s, Next(s, op), EM, Takes(s, op, EM))
  {
    if op.DeclareEmergencyOp? {
      DeclarationAdvances(s, op.flight, op.cause, op.now);
    } else {
      StepFrame(s, op);
      OtherStepsAddNoEmergency(s, op);
      SameEmergencyIds(s.t.emergencies, Next(s, op).t.emergencies);
    }
  }

  lemma StepAdvances(s: State, op: Op, x: Series)
    requires BookingKeys(s.t) && First(x) <= Counter(s, x) && !op.RestartOp?
    ensures Advances(s, Next(s, op), x, Takes(s, op, x))
  {
    match x
    case AL => AllocationStepAdvances(s, op);
    case SC => ScheduleStepAdvances(s, op);
    case DL => DelayStepAdvances(s, op);
    case EM => EmergencyStepAdvances(s, op);
  }

  // ------------------------------------------------------------- One process

  /** How many operations took an id of the series. */
  function IdsTaken(states: seq<State>, ops: seq<Op>, x: Series): nat
    requires |states| == |ops| + 1
    decreases |ops|
  {
    if ops == [] then 0
    else
      var n := |ops| - 1;
      IdsTaken(states[..n + 1], ops[..n], x) + (if Takes(states[n], ops[n], x) then 1 else 0)
  }

  lemma IdsTakenGrow(run: Run, x: Series)
    requires run.ops != [] && run.outcomes != [] && |run.states| == |run.ops| + 1
    ensures IdsTaken(run.states, run.ops, x)
         == IdsTaken(Front(run).states, Front(run).ops, x) + (if Takes(Final(Front(run)), LastOp(run), x) then 1 else 0)
  {
  }

  lemma {:induction false} KeysAfter(run: Run, start: State)
    requires IsRun(run, start) && BookingKeys(start.t)
    ensures BookingKeys(Final(run).t)
    decreases |run.ops|
  {
    if run.ops != [] {
      LastStep(run, start);
      KeysAfter(Front(run), start);
      StepKeepsBookingKeys(Final(Front(run)), LastOp(run));
    }
  }

  /** From `start` on, this many consecutive ids have been taken, and none given up. */
  predicate HasTaken(start: State, s: State, x: Series, taken: nat) {
    && Counter(s, x) == Counter(start, x) + taken
    && UsedIds(s.t, x) == UsedIds(start.t, x) + Ids(x, Counter(start, x), Counter(s, x))
  }

  lemma TakingExtends(start: State, s: State, s': State, x: Series, before: nat, taken: bool)
    requires HasTaken(start, s, x, before) && Advances(s, s', x, taken)
    ensures HasTaken(start, s', x, before + (if taken then 1 else 0))
  {
    OneMoreId(x, Counter(start, x), Counter(s, x));
  }

  /** Between its start and any later state a process takes consecutive ids, one for each operation
      that gets so far, and no id in use is ever given up. */
  lemma {:induction false} ProcessTakesIds(run: Run, start: State, x: Series)
    requires IsRun(run, start) && NoRestart(run.ops) && BookingKeys(start.t) && First(x) <= Counter(start, x)
    ensures HasTaken(start, Final(run), x, IdsTaken(run.states, run.ops, x))
    decreases |run.ops|
  {
    if run.ops == [] {
      assert Ids(x, Counter(start, x), Counter(start, x)) == {};
    } else {
      var s, op := Final(Front(run)), LastOp(run);
      LastStep(run, start);
      ProcessTakesIds(Front(run), start, x);
      KeysAfter(Front(run), start);
      StepAdvances(s, op, x);
      IdsTakenGrow(run, x);
      TakingExtends(start, s, Next(s, op), x, IdsTaken(Front(run).states, Front(run).ops, x), Takes(s, op, x));
    }
  }

  /** Within one process the ids in use are those from the first up to the counter, so the next one
      never clashes. */
  lemma SingleProcessIds(run: Run, x: Series)
    requires SingleProcess(run)
    ensures UsedIds(Final(run).t, x) == Ids(x, First(x), Counter(Final(run), x)) && IdUnused(Final(run), x)
  {
    ProcessTakesIds(run, INITIAL, x);
    InIds(x, Counter(Final(run), x), First(x), Counter(Final(run), x));
  }

  // --------------------------------------------------------------- All runs

  /** The ids in use are the first n, and the counter stands at one of them or at the next. */
  ghost predicate Numbered(s: State, x: Series, n: nat) {
    UsedIds(s.t, x) == Ids(x, First(x), First(x) + n) && First(x) <= Counter(s, x) <= First(x) + n
  }

  /** Taking the id at the counter, whether it is one in use or the next one. */
  lemma TakingKeepsNumbered(used: set<Id>, x: Series, next: nat, n: nat)
    requires used == Ids(x, First(x), First(x) + n) && First(x) <= next <= First(x) + n
    ensures used + {IdAt(x, next)} == Ids(x, First(x), First(x) + (if next < First(x) + n then n else n + 1))
    ensures used + {} == used
  {
    InIds(x, next, First(x), First(x) + n);
    OneMoreId(x, First(x), First(x) + n);
  }

  lemma RestartKeepsIds(s: State, x: Series)
    ensures UsedIds(Next(s, RestartOp).t, x) == UsedIds(s.t, x) && Counter(Next(s, RestartOp), x) == First(x)
  {
  }

  lemma StepNumbers(s: State, op: Op, x: Series, n: nat)
    requires BookingKeys(s.t) && Numbered(s, x, n)
    ensures Numbered(Next(s, op), x, n) || Numbered(Next(s, op), x, n + 1)
  {
    if op.RestartOp? {
      RestartKeepsIds(s, x);
    } else {
      StepAdvances(s, op, x);
      TakingKeepsNumbered(UsedIds(s.t, x), x, Counter(s, x), n);
    }
  }

  lemma {:induction false} RunNumbers(run: Run, x: Series) returns (n: nat)
    requires IsRun(run, INITIAL)
    ensures Numbered(Final(run), x, n)
    decreases |run.ops|
  {
    if run.ops == [] {
      n := 0;
    } else {
      LastStep(run, INITIAL);
      n := RunNumbers(Front(run), x);
      RunKeepsKeys(Front(run));
      StepNumbers(Final(Front(run)), LastOp(run), x, n);
      n := if Numbered(Final(run), x, n) then n else n + 1;
    }
  }

  /** After any run, restarts included, the ids in use of each series are its first n, where n is how
      many there are, and the counter is at one of them or at the next. */
  lemma IdsAreConsecutive(run: Run, x: Series)
    requires IsRun(run, INITIAL)
    ensures Numbered(Final(run), x, |UsedIds(Final(run).t, x)|)
  {
    var n := RunNumbers(run, x);
    IdCount(x, First(x), First(x) + n);
  }

  // ---------------------------------------------------------- After a restart

  lemma ReusesIds(run: Run, start: State, x: Series, n: nat)
    requires IsRun(run, start) && NoRestart(run.ops) && BookingKeys(start.t)
    requires UsedIds(start.t, x) == Ids(x, First(x), First(x) + n) && Counter(start, x) == First(x)
    ensures IdUnused(Final(run), x) <==> n <= IdsTaken(run.states, run.ops, x)
  {
    var next := Counter(Final(run), x);
    ProcessTakesIds(run, start, x);
    InIds(x, next, First(x), First(x) + n);
    InIds(x, next, First(x), next);
  }

  /** A restart after any run that left n ids of a series in use: whatever the new process does, the
      first n ids it takes are in use, and from then on the next one never is. */
  lemma RestartReusesIds(before: Run, run: Run, x: Series)
    requires IsRun(before, INITIAL) && IsRun(run, INITIAL.(t := Final(before).t)) && NoRestart(run.ops)
    ensures BookingKeys(Final(run).t)
    ensures IdUnused(Final(run), x) <==> |UsedIds(Final(before).t, x)| <= IdsTaken(run.states, run.ops, x)
  {
    var start := INITIAL.(t := Final(before).t);
    IdsAreConsecutive(before, x);
    RunKeepsKeys(before);
    KeysAfter(run, start);
    ReusesIds(run, start, x, |UsedIds(Final(before).t, x)|);
  }

  // ------------------------------------------------------------- Allocations

  lemma FreshIsUnused(s: State)
    ensures IdIsFresh(s) <==> IdUnused(s, AL)
  {
  }

  /** Within one process every admissible request without repeated staff succeeds. */
  lemma SingleProcessSucceeds(run: Run, r: Request)
    requires SingleProcess(run)
    ensures Allocate(Final(run), r).1.Allocated? <==> Admissible(Final(run).t, r) && RepeatFree(r.staff)
  {
    SingleProcessIds(run, AL);
    FreshIsUnused(Final(run));
    RunKeepsKeys(run);
    AllocateCompletesOrDoesNothing(Final(run), r);
  }

  lemma SingleProcessFresh(run: Run, n: nat)
    requires SingleProcess(run)
    ensures FreshIds(Final(run), n)
  {
    var s := Final(run);
    SingleProcessIds(run, AL);
    forall k | s.nextAllocation <= k < s.nextAllocation + n ensures Render("AL", k) !in BookingMap(s.t) {
      InIds(AL, k, 1, s.nextAllocation);
    }
  }

  /** Within one process, with nothing assumed of the batch: it succeeds exactly when no request names
      anyone twice, each is admissible at the start, and they are pairwise compatible; and every order
      of it does alike, and ends alike. */
  lemma SingleProcessBatch(run: Run, a: seq<Request>, b: seq<Request>)
    requires SingleProcess(run) && multiset(a) == multiset(b)
    ensures AllSucceed(Final(run), a) <==> NoRepeatedStaff(a) && Grantable(Final(run).t, Members(a))
    ensures AllSucceed(Final(run), a) <==> AllSucceed(Final(run), b)
    ensures AllSucceed(Final(run), a) ==> SameEnd(AllocateAll(Final(run), a), AllocateAll(Final(run), b))
  {
    RunKeepsKeys(run);
    SingleProcessFresh(run, |a|);
    BatchSucceeds(Final(run), a);
    OrderDoesNotMatter(Final(run), a, b);
  }

  /** A restart after any run that left n bookings: whatever the new process does, its first n
      admissible requests raise and change no availability, and from then on every admissible
      request without repeated staff succeeds. */
  lemma RestartBlocksRequests(before: Run, run: Run, r: Request)
    requires IsRun(before, INITIAL)
    requires IsRun(run, INITIAL.(t := Final(before).t)) && NoRestart(run.ops) && Admissible(Final(run).t, r)
    ensures var past := |UsedIds(Final(before).t, AL)| <= IdsTaken(run.states, run.ops, AL);
            var (s', o) := Allocate(Final(run), r);
            && (o.Allocated? <==> past && RepeatFree(r.staff))
            && (!past ==> o == Thrown(DatabaseFailure) && AvailabilityOf(s'.t) == AvailabilityOf(Final(run).t))
  {
    RestartReusesIds(before, run, AL);
    FreshIsUnused(Final(run));
    NotFreshRaises(Final(run), r);
  }

  lemma NotFreshRaises(s: State, r: Request)
    requires BookingKeys(s.t) && Admissible(s.t, r)
    ensures var (s', o) := Allocate(s, r);
            && (o.Allocated? <==> IdIsFresh(s) && RepeatFree(r.staff))
            && (!IdIsFresh(s) ==> o == Thrown(DatabaseFailure) && AvailabilityOf(s'.t) == AvailabilityOf(s.t))
  {
    AllocateCompletesOrDoesNothing(s, r);
    AllocateEffect(s, r);
    AvailabilityAfterAllocate(s, r);
  }

  predicate AllRaise(s: State, requests: seq<Request>)
    decreases |requests|
  {
    requests != [] ==>
      Allocate(s, requests[0]).1 == Thrown(DatabaseFailure) && AllRaise(Allocate(s, requests[0]).0, requests[1..])
  }

  /** A request that raises because its id is in use leaves every other request as admissible as it was. */
  lemma RaisingKeepsAdmissible(s: State, r: Request, q: Request)
    requires BookingKeys(s.t) && Admissible(s.t, r) && !IdIsFresh(s)
    ensures Admissible(Allocate(s, r).0.t, q) <==> Admissible(s.t, q)
  {
    AllocateEffect(s, r);
    AvailabilityAfterAllocate(s, r);
    CheckConflictDecides(s.t, q);
    CheckConflictDecides(Allocate(s, r).0.t, q);
  }

  lemma RaisingTakesUsedId(s: State, r: Request, bookings: nat)
    requires BookingKeys(s.t) && Numbered(s, AL, bookings) && Admissible(s.t, r) && s.nextAllocation <= bookings
    ensures !IdIsFresh(s) && Allocate(s, r).1 == Thrown(DatabaseFailure)
    ensures var s' := Allocate(s, r).0;
            && BookingKeys(s'.t) && Numbered(s', AL, bookings) && s'.nextAllocation == s.nextAllocation + 1
            && AvailabilityOf(s'.t) == AvailabilityOf(s.t)
  {
    InIds(AL, s.nextAllocation, 1, bookings + 1);
    NotFreshRaises(s, r);
    AllocateEffect(s, r);
  }

  /** Requests that are admissible at the restart, as many as there are bookings or fewer, all raise,
      and after them the database offers what it offered before. */
  lemma {:induction false} RequestsAreWasted(s: State, requests: seq<Request>, bookings: nat)
    requires BookingKeys(s.t) && Numbered(s, AL, bookings) && s.nextAllocation + |requests| <= bookings + 1
    requires forall i :: 0 <= i < |requests| ==> Admissible(s.t, requests[i])
    ensures AllRaise(s, requests)
    ensures var s' := AllocateAll(s, requests);
            s'.nextAllocation == s.nextAllocation + |requests| && AvailabilityOf(s'.t) == AvailabilityOf(s.t)
    decreases |requests|
  {
    if requests != [] {
      var r, rest := requests[0], requests[1..];
      RaisingTakesUsedId(s, r, bookings);
      forall i | 0 <= i < |rest| ensures Admissible(Allocate(s, r).0.t, rest[i]) {
        assert rest[i] == requests[i + 1];
        RaisingKeepsAdmissible(s, r, rest[i]);
      }
      RequestsAreWasted(Allocate(s, r).0, rest, bookings);
    }
  }
}
