# Verified model of the airport ground operations booking engine

This project models the resource-booking engine of AGOMS, the airport ground operations management
system: the relational store, the conflict check, allocation and release, the flight life cycle, the
delay and emergency workflows, and the resource administration around them. It proves what holds of
them over every run.

The model has three layers.

* **Objects.** `Models`, `Lifecycle.Flight`, `DateTime.IdGenerator`, `Database` and `Services` are
  classes whose methods change their fields step by step, as the program does, and `Airport` wires
  them together. A raised exception is a returned outcome; what was written before it stays written,
  since nothing runs in a transaction.
* **Steps.** `Schema` says what each query and update statement means on the tables, `Conflicts` is
  the conflict check, and `Transitions` describes each operation as a step on a state of tables and
  counters, and a run as a sequence of states with the operations between them and what each returned.
  Every operation of the services that changes the state is proved to take exactly that step, every
  query method to return what the query means, and `Airport.Program` carries a ghost run that ties its
  objects to the transition system.
* **Laws.** The remaining modules prove properties of steps and runs. They are stated over the map
  from allocation id to booking that the tables `allocations` and `allocation_staff` represent
  together, and over independent specifications: the verdict of the conflict check, the absence of
  double bookings, the legal runs of the life cycle. `Answers` fixes the outcome and every write of each
  operation without mentioning the functions that compute its step.

A run starts from the empty database and may take any of the seventeen steps in any order and with
any arguments, including administrator overrides, calls that raise, seeding, and restarts of the
process on the same database. "Within one process" means a run without restarts. A property that the
code does not always keep is stated with the exact condition under which it does, over all runs where
that is possible, and `Witnesses` has a run that leads to each failure.

| file | content |
|---|---|
| Domain.dfy, DateTime.dfy, Lifecycle.dfy, Models.dfy | vocabulary, windows and identifiers, the life cycle, the mutable entities |
| Schema.dfy, Conflicts.dfy, Transitions.dfy, Effects.dfy | tables and queries, the conflict check, steps and runs, what each step does to the bookings |
| Answers.dfy | what each operation answers and writes, field by field, on every exit |
| Safety.dfy, AllocationLaws.dfy, Batch.dfy | no double booking and counting bounds, laws of allocate and release, batches |
| Numbering.dfy, StatusFlags.dfy, MaintenanceFlags.dfy | generated ids over runs and restarts, what the status flags say, what puts a resource under maintenance and what lifts it |
| FlightRuns.dfy, DelayLaws.dfy, EmergencyLaws.dfy, ConsoleRuns.dfy | flights over runs, schedules and warnings, emergencies, runs driven from the console |
| StaffList.dfy | printing and reading staff lists |
| Witnesses.dfy | runs that lead to the departures listed below |
| Database.dfy, Services.dfy, Airport.dfy | the objects |

## Where the code and its documentation differ

The model follows the code.

* `include/services/ConflictDetector.h:14` lists an Occupied resource as a conflict. The code blocks
  only on maintenance and on overlapping active windows of other flights
  (`Conflicts.CheckConflictDecides`, `Witnesses.OccupiedIsGranted`).
* `include/utils/DateTime.h:44` describes the overlap of half-open windows. For empty and inverted
  windows, which no caller rejects, the code's test differs from it in an exactly known family
  (`DateTime.OverlapIsSharedInstant`, `DateTime.EmptyWindowStillOverlaps`).
* `docs/design.md:124-126` presents maintenance as set and lifted by an administrator. A release lifts
  it from everything the booking names, and saving the sample data lifts it from the sample resources.
  `MaintenanceFlags.OrderedAndNotLifted` says exactly when a resource is under maintenance after a run;
  `Witnesses.ReleaseLiftsOrderedMaintenance` and `Witnesses.SeedLiftsOrderedMaintenance` are runs on
  which an order is lost.
* `docs/design.md:120-123` has the status flags follow successful allocations and releases. An
  allocation that raises leaves Occupied what it then does not book, and a release sets shared
  resources Available while another booking holds them. `StatusFlags.OccupiedMeansBooked` and
  `StatusFlags.AvailableMeansUnbooked` say exactly on which runs the flags can be relied on;
  `Witnesses.RaisingAllocationOccupies` and `Witnesses.ReleaseStrandsAResource` are runs on which they
  cannot.
* `include/utils/DateTime.h:56` provides `observe` to re-hydrate counters at start-up; no service calls
  it. After a restart with n ids of a series in use, the first n operations that take an id of it clash,
  and no later one does, for each of the four series (`Numbering.RestartReusesIds`). What a clash costs:
  an allocation raises (`Numbering.RestartBlocksRequests`, `Witnesses.RestartMakesIdsClash`); a delay
  call raises before it records anything (`DelayLaws.RestartedDelayRaises`,
  `Witnesses.RestartMakesDelaysClash`); a new flight gets no schedule and another flight's estimates are
  overwritten (`DelayLaws.CreateFlightSchedules`, `DelayLaws.RestartedCreationClashes`,
  `Witnesses.RestartLosesASchedule`); a declaration leaves no record
  (`ConsoleRuns.EmergencyLandingsAreRecorded`, `ConsoleRuns.RestartedDeclarationClashes`,
  `Witnesses.RestartLosesARecord`).
* `docs/design.md:133-136` and `include/services/DelayService.h` list recording the delay as the first
  step of a legal delay. The row stays when the call then raises, because the flight may not be delayed
  or because it has no schedule; in the second case the flight stays Delayed as well
  (`DelayLaws.RaisingDelayLeaves`, `Witnesses.RaisingDelayIsKept`, `Witnesses.RaisingDelaySuspends`).
* `docs/design.md:156-161` lets ground handling begin from an emergency landing, and closes the record
  at the end. The code lets any flight that may enter ground operations begin it again, whatever the
  record's status, and lets a landing be recorded again. `EmergencyLaws.ResolvedAndNotReopened` says
  exactly when a record is resolved after a run; `Witnesses.ResolvedEmergencyReopens` is a run on which it
  is reopened.

## Model

| member | source | states |
|---|---|---|
| DateTime.MinutesRecovered | src/utils/DateTime.cpp:27-42 | adding minutes and then asking for the difference gives the minutes back, for negative minutes too (the division truncates toward zero) |
| DateTime.MinutesFit | src/utils/DateTime.cpp:40-42 | for any two times: the whole minutes that fit between them, counted from zero whichever comes first |
| DateTime.OverlapIsSharedInstant | src/utils/DateTime.cpp:44-47 | two windows that share an instant always overlap; the test equals "they share an instant" iff neither window is an empty or inverted one strictly inside the other |
| DateTime.EmptyWindowStillOverlaps | include/utils/DateTime.h:44-46 | an input on which the header's reading of the overlap test fails |
| DateTime.RenderReadsBack | src/utils/DateTime.cpp:49-54 | a rendered id is the prefix and digits, and its digits denote the counter, also past the padding width |
| DateTime.RenderIsPadded | src/utils/DateTime.cpp:49-54 | at least four digits, and no leading zero beyond four: with prefix and value this leaves one text |
| DateTime.RenderedShort | src/utils/DateTime.cpp:49-54 | padded ids written out |
| DateTime.RenderedLong | src/utils/DateTime.cpp:49-54 | an id past the padding width written out |
| DateTime.RenderInjective | src/utils/DateTime.cpp:49-54 | two ids of one generator are equal iff their counters are: `next` never repeats |
| DateTime.MatchesMeans | src/utils/DateTime.cpp:56-60 | an id is observed only if it is the prefix followed by at least one digit and nothing else |
| DateTime.ObservedIsHighWater | src/utils/DateTime.cpp:56-63 | after observing any list the counter is the maximum of its start and one more than each matching suffix |
| DateTime.ObservingIgnoresOrder | src/utils/DateTime.cpp:56-63 | the order and repetition of the observed ids do not matter |
| DateTime.ObservedNeverRegenerated | src/utils/DateTime.cpp:49-63 | no id generated after observing is one that was observed |
| DateTime.IdGenerator.Next | src/utils/DateTime.cpp:49-54 | returns the id of the current counter and advances it by one |
| DateTime.IdGenerator.Observe | src/utils/DateTime.cpp:56-63 | the early returns and the comparison leave the counter that the observation function defines, whose meaning is `DateTime.ObservedIsHighWater` |
| Lifecycle.IsTransitionAllowed | src/models/Flight.cpp:17-51 | the edge list of the code is exactly the transition table of docs/design.md |
| Lifecycle.TransitionsByTarget | src/models/Flight.cpp:17-51 | the edge list read by its targets: from which statuses each status can be entered |
| Lifecycle.Flight.TransitionTo | src/models/Flight.cpp:53-60 | moves iff the edge exists, and otherwise reports failure with the status unchanged |
| Lifecycle.LengthBound | src/models/Flight.cpp:17-60 | a legal run that enters Delayed d times has at most 7 + 4d transitions, with the remaining potential of its last status to spare |
| Lifecycle.LengthBoundIsTight | src/models/Flight.cpp:17-60 | for every d some legal run has exactly 7 + 4d transitions |
| Lifecycle.FinalStatesAreFinal | src/models/Flight.cpp:17-51 | Completed and Cancelled occur only at the end of a run |
| Lifecycle.RunBegins | src/models/Flight.cpp:23-34 | the first four statuses of a run are forced up to the landing kind and early cancellation, and it never returns to the first three |
| Lifecycle.CompletedMilestones | src/models/Flight.cpp:23-45 | a completed run passed Approaching, exactly one landing, GroundOperations, ReadyForDeparture and Departed at fixed places, and Boarding unless it was delayed |
| Lifecycle.OneEmergency | src/models/Flight.cpp:23-45 | EmergencyLanding occurs at most once in any run, at index 2 |
| FlightRuns.TransitionIsExact | src/services/FlightService.cpp:38-42 | a transition takes effect iff the edge exists, changes one flight's status only, and otherwise raises and changes nothing |
| FlightRuns.FlightMoves | src/services/FlightService.cpp:7-42 | each of the seventeen steps moves each flight along at most one edge, and new flights are Scheduled |
| FlightRuns.HistoryIsLegal | src/services/FlightService.cpp:38-42 | in every run of the whole system, restarts included, each flight's sequence of statuses is a legal run ending in its stored status |
| FlightRuns.FlightLengthBound | src/models/Flight.cpp:17-60 | the 7 + 4d bound holds for every flight of every run of the system |
| FlightRuns.CompletedFlight | src/models/Flight.cpp:23-45 | the milestones hold for every completed flight of every run of the system |
| FlightRuns.OneEmergencyRecord | src/services/EmergencyService.cpp:7-24 | in every run, restarts included, a flight has at most one emergency record, and only once it is past its landing |
| FlightRuns.ClosedForGood | src/services/AllocationService.cpp:16-26 | once Departed, Completed or Cancelled, a flight stays so in every continuation, gains no allocation, and its allocations only go from active to released |
| FlightRuns.SeedOnce | src/repositories/AirportDatabase.cpp:234-284 | seeding changes only a database without flights, gives it three, and is idempotent |
| Schema.FindAllocation | src/repositories/AirportDatabase.cpp:616-622 | finds a row iff the id occurs, and then a row with that id |
| Schema.LinkedStaff | src/repositories/AirportDatabase.cpp:597-603 | lists exactly the staff linked to the allocation |
| Schema.BookingOfRow | src/repositories/AirportDatabase.cpp:197-206 | under the keys, each row of the two allocation tables is one entry of the booking map, and the entry has its linked staff |
| Schema.StaffJoinIsSelect | src/repositories/AirportDatabase.cpp:642-652 | with repeat-free links, the join of the two tables lists each matching active row once |
| Schema.ListsAreExact | src/repositories/AirportDatabase.cpp:624-640 | the gate, vehicle and flight queries return exactly the matching bookings of the map, once each |
| Schema.StaffListIsExact | src/repositories/AirportDatabase.cpp:642-652 | the staff query returns exactly the active bookings whose staff set has the member, once each |
| Conflicts.RowOrderIsInvisible | src/repositories/AirportDatabase.cpp:197-206 | the booking map does not depend on the order in which rows were inserted |
| Conflicts.CheckConflictDecides | src/services/ConflictDetector.cpp:6-95 | the check returns exactly the verdict: first invalid, then gate, vehicle, staff, else none; Occupied never matters and the two other conflict types never occur |
| Conflicts.GateDecides | src/services/ConflictDetector.cpp:38-55 | the gate is free iff not under maintenance and no active booking of another flight on it overlaps |
| Conflicts.VehicleDecides | src/services/ConflictDetector.cpp:57-74 | likewise for the vehicle |
| Conflicts.GroundStaffDecides | src/services/ConflictDetector.cpp:76-95 | likewise for every member of the staff list |
| Conflicts.CheckIgnoresOrder | src/services/ConflictDetector.cpp:76-95 | the answer is the same for any order or repetition of the staff list and any tables with the same availability |
| Effects.InsertLinksEffect | src/repositories/AirportDatabase.cpp:581-586 | the link loop inserts exactly the members before the first repeated one and raises iff there is one |
| Effects.SaveGoesThrough | src/repositories/AirportDatabase.cpp:567-587 | saving goes through iff the id is unused, flight, gate, vehicle and all staff exist, and no staff member repeats |
| Effects.SaveThenFind | src/repositories/AirportDatabase.cpp:567-622 | what was saved is found again by its id: the same row with exactly the same staff linked |
| Effects.SaveAddsOneBooking | src/repositories/AirportDatabase.cpp:567-587 | in the map of bookings, saving adds exactly one entry and changes no other |
| Effects.AllocateEffect | src/services/AllocationService.cpp:8-52 | all exits of `allocate` over the booking map: a rejection changes nothing; an id clash raises after the status writes without adding a booking; a repeated staff member raises with the booking and a prefix of the links kept; otherwise one booking is added. Guard and status writes are spelled out by `Answers.AllocateAnswers` and `Answers.AllocateWrites` |
| Effects.ReleaseEffect | src/services/AllocationService.cpp:54-70 | raises for an unknown or released id and changes nothing; otherwise exactly one booking becomes inactive; the status writes are spelled out by `Answers.ReleaseAnswers` |
| Effects.StepKeepsBookingKeys | src/repositories/AirportDatabase.cpp:197-206 | every step, however it ends, keeps the primary and foreign keys of the allocation tables |
| Answers.AllocateAnswers | src/services/AllocationService.cpp:8-33 | an unknown flight is rejected as an invalid resource, a flight that is boarding, ready, departed, completed or cancelled for its state, and any other exactly with the verdict of the conflict check; a rejection writes nothing |
| Answers.AllocateWrites | src/services/AllocationService.cpp:35-51 | otherwise the resources asked for become Occupied and keep their descriptions; with an unused id the row is stored as asked for with links up to the first repeated member; the answer carries that id iff the id was unused and no one repeats, else a database error is raised |
| Answers.FirstRepeatIsFirst | src/repositories/AirportDatabase.cpp:581-586 | the members linked are those before the first one named twice |
| Answers.ReleaseAnswers | src/services/AllocationService.cpp:54-70 | unknown and released allocations raise, each its own error, and nothing is written; otherwise exactly what the booking names becomes Available, keeping its description, and exactly its row Released |
| Answers.CreateFlightAnswers | src/services/FlightService.cpp:7-20 | a known id raises a validation error and writes nothing; otherwise the flight is stored as given, Scheduled, and with an unused schedule id its schedule as given |
| Answers.TransitionAnswers | src/services/FlightService.cpp:38-42 | unknown flight and missing edge raise, each its own error, and write nothing; otherwise one status changes |
| Answers.AddGateAnswers | src/services/ResourceService.cpp:7-10 | a known id raises a validation error and writes nothing; otherwise exactly that gate is stored, Available, with its terminal |
| Answers.AddVehicleAnswers | src/services/ResourceService.cpp:12-15 | likewise for a vehicle and its class |
| Answers.AddStaffAnswers | src/services/ResourceService.cpp:17-21 | likewise for a staff member and the specialization |
| Answers.SetGateAnswers | src/services/ResourceService.cpp:41-44 | an unknown gate raises and nothing is written; otherwise the status of exactly that gate changes, and nothing else about it |
| Answers.SetVehicleAnswers | src/services/ResourceService.cpp:46-49 | likewise for a vehicle |
| Answers.SetStaffAnswers | src/services/ResourceService.cpp:51-54 | likewise for a staff member |
| Answers.StatusesSet | src/repositories/AirportDatabase.cpp:545-563 | setting the status of some resources changes exactly their statuses: no other row, no description |
| Answers.DelayAnswers | src/services/DelayService.cpp:7-36 | which error each of the five raising exits gives, in the order of the checks, and what was written by then; otherwise the answer carries the id of the stored delay and the shifted times, and exactly the flight's estimates change |
| Answers.DeclarationAnswers | src/services/EmergencyService.cpp:7-24 | which error each raising exit gives; the clash of ids raises after the flight has moved; otherwise the record is stored as given and its id answered |
| Answers.LandingAnswers | src/services/EmergencyService.cpp:26-31 | an unknown record raises; otherwise exactly its landing time and status change |
| Answers.HandlingAnswers | src/services/EmergencyService.cpp:33-42 | which error each of the four raising exits gives, with nothing written; otherwise flight and record change status and the landing time stays |
| Answers.ResolvingAnswers | src/services/EmergencyService.cpp:44-48 | an unknown record raises; otherwise exactly its status changes |
| Answers.RestartAnswers | include/services/FlightService.h:37 | a new process keeps the tables and counts from 1, and from 1000 for schedules |
| Answers.SeedFlightsAnswers | src/repositories/AirportDatabase.cpp:234-275 | with a flight in the database nothing happens; otherwise the three sample flights are stored, written out |
| Answers.SeedGates | src/repositories/AirportDatabase.cpp:257-260 | the three sample gates, written out, over whatever was there |
| Answers.SeedVehicles | src/repositories/AirportDatabase.cpp:262-264 | the two sample vehicles |
| Answers.SeedStaff | src/repositories/AirportDatabase.cpp:266-270 | the four sample staff members |
| Answers.SeedSchedules | src/repositories/AirportDatabase.cpp:277-283 | the three sample schedules, with their times on the sample day |
| Answers.DetailsStay | src/repositories/AirportDatabase.cpp:545-563 | no step changes the description of a resource, except seeding a database without flights |
| Answers.SeedDetails | src/repositories/AirportDatabase.cpp:257-270 | and that changes no resource but the sample ones |
| Safety.StepKeepsSafety | src/services/AllocationService.cpp:28-48 | every step keeps the absence of double bookings, also when it raises partway |
| Safety.RunKeepsKeys | src/repositories/AirportDatabase.cpp:197-206 | in every state any run reaches, restarts included, the keys of the allocation tables hold |
| Safety.RunIsSafe | src/services/AllocationService.cpp:28-48 | in every state any run reaches, restarts included, active bookings of different flights that share a gate, vehicle or linked staff member never overlap |
| Safety.OneFlightPerInstant | src/services/ConflictDetector.cpp:44-53 | at every instant of every reachable state a resource serves at most one flight |
| Safety.PackingBound | src/services/ConflictDetector.cpp:44-53 | in every reachable state, the windows of different flights on one resource that lie in a period add up to at most its length |
| Safety.CapacityBound | src/services/ConflictDetector.cpp:38-74 | in every reachable state and at every instant, at most as many flights are served as there are gates, and as there are vehicles |
| AllocationLaws.AllocateCompletesOrDoesNothing | src/services/AllocationService.cpp:8-52 | success iff the guards pass, the id is fresh and no staff member repeats; a raise iff the guards pass and one of the other two fails; a rejection leaves tables and counter as they were |
| AllocationLaws.AllocateThenRelease | src/services/AllocationService.cpp:35-70 | a successful allocation followed by its release is invisible to every later conflict check |
| AllocationLaws.AllocateNeverFrees | src/services/AllocationService.cpp:40-48 | `allocate`, however it ends, never makes a conflicting request conflict-free |
| AllocationLaws.ReleaseNeverBlocks | src/services/AllocationService.cpp:54-70 | `release` never makes a conflict-free request conflicting |
| AllocationLaws.ReleaseLiftsMaintenance | src/services/AllocationService.cpp:64-68 | the resources under maintenance survive a release iff the booking names none of them |
| AllocationLaws.ReleasesCommute | src/services/AllocationService.cpp:54-70 | releases of two active bookings in either order end in the same tables |
| Batch.AdmissibleAfter | src/services/AllocationService.cpp:8-52 | one granted request changes the admissibility of another exactly by their compatibility |
| Batch.BatchSucceeds | src/services/AllocationService.cpp:8-52 | with fresh ids, a whole batch succeeds iff no request names a staff member twice, each is admissible at the start, and they are pairwise compatible |
| Batch.BatchResult | src/services/AllocationService.cpp:40-51 | the state after a successful batch, described by the set and the bag of its requests only |
| Batch.OrderDoesNotMatter | src/services/AllocationService.cpp:8-52 | with fresh ids, a batch succeeds in one order iff in every order, with the same statuses, counter, other tables, and active bookings up to ids |
| Numbering.StepAdvances | src/utils/DateTime.cpp:49-54 | in each of the four series of ids, a step takes the id at the counter iff the operation gets that far, advances the counter by one then, and gives up no id |
| Numbering.ProcessTakesIds | src/utils/DateTime.cpp:49-54 | whatever a process does, the ids it has taken of a series are consecutive, one for each operation that got that far |
| Numbering.IdsAreConsecutive | src/utils/DateTime.cpp:49-54 | after any run, restarts included, the ids of each series in use are its first n, and the counter is at one of them or at the next |
| Numbering.SingleProcessIds | include/utils/DateTime.h:49-58 | within one process the ids in use are exactly those below the counter, so the next one never clashes |
| Numbering.RestartReusesIds | include/utils/DateTime.h:56-58 | after a restart with n ids of a series in use and whatever the new process does, the next id is in use iff fewer than n have been taken |
| Numbering.SingleProcessSucceeds | src/services/AllocationService.cpp:35-51 | within one process admissible requests without repeated staff always succeed, and only those |
| Numbering.SingleProcessBatch | src/services/AllocationService.cpp:8-52 | within one process the two batch laws hold of every batch, with nothing assumed of ids or staff lists |
| Numbering.RestartBlocksRequests | include/services/AllocationService.h:44 | after a restart with n bookings, the first n admissible requests raise and change no availability and no booking, and from then on exactly those without repeated staff succeed |
| Numbering.RequestsAreWasted | include/services/AllocationService.h:44 | any list of requests admissible at the restart, at most as many as there are bookings, raises throughout and leaves availability and bookings as they were |
| StatusFlags.OccupiedMeansBooked | src/services/AllocationService.cpp:40-45 | on every run, Occupied means booked in all its states iff no operation inflates a flag: sets Occupied something unbooked, or is an allocation that passes its checks and does not end up booking all it marked |
| StatusFlags.OrderlyRunsAreJustified | src/services/AllocationService.cpp:40-45 | so if allocations end normally and no administrator sets Occupied, every Occupied resource is named by an active booking throughout the run |
| StatusFlags.FlagsAreExact | src/services/AllocationService.cpp:40-69 | if moreover successful allocations name only Available resources and no status is overridden, a resource is Occupied iff an active booking names it, that booking is unique, and otherwise it is Available |
| StatusFlags.ReleaseStrandsShared | src/services/AllocationService.cpp:64-68 | a release leaves something Available but still booked iff another active booking shares something with the released one |
| StatusFlags.StepStrands | src/services/ResourceService.cpp:41-54 | while Available means unbooked, a step of any kind breaks that iff it releases a booking that shares something with another active one, or sets Available something that an active booking names |
| StatusFlags.AvailableMeansUnbooked | src/services/AllocationService.cpp:40-69 | on every run, Available means unbooked in all its states iff none of its operations does one of these two |
| MaintenanceFlags.StepMaintains | src/services/AllocationService.cpp:64-68 | after any step a resource is under maintenance iff the step ordered it, or it was and the step is no override to another status, no release of an active booking that uses it, and no seeding that names it |
| MaintenanceFlags.OrderedAndNotLifted | src/services/ResourceService.cpp:41-54 | after any run a resource is under maintenance iff an administrator ordered it and no later operation lifted it in one of these ways |
| DelayLaws.StepKeepsSchedules | src/repositories/AirportDatabase.cpp:412-436 | every step keeps schedule ids unique, at most one schedule per flight, and schedules of known flights |
| DelayLaws.DelayConservation | src/services/DelayService.cpp:24-31 | in every run, restarts included: each flight has exactly one schedule, both its estimates are the scheduled times plus the minutes of all its delay calls that returned, the turnaround is unchanged and `minutesSince` reads the minutes back, iff no creation of a flight clashed with a schedule id in use; within one process none does |
| DelayLaws.CreateFlightSchedules | src/services/FlightService.cpp:15-19 | a new flight gets exactly the schedule given iff the generated schedule id is unused; otherwise it has none and another flight's estimates are overwritten |
| DelayLaws.RestartedCreationClashes | include/services/FlightService.h:37 | after a restart with n generated schedule ids in use, exactly the first n new flights get no schedule |
| DelayLaws.ApplyDelayWrites | src/services/DelayService.cpp:13-22 | the delay row is saved iff minutes are positive, the flight is known and the id is unused, whether or not the call then raises; allocations are never touched |
| DelayLaws.ApplyDelayOutcome | src/services/DelayService.cpp:7-31 | the call returns iff it also finds the flight in ground operations, boarding or ready, with a schedule; otherwise it raises and no schedule changes |
| DelayLaws.RaisingDelayLeaves | src/services/DelayService.cpp:15-28 | the call raises and keeps its row iff it saved the row and then found the flight in no state to be delayed or without a schedule; it raises and leaves the flight Delayed iff only the schedule was missing |
| DelayLaws.RestartedDelayRaises | include/services/DelayService.h:57 | after a restart with n delay rows, exactly the first n delay calls for a known flight and a positive delay raise a database error, and change no table |
| DelayLaws.WarningsAreSelected | src/services/DelayService.cpp:36-53 | the warnings are the conflicting active rows, in table order, each with its own conflict |
| DelayLaws.ProbeDecides | src/services/DelayService.cpp:42-50 | the re-check of a booking fails iff it names something under maintenance or would double-book something at the new window |
| DelayLaws.WarningsMeaning | src/services/DelayService.cpp:36-53 | exactly the flight's active bookings that would clash or name something under maintenance are warned about, each once |
| DelayLaws.NoWarningsMeansSafe | src/services/DelayService.cpp:33-58 | a returned delay call gives no warnings iff moving all the flight's active bookings to the new window double-books nothing and none of them names anything under maintenance |
| ConsoleRuns.MenuIsChosen | src/controllers/ConsoleUI.cpp:89-104 | the menu's statuses are exactly those that some choice asks for, where every choice beyond the seventh cancels |
| ConsoleRuns.DelaysAreDelayCalls | src/controllers/ConsoleUI.cpp:89-104 | on every run that requests only the menu's statuses, a flight entered Delayed at least as often as its delay calls returned, and just as often iff none of them raised for want of a schedule after moving the flight; within one process none does |
| ConsoleRuns.ConsoleLengthBound | src/controllers/ConsoleUI.cpp:89-104 | on all such runs the number of status changes is at most 7 plus 4 for each delay call that returned or so raised, and each returned one cost at least a minute of schedule |
| ConsoleRuns.EmergencyLandingsAreRecorded | src/controllers/ConsoleUI.cpp:89-104 | on runs that request only the menu's statuses, restarts included: every flight landed as an emergency iff there is a record for it, iff no declaration clashed with an emergency id in use; within one process none does |
| ConsoleRuns.RestartedDeclarationClashes | include/services/EmergencyService.h:34 | after a restart with n emergency records, exactly the first n declarations for an approaching flight leave no record |
| EmergencyLaws.EmergencyWorkflow | src/services/EmergencyService.cpp:7-48 | declare, record, begin handling, resolve: all go through, the flight is in ground operations, and just one record was added, resolved, with its landing time |
| EmergencyLaws.GroundHandlingIsUnguarded | src/services/EmergencyService.cpp:33-42 | ground handling goes through iff the record belongs to the flight and the flight may enter ground operations, whatever the record's status |
| EmergencyLaws.StepResolves | src/services/EmergencyService.cpp:26-48 | after any step a record is resolved iff the step resolved it, or it was and the step neither records its landing nor begins its ground handling |
| EmergencyLaws.ResolvedAndNotReopened | src/services/EmergencyService.cpp:26-48 | after any run a record is resolved iff some operation resolved it and no later one reopened it |
| Witnesses.OccupiedIsGranted | include/services/ConflictDetector.h:11-18 | a run after which a request for an Occupied gate is granted |
| Witnesses.ReleaseLiftsOrderedMaintenance | docs/design.md:124-126 | a run after which a release takes a gate out of the maintenance that an administrator ordered |
| Witnesses.SeedLiftsOrderedMaintenance | src/repositories/AirportDatabase.cpp:259-272 | a run after which saving the sample data takes a gate out of the maintenance that an administrator ordered |
| Witnesses.ReleaseStrandsAResource | docs/design.md:122-123 | a run after which a release leaves something Available that another active booking names |
| Witnesses.RaisingAllocationOccupies | docs/design.md:120-121 | a run after which an allocation raises and leaves a vehicle Occupied that no active booking names |
| Witnesses.RestartMakesIdsClash | include/utils/DateTime.h:56-58 | a run with a restart after which an admissible request without repeated staff raises |
| Witnesses.RestartMakesDelaysClash | src/services/DelayService.cpp:15-18 | a run with a restart after which a delay call for a known flight raises and records nothing |
| Witnesses.RestartLosesASchedule | src/services/FlightService.cpp:15-19 | a run with a restart after which a new flight has no schedule |
| Witnesses.RestartLosesARecord | docs/design.md:151-153 | a run with a restart after which a flight is in its emergency landing without a record |
| Witnesses.RaisingDelayIsKept | docs/design.md:133-136 | a run after which a delay call raises and its row is kept |
| Witnesses.RaisingDelaySuspends | src/services/DelayService.cpp:20-28 | a run after which a delay call raises for want of a schedule and leaves the flight Delayed |
| Witnesses.ResolvedEmergencyReopens | docs/design.md:156-161 | a run after which the ground handling of a resolved emergency begins again |
| StaffList.SplitIsClean | src/controllers/ConsoleUI.cpp:51-62 | every item read from any text is non-empty, trimmed and comma-free |
| StaffList.SplitOfOneItem | src/controllers/ConsoleUI.cpp:51-62 | a text without commas is one trimmed item or none; which, is said by the next two |
| StaffList.PaddedIsTrimmed | src/controllers/ConsoleUI.cpp:57-59 | an identifier with any spaces and tabs before and after it is read as the identifier |
| StaffList.BlankIsNothing | src/controllers/ConsoleUI.cpp:57-59 | a text without commas is read as nothing iff it is all spaces and tabs |
| StaffList.SplitAtComma | src/controllers/ConsoleUI.cpp:51-62 | a comma always separates: reading two texts joined by one is reading both |
| StaffList.JoinMeans | src/services/ReportService.cpp:43-47 | one identifier is printed as itself, and between two lists there is a comma and a space |
| StaffList.RoundTrip | src/services/ReportService.cpp:43-47 | reading the printed staff list gives back the list, for ids that are non-empty, comma-free and not padded |
| StaffList.RoundTripIsExact | src/services/ReportService.cpp:43-47 | for every list: reading the printed list gives it back iff each of its ids is non-empty, comma-free and not padded |
| StaffList.ReadingIsStable | src/controllers/ConsoleUI.cpp:51-62 | printing what was read and reading it again changes nothing, for any text |
| StaffList.PaddedIdIsNotReturned | src/controllers/ConsoleUI.cpp:51-62 | an instance: a padded id comes back trimmed |
| StaffList.PrintStaff | src/services/ReportService.cpp:43-47 | the printing loop produces the joined list |
| StaffList.SplitCommaList | src/controllers/ConsoleUI.cpp:51-62 | the reading loop produces the items that the laws above describe |
| Models.Allocation.Release | include/models/Allocation.h:29 | only the status changes, to Released |
| Models.FlightSchedule.ApplyDelay | src/models/FlightSchedule.cpp:14-17 | both estimates move by the minutes, the time between them and the scheduled times do not change |
| Models.Emergency.RecordLanding | src/models/EmergencyLanding.cpp:14-17 | sets the landing time and the status, and nothing else |
| Database.AirportDatabase.SaveFlightSchedule | src/repositories/AirportDatabase.cpp:412-427 | the schedule is appended iff its id is unused; with a used id no row is added, and just the estimates of the row with that id become those of the schedule |
| Database.AirportDatabase.SaveAllocation | src/repositories/AirportDatabase.cpp:567-587 | row and then links one by one; the tables and the flag are those of the insertion that `Effects.SaveGoesThrough` and its neighbours characterise, also when it stops partway |
| Database.AirportDatabase.LoadStaffForAllocation | src/repositories/AirportDatabase.cpp:597-603 | some list of exactly the linked staff |
| Database.AirportDatabase.FindAllocationById | src/repositories/AirportDatabase.cpp:605-622 | null iff the id is unknown, else a fresh record with the row's fields and linked staff |
| Database.AirportDatabase.ListActiveAllocationsForGate | src/repositories/AirportDatabase.cpp:624-631 | fresh records of the gate query's rows, in order |
| Database.AirportDatabase.ListActiveAllocationsForVehicle | src/repositories/AirportDatabase.cpp:633-640 | fresh records of the vehicle query's rows, in order |
| Database.AirportDatabase.ListActiveAllocationsForStaff | src/repositories/AirportDatabase.cpp:642-652 | fresh records of the join's rows, in order and with its multiplicities |
| Database.AirportDatabase.ListAllocationsForFlight | src/repositories/AirportDatabase.cpp:654-661 | fresh records of the flight query's rows, in order |
| Database.AirportDatabase.SaveDelay | src/repositories/AirportDatabase.cpp:730-741 | inserts iff the flight is known and the id unused, else changes nothing |
| Database.AirportDatabase.SaveEmergency | src/repositories/AirportDatabase.cpp:769-780 | inserts iff the flight is known and the id unused, else changes nothing |
| Database.AirportDatabase.ListAllEmergencies | src/repositories/AirportDatabase.cpp:791-803 | fresh objects equal to the rows, in order; the landing time's detour through `recordLanding` is undone by the stored status |
| Database.AirportDatabase.SeedSampleDataIfEmpty | src/repositories/AirportDatabase.cpp:234-284 | the sample rows if there is no flight, else nothing |
| Services.FlightService.CreateFlight | src/services/FlightService.cpp:7-20 | takes the creation step that `Answers.CreateFlightAnswers` spells out, for all values of the other services' counters |
| Services.FlightService.TransitionFlightStatus | src/services/FlightService.cpp:38-42 | takes the transition step that `Answers.TransitionAnswers` spells out |
| Services.ResourceService.AddGate | src/services/ResourceService.cpp:7-10 | takes the step that `Answers.AddGateAnswers` spells out |
| Services.ResourceService.SetGateStatus | src/services/ResourceService.cpp:41-44 | takes the step that `Answers.SetGateAnswers` spells out |
| Services.ConflictDetector.CheckConflict | src/services/ConflictDetector.cpp:6-36 | existence first, with a loop over the staff, then gate, vehicle and staff: the answer is that of the check whose meaning is `Conflicts.CheckConflictDecides` |
| Services.ConflictDetector.CheckGate | src/services/ConflictDetector.cpp:38-55 | the search over the gate's list, which skips the flight's own allocations and stops at the first overlap, answers as `Conflicts.GateDecides` says |
| Services.ConflictDetector.CheckVehicle | src/services/ConflictDetector.cpp:57-74 | likewise for the vehicle's list |
| Services.ConflictDetector.CheckGroundStaff | src/services/ConflictDetector.cpp:76-95 | the nested search over each listed member's joined allocations answers as `Conflicts.GroundStaffDecides` says |
| Services.AllocationService.MarkStaff | src/services/AllocationService.cpp:43-45 | the loop sets exactly the listed members' status, in any order and with repetitions, and keeps their descriptions (`Answers.StatusesSet`) |
| Services.AllocationService.Commit | src/services/AllocationService.cpp:37-48 | marks all that is requested and then stores the allocation: the marks stay when storing raises |
| Services.AllocationService.Allocate | src/services/AllocationService.cpp:8-52 | takes the allocation step that `Answers.AllocateAnswers` and `Answers.AllocateWrites` spell out, on every exit |
| Services.AllocationService.Release | src/services/AllocationService.cpp:54-70 | takes the release step that `Answers.ReleaseAnswers` spells out, on every exit |
| Services.DelayService.Recheck | src/services/DelayService.cpp:36-53 | the loop's warnings are those of the flight's rows, although each record's staff may come in any order |
| Services.DelayService.ProbeAgain | src/services/DelayService.cpp:42-50 | the check of one loaded record answers as the check of its row, in whatever order its staff came |
| Services.DelayService.Postpone | src/services/DelayService.cpp:20-58 | what the call does once its row is saved: the status first, then the schedule and the re-check, each exit as `Answers.DelayAnswers` spells it out |
| Services.DelayService.ApplyDelay | src/services/DelayService.cpp:7-59 | takes the delay step that `Answers.DelayAnswers` spells out, on every exit |
| Services.EmergencyService.DeclareEmergency | src/services/EmergencyService.cpp:7-24 | takes the declaration step that `Answers.DeclarationAnswers` spells out |
| Services.EmergencyService.BeginGroundHandling | src/services/EmergencyService.cpp:33-42 | takes the ground-handling step that `Answers.HandlingAnswers` spells out |
| Services.EmergencyService.GetEmergency | src/services/EmergencyService.cpp:50-55 | the search returns the first record with the id, or null iff there is none |
| Airport.Program.Execute | src/controllers/ConsoleUI.cpp:220-514 | every operation that a console handler passes to a service extends the run by that step, so all that is proved of runs holds of the objects |
| Airport.Program.NothingBookedTwice | src/services/AllocationService.cpp:28-48 | after any sequence of operations and restarts the database objects hold no double booking |
| Airport.Program.Start | main.cpp:16-22 | the first start on an empty file is a run of one step, which saves the sample data |
| Airport.Program.Restart | main.cpp:16-22 | a new process on the same database, which seeds it if it has no flights: two more steps of the run, and fresh counters |

## Left out

- SQLite itself: statements, bindings, connections and schema text are represented by what each query and each key constraint means. Rows are returned in insertion order, which SQL does not promise; that the booking map and the conflict check do not depend on it is proved, and the staff of a loaded allocation comes in an unspecified order.
- Calendar text: times are integers, assumed to be whole minutes that are read back as they were stored; time zones and daylight saving are not modelled. Seeding takes the midnight of the sample day as a parameter, and `now()` is a parameter of the emergency operations.
- Machine integers: counters, minutes and times are unbounded, so overflow of a counter and of `atoi` on a long suffix are not modelled.
- Conflict details: the conflict type and, for a warning, the allocation are modelled, not the message text.
- Observing ids in runs: no service calls `observe`, so no step does; its laws are about the generator alone.
- Database.AirportDatabase.SeedSampleDataIfEmpty: does not save the four sample users, because users are not modelled.
- Emergency record status order: no monotone claim holds, since recording and resolving are unguarded; what does hold is stated.
- Ground tasks, users, passwords and roles, weather and ATC simulation, flight monitoring, reports apart from the staff list, menus and prompts: input and output, randomness, or tables with nothing deep to prove.
- The record time of a delay row and the type field of a resource, which no operation reads back.
- Enum-to-string pairs: statuses are stored as values, so the parse of an unknown text is not modelled.
