# Verification of the platform's protocols and contracts

A site runs machines; a machine runs up to two platform instances, a Primary and a Standby, that share one
ownership lease. Each instance probes its machine's services, tells the site what it found, and renders what the
site told it. Everything an instance needs is resolved and validated by a build tool and validated again by the
platform. This project models those parts and proves what they keep, over every input and every run.

The proofs are plain Dafny 4.11: `dafny verify dfyconfig.toml` checks all of them.

## How it is laid out

Code that updates state in place is a class or a method with loops, proved equal to functions on values; runs of
many processes are sequences of those functions' steps in any order, and the main results are lemmas about runs.

| files | what they cover |
|---|---|
| `Lease`, `Ownership`, `Turns`, `OwnershipRuns`, `Watchers`, `AcquireRace`, `UpdateRace` | the lease file and its operations; two instances taking turns under crashes, stalls and any probe answers; what each step of a turn leads to; the renewal and failback loops; what the operations are when they are not one step |
| `HealthView`, `Convergence`, `Snapshots`, `InstanceState`, `HealthFabric`, `Publishing`, `Wire`, `Pipeline` | fenced report slots, their reduction, and what a snapshot says of the deliveries; durable epochs; the coalescing publisher under every interleaving; what the wire keeps of a report; the whole path from probe to peer |
| `Monitoring`, `WatchedUnits`, `PlatformHealth` | debounced status, report spacing and freshness, from a worker's clock to a peer's snapshot; what an instance says about itself and what its peer makes of it |
| `Descriptor`, `BuilderValidation`, `PlatformValidation`, `PlatformStartup`, `WellFormed`, `Startable`, `Acceptance`, `Examples` | the two independent validators of a deployment descriptor, a reference for both and for startup, the refinement between them, and concrete libraries and machines |
| `Blueprint`, `Authored`, `Mesh`, `Resolution`, `Plans`, `PlanRecords` | a valid project and a reference for it, the routes between its instances, the records its machines resolve to, exactly when those pass and what they say |
| `TypeGraph`, `FieldSearch`, `TypeChecks`, `FieldResolution`, `FieldRules`, `Ambiguity`, `Signature`, `Contracts`, `GoTypes` | JSON field resolution over types that may contain themselves, the structural printer, when it returns, what comparing two prints tells, and concrete types on which it fails |
| `Semaphore`, `Quiescence`, `FanOut` | the weighted queue, handler swap with drain, fan-out publish and close |
| `Options`, `Sorting`, `Text`, `Registry`, `Chains` | shared definitions |

## Assumptions

- Times, durations, epochs and sequences are unbounded integers; only the freshness derivation models 64 bits.
- The machine's clock does not run backwards, and at most one process of each role runs at a time. An instant a
  process sampled may be old by the time it is used.
- Each lease operation is one step in `Ownership`. `AcquireRace` splits two acquisitions, and `UpdateRace` an acquisition
  and the holder's renewal or release; each gives what every interleaving leaves and how the next renewal repairs it.
- A probe of the peer may answer anything. A probe of a service never lasts longer than its timeout; `Monitoring.Runs`
  says so where it is needed.
- The wire may lose, reorder and repeat messages but not invent them, and does not echo one to its sender.
- Parsers of durations, addresses, URLs and paths are parameters shared by both validators (`Descriptor.Syntax`);
  `Descriptor.Sane` says what is assumed of them: they accept no surrounding white space, a request target joined to an
  ip and port still names that ip and port, and a usable route can be dialed. `Descriptor.RoundTrips` says that the
  addresses, routes and durations the build tool writes read back. `Examples.AssumptionsCanBeMet` meets both.
- A message's size is a parameter; `Wire.Honest` bounds it by the bytes of its texts, as JSON does.
- Stack space is a number of nested calls, given to the field search and the printer as `stack`.

## Where the code and its comments differ

- A step-down is described as leaving one renewal interval before the grant runs out
  (`platform/internal/machine/redundancy/ownership.go:428-429`). With attempts one interval apart the code stops at
  grant + duration - duration % interval, which is the very instant of expiry when the interval divides the
  duration. `Watchers.EvenlySpacedStepDown` states it.
- A release that fails is described as leaving the instance in place, to reclaim its own lapsed grant later
  (`platform/internal/machine/redundancy/ownership.go:430-433`). The code returns the error and the process ends.
  `Turns.TurnEnds` states exactly when.
- `tryAcquire` is not exclusive under every interleaving. `AcquireRace` gives the exact condition, and proves
  the next renewal repairs it.
- A machine name with white space around it passes both validators, but the process then reports under a name its own
  inventory does not list. `Acceptance.OwnReportsHaveASlotExactlyWhen` gives the exact condition, and `Examples` such a
  machine.
- The structural signature is meant to stand for contract equality, so that retyping a field on one side fails the
  check (`conformance-tests/deployment-descriptors/descriptors.go:27-30`). It falls short in two ways. A JSON tag may
  hold a colon and a brace, and then two contracts can print alike; `Signature.PrinterIsUnambiguousExactlyWhen` gives
  the exact condition on names. And the printer forgets what a map holds, and that JSON writes a slice of bytes as text
  but an array of them as a list; `Signature.ShapeIsToldApartExactlyWhen` gives the exact condition on types,
  `GoTypes.RetypedMapMatches` and `Signature.RetypedBytesAreMissed` the types. Otherwise a slice and an array of one
  element type count as one list, and an array's length is not part of its shape.
- The printer does not return on a type whose printing leads back to it, such as a linked list.
  `Contracts.PrintReturnsExactlyWhen` gives the exact condition, `GoTypes.LinkedListNeverPrints` the type.
- An empty lease file decodes, and a process given one is Active by construction.
  `Acceptance.OnlyTheBuilderRefusesAnEmptyLeaseFile` shows only the build tool stands in the way.
- The field search is written to end on recursive types (`utils/jsonfields/jsonfields.go:242-243`), and it does on
  recursive structs. It does not return on a struct with a field of a slice, map or pointer type that contains itself.
  `TypeChecks.SearchReturnsExactlyWhen` gives the exact condition, `TypeChecks.SliceOfItselfNeverReturns` the input.
- A blueprint is validated so that what it resolves to deploys, but three conditions on that are not among its rules:
  that the freshness of every report fits a duration, that names of a site differ once trimmed, and that the lease file
  is no instance's file. `Plans.PlanExistsExactlyWhen` gives the exact condition; `Plans.SlowestServiceIsValid`,
  `Plans.NamesThatTrimToOneAreValid` and `Plans.LeaseOnALogIsValid` show valid machines that fail each.
- A receiver believes no latency above an hour, on the ground that timeouts are small
  (`platform/internal/site/healthfabric/message.go:44-47`). No validator bounds a timeout, nor a name, and a message over
  8 KiB is refused too. `Wire.EveryReportIsCarriedExactlyWhen` gives the bound on timeouts, for names of up to 762 bytes
  together; `Wire.LongNamesAreNeverHeard` says what names over 8 KiB cost.

## Model

| member | source | states |
|---|---|---|
| Lease.Handle.TryAcquire | platform/internal/machine/redundancy/lease.go:141-171 | reading, writing and confirming in place is the atomic acquisition over file, memory and result, for every failing access |
| Lease.AcquisitionMeans | platform/internal/machine/redundancy/lease.go:141-171 | access by access: the file is taken exactly if nothing in it is valid, believed only once read back, and reported abandoned exactly if the grant replaced was not handed over |
| Lease.Handle.Renew | platform/internal/machine/redundancy/lease.go:176-202 | a renewal extends only the record that still names the holder, and otherwise forgets ownership without writing |
| Lease.Handle.Release | platform/internal/machine/redundancy/lease.go:211-238 | a release marks only the instance's own record, always stops holding, and remembers when it handed over |
| Lease.Handle.EvaluatePromotion | platform/internal/machine/redundancy/ownership.go:292-327 | each decision follows the promotion rules on the record observed, and touches file and memory only by the acquisition it then makes |
| Lease.FreeGrantAlwaysHasAClaimant | platform/internal/machine/redundancy/ownership.go:292-327 | whatever both probes answer, some instance takes the grant if and only if it is free |
| Lease.SurvivorTakesEveryFreeGrant | platform/internal/machine/redundancy/ownership.go:292-327 | a lone survivor past its own handover window takes exactly the free grants |
| Lease.HealthyPeerKeepsItsGrant | platform/internal/machine/redundancy/ownership.go:292-327 | while the peer answers, exactly its released grant, one's own lapsed grant and the first grant are taken |
| Lease.WhyNotTaken | platform/internal/machine/redundancy/ownership.go:292-327 | a decision gives way exactly to a valid grant, to its own fresh handover, or to a peer that answers |
| Ownership.AtMostOneHolder | platform/internal/machine/redundancy/lease.go:141-238 | in every reachable state at most one instance counts on an unexpired grant, and that grant is the file's record |
| Ownership.TwoServersMeansOneIsOverdue | platform/internal/machine/redundancy/ownership.go:343-376 | two instances serve at once only while one has outlived its grant and was not yet stopped |
| Ownership.TurnsNeverOverlap | platform/internal/machine/redundancy/ownership.go:135-198 | Passive and Active never overlap in a process; a record marked released means its owner's Active composition and both watchers have ended |
| Ownership.EveryWriteIsLawful | platform/internal/machine/redundancy/lease.go:141-238 | any step that changes the file replaces the other's record only when free and only by acquiring; only an acquisition removes a release mark |
| Ownership.NoPingPong | platform/internal/machine/redundancy/ownership.go:292-327 | after a handover at t, with no claim by the peer, the same process retakes the file only on a decision made at t + duration or later and only if the peer answered no probe |
| OwnershipRuns.HandoverComesBack | platform/internal/machine/redundancy/ownership.go:292-327 | a concrete run in which nobody takes a handover and its giver takes it back exactly one duration later |
| OwnershipRuns.FailoverHappens | platform/internal/machine/redundancy/ownership.go:216-264 | the machine's runs include a Standby taking over from a Primary that died serving |
| Ownership.RunKeepsInv | platform/internal/machine/redundancy/ownership.go:135-198 | every step of every run keeps the turn and grant invariants of both processes |
| Turns.StoppedExactlyWhen | platform/internal/machine/redundancy/ownership.go:343-466 | a process is stopped exactly by a signal, a failback, its composition returning, a renewal that finds another owner, or one that fails within an interval of expiry |
| Turns.StopIsFinal | platform/internal/machine/redundancy/ownership.go:343-419 | after a failback fires or a signal arrives the process is canceled, and serves no more until it activates again |
| Turns.FailedRenewal | platform/internal/machine/redundancy/ownership.go:434-466 | a renewal that cannot read or write leaves grant and file alone, and stops the process if and only if it is weighed later than expiry minus one interval |
| Turns.LostRenewal | platform/internal/machine/redundancy/ownership.go:446-450 | a renewal that finds another name, or none, stops the process at once and writes nothing |
| Turns.GoodRenewal | platform/internal/machine/redundancy/lease.go:176-202 | any other renewal extends the grant in file and memory to one duration from its instant |
| Turns.TurnEnds | platform/internal/machine/redundancy/ownership.go:343-376 | a turn ends with the process down if its release fails or it was told to end, else waiting and holding nothing; the file is marked released exactly if held, still named and written |
| Turns.FirstTurn | platform/internal/machine/redundancy/ownership.go:160-185 | a process starts by taking a free grant, waits beside a valid one, and goes down if the file fails it |
| Turns.Looks | platform/internal/machine/redundancy/ownership.go:298-307 | a look that does not fail remembers its instant, whom the file names, and whether it is absent, released or lapsed |
| Turns.Decides | platform/internal/machine/redundancy/ownership.go:292-327 | a decision wins exactly if the rules say to take and the file is still free at the instant of the look |
| Turns.Serves | platform/internal/machine/redundancy/ownership.go:343-366 | serving begins after the passive composition is gone, with a renewal loop, and a failback watcher exactly on a Standby that can probe and has a window |
| Turns.LoopsEnd | platform/internal/machine/redundancy/ownership.go:343-419 | the loops beside the Active composition end by themselves only once told to stop, and no step but an acquisition, a renewal or a handing back touches the file |
| Turns.LeavesInOrder | platform/internal/machine/redundancy/ownership.go:187-290 | a waiting process leaves only after its passive composition closed, and acts on no instant ahead of the clock |
| Turns.TurnFollowsTheLoop | platform/internal/machine/redundancy/ownership.go:434-466 | between any two states in which an instance only renews, its memory and whether it still renews are what the renewal loop makes of its ticks |
| Turns.StepsDownInTime | platform/internal/machine/redundancy/ownership.go:434-466 | in every run a punctual instance that gives up on the file does so in the last interval of its grant and never after it ran out |
| Watchers.RenewalLoop | platform/internal/machine/redundancy/ownership.go:434-466 | serving stops at the first renewal that lost ownership, or failed too close to expiry, and at no other |
| Watchers.StepDownBound | platform/internal/machine/redundancy/ownership.go:434-466 | a punctual loop that gives up does so in the last renewal interval of its grant and never after expiry |
| Watchers.StopsExactlyWhen | platform/internal/machine/redundancy/ownership.go:434-466 | when a tick stops the loop, in terms of what the file held, what failed and how near expiry was |
| Watchers.EvenlySpacedStepDown | platform/internal/machine/redundancy/ownership.go:456-459 | with attempts one interval apart it stops at grant + duration - duration mod interval; that is expiry itself if and only if the interval divides the duration |
| Watchers.FailbackLoop | platform/internal/machine/redundancy/ownership.go:391-419 | failback starts at the first poll that ends a stretch of healthy answers at least the stabilization window long |
| Watchers.EvenlyPolled | platform/internal/machine/redundancy/ownership.go:391-419 | against a Primary that answers every poll the watcher fires at the first poll a window after the first answer |
| AcquireRace.RaceOutcome | platform/internal/machine/redundancy/lease.go:141-171 | under every interleaving a contended free lease ends held; held twice exactly when both wrote and one confirmed before the other wrote |
| AcquireRace.DoubleAcquisitionHeals | platform/internal/machine/redundancy/lease.go:176-202 | if both hold, the earlier writer's next renewal reports ownership lost and leaves the file naming the later writer |
| AcquireRace.TwoHoldersCanHappen | platform/internal/machine/redundancy/lease.go:28-32 | a concrete interleaving after which both contenders hold |
| UpdateRace.UninterruptedIsAtomic | platform/internal/machine/redundancy/lease.go:176-238 | with no access of the peer in between, the two accesses are the one step, in file and memory |
| UpdateRace.UpdateOutcome | platform/internal/machine/redundancy/lease.go:141-238 | every interleaving of a renewal or release with the peer's acquisition: who writes, who ends up holding and whom the file names; both hold exactly when both wrote and the renewal's write did not fall between the peer's write and its confirming read |
| UpdateRace.LateWriteHeals | platform/internal/machine/redundancy/lease.go:176-202 | whoever holds without being the one the file names loses at its next renewal, without writing |
| UpdateRace.LateRenewalOverwrites | platform/internal/machine/redundancy/lease.go:176-202 | the order in which the peer acquires between a renewal's read and its write leaves both holding, exactly when the record read was free for the peer |
| UpdateRace.LateReleaseOverwrites | platform/internal/machine/redundancy/lease.go:211-238 | the same order with a release offers a machine the peer holds |
| HealthView.View.Apply | platform/internal/site/healthview/view.go:106-144 | a report is kept exactly when it has a slot and is newer than it; every other one leaves the slots alone and is counted under its reason |
| HealthView.NewView | platform/internal/site/healthview/view.go:60-92 | a view is built exactly from a named site and valid, distinct units, and starts with no report |
| HealthView.View.Snapshot | platform/internal/site/healthview/snapshot.go:91-120 | one entry per unit in inventory order, and a summary that counts each entry once |
| HealthView.View.RenderUnit | platform/internal/site/healthview/snapshot.go:124-169 | missing, stale, current findings and lines are read off the slots of the sorted expected observers |
| Snapshots.SlotKeepsADelivery | platform/internal/site/healthview/view.go:106-144 | a filled slot holds one delivery as it arrived: its stamp, status, detail, and the instant it was received |
| Snapshots.ReasonsMean | platform/internal/site/healthview/view.go:106-150 | each reason a report is dropped for, exactly, and the one counter it raises |
| Snapshots.SnapshotMeans | platform/internal/site/healthview/snapshot.go:124-169 | a role is missing exactly if expected and never heard, and stale exactly if what is held of it arrived longer ago than reports last |
| Snapshots.LinesTellTheNewest | platform/internal/site/healthview/snapshot.go:124-169 | each observer heard has a line that tells its newest report, when it arrived and how old it is |
| Snapshots.SummaryMeans | platform/internal/site/healthview/snapshot.go:91-120 | each count is the number of units with that status, and they add up to the inventory |
| Convergence.SlotHoldsTheNewest | platform/internal/site/healthview/view.go:106-144 | after any deliveries a slot holds the newest report for it as it first arrived; late and repeated ones changed nothing |
| Convergence.KeptExactlyWhenNewer | platform/internal/site/healthview/view.go:106-144 | a report is kept if and only if it is placeable and newer than every placeable one delivered before |
| Convergence.ViewsConverge | platform/internal/site/healthview/view.go:106-144 | two views that received the same set of genuine reports in any order and multiplicity hold the same slot content |
| Convergence.NothingGoesUncounted | platform/internal/site/healthview/view.go:147-150 | deliveries equal kept reports plus the sum of all drop counters |
| Convergence.StatusMeansAgreement | platform/internal/site/healthview/snapshot.go:179-190 | each reduced status means exactly which findings the fresh observers hold |
| Convergence.ConvergedViewsAnswerAlike | platform/internal/site/healthview/snapshot.go:124-190 | converged views whose slots are equally stale reduce a unit to the same status |
| InstanceState.Store.Advance | platform/internal/instance/state/state.go:150-174 | disk and memory move together by one incarnation, or a failed write leaves both |
| InstanceState.Open | platform/internal/instance/state/state.go:109-130 | a store holds what the disk records, zero when absent, and refuses a record it cannot read |
| InstanceState.EpochsStrictlyIncrease | platform/internal/instance/state/state.go:109-174 | over any starts, advances, failed writes, crashes and damage, epochs given to callers strictly increase and none is reissued |
| InstanceState.CountersRecount | platform/internal/instance/state/state.go:150-174 | over any life each counter is the number of records written for its reason and the instant of the last, and the epoch their sum |
| InstanceState.WhatLands | platform/internal/instance/state/state.go:150-174 | a record is added exactly if an advance for a known reason completed or crashed once written, and an epoch handed out exactly if it completed |
| InstanceState.WhatIsKept | platform/internal/instance/state/state.go:109-174 | what starting, stopping, a failed write, a crash before or after the write and damage leave on disk and in memory |
| InstanceState.MemoryIsTheDisk | platform/internal/instance/state/state.go:150-174 | over any life a running process remembers what its file holds, unless the file was damaged under it |
| HealthFabric.Publisher.Publish | platform/internal/site/healthfabric/publisher.go:130-148 | an observation is stamped with the next sequence and becomes its service's pending one, superseding an unsent one |
| HealthFabric.Publisher.Drain | platform/internal/site/healthfabric/publisher.go:190-216 | everything pending is tried once in service order, and each outcome is counted |
| HealthFabric.BatchMeans | platform/internal/site/healthfabric/publisher.go:190-205 | a batch is exactly what was pending, each service once, in order of service |
| Publishing.NothingIsLostOrForgotten | platform/internal/site/healthfabric/publisher.go:130-222 | under every interleaving accepted = sent + failed + superseded + pending + unsent rest; pending work implies a token, a worker about to post one, a sender about to take it, or a publisher that was stopped |
| Publishing.TheWireIsInOrder | platform/internal/site/healthfabric/publisher.go:190-216 | per service the wire carries a strictly increasing subsequence of what was accepted |
| Publishing.AtRestTheLatestWasTried | platform/internal/site/healthfabric/publisher.go:171-216 | when the publisher is quiet, each service's latest observation was handed to the connection |
| Publishing.OnlySupersededAreSkipped | platform/internal/site/healthfabric/publisher.go:130-148 | an observation never tried and not waiting has a later one about the same service |
| Publishing.DrainIsARun | platform/internal/site/healthfabric/publisher.go:190-216 | a drain is a run of the sender that takes everything, hands each over once in order, counts each outcome and rests |
| Publishing.TokenMeans | platform/internal/site/healthfabric/publisher.go:130-184 | the wake token is there exactly if one was posted since the sender last took it, and a worker posts once for each acceptance |
| Publishing.ExitIsFinal | platform/internal/site/healthfabric/publisher.go:158-184 | once the sender left, nothing more is handed to the connection |
| Wire.EveryReportIsCarriedExactlyWhen | platform/internal/site/healthfabric/message.go:173-212 | with names of at most 762 bytes together, peers take every report of a service if and only if its timeout is below an hour and a millisecond |
| Wire.LongNamesAreNeverHeard | platform/internal/site/healthfabric/message.go:173-177 | a unit whose deployment, machine, service and role names exceed 8 KiB is refused by every peer, whatever is reported |
| Wire.RefusedExactlyWhen | platform/internal/site/healthfabric/message.go:173-231 | every reason a message is refused for, in order, and what is read of any other |
| Wire.WhatIsRead | platform/internal/site/healthfabric/message.go:106-231 | a report a peer takes reads back as sent in who, what and when, its latency cut to whole milliseconds |
| Wire.CutMeans | platform/internal/site/healthfabric/message.go:107-110 | an error is cut to its longest front that fits, a character cut apart leaving a replacement per byte |
| Wire.CutKeepsExactlyWhen | platform/internal/site/healthfabric/message.go:107-110 | an error text survives the cut if and only if it fits, or ends in the replacement characters cutting leaves |
| Wire.UnchangedExactlyWhen | platform/internal/site/healthfabric/message.go:106-127 | a report reads back unchanged if and only if its latency is whole milliseconds and its error survives |
| Pipeline.LaterReportsAreNewer | platform/internal/site/healthfabric/publisher.go:130-148 | across restarts and crashes an observer's stamps are unique and ordered as it accepted them |
| Pipeline.OwnReportsAreKept | platform/internal/app/servicehealth.go:149-169 | an instance's view keeps the report it just stamped if and only if its inventory has a slot for it |
| Pipeline.TheSiteIsGenuine | platform/internal/site/healthfabric/publisher.go:130-148 | whatever comes off the wire, however lost, repeated or reordered, no two reports with one stamp differ |
| Pipeline.TheSiteConverges | platform/internal/app/servicehealth.go:149-169 | instances that heard the same reports hold the same stamp, status, instant and failures; latency and error too, if and only if neither or both is the observer or the wire changes nothing of the report |
| Monitoring.Tracker.Record | platform/internal/machine/servicehealth/tracker.go:34-66 | one outcome folded in place, and what is reported is the new state |
| Monitoring.StatusIsTheTail | platform/internal/machine/servicehealth/tracker.go:34-66 | the status after any outcomes depends on the trailing failures alone: Unhealthy at the threshold, else Healthy if any success, else Unknown; the pending count is the capped tail |
| Monitoring.RunWorker | platform/internal/machine/servicehealth/monitor.go:177-235 | report k is made after the jitter, k intervals and all attempts so far, with that attempt's latency and the tail's status, however long attempts take |
| Monitoring.ReportsAreSpaced | platform/internal/machine/servicehealth/monitor.go:177-193 | the first report comes after jitter and attempt, each other one interval and one attempt after the one before |
| Monitoring.AttemptsNeverOverlap | platform/internal/machine/servicehealth/monitor.go:177-236 | an attempt starts one interval after the report before it, is told when it ends, and is told Unhealthy exactly if the last retries attempts failed |
| Monitoring.DigestIsFnv | platform/internal/machine/servicehealth/monitor.go:130-139 | the digest is 64-bit FNV-1a, by its offset and published values |
| Monitoring.JitterMeans | platform/internal/machine/servicehealth/monitor.go:130-139 | the phase is within the interval, and the digest of observer, zero byte and service modulo it |
| Monitoring.PhasesDiffer | platform/internal/machine/servicehealth/monitor.go:128-139 | what is hashed for the phase tells observer and service apart, though a service name may hold the separating byte |
| Monitoring.LosslessIsNeverStale | platform/internal/site/healthview/snapshot.go:145-148 | with nothing lost and delays up to one interval, what a receiver holds is never stale |
| WatchedUnits.WatchedUnitIsNeverStale | platform/internal/site/healthview/snapshot.go:145-148 | a view that hears all of a worker's reports within an interval, in any history with repetitions, never lists it stale while another is to come |
| WatchedUnits.SilenceIsShown | platform/internal/site/healthview/snapshot.go:145-148 | and lists it stale as soon as the newest it has is older than reports last |
| Monitoring.ToleranceIsOneInterval | platform/internal/machine/servicehealth/monitor.go:177-193 | a delay bound is harmless to every run if and only if it is at most one interval |
| Monitoring.GapDecides | platform/internal/site/healthview/snapshot.go:145-148 | m reports lost in a row make the held one stale if and only if m + 1 intervals and the attempts between exceed its freshness |
| Monitoring.OneLostReport | platform/internal/machine/servicehealth/monitor.go:186-188 | one lost report makes staleness if and only if the two attempts took longer together than a timeout, and then for at most a timeout |
| Monitoring.TwoLostReports | builder/deployment/deployment.go:533-539 | two or more lost in a row always do |
| PlatformHealth.ServiceMonitorStatus | platform/api/http.go:255-265 | fails exactly when this role's own report about its own machine is stale somewhere |
| PlatformHealth.NewHealth | platform/api/http.go:183-239 | reports each composed dependency, and is impaired, never down, when one fails |
| PlatformHealth.ImpairedExactlyWhen | platform/api/http.go:183-209 | impaired exactly when a composed check failed, and never down |
| PlatformHealth.FindingsDoNotShow | platform/api/http.go:255-265 | two histories that differ only in what probes found give the same health answer and the same answer at the peer's gate |
| PlatformHealth.MonitorFailsExactlyWhen | platform/api/http.go:241-265 | the monitor check fails if and only if an own unit expects this role and holds an expired report of it |
| PlatformHealth.DistributionState | platform/internal/app/servicehealth.go:415-433 | sums expected and current observers of other machines and names the case |
| PlatformHealth.DistributionMeans | platform/internal/app/servicehealth.go:404-433 | connected means every report due from elsewhere is current, isolated that none is, local that none is due |
| PlatformHealth.DistributionNames | platform/internal/app/servicehealth.go:415-433 | which of the four names is given, in terms of which reports due from other machines are current |
| Descriptor.ValidatePorts | builder/deployment/deployment.go:747-807 | accepts exactly usable, pairwise different listener ports, with no probe on one and no endpoint probed twice |
| BuilderValidation.ValidateInventory | builder/deployment/deployment.go:562-613 | accepts exactly inventories of valid, distinct units that agree per machine |
| BuilderValidation.ValidateListed | builder/deployment/deployment.go:654-705 | accepts exactly when both halves of the health contract tell the same about this machine |
| BuilderValidation.ValidateEndpoints | builder/deployment/deployment.go:747-783 | accepts exactly complete instances with distinct peers and ports apart |
| BuilderValidation.Validate | builder/deployment/deployment.go:373-422 | the build tool's answer is exactly the conjunction of its clauses, for every descriptor |
| WellFormed.AcceptedExactlyWhen | builder/deployment/deployment.go:373-842 | the build tool accepts exactly the descriptors a reference calls deployable, stated by meaning in another order and vocabulary |
| WellFormed.ApiStaysLocal | builder/deployment/deployment.go:838-960 | every instance of an accepted machine serves its API on loopback and its cluster on the machine's ip, and routes to no listener of its own |
| WellFormed.ExposedApiIsRefused | builder/deployment/deployment.go:848-852 | whatever else it says, a descriptor with an API off loopback is refused |
| PlatformValidation.ValidateInventory | platform/config/deployment.go:461-521 | accepts exactly valid inventories whose entries for this machine are hosted, and keeps those entries |
| PlatformValidation.Unmarshal | platform/config/deployment.go:219-262 | the platform's decode answer is exactly its guards and health contract, for every descriptor |
| WellFormed.DecodesExactlyWhen | platform/config/deployment.go:219-262 | the platform decodes exactly the descriptors a reference calls decodable |
| PlatformStartup.StartMonitor | platform/internal/machine/servicehealth/monitor.go:79-90 | starts exactly when every service resolves to a runnable target and no two share a name |
| PlatformStartup.StartFabric | platform/internal/instance/natsserver/natsserver.go:77-91 | the broker's own checks pass exactly when its address serves, its names are stated and every route can be dialed |
| PlatformStartup.StartView | platform/internal/app/servicehealth.go:115-131 | a view starts exactly when every entry parses into a valid unit and units are distinct, and holds those units |
| PlatformStartup.Start | platform/internal/app/app.go:52-272 | a process gets past startup exactly when local files, origin, timeouts, broker, lease, view, identity and monitor all do |
| Startable.StartsExactlyWhen | platform/internal/app/app.go:52-272 | a process starts exactly on what a reference calls startable |
| Startable.DecodedStartsExactlyWhen | platform/internal/app/app.go:52-272 | of a descriptor that decodes, exactly which questions startup still asks |
| Acceptance.AcceptedMachinesStart | builder/deployment/deployment.go:373-842 | whatever the build tool accepts, the platform decodes and starts, contending for a lease exactly when there is a standby |
| Acceptance.OwnReportsHaveASlotExactlyWhen | platform/internal/app/servicehealth.go:149-169 | an accepted machine's own reports have a slot in its own view if and only if its name has no surrounding white space |
| Examples.WhiteSpaceIsAccepted | builder/deployment/deployment.go:386-388 | a concrete machine the build tool accepts, whose name has a tab before it |
| Acceptance.ContendsExactlyWhen | platform/internal/machine/redundancy/lease.go:114-131 | a decoded machine with a standby contends for its lease if and only if the lease names a file |
| Acceptance.OnlyTheBuilderRefusesAnEmptyLeaseFile | platform/config/deployment.go:688-716 | any accepted machine with a standby, its lease file emptied, still decodes and starts, Active by construction; only the build tool refuses it |
| Blueprint.ValidateMachine | builder/internal/blueprint/machine.go:134-240 | accepts exactly machines with an identity, valid services, complete endpoints, own files and store apart, listeners and probes apart, service identities and a usable lease |
| Authored.MachineIsAcceptedExactlyWhen | builder/internal/blueprint/machine.go:134-264 | a machine is accepted exactly if a reference calls it well authored |
| Blueprint.Validate | builder/internal/blueprint/project.go:22-71 | accepts exactly projects whose site and cluster names, and machine names and ips across all sites, are unique |
| Authored.ProjectIsAcceptedExactlyWhen | builder/internal/blueprint/project.go:22-71 | a project is accepted exactly if well planned: no two machines anywhere share a name or an ip |
| Mesh.NatsRoutes | builder/internal/resolve/resolve.go:248-263 | the loop lists, in order, the routes to every deployed instance but this one |
| PlanRecords.SiteNodesAreDeployed | builder/internal/blueprint/machine.go:57-86 | the nodes of a site are exactly the instances its machines deploy, at their ip and cluster port |
| Mesh.NodesDiffer | builder/internal/blueprint/machine.go:183-206 | across a valid project a route names one instance, and so does a machine name with a role |
| Mesh.RoutesAreTheOthers | builder/internal/resolve/resolve.go:237-263 | an instance's routes are exactly the other deployed instances of its site, each once, never itself |
| Mesh.RoutesAreMutual | builder/internal/resolve/resolve.go:237-263 | of two instances of a site each carries the other |
| Mesh.RoutesStayInTheSite | builder/internal/blueprint/project.go:49-58 | no route reaches an instance of another site, whose cluster is named differently |
| Mesh.ServerNamesDiffer | builder/internal/resolve/resolve.go:272-280 | a server name tells one instance of the whole project |
| Resolution.SiteServices | builder/internal/resolve/resolve.go:122-143 | the inventory of a site in authored order, or none if a freshness overflows |
| Resolution.Build | builder/internal/resolve/resolve.go:28-46 | a plan exists exactly for a valid project whose inventories derive and each of whose records passes validation; it holds one record per machine in authored order |
| PlanRecords.PlannedRecordsSay | builder/internal/resolve/resolve.go:51-80 | every record of a plan says of its machine, of each instance deployed and of their peers what the blueprint says; its routes are the urls of exactly the other instances of the site, each once |
| PlanRecords.EveryMachineIsPlanned | builder/internal/resolve/resolve.go:28-46 | a plan has one record per machine, at the machine's place in authored order |
| Resolution.OneInventoryPerSite | builder/internal/resolve/resolve.go:111-143 | machines of one site are told the same inventory in the same order |
| Plans.RecordPassesExactlyWhen | builder/internal/resolve/resolve.go:51-80 | a valid project's record passes the descriptor's validation if and only if the platform is named, the lease file is no instance's, and its inventory is well formed and agrees with its services |
| Plans.DerivesExactlyWhen | builder/internal/resolve/resolve.go:168-181 | a site's inventory derives if and only if twice the interval plus the timeout of every service fits 64 bits |
| Plans.PlanExistsExactlyWhen | builder/internal/resolve/resolve.go:28-46 | a valid project has a plan if and only if two intervals and a timeout of each service fit 64 bits, the platform is named if a machine is planned, names of a site trim apart, and no lease file is an instance's file |
| Plans.SlowestServiceIsValid | builder/internal/blueprint/service.go:157-172 | any valid machine stays valid with a service whose reports' freshness overflows a duration |
| Plans.LeaseOnALogIsValid | builder/internal/blueprint/machine.go:244-264 | any valid machine with a lease stays valid with the lease file moved onto its own log |
| Plans.NamesThatTrimToOneAreValid | builder/internal/blueprint/machine.go:134-141 | machines stay valid when one takes another's name after a tab |
| Plans.InventoryListsEachMachine | builder/internal/resolve/resolve.go:122-143 | what a plan says about one machine of a site is that machine's services, all, once, in order, with its role, profile, observers and derived freshness |
| Plans.PlannedMachinesStart | builder/internal/resolve/resolve.go:20-46 | every record of a plan is decoded by the platform and starts, contending for a lease exactly when it deploys a standby |
| FieldSearch.ExpandLevel | utils/jsonfields/jsonfields.go:76-112 | one level expands exactly the queued structs not expanded before, once each, and queues what they embed at its first occurrence |
| FieldSearch.CollectCandidates | utils/jsonfields/jsonfields.go:65-115 | what happens is decided by the first exposed field, level by level and along index paths, whose type check fails or does not return; if there is none it lists every contender once, or twice if its struct is doubled |
| TypeChecks.EndlessExactlyWhen | utils/jsonfields/jsonfields.go:227-248 | the check of a type returns for no stack if its element and key types lead into a cycle without a struct; otherwise it returns given a call per type and one more |
| TypeChecks.AcceptedExactlyWhenSound | utils/jsonfields/jsonfields.go:227-248 | a type passes the check if and only if nothing it is made of, through any keys and elements, is unsupported or made of itself |
| TypeChecks.RefusedExactlyWhen | utils/jsonfields/jsonfields.go:227-248 | it returns an error if and only if the calls reach a kind JSON cannot carry, a map's element being reached only past a sound key |
| TypeChecks.SearchReturnsExactlyWhen | utils/jsonfields/jsonfields.go:65-115 | the search does not return if and only if the first exposed field whose type is not clean leads into such a cycle, and fails if and only if that field reaches an unsupported kind |
| TypeChecks.SliceOfItselfNeverReturns | utils/jsonfields/jsonfields.go:237-238 | a struct with a field of type T []T: the search returns for no stack |
| FieldSearch.QueueStep | utils/jsonfields/jsonfields.go:76-101 | the next queue holds every struct of the next depth, once, at its first shortest embedding path |
| FieldSearch.CountsStep | utils/jsonfields/jsonfields.go:91-108 | the counters exceed one exactly for structs the expanded level above embeds more than once |
| FieldSearch.EmptyQueueEndsSearch | utils/jsonfields/jsonfields.go:76-78 | an empty queue means no struct lies at that depth or below |
| FieldResolution.ResolveConflicts | utils/jsonfields/jsonfields.go:190-225 | in whatever order names are taken, exactly the survivors of their names remain, one per name |
| FieldResolution.SurvivorsDominate | utils/jsonfields/jsonfields.go:190-225 | survivors of the listed candidates are exactly the fields the dominance rule over embedding paths selects |
| FieldResolution.FieldListIsUnique | utils/jsonfields/jsonfields.go:41-56 | there is one list of the dominant fields in index order, so map order cannot show |
| FieldResolution.OneFieldPerName | utils/jsonfields/jsonfields.go:190-225 | no JSON name is produced twice |
| FieldRules.ContendersAreFields | utils/jsonfields/jsonfields.go:65-166 | what contends is an exported field, neither dashed out nor brought in, under its tag's name or else its own, along the first shortest path |
| FieldRules.AnsweredFieldsAreAsTagged | utils/jsonfields/jsonfields.go:146-166 | each field of an answer has the tag's name if it has one, else the Go name, and the type and omitempty of the field its index leads to |
| FieldRules.AnswersAreInOrder | utils/jsonfields/jsonfields.go:36-60 | of two listed fields the one declared first along its path comes first |
| FieldRules.ListedExactlyWhen | utils/jsonfields/jsonfields.go:190-225 | a field is listed exactly if its struct is embedded once from above and every other of its name lies deeper, or as deep but untagged where it is tagged |
| FieldResolution.Fields | utils/jsonfields/jsonfields.go:31-57 | the answer is the dominant fields strictly ordered by index path, or the refusal that applies, or none exactly when the search does not return |
| Ambiguity.AmbiguityIsInherited | utils/jsonfields/jsonfields.go:91-108 | a struct has two shortest embedding paths if and only if it or one on the way is doubled |
| Ambiguity.AmbiguousFieldIsExposed | utils/jsonfields/jsonfields.go:104-108 | a concrete diamond whose field is exposed though two shortest paths lead to it |
| Contracts.Print | conformance-tests/deployment-descriptors/descriptors.go:572-592 | what is printed is the signature of the type's shape with what the printer forgets erased; nothing is printed only where the nested calls take all the room |
| Contracts.PrintReturnsExactlyWhen | conformance-tests/deployment-descriptors/descriptors.go:572-592 | the printer returns for no stack if its calls through exposed fields, elements and pointers lead back to a type or to a struct whose fields are never found; otherwise it returns given room enough |
| GoTypes.LinkedListNeverPrints | conformance-tests/deployment-descriptors/descriptors.go:587-588 | type N struct{ Next *N }: its fields are found, yet it prints for no stack |
| Contracts.OverflowIsTooDeep | conformance-tests/deployment-descriptors/descriptors.go:572-592 | a type with a finite shape is not printed only if the shape is higher than the room, but for a call per type |
| Contracts.OneShape | conformance-tests/deployment-descriptors/descriptors.go:572-592 | a type has at most one finite shape, whole or as printed |
| Contracts.ContractsMatch | conformance-tests/deployment-descriptors/descriptors.go:31-38 | the same contract always matches; with plain JSON names a match means the same contract up to map contents and lists of bytes, and the same contract outright if one of the two has neither |
| GoTypes.RetypedMapMatches | conformance-tests/deployment-descriptors/descriptors.go:27-38 | struct{ A map[string]X } and struct{ A map[string]Y } are different contracts that match, for any two kinds |
| GoTypes.RenamedTagIsSeen | conformance-tests/deployment-descriptors/descriptors.go:27-38 | two structs that differ only in the tag of a field do not match |
| GoTypes.SpellingOf | conformance-tests/deployment-descriptors/descriptors.go:585-590 | how each kind of type is spelled from the print of what it is made of |
| Signature.TellApart | conformance-tests/deployment-descriptors/descriptors.go:572-592 | a printed shape ends where it ends, whatever follows, and tells its shape |
| Signature.SignatureTellsShapes | conformance-tests/deployment-descriptors/descriptors.go:568-592 | among plain names equal signatures mean equal shapes up to field order and what the printer forgets |
| Signature.ShapesPrintAlike | conformance-tests/deployment-descriptors/descriptors.go:568-592 | equal shapes print alike whatever order their fields are declared in |
| Signature.PrinterIsUnambiguousExactlyWhen | conformance-tests/deployment-descriptors/descriptors.go:568-592 | over an alphabet without commas every shape without maps and lists of bytes is told from every other if and only if a name cannot hold both a colon and an opening brace |
| Signature.ShapeIsToldApartExactlyWhen | conformance-tests/deployment-descriptors/descriptors.go:585-590 | over such an alphabet a shape is told from every other if and only if it holds no map and no list of bytes |
| Signature.RetypedMapIsMissed | conformance-tests/deployment-descriptors/descriptors.go:589-590 | a map of ints and a map of strings print alike |
| Signature.RetypedBytesAreMissed | conformance-tests/deployment-descriptors/descriptors.go:585-586 | a slice and an array of bytes print alike, though one is text and the other a list |
| Signature.NestingCanBeImitated | conformance-tests/deployment-descriptors/descriptors.go:578-583 | a whole family of different shapes that print alike |
| Semaphore.Weighted.Enter | scenarios/internal/semaphore/semaphore.go:35-51 | taken at once only if nobody waits and it fits, otherwise queued last |
| Semaphore.Weighted.Withdraw | scenarios/internal/semaphore/semaphore.go:56-71 | giving up removes exactly the caller's place and wakes who fits, unless the grant came first |
| Semaphore.Weighted.Release | scenarios/internal/semaphore/semaphore.go:79-92 | capacity goes back, never below zero, and waiters are granted from the front while they fit |
| Semaphore.Weighted.Notify | scenarios/internal/semaphore/semaphore.go:94-104 | the loop grants exactly the longest front of the queue that fits |
| Semaphore.RunIsSafe | scenarios/internal/semaphore/semaphore.go:35-104 | under any interleaving capacity is never exceeded, nobody waits while the first in line fits, and grants plus queue are the uncancelled arrivals in order |
| Semaphore.RunIsBalanced | scenarios/internal/semaphore/semaphore.go:75-92 | with balanced releases what is taken equals the clamped weight of the live grants |
| Semaphore.NobodyIsStranded | scenarios/internal/semaphore/semaphore.go:94-104 | once all grants are given back nothing is taken, nobody waits, and every uncancelled call was granted |
| Semaphore.NotifiedMeans | scenarios/internal/semaphore/semaphore.go:94-104 | waking grants the longest front of the queue that fits, each call for what it waits for |
| Semaphore.ArrivalMeans | scenarios/internal/semaphore/semaphore.go:35-51 | a call is granted on arrival exactly if nobody waits and it fits, one for more than everything counting as for all |
| Semaphore.ReleaseMeans | scenarios/internal/semaphore/semaphore.go:75-92 | a release gives back what it says, at most all, and what then fits is granted; one of nothing changes nothing |
| Semaphore.GivingUpMeans | scenarios/internal/semaphore/semaphore.go:56-71 | a call that gives up in time leaves the queue and is never granted; one already granted keeps its grant |
| Quiescence.InstanceServer.ServeWith | platform/internal/app/server.go:89-91 | swaps the handler and nothing else |
| Quiescence.Drain | platform/internal/app/server.go:103-112 | quiet exactly if some poll before the deadline reads zero, and at the first that does |
| Quiescence.DrainedIsForever | platform/internal/app/server.go:74-112 | after the passive handler is stored and a poll read zero, no request runs on that turn's handler or an earlier one's, then or ever after |
| Quiescence.TimeOutProvesNothing | platform/internal/app/server.go:103-112 | a drain that times out may leave a request on the Active handler |
| Quiescence.RequestsGoRound | platform/internal/app/server.go:74-87 | every request is counted, looks up its handler, is answered and uncounted, in this order, in every run |
| Quiescence.FoundHandler | platform/internal/app/server.go:74-91 | until answered a request is on the handler that was there when it looked, whatever is swapped meanwhile |
| Quiescence.TurnsGoRound | platform/internal/app/server.go:89-112 | turns are swapped in, swapped back and drained one after another; a drain that times out is the last step |
| FanOut.StoreInOrder | platform/internal/events/storage/publisher.go:70-79 | every backend is tried in order whatever the others answer, and any refusal is reported |
| FanOut.CloseInReverse | platform/internal/events/storage/publisher.go:95-104 | backends are shut in reverse order, all of them, and any refusal is reported |
| FanOut.StoresInOrder | platform/internal/events/storage/publisher.go:70-79 | backend i is the i-th to store |
| FanOut.ShutsInReverse | platform/internal/events/storage/publisher.go:95-104 | the last backend is shut first and the first last |
| FanOut.Gate.Admit | platform/internal/events/storage/publisher.go:55-63 | a publication is counted in exactly if the publisher is still open |
| FanOut.NoStoreOnceClosing | platform/internal/events/storage/publisher.go:85-104 | once Close is past its wait no backend stores again, and the shutdowns run in reverse order after every store |
| FanOut.AllBackendsOrNone | platform/internal/events/storage/publisher.go:55-80 | an accepted publication reaches every backend once in order, a refused one none |
| FanOut.CloseReturnMeans | platform/internal/events/storage/publisher.go:82-105 | when a Close that found the publisher open returns, every backend is shut, in reverse order after every store, and no store follows; another's return says so only if the first was through |
| FanOut.AssuredExactlyWhen | platform/internal/events/storage/publisher.go:85-104 | a caller about to Close is assured of shutdown on every continuation if and only if the publisher is still open or already through |
| FanOut.AccountedFor | platform/internal/events/storage/publisher.go:55-80 | every publication made is under way, done or refused, done exactly if it left after its last backend |
| FanOut.RefusedExactlyWhen | platform/internal/events/storage/publisher.go:55-69 | a publication is refused exactly if it came once the publisher was closed or could not be stamped |
| FanOut.BeginsExactlyWhen | platform/internal/events/storage/publisher.go:55-104 | storing begins exactly with the stamping, and the shutdowns with the end of the wait |

## Left out

- The lease and state files' JSON and the file system: each is one cell that a write replaces or leaves.
- Roles in a lease record other than the two instance roles, and the nil lease's methods beyond being Active by construction.
- Wrap-around of 64-bit times, epochs, sequences and counters.
- Facts an instance states about its own ownership: a failure to publish one is folded into the process ending.
- HTTP, the broker library with what its own constructor refuses, its client, and JSON: a message is its fields and a size, so malformed payloads are not modelled.
- Parsing of JSON tags (`utils/jsonfields/jsonfields.go:168-188`): a field carries its valid tag name, or none.
- Ownership.NoPingPong: the failback watcher may fire at any time in the protocol; that it fires only after the stabilization window is `Watchers.FailbackLoop`.
- Contracts.ContractsMatch: the printer sees no tag option and no method, so shapes hold neither whether a field is left out when empty, nor one written as a string, nor how a type marshals itself. A type JSON refuses is its kind alone.
- Mesh.NodesDiffer: ips are compared as authored text, as the code does; two spellings of one address count as two.
- PlatformStartup.Start: what the operating system answers, connecting to the broker and advancing the epoch are not among its steps.
- Resolution.Build: descriptions of Windows services, and display names beyond their length, which no validator reads.
- Monitoring.RunWorker: the stop signal is where the list of attempts ends.
- Quiescence.Drain: the time between polls; the deadline falls after some number of them.
- Semaphore.Weighted.Enter: the select on the ready channel; a granted call is one whose ticket is listed as granted.
- Error texts, and the order in which a validator finds its first complaint.
- Scenario harness, packaging, blueprint files, generated clients and summaries: strings and input/output.
