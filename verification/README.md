# Verified model of the ad-scheduler accounting engine

ad-scheduler shares a cluster between tenants through a tree of queues. Each queue has a
guaranteed share and a max. Pods and gangs are booked on leaves, and every booking is rolled up
to the root. The engine keeps a ledger of bookings beside the tree and swaps the tree for a new
one when the configuration changes. On top of that sit gang admission with head-of-line bids,
queue-level reclaim, node-level preemption, routing, ordering, and the assembly of the tree from
Queue resources. This project models that logic in Dafny and proves what it promises.

The model comes in two layers. `Ledger` describes every engine call as one step of a state
machine over values, because each call runs under one mutex. The theorems about runs are proved
there. `Manager`, `Construction` and `Engine` hold the queue objects, the manager and the engine
as classes with mutable fields and parent pointers; each of their methods is proved to take
exactly the step the state machine describes. `VictimsInPlace`, `Donors`, `Reclaim`,
`Preemption`, `Placement`, `Request` and `Assembly` keep the loops of the source as loops, proved
against specifications.

A third group says what the calls do in the fields of the states, queues and pods involved, rather
than through the functions of the model: `CallLaws` and `GangLaws` for every engine call,
`VictimOrder` for the selection, `ReclaimLaws` for a reclaim tick, and `SpecLaws` for the two
builders.

`dafny verify dfyconfig.toml` checks the whole project.

## What is proved

1. **Accounting.** In every state of every run from the empty engine, through any number of
   rebuilds, each queue's counters equal a plain sum over the ledger, and the tree's gang holds
   are some of the gang ledger's, with equal leaf and amount (`Balance.RunBalanced`). With
   non-negative requests no counter is ever negative (`Balance.RunNonNegative`). Each booking call
   has an exact inverse (`RoundTrips`), and `CallLaws` and `GangLaws` give the whole effect of each
   call: which ledger entries change, and by how much each counter on and off the path moves.
2. **Max.** In every run over a fresh tree whose admissions go through a gate, with non-negative pod
   requests, no queue anywhere in the tree exceeds its max (`Limits.RunWithinMax`).
3. **Rebuild.** With non-negative pod requests, a rebuild keeps every gang's hold if and only if every
   booked gang's queue is still a leaf and the whole ledger fits along its path, in whatever order
   the maps are walked (`Limits.RebuildKeepsAllGangs`). Whatever the requests, the holds it keeps are
   maximal: a gang on a live leaf that lost its hold would not fit the finished tree either
   (`Limits.RebuildMaximal`).
4. **Bids.** While a bid stands its rank never falls and nobody ranked below it gets in
   (`WoundWait.BidReign`); steady contention from below keeps it standing for ever
   (`WoundWait.BidSurvives`, `Counterexamples.BidOutlivesTimeout`). `GangLaws.AdmitGangWWLaw` says in
   priorities, ages and uids who is held back, who gets in and who takes the head of the line.
5. **Victim selection.** The answer exists exactly when all candidates together suffice, none of
   its victims can be spared, and no covering set has a lower highest priority
   (`Victims.SelectFeasible`, `SelectMinimalCover`, `SelectBottleneck`), for the in-place
   array form as well (`VictimsInPlace.SelectVictims`). With candidates of one priority and one needed
   dimension no covering set is smaller (`VictimOrder.FewestVictims`).
6. **Reclaim and preemption.** Donors keep the smaller of what they used and what they are
   guaranteed, fences and priorities are respected, usage at the fence boundary and above never
   grows, disruption budgets are not exceeded, and of the sets found on the nodes the chosen one is
   the smallest. Who may reclaim, and which nodes are searched, is stated exactly in the queues' and
   nodes' own numbers (`ReclaimLaws.ClaimExact`, `Preemption.SearchedExact`). When the evictions let the starved pod in is stated exactly.
7. **Tree, fences, routing, order, requests.** A spec is accepted exactly when each of its queues is
   proper, and each becomes the node at its path; accepted specs build well-formed trees, the
   dotted-prefix test is tree descent, a pod's leaf is unique, when gangs sort contiguously and when
   headroom agrees with the gate are stated exactly, and the effective request is the least sufficient one.

## Where the code is followed rather than its comments

- The comment on bids says that a bid of a vanished gang expires after the timeout
  (pkg/framework/engine.go:85-90). A lower-ranked contender refreshes the bid's timestamp
  (pkg/framework/engine.go:270-273), so a bid only expires after a gap in contention longer than
  the timeout. `WoundWait.BidStep` gives the exact condition, and `Counterexamples.BidOutlivesTimeout`
  a run for every span in which the bid stands that long after its holder's only call.
- A rebuild ignores whether a gang was re-admitted (pkg/framework/engine.go:212), so the gang
  ledger can list a gang that holds nothing in the tree. `Counterexamples.RebuildCanLoseHold` is such
  a run, and `Limits.RebuildKeepsAllGangs` says exactly when it does not happen.
- A booking whose path became an interior queue stays in the ledger but counts nowhere: the
  rebuild only checks that the path exists (pkg/framework/engine.go:196) and roll-ups refuse
  non-leaves (pkg/queue/manager.go:390). The ledger sums of `Balance` count bookings on live leaves
  only. `Counterexamples.BookingCountsNowhere` is such a run, and `Balance.CountsAllExact` says exactly
  when the counters equal the sums over the whole ledger.
- Headroom lists clamped slack, while the gate compares with the true difference.
  `Headroom.HeadroomExact` says exactly which entries of zero or less the gate refuses beyond
  headroom, and `Headroom.HeadroomDiffersAtZero` shows the difference in every tree with a queue of
  the path over max.
- Reclaim can evict and still leave the starved pod out, for two reasons: a queue between its leaf
  and the fence boundary stays full (`VainEvictions.FullGroup`), or the boundary or a queue above it
  was over max (`VainEvictions.BoundaryOverMax`). Both are runs from the empty engine that end in a
  sound decision. `Reclaim.ReclaimAdmitsExact` says exactly when the evictions let the pod in.
- The comment on victim building says pods at or above the starved pod's priority are spared
  (pkg/framework/reclaim.go:129-130). The code spares only those strictly above it
  (pkg/framework/reclaim.go:169), and in both runs of `VainEvictions` the victim has the very priority
  of the pod it is evicted for. `Victims.SparesExact` says exactly when a selection spares that
  priority: when the cheaper candidates cover the need by themselves.
- The comment on the order of scheduling units promises a strict weak order that keeps gangs
  contiguous (pkg/queue/sort.go:67-74). Each promise depends on the keys the members of a gang
  carry, and only on those the policy reads: `Ordering.StrictWeakExact`, `Ordering.ContiguityExact` and
  `Ordering.BothExact` give the exact conditions, and `Ordering.DisagreementMakesCycle` is a cycle.

## Modelling choices

- Quantities are unbounded integers. A resource vector is a finite map; an absent dimension reads
  as zero in a usage or request and as unlimited in a max.
- Nondeterminism is a parameter or a ghost result: the order a map is walked in, the clock, the
  result of an unstable sort.
- `confirmed` and `inflight` are the source's allocated and allocating.
- Deletions made while a rebuild walks its maps are made on local copies that are installed at the
  end of the same call.
- The builder passes the index it fills along as a value.
- The theorems about evictions assume that each candidate is booked on the leaf it resolves to, for
  its effective request (`Evictions.BookedAsChosen`).
- Node names are non-empty, pod uids are distinct, and disruption budgets have distinct keys.

## Model

| member | source | states |
|---|---|---|
| `Vectors.Add` | pkg/resource/resource.go:89-99 | sums every dimension and stores no zero |
| `Vectors.Sub` | pkg/resource/resource.go:104-114 | subtracts every dimension, possibly below zero, and stores no zero |
| `Vectors.Max` | pkg/resource/resource.go:144-153 | the larger entry per dimension, ignoring negative entries only the second lists |
| `Vectors.SubAdd` | pkg/resource/resource.go:89-114 | subtracting what was just added gives back the same map |
| `Vectors.PruneLoop` | pkg/resource/resource.go:157-163 | the deleting loop leaves exactly the non-zero entries |
| `Vectors.AddLoop` | pkg/resource/resource.go:89-99 | the accumulating loop computes Add |
| `Vectors.SubLoop` | pkg/resource/resource.go:104-114 | the accumulating loop computes Sub |
| `Vectors.MaxLoop` | pkg/resource/resource.go:144-153 | the accumulating loop computes Max |
| `Vectors.ClampNonNeg` | pkg/plugins/capacity/postfilter.go:305-313 | exactly the positive entries |
| `Vectors.Reclaimable` | pkg/framework/reclaim.go:209-217 | exactly the excess over the guarantee, on dimensions that have one |
| `QueueTree.ApplyMoves` | pkg/queue/queue.go:165-192 | reserving and allocating raise a queue's usage by the request, their opposites lower it, and committing only moves it from in-flight to confirmed |
| `Manager.QueueManager.WalkUp` | pkg/queue/queue.go:156-160 | following parent pointers changes exactly the queues on the path to the root |
| `Manager.QueueManager.RollUpFrom` | pkg/queue/queue.go:165-192 | the whole tree's usage after a roll-up is the value-level roll-up |
| `Manager.QueueManager.MutateAt` | pkg/queue/manager.go:383-395 | succeeds exactly on leaves and otherwise changes nothing |
| `Manager.QueueManager.CanFitAt` | pkg/queue/queue.go:224-238 | the loop up the path decides the gate over the whole path |
| `Manager.QueueManager.FitsMaxAt` | pkg/queue/queue.go:244-253 | the loop decides whether the request alone is within max along the path |
| `Manager.QueueManager.WithinMaxAt` | pkg/queue/manager.go:332-348 | true exactly when every queue on the path is at or under its max |
| `Manager.QueueManager.PathHeadroom` | pkg/queue/queue.go:261-271 | the least slack over the path, reached on every listed dimension |
| `Manager.QueueManager.FenceBoundaryOf` | pkg/queue/queue.go:125-134 | the loop finds the boundary defined on paths |
| `Manager.QueueManager.CheckGang` | pkg/queue/gang.go:30-57 | the checks in order, each with its own refusal |
| `Manager.QueueManager.AdmitGang` | pkg/queue/gang.go:30-61 | all-or-nothing check and reserve, as a step on the tree value |
| `Manager.QueueManager.ReleaseGang` | pkg/queue/gang.go:66-78 | gives the hold back along the path and forgets the gang |
| `Engine.Engine.Reserve` | pkg/framework/engine.go:375-389 | one Reserve step: idempotent per pod, refused without a tree or off a leaf |
| `Engine.Engine.Unreserve` | pkg/framework/engine.go:392-403 | one Unreserve step, on reserved bookings only |
| `Engine.Engine.Commit` | pkg/framework/engine.go:406-417 | one Commit step, on reserved bookings only |
| `Engine.Engine.ObserveBound` | pkg/framework/engine.go:422-442 | commits a known pod, allocates an unknown one |
| `Engine.Engine.ObserveDeleted` | pkg/framework/engine.go:445-456 | releases by the booking's state and forgets it |
| `Engine.Engine.GCBookings` | pkg/framework/engine.go:475-492 | deletes exactly the dead pods, in some order, and counts them |
| `Engine.Engine.AdmitGang` | pkg/framework/engine.go:222-241 | one admission step with the ledger checked before the tree |
| `Engine.Engine.AdmitGangWW` | pkg/framework/engine.go:251-291 | one wound-wait step: expiry, holding back, asking, bidding |
| `Engine.Engine.ReleaseGang` | pkg/framework/engine.go:294-304 | releases in the tree and forgets in the ledger |
| `Engine.Engine.GCGangs` | pkg/framework/engine.go:498-514 | releases exactly the dead gangs, in some order, and counts them |
| `Engine.Engine.Rebuild` | pkg/framework/engine.go:189-217 | no tree changes nothing; any tree is seeded on top of what it carries, for some walking orders of both maps; a fresh one makes it one Rebuild step |
| `Engine.SeedPodsInto` | pkg/framework/engine.go:195-206 | replays every booking and drops those whose queue is gone |
| `Engine.SeedGangsInto` | pkg/framework/engine.go:207-213 | re-admits every gang, ignoring refusals, and drops those whose queue is gone |
| `CallLaws.ReserveLaw` | pkg/framework/engine.go:375-389 | a new pod on a live leaf enters the ledger and raises the in-flight usage of exactly the path by its request; every other call changes nothing |
| `CallLaws.UnreserveLaw` | pkg/framework/engine.go:392-403 | a reserved booking leaves the ledger and the path's in-flight usage; anything else is left alone |
| `CallLaws.CommitLaw` | pkg/framework/engine.go:406-417 | a reserved booking becomes committed and moves from in-flight to confirmed on exactly the path |
| `CallLaws.ObserveBoundLaw` | pkg/framework/engine.go:422-442 | a known reserved pod is committed, an unknown one on a queue of the tree enters as committed; otherwise nothing |
| `CallLaws.ObserveDeletedLaw` | pkg/framework/engine.go:445-467 | a known pod leaves the ledger and gives back what its state holds, on exactly the path |
| `CallLaws.GCBookingsLaw` | pkg/framework/engine.go:475-492 | exactly the dead pods leave the ledger, and every counter falls by what was booked for them |
| `CallLaws.GateMeansRoom` | pkg/queue/queue.go:224-238 | the gate passes exactly when, once reserved, every queue of the path is within max on the dimensions both list |
| `GangLaws.AnswerLaw` | pkg/queue/gang.go:30-61 | when a gang may ask, is within every max alone, and has room on top of the usage; only then the tree gains its hold |
| `GangLaws.AdmitGangLaw` | pkg/framework/engine.go:222-241 | exactly then the gang is recorded and held; every other call changes nothing |
| `GangLaws.AdmitGangAnswers` | pkg/framework/engine.go:222-241 | admitted means recorded at that leaf afterwards, and each refusal names the first check that failed |
| `GangLaws.AdmitGangWWLaw` | pkg/framework/engine.go:251-291 | the whole effect in priorities, ages and uids: held back and refreshed, admitted, bid taken over, stale bid dropped |
| `GangLaws.AdmitGangWWAnswers` | pkg/framework/engine.go:251-291 | the same of its answers, with no room for a gang behind a standing bid |
| `GangLaws.NobodyPassesTheBid` | pkg/queue/gang.go:114-122 | over every run, while a bid stands nobody of lower priority, or the same and younger, or the same in both with a larger uid, is newly admitted at its leaf |
| `GangLaws.ReleaseGangLaw` | pkg/framework/engine.go:294-304 | a recorded gang is forgotten and its hold given back on exactly the path |
| `GangLaws.GCGangsLaw` | pkg/framework/engine.go:498-514 | exactly the dead gangs are forgotten, and the in-flight usage falls by their holds |
| `GangLaws.RebuildLaw` | pkg/framework/engine.go:189-217 | which bookings and gangs stay in the ledgers, and what each counter of the new tree shows |
| `Balance.BalancedBook` | pkg/framework/engine.go:375-389 | booking a pod keeps counters equal to ledger sums |
| `Balance.BalancedCommit` | pkg/framework/engine.go:406-417 | so does moving it from in-flight to confirmed |
| `Balance.BalancedUnbook` | pkg/framework/engine.go:460-467 | so does releasing it by its state |
| `Balance.BalancedAdmitGang` | pkg/queue/gang.go:30-61 | so does admitting a gang |
| `Balance.BalancedReleaseGang` | pkg/queue/gang.go:66-78 | so does releasing one |
| `Balance.RebuildInv` | pkg/framework/engine.go:189-217 | a rebuild from any balanced state gives a balanced state |
| `Balance.StepInv` | pkg/framework/engine.go:189-514 | every call keeps the books balanced and the holds recorded |
| `Balance.RunBalanced` | pkg/framework/engine.go:189-514 | in every reachable state the counters equal the ledger sums and the tree's holds are among the ledger's |
| `Balance.RunNonNegative` | pkg/queue/queue.go:156-192 | with non-negative requests no counter is ever negative |
| `Balance.CountsAllExact` | pkg/framework/engine.go:195-206 | the counters equal the sums over the whole ledger if and only if every booking on an interior queue asks for nothing |
| `RoundTrips.RunExact` | pkg/queue/queue.go:165-192 | in every reachable state no counter stores a zero |
| `RoundTrips.MutateBack` | pkg/queue/queue.go:165-192 | a roll-up followed by its opposite restores every queue exactly |
| `RoundTrips.CommitIsAllocate` | pkg/queue/queue.go:176-188 | reserve then commit ends where allocate does |
| `RoundTrips.ReserveUndone` | pkg/framework/engine.go:375-403 | Unreserve restores the whole state before Reserve |
| `RoundTrips.LifecycleUndone` | pkg/framework/engine.go:375-456 | Reserve, Commit and ObserveDeleted together change nothing |
| `RoundTrips.ObservationUndone` | pkg/framework/engine.go:422-456 | ObserveBound of an unknown pod and ObserveDeleted together change nothing |
| `RoundTrips.AdmissionUndone` | pkg/framework/engine.go:222-304 | ReleaseGang restores the whole state before AdmitGang |
| `Limits.ReserveWithinMax` | pkg/queue/queue.go:165-238 | a reservation behind the gate keeps every queue of the tree within max |
| `Limits.GatedStepWithinMax` | pkg/queue/gang.go:52-60 | so does every gated call |
| `Limits.RunWithinMax` | pkg/queue/manager.go:332-348 | in every gated run over a fresh tree no queue ever exceeds its max |
| `Limits.RebuildKeepsGang` | pkg/framework/engine.go:189-217 | a gang on a surviving leaf loses its hold only if the ledger over-commits its path |
| `Limits.RebuildMaximal` | pkg/framework/engine.go:207-213 | a gang on a live leaf without a hold after a rebuild does not fit the finished tree, whatever the walking order |
| `Limits.RebuildKeepsAllGangs` | pkg/framework/engine.go:189-217 | all holds are kept if and only if every gang's queue is a leaf and the ledger fits along its path |
| `Limits.RebuildUsage` | pkg/framework/engine.go:189-217 | when all holds are kept each queue's usage is the ledger sum |
| `Counterexamples.RebuildCanLoseHold` | pkg/framework/engine.go:207-213 | a run after which the gang ledger lists a gang whose hold is gone from the tree |
| `Counterexamples.BookingCountsNowhere` | pkg/framework/engine.go:195-206 | a run after which a booking sits on an interior queue and every counter is zero |
| `Counterexamples.BidOutlivesTimeout` | pkg/framework/engine.go:264-273 | for every positive timeout and every span, a run in which the holder asks once and its bid still stands that much later |
| `WoundWait.WoundWaitOrder` | pkg/queue/gang.go:114-122 | the ranking is a strict total order |
| `WoundWait.OtherCallsKeepBid` | pkg/framework/engine.go:264-291 | only a contending call at the leaf touches its bid |
| `WoundWait.BidStep` | pkg/framework/engine.go:264-291 | a bid is lost exactly when it expires or its holder is admitted, and is never outflanked |
| `WoundWait.BidReign` | pkg/framework/engine.go:264-291 | over every run a standing bid's rank never falls and no lower-ranked gang is admitted |
| `WoundWait.BidSurvives` | pkg/framework/engine.go:264-290 | under steady contention from below the bid survives for ever and shuts everyone out |
| `Victims.SelectFeasible` | pkg/queue/preemption.go:41-85 | non-empty exactly when all preemptable candidates together cover the need |
| `Victims.SelectMinimalCover` | pkg/queue/preemption.go:41-85 | the answer covers the need and no single victim can be spared |
| `Victims.SelectBottleneck` | pkg/queue/preemption.go:53-84 | every covering set holds a victim at least as important as each selected one |
| `Victims.SparesExact` | pkg/framework/reclaim.go:168-171 | the selection stays below a priority if and only if the preemptable candidates below it cover the need |
| `Victims.TrimMinimal` | pkg/queue/preemption.go:76-84 | the backward trim keeps a cover and leaves only essential victims |
| `VictimOrder.GreedyOrder` | pkg/queue/preemption.go:51-72 | whoever the greedy pick passes over has a higher priority than each one picked, or the same and no larger contribution |
| `VictimOrder.FewestVictims` | pkg/queue/preemption.go:41-85 | for one needed dimension and candidates of one priority, no covering set is smaller than the answer |
| `VictimOrder.TrimIsSpare` | pkg/queue/preemption.go:76-84 | from the last taken to the first, a victim is dropped exactly when those left without it still cover the need |
| `VictimOrder.SelectSpares` | pkg/queue/preemption.go:41-85 | the same of the whole selection |
| `VictimsInPlace.ContributionLoop` | pkg/queue/preemption.go:90-96 | the loop sums the request over the needed dimensions |
| `VictimsInPlace.TrimInPlace` | pkg/queue/preemption.go:76-84 | removing from the array while walking backward computes the trim |
| `VictimsInPlace.SelectVictims` | pkg/queue/preemption.go:41-85 | the imperative form computes Select |
| `Fences.PrefixIsDescent` | pkg/queue/manager.go:312-314 | the dotted-prefix test holds exactly for descendants-or-self |
| `Fences.BoundaryNearest` | pkg/queue/queue.go:125-134 | the boundary is the nearest fence at or above, and never the root for a queue below it |
| `Fences.WithinFenceIsSubtree` | pkg/queue/manager.go:299-307 | within the fence means in the subtree of the boundary |
| `Fences.BoundaryLaw` | pkg/queue/queue.go:111-134 | the boundary is the one queue at or above the asker that is marked as a fence, or hangs off the root, with no such queue beneath it |
| `Paths.NamespaceExact` | pkg/queue/manager.go:126-132 | a path has a namespace exactly when it is at or below that namespace's queue |
| `Fences.FenceConfinesNamespace` | pkg/queue/queue.go:111-134 | an asker below the root never reaches another namespace |
| `Headroom.HeadroomIsGate` | pkg/queue/queue.go:209-271 | for every request, comparing with headroom is the gate on its positive part |
| `Headroom.HeadroomAgrees` | pkg/queue/queue.go:209-271 | on positive requests the two agree, even over max |
| `Headroom.HeadroomExact` | pkg/queue/queue.go:209-271 | the gate passes a request if and only if headroom does and every queue of the path has room for the entries that are not positive |
| `Headroom.HeadroomDiffersAtZero` | pkg/queue/queue.go:209-271 | in every tree with a queue of the path over max, the gate refuses a zero entry that headroom allows |
| `TreeBuild.AcceptedIsWellFormed` | pkg/queue/manager.go:136-201 | every accepted spec describes a well-formed tree |
| `TreeBuild.SiblingsApart` | pkg/queue/manager.go:136-201 | different siblings root disjoint sets of paths |
| `SpecLaws.AcceptsExact` | pkg/queue/manager.go:136-201 | accepted exactly when every queue of the spec has a proper name, no negative amount, distinct children within its max, and guarantees that cover theirs |
| `SpecLaws.TreeLaw` | pkg/queue/manager.go:136-201 | a node for every queue of the spec, at its path, with its own settings, and no other node |
| `Construction.Build` | pkg/queue/manager.go:136-201 | succeeds exactly on accepted specs and then adds one linked queue object per queue |
| `Construction.BuildChildren` | pkg/queue/manager.go:177-191 | accepts exactly the children with fresh names, smaller max and accepted specs |
| `Construction.NewManager` | pkg/queue/manager.go:63-79 | succeeds exactly on accepted specs with valid placement, giving an unused well-formed tree |
| `Placement.ValidatePlacement` | pkg/queue/manager.go:85-122 | the two-map walk accepts exactly the valid placements |
| `Placement.PlacementExact` | pkg/queue/manager.go:85-122 | valid exactly when routed queues are leaves of a namespace, and two queues of one namespace share no account and are not both the default |
| `Placement.RouteLaw` | pkg/queue/placement/placement.go:35-55 | an identity resolves to a leaf exactly when that leaf lists its account, or is the default and no leaf lists it |
| `Placement.RouteUnique` | pkg/queue/manager.go:85-122 | after validation there is only one answer to an identity |
| `Placement.Resolve` | pkg/queue/placement/placement.go:35-55 | an exact match, else the default, else an error, in whatever order the leaves come |
| `Request.EffectiveRequest` | pkg/resource/request.go:74-102 | per dimension the least request that holds the pod in its steady state and every init phase, plus overhead |
| `Ordering.SortedLaw` | pkg/queue/sort.go:75-104 | in a sorted sequence blocks stand by the policy's key, priority, submit time and name, and the units of a block by submit time and uid |
| `Ordering.GangStaysTogether` | pkg/queue/sort.go:51-104 | members of a gang that carry equal keys have only members of their gang between them |
| `Ordering.LessStrictWeak` | pkg/queue/sort.go:75-104 | a strict weak order, for every policy, on units whose block keys do not contradict their order inside the block |
| `Ordering.StrictWeakExact` | pkg/queue/sort.go:75-104 | for two members of a block, strict weak together with every unit of the other blocks if and only if they are consistent so |
| `Ordering.BetweenExact` | pkg/queue/sort.go:75-104 | the policy's key tells two members of a block apart if and only if some unit of another block falls between them |
| `Ordering.CycleExact` | pkg/queue/sort.go:75-104 | two members and some other unit form a cycle if and only if the key ranks the members against their order inside the block |
| `Ordering.ContiguityExact` | pkg/queue/sort.go:51-104 | a gang is contiguous in every sorted sequence, whatever else is in it, if and only if the keys split no two of its members |
| `Ordering.BothExact` | pkg/queue/sort.go:67-104 | the strict weak order and the contiguity of two members both hold if and only if the policy's key does not tell them apart |
| `Ordering.DisagreementMakesCycle` | pkg/queue/sort.go:60-104 | a cycle of two gang members with different gang submit times and a solo unit |
| `Donors.GroupPods` | pkg/framework/reclaim.go:144-154 | groups hold exactly the reachable pods, each under its leaf |
| `Donors.PickFromDonor` | pkg/framework/reclaim.go:166-180 | within budget, and no candidate is passed over without need |
| `Donors.PickVictims` | pkg/framework/reclaim.go:155-182 | every donor served so, in whatever order the map is walked |
| `Evictions.DeletedUsage` | pkg/framework/engine.go:445-467 | deleting pods lowers each queue by exactly what they were booked for below it |
| `Reclaim.BuildVictims` | pkg/framework/reclaim.go:138-183 | victims are legal donors' pods within budgets, and each pod left out has a reason |
| `Reclaim.ReclaimFor` | pkg/framework/reclaim.go:96-98 | the selection over that pool |
| `Reclaim.SplitPods` | pkg/framework/reclaim.go:61-75 | exactly our staying non-gang pods are considered, split by whether they are placed |
| `Reclaim.ReclaimOnce` | pkg/framework/reclaim.go:50-108 | at most one decision, for a starved pod of the store; every pod served before it, which includes all that outrank it, was not starved or the pool built for it this tick did not suffice |
| `ReclaimLaws.ClaimExact` | pkg/framework/reclaim.go:86-125 | a pod may reclaim exactly when its leaf guarantees something and placing it there keeps the leaf within its guarantee but breaks some max |
| `ReclaimLaws.DecisionWithinGuarantee` | pkg/framework/reclaim.go:110-125 | so the beneficiary of every decision stays within its leaf's guarantee |
| `ReclaimLaws.SkippedExact` | pkg/framework/reclaim.go:86-95 | a pending pod is skipped exactly when it resolves nowhere, fits, would exceed its leaf's guarantee, or its leaf guarantees nothing |
| `ReclaimLaws.TakenWithinExcess` | pkg/framework/reclaim.go:155-182 | no queue gives more than it uses beyond its guarantee |
| `ReclaimLaws.SparedOnlyForNeed` | pkg/framework/reclaim.go:155-182 | a pod within reach is left out only where its queue has no excess or not enough for it |
| `Reclaim.PoolSelection` | pkg/framework/reclaim.go:96-100 | what is selected for a non-negative need is drawn from the pool and covers it |
| `Reclaim.ReclaimVictimsLegal` | pkg/framework/reclaim.go:138-183 | each victim is inside the fence, outside the starved leaf and not more important |
| `Reclaim.EvictionKeepsGuarantee` | pkg/framework/reclaim.go:138-217 | whatever is drawn from the pool, each leaf keeps the smaller of its usage and its guarantee |
| `Reclaim.ReclaimNeverGrows` | pkg/framework/reclaim.go:96-107 | victims out and need in, no queue at the boundary or above grows |
| `Reclaim.ReclaimAdmits` | pkg/framework/reclaim.go:96-107 | such a queue that was within max then has room for the pod |
| `Reclaim.ReclaimAdmitsExact` | pkg/framework/reclaim.go:96-107 | the evictions let the pod in if and only if each queue of its path that lies below the boundary, or was over max, then has room |
| `Reclaim.EvictionInVain` | pkg/framework/reclaim.go:96-107 | a queue of the pod's path without room and with no victim below it keeps the pod out |
| `VainEvictions.FullGroup` | pkg/framework/reclaim.go:86-107 | a run and a sound decision after which a full queue below the boundary keeps the pod out, with the boundary and above within max |
| `VainEvictions.BoundaryOverMax` | pkg/framework/reclaim.go:86-107 | a run and a sound decision after which a boundary over its max keeps the pod out, with room at every queue below it |
| `Preemption.FilterProtected` | pkg/plugins/capacity/postfilter.go:183-217 | no budget is overspent, and each pod dropped met an exhausted budget |
| `Preemption.TryNode` | pkg/plugins/capacity/postfilter.go:75-90 | one node's pool, filter and selection |
| `Preemption.EvictablePodsAre` | pkg/plugins/capacity/postfilter.go:132-145 | exactly the staying non-gang pods of strictly lower priority are considered, each once |
| `Preemption.PostFilter` | pkg/plugins/capacity/postfilter.go:75-96 | of the searches made, one per node, the chosen set is as small as any and smaller than those before it; no choice means none found a set |
| `Preemption.ScreenedSelection` | pkg/plugins/capacity/postfilter.go:80-88 | a set selected on a node is drawn from the pods the budgets leave and covers the deficit |
| `Preemption.PreemptionMakesRoom` | pkg/plugins/capacity/postfilter.go:80-88 | request at most allocatable less requested, or zero, plus freed, on every dimension |
| `Preemption.SearchedExact` | pkg/plugins/capacity/postfilter.go:75-83 | a node is searched exactly when it is in the pool and short of what the pod asks on some dimension |
| `Preemption.FruitlessNode` | pkg/plugins/capacity/postfilter.go:80-91 | a node that is searched in vain would not fit the pod even without any of the pods the budgets leave |
| `Preemption.PreemptionVictimsLegal` | pkg/plugins/capacity/postfilter.go:126-177 | victims are evictable, strictly less important and inside the fence |
| `Preemption.PreemptionKeepsGuarantee` | pkg/plugins/capacity/postfilter.go:126-177 | each leaf keeps the smaller of its usage and its guarantee |
| `Preemption.PreemptionRespectsBudgets` | pkg/plugins/capacity/postfilter.go:183-217 | of the victims each disruption budget covers at most as many as it allows |
| `Preemption.SparedMeans` | pkg/plugins/capacity/postfilter.go:183-217 | a pod is dropped only for a budget that covers it and already covers as many kept ones that matter no more as it allows |
| `Assembly.IndexByName` | pkg/controller/queue/build.go:70-76 | indexes exactly when names are distinct |
| `Assembly.ListChildren` | pkg/controller/queue/build.go:77-85 | lists children exactly when every named parent exists |
| `Assembly.ForestExact` | pkg/controller/queue/build.go:67-123 | the forest holds exactly the queues whose chain reaches the namespace, each once |
| `Assembly.NotItsOwnAncestor` | pkg/controller/queue/build.go:91-109 | the visiting check never fires |
| `SpecLaws.AssembledLaw` | pkg/controller/queue/build.go:67-123 | every queue of the assembled namespace has its resource's settings and, in name order, exactly the resources it is the parent of |
| `Assembly.BuildNamespace` | pkg/controller/queue/build.go:67-123 | terminates; succeeds exactly when names are distinct, parents exist and every chain reaches the namespace; otherwise reports the first repeated name, the first unknown parent, or how many queues are unreached |

## Left out

- Pending counters, count quotas, max applications and limits: plain bookkeeping beside the two counters.
- Access control lists: easy, and no admission path uses them.
- SwapSnapshot, snapshot generations and readiness: one-line state.
- Grouping Queue resources by namespace in BuildSpec and the conversion of limits and quantities: field copies.
- Fixed-width overflow of 64-bit quantities.
- Device claims in requests; pod requests are container, init and overhead vectors.
- Informers, leader election, events, status patches and the eviction API calls: cluster I/O around the decisions.
- The checks for a missing client or tree in front of a reclaim tick.
- The gates in front of the node search (gang progress, reservation delay) and a missing disruption-budget lister.
- Node scoring and dominant-share arithmetic: floating point; shares enter the order as given reals.
- The Permit barrier, gang timeouts and recovery after a restart: they rest on parts of the framework outside the engine.
- Guarantees of interior queues: victim selection does not consult them, so protection is stated for leaves.
