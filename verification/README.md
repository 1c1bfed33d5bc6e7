# gmux in Dafny

gmux lets many jobs share GPU cards: a card is cut into seats, a scheduler decides which jobs hold which seats
and who gives way, seats become hardware compute-unit masks, a ledger bills every second of every share, a
preloaded library caps memory, clients sync their workspaces to a host, and a proxy reads the server name of
outgoing TLS connections. This project models those parts and proves what they promise, over every input, every
reachable state and every interleaving.

Each stateful component comes in two forms. A specification module describes a step as a function on values and
carries the theorems; a class with the program's own fields and loops is proved, method by method, to do exactly
what the specification says. Quantities the program takes from outside (the clock, whether a process starts, the
driver's answers, what a socket delivers, the hash) are parameters.

| files | what they model |
|---|---|
| `Share`, `SeatPicking`, `Cards`, `Fitting`, `Greedy`, `Preemption`, `Smallest`, `SchedulerModel`, `SchedulerLaws`, `DrainLaws`, `QueueLaws`, `MemoryLaws`, `Scheduler` | the scheduler: seat arithmetic, placement, preemption, queue, resize, and its invariant |
| `Instances`, `SmallestInstance`, `TieInstance`, `QueueInstances`, `RefusalInstance` | small schedulers worked out, reached from an empty one |
| `Hosts` | a client choosing among hosts, against what each host's scheduler would do |
| `ComputeMask`, `MaskLaws`, `MaskUnits`, `MaskGaps` | AMD compute-unit masks, the units they light, and the jobs without one |
| `Accounting`, `Ledger`, `AccountingLaws`, `Groupings`, `LedgerRace`, `Billing`, `CardBudget`, `CardKeys`, `RaceBilling`, `RaceRuns` | the ledger, its reports, reports that race with it and with daemon steps, and a budget on them |
| `DaemonModel`, `Daemon`, `DaemonLaws`, `SubmitLaws`, `WhoPays`, `DaemonRuns`, `DaemonRoster`, `DaemonStory`, `StoryInstance` | the daemon driving scheduler and ledger, and whole runs of it |
| `ShimTable`, `Shim`, `ShimThreads` | the memory cap: table, counter, and interleaved threads |
| `SyncModel`, `Store`, `SyncLaws`, `SafePaths`, `SyncRuns` | the content-addressed workspace sync, and where its paths lead |
| `ServerName`, `ClientHello`, `HeadReader` | the ClientHello parser, an encoder it inverts, and the chunked reader |
| `Sums`, `Sorting`, `Lists`, `DivMod` | totals over maps, the library sorts, sequences without repetitions, quotients |

The main results: no card is ever billed for more than itself, across preemptions, resizes, failed launches,
stops and restarts (`DaemonRuns.NoCardOverbilled`), even in a report that races with the daemon
(`RaceRuns.RacingReportWithinCard`); whatever a run bills, it bills to the name and owner some submit gave the
job (`WhoPays.BilledToSubmitter`); a run keeps scheduler, ledger and job states one story exactly when each of
its steps is smooth (`DaemonStory.RunTellsOneStory`); every run of scheduler calls is safe
(`SchedulerLaws.EveryRunValid`); preemption is complete, irredundant and minimax
(`DrainLaws.AdmitPlacesExactly`, `DrainLaws.AdmitSpares`, `Preemption.VictimsMinimax`), and as small as can be
under an exact condition on any number of cards (`Smallest.VictimsFewest`); a release leaves no startable job
waiting (`DrainLaws.ReleaseDrains`), and a run of calls that free nothing keeps it so
(`QueueLaws.RunStaysStuck`); two jobs on a card share no compute unit exactly when both have a mask
(`MaskGaps.ShareNoUnit`), and jobs that hold all engines light every unit that can be dealt evenly
(`MaskUnits.WholeCardLit`); the memory shim's books balance under every interleaving and its table is a map
(`ShimThreads.BooksBalance`, `ShimThreads.CapHolds`, `ShimTable.TableIsMap`); a sync ends in the client's tree
among other clients (`SyncRuns.EverySyncMirrors`) and writes nothing outside its workspace
(`SafePaths.ApplyConfined`); and the server-name parser inverts the encoder through every chunking of the stream
(`HeadReader.HelloArrives`).

Places where the code says less than its comments, or than one would think; the model follows the code:

- `victims` (internal/scheduler/scheduler.go:292-327) speaks of the smallest set. The set it picks cannot spare a
  member and is minimax, but fewer jobs may do: two are pushed off a card where one would have done
  (`SmallestInstance.FewerWouldDo`). For a one-card request over any number of cards, wherever seats decide
  (memory follows seats in the default configuration, or is free as things are: `Smallest.MemorySetAside`), the set
  is smallest if and only if on no card the eligible jobs with most seats there, one fewer than the victims, would
  make room (`Smallest.VictimsFewest`). It is smallest whatever the request needs when on no card an eligible job
  holds more seats than one pushed off before it (`Smallest.VictimsFewestInOrder`), and, gangs included, when the
  eligible jobs are all alike (`Smallest.VictimsFewestAlike`).
- `fit` answers the last `need` error instead of "no fit" when no card is a candidate and some card is too small
  (internal/scheduler/scheduler.go:273-276), so such a job neither preempts nor queues
  (`DrainLaws.TooLargeRefused`), even where pushing another off would place it
  (`RefusalInstance.RefusedThoughRoomCanBeMade`). `DrainLaws.AdmitPlacesExactly` gives the exact condition.
- A preempting `Admit`, a shrinking `Resize`, an `Evict` and putting a card back in service do not drain the
  queue: each can leave a waiting job that would fit (`QueueInstances.PreemptLeavesRoom`,
  `QueueInstances.ShrinkLeavesRoom`, `QueueInstances.EvictLeavesRoom`, `QueueInstances.BackInService`).
- A resized job that is pushed off goes back into the queue with the size it was submitted with
  (internal/daemon/daemon.go:181-188, 291-316), while its record keeps the new one
  (`SubmitLaws.PausedAtOldSize`).
- `safeRel` (internal/session/session.go:320-326) turns away every path with two dots in a row, so also a name like
  `a..b` that stays inside the workspace (`SafePaths.TurnedAway`).
- A client looks for no seat at all for a share at or below the rounding tolerance of a card
  (cmd/gmux/hosts.go:272), where the scheduler takes one: `Hosts.DisagreeIff` says when the two differ.
- A job whose launch fails after a release stays running in the scheduler without ever being launched
  (internal/daemon/daemon.go:249-253; `StoryInstance.RunsUnlaunched`); a submit whose launch fails releases its
  seats and drops the decisions that release made (internal/daemon/daemon.go:193-197); and when a suspended job's
  process ends, the scheduler goes on holding the job (`DaemonStory.ReapPaused`). `DaemonStory.StepIff` says
  exactly which steps keep the story.
- `seatCUMask` gives no mask for an empty bit set (internal/gpu/amd.go:244-246), and `JobEnv` asks for none for a
  job that may burst: such a job runs on every unit of the card, its neighbours' among them.
  `MaskGaps.MaskMissing` says exactly when, and `MaskGaps.OneOfSixtyFour` is an instance.
- Recording a null pointer in the shim's table can cut off other pointers (`ShimTable.RememberNull`,
  `ShimTable.NullLosesPointer`), and a reservation past 64 bits is let through (`ShimThreads.ReserveExact`).

Assumptions, stated where they are used: cards have distinct indices and non-negative memory; requests ask for a
non-negative amount of memory; a new job's id is not in use; the clock does not go back; vendor names are single
words; the driver's pointers are neither 0 nor 1 and not handed out twice at once; each write of a workspace file
has a new modification time; workspace paths are clean.

## Model

| member | source | states |
|---|---|---|
| Share.Seats | internal/share/share.go:23-38 | the fewest seats, from one to all, that cover the share up to the tolerance; an error exactly for a share outside (0, 1] or a card without seats |
| Share.ComputePercent | internal/share/share.go:44-50 | the seats' part of the card in percent to within one half, and at least 1 |
| Share.DefaultMemMiB | internal/share/share.go:54-60 | the seats' part of the card's memory rounded down when that is at least 256 MiB, and 256 MiB otherwise |
| SeatPicking.PickDelivers | internal/scheduler/scheduler.go:196-239 | whenever used seats plus wanted seats fit the card, picking yields exactly that many increasing free seats of the card |
| SeatPicking.PickLowest | internal/scheduler/scheduler.go:215-238 | a new job gets the lowest contiguous free run if one exists, and otherwise seats below every free seat left over |
| SeatPicking.PickKeeps | internal/scheduler/scheduler.go:199-214 | a job keeps all its seats when it grows and a part of them when it shrinks |
| Cards.SeatCount | internal/scheduler/scheduler.go:135-148 | in a safe state the count of used seats is the number of distinct seat ids in use, at most the card's |
| Cards.NeedMeans | internal/scheduler/scheduler.go:150-164 | on a card a request needs the fewest seats that cover its share and the memory it asks for, by default the seats' part and at least 256 MiB; refused for a share out of range and for more memory than the card has |
| Cards.SlotMeans | internal/scheduler/scheduler.go:166-174 | a slot names as many seats as it counts, grants their part of the card, and their part of the threads to the nearest percent, or all of them to a job that may burst |
| Cards.UsageMonotone | internal/scheduler/scheduler.go:135-148 | with fewer jobs every card has no more seats and memory in use |
| Fitting.FitsMonotone | internal/scheduler/scheduler.go:244-290 | a request that fits beside some jobs fits beside any part of them |
| Fitting.NoFitMeans | internal/scheduler/scheduler.go:272-277 | a request that does not fit gets "no fit" exactly when some card takes it or none in service is too small for it |
| Fitting.BestFit | internal/scheduler/scheduler.go:277-289 | the chosen cards take the request, and every other card that takes it leaves at least as many seats, ties going to the lower index |
| Fitting.GangPlaced | internal/scheduler/scheduler.go:244-290 | a placement has a slot for every card asked for, one at least, on different cards in service that take the request |
| Fitting.FitDelivers | internal/scheduler/scheduler.go:166-290 | a placement is complete: one slot per wanted card, distinct cards, the needed seats all free, memory within each card |
| Fitting.PlaceKeepsSafe | internal/scheduler/scheduler.go:360-376 | starting a job where `fit` put it keeps seats disjoint and memory within cards |
| Greedy.ChooseComplete | internal/scheduler/scheduler.go:294-327 | the search finds a choice exactly when some part of the pool makes room |
| Greedy.ChooseMinimal | internal/scheduler/scheduler.go:312-324 | the pruned choice makes room and no member of it can be spared |
| Greedy.ChooseMinimax | internal/scheduler/scheduler.go:292-327 | the costliest member is needed, and every part of the pool that makes room has one at least as costly |
| Smallest.VictimsFewest | internal/scheduler/scheduler.go:292-327 | a one-card request, any number of cards, seats deciding: no fewer eligible jobs than the victims make room if and only if on no card the eligible jobs with most seats there, one fewer than the victims, do |
| Smallest.MemorySetAside | internal/scheduler/scheduler.go:244-271 | seats decide, whoever leaves, on every card where the memory is free as things are or request and jobs take the default at 256 MiB a seat |
| Smallest.VictimsFewestInOrder | internal/scheduler/scheduler.go:292-327 | the victims are as few as can be, whatever the request needs, when on no card an eligible job holds more seats than one pushed off before it |
| Smallest.VictimsFewestAlike | internal/scheduler/scheduler.go:292-327 | and, for gangs too, when on each card all eligible jobs hold the same seats and memory, seats or memory deciding |
| Smallest.FirstHeaviest | internal/scheduler/scheduler.go:292-327 | no k jobs hold more seats together than the k that hold most |
| SmallestInstance.FewerWouldDo | internal/scheduler/scheduler.go:292-293 | a reachable card, all memory by default, where two jobs are pushed off and pushing off a third alone would have made room |
| Preemption.PoolIs | internal/scheduler/scheduler.go:295-306 | the pool lists every eligible job once, in the order they are pushed off |
| Preemption.PoolOrder | internal/scheduler/scheduler.go:295-306 | the pool is the preemptible jobs of lower priority, ordered by priority, and within a priority by later admission |
| TieInstance.NewestGoes | internal/scheduler/scheduler.go:301-306 | of two admitted jobs of one priority the one admitted later is pushed off |
| Preemption.PoolUnique | internal/scheduler/scheduler.go:295-306 | the pool does not depend on the order in which the running jobs are visited |
| Preemption.VictimsComplete | internal/scheduler/scheduler.go:294-327 | victims are found exactly when some set of eligible jobs would make room |
| Preemption.VictimsMinimal | internal/scheduler/scheduler.go:294-327 | victims are eligible, the request fits without them, and sparing any single one makes it not fit |
| Preemption.VictimsMinimax | internal/scheduler/scheduler.go:292-327 | one victim is of the highest priority among them and the oldest of it; it is needed, and every set of eligible jobs that makes room has a job of higher priority, or of the same and no newer |
| SchedulerModel.AdmitKeepsValid | internal/scheduler/scheduler.go:345-376 | admission, with or without preemption, keeps the invariant |
| SchedulerModel.ReleaseKeepsValid | internal/scheduler/scheduler.go:380-405 | eviction, and release with its drain, keep the invariant |
| SchedulerModel.ResizeFails | internal/scheduler/scheduler.go:453-470 | the first slot that cannot be resized decides the error |
| SchedulerModel.MarkDownAt | internal/scheduler/scheduler.go:115-123 | marking changes the first card of that index and no other |
| SchedulerLaws.ResizeKeepsValid | internal/scheduler/scheduler.go:443-473 | a resize keeps the invariant |
| SchedulerLaws.ResizeKeepsSeats | internal/scheduler/scheduler.go:443-473 | growing keeps all old seats, shrinking a part of them, on the same cards; a failed resize changes nothing and no other job is touched |
| SchedulerLaws.ResizedAsks | internal/scheduler/scheduler.go:443-452 | a resized job asks for the new share, the new memory if one is given, and all else as before, and keeps its place in the order |
| SchedulerLaws.ResizeIff | internal/scheduler/scheduler.go:443-473 | a resize is granted if and only if the job runs, the share is in range, and on each of its cards the new seats and memory are free beside the others |
| SchedulerLaws.SetDownAnswers | internal/scheduler/scheduler.go:115-123 | the answer is whether a card has the index; the first such card is marked, and nothing else changes |
| SchedulerLaws.NewMeans | internal/scheduler/scheduler.go:96-105 | a new scheduler has the cards given, eight seats where none are given, and runs nothing |
| SchedulerLaws.CancelMeans | internal/scheduler/scheduler.go:415-423 | a cancel removes the first entry of the job, and answers whether there was one |
| SchedulerLaws.SetDownKeepsValid | internal/scheduler/scheduler.go:115-123 | taking a card out of service or back keeps the invariant |
| SchedulerLaws.EveryRunValid | internal/scheduler/scheduler.go:96-473 | from a fresh scheduler every sequence of calls keeps the invariant |
| SchedulerLaws.ValidMeans | internal/scheduler/scheduler.go:135-239 | what the invariant says card by card: seats and memory within the card, slots with exactly their seats, no seat held twice |
| DrainLaws.DrainMaximal | internal/scheduler/scheduler.go:389-405 | after a drain no job left waiting fits beside the jobs that now run |
| DrainLaws.DrainPartitions | internal/scheduler/scheduler.go:389-405 | started and remaining jobs are an order-preserving partition of the waiting ones |
| DrainLaws.WaitingIs | internal/scheduler/scheduler.go:389-392 | the queue is tried highest priority first and in arrival order within a priority |
| DrainLaws.RequeuedFirst | internal/scheduler/scheduler.go:407-412 | a requeued victim precedes every job of its priority that was already waiting |
| DrainLaws.DrainSettles | internal/scheduler/scheduler.go:389-405 | the answers say where each started job runs, and the rest is again distinct from the running jobs |
| DrainLaws.ReleaseDrains | internal/scheduler/scheduler.go:384-405 | a release leaves no startable job waiting and starts only waiting jobs |
| DrainLaws.ReleasePlaces | internal/scheduler/scheduler.go:384-405 | a release moves nobody and answers with the started jobs' actual placements |
| DrainLaws.ReleaseIdle | internal/scheduler/scheduler.go:384-405 | a release starts nobody exactly when no waiting job fits in the room it leaves |
| DrainLaws.AdmitPlaces | internal/scheduler/scheduler.go:345-376 | a job that fits is placed at once and pushes nobody off; a refused one changes nothing |
| DrainLaws.AdmitPreemptsWhenPossible | internal/scheduler/scheduler.go:355-376 | when nothing fits, the job is placed exactly when some set of lower-priority preemptible jobs would make room; otherwise it queues if it waits, or is refused |
| DrainLaws.AdmitPlacesExactly | internal/scheduler/scheduler.go:345-376 | a job that does not fit as things are is placed if and only if pushing off would make room and some card takes it now or none in service is too small for it |
| DrainLaws.TooLargeRefused | internal/scheduler/scheduler.go:272-277 | a job no card takes and some card is too small for is refused at once: it neither waits nor preempts |
| RefusalInstance.RefusedThoughRoomCanBeMade | internal/scheduler/scheduler.go:272-277 | a reachable state where such a job is refused though it would wait and pushing another off would place it |
| DrainLaws.AdmitMeans | internal/scheduler/scheduler.go:345-376 | those pushed off are preemptible and of lower priority; the placed job has the request it came with and is the newest |
| DrainLaws.NotConsidered | internal/scheduler/scheduler.go:329-354 | a request without an id, with a share out of range, a negative number of cards, the id of a running job or more cards than there are is refused for the first of these, and nothing changes |
| DrainLaws.AdmitSpares | internal/scheduler/scheduler.go:355-376 | only eligible jobs are evicted, everyone else stays put, and no victim could be spared |
| QueueLaws.RunStaysStuck | internal/scheduler/scheduler.go:115-473 | from a state where nobody waiting can start, no state of a run of calls that free nothing has a startable job waiting, and the queue stays free of repetitions and of running jobs |
| QueueLaws.CallKeepsStuck | internal/scheduler/scheduler.go:115-473 | in every state a call seen beforehand to free nothing keeps every waiting job unstartable: an admission that fits or for which no room can be made, a resize that asks for no less, a card taken out of service, a cancel; a release makes it so |
| QueueLaws.PushesNobodyIff | internal/scheduler/scheduler.go:345-376 | an admission pushes nobody off if and only if the job is not considered, fits, cannot be made room for, or is refused as too large |
| QueueLaws.AdmitKeepsStuck | internal/scheduler/scheduler.go:345-376 | such an admission keeps every waiting job unstartable |
| QueueLaws.NoLessGrows | internal/scheduler/scheduler.go:443-473 | a resize to no smaller a share, with the memory left as asked for or no less than the job has on any card, shrinks no slot |
| QueueLaws.ResizeKeepsStuck | internal/scheduler/scheduler.go:443-473 | such a resize keeps every waiting job unstartable |
| QueueLaws.DownKeepsStuck | internal/scheduler/scheduler.go:115-123 | so taking a card out of service |
| QueueInstances.PreemptLeavesRoom | internal/scheduler/scheduler.go:355-376 | an admission that pushes a whole-card job off for half a card leaves a waiting job that fits |
| QueueInstances.ShrinkLeavesRoom | internal/scheduler/scheduler.go:443-473 | so does shrinking a job |
| QueueInstances.EvictLeavesRoom | internal/scheduler/scheduler.go:380-380 | so does evicting one |
| QueueInstances.RequeueFits | internal/scheduler/scheduler.go:407-412 | so does putting a job back in the queue of an idle card |
| QueueInstances.BackInService | internal/scheduler/scheduler.go:115-123 | so does putting a card back in service |
| MemoryLaws.DefaultNeverRefused | internal/share/share.go:54-60 | on a card with 256 MiB a seat where all take the default, passing the seat check is passing the memory check |
| MemoryLaws.MemoryFollowsSeats | internal/scheduler/scheduler.go:135-164 | default jobs hold no larger a part of the memory than of the seats, for any number of jobs |
| SchedulerObject.Scheduler.constructor | internal/scheduler/scheduler.go:96-105 | a new scheduler runs nothing, and cards without seats get the default |
| SchedulerObject.Scheduler.SetDown | internal/scheduler/scheduler.go:115-123 | the loop marks the card the specification marks, or reports that there is none |
| SchedulerObject.Scheduler.Usage | internal/scheduler/scheduler.go:135-148 | the loop over jobs and slots gives the total seats and memory of the jobs not ignored, in any order of the map |
| SchedulerObject.Scheduler.MarkOccupied | internal/scheduler/scheduler.go:176-194 | the array marks exactly the seats in use by the jobs not ignored |
| SchedulerObject.Scheduler.PickSeats | internal/scheduler/scheduler.go:199-239 | the loops over the array choose the seats `SeatPicking.Pick` names |
| SchedulerObject.Scheduler.FindFit | internal/scheduler/scheduler.go:244-290 | the loop over cards and the sort give the placement, or the error, of the specification |
| SchedulerObject.Scheduler.FindVictims | internal/scheduler/scheduler.go:294-327 | the growing and pruning loops find the specification's victims and the slots they open |
| SchedulerObject.Scheduler.Admit | internal/scheduler/scheduler.go:345-376 | new state and answer are those of the specification |
| SchedulerObject.Scheduler.Release | internal/scheduler/scheduler.go:384-387 | new state and started jobs are those of the specification |
| SchedulerObject.Scheduler.Drain | internal/scheduler/scheduler.go:389-405 | the loop starts and keeps the jobs the specification does |
| SchedulerObject.Scheduler.Requeue | internal/scheduler/scheduler.go:409-412 | the job goes to the front of the queue and will wait |
| SchedulerObject.Scheduler.Cancel | internal/scheduler/scheduler.go:415-423 | the first entry of the job leaves the queue, if there is one |
| SchedulerObject.Scheduler.Resize | internal/scheduler/scheduler.go:443-473 | new state and answer are those of the specification |
| SchedulerObject.Scheduler.Available | internal/scheduler/scheduler.go:483-490 | what is left on every card |
| Hosts.BestHost | cmd/gmux/hosts.go:262-282 | -1 when no reachable host has a card with room; otherwise the earliest host with the most seats to spare |
| Hosts.CountsAgree | cmd/gmux/hosts.go:272 | client and scheduler count the same seats exactly when the share is above the tolerance on the card |
| Hosts.RoomAgrees | cmd/gmux/hosts.go:268-276 | where the share is above the tolerance on a card, the client's test of it is the scheduler's |
| Hosts.DisagreeIff | cmd/gmux/hosts.go:268-276 | the two tests differ on a card exactly when the share is not above the tolerance there, the client sees room, and no seat is free or not the memory for one; the scheduler never takes what the client does not see |
| Hosts.TinyShare | cmd/gmux/hosts.go:268-276 | at or below the tolerance the client tests only for the memory asked for, or 256 MiB, and the scheduler for one seat and its memory |
| Hosts.FitAgrees | cmd/gmux/hosts.go:262-282 | for a share above the tolerance on every card, a host's one-card fit succeeds exactly when the client finds room there |
| Hosts.OfferAgrees | cmd/gmux/hosts.go:262-282 | for such a share the client sees room on a card exactly when the scheduler takes the job there, and counts the same seats left |
| Hosts.PlaceRemote | cmd/gmux/hosts.go:286-314 | for such a share the job goes to the earliest of the hosts whose scheduler would place it with the most seats left on a card, and if there is none to the first that answered |
| Hosts.TinyShareDisagrees | cmd/gmux/hosts.go:272 | below the tolerance the client sees room on a full card |
| ComputeMask.SeatCUMask | internal/gpu/amd.go:191-248 | the nested loops set exactly the bits of the mask specification, and no mask for an empty set |
| ComputeMask.Group | internal/gpu/amd.go:203-208 | the map of held offsets is the seats by engine |
| MaskLaws.LayoutMeaning | internal/gpu/amd.go:173-229 | a bit, decoded by chiplet, engine and round, is set exactly when its round belongs to a seat held |
| MaskUnits.EngineUnits | internal/gpu/amd.go:173-229 | whether a unit is in a mask, from units, chiplets, engines and seats alone: of an engine held whole every round there is on all engines, of one held in part the rounds of whole groups that fall to the seats held |
| MaskUnits.UnitsOn | internal/gpu/amd.go:173-229 | how many units a job has of an engine on a chiplet: units / (chiplets * engines) for all seats, units / (chiplets * seats) for each of some |
| MaskUnits.WholeCardLit | internal/gpu/amd.go:173-229 | jobs that together hold every engine whole light just the units below units - units % (chiplets * engines) |
| MaskUnits.BlockUnits | internal/gpu/amd.go:230-236 | in the contiguous layout unit u goes to seat i exactly when i * units < (u + 1) * seats <= (i + 1) * units |
| MaskUnits.WholeCardInBlocks | internal/gpu/amd.go:230-236 | jobs that together hold every seat then light every unit of the card |
| MaskUnits.TwoOfEight | internal/gpu/amd.go:191-229 | an instance: two of eight seats on 304 units get every fourth unit of each chiplet below 288, 72 in all |
| MaskGaps.RunsEverywhere | internal/gpu/amd.go:258-279 | a job that may burst, and one with the whole card, runs on every unit |
| MaskLaws.MasksDisjoint | internal/gpu/amd.go:191-248 | disjoint seats of a card give disjoint masks of units of the card, in both layouts |
| MaskLaws.JobsShareNoUnit | internal/gpu/amd.go:258-279 | in every reachable scheduler state the masks of two jobs on a card, where both have one, share no unit |
| MaskGaps.MaskMissing | internal/gpu/amd.go:191-248 | a job with seats gets no mask if and only if it has the whole card, by units or seats, or no unit falls to its seats: no rounds, or fewer than an engine's seats and no engine held whole, or blocks too short |
| MaskGaps.RunsMasked | internal/gpu/amd.go:258-279 | any other job with less than 99.5 percent of the seats runs on the mask of its seats, if there is one |
| MaskGaps.ShareNoUnit | internal/gpu/amd.go:258-279 | two jobs on a card run on no unit in common if and only if both have a mask and neither may burst |
| MaskGaps.BlocksLit | internal/gpu/amd.go:230-236 | in the contiguous layout a card with a unit for every seat masks every job |
| MaskGaps.OneOfSixtyFour | internal/gpu/amd.go:191-248 | an instance: one seat of 64 on a card of 304 units gets no mask, beside a job that gets one |
| MaskLaws.Balanced | internal/gpu/amd.go:173-229 | on every chiplet a job has the same number of units of an engine: all rounds for all its seats, even parts for some, none for none |
| AccountingLaws.ReportAdds | internal/accounting/accounting.go:104-153 | reports on adjoining windows add up to the report on the whole |
| AccountingLaws.RowsAdd | internal/accounting/accounting.go:104-153 | per key, every column of [a, m) plus [m, c) is that of [a, c) |
| AccountingLaws.EndKeepsReports | internal/accounting/accounting.go:63-90 | closing a job at t changes no report whose window ends by t |
| AccountingLaws.EndMeans | internal/accounting/accounting.go:63-90 | closing a job writes its open intervals in order, changed only in their end, which is t or their start where that is later |
| AccountingLaws.RowsStable | internal/accounting/accounting.go:63-90 | nor any row of one |
| AccountingLaws.BeginKeepsReports | internal/accounting/accounting.go:54-60 | opening an interval changes no report whose window ends by its start |
| AccountingLaws.GroupingIrrelevant | internal/accounting/accounting.go:104-153 | the rows of a report total the same under every grouping |
| AccountingLaws.NoRowNoTime | internal/accounting/accounting.go:129-131 | an interval without a row has no time in the window |
| Groupings.ByOwner | internal/accounting/accounting.go:155-166 | the row of an owner is about the intervals of that owner, and "(none)" about those of nobody |
| Groupings.ByVendor | internal/accounting/accounting.go:155-179 | the row of a vendor is about that vendor's cards |
| Groupings.ByJob | internal/accounting/accounting.go:155-162 | the row of a name is about the jobs of that name, and the unnamed job of that id |
| Groupings.OneInterval | internal/accounting/accounting.go:121-146 | an interval counts the time it has inside the window, times its share and its memory |
| Groupings.Columns | internal/accounting/accounting.go:121-146 | the columns are seconds, seconds times share, that in hours, and seconds times memory in GiB hours |
| LedgerObject.Ledger.Begin | internal/accounting/accounting.go:54-60 | the loop appends each interval under its job |
| LedgerObject.Ledger.End | internal/accounting/accounting.go:63-90 | the job's intervals leave memory and go to the file, ended at t or at their start if that is later |
| LedgerObject.Ledger.Gather | internal/accounting/accounting.go:108-119 | the intervals gathered total to the report, whatever the order of the map |
| LedgerObject.Ledger.Tally | internal/accounting/accounting.go:120-146 | the rows hold the totals of the intervals, one for each key with time in the window |
| LedgerObject.Ledger.Usage | internal/accounting/accounting.go:104-153 | the answer is the report: each key with time once, with its totals, largest share first; an unknown grouping is refused |
| LedgerRace.CountsOnce | internal/accounting/accounting.go:54-119 | a report racing with begins and ends over a ledger with any file counts no interval twice, counts every interval in the file when it started and every one open when it gathered, and misses only those not yet written or written since it started |
| Billing.AnyWindow | internal/accounting/accounting.go:104-153 | a budget on what is held at once bounds the report on every window, past or future |
| Billing.BeginBounded | internal/accounting/accounting.go:54-60 | opening an interval that fits under the cap keeps the budget |
| Billing.EndBounded | internal/accounting/accounting.go:63-90 | closing a job keeps the budget and frees what it held |
| CardBudget.RoomToOpen | internal/daemon/daemon.go:201-228 | a placed job without open intervals fits, share and memory, beside all that have |
| CardKeys.CardKeyInjective | internal/accounting/accounting.go:167-168 | two different cards never share a row |
| RaceBilling.ShownWithin | internal/accounting/accounting.go:104-153 | a racing report shows no more than a report on the ledger taken as a whole |
| RaceBilling.InStepWithin | internal/daemon/daemon.go:159-316 | nor does the ledger inside a step, some intervals closed or some not yet opened, show more than at the step's ends |
| DaemonLaws.PauseAllKeeps | internal/daemon/daemon.go:181-188 | suspending the pushed-off jobs closes their intervals and keeps the daemon's invariant |
| DaemonLaws.LaunchKeeps | internal/daemon/daemon.go:201-230 | a launch, successful or not, keeps the invariant |
| DaemonLaws.SubmitKeeps | internal/daemon/daemon.go:159-199 | a submit keeps the invariant: open intervals match placements, budgets hold |
| DaemonLaws.ReapKeeps | internal/daemon/daemon.go:232-254 | so does the end of a process |
| SubmitLaws.SubmitAsks | internal/daemon/daemon.go:159-199 | an accepted submit leaves a request with all the submitted fields, running or last in the queue, and a job of the submitted name and owner; a share that is not positive is a whole card |
| SubmitLaws.SubmitPreempts | internal/daemon/daemon.go:159-199 | a submit that does not fit gets a place if and only if less urgent preemptible jobs can make room for it, by the submitted priority, and some card takes it or none is too small; then it runs if its process starts |
| SubmitLaws.ResizeRecords | internal/daemon/daemon.go:291-316 | a granted resize records the new share and the scheduler's slots, and leaves the submitted request |
| SubmitLaws.PausedAtOldSize | internal/daemon/daemon.go:181-188 | a job pushed off after a resize is queued with the request it was submitted with |
| WhoPays.BilledToSubmitter | internal/daemon/daemon.go:201-230 | in every run every interval written carries the name and owner some submit gave its job |
| DaemonLaws.StopKeeps | internal/daemon/daemon.go:269-288 | so does a stop |
| DaemonLaws.ResizeKeeps | internal/daemon/daemon.go:291-316 | so does a resize |
| DaemonObject.DaemonState.Submit | internal/daemon/daemon.go:159-199 | new state and answer are those of the specification |
| DaemonObject.DaemonState.StartLocked | internal/daemon/daemon.go:201-230 | one interval per slot, each with its own clock reading, opened only if the launch succeeds |
| DaemonObject.DaemonState.PauseVictims | internal/daemon/daemon.go:181-188 | the loop suspends, closes and requeues each victim that has a process |
| DaemonObject.DaemonState.Reap | internal/daemon/daemon.go:232-254 | the job's books close and released jobs that still wait are started |
| DaemonObject.DaemonState.Stop | internal/daemon/daemon.go:269-288 | a queued job is cancelled and forgotten; others end with their process |
| DaemonObject.DaemonState.Resize | internal/daemon/daemon.go:291-316 | a granted resize closes the job's intervals and opens them at the new size; a refused one changes nothing |
| DaemonRuns.RunKeeps | internal/daemon/daemon.go:76-316 | after every run each open interval is backed by a placement with the same job, card, share and memory |
| DaemonRuns.RestartKeeps | internal/daemon/daemon.go:122-128 | a restart on the same file keeps the budgets |
| DaemonRuns.NoCardOverbilled | internal/daemon/daemon.go:159-316 | in every run the row of a card over any window has at most the window in share seconds and the card's memory times the window |
| RaceRuns.StepLeads | internal/daemon/daemon.go:159-316 | a step's ledger operations, performed one after another, give the book after the step, and every closing comes before every opening |
| RaceRuns.PrefixInStep | internal/daemon/daemon.go:159-316 | after any number of a step's operations the ledger is the book before with some jobs closed, or short of openings of the book after |
| RaceRuns.LedgerInStep | internal/accounting/accounting.go:54-119 | a ledger that has seen any part of a run's operations, its own writes and reports in between in any order, is as a whole at or inside one of the run's steps |
| RaceRuns.RacingReportWithinCard | internal/accounting/accounting.go:104-153 | whenever a report gathers during a daemon run, in the middle of a step or not, its row of a card over any window is within the card |
| DaemonStory.RunTellsOneStory | internal/daemon/daemon.go:159-316 | after every step of a run the jobs running in the scheduler, open in the ledger and in state running are the same and the queue holds each queued or paused job once, if and only if every step is smooth |
| DaemonStory.StepIff | internal/daemon/daemon.go:159-316 | a step keeps the story if and only if it is smooth: every step is but a submit whose launch fails and leaves room for somebody waiting, and the end of a process that was suspended or whose room goes to a job that fails to launch |
| DaemonStory.SubmitPlaced | internal/daemon/daemon.go:159-199 | of a placed submit: the launch succeeds, or the release after it starts nobody |
| DaemonStory.NobodyFitsIff | internal/daemon/daemon.go:193-197 | that nobody is started can be told before: no waiting job and none pushed off fits once the new job is gone |
| DaemonStory.ReapIff | internal/daemon/daemon.go:232-254 | of the end of a process: its job was running, and every launch its release leads to succeeds |
| DaemonStory.ReapPaused | internal/daemon/daemon.go:232-254 | the end of a suspended job always breaks the story |
| StoryInstance.RunsUnlaunched | internal/daemon/daemon.go:249-253 | a run of three steps after which the scheduler runs a job that was never launched |
| ShimTable.FindRecorded | shim/gmux_shim.c:139-146 | a recorded pointer is found from its home place |
| ShimTable.RememberAdds | shim/gmux_shim.c:132-137 | with a place free, recording a new pointer adds it and changes no other |
| ShimTable.ForgetRemoves | shim/gmux_shim.c:139-146 | forgetting answers the recorded size, or 0, and removes that pointer alone |
| ShimTable.RoomToRemember | shim/gmux_shim.c:126-137 | with fewer than 65536 pointers every search for a place succeeds |
| ShimTable.TableIsMap | shim/gmux_shim.c:124-146 | after any sequence of calls the table and its answers are those of a map |
| ShimTable.RememberNull | shim/gmux_shim.c:132-137 | recording a null pointer keeps the table sound exactly when no recorded pointer is searched across its place |
| ShimTable.NullLosesPointer | shim/gmux_shim.c:132-146 | after two calls of remember and one of forget on an empty table, recording the null pointer makes a recorded pointer answer 0 |
| ShimObject.Shim.Cap | shim/gmux_shim.c:27-34 | reserves exactly as the 64-bit specification, a limit of 0 admitting all |
| ShimObject.Shim.Uncap | shim/gmux_shim.c:36-40 | gives bytes back, never below zero |
| ShimObject.Shim.Remember | shim/gmux_shim.c:132-137 | the probing loop writes the place the specification names, or nothing in a full table |
| ShimObject.Shim.Forget | shim/gmux_shim.c:139-146 | the probing loop finds and clears what the specification does |
| ShimObject.Shim.HookedAlloc | shim/gmux_shim.c:148-154 | out of memory leaves all as it was, a failed driver call gives the bytes back, a success records the pointer |
| ShimObject.Shim.HookedFree | shim/gmux_shim.c:156-160 | the recorded size is given back and the pointer forgotten |
| ShimObject.FreeUndoesAlloc | shim/gmux_shim.c:148-160 | a free finds the size its allocation recorded and restores the table's contents |
| ShimThreads.NoClamp | shim/gmux_shim.c:36-40 | what a thread gives back was counted, so the clamp never acts |
| ShimThreads.StepKeepsBooks | shim/gmux_shim.c:110-160 | every critical section keeps used equal to recorded plus in flight plus lost to a full table, within the limit |
| ShimThreads.BooksBalance | shim/gmux_shim.c:110-160 | so after every interleaving, whatever is freed however often, the books balance and used never passes the limit |
| ShimThreads.ReserveExact | shim/gmux_shim.c:27-34 | a reservation is decided and counted right exactly when the sum stays within 64 bits |
| ShimThreads.OverflowAdmits | shim/gmux_shim.c:31 | an instance: under a limit of two bytes a reservation of nearly the whole address space is granted |
| ShimThreads.StepKeepsFaithful | shim/gmux_shim.c:110-160 | every live pointer stays recorded, or in exactly one thread's hands, with its size |
| ShimThreads.CapHolds | shim/gmux_shim.c:110-160 | what the driver has out exceeds the limit at most by the frees on their way, and each free will find its size |
| SyncLaws.ApplyKeeps | internal/session/session.go:151-215 | an apply, failed or not, leaves blobs honest and skip records believable |
| SyncLaws.GoesThrough | internal/session/session.go:165-172 | a manifest goes through exactly when each path is safe and each blob is there |
| SyncLaws.ApplyMatches | internal/session/session.go:151-215 | a pruning apply that goes through leaves just the manifest's files with its hashes and modes, and no other session changed |
| SyncLaws.IncrementalIsFull | internal/session/session.go:179-195 | skipping untouched files leaves the workspace a full rewrite leaves |
| SyncLaws.ApplyAdds | internal/session/session.go:151-215 | an apply without pruning adds the manifest's files to what is there; a failed one adds those before the first file out of order and keeps the old record |
| SafePaths.SafeIsOrdinary | internal/session/session.go:320-326 | a path is taken exactly when it is not empty, does not start at the root and has no two dots in a row |
| SafePaths.ApplyConfined | internal/session/session.go:151-215 | an apply, gone through or not, writes only along paths that, segment by segment, never leave the workspace, and touches no other session |
| SafePaths.ApplyGoes | internal/session/session.go:151-215 | it goes through exactly for a plain session name, such paths, and stored blobs |
| SafePaths.UpRefused | internal/session/session.go:165-168 | a path with a ".." segment ends it, is named when nothing before it is wrong, and what is there stays |
| SafePaths.SessionName | internal/session/session.go:313-318 | a session's name is one directory name without slash, backslash or dot |
| SafePaths.BlobName | internal/session/session.go:301-311 | a blob's name is 64 digits or letters a to f |
| SafePaths.TurnedAway | internal/session/session.go:320-326 | a name with two dots inside is turned away though it stays inside |
| SyncRuns.PutKeeps | internal/session/session.go:123-146 | only bytes that hash to their name are stored, and nothing stored is lost |
| SyncRuns.StepKeeps | internal/remote/client.go:140-179 | whatever a client's manifest names stays on the host or on its list to upload, under every step of anyone |
| SyncRuns.SyncEnds | internal/remote/client.go:172-179 | after its uploads an apply never lacks a blob; it goes through exactly for a plain session name and ordinary paths, and then mirrors the tree |
| SyncRuns.EverySyncMirrors | internal/remote/client.go:140-179 | the same after every interleaving with other clients and with jobs |
| StoreObject.Store.Missing | internal/session/session.go:84-99 | exactly the valid hashes named and not stored, each once, in order |
| StoreObject.Store.PutBlobFrom | internal/session/session.go:123-146 | bytes are stored exactly when the name is a hash and theirs |
| StoreObject.Store.Apply | internal/session/session.go:151-215 | new state and problem are those of the specification |
| StoreObject.Sync | internal/remote/client.go:140-179 | ask, upload, apply: success leaves just the manifest's files; with honest files it fails only for unsafe names |
| ServerName.SNI | internal/fence/proxy.go:75-134 | the cursor loops find the name the specification names |
| ServerName.PrefixSafe | internal/fence/proxy.go:75-134 | a truncated stream gives the same name or none, for every byte string |
| ServerName.TrailingIgnored | internal/fence/proxy.go:79-83 | bytes after the first record never matter |
| ClientHello.ParserInvertsEncoder | internal/fence/proxy.go:75-134 | for every well-formed single-record hello the parser finds the first host name, wherever its extension sits |
| ClientHello.HelloNamed | internal/fence/proxy.go:75-134 | one ASCII host name is found, a prefix gives it or nothing, and trailing bytes change nothing |
| ClientHello.HelloUnreadable | internal/fence/proxy.go:120-128 | a host name with a byte that is not ASCII gives no name |
| HeadReader.ReadHead | internal/fence/proxy.go:255-273 | the reading loop returns what the specification reads, and whether the connection failed first |
| HeadReader.HeadCovers | internal/fence/proxy.go:255-273 | what is read is a prefix of what is sent, and all of it, or a whole head, or the most ever read |
| HeadReader.WholeIs | internal/fence/proxy.go:262-268 | a head ends with the record its header announces, or with a blank line |
| HeadReader.ReadsNoMore | internal/fence/proxy.go:255-273 | once a whole head is there, or 16384 bytes, nothing more is waited for |
| HeadReader.ChunksIrrelevant | internal/fence/proxy.go:255-273 | for records of at most 16384 bytes every way the stream arrives gives the same name |
| HeadReader.NeverAnotherName | internal/fence/proxy.go:255-273 | larger records give the same name or none |
| HeadReader.HelloArrives | internal/fence/proxy.go:75-134 | an encoded hello, in any pieces and followed by anything, gives its host name |

## Left out

- Rounding of floating-point numbers: shares, times and rates are real numbers, with the 1e-9 tolerance kept.
- The width of the scheduler's order counter (64 bits) and of its other integers.
- Negative memory in requests, which `validate` lets through; memory asked for is a natural number here.
- A resize of a slot whose card no longer exists: the program would dereference a nil card; here it is an error, and the invariant rules it out.
- Jobs of the daemon are values in a map; pointers handed to clients, which show later changes, are not modelled.
- HTTP, tokens, NDJSON, the command line and the Python SDK.
- Starting, stopping, suspending and waiting for processes: a launch is a step that succeeds or fails, an exit a step of its own.
- The stop of a started job ends its process; that the process then ends is not modelled as a deadline.
- I/O errors of the ledger's file and of workspaces; a ledger line torn in the middle is skipped by the reader and counts as not yet written.
- `Smallest.VictimsFewest`: one card wanted, seats deciding; the smallest set for a gang, or where seats and memory bind independently, is a packing question the program does not try to answer.
- The seccomp supervisor, DNS and HTTP host parsing of the fence.
- Vendor discovery, MPS control and the reading of sysfs; a device's units, chiplets and engines are given.
- Finding the real allocators with `dlsym`; the driver returns a pointer of its choice or an error.
- The shim's freed memory between giving bytes back and the driver's free: counted in `ShimThreads.CapHolds` as frees on their way.
- SHA-256 itself: trees are equal up to the hash, and contents are equal where it does not collide.
- Directories, links, unclean paths, tarballs and the client's hash cache; two applies of one session at the same time.
- Records of more than one TLS fragment, which the parser does not put together either.
