# GPU rental control plane: a verified model

A model, in Dafny, of a service that rents out GPUs: it places deployments on
machines, meters and bills them, moves work over a durable bus, and builds
images. The project proves what the comments in that code promise over whole
runs: no machine is overbooked, nobody pays for more than ran, no cent is lost, no
request is forgotten, no event is skipped, no transfer is paid twice; and, where
that takes care on the callers' side, exactly what care.

Each database transaction is one step. Where calls can get in each other's way, a
service call that makes several is several steps, with anybody else's in between,
and the theorems are about every sequence of steps; what is one step all the same is
listed under "Left out". Tables that the code updates in place are classes whose
methods are proved equal to step functions, and the theorems are about those
functions. Money is in whole cents and millicents. Time is an integer of seconds, or
a real where the code multiplies with it.

| file | what it models |
|---|---|
| `Scheduler.dfy`, `Reservations.dfy`, `Placement.dfy` | node ranking, the reservation ledger, placement as a protocol |
| `Packing.dfy` | capacity alerts, and that the scheduler keeps their promise |
| `Lifecycle.dfy` | states, suspension clock, reaper |
| `Metering.dfy`, `MeterRuns.dfy`, `MeterBills.dfy` | the hourly meter, one pass and whole runs, at most and at least what ran |
| `Bus.dfy`, `Requests.dfy`, `Stranding.dfy` | the durable bus, deployment requests on it, and when one is left behind |
| `AccountEvents.dfy` | numbering, committing and paging of account events |
| `RateLimit.dfy`, `Monitor.dfy` | the rate limiter, the billing monitor |
| `AutoResume.dfy` | resuming after a top-up |
| `Deposits.dfy`, `Crediting.dfy`, `Payments.dfy` | whose an on-chain payment is, and paying it once |
| `Statements.dfy`, `RateText.dfy` | statements that add up, rates read back from charge texts |
| `Builder.dfy`, `BuildRuns.dfy`, `BuildRaces.dfy`, `BuildWorker.dfy` | the staged build pipeline, its runs, those that go wrong, and its worker |
| `Common.dfy` | shared vocabulary |

`dafny verify dfyconfig.toml` checks all of it.

## Where the code does less than it says

Each of these is shown by an input or a run. Beside it stands the exact condition
under which a step, or the whole call, keeps the promise.

- Resume checks for room and writes its hold without the placement lock: two resumes
  can overbook (`SplitResumeOverbooks`); a write is safe iff there is still room
  (`LateResumeSafeIff`).
- A READY report saves the state and stamps `billable_since` in two transactions; a
  metering pass between them bills the pause (`PassBeforeStampOverbills`), iff it
  looks back beyond the first (`BillFitsIff`, `LatePassOverbillsIff`).
- An owner whose account row is missing makes the meter lose whole cents, although
  the comment says none are (`MissingOwnerLosesCents`, `ChargeConservesIff`), and so
  does a meter that dies between its transactions (`InterruptedChargeConservesIff`).
- `hourly_charge_cents` says it follows the meter's own rules; for a workload with
  no GPU it forecasts one and the meter charges none
  (`ForecastIsTheMetersRateIff`).
- A request can be stranded by a whole-row save of a deployment read while PENDING
  (`StaleSaveStrands`), a crash between saving and publishing
  (`CrashBeforePublishStrands`) and a stale requeue under a live handler
  (`LateMarkStrands`); `SafeIffNeverStrands` says when each is harmless.
- A rename saves the whole row it read, suspension clock included
  (`LateRenameBringsClockBack`, `SaveKeepsClocksIff`).
- The unique index on invoice amounts compares addresses as spelled, the match
  ignores case (`RespelledAddressIsAmbiguous`, `AtMostOneExactIff`), and the fallback
  amount can be taken (`FallbackCanCollide`, `PickUnits`).
- A transfer can be paid by the watcher and by an administrator, or by two
  administrators in two currencies, when one pays after the other has looked
  (`ConfirmedMeanwhilePaysTwice`, `TwoCurrenciesPayTwice`, `StaleLookPaysTwiceIff`);
  and without any haste when a hash is typed with a space around it, which no later
  look finds (`PaddedHashPaysTwice`, `ManualFoundIff`).
- A private model whose name contains a rate is read at that rate
  (`NameCanMislead`, `ModelRoundTripIff`).
- Cancelling, retrying and working on a build each save the whole row they read
  before: a cancel can be lost to the worker and to a retry, and a publication to a
  retry and to a cancel (`CancelLostInPreparation`, `CancelLostInStage`,
  `CancelLostToRetry`, `PublishedCanBeLost`, `TwoAttemptsPublish`); `CancelledLastsIff`
  and `PublishedLastsIff` say when they last.
- A cancel stops the job after it has saved the build: if the worker has saved over
  it in between, the build is left building for good (`StopStrandsBuild`), and so is
  one revived by a retry for an attempt that has ended (`RevivedBuildWaits`);
  `StepLeavesIff` says exactly which steps do that.

## Model

| member | source | states |
|---|---|---|
| Placement.NeverOverbooked | services/control-plane/src/greencompute_control_plane/application/services.py:321-391 | in every interleaving of multi-step placements with resumes, releases, deletions, the reclaim sweep and arbitrary heartbeats, the active holds on a machine never exceed its GPUs, and a deployment has one hold; resumes may write apart from their check as long as there is still room |
| Placement.HoldFitsIff | services/control-plane/src/greencompute_control_plane/infrastructure/repository.py:337-369 | writing a hold keeps every machine within capacity exactly when the test made under `capacity_gpus` passes |
| Placement.UndisturbedPlacementHolds | services/control-plane/src/greencompute_control_plane/application/services.py:350-391 | a placement nobody interleaves with succeeds exactly when some listed node can take the workload; its hold is on the first of the best nodes and the reported count drops by its GPUs |
| Placement.SplitResumeOverbooks | services/control-plane/src/greencompute_control_plane/application/services.py:1149-1159 | a run from an empty ledger in which two resumes, both checked before either writes, overbook a machine, for every machine and size |
| Placement.LateResumeSafeIff | services/control-plane/src/greencompute_control_plane/application/services.py:1149-1159 | the late, unchecked write of a resume keeps all machines within capacity exactly when its node still has the room |
| Placement.ResumeAtOnceHasRoom | services/control-plane/src/greencompute_control_plane/application/services.py:1149-1159 | directly after its check a resume has the room, and then writes what the one-step resume writes |
| Placement.ReportsMove | services/control-plane/src/greencompute_control_plane/application/services.py:1149-1159 | a resume is admitted exactly when report and holds leave it room, and lowers the report; a heartbeat overwrites it |
| Placement.FreedIsFree | services/control-plane/src/greencompute_control_plane/infrastructure/repository.py:371-411 | after a release, a deletion or the sweep a machine holds exactly what its other deployments hold |
| Placement.ListedAsReported | services/control-plane/src/greencompute_control_plane/application/services.py:321-391 | what a worker lists is the machine as registered and reported at that moment |
| Ledger.PutHeld | services/control-plane/src/greencompute_control_plane/infrastructure/repository.py:337-369 | what a reservation does to every node's total, wherever its deployment held before |
| Ledger.ReleasedHeld | services/control-plane/src/greencompute_control_plane/infrastructure/repository.py:392-411 | releasing a set of deployments frees exactly their GPUs on every node |
| Ledger.DeletedHeld | services/control-plane/src/greencompute_control_plane/infrastructure/repository.py:527-565 | deleting a workload's reservations frees the same |
| Ledger.ByNodeIsHeld | services/control-plane/src/greencompute_control_plane/infrastructure/repository.py:431-447 | the grouped query is, node by node, the sum of the active holds; absent nodes hold nothing |
| Ledger.ReservationTable.ReserveGpus | services/control-plane/src/greencompute_control_plane/infrastructure/repository.py:314-369 | refused exactly when a given capacity would be exceeded by everybody else's holds plus this one; else the new total of every node; a refusal changes nothing |
| Ledger.ReservationTable.ReleaseReservation | services/control-plane/src/greencompute_control_plane/infrastructure/repository.py:371-390 | the row becomes released, all others stay; true exactly when it was active |
| Ledger.ReservationTable.ReleaseOrphaned | services/control-plane/src/greencompute_control_plane/infrastructure/repository.py:392-411 | exactly the holds of gone or ended deployments are released, and counted |
| Ledger.OrphanCounts | services/control-plane/src/greencompute_control_plane/infrastructure/repository.py:396-420 | what counts as an orphaned hold |
| Ledger.ReservationTable.ReservedGpusByNode | services/control-plane/src/greencompute_control_plane/infrastructure/repository.py:431-447 | the map returned gives every node's held GPUs |
| Scheduler.NormalizeIgnoresSpelling | services/control-plane/src/greencompute_control_plane/domain/scheduler.py:11-22 | a canonical GPU id is its own canonical id, and separators anywhere do not matter |
| Scheduler.NormalizeKeeps | services/control-plane/src/greencompute_control_plane/domain/scheduler.py:11-22 | nothing but separators is dropped: small letters and digits stay as they are |
| Scheduler.NormalizeFolds | services/control-plane/src/greencompute_control_plane/domain/scheduler.py:11-22 | a capital letter counts as its small one, wherever it stands |
| Scheduler.ScoreWeighs | services/control-plane/src/greencompute_control_plane/domain/scheduler.py:94-100 | health, reliability and performance weigh 0.4, 0.3 and 0.2, and cost a tenth of 1 / (1 + cost) |
| Scheduler.RankedMeet | services/control-plane/src/greencompute_control_plane/domain/scheduler.py:54-93 | every node ranked has the GPUs free by heartbeat and by ledger, the VRAM, cores and memory, accepts the kind and is one of the models asked for; every node not ranked fails a named one of these |
| Scheduler.RankNodes | services/control-plane/src/greencompute_control_plane/domain/scheduler.py:47-102 | the ranking holds exactly the feasible nodes with their scores, by falling score, and nodes of one score in the order they were listed |
| Scheduler.SortFallingSorts | services/control-plane/src/greencompute_control_plane/domain/scheduler.py:102-102 | the stable sort orders and permutes |
| Scheduler.SortIsStable | services/control-plane/src/greencompute_control_plane/domain/scheduler.py:102-102 | candidates of one score stay in order |
| Scheduler.ChooseFirstBest | services/control-plane/src/greencompute_control_plane/domain/scheduler.py:104-120 | the node picked is feasible, no feasible node scores more, none listed before it scores as much; none is picked exactly when none is feasible |
| Scheduler.AssignLease | services/control-plane/src/greencompute_control_plane/domain/scheduler.py:104-120 | the same for the lease that is returned, in the node's and the workload's own figures; without a lease every listed node fails a named requirement |
| Packing.Fits | services/gateway/src/greencompute_gateway/application/capacity_alerts.py:155-157 | true exactly when `count` rentals of `gpu_count` GPUs, each on one machine, can be packed |
| Packing.RoomIsPacking | services/gateway/src/greencompute_gateway/application/capacity_alerts.py:155-157 | the sum of quotients reaches `count` exactly when such a packing exists |
| Packing.AnyOrderFits | services/gateway/src/greencompute_gateway/application/capacity_alerts.py:155-157 | however the first k rentals were spread, a further one fits exactly while k is below the sum: no order gets stuck early or late |
| Packing.AssignTakesOne | services/control-plane/src/greencompute_control_plane/domain/scheduler.py:30-43 | one whole placement of the scheduler on otherwise equal machines lowers the sum by exactly one, or changes nothing when it is zero |
| Packing.AlertKeepsItsPromise | services/control-plane/src/greencompute_control_plane/application/services.py:257-269 | of any new deployments placed back to back exactly the first `sum` get a hold, each of its full size on one machine of the fleet |
| Packing.FreeByModel | services/gateway/src/greencompute_gateway/application/capacity_alerts.py:143-152 | under each canonical model, the free GPUs of exactly its machines that have any, in order |
| Packing.FullMachinesDoNotCount | services/gateway/src/greencompute_gateway/application/capacity_alerts.py:143-152 | leaving out full machines does not change the alert's answer |
| Lifecycle.ClocksAlwaysRight | services/control-plane/src/greencompute_control_plane/application/services.py:440-544 | over every life from creation: READY has no suspension clock, SUSPENDED has the time of the report that left READY, `billable_since` is when the row last became READY |
| Lifecycle.RowsAlwaysRight | services/control-plane/src/greencompute_control_plane/infrastructure/repository.py:619-660 | with reads and whole-row saves apart, in every interleaving and however late the saves: READY has no suspension clock, SUSPENDED has one, both have been READY |
| Lifecycle.SaveKeepsClocksIff | services/control-plane/src/greencompute_control_plane/application/services.py:419-438 | a late save keeps the clocks right exactly when, since it read the row, the row has not become READY for the first time and, if it stays suspended, has not been suspended anew |
| Lifecycle.ClocksRightIfCurrent | services/control-plane/src/greencompute_control_plane/application/services.py:440-544 | in every interleaving whose saves are such, the clocks are right throughout |
| Lifecycle.UndisturbedIsCurrent | services/control-plane/src/greencompute_control_plane/application/services.py:440-544 | a call with nobody in between is such, and does what the one-step report does |
| Lifecycle.ReadThenSaveIsStep | services/control-plane/src/greencompute_control_plane/application/services.py:440-544 | a read followed by its save is the one-step report |
| Lifecycle.RefusedSavesNothing | services/control-plane/src/greencompute_control_plane/application/services.py:457-466 | an ignored or refused report writes nothing, however late |
| Lifecycle.LateRenameBringsClockBack | services/control-plane/src/greencompute_control_plane/application/services.py:419-438 | a rename that read a suspended row brings its old clock back after a resume and a second suspension |
| Lifecycle.ReReportsKeepTheClock | services/control-plane/src/greencompute_control_plane/application/services.py:498-511 | suspended again by any reports, a row keeps its first suspension time |
| Lifecycle.ReportsRespectTheTable | services/control-plane/src/greencompute_control_plane/domain/state.py:8-35 | reports never revive an ended row, never make one PENDING, and suspend only from READY |
| Lifecycle.TransitionIs | services/control-plane/src/greencompute_control_plane/domain/state.py:8-35 | the table entry by entry, over the stages of a start: which transitions there are and that there are no others |
| Lifecycle.SavedReportIs | services/control-plane/src/greencompute_control_plane/application/services.py:463-544 | what a saved report makes of the row: state, instances, error text, and both clocks |
| Lifecycle.DirectWritesAre | services/control-plane/src/greencompute_control_plane/application/services.py:1607-1711 | the writes around the reports: creation, requeue, clean-up, placement and resume, none of which touches a clock |
| Lifecycle.DueByAge | services/control-plane/src/greencompute_control_plane/application/services.py:2136-2160 | the age test of the reaper and the `deletes_at` the owner is told agree, and a due row can be ended |
| Lifecycle.TermsAre | services/control-plane/src/greencompute_control_plane/application/services.py:2136-2160 | who is told a time and a charge, which charge, and when the time is |
| Lifecycle.ReapedIs | services/control-plane/src/greencompute_control_plane/application/services.py:2248-2256 | an ended row in its own fields |
| Lifecycle.ReaperReachesAll | services/control-plane/src/greencompute_control_plane/application/services.py:2217-2261 | a sweep over the suspended rows ends exactly the due ones of the whole table |
| Lifecycle.DueAre | services/control-plane/src/greencompute_control_plane/application/services.py:2217-2261 | the list a sweep returns names the due rows |
| Lifecycle.DeploymentTable.UpdateStatus | services/control-plane/src/greencompute_control_plane/application/services.py:440-511 | not found, ignored after the end, saved exactly for the transitions listed by stage, else refused; the table then differs in that row only |
| Lifecycle.DeploymentTable.ReapExhausted | services/control-plane/src/greencompute_control_plane/application/services.py:2217-2261 | a row is ended exactly when now is at or past its `deletes_at`; everything else is untouched; returns the ended ones in order |
| Lifecycle.DeploymentTable.ReapOne | services/control-plane/src/greencompute_control_plane/application/services.py:2230-2261 | one row of the sweep |
| MeterRuns.NeverBilledMoreThanItRan | services/control-plane/src/greencompute_control_plane/application/services.py:1926-1958 | over every run of suspends, resumes, relocked rates, silent machines and capped passes in which passes are in time, seconds billed never exceed seconds READY; only a pass between the two writes of a READY report can be out of time |
| MeterBills.BilledAllItRan | services/control-plane/src/greencompute_control_plane/application/services.py:1926-1958 | and over every run whose passes measure the gap since the last, an hour at most, and find the deployment when it is READY, the seconds billed are exactly the seconds READY up to the last pass |
| MeterBills.BillIs | services/control-plane/src/greencompute_control_plane/application/services.py:1926-1985 | over every run a deployment's bill is, pass by pass, the elapsed time cut to an hour and to the time since the stamp, at the row's own cents for each GPU and instance, ten and one if not set |
| MeterBills.PassBills | services/control-plane/src/greencompute_control_plane/application/services.py:1926-1985 | the same for one pass over one row, and which rows it leaves unbilled |
| MeterRuns.NothingLost | services/control-plane/src/greencompute_control_plane/application/services.py:1979-2050 | over every run, millicents accrued are 1000 times the cents in the ledger plus the change of the remainder, and every balance is its opening plus its ledger |
| MeterRuns.PriceIsExact | services/control-plane/src/greencompute_control_plane/application/services.py:1967-1985 | over every run: while no pass fell short, cents debited are the accrued total rounded down; the total is within half a millicent a pass of the exact price of the stretches billed, each at the rate of its time |
| MeterRuns.UsageNeverOverdraws | services/gateway/src/greencompute_gateway/infrastructure/billing_repository.py:125-171 | over every run no charge for usage leaves a balance below zero, and without storage debits nothing else does |
| MeterRuns.DebitsAreLedger | services/control-plane/src/greencompute_control_plane/application/services.py:2033-2041 | what a pass returns as debited is, row by row, what it wrote into the ledger |
| MeterRuns.DebitsArePositive | services/control-plane/src/greencompute_control_plane/application/services.py:2033-2041 | and names only rows that were debited something |
| MeterRuns.MeterAllKeeps | services/control-plane/src/greencompute_control_plane/application/services.py:1936-2050 | a pass over any list of rows keeps conservation and the balances of all |
| MeterRuns.PassBeforeStampOverbills | services/control-plane/src/greencompute_control_plane/application/services.py:541-544 | a run in which a pass between saving READY and stamping `billable_since` bills the pause before |
| MeterRuns.BillFitsIff | services/control-plane/src/greencompute_control_plane/application/services.py:1950-1958 | what a pass bills a row fits into the stretch since READY was saved exactly when it looks back no further or the row is stamped for that stretch |
| MeterRuns.RelockIs | services/control-plane/src/greencompute_control_plane/application/services.py:1686-1692 | a new rate is on the row from then on |
| MeterRuns.StampIs | services/control-plane/src/greencompute_control_plane/application/services.py:541-544 | the stamp goes with the report that saved READY |
| MeterRuns.LatePassOverbillsIff | services/control-plane/src/greencompute_control_plane/application/services.py:541-544 | for every row billed up to its last stretch, the pass takes the bill beyond the time READY exactly when it is out of time |
| Metering.CostAtOneRate | services/control-plane/src/greencompute_control_plane/application/services.py:1979-1981 | at one rate throughout, the exact price is the rate times the seconds billed |
| Metering.RoundIsNearest | services/control-plane/src/greencompute_control_plane/application/services.py:1979-1981 | the rounding is to the nearest millicent |
| Metering.HalvesRoundToEven | services/control-plane/src/greencompute_control_plane/application/services.py:1979-1981 | halfway between two millicents it takes the even one |
| Metering.Accrual | services/control-plane/src/greencompute_control_plane/application/services.py:1979-1981 | millicents accrued are within half a millicent of the exact charge |
| Metering.Accrue | services/control-plane/src/greencompute_control_plane/infrastructure/repository.py:689-714 | whole cents and a remainder below 1000 that add up to what was there |
| Metering.Take | services/gateway/src/greencompute_gateway/infrastructure/billing_repository.py:125-171 | takes at most what is asked and what is there, and all that is there if that is less |
| Metering.ChargeConservesIff | services/control-plane/src/greencompute_control_plane/application/services.py:1986-2050 | one pass loses nothing exactly when the owner's account exists or no whole cent was due |
| Metering.MissingOwnerLosesCents | services/control-plane/src/greencompute_control_plane/application/services.py:2033-2035 | a case where it does: 40 cents accrued, none debited, none carried |
| Metering.InterruptedChargeConservesIff | services/control-plane/src/greencompute_control_plane/application/services.py:1982-2050 | a meter that dies after any number of its three transactions (accrue, debit, carry back) loses nothing exactly when it died before accruing, no whole cent was due, or the owner exists and it got as far as the debit, where the balance covers that, or as carrying back, where it does not |
| Metering.ChargeStopsAtFloor | services/gateway/src/greencompute_gateway/infrastructure/billing_repository.py:125-171 | a charge never takes a balance below zero, and suspends only with the balance used up and a cent still owed |
| Metering.SuspendsIff | services/control-plane/src/greencompute_control_plane/application/services.py:1986-2075 | it suspends exactly when the whole cents due exceed the balance |
| Metering.HourlyChargeIs | services/control-plane/src/greencompute_control_plane/application/services.py:2079-2104 | the forecast: none if not billed by the hour, zero while silent, else the rate, or ten cents, for each GPU and instance, one at least of either |
| Metering.ForecastIsTheMetersRateIff | services/control-plane/src/greencompute_control_plane/application/services.py:2085-2104 | the forecast is the meter's own rate exactly when the workload asks for a GPU |
| Metering.Meter.MeterUsage | services/control-plane/src/greencompute_control_plane/application/services.py:1936-2050 | the loop over READY rows is the step-by-step specification, which MeterBills states in the rows' own figures, and returns what each row was debited |
| Metering.Meter.MeterRow | services/control-plane/src/greencompute_control_plane/application/services.py:1938-2050 | one row: accrue, debit to the floor, carry back, suspend |
| Bus.SelectIsOldestFirst | packages/persistence/src/greencompute_persistence/bus.py:105-136 | a claim returns claimable rows, each once, oldest first, and passes none over unless the limit was reached |
| Bus.SelectedAre | packages/persistence/src/greencompute_persistence/bus.py:105-136 | the rows claimed are the consumer's own, on a subject asked for, pending and due; with room left, all of them |
| Bus.AttemptsAreClaims | packages/persistence/src/greencompute_persistence/bus.py:105-136 | over every run, `attempts` is the number of times a claim returned the delivery |
| Bus.PublishReachesEachConsumerOnce | packages/persistence/src/greencompute_persistence/bus.py:79-103 | the event, with its content, and one pending delivery for each of the subject's consumers are added together, and nothing else changes |
| Bus.Routes | packages/persistence/src/greencompute_persistence/bus.py:30-38 | which consumer each subject has, and that other subjects have none |
| Bus.NoSecondClaimUnlessGivenBack | packages/persistence/src/greencompute_persistence/bus.py:105-149 | once not pending, a delivery is claimed again only if some step put it back |
| Bus.ClaimedIsNotPending | packages/persistence/src/greencompute_persistence/bus.py:105-136 | directly after a claim the delivery is processing |
| Bus.ClaimsAreBounded | services/control-plane/src/greencompute_control_plane/application/services.py:1540-1556 | without stale requeues a delivery is claimed at most max(retry limit, 5) times, whatever its handler does |
| Bus.VerdictIs | services/control-plane/src/greencompute_control_plane/application/services.py:1540-1556 | a raising handler's delivery comes back after 30 seconds per attempt and fails at the fifth; without capacity it fails at the retry limit or with the deployment |
| Bus.RaisingIsClaimedFiveTimes | services/control-plane/src/greencompute_control_plane/application/services.py:1540-1556 | over any number of rounds such a delivery is claimed exactly five times and has then failed, with its event |
| Bus.StaleIsClaimedAgain | packages/persistence/src/greencompute_persistence/bus.py:174-206 | a run in which a request put back as stale is claimed a second time |
| Bus.SubjectBus.Publish | packages/persistence/src/greencompute_persistence/bus.py:79-103 | event and deliveries in one step |
| Bus.SubjectBus.FindPending | packages/persistence/src/greencompute_persistence/bus.py:105-120 | the claim's query |
| Bus.SubjectBus.ClaimPending | packages/persistence/src/greencompute_persistence/bus.py:105-136 | exactly the selected rows become processing with one more attempt |
| Bus.SubjectBus.MarkCompleted | packages/persistence/src/greencompute_persistence/bus.py:138-139 | status of the delivery and of its event row |
| Bus.SubjectBus.MarkFailed | packages/persistence/src/greencompute_persistence/bus.py:141-149 | pending again when retryable, after the delay, else failed |
| Bus.SubjectBus.UpdateStatus | packages/persistence/src/greencompute_persistence/bus.py:209-236 | the write both share; a missing row changes nothing |
| Bus.SubjectBus.RequeueStaleProcessing | packages/persistence/src/greencompute_persistence/bus.py:174-206 | exactly the stale deliveries go back to pending, with exactly their event rows, and are returned |
| Bus.ClaimedIs | packages/persistence/src/greencompute_persistence/bus.py:121-136 | a claim in the row's own fields: processing, one more attempt, stamped |
| Bus.MarkedIs | packages/persistence/src/greencompute_persistence/bus.py:209-236 | a mark in the fields of the delivery and of its event |
| Bus.RequeuedIs | packages/persistence/src/greencompute_persistence/bus.py:174-206 | only what has been processing since the threshold goes back, to be claimed at once, its attempts kept |
| Bus.EventPutBack | packages/persistence/src/greencompute_persistence/bus.py:174-206 | and with it its event, and no other |
| Requests.NoStrandedRequest | services/control-plane/src/greencompute_control_plane/application/services.py:1607-1711 | in every interleaving of creations, workers, reports, whole-row saves, requeues, deletions, crashes and stale requeues by age in which no step is unsafe, a PENDING deployment has a pending or processing request, or the call that made it PENDING is about to publish one |
| Requests.CarefulCallersStrandNothing | services/control-plane/src/greencompute_control_plane/application/services.py:706-722 | in particular when recoveries pass a threshold above the slowest live handler, saves that read PENDING find the row still PENDING, and nobody dies before publishing |
| Stranding.StepKeepsIff | services/control-plane/src/greencompute_control_plane/application/services.py:1607-1711 | a step keeps the invariant behind that exactly when it is safe: a stale delivery is held by nobody or its workload is gone; a late save's deployment is gone, still PENDING or still carried; what a dying call owes no longer waits or is carried by a delivery or another publisher |
| Stranding.SafeIffNeverStrands | services/control-plane/src/greencompute_control_plane/application/services.py:1607-1711 | and for what it is there for: for every state and step, the step is safe if and only if no run of safe steps after it leaves any deployment PENDING with nothing on the bus and nobody about to publish |
| Stranding.UnsafeRequeueStrands | packages/persistence/src/greencompute_persistence/bus.py:174-206 | the half for stale requeues: whatever the holder of the delivery was doing and however many other calls and deliveries there are, safe steps alone lead to its deployment stranded |
| Stranding.UnsafeStepStrands | services/control-plane/src/greencompute_control_plane/application/services.py:684-697 | an unsafe save or crash leaves its deployment stranded after nothing more than the marks already due |
| Stranding.CarriedIffNeverStranded | packages/persistence/src/greencompute_persistence/bus.py:138-149 | a waiting deployment is carried exactly when no sequence of the marks already due strands it |
| Requests.StepKeeps | services/control-plane/src/greencompute_control_plane/application/services.py:1758-1808 | each safe transaction keeps that invariant |
| Requests.StepsAskFor | services/control-plane/src/greencompute_control_plane/application/services.py:150-181 | a creation takes an unused id, and a write, save or requeue reads a row that exists |
| Requests.StaleRequeueIs | packages/persistence/src/greencompute_persistence/bus.py:174-206 | a stale requeue puts back exactly a delivery processed for that long |
| Requests.UninterruptedWorkerHandles | services/control-plane/src/greencompute_control_plane/application/services.py:1607-1711 | the interleaved machine, run without interruption, ends as the handler does, for every case |
| Requests.RequestWorker.ProcessDeploymentRequest | services/control-plane/src/greencompute_control_plane/application/services.py:1607-1711 | row, delivery and retry count after handling: for a missing row, a row not pending, a missing workload and a placement; without a node PENDING and retryable below both limits, failed at either |
| Requests.GivenUpAtTheLimit | services/control-plane/src/greencompute_control_plane/application/services.py:1625-1665 | claimed again and again without a node, a new deployment is failed at exactly the smaller of the two limits, row and delivery together, and not before |
| Requests.UnplacedIsVerdict | services/control-plane/src/greencompute_control_plane/application/services.py:1638-1670 | and that is the verdict the bus is given |
| Stranding.StaleSaveStrands | services/control-plane/src/greencompute_control_plane/application/services.py:419-438 | a run from the start in which a whole-row save that read PENDING before the worker placed the deployment strands it |
| Stranding.CrashBeforePublishStrands | services/control-plane/src/greencompute_control_plane/application/services.py:173-181 | a run from the start in which a call dies between saving PENDING and publishing |
| Stranding.LateMarkStrands | packages/persistence/src/greencompute_persistence/bus.py:174-206 | a run from the start, for every threshold, in which a delivery requeued under a live handler is completed by it while a second worker relies on it |
| AccountEvents.ReadersMissNothing | packages/persistence/src/greencompute_persistence/account_events.py:70-81 | in every interleaving of writers and readers, a customer's events become visible in rising id order and a reader has been given exactly the first of them, each once |
| AccountEvents.NothingBehindTheCursor | packages/persistence/src/greencompute_persistence/account_events.py:9-13 | a visible event has been given to a reader exactly when its id is not beyond the cursor |
| AccountEvents.PageIsNext | services/gateway/src/greencompute_gateway/application/webhooks.py:84-99 | a read returns exactly the next events, up to its limit |
| AccountEvents.InsertedInOrder | services/gateway/src/greencompute_gateway/application/webhooks.py:84-99 | rows are ordered by id whatever order they became visible in |
| AccountEvents.WrittenIsRead | packages/persistence/src/greencompute_persistence/account_events.py:66-83 | a run: events of two customers, written in one transaction, committed and read, each by its customer's reader |
| AccountEvents.SubscribedOnce | services/gateway/src/greencompute_gateway/application/webhooks.py:84-99 | a reader that exists keeps its cursor |
| AccountEvents.UnlockedReaderMisses | packages/persistence/src/greencompute_persistence/account_events.py:9-13 | without the lock a cursor can pass an event for good |
| RateLimit.FixedWindowRateLimiter.Check | packages/persistence/src/greencompute_persistence/rate_limit.py:21-41 | the bucket and the answer after one call; other buckets untouched |
| RateLimit.CheckedIs | packages/persistence/src/greencompute_persistence/rate_limit.py:21-41 | the four cases of a check: new window or running, below the limit or at it |
| RateLimit.AtMostTwiceTheLimit | packages/persistence/src/greencompute_persistence/rate_limit.py:21-41 | over every run, at most `limit` calls per stored window and twice that in any half-open span of one window length |
| RateLimit.TwiceTheLimitHappens | packages/persistence/src/greencompute_persistence/rate_limit.py:21-41 | the bound is reached for every limit and window length |
| Monitor.ReportedExactlyOnce | services/gateway/src/greencompute_gateway/application/billing_monitor.py:528-571 | an entry visible after the first pass, within five minutes of its stamp, that calls for a report is reported by exactly one pass, whatever the gaps and despite the clean-up; earlier ones by at most one |
| Monitor.NextPassReports | services/gateway/src/greencompute_gateway/application/billing_monitor.py:528-571 | in particular the next pass after it appeared reports it |
| Monitor.OnlyCallsAreReported | services/gateway/src/greencompute_gateway/application/billing_monitor.py:528-571 | nothing else is reported |
| Monitor.LateEntryIsSeenIff | services/gateway/src/greencompute_gateway/application/billing_monitor.py:534-571 | five minutes is the exact margin |
| Monitor.FindingsAre | services/gateway/src/greencompute_gateway/application/billing_monitor.py:271-324 | a pass finds exactly the entries of its window that qualify |
| Monitor.CallsIs | services/gateway/src/greencompute_gateway/application/billing_monitor.py:271-324 | which entries qualify: a negative balance unless of a kind that may leave one; debits by hand; credits that are large or by hand |
| Monitor.PassAbout | services/gateway/src/greencompute_gateway/application/billing_monitor.py:477-485 | for each key: reported exactly when found and not marked, and what is marked afterwards |
| Monitor.BillingMonitor.RunOnce | services/gateway/src/greencompute_gateway/application/billing_monitor.py:528-571 | findings, due keys, cursor and clean-up of one pass |
| AutoResume.CommittedByOwner | services/gateway/src/greencompute_gateway/application/credit_watch.py:295-316 | each owner's total is the sum over their running and coming-up deployments, each counted once |
| AutoResume.BurnCounts | services/gateway/src/greencompute_gateway/application/credit_watch.py:295-316 | what one more deployment adds to its owner's total: its charge, unless it is draining, ended, or suspended without a live lease |
| AutoResume.AddState | services/gateway/src/greencompute_gateway/application/credit_watch.py:302-315 | one state's deployments added to the running totals |
| AutoResume.Candidates | services/gateway/src/greencompute_gateway/application/credit_watch.py:332-344 | exactly the flagged suspended deployments not already coming back, each once, oldest suspension first |
| AutoResume.Sweep | services/gateway/src/greencompute_gateway/application/credit_watch.py:347-369 | each candidate is resumed exactly when, at its turn, the balance covers an hour of everything and the service does not refuse |
| AutoResume.SweepIsSound | services/gateway/src/greencompute_gateway/application/credit_watch.py:347-369 | an owner anything was resumed for can pay an hour of all of it |
| AutoResume.SweepIsMaximal | services/gateway/src/greencompute_gateway/application/credit_watch.py:347-369 | nothing skipped, unless refused, would still fit |
| AutoResume.SweepPrefersOldest | services/gateway/src/greencompute_gateway/application/credit_watch.py:341-344 | against any other affordable choice, the sweep takes the first candidate they differ on |
| AutoResume.AutoResumeOnce | services/gateway/src/greencompute_gateway/application/credit_watch.py:319-369 | the whole sweep: sound and maximal for fixed balances |
| Deposits.ExactIsUnique | services/gateway/src/greencompute_gateway/application/billing_service.py:126-138 | two different amounts are never both exact for one transfer, at any number of decimals |
| Deposits.ExactIs | services/gateway/src/greencompute_gateway/application/billing_service.py:126-138 | to the unit at six and eight decimals, give or take 100 at nine and eighteen |
| Deposits.TokensAre | services/gateway/src/greencompute_gateway/application/billing_service.py:550-551 | how many tokens a transfer is |
| Deposits.AtMostOneExactIff | services/gateway/src/greencompute_gateway/application/billing_service.py:554-559 | every transfer matches at most one open invoice exactly if and only if no two open invoices of one currency ask for one amount at addresses that are the same but for case |
| Deposits.AtMostOneExact | packages/persistence/src/greencompute_persistence/orm.py:927-937 | the unique index on open invoices sees to that as long as addresses are spelled in one way |
| Deposits.RespelledAddressIsAmbiguous | packages/persistence/src/greencompute_persistence/orm.py:927-937 | the index compares addresses as spelled, the match does not: respelled, two invoices match |
| Deposits.MatchingPasses | services/gateway/src/greencompute_gateway/infrastructure/billing_repository.py:910-968 | every invoice listed passes the filter |
| Deposits.MatchingHasAll | services/gateway/src/greencompute_gateway/infrastructure/billing_repository.py:914-968 | every invoice that passes is listed |
| Deposits.PassesIs | services/gateway/src/greencompute_gateway/application/billing_service.py:552-625 | the four filters in the invoice's own fields: open or expired since, exact or between half and twice |
| Deposits.PickUnits | services/gateway/src/greencompute_gateway/application/billing_service.py:462-475 | a free amount when the range has one; the exact condition for the amount to be free in any case |
| Deposits.FallbackCanCollide | services/gateway/src/greencompute_gateway/application/billing_service.py:468-475 | for every base and range, the fallback amount is taken already when the range is and the right amount beyond it |
| Crediting.PaidAtMostOnce | services/gateway/src/greencompute_gateway/infrastructure/billing_repository.py:479-612 | in every interleaving a key (a transfer's reference, or currency and hash of an administrator's confirmation; none for an empty hash) and an invoice are each paid at most once, and balances are opening plus ledger |
| Payments.TransfersPaidOnce | services/gateway/src/greencompute_gateway/application/billing_service.py:874-921 | with looks and payments apart: in every interleaving of watchers, administrators, reviews and wallet credits in which hashes are typed without spaces around them and nothing is paid for a caller's transfer between its look and its payment, every transfer is paid at most once over all keys |
| Payments.PaidOnceKeptIff | services/gateway/src/greencompute_gateway/infrastructure/billing_repository.py:513-612 | for every state, a step pays a transfer twice exactly when the guards before the payment let it through and the transfer is in the ledger under whatever key |
| Payments.StaleLookPaysTwiceIff | services/gateway/src/greencompute_gateway/application/billing_service.py:889-921 | which, hashes being typed without spaces, is exactly when something was paid for the transfer since the caller looked |
| Payments.PaidSinceLook | services/gateway/src/greencompute_gateway/infrastructure/billing_repository.py:1012-1070 | what a call pays a second time was paid after it looked, never before; crediting a deposit, which looks in the same transaction, pays nothing twice |
| Payments.ManualFoundIff | services/gateway/src/greencompute_gateway/infrastructure/billing_repository.py:1026-1040 | an administrator's payment of a transaction is found by a look for it, in any currency, exactly when its hash was typed without spaces around it |
| Crediting.HashIs | services/gateway/src/greencompute_gateway/infrastructure/billing_repository.py:1026-1050 | white space around a typed hash does not matter to the look-ups, and nothing else is cut off |
| Payments.BookIs | services/gateway/src/greencompute_gateway/infrastructure/billing_repository.py:980-1010 | logging, marking and closing go on in between and pay nothing |
| Payments.OpenedIs | services/gateway/src/greencompute_gateway/application/billing_service.py:476-490 | a new invoice is pending, behind the others |
| Payments.OwnedIff | services/gateway/src/greencompute_gateway/infrastructure/billing_repository.py:1042-1070 | when a transaction counts as paid for |
| Payments.ConfirmedMeanwhilePaysTwice | services/gateway/src/greencompute_gateway/application/billing_service.py:543-562 | a run in which an administrator confirms the transaction after the watcher has looked: paid twice |
| Payments.TwoCurrenciesPayTwice | services/gateway/src/greencompute_gateway/application/billing_service.py:907-909 | a run in which two administrators look before either pays, on invoices in two currencies: paid twice |
| Payments.PaddedHashPaysTwice | services/gateway/src/greencompute_gateway/application/billing_service.py:907-909 | a run with nobody in between: a hash typed with a space behind it is paid for, and paid for again without the space |
| Crediting.ResolveAttributes | services/gateway/src/greencompute_gateway/application/billing_service.py:519-606 | who is paid, how much, on which invoice, and why nobody else could be: exact, late exact, wallet, size, nobody, for every store and transfer |
| Crediting.ResolveDecides | services/gateway/src/greencompute_gateway/application/billing_service.py:519-606 | which rule applies and that it pays: for every store and transfer the outcome, with a missing account as the only obstacle |
| Crediting.ResolveTwicePaysOnce | services/gateway/src/greencompute_gateway/application/billing_service.py:519-606 | after a call that paid, any later call leaves everything as it is |
| Crediting.ExactIs | services/gateway/src/greencompute_gateway/application/billing_service.py:554-567 | the oldest exact open invoice is paid its own amount |
| Crediting.LateIs | services/gateway/src/greencompute_gateway/application/billing_service.py:568-582 | a single exact invoice that expired lately is paid the market value |
| Crediting.BySizeIs | services/gateway/src/greencompute_gateway/application/billing_service.py:608-641 | by size: paid to the one customer owning every open or recently expired invoice within 50 to 200 percent, on the oldest open one at its rate, else the latest expired at the market's; or to nobody because there is none or several |
| Crediting.OneCustomerIff | services/gateway/src/greencompute_gateway/application/billing_service.py:621-631 | invoices of the size are one customer's exactly when there are some and all have one owner |
| Crediting.PaidBySize | services/gateway/src/greencompute_gateway/application/billing_service.py:608-641 | what a resolution by size adds to the customer's balance, to half a cent: a hundred cents a token of a stablecoin, else the invoice's dollars per token, and its bonus on that |
| Crediting.WorthInDollars | services/gateway/src/greencompute_gateway/application/billing_service.py:140-151 | the worth of a stablecoin payment, whatever the invoice asked for |
| Crediting.WorthAtQuote | services/gateway/src/greencompute_gateway/application/billing_service.py:140-151 | the worth of any other payment, at the price the invoice was quoted at |
| Crediting.BaseCurrencyIs | services/gateway/src/greencompute_gateway/application/billing_service.py:154-160 | a currency is what stands before the dash, in any case |
| Crediting.PayableIsPaid | services/gateway/src/greencompute_gateway/application/billing_service.py:643-691 | an invoice that can be paid is paid, unless its owner's account is missing |
| Crediting.DepositDesk.ConfirmAndCredit | services/gateway/src/greencompute_gateway/infrastructure/billing_repository.py:479-612 | invoice, ledger and balance in one step, or nothing |
| Crediting.ConfirmAnswers | services/gateway/src/greencompute_gateway/infrastructure/billing_repository.py:513-612 | when a confirmation is refused, already done, raised or paid, and what it then changes |
| Crediting.CreditAnswers | services/gateway/src/greencompute_gateway/infrastructure/billing_repository.py:1136-1182 | the same for crediting a deposit |
| Crediting.CreditInvoiceIs | services/gateway/src/greencompute_gateway/application/billing_service.py:667-691 | what crediting an invoice answers and logs, by what its confirmation came to |
| Crediting.TryEachIs | services/gateway/src/greencompute_gateway/application/billing_service.py:564-567 | an invoice closed in the meantime is passed over for the next |
| Crediting.ToWalletIs | services/gateway/src/greencompute_gateway/application/billing_service.py:583-599 | the wallet rule's four answers |
| Crediting.DepositDesk.CreditInvoiceFor | services/gateway/src/greencompute_gateway/application/billing_service.py:643-691 | crediting an invoice and logging the transfer |
| Crediting.DepositDesk.CreditExact | services/gateway/src/greencompute_gateway/application/billing_service.py:554-567 | the loop over exact invoices |
| Crediting.DepositDesk.CreditWallet | services/gateway/src/greencompute_gateway/infrastructure/billing_repository.py:1121-1182 | straight to the customer of a verified wallet |
| Crediting.DepositDesk.CreditBySize | services/gateway/src/greencompute_gateway/application/billing_service.py:608-641 | the size rule |
| Crediting.DepositDesk.ResolveDeposit | services/gateway/src/greencompute_gateway/application/billing_service.py:519-606 | the rules in their order |
| Statements.SpendingRows | services/gateway/src/greencompute_gateway/infrastructure/billing_repository.py:282-332 | per key exactly its metered rows' sum, exactly the other rows listed, and the balances at both ends |
| Statements.RowTaken | services/gateway/src/greencompute_gateway/infrastructure/billing_repository.py:282-332 | what one more ledger row does to a period, by its kind and day |
| Statements.Groups | services/gateway/src/greencompute_gateway/application/statements.py:177-206 | one group per deployment, kind and day, holding exactly its rows' charge |
| Statements.GroupsConserve | services/gateway/src/greencompute_gateway/application/statements.py:177-206 | all groups together hold the whole charge |
| Statements.SpendingSummary | services/gateway/src/greencompute_gateway/application/statements.py:219-290 | per day and category, per deployment and part, and shared: each exactly its groups' sum; per day, per category, and per deployment plus shared give the same total; opening plus movements is closing |
| Statements.GroupAdds | services/gateway/src/greencompute_gateway/application/statements.py:234-262 | where a group's charge is shown: day and category, deployment and part, or shared |
| Statements.EntryAdds | services/gateway/src/greencompute_gateway/application/statements.py:229-233 | top-ups and bonuses count as topped up, all other entries as adjustments, on their UTC day |
| Statements.BookEntries | services/gateway/src/greencompute_gateway/application/statements.py:229-233 | top-ups and adjustments on their days |
| Statements.BookAgrees | services/gateway/src/greencompute_gateway/application/statements.py:236-239 | a charge booked keeps the three totals equal |
| Statements.Lines | services/gateway/src/greencompute_gateway/application/statements.py:298-322 | a line per group and entry, together all of the period's money |
| Statements.ChargeReads | services/gateway/src/greencompute_gateway/application/statements.py:124-139 | how a charge is named |
| Statements.EntryReads | services/gateway/src/greencompute_gateway/application/statements.py:38-45 | how an entry is named, or its kind capitalized |
| Statements.StatementOf | services/gateway/src/greencompute_gateway/application/statements.py:323-342 | credits minus charges is the lines' total; charges by type are the types' own and sum to the charges |
| Statements.MonthlyStatement | services/gateway/src/greencompute_gateway/application/statements.py:293-342 | credits minus charges equal the sum of the month's ledger rows and lead from opening to closing |
| Statements.BumpTotal | services/gateway/src/greencompute_gateway/application/statements.py:194-194 | adding under a key adds to the total |
| Statements.BumpLook | services/gateway/src/greencompute_gateway/application/statements.py:194-194 | and to that key only |
| Statements.BumpColumn | services/gateway/src/greencompute_gateway/application/statements.py:237-238 | and to its column only |
| RateText.RentalRoundTrip | services/control-plane/src/greencompute_control_plane/domain/metering.py:44-48 | reading the charge text of n GPUs at c cents gives n times c, for all naturals |
| RateText.ModelReadsAs | services/control-plane/src/greencompute_control_plane/application/services.py:2116-2127 | what a private model's charge text reads as, for every workload: a rate in its name, if there is one, else the rate charged |
| RateText.ModelTailIs | services/control-plane/src/greencompute_control_plane/application/services.py:2116-2127 | how a private model's charge is worded, for one GPU and for several |
| RateText.ShownNameIs | services/control-plane/src/greencompute_control_plane/application/services.py:2116-2127 | which of its names it goes by |
| RateText.ModelRoundTripIff | services/gateway/src/greencompute_gateway/application/statements.py:28-46 | so the round trip holds exactly for names that say no other rate |
| RateText.NameCanMislead | services/gateway/src/greencompute_gateway/application/statements.py:41-46 | a model named like a charge is read at the rate in its name |
| RateText.AtIs | services/gateway/src/greencompute_gateway/application/statements.py:28-29 | matching at a place yields v exactly when a front part of the text is in the pattern's language and worth v |
| RateText.SearchIs | services/gateway/src/greencompute_gateway/application/statements.py:28-29 | the search takes the leftmost place that matches |
| RateText.MatchFound | services/gateway/src/greencompute_gateway/application/statements.py:28-29 | a text of the pattern's language is matched whatever follows it |
| RateText.SearchBeforeDot | services/control-plane/src/greencompute_control_plane/application/services.py:2127-2127 | what follows the dot after a name has no part in a match that begins before it |
| RateText.DecimalReadsBack | services/gateway/src/greencompute_gateway/application/statements.py:46-46 | printed numbers read back |
| BuildRuns.StagesRunOnce | services/builder/src/greencompute_builder/application/services.py:694-856 | in every run, in any order of deliveries and with the steps of retries and cancels at any moment, a job runs its stages in order, none twice, and all of them if it succeeded |
| BuildRuns.PublishedStaysIff | services/builder/src/greencompute_builder/application/services.py:381-411 | the only steps that take a build out of Published are saves of cancels or retries that read it before |
| BuildRuns.PublishedForGood | services/builder/src/greencompute_builder/application/services.py:384-387 | without such a call a published build stays published over every run |
| BuildRuns.PublishedLastsIff | services/builder/src/greencompute_builder/application/services.py:374-411 | a published build lasts, whatever follows, exactly when no cancel or retry has read it and has yet to save |
| BuildRaces.PublishedCanBeLost | services/builder/src/greencompute_builder/application/services.py:381-411 | the runs in which a retry and a cancel overwrite a publication |
| BuildRaces.TwoAttemptsPublish | services/builder/src/greencompute_builder/application/services.py:418-429 | the run in which the retry's own attempt then publishes the build again |
| BuildRuns.CancelledStaysIff | services/builder/src/greencompute_builder/application/services.py:792-814 | the only steps that take a build out of Cancelled are the worker's save of what it read before and a retry's |
| BuildRuns.CancelledForGood | services/builder/src/greencompute_builder/application/services.py:435-446 | without them it stays cancelled over every run |
| BuildRuns.CancelledLastsIff | services/builder/src/greencompute_builder/application/services.py:435-446 | a cancelled build lasts, whatever follows, exactly when neither the worker nor a retry has read it and has yet to save |
| BuildRuns.CancelLastsIff | services/builder/src/greencompute_builder/application/services.py:435-446 | the same for a cancel about to be saved |
| BuildRaces.CancelLostInPreparation | services/builder/src/greencompute_builder/application/services.py:617-640 | a run in which a cancel is lost while the worker prepares the job |
| BuildRaces.CancelLostInStage | services/builder/src/greencompute_builder/application/services.py:727-733 | one in which it is lost while a stage runs |
| BuildRaces.CancelLostToRetry | services/builder/src/greencompute_builder/application/services.py:381-411 | one in which it is lost to a retry |
| BuildRuns.DrainedIsSettled | services/builder/src/greencompute_builder/application/services.py:511-537 | over every run without a stranding step, nothing queued, held or about to be published means that every build is published or cancelled |
| BuildRuns.PublishedByOneAttempt | services/builder/src/greencompute_builder/application/services.py:809-856 | while no retry saves over a settled build, a published one was published by one attempt, no other having run the publishing stage |
| BuildRuns.StepLeavesIff | services/builder/src/greencompute_builder/application/services.py:374-475 | for every state in which no build is left behind, a step leaves one behind exactly when it strands: a cancel stops the job of a build no longer cancelled that the worker does not hold and no other attempt carries, or a retry saves a settled build nothing carries and asks for an attempt that has ended |
| BuildRuns.StepDrivesIff | services/builder/src/greencompute_builder/application/services.py:599-692 | the same condition, for every unsettled build being carried on by the worker, a delivery or a retry about to publish one |
| BuildRuns.DrivenIffFinishes | services/builder/src/greencompute_builder/application/services.py:511-537 | a build is so carried exactly when some run settles it without a further save of its row by a cancel or a retry |
| BuildRuns.StuckForGood | services/builder/src/greencompute_builder/application/services.py:511-537 | a build that is not stays as it is over every run until such a save |
| BuildRuns.StopDrivesIff | services/builder/src/greencompute_builder/application/services.py:455-465 | stopping an attempt's job leaves its build carried exactly when the worker holds the build or another attempt of it is queued or about to be |
| BuildRuns.RetryDrivesIff | services/builder/src/greencompute_builder/application/services.py:405-429 | a retry's save leaves its build carried exactly when it was or the attempt asked for has not ended |
| BuildRaces.StopStrandsBuild | services/builder/src/greencompute_builder/application/services.py:446-465 | a run in which the worker saves over a cancel, which then stops the job: the build is left building with nothing queued, held or open |
| BuildRaces.RevivedBuildWaits | services/builder/src/greencompute_builder/application/services.py:411-429 | a run in which it has not: two retries ask for one attempt, and the build is left waiting with nothing queued |
| BuildRuns.AttemptPublishes | services/builder/src/greencompute_builder/application/services.py:511-537 | from every state, a request for a new attempt run with nobody in between publishes its build; queue, job and row afterwards |
| Builder.StepKeeps | services/builder/src/greencompute_builder/application/services.py:599-692 | every step, late or not, keeps the invariant behind these, failures apart; saving a cancel, reading the job, stopping it, saving a retry and publishing it are steps of their own |
| Builder.AdvanceShape | services/builder/src/greencompute_builder/application/services.py:737-856 | what a save of the worker touches: its own build and job, and the queue's end |
| Builder.ContinueShape | services/builder/src/greencompute_builder/application/services.py:405-465 | what a step of a cancel or retry touches: the row it saves, the job it stops, the queue's end, its own entry |
| BuildWorker.TakeOwes | services/builder/src/greencompute_builder/application/services.py:519-536 | taking a delivery lowers the deliveries owed by at least one, and exactly by one unless it is a request for a settled build |
| BuildWorker.AdvanceOwes | services/builder/src/greencompute_builder/application/services.py:769-810 | the worker's saves never add to them, and take away only for repeated requests |
| BuildWorker.DrainSettles | services/builder/src/greencompute_builder/application/services.py:511-537 | a call whose limit covers what is owed leaves nothing pending and, no retry being about to publish, no build unfinished |
| BuildWorker.SevenDeliveriesABuild | services/builder/src/greencompute_builder/application/services.py:511-537 | without retries and cancels, once drained in whatever order, each build is published, ran every stage once, and took exactly seven deliveries |
| BuildWorker.DeliveriesAddUp | services/builder/src/greencompute_builder/application/services.py:511-537 | at every moment of such runs, deliveries taken plus deliveries owed are seven per build |
| BuildWorker.OutputsAre | services/builder/src/greencompute_builder/application/services.py:534-536 | a call returns each build it published, once, and no other |
| BuildWorker.HandleAppends | services/builder/src/greencompute_builder/application/services.py:769-810 | handling adds to the end of the queue and does not depend on the rest of it |
| BuildWorker.BuildService.ProcessPendingEvents | services/builder/src/greencompute_builder/application/services.py:511-537 | claiming in batches up to the limit is the same as single deliveries, oldest first |
| BuildWorker.BuildService.HandleEvent | services/builder/src/greencompute_builder/application/services.py:519-536 | one delivery |
| BuildWorker.BuildService.CancelBuild | services/builder/src/greencompute_builder/application/services.py:435-475 | the call with nobody in between; the build is settled afterwards |
| BuildWorker.BuildService.RetryBuild | services/builder/src/greencompute_builder/application/services.py:374-432 | the call with nobody in between; a settled build is left alone |
| BuildWorker.BuildService.InitializeOrResumeJob | services/builder/src/greencompute_builder/application/services.py:599-692 | creates the attempt's job once, and publishes one progress delivery in any case |
| BuildWorker.BuildService.AdvanceJob | services/builder/src/greencompute_builder/application/services.py:694-734 | runs the stage the job stands at, unless it has ended |
| BuildWorker.BuildService.ApplyStageResult | services/builder/src/greencompute_builder/infrastructure/execution.py:126-216 | two progress deliveries and the next stage, or one and published |

## Left out

- Placement.NeverOverbooked: the in-process lock is modelled as one placement at a time per worker, so several processes may interleave. A machine's GPU count is fixed, and the merge of capacity reports in `upsert_capacity` is any overwriting of the reported counts.
- Lifecycle.ClocksAlwaysRight: treats a call as one step; with read and save apart the exact condition is in SaveKeepsClocksIff. The stamp of `billable_since` goes with the save of the report there; its split is in MeterRuns. The reaper's text is a fixed one.
- MeterRuns.BillFitsIff: a row has at most one report between its two writes at a time.
- MeterRuns.NeverBilledMoreThanItRan: assumes that a pass claims at most the time since the previous one, as the loop in `main.py` measures it, and is itself one step; GPUs of a row are fixed, and the arithmetic is exact instead of floating point.
- Requests.NoStrandedRequest: handlers do not raise; a status report is a read and a write, its other tables left out; a handler that gives up saves the row twice, here once.
- AccountEvents.WrittenIsRead: a read asks for at least one event, as the feed's bounds on the limit see to.
- AutoResume.SweepIsSound: a sweep sees one state of the tables and balances; what a resume does with the GPUs is in Placement.
- Bus.ClaimsAreBounded: does not cover stale requeues, which do not count attempts.
- AccountEvents.PageIsNext: the filter by event type and the clean-up of old events are not modelled, nor what `deployment_event` puts into an event.
- Scheduler.NormalizeIgnoresSpelling: over ASCII letters and digits; the scores are exact reals.
- Crediting.ResolveAttributes: the rules of one resolution see one state of the tables; other calls in between are covered for paying at most once (PaidAtMostOnce), not for attribution. The market value is a parameter.
- Deposits.PickUnits: the random choice is any choice among the free amounts, and white space around addresses is not trimmed.
- Payments.TransfersPaidOnce: the white space trimmed from a hash is space, tab and line ends; reading the invoice and looking for its transaction are one step; every transfer credited is in the deposit log, as it is unless it was paid before that log existed.
- Statements.StatementOf: a row's reference is always there; hours, quantities, names, dates and the sorting of lines are not modelled, nor the parsing of months and ranges; which deployments are private models is a parameter.
- RateText.RentalRoundTrip: `\d` is an ASCII digit and dollars are exact decimals.
- BuildRuns.StagesRunOnce: no stage fails, so the automatic retry after a failure and the recovery at start-up are not modelled; there is one worker, which reads a build with its job, and saves both and publishes, in one step; creating a build saves and publishes in one step.
- BuildWorker.BuildService.ProcessPendingEvents: a handled delivery is off the queue, whether marked completed or failed; artefact fields are not modelled.
- The NATS transport of the bus, HTTP routes, authentication, e-mails, alert texts, object stores, registries, price feeds, Stripe and wallet signatures: input and output.
- Low-credit warnings, stopped-instance alerts, spend spikes, ledger drift, operator reports and miner payouts: nothing as hard as what is here.
