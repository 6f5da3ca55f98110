# Verified model of the cancelled-flights hotel allocation

The backend of this system rebooks the passengers of a cancelled flight into
hotels. Allocation runs, manual bookings, supplier webhooks, post-run checks and
the recovery of interrupted runs all work on the same PNRs at the same time. This
project models that engine in Dafny and proves what it keeps under every
interleaving, together with the booking import, the room arrangements and the
price arithmetic around it.

## How the model is built

| modules | models |
|---|---|
| `BookingRecords`, `Repository` | the flight, PNR and attempt rows; every repository transaction as a function from rows to rows, and as a method that changes the rows in place and is proved equal to it |
| `BookingProtocol`, `ProtocolInvariant`, `ProtocolTheorems`, `StepEffects` | all actors of one flight as one transition system; its invariant; its theorems; what each step does to the rows |
| `Ledger`, `Planner`, `RateSelection`, `CandidatePlanning`, `Rankings`, `SharedRates`, `RoomSplits`, `SplitChoice`, `Sorting` | the allotment ledger, room needs, greedy rate selection and its limits, candidate lists, the choice of a split |
| `AllocationRun`, `AllocationTheorems`, `RunOutcomes`, `PlanLedger`, `ClaimedRooms`, `Preview`, `PreviewRanks` | the booking loop of all PNR workers on one ledger, the ledger it starts with, and the preview of a run |
| `BookingAttempt`, `AttemptAnswers`, `Webhooks`, `WebhookRaces` | one attempt against the supplier, its late settlement, status checks, webhooks one by one and overlapping |
| `Concurrency`, `Stages`, `StageProgress` | the bounded pool of runners and the cabin-class stages |
| `Search`, `SearchSupply` | the ring-widening availability search, and what its supply is |
| `Csv`, `BookingRows`, `RowFitting`, `BookingImport` | the CSV parser, row fitting and row checks, the import |
| `Rooms`, `Money` | room rules and arrangements; prices in cents |

Concurrency is modelled by steps. A step of `BookingProtocol` is one repository
transaction or one stretch of a worker's code between two awaits, and a service
check counts as one step with the write that follows it. A step whose guard does
not hold changes nothing, so a statement about all step sequences is a statement
about all interleavings, crashes included (a crashed worker takes no more steps).
`AllocationRun` does the same for the in-memory loop of the PNR workers: one turn
runs from one await to the next. The turns exist twice, as functions and as
methods of `PlannedPnr` that change the ledger in place.

The supplier, the wallet and the clock are parameters that may answer anything.
What the proofs ask of them is written in types and `requires` clauses: a rate
given as an order has at least one room (the type `RoomList`; the source's loop
would not move on otherwise), an attempt asks for at least one room, and allotments
are non-negative where supply is compared over rings (`AnswersAreNonNegative`). PNR and text normalisation, country and class names and
the reading of one row's fields are function parameters; of them only
idempotence of the PNR normalisation and "a valid row has a PNR" are used
(`ReadsPnrs`). Locale order is an arbitrary tie-breaker (`Collation`).

## What the proofs found

- Recovery updates attempts and PNR rows in separate transactions. If it stops in
  between, a PNR whose attempt was failed stays "in progress" for good: nothing but
  that recovery's own second step touches it again (`CutShortRecoveryStrandsPnr`,
  `RecoveryCanBeCutShort`). Agreement of PNR and attempts is therefore stated
  outside the PNRs a recovery still owes an update.
- A refresh of the flight's totals also moves the timestamp the lease is measured
  by, so a repeated webhook can keep a dead run's lease alive
  (`LeaseRenewedOnlyBy`, `RefreshDelaysTakeover`).
- The post-run check does not count an attempt whose settlement could not be stored
  although all its orders are decided, so that check asks for no further one
  (`ReconcileAttempt`, `ReconcileCanMissAnAttempt`).
- Webhooks that contradict each other are settled by the first decisive one; later
  ones are ignored or noted. Exactly when the order of webhooks makes no difference
  is proved for every open attempt past its live wait
  (`OrderDoesNotMatterIff`, `FirstDecisiveReportWins`).
- A booking the supplier accepted without confirming it is left for a manual check,
  but its orders are already stored as booked, so the next status check confirms it
  without asking the supplier (`RecordedOrdersSettleLikeLive`).
- Two webhooks that overlap can lose a report: each stores all orders as it read
  them, so one order can become undecided again, and a report that lands on an attempt
  the other has just failed leaves no note (`OverlapLosesReportIff`,
  `ConfirmationCanBeLost`). No race settles an attempt on a report nobody made
  (`RacesSettleOnReports`).
- Greedy selection is neither complete nor monotone when room types share a rate
  (`GreedyCanMiss`); for two room types both are characterised exactly
  (`GreedyIsCompleteIff`, `GreedyIsMonotoneIff`). A rate shared by the room types of a
  hotel and by another hotel can make preview ranks fall (`RanksCanFall`); nothing in
  the planner rules such rates out.
- The CSV parser loses a last row that is one empty cell without a line end, and
  turns carriage returns inside quoted cells into line feeds (`RoundTripIff`).
- Uploading a file twice adds failed rows without a PNR again
  (`ImportingAgainAddsNamelessFailures`).
- The last room of an order can get a negative share for tiny totals
  (`NegativeShareIff`).

## Model

| member | source | states |
|---|---|---|
| Repository.CancelledFlightsRepository.StartBookingAttempt | backend/src/cancelled-flights/cancelled-flights.repository.ts:1856-1975 | Starts an attempt only for a rebookable PNR with no live attempt, with the next attempt order; rows afterwards are exactly the `StartAttempt` transaction's |
| Repository.CancelledFlightsRepository.MarkAttemptRequestSent | backend/src/cancelled-flights/cancelled-flights.repository.ts:1977-2014 | Reports true exactly for an attempt that was PENDING and unsent, and marks only that one |
| Repository.CancelledFlightsRepository.FinishBookingAttempt | backend/src/cancelled-flights/cancelled-flights.repository.ts:2257-2321 | Settles only an open attempt, charges it once if it is a success with its booking, and updates its PNR; otherwise changes nothing |
| Repository.CancelledFlightsRepository.UpdateOpenAttemptOrders | backend/src/cancelled-flights/cancelled-flights.repository.ts:2475-2509 | Moves only an open attempt to manual check and brings its PNR in line |
| Repository.CancelledFlightsRepository.UpdatePnrFromAttempts | backend/src/cancelled-flights/cancelled-flights.repository.ts:2870-2896 | The PNR row afterwards is the one its effective attempt implies |
| Repository.CancelledFlightsRepository.MarkPnrAsFailed | backend/src/cancelled-flights/cancelled-flights.repository.ts:2632-2678 | A PNR with a live attempt or a decided state is never marked failed |
| Repository.CancelledFlightsRepository.SavePnrPlans | backend/src/cancelled-flights/cancelled-flights.repository.ts:1699-1778 | Planning resets rebookable PNRs among the planned ones and touches no other |
| Repository.CancelledFlightsRepository.RecoverInterruptedAttempts | backend/src/cancelled-flights/cancelled-flights.repository.ts:2680-2746 | The two bulk updates and then the PNR updates, equal to the composed transactions |
| Repository.CancelledFlightsRepository.RecoverManualAttempt | backend/src/cancelled-flights/cancelled-flights.repository.ts:2756-2851 | A manual booking left pending is recovered only if it is still as the sweep read it |
| Repository.CancelledFlightsRepository.ClaimFlightAllocationRun | backend/src/cancelled-flights/cancelled-flights.repository.ts:1151-1228 | Claims a flight only when no lease runs, its status allows it and the run limit is not used up; says which of these failed |
| Repository.CancelledFlightsRepository.TouchFlightAllocationRun | backend/src/cancelled-flights/cancelled-flights.repository.ts:1231-1252 | Only the run that holds the flight refreshes its lease |
| Repository.CancelledFlightsRepository.CompleteFlightAllocationRun | backend/src/cancelled-flights/cancelled-flights.repository.ts:1349-1420 | Only the holder completes, and the rows afterwards are exactly the `CompleteRun` transaction's, whose status `StepEffects.CompletionDecides` gives; the user-run counter counts only runs that reached the supplier |
| Repository.CancelledFlightsRepository.PromoteFlightAfterLateConfirmation | backend/src/cancelled-flights/cancelled-flights.repository.ts:2511-2535 | Promotes only a waiting flight whose PNRs are all booked |
| Repository.CancelledFlightsRepository.AreAllPnrsHotelBooked | backend/src/cancelled-flights/cancelled-flights.repository.ts:1613-1634 | True exactly when the flight has a PNR and every PNR is CONFIRMED or COMPLETED |
| ProtocolInvariant.EffectiveIsLive | backend/src/cancelled-flights/hotel-allocation.planner.ts:586-598 | The effective attempt of a PNR is its one live attempt, and there is none exactly when nothing is live |
| ProtocolInvariant.StepKeepsInv | backend/src/cancelled-flights/cancelled-flights.repository.ts:1117-2896 | Every step of every actor keeps the protocol invariant |
| ProtocolInvariant.RunKeepsInv | backend/src/cancelled-flights/cancelled-flights.repository.ts:1117-2896 | So does every interleaving of any length |
| ProtocolTheorems.PnrStateIsWhatAttemptsImply | backend/src/cancelled-flights/cancelled-flights.repository.ts:114-165 | In every reachable state a PNR has at most one attempt that is not FAILED and, unless a recovery still owes it an update, its status and confirmed booking id are exactly what its attempts imply |
| ProtocolTheorems.ConfirmedIffBooked | backend/src/cancelled-flights/cancelled-flights.repository.ts:2870-2896 | Even during recovery a PNR is CONFIRMED if and only if one of its attempts is SUCCESS |
| ProtocolTheorems.SettledIsFinal | backend/src/cancelled-flights/cancelled-flights.repository.ts:2257-2321 | However live results, webhooks, checks and recovery race, an attempt settles at most once: afterwards the modelled columns of its row (PNR, order, run, status, sent, failure, charges) never change; late notes on a FAILED attempt and their timestamp are not modelled |
| ProtocolTheorems.PnrChargedAtMostOnce | backend/src/cancelled-flights/cancelled-flights.repository.ts:2192-2321 | In every reachable state an attempt has been charged once if it is SUCCESS and never otherwise, so a PNR is charged once if CONFIRMED and else not at all |
| ProtocolTheorems.ConfirmedIsForever | backend/src/cancelled-flights/cancelled-flights.repository.ts:1877-1975 | A confirmed PNR keeps that very booking in every continuation |
| ProtocolTheorems.PnrSetIsFixed | backend/src/cancelled-flights/cancelled-flights.service.ts:1278-1297 | After passenger confirmation no step adds or removes a PNR, and a published flight stays published |
| ProtocolTheorems.AllocatedMeansEveryPnrConfirmed | backend/src/cancelled-flights/cancelled-flights.service.ts:1756-1778 | A flight that is ALLOCATED or PUBLISHED has at least one PNR, and every PNR has a successful attempt of its own as its confirmed booking |
| ProtocolTheorems.SupplierCalledOncePerOrder | backend/src/cancelled-flights/hotel-allocation.service.ts:3901-3960 | Only an attempt marked sent is ever called for, and SUCCESS and manual check mean it was sent; that calls do not exceed orders is the guard of the call step, and `OnlyTheWorkerCalls` says who takes it |
| ProtocolTheorems.OnlyTheWorkerCalls | backend/src/cancelled-flights/hotel-allocation.service.ts:3901-3960 | Only an attempt's own worker calls the supplier, for its next order, after it was cleared and before it has an answer |
| ProtocolTheorems.ClearedOnlyFromPendingUnsent | backend/src/cancelled-flights/cancelled-flights.repository.ts:1977-2014 | Only the step that finds an attempt PENDING and unsent lets its worker send |
| ProtocolTheorems.FailedBeforeRequestIsNeverSent | backend/src/cancelled-flights/cancelled-flights.repository.ts:2680-2746 | An attempt failed as interrupted before its request is never sent in any continuation |
| ProtocolTheorems.RecoveryNeverFailsSent | backend/src/cancelled-flights/cancelled-flights.repository.ts:2784-2841 | Recovery turns a sent open attempt into a manual check or leaves it; it never fails it |
| ProtocolTheorems.LeaseIsWellFormed | backend/src/cancelled-flights/cancelled-flights.repository.ts:1151-1228 | A run id is set exactly while allocation is in progress; each claim completes at most once; the user-run counter never exceeds its limit |
| ProtocolTheorems.UserRunCountsOnlyIfSent | backend/src/cancelled-flights/cancelled-flights.repository.ts:1385-1420 | The retry counter rises by one exactly when a user's run completes that sent a request to the supplier, and never otherwise |
| ProtocolTheorems.SupersededForever | backend/src/cancelled-flights/cancelled-flights.repository.ts:1231-1252 | A run that lost the flight never holds it again and can neither refresh the lease nor complete |
| ProtocolTheorems.LeaseRenewedOnlyBy | backend/src/cancelled-flights/cancelled-flights.repository.ts:1269-1318 | The holder's lease is renewed by its own heartbeat or by a totals refresh, and by nothing else |
| ProtocolTheorems.TakeoverNeedsExpiredLease | backend/src/cancelled-flights/cancelled-flights.repository.ts:1151-1228 | Another run takes a flight over only after the lease ran out |
| ProtocolTheorems.CutShortRecoveryStrandsPnr | backend/src/cancelled-flights/cancelled-flights.repository.ts:2724-2737 | A PNR whose recovery stopped between the two transactions stays in progress in every continuation in which nothing finishes that recovery |
| ProtocolTheorems.RecoveryCanBeCutShort | backend/src/cancelled-flights/cancelled-flights.repository.ts:2724-2737 | Such a state is reached from a new flight by concrete steps |
| ProtocolTheorems.RefreshDelaysTakeover | backend/src/cancelled-flights/cancelled-flights.repository.ts:1269-1318 | Whenever a lease has run out on a flight with something booked, any new run can take it over, but not after a totals refresh |
| ProtocolTheorems.TotalsRefreshDelaysTakeover | backend/src/cancelled-flights/cancelled-flights.repository.ts:1269-1318 | Such a state is reached from a new flight by concrete steps |
| StepEffects.CompletionDecides | backend/src/cancelled-flights/cancelled-flights.repository.ts:1349-1420 | A completed run frees the flight, which is ALLOCATED if and only if it has a PNR and every PNR is confirmed, and otherwise back in PASSENGERS_BOOKING_CONFIRMED |
| StepEffects.PromotionIff | backend/src/cancelled-flights/cancelled-flights.repository.ts:2511-2535 | A late confirmation promotes a flight if and only if it waits, has a PNR and every PNR is confirmed; nothing else changes |
| StepEffects.ClaimIff | backend/src/cancelled-flights/cancelled-flights.repository.ts:1151-1228 | Which flights a user's run, a resumed run and a check may take, in both directions |
| StepEffects.StartInRunIff | backend/src/cancelled-flights/cancelled-flights.repository.ts:1856-1975 | An attempt starts if and only if its run exists, its PNR may be booked and has nothing live; it is then pending, unsent and of the highest order, and the PNR in progress |
| StepEffects.StartManualIff | backend/src/cancelled-flights/hotel-allocation.service.ts:4935-5010 | By hand it needs an allocated flight, or a PNR the run could not place |
| StepEffects.SendingIff | backend/src/cancelled-flights/cancelled-flights.repository.ts:1977-2014 | A worker is cleared to send if and only if its attempt is still pending; otherwise it is done |
| StepEffects.LateResultIff | backend/src/cancelled-flights/cancelled-flights.repository.ts:2257-2321 | A late result settles an attempt if and only if it is open and was sent; attempt and PNR then show it: charged once and confirmed, failed and free again, or under manual check |
| StepEffects.LiveResultIff | backend/src/cancelled-flights/cancelled-flights.repository.ts:2257-2321 | The same for the worker's own result, which before sending can only be "not booked" |
| StepEffects.OrdersUpdateIff | backend/src/cancelled-flights/cancelled-flights.repository.ts:2475-2509 | Orders that settle nothing leave a sent open attempt and its PNR under manual check |
| StepEffects.RecoveryPassIff | backend/src/cancelled-flights/cancelled-flights.repository.ts:2680-2746 | A recovery pass takes exactly the attempts left pending by another run or stale by hand, to be checked if sent and failed if not, and owes exactly their PNRs an update |
| StepEffects.OwedUpdateIff | backend/src/cancelled-flights/cancelled-flights.repository.ts:2724-2746 | That update makes the PNR's row what its attempts imply, and changes no other row |
| StepEffects.ManualRecoveryIff | backend/src/cancelled-flights/cancelled-flights.repository.ts:2756-2851 | A booking made by hand is recovered if and only if it is pending, stale and as the sweep read it |
| StepEffects.PnrRowIff | backend/src/cancelled-flights/cancelled-flights.repository.ts:2632-2678 | A run marks a PNR failed exactly if it may be booked and nothing of it is live; plans reset the bookable PNRs planned |
| BookingAttempt.BuildUnits | backend/src/cancelled-flights/hotel-allocation.service.ts:3735-3807 | The re-check loop over rooms computes the unit builder, refusals included; `AttemptAnswers.BuiltFromAnswers` says what that is in terms of the supplier's answers |
| BookingAttempt.BuiltUnitsFollow | backend/src/cancelled-flights/hotel-allocation.service.ts:3751-3807 | Units that pass every check cover the rooms in order without gap or overlap, and each serves the rooms it covers: an order exactly, a single room at least |
| BookingAttempt.RoomsAreNumberedOnce | backend/src/cancelled-flights/hotel-allocation.service.ts:3834-3860 | The rooms of an attempt are numbered 1 to n, each exactly once |
| BookingAttempt.BookUnits | backend/src/cancelled-flights/hotel-allocation.service.ts:3926-4093 | The booking loop ends as specified at the first unit the supplier does not accept |
| BookingAttempt.LiveResultIsAllOrNone | backend/src/cancelled-flights/hotel-allocation.service.ts:4020-4160 | Confirmed, rejected and unknown are, in both directions, the all / none / otherwise cases of the rooms really booked |
| BookingAttempt.AttemptIsAllOrNone | backend/src/cancelled-flights/hotel-allocation.service.ts:3719-4190 | Confirmed only if all n rooms are booked, rejected or blocked only if none is, a mix always unknown; nothing is sent unless every check passed and the attempt was still open |
| BookingAttempt.NothingSentUnchecked | backend/src/cancelled-flights/hotel-allocation.service.ts:3719-3914 | A request is sent if and only if the attempt started, every re-check passed, one hotel holds the party, the funds are reserved and the attempt is still open; it is blocked exactly when it was not started or is no longer open at the end of these |
| AttemptAnswers.RecheckAccepts | backend/src/cancelled-flights/hotel-allocation.service.ts:3735-3807 | A re-check is accepted exactly if the supplier answered, no tax is payable at the hotel, all its rooms are asked for on that rate and it holds them; otherwise the code names the cause |
| AttemptAnswers.BuiltFromAnswers | backend/src/cancelled-flights/hotel-allocation.service.ts:3735-3807 | The units are those of the answers that pass, one after another, each with its hotel, rate and rooms; the first that does not pass fails the attempt with its cause |
| AttemptAnswers.AnswersDecide | backend/src/cancelled-flights/hotel-allocation.service.ts:3719-3914 | Each end before the request has its own cause: the answer that did not pass, two hotels, a party too large, missing funds, a failed reservation, an attempt settled elsewhere |
| AttemptAnswers.SentIffAnswersPass | backend/src/cancelled-flights/hotel-allocation.service.ts:3719-3914 | A request is sent if and only if the attempt started, the answers in turn pass, are for one hotel and hold the party, the funds are reserved and the attempt is still open |
| AttemptAnswers.AcceptancesDecide | backend/src/cancelled-flights/hotel-allocation.service.ts:4020-4160 | When every unit is accepted, all are sent, and an unconfirmed unit or an unsaved booking is told apart from success |
| AttemptAnswers.RefusalDecides | backend/src/cancelled-flights/hotel-allocation.service.ts:3960-4160 | Otherwise the first unit not accepted is the last one sent, and its answer decides the failure code; a group-booking rejection is told apart exactly |
| BookingAttempt.RecordedOrdersSettleLikeLive | backend/src/cancelled-flights/hotel-allocation.service.ts:3926-4160 | The orders recorded on the way settle later as the attempt ended live, except that an accepted but unconfirmed or unsaved booking is then confirmed |
| BookingAttempt.LateSettlementIsAllOrNone | backend/src/cancelled-flights/hotel-allocation.service.ts:4377-4462 | A late settlement confirms if and only if every room has a booked order and fails if and only if every order failed |
| BookingAttempt.AskAllIsFaithful | backend/src/cancelled-flights/hotel-allocation.service.ts:2272-2305 | A status check changes an order only to the supplier's final answer, and leaves no finally answered order undecided unless an error stopped it |
| BookingAttempt.ReconcileAttempt | backend/src/cancelled-flights/hotel-allocation.service.ts:2272-2345 | Fails an attempt exactly on the last check with nothing booked and something undecided; an attempt is missed by the unresolved count exactly when a due settlement throws before it is stored |
| BookingAttempt.ReconcileCanMissAnAttempt | backend/src/cancelled-flights/hotel-allocation.service.ts:2306-2345 | A concrete attempt that stays under manual check without being counted by this check |
| Webhooks.DeliveredTwice | backend/src/cancelled-flights/hotel-allocation.service.ts:4219-4372 | Delivering a webhook again leaves the attempt as it is, but for one more note on an attempt that had already failed before and notes the report |
| Webhooks.DeliverySettles | backend/src/cancelled-flights/hotel-allocation.service.ts:4352-4462 | Past the live wait a report is written on its order only; the attempt then succeeds, fails or stays under manual check, as a partial booking once no order is undecided |
| Webhooks.LateCompletionIsNoted | backend/src/cancelled-flights/hotel-allocation.service.ts:4230-4290 | Exactly when a "completed" report on a FAILED attempt leaves no note |
| Webhooks.FirstResultCountsInLiveWait | backend/src/cancelled-flights/cancelled-flights.repository.ts:2343-2367 | During the live wait an undecided order takes the first result reported while the wait takes results, and keeps it |
| Webhooks.AgreeingReportsSettleAlike | backend/src/cancelled-flights/hotel-allocation.service.ts:4352-4462 | Reports that agree end in the late-settlement rule on all of them together, in any order, any number of times, whatever the open attempt has decided before |
| Webhooks.OrderDoesNotMatterIff | backend/src/cancelled-flights/hotel-allocation.service.ts:4230-4462 | For any open attempt past its live wait: order and repetition of its webhooks make no difference if and only if they agree (no order is reported both ways, and booked and failed reports do not compete to settle first) or the one order reported both ways is all that keeps the attempt from success |
| Webhooks.FirstDecisiveReportWins | backend/src/cancelled-flights/hotel-allocation.service.ts:4230-4290 | Contradicting webhooks of a one-room attempt: the first settles it, a late completion is only noted |
| WebhookRaces.RacesSettleOnReports | backend/src/cancelled-flights/hotel-allocation.service.ts:4203-4462 | However overlapping webhooks read and store, in or after the live wait: an open attempt succeeds only if every order was booked or is reported booked and every room has an order, and fails only if every order had failed or is reported failed |
| WebhookRaces.RacesKeepSettled | backend/src/cancelled-flights/cancelled-flights.repository.ts:2257-2321 | Once settled, status and orders stay whatever webhooks still store; only notes are added |
| WebhookRaces.LandsAsDeliveredIff | backend/src/cancelled-flights/hotel-allocation.service.ts:4340-4462 | Exactly when storing a result worked out from an earlier copy does what a delivery at that moment would do: the copy was settled, or the attempt settled since and would not note the report, or the copy is up to date on all orders the report is not about |
| WebhookRaces.LiveWaitRacesAreSerial | backend/src/cancelled-flights/cancelled-flights.repository.ts:2343-2367 | Within the live wait every race ends like the same deliveries one after another, as only undecided rows are written |
| WebhookRaces.OneOrderRacesAreSerial | backend/src/cancelled-flights/hotel-allocation.service.ts:4340-4462 | After it, a race in which only webhooks of one order overlap ends like the same deliveries in the order they stored, except for missed notes |
| WebhookRaces.AgreeingRacesSettleAlike | backend/src/cancelled-flights/hotel-allocation.service.ts:4340-4462 | If those reports agree, the race ends in the late-settlement rule on all of them |
| WebhookRaces.OverlapLosesReportIff | backend/src/cancelled-flights/cancelled-flights.repository.ts:2475-2509 | Of two overlapping webhooks the second is dropped if the first settles; otherwise the first report is lost if and only if it told something new about another order |
| WebhookRaces.ConfirmationCanBeLost | backend/src/cancelled-flights/cancelled-flights.repository.ts:2475-2509 | Both rooms reported booked at the same time leave the attempt under manual check with one room undecided; one after the other they confirm it |
| Ledger.AllotmentLedger.constructor | backend/src/cancelled-flights/hotel-allocation.planner.ts:320-324 | Starting stock, negative counts at zero |
| Ledger.AllotmentLedger.TryClaim | backend/src/cancelled-flights/hotel-allocation.planner.ts:342-360 | Claims all items or none, and succeeds exactly when every rate has enough rooms for the sum asked of it |
| Ledger.AllotmentLedger.ReleaseClaim | backend/src/cancelled-flights/hotel-allocation.planner.ts:362-372 | Gives a held claim's rooms back once; a claim already settled is left alone |
| Ledger.AllotmentLedger.CommitClaim | backend/src/cancelled-flights/hotel-allocation.planner.ts:374-378 | Commits a held claim; rooms stay taken |
| Ledger.ClaimConserves | backend/src/cancelled-flights/hotel-allocation.planner.ts:342-360 | Rooms left, held and committed add up to the starting stock of every rate after a claim |
| Ledger.ReleaseConserves | backend/src/cancelled-flights/hotel-allocation.planner.ts:362-372 | The same after a release |
| Ledger.CommitConserves | backend/src/cancelled-flights/hotel-allocation.planner.ts:374-378 | The same after a commit |
| Ledger.ReleaseUndoesClaim | backend/src/cancelled-flights/hotel-allocation.planner.ts:342-372 | Releasing a claim restores the stock it was made from |
| Planner.ToRoomNeeds | backend/src/cancelled-flights/hotel-allocation.planner.ts:90-105 | Groups rooms by type in order of first use |
| Planner.RoomNeedsCountRooms | backend/src/cancelled-flights/hotel-allocation.planner.ts:90-105 | Each type once, with exactly its number of rooms, none missing |
| Planner.ExpandRoomNeeds | backend/src/cancelled-flights/hotel-allocation.planner.ts:90-105 | Expanding the needs gives back the same multiset of rooms |
| Planner.ComputeHotelSetCapacity | backend/src/cancelled-flights/hotel-allocation.planner.ts:233-245 | The loop over needs computes the capacity function |
| Planner.SetCapacityIsLargest | backend/src/cancelled-flights/hotel-allocation.planner.ts:227-245 | k sets fit if and only if k times the rooms of each type are free |
| RateSelection.SelectCandidateRates | backend/src/cancelled-flights/hotel-allocation.planner.ts:400-461 | The greedy loop computes the selection function for any ledger and exclusions |
| RateSelection.SelectionCanBeClaimed | backend/src/cancelled-flights/hotel-allocation.planner.ts:400-461 | A successful selection can always be claimed from the ledger it was made against |
| RateSelection.PicksMatchRooms | backend/src/cancelled-flights/hotel-allocation.planner.ts:400-461 | One pick per room type, with its rooms, on an offered rate that is not excluded |
| RateSelection.OrderSelectedIff | backend/src/cancelled-flights/hotel-allocation.planner.ts:432-461 | A candidate for one order is selected if and only if an order for exactly its rooms is listed for every room type, not excluded and has enough rooms left; all rooms are then on it |
| RateSelection.GreedyIsCompleteWithoutSharing | backend/src/cancelled-flights/hotel-allocation.planner.ts:400-461 | When room types share no rate, greedy succeeds if and only if some assignment of rates that are not excluded fits |
| SharedRates.GreedyIsCompleteIff | backend/src/cancelled-flights/hotel-allocation.planner.ts:400-461 | For two room types: greedy finds rates on every stock on which some assignment exists, if and only if the first type nowhere prefers a rate of the second to a later one that the second does not offer or would have too few rooms of |
| SharedRates.GreedyIsMonotoneIff | backend/src/cancelled-flights/hotel-allocation.planner.ts:400-461 | For two room types: rooms taken by others never make a failing selection succeed, if and only if the first type does not need more rooms than the second while preferring a rate of the second to one the second does not offer |
| SharedRates.MonotoneWithoutSharing | backend/src/cancelled-flights/hotel-allocation.planner.ts:400-461 | The same holds for any number of room types that share no rate, and for multiroom orders |
| SharedRates.GreedyCanMiss | backend/src/cancelled-flights/hotel-allocation.planner.ts:512-584 | A hotel the planner builds and lists for a party, on which greedy misses an assignment with one stock and succeeds with less |
| CandidatePlanning.BuildCandidatePlan | backend/src/cancelled-flights/hotel-allocation.planner.ts:512-584 | The loop over hotels gives the ranked candidate list |
| CandidatePlanning.CandidatesAreRanked | backend/src/cancelled-flights/hotel-allocation.planner.ts:512-584 | Candidates are ranked by most stars, then by lowest price, and sorting neither loses nor invents one: the list holds exactly what the hotels with enough stars build |
| Rankings.RatesAreRanked | backend/src/cancelled-flights/hotel-allocation.planner.ts:524-538 | The rates offered for a room type are exactly those with rooms left that hold it: pool rates first, then exact fits, then fewer spare places, then cheaper ones |
| Rankings.OptionsAreRates | backend/src/cancelled-flights/hotel-allocation.planner.ts:538-546 | Each option carries its rate's key, places, price, allotment and pool flag |
| Rankings.CandidateIs | backend/src/cancelled-flights/hotel-allocation.planner.ts:547-578 | A candidate carries its hotel's code, stars and ring, the price of all rooms its full allotments allow, and whether that leaves the pool |
| Rankings.CandidatesStandInOrder | backend/src/cancelled-flights/hotel-allocation.planner.ts:578-584 | Candidates, room by room or as orders, stand by stars, price, distance, pool and code |
| Rankings.OrderCandidateIs | backend/src/cancelled-flights/hotel-allocation.planner.ts:464-505 | A hotel is a candidate for one order exactly if it offers it; its price is its lowest, and every room type lists its orders, cheapest first |
| CandidatePlanning.PartyIsPreserved | backend/src/cancelled-flights/hotel-allocation.planner.ts:512-584 | For any split, candidate and selection the rooms sent are exactly the split's rooms, and each rate holds its room |
| CandidatePlanning.OrderPartyIsPreserved | backend/src/cancelled-flights/hotel-allocation.planner.ts:464-510 | The same for a split booked as one multiroom order |
| RoomSplits.CheapestIs | backend/src/cancelled-flights/hotel-allocation.planner.ts:154-173 | A room type has a cheapest price exactly when some hotel offers it, and no offer is cheaper |
| RoomSplits.OneHotelOffersAll | backend/src/cancelled-flights/hotel-allocation.planner.ts:191-200 | The one-hotel flag means that a hotel offers every room type of the split |
| SplitChoice.ChosenIsBest | backend/src/cancelled-flights/hotel-allocation.planner.ts:149-222 | Told from the hotels' offers: the ranked split can be covered, and no coverable split of the plan is better, by one hotel for all its rooms, then the sum of the lowest prices (or the lowest order price), then fewer room types, then fewer rooms; none exactly when none can be covered |
| SplitChoice.EarlierAreWorse | backend/src/cancelled-flights/hotel-allocation.planner.ts:149-222 | Among equals the plan's earlier split is chosen |
| SplitChoice.ClassComesFirst | backend/src/cancelled-flights/hotel-allocation.planner.ts:130-147 | The best split that hotels of the class cover; if they cover none, the best that any cover; else the preferred one |
| SplitChoice.OrderPricesAre | backend/src/cancelled-flights/hotel-allocation.planner.ts:179-193 | An order price exists exactly when a hotel offers these rooms as one order, and is the lowest such price |
| RoomSplits.ChoiceIsFromPlan | backend/src/cancelled-flights/hotel-allocation.planner.ts:130-147 | The chosen split is one of the plan's, and leaves the preferred one only for a split that can be covered |
| RoomSplits.BookedRoomsHoldTheParty | backend/src/cancelled-flights/hotel-allocation.service.ts:3578-3583 | End to end, room by room or as one order: for every party with a rule, the rooms sent are the planned split and hold exactly its adults and children with an adult in each room |
| Rooms.ArrangementPossibleIffRoomsExist | backend/src/cancelled-flights/hotel-allocation.service.ts:1005-1035 | The closed test holds if and only if some room list is accepted |
| Rooms.RulesAreUsedAsConfigured | backend/src/cancelled-flights/hotel-allocation.service.ts:259-590 | Every configured rule is valid for its party and within the supplier's limits, so none is rejected and no fallback dropped |
| Rooms.PartiesWithRules | backend/src/cancelled-flights/hotel-allocation.service.ts:259-420 | Every party of up to nine travellers that can be arranged at all has a rule, and no other party has one |
| Rooms.PartyIsResolved | backend/src/cancelled-flights/hotel-allocation.service.ts:540-590 | A party is refused exactly without an adult, with a negative count of children or without a rule, and never for an invalid rule |
| Rooms.CustomRoomsAreRefusedIff | backend/src/cancelled-flights/hotel-allocation.service.ts:1005-1025 | Rooms set by a user are refused for the first of four reasons, and accepted if and only if none holds |
| PlanLedger.BuildPlanLedger | backend/src/cancelled-flights/hotel-allocation.service.ts:3469-3498 | The ledger starts with max(0, allotment minus rooms of live attempts of the same plan) for every rate |
| PlanLedger.StartingRoomsAre | backend/src/cancelled-flights/hotel-allocation.service.ts:3469-3498 | A rate starts with its newest offer's allotment less the rooms, counted one by one, that live attempts of that offer's plan have on it |
| PlanLedger.SnapshotIsNewest | backend/src/cancelled-flights/hotel-allocation.service.ts:3473-3482 | A rate's allotment and plan are those of its newest candidate |
| PlanLedger.AllotmentIsNotExceeded | backend/src/cancelled-flights/hotel-allocation.service.ts:3469-3601 | Rooms a run books plus rooms live attempts hold stay within the allotment of every rate |
| AllocationRun.PlannedPnr.SelectAndClaim | backend/src/cancelled-flights/hotel-allocation.service.ts:3538-3567 | Claims the rates of the first unrestricted candidate that can be selected, or changes nothing |
| AllocationRun.PlannedPnr.TakeTurn | backend/src/cancelled-flights/hotel-allocation.service.ts:3525-3577 | One turn of the loop, in place, equals the turn function |
| AllocationRun.PlannedPnr.ResumeWith | backend/src/cancelled-flights/hotel-allocation.service.ts:3594-3612 | The code after an attempt, in place, equals the resume function, whose effect `RunOutcomes` gives |
| RunOutcomes.AnswerEnds | backend/src/cancelled-flights/hotel-allocation.service.ts:3594-3612 | What a worker ends with is what its attempt answered; a rejection, and nothing else, costs a failure and excludes its rates |
| RunOutcomes.RestrictedIff | backend/src/cancelled-flights/hotel-allocation.service.ts:3600-3607 | In every interleaving a hotel is closed to all PNRs if and only if it was at the start or an attempt at it came back rejected as a group booking |
| RunOutcomes.NoTryAtRestricted | backend/src/cancelled-flights/hotel-allocation.service.ts:3536-3562 | Once a hotel is closed no worker tries it |
| RunOutcomes.RefusedHotelIsLeft | backend/src/cancelled-flights/hotel-allocation.service.ts:3536-3607 | After a group-booking rejection no later attempt of any PNR is made at that hotel |
| RunOutcomes.ClaimsEndAsAnswered | backend/src/cancelled-flights/hotel-allocation.service.ts:3594-3602 | In every interleaving a claim is committed exactly if its PNR ended booked or unresolved by it, held exactly while its attempt runs or after it crashed, and given back otherwise |
| RunOutcomes.GivesUpOnlyAtLimit | backend/src/cancelled-flights/hotel-allocation.service.ts:3516-3532 | A PNR is given up only when its attempts are used up, those of earlier runs included unless the run grants new ones |
| RunOutcomes.StepsAreTurns | backend/src/cancelled-flights/hotel-allocation.service.ts:3524-3612 | A step of the run is the worker's own turn or the rest of its loop body |
| AllocationTheorems.TurnClaims | backend/src/cancelled-flights/hotel-allocation.service.ts:3538-3577 | A turn ends the worker or claims the first selectable candidate; it gives up exactly when the budget is spent and finds no rooms exactly when nothing is selectable |
| AllocationTheorems.RunKeepsInv | backend/src/cancelled-flights/hotel-allocation.service.ts:3508-3613 | Conservation, claims in step with attempts, budgets and exclusions hold after every interleaving |
| AllocationTheorems.NoOverbooking | backend/src/cancelled-flights/hotel-allocation.service.ts:3540-3601 | In every interleaving rooms left plus rooms really booked never exceed the starting stock of any rate |
| AllocationTheorems.NoRateIsRetried | backend/src/cancelled-flights/hotel-allocation.service.ts:3604-3608 | Two tries of a PNR never share a rate, nor one it failed on in an earlier run |
| AllocationTheorems.TriesStayInBudget | backend/src/cancelled-flights/hotel-allocation.service.ts:3518-3537 | A PNR makes at most its remaining budget of attempts |
| AllocationTheorems.PastFailuresCount | backend/src/cancelled-flights/hotel-allocation.service.ts:3508-3525 | Definite failures of earlier runs use up the limit per PNR, unless the run grants a number of new attempts |
| AllocationTheorems.OnlyDefiniteFailuresExclude | backend/src/cancelled-flights/hotel-allocation.service.ts:3508-3520 | A PNR starts with exactly the rates excluded that an attempt of it definitely failed on; one interrupted before its request excludes none |
| AllocationTheorems.WorkersTerminate | backend/src/cancelled-flights/hotel-allocation.service.ts:3528-3613 | A PNR takes at most two turns more than its remaining budget, however workers interleave |
| AllocationTheorems.WorkersCanAlwaysMove | backend/src/cancelled-flights/hotel-allocation.service.ts:3528-3613 | A worker has an enabled step if and only if it has not ended |
| ClaimedRooms.RequestsMatchClaim | backend/src/cancelled-flights/hotel-allocation.service.ts:3578-3583 | The rooms requested of each rate are as many as the claim holds |
| ClaimedRooms.AttemptStaysInClaim | backend/src/cancelled-flights/hotel-allocation.service.ts:3578-3601 | An attempt books no more rooms of any rate than its claim, and none when it is rejected or blocked, which is when the claim is released |
| ClaimedRooms.ConfirmedBooksTheClaim | backend/src/cancelled-flights/hotel-allocation.service.ts:3563-3594 | A confirmed attempt books exactly the rooms of its claim, rate by rate |
| ClaimedRooms.AnswerTells | backend/src/cancelled-flights/hotel-allocation.service.ts:3594-3607 | The run hears "confirmed" exactly if every unit was accepted and confirmed and the booking saved, and a group-booking rejection exactly if the supplier so answered the first request |
| ClaimedRooms.EveryAttemptCanReturn | backend/src/cancelled-flights/hotel-allocation.service.ts:3578-3601 | In every reachable state, whatever supplier, wallet and database answer, an attempt's answer and its really booked rooms are a step the run takes |
| Preview.PreviewAllocations | backend/src/cancelled-flights/hotel-allocation.service.ts:2985-3038 | The preview loop on a ledger of its own equals the allocation function |
| Preview.RunTakesPreviewsHotels | backend/src/cancelled-flights/hotel-allocation.service.ts:2983-3038 | With equal candidates, stock and all bookings confirmed, the k-th claim of any interleaving takes the preview's k-th hotel and rates |
| Preview.PreviewPredictsBookings | backend/src/cancelled-flights/hotel-allocation.service.ts:2983-3038 | Such a run ends with exactly as many booked PNRs as the preview allocates |
| Preview.NullStaysNull | backend/src/cancelled-flights/hotel-allocation.service.ts:2997-3038 | Once a PNR gets nothing, no later PNR gets anything |
| PreviewRanks.RanksNeverFallIff | backend/src/cancelled-flights/hotel-allocation.service.ts:2997-3038 | From no stock does a later PNR get a better rank, or one after an unserved PNR, if and only if no single allocation makes a hotel it passed over selectable |
| PreviewRanks.RanksNeverFall | backend/src/cancelled-flights/hotel-allocation.service.ts:2997-3038 | So it is when each hotel keeps its rates to itself or never gains from rooms taken away (`Monotone`) |
| PreviewRanks.RanksCanFall | backend/src/cancelled-flights/hotel-allocation.service.ts:2997-3038 | Two hotels that the planner lists for one party and whose preview gives three PNRs the first, the second and again the first hotel |
| Concurrency.ConcurrentMap.RunnerTurn | backend/src/cancelled-flights/hotel-allocation.service.ts:477-493 | A runner's turn on the shared variables equals the turn function |
| Concurrency.EveryIndexOnce | backend/src/cancelled-flights/hotel-allocation.service.ts:477-493 | For any interleaving each index is started once, its own result is at its own index, and never more than `limit` workers run |
| Stages.LowerClassesWait | backend/src/cancelled-flights/hotel-allocation.service.ts:3369-3402 | No PNR of a lower class starts before every PNR of a higher class has ended |
| Stages.AllStagesEndAllPnrs | backend/src/cancelled-flights/hotel-allocation.service.ts:3369-3402 | After the last stage every PNR has ended |
| StageProgress.TurnTakesOne | backend/src/cancelled-flights/hotel-allocation.service.ts:477-493 | Every turn of an unfinished runner does one unit of the pool's work, one for each index and each runner |
| StageProgress.StagesEnd | backend/src/cancelled-flights/hotel-allocation.service.ts:3369-3402 | The stages take the same number of moves in every interleaving, and are over after them and no sooner |
| StageProgress.EveryPnrStartsAndEnds | backend/src/cancelled-flights/hotel-allocation.service.ts:3369-3402 | When they are over every PNR has started and then ended |
| Search.BuildLists | backend/src/cancelled-flights/hotel-allocation.service.ts:2474-2518 | The list-building loop equals the list function |
| Search.ListsSumUp | backend/src/cancelled-flights/hotel-allocation.service.ts:2484-2507 | One list per key, with the sum of its needs and the highest minimum stars |
| Search.SplitNeedsItsRooms | backend/src/cancelled-flights/hotel-allocation.service.ts:2508-2518 | Room by room a preferred split needs exactly its rooms of each type |
| Search.SearchSplits | backend/src/cancelled-flights/hotel-allocation.service.ts:2450-2654 | The ring loop equals the widening function, whose end `SearchSupply.EarlyStopMeansEnough` gives; no hotels found is an error exactly when both maps stayed empty |
| Search.SupplyNeverFalls | backend/src/cancelled-flights/hotel-allocation.service.ts:2524-2562 | Merging a ring never lowers the supply of any list |
| Search.DroppedListsStaySatisfied | backend/src/cancelled-flights/hotel-allocation.service.ts:2568-2640 | At return the short lists are exactly those below target, and the search stopped early only if there are none |
| Search.TargetIsCeiling | backend/src/cancelled-flights/hotel-allocation.planner.ts:224-225 | The target is the least k >= 1 with needed x ratio <= k |
| SearchSupply.BelowClassAddsNothing | backend/src/cancelled-flights/hotel-allocation.service.ts:2542-2546 | Hotels below a list's minimum stars add nothing to its supply |
| SearchSupply.SplitAsksFor | backend/src/cancelled-flights/hotel-allocation.service.ts:2508-2518 | A split of several rooms asks for one order where the supplier books such orders; otherwise a split asks for each of its rooms, and for a whole set if it has several |
| SearchSupply.DemandAdds | backend/src/cancelled-flights/hotel-allocation.service.ts:2508-2518 | A PNR adds its preferred split, needed once, and its fallbacks, needed by nobody yet |
| SearchSupply.SupplyIs | backend/src/cancelled-flights/hotel-allocation.service.ts:2541-2563 | Supply is the sum, over the hotels of the class and no other, of free rooms of exactly the type, of whole orders, or of whole sets |
| SearchSupply.SetsFit | backend/src/cancelled-flights/hotel-allocation.planner.ts:226-245 | k sets fit into a hotel if and only if it has k times the rooms of each type |
| SearchSupply.EarlyStopMeansEnough | backend/src/cancelled-flights/hotel-allocation.service.ts:2568-2640 | At return the short lists are exactly those for which the hotels of their class hold too little; an early stop means that they hold enough for every list |
| Csv.ParseCsvRows | backend/src/cancelled-flights/booking-import.ts:182-228 | The character loop with its look-ahead equals the state machine on normalised text |
| Csv.ReplacingIsBreaks | backend/src/cancelled-flights/booking-import.ts:187-190 | The two replacements together turn every line break into one line feed |
| Csv.ParsePrinted | backend/src/cancelled-flights/booking-import.ts:182-228 | Parsing any printed table gives its cells with normalised line breaks, but for a lost last row |
| Csv.RoundTripIff | backend/src/cancelled-flights/booking-import.ts:182-228 | Printing then parsing is the identity if and only if no cell has a carriage return and the last row is not one empty cell without a line end |
| Csv.MarkIsLost | backend/src/cancelled-flights/booking-import.ts:187-188 | A table whose text begins with a byte order mark never comes back |
| BookingRows.FitRowToHeader | backend/src/cancelled-flights/booking-import.ts:447-496 | The ages loop and the trimming loop equal the fitting function |
| RowFitting.TailIsKept | backend/src/cancelled-flights/booking-import.ts:455-485 | The cells before Child Ages stay; the next holds the leading ages, at most as many as children, and the last the rest, and reading both gives exactly the values the tail had, in order |
| RowFitting.OtherRowsAreCut | backend/src/cancelled-flights/booking-import.ts:487-495 | Any other row is cut at the header, and too long exactly if a value beyond it is not blank |
| BookingRows.QuotingTheTailDoesNotMatter | backend/src/cancelled-flights/booking-import.ts:440-484 | Ages and notes read the same quoted in one cell or split over several |
| BookingRows.RowsAreWellParsed | backend/src/cancelled-flights/booking-import.ts:564-594 | A row is importable exactly when it has no errors, and only the first row of a PNR can be |
| BookingRows.DataRowsAre | backend/src/cancelled-flights/booking-import.ts:545-548 | The data rows are exactly the non-blank rows below the header, in order, numbered as in a spreadsheet |
| RowFitting.RowSays | backend/src/cancelled-flights/booking-import.ts:565-594 | Each row keeps its number and values; its errors are, in order, the earlier row with its PNR, its length and what its values say; without errors it has its booking |
| RowFitting.FileIsRefusedIff | backend/src/cancelled-flights/booking-import.ts:533-556 | Exactly when a file is refused as empty, for its columns, or as having no rows |
| BookingRows.PrintedFileIsRead | backend/src/cancelled-flights/booking-import.ts:533-594 | A printed file is read as the table it was printed from, row for row, and its accepted rows are importable exactly when they have no errors |
| BookingImport.FlightImports.ImportBookings | backend/src/cancelled-flights/cancelled-flights.service.ts:540-600 | The row loop and the table writes equal the import function; the summary counts them |
| BookingImport.RowsArePartitioned | backend/src/cancelled-flights/cancelled-flights.service.ts:553-575 | Imported, skipped and failed rows add up to the rows of the file |
| BookingImport.FateIsDecidedBy | backend/src/cancelled-flights/booking-import.ts:499-525 | A valid row is imported if and only if its PNR is not saved; otherwise it is skipped if it says what is saved in every detail, and fails if it differs in any |
| BookingImport.FailuresAreReplaced | backend/src/cancelled-flights/cancelled-flights.repository.ts:771-796 | The failed rows after an import are exactly this file's failed rows and the earlier ones whose PNR the file does not mention |
| BookingImport.ImportKeepsPnrsUnique | backend/src/cancelled-flights/cancelled-flights.service.ts:540-600 | An import never gives a flight two bookings of one PNR |
| BookingImport.ImportingAgainKeepsBookings | backend/src/cancelled-flights/booking-import.ts:499-525 | Uploading the file again leaves the booking table as after the first upload |
| BookingImport.ImportingAgainAddsNamelessFailures | backend/src/cancelled-flights/cancelled-flights.repository.ts:771-796 | A second upload changes nothing if and only if every row has a PNR; otherwise it adds the rows without one again |
| Money.SplitIsExact | backend/src/cancelled-flights/hotel-allocation.service.ts:467-475 | The shares of any total over any number of rooms add up exactly |
| Money.NegativeShareIff | backend/src/cancelled-flights/hotel-allocation.service.ts:467-475 | Exactly which totals give a negative last share |
| Money.EnoughForEveryRoom | backend/src/cancelled-flights/hotel-allocation.service.ts:467-475 | From parts x (parts - 1) / 2 cents on every share is non-negative |
| Money.PricesAddUp | backend/src/cancelled-flights/hotel-allocation.service.ts:5167-5203 | Rounded totalPrice is actualPrice plus platformFee, and earnings are totalPrice minus buyingPrice, exactly |
| Money.PricesAre | backend/src/cancelled-flights/hotel-allocation.service.ts:5167-5203 | Every amount is the exact one rounded to the cent: selling price less commission, the fee on selling price and tax, total, earnings and discount |
| Money.ChargeEqualsReservation | backend/src/cancelled-flights/hotel-allocation.service.ts:3862-3881 | Booked at its re-checked prices, a manual booking is charged exactly its reserved share |

## Left out

- PnrStateIsWhatAttemptsImply: does not speak of PNRs whose recovery is half done, because there the statement is false; `ConfirmedIffBooked` holds for them too.
- AttemptIsAllOrNone: "booked" is what the supplier answered or silently did at the time; an attempt failed for want of a final status may still be booked there, as the source's own message says.
- EveryIndexOnce: covers workers that return; when a worker throws, the source's promise rejects while the other runners go on.
- DroppedListsStaySatisfied: with a negative allotment a later ring can lower the supply of a single-room list, so non-negative allotments are assumed.
- RunTakesPreviewsHotels: needs equal candidate lists, no earlier attempts and every booking confirmed, the assumptions the preview itself makes.
- RoundTripIff: is about texts that do not begin with a byte order mark; `MarkIsLost` says what happens to those.
- OrderDoesNotMatterIff: is about deliveries handled one after another on open attempts past their live wait; `FirstResultCountsInLiveWait` is about the wait, a settled attempt only takes notes, and `WebhookRaces` is about deliveries that overlap.
- OneOrderRacesAreSerial: is about webhooks among themselves; of a webhook that overlaps a status check or the live result `BookingProtocol` follows the attempt's status, not its order rows.
- GreedyIsCompleteIff: is about two room types; for more, `GreedyIsCompleteWithoutSharing` gives the sufficient condition only (types that all share their rates are a packing problem, and no closed condition was reached).
- RanksNeverFallIff: its condition speaks of every stock; `RanksNeverFall` gives a sufficient one on the rates alone, exact conditions on shared rates were not reached.
- DeliveredTwice: is about the attempt; a repeated webhook of a confirmed attempt also refreshes the flight's totals, which `RefreshDelaysTakeover` is about.
- RecordedOrdersSettleLikeLive: is about providers that create the order before they book it; for others the attempt has no orders to settle from.
- BookedRoomsHoldTheParty: rooms a user forces on a preview are not covered, as no rule chose them.
- RulesAreUsedAsConfigured: which split a party prefers is configuration; the lemmas say what every entry satisfies and which parties have one (`PartiesWithRules`).
- TailIsKept: assumes of trimming that it is idempotent, ignores a leading space and puts in no comma (`IsTrim`).
- One flight at a time: flights share no rows except the wallet.
- Legacy `temp-` placeholder bookings, and flights that are already PAID; the PAID status appears only in guards (the payment step that would set it is a configuration of the source).
- Wallet holds: reserving is an answer and charging a counted event; the hold tables and `releaseUnbookedWalletShares` are not modelled.
- Reason texts, notes' wording, currencies, hotel content, order info refresh, airline and fee settings.
- Prices as floating point: amounts are cents, fractions exact, rounding half up; the guard against non-finite numbers is left out.
- `buildSupplyPools`: pools are an arbitrary parameter of candidate planning, so the proofs hold for whatever pools it builds.
- `mapHeader`: header matching is a parameter that may refuse the file; field validation of a row is the parameter `read`.
- `recordProviderOrder` and `recordWebhookOrderStatus` as steps of their own: orders are values of one attempt; a refused order counts as a rejected unit.
- `confirmAttemptFromWebhook` looking up the booking and rates again before it confirms.
- `getHotelRecommendations` and the other read-only listings and summaries: aggregation without state.
- Controllers, authentication, scheduling of timers, supplier adapters, e-mail, PDF and administration.
