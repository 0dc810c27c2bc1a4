# Verification of the gateway's ledgers, queues and translations

This project models the stateful core of the gateway and proves properties of the model with
Dafny. It is organised by component; every component is independent of the others except that
the alert messages use the diagnostic boundary, the weighted pick uses the donation limiter, and
the fishing rounds share the credit ledger with the charity calls.

- **Charity ledger** (`Charity`, `CharityLaws`, `CharityRuns`, `CharityRounds`, `CharityRecovery`,
  `CharityCalls`, `CharityTables`, `CharityOutcome`, `CharityStore`, `CharityRequest`). Users, donations, reservations and game rounds as tables, each
  SQL transaction as one atomic step on them. The laws are about whole runs: any interleaving of
  requests, settlement, stale scans, administrators, housekeeping and restarts. `CharityStore` holds
  the transactions as they are written, updating working copies of tables in place; each method is
  proved equal to its step. `CharityCalls` says what a whole call moves and `CharityTables` what every other
  transaction does, over the tables before and after it. `CharityRequest` follows one request through lease, reservation, dispatch
  mark, use of the credential and settlement, with any other events between its steps.
- **Settlement worker** (`Settlement`, `SettlementEffect`). The pending map, the bounded queue and the worker loop as a
  state machine whose database calls interleave with everything else, and the worker as a class; what an
  attempt does to the ledger, and that a worker left alone settles everything.
- **Daily activity** (`Activity`, `ActivityLaws`, `ActivityFreezing`, `ActivityMeaning`, `ActivityStore`). The nine
  counters of the site's day, kept by increments, against a recomputation from all users; and what
  a completed day is frozen as.
- **Messages and contracts** (`Slots`, `Contracts`, `AppBinding`). The greedy matching of chat
  messages to template slots, the layouts of the eight services against the contract table, and the
  binding check through the renaming of a downloaded template.
- **Diagnostics and alerts** (`Utf8`, `Diagnostic`, `AlertSubject`). Bounding of untrusted text, with
  UTF-8 as sections 3 and 4 of RFC 3629 define it, and the printer and parser of the two alert
  messages that name a user.
- **Debug sessions** (`DebugQueue`, `DebugHub`, `DebugLocks`). The bounded event queue with a reader that
  receives between any two operations of a push, the life of sessions under stale timers, and both
  together with the locks that a waiting push keeps.
- **Rate limits** (`SlidingWindows`, `ProbeLimiter`, `DonationLimiter`, `IpThrottle`,
  `LoginThrottle`, `WeightedPick`).
- **Fishing economy** (`Fishing`), **mail aggregation** (`Cooler`), **stream relay** (`Relay`),
  **sessions** (`Sessions`).
- `Options`, `MapSums` and `Text` are the shared vocabulary.

`dafny verify dfyconfig.toml` checks the whole project.

## Conventions

Times are whole seconds, money and counts are unbounded integers, the game's arithmetic is over the
reals. A transaction that fails leaves the tables as they were. Random ids are fresh. SQL updates
read the row as it was before the statement. A map iterated in the original is visited in an
arbitrary order.

## Where a promise holds only under a condition

- The reward of a committed call is paid exactly if the donor's account existed while the call was
  in flight, which is settled when the call is reserved (`CharityRuns.RewardIsPaidIffDonorExists`).
  The guards on deletion make that permanent, but a donation whose source was looked up before the
  account was deleted and inserted after it names nobody
  (`CharityRuns.SourceDeletedBeforeInsertIsNotPaid`).
- A donation's uses balance exactly as long as no patch shrinks its total below what is already
  used (`CharityRuns.RunConservesUses`); otherwise uses are only ever over-covered.
- The per-address throttle caps every window exactly when its penalty is at least as long as its
  window (`IpThrottle.CapHoldsIffPenaltyCoversWindow`).
- A push to a debug session is meant never to block (handler/debug_user.go:402-405). It can block exactly
  if the queue is not empty and the accounted bytes leave no room for the event and a notice
  (`DebugQueue.WaitsIffEvictsForBytes`). Bytes are not given back for events the reader receives, so
  events of any size lead there from an empty queue when the reader stays one event behind
  (`DebugQueue.SlowReaderMakesAPushWait`); at 400 KiB it is the eleventh push
  (`DebugQueue.APushCanWait`).
- An active debug session would be ended by its idle and its lifetime callback exactly if no push waits in
  it and no operation behind such a push keeps the hub (`DebugLocks.ActiveEndsUnlessKept`); that is so
  on every run in which no push meets the condition above (`DebugLocks.RoomyRunForgetsNone`).
- A session stays good up to a day before its cap exactly under gaps shorter than six days
  (`Sessions.GapBoundIsExact`), and under such gaps exactly up to a day before the cap
  (`Sessions.EndBoundIsExact`). On that last day it is good exactly until its stored expiry, however it
  is used (`Sessions.LateExpiryIsFinal`).
- Recoveries end with the same rows in every column if no donation's deadline passes meanwhile
  (`CharityOutcome.RecoveryIsUniqueInFull`); an exhausted donation is revived by its last use exactly if
  the use comes back before the deadline (`CharityOutcome.RevivedIffBeforeDeadline`).
- The comment at translator/contracts.go:212 says that an unknown service reports no variables; the
  code gives it the variables of the custom contract, and the model follows the code.

## Model

| member | source | states |
|---|---|---|
| CharityLaws.ApplyKeepsValid | db/users.go:535-545 | every transaction keeps the ledger's structure: in-flight rows have their consumer and donation, snapshots are consistent, because deletions are refused meanwhile |
| CharityLaws.DeletedAreIdle | db/donations.go:554-589 | a deletion that succeeds removes only donations that no call in flight refers to, one after the other in the batch |
| CharityLaws.BookedSum | db/charity_reservations.go:58-118 | the sum of any in-flight amount over all reservations changes exactly by what the transaction's entry books |
| CharityLaws.ApplyKeepsWealth | db/charity_reservations.go:92-101 | one transaction changes balances plus held prices by exactly the value of its entry |
| CharityLaws.ApplyKeepsSlack | db/donations.go:274-283 | one transaction never loses a use, and leaves the exact balance except when a patch shrinks the total below usage |
| CharityLaws.CreatedWithoutSlack | db/donations.go:142-184 | a new donation starts balanced |
| CharityRuns.RunConservesCredits | db/charity_reservations.go:217-234 | over every run, balances plus prices in flight equal the start plus check-ins, rewards, payouts and adjustments minus committed prices and tickets |
| CharityRuns.RunConservesUses | db/charity_reservations.go:73-86 | over every run remaining plus in-flight plus successes never loses against the total, and stays equal to it exactly as long as no patch shrinks the total below usage |
| CharityRuns.RunCoversUses | db/charity_reservations.go:73-86 | the same cover for every donation there is, including those created on the way |
| CharityRuns.RunReflects | db/charity_reservations.go:122-320 | over every run a reservation lives through reserve and release, or reserve, dispatch and commit, or a beginning of one; it ends at most once and a refund is the price charged |
| CharityRuns.DispatchedIsNeverReleased | db/charity_reservations.go:254-320 | once the dispatch mark succeeded no release ever happens to that reservation |
| CharityRuns.StepKeepsDonor | db/users.go:535-545 | while a call is in flight its snapshot and its donor's existence do not change |
| CharityRuns.SettledIsQuiet | db/charity_reservations.go:196-320 | nothing happens any more to a reservation that is not in flight |
| CharityRuns.RewardIsPaidIffDonorExists | db/charity_reservations.go:217-234 | a commit pays the snapshot reward exactly if the donor existed while the call was in flight |
| CharityRuns.SourceDeletedBeforeInsertIsNotPaid | handler/donations.go:292-302 | a concrete run in which the reward is lost because the source was deleted between its lookup and the insert |
| CharityRuns.ReleaseRevivesExhausted | db/charity_reservations.go:281-298 | a release reopens a donation exactly if reservations exhausted it before its deadline, never one past it or switched off |
| CharityCalls.ReserveSucceedsIff | db/charity_reservations.go:58-118 | a call is reserved exactly if the amounts are not negative, the donation is on, ahead of its deadline and not used up, the consumer can pay and the id is new |
| CharityCalls.ReserveRefusal | db/charity_reservations.go:58-101 | and the reason of a refusal is the first of amounts, donation, consumer and id |
| CharityCalls.ReserveRecords | db/charity_reservations.go:88-118 | the row is a snapshot of who pays, what, from which donation, and of the source that the donation has |
| CharityCalls.ReleasedCallLeavesNothing | db/charity_reservations.go:254-320 | reserving and releasing leaves every balance and donation as before, but for a counted failure or a use that came back after the deadline |
| CharityCalls.CommittedCallMoves | db/charity_reservations.go:217-234 | reserving, marking and committing moves one price, one use and one reward, to the source the donation had, and nothing else |
| CharityCalls.RunPaysTheSource | db/charity_reservations.go:88-113 | over every run, a call reserved at any point of it and committed pays the reward exactly if the donation's source was a user when it was reserved |
| CharityRounds.StepPaysRound | db/games.go:559-638 | a step pays for a round only while it is open, the amount decided at its start, and closes it |
| CharityRounds.RoundPaysOnce | db/games.go:559-638 | over every run an open round is paid at most once and a settled or deleted one never |
| CharityTables.RoundPaysWhatWasDrawn | db/games.go:500-638 | over every run a round pays at most once, and then what was drawn at its start |
| CharityTables.StartMoves | db/games.go:480-557 | who can start a round, what it costs and what is stored, or the first reason against it |
| CharityTables.SettleMoves | db/games.go:559-638 | an open round of its player pays that player what was drawn, and is closed |
| CharityTables.RepeatsAndRefusals | db/charity_reservations.go:122-320 | a repeated mark, commit or release changes nothing, and one out of order names its error |
| CharityTables.MarkMoves | db/charity_reservations.go:122-141 | a mark moves a reserved row to dispatched, and nothing else |
| CharityTables.PurgeTakesTheOld | db/charity_reservations.go:387-395 | a purge takes exactly the settled rows older than the cutoff |
| CharityTables.PatchRefusal | db/donations.go:207-345 | the first reason against a patch, or none |
| CharityTables.PatchMoves | db/donations.go:239-310 | a new total keeps what has been used, and nothing goes below zero; switching on forgets consecutive failures |
| CharityTables.BatchError | db/donations.go:484-538 | a selection is refused for the first of its donations that cannot be switched, and only then |
| CharityTables.BatchMoves | db/donations.go:484-538 | otherwise each is switched as it would be alone, and no other |
| CharityTables.ExpireMoves | db/donations.go:651-664 | exactly the donations whose deadline has come are expired |
| CharityTables.CreateMoves | db/donations.go:142-184 | a donation begins unused and switched off |
| CharityTables.DeletableIff | db/donations.go:554-589 | a batch can be deleted exactly if all exist, none is listed twice and no call in flight uses any |
| CharityTables.DeleteMoves | db/donations.go:554-589 | then exactly those are removed, and otherwise nothing |
| CharityTables.DeletionRefusal | db/users.go:471-545 | why a user cannot be deleted |
| CharityTables.DeletionMoves | db/users.go:546-600 | after a deletion no user, donation or round names the user, and all else is as before |
| CharityTables.DeletionAnonymises | db/users.go:546-560 | a settled call stays for its other party without the user, and goes if it was about nobody else |
| CharityTables.CheckInMoves | db/users.go:306-337 | who is paid for a check-in, and the first reason against it |
| CharityTables.PaidOnceADay | db/users.go:306-337 | over every run in which a user checks in on one day only, it is paid at most once |
| CharityRecovery.SettleSucceeds | db/charity_reservations.go:325-364 | settling any row of a consistent ledger succeeds and leaves it not in flight |
| CharityRecovery.SettleKeepsForecast | db/charity_reservations.go:196-320 | one settlement moves credits, contributions and uses to where they were already due |
| CharityRecovery.RecoveryKeepsForecast | db/charity_reservations.go:325-364 | recovery, interrupted and rerun anywhere, never changes what is due |
| CharityRecovery.RecoveryIsUnique | db/charity_reservations.go:325-364 | any two recoveries that finish leave the same balances, uses and statuses of calls |
| CharityRecovery.RecoverySettles | db/charity_reservations.go:325-364 | a recovery that covers the pending rows leaves nothing in flight |
| CharityOutcome.SettleKeepsEnd | db/charity_reservations.go:196-320 | one settlement leaves the row in which every user, donation and call ends as it was due, the revival of an exhausted donation and the reset of failures included |
| CharityOutcome.RevivedIffBeforeDeadline | db/charity_reservations.go:254-320 | the last use of an exhausted donation revives it exactly if it comes back before the deadline |
| CharityOutcome.RecoveryIsUniqueInFull | db/charity_reservations.go:325-364 | two recoveries that finish and during which no deadline passes leave every column of every row the same, but for the stamps of settlement |
| CharityStore.Store.ReserveCharityCall | db/charity_reservations.go:58-118 | claims one use and debits the consumer, both or neither, with each error case; the row records the consumer, the amounts and the source of the donation before the call |
| CharityStore.Store.MarkCharityDispatched | db/charity_reservations.go:122-142 | succeeds exactly if the row is then durably dispatched |
| CharityStore.Store.CommitCharityReservation | db/charity_reservations.go:196-247 | commits a dispatched row with its effects once, is idempotent on a committed one, refuses the others |
| CharityStore.Store.ReleaseCharityReservation | db/charity_reservations.go:254-320 | refunds and restores a reserved row once, counts the failure if asked, is idempotent on a released one, refuses the others |
| CharityStore.Store.SettlePending | db/charity_reservations.go:325-364 | releases a reserved and commits a dispatched row |
| CharityStore.Store.SettleListed | db/charity_reservations.go:325-364 | the recovery loop over listed rows keeps the forecast and settles as many rows as its budget allows |
| CharityStore.Store.RecoverCharityReservations | db/charity_reservations.go:325-364 | counts what it settled; when it is not interrupted nothing is left in flight |
| CharityStore.Store.PurgeSettledCharityReservations | db/charity_reservations.go:387-396 | deletes only settled rows older than the cutoff |
| CharityStore.Store.PatchDonation | db/donations.go:207-379 | the count delta, the clamp at zero, the deadline and the activation gate, or the first error: missing or expired row, bad rate, deadline or total, no pricing, no record for a review note |
| CharityStore.Store.BatchSetDonationStatus | db/donations.go:484-535 | all of the batch or none, with the first error |
| CharityStore.Store.ExpireOverdueDonations | db/donations.go:651-660 | expires exactly the active entries past their deadline and counts them |
| CharityStore.Store.DeleteDonations | db/donations.go:554-589 | deletes all listed donations or none |
| CharityStore.Store.DeleteUser | db/users.go:471-607 | refused for administrators and while calls are in flight; otherwise the user and its rounds go, donations lose it as their source, and settled reservations lose it or go |
| CharityStore.Store.ApplyUserCheckin | db/users.go:306-337 | one bonus a day, clipped at the cap unless bypassed |
| CharityStore.Store.StartFishingRound | db/games.go:480-552 | debits the ticket and opens the round, or neither |
| CharityStore.Store.SettleFishingRound | db/games.go:559-638 | pays an open round to its player and closes it, once, with the errors before; best rows are not modelled |
| CharityRequest.ActAgrees | handler/handler.go:850-990 | each step of a request, and every other event, keeps the request's view in agreement with the ledger's history |
| CharityRequest.RefusedRequestChoosesAgain | handler/handler.go:846-880 | a refusal for the donation makes the request choose again, any other ends it with its lease back |
| CharityRequest.UndisturbedIsServed | handler/handler.go:844-1010 | a request nothing disturbs is served: charged, its lease kept, its credential used |
| CharityRequest.FailedSetupIsRefunded | handler/handler.go:844-1010 | one whose setup fails leaves every balance as before and has its lease back |
| CharityRequest.UsedIsChargedUnusedIsRefunded | handler/handler.go:959-1010 | wherever the request stops: a used credential means a row of its own, dispatched and never refunded, and a lease not given back; a row the request settled itself is charged in full if dispatched and refunded in full, unused, if not |
| Settlement.QueueFits | handler/charity_settlement.go:50-77 | the queue holds each id once, only ids marked queued, and no more than its capacity |
| Settlement.WakeFindsRoom | handler/charity_settlement.go:62-74 | an id accepted into the pending set always finds room in the queue, so the full-queue branch is dead |
| Settlement.StepKeepsValid | handler/charity_settlement.go:79-139 | every interleaved step keeps the pending set within its size and the queued marks equal to the ids in the channel or just received |
| Settlement.LeavesOnlyWhenOver | handler/charity_settlement.go:126-139 | an id leaves the pending set only when its durable row is terminal or gone |
| SettlementEffect.RowsGoOnlyWhenOver | db/charity_reservations.go:387-395 | a row disappears only once it is settled |
| Settlement.RowsOnlyMoveForward | handler/charity_settlement.go:163-182 | rows move only along the legal transitions; that an attempt does move them is SettlementEffect.AttemptSettles |
| Settlement.RunIsValid | handler/charity_settlement.go:79-139 | the invariant holds after every run from the start |
| Settlement.WokenStaysUntilOver | handler/charity_settlement.go:109-139 | a woken id is still pending later unless its row was settled |
| SettlementEffect.ActIsTransaction | handler/charity_settlement.go:163-182 | what the worker does on a status it has seen is the ledger's release or commit of the row as it is by then, with its success or refusal |
| SettlementEffect.AttemptSettles | handler/charity_settlement.go:126-182 | an undisturbed attempt releases a reserved row, commits a dispatched one and takes its id off the pending set |
| SettlementEffect.AttemptIsSettle | handler/charity_settlement.go:163-182 | the rows are then those of the ledger after its own settlement, which succeeds |
| SettlementEffect.SettlesEverything | handler/charity_settlement.go:79-140 | from every state of a running worker its own events alone can settle all that is pending |
| SettlementEffect.WakeIsKeptIff | handler/charity_settlement.go:50-77 | a wakeup is kept exactly by a running worker that knows the id or has room |
| SettlementEffect.GivenUpStaysPending | handler/charity_settlement.go:126-139 | an attempt given up leaves its id pending for a retry |
| SettlementEffect.StopIsForGood | handler/charity_settlement.go:50-60 | a stopped worker stays stopped and accepts nothing |
| Settlement.Worker.Wake | handler/charity_settlement.go:50-77 | the exact new pending map and queue, and whether the wakeup was kept |
| Settlement.Worker.ProcessQueued | handler/charity_settlement.go:96-107 | a received id is taken over; the unknown-id branch is dead |
| Settlement.Worker.RetryPending | handler/charity_settlement.go:109-124 | lists exactly the ids that are pending and not queued, each once |
| Settlement.Worker.FinishAttempt | handler/charity_settlement.go:126-139 | a successful attempt removes the id, whose row is then over; a failed one keeps it |
| ActivityLaws.RecordKeepsValid | db/activity.go:160-223 | recorded activity changes the open row exactly as a recomputation would |
| ActivityLaws.CreateKeepsValid | db/activity.go:244-252 | a registration does |
| ActivityLaws.SwitchKeepsValid | db/users.go:212-249 | enabling or disabling does, and the clamp at zero does not bite |
| ActivityLaws.DeleteKeepsValid | db/users.go:531-577 | deleting a user does, and the clamp does not bite |
| ActivityLaws.AdjustAgrees | db/activity.go:267-298 | taking a user's share out of, or into, the open row gives the recomputed row before any clamp |
| ActivityLaws.MaintainRepairs | db/activity.go:422-445 | maintenance makes the row agree whatever it held |
| ActivityLaws.MaintainChangesNothingToday | db/activity.go:422-445 | on every reachable state maintenance changes none of the nine counters |
| ActivityLaws.RunAgrees | db/activity.go:160-378 | after every run of events today's open row equals its recomputation, field by field |
| ActivityFreezing.StepFreezes | db/activity.go:394-418 | while a completed day waits nobody's inclusion changes; the step that freezes it uses the flags of the day's end |
| ActivityFreezing.StepKeepsFrozen | db/activity.go:394-400 | a frozen row is never written again |
| ActivityFreezing.RunFreezes | db/users.go:184-247 | over every run, late activity included, a completed day's row waits with the day's flags or is frozen from them |
| ActivityFreezing.DayIsFrozenAsItEnded | db/activity.go:394-445 | without late activity a completed day within retention shows what its row held when the day ended, small counts withheld |
| ActivityMeaning.ColumnsCountUsers | db/activity.go:328-345 | each people's column of a recomputation is the number of users, neither administrators nor disabled, who did what it counts |
| ActivityMeaning.AttemptsAreSummed | db/activity.go:337-342 | the attempts are those of the same users |
| ActivityMeaning.FewerThanFiveAreWithheld | db/activity.go:307-313 | a published number of people is there exactly from five on, and requests exactly if five people made them |
| ActivityMeaning.FrozenDayShowsPeople | db/activity.go:361-369 | a frozen day shows, per column, how many users did it if at least five did, and else nothing |
| ActivityMeaning.FrozenDayShowsRequests | db/activity.go:361-369 | and how many requests were made, or succeeded, only if at least five users made them |
| ActivityMeaning.RecordMoves | db/activity.go:160-224 | for a user that is there and is no administrator, activity is added to the row of that user and day, and to no other |
| ActivityMeaning.MaintenanceKeeps400Days | db/activity.go:422-445 | maintenance keeps 400 days, today included |
| ActivityStore.CountedIsTheDifference | db/activity.go:196-232 | the increments column by column are the difference of the user's shares |
| ActivityStore.ShiftedIsTheShare | db/activity.go:267-298 | the adjustments column by column are the user's share, clamped |
| ActivityStore.Store.RecordActivityAt | db/activity.go:160-223 | the new user row and site row |
| ActivityStore.Store.Register | db/users.go:94-120 | the new user and the new registration count |
| ActivityStore.Store.AdjustOpenSiteForUser | db/activity.go:267-298 | the adjusted row |
| ActivityStore.Store.Aggregate | db/activity.go:328-345 | the loop over users computes the recomputation |
| ActivityStore.Store.RebuildSiteDay | db/activity.go:328-378 | stores the recomputation, with small counts withheld when final as ActivityMeaning.FewerThanFiveAreWithheld says |
| ActivityStore.Store.FinalizeCompletedActivityDays | db/activity.go:394-418 | freezes exactly the open days before today |
| ActivityStore.Store.MaintainActivity | db/activity.go:422-445 | finalises, rebuilds today and applies retention |
| ActivityStore.Store.SetUserDisabled | db/users.go:212-249 | finalises completed days before the flag changes, then adjusts today |
| ActivityStore.Store.UnbanUser | db/users.go:170-199 | the same when the unban enables |
| ActivityStore.Store.DeleteActivityOf | db/users.go:531-577 | finalises, takes the share out, deletes the user's rows |
| Slots.GenerateSlotNames200 | translator/translator.go:52-60 | the loop generates the 403 names in template order |
| Slots.TemplateNames | translator/translator.go:36-60 | the names are distinct and their roles are those of their positions |
| Slots.SmallTemplateIsPrefix | translator/translator.go:21-34 | the 22 names are the first of the 403 |
| Slots.GreedyIsSound | translator/translator.go:98-114 | the greedy matching respects roles and order |
| Slots.GreedyIsMinimal | translator/translator.go:98-114 | if any assignment exists the greedy one does, with no slot later than it |
| Slots.AssignmentFits | translator/translator.go:80-82 | no matchable sequence is longer than the template |
| Slots.TranslateOver | translator/translator.go:76-117 | the loop, with its system special case, is the greedy matching; each error names its cause |
| Slots.TranslateToSlots | translator/translator.go:76-117 | the outcome over the 22 slots |
| Slots.TranslateToSlots200 | translator/translator.go:122-157 | the outcome over the 403 slots |
| Slots.SucceedsIffAssignable | translator/translator.go:62-75 | translation succeeds exactly when a strictly increasing, role-respecting assignment exists; the length check rejects nothing matchable |
| Slots.RefusesTheFirstHopeless | translator/translator.go:109-111 | the refused message is the first that cannot be placed |
| Slots.UsesEarliestSlots | translator/translator.go:62-75 | the slots used are pointwise the earliest |
| Slots.ReadsBack | translator/translator.go:62-75 | the non-empty slots in template order are the trimmed non-blank messages in order |
| Text.TrimIsEmpty | translator/translator.go:72 | trimming leaves nothing exactly if the text was all white space |
| Text.TrimTakesTheEnds | translator/translator.go:94 | trimming takes white space off both ends, all of it, and nothing else |
| Text.TrimIsTheMiddle | translator/translator.go:112 | whatever stands between white space, with none at its ends, is the trimmed text |
| Text.SpacesAreListed | translator/translator.go:94 | white space is the 25 code points that Unicode lists |
| Slots.SmallIsRestriction | translator/translator.go:119-121 | the 22-slot translation is the 403-slot one restricted to its slots, and succeeds exactly when that one uses no later slot |
| Contracts.TranslateGeneral | translator/contracts.go:302-311 | accepted exactly for one non-blank user message; what is sent |
| Contracts.TranslateCustom | translator/contracts.go:313-334 | accepted exactly for a user message, alone or after a system one; what is sent |
| Contracts.TranslateWebsiteSummary | translator/contracts.go:336-358 | accepted exactly for an http or https address; what is sent |
| Contracts.TranslateImageProcessing | translator/contracts.go:360-391 | accepted exactly with text and one to ten images; what is sent |
| Contracts.TranslateFillTable | translator/contracts.go:119-177 | accepted exactly for the two layouts with every required text; what is sent |
| Contracts.FillByRest | translator/contracts.go:134-175 | the checks of the loop are the two layouts |
| Contracts.AcceptedRoles | translator/contracts.go:302-375 | the one-turn services by their roles: one user message that says something, a system message before it where allowed, one to ten images |
| Contracts.ContractTable | translator/contracts.go:213-262 | what the contract of each small service requires and may get besides |
| Contracts.TranslateForService | translator/contracts.go:77-109 | dispatch: each service accepts exactly its layout and sends what it promises |
| Contracts.TranslationMeetsContract | translator/contracts.go:204-252 | a successful translation sends exactly the contract's required and optional variables, required texts not empty, one to ten images where a list is required |
| AppBinding.CheckAppParams | translator/contracts.go:271-300 | the verdict: missing in order, uncovered and extra exactly, compatible when nothing is missing or uncovered |
| AppBinding.CompatibleMeans | translator/contracts.go:254-260 | compatible exactly if the App has every contract-required variable and requires none the contract never sends |
| AppBinding.Normalise | handler/v1_download.go:69-89 | maps an App's names back through an injective mapping and drops the dummies |
| AppBinding.Remap | handler/v1_download.go:40-63 | for the main dialogue every mapped input under its new name and nothing else, refused without a mapping; other services unchanged |
| AppBinding.RenamedTellsInputs | handler/v1_download.go:40-63 | each input arrives under its own new name with its own value, and what is sent determines the inputs |
| AppBinding.NormaliseUndoesObfuscation | handler/v1_download.go:65-89 | normalising an obfuscated App with dummies gives the canonical App |
| AppBinding.SameVerdict | handler/v1_download.go:65-89 | so the binding verdict is the same |
| AppBinding.CompatibleTemplateAppIsServed | handler/v1_download.go:36-63 | a compatible App from the template receives every variable it requires that is not a dummy, with the right value |
| AppBinding.CompatibleAppIsServed | translator/contracts.go:254-260 | a compatible App without a template receives every variable it requires |
| Utf8.DecodeEncoded | diagnostic/diagnostic.go:49 | an encoded character is read back whatever follows |
| Utf8.EncodeDecoded | diagnostic/diagnostic.go:49 | what is read as a character is exactly its encoding |
| Utf8.ValidIffEncoded | diagnostic/diagnostic.go:43 | octets are valid exactly if they encode some characters |
| Utf8.FitCountIsLongest | diagnostic/diagnostic.go:71-77 | the longest prefix of whole characters that fits |
| Diagnostic.BoundTo | diagnostic/diagnostic.go:36-85 | fast path and loop return the bounded text |
| Diagnostic.Truncate | diagnostic/diagnostic.go:67-80 | the first character that does not fit already decides the cut |
| Diagnostic.MarkerPrefix | diagnostic/diagnostic.go:94-103 | the longest whole-character prefix of the marker |
| Diagnostic.SkipInvalid | diagnostic/diagnostic.go:50-61 | a run of invalid octets is passed over as one |
| Diagnostic.FastPath | diagnostic/diagnostic.go:43-45 | valid single-line text is its own sanitised form |
| Diagnostic.BoundedIsSafeAndStable | diagnostic/diagnostic.go:24-36 | the result is valid UTF-8 on one line within the limit, and bounding again changes nothing |
| Diagnostic.BoundIsHonoured | diagnostic/diagnostic.go:36-40 | the result is no longer than asked for, up to 4096 octets, and complete if it fits |
| Diagnostic.ValidTextIsKept | diagnostic/diagnostic.go:50-62 | valid text keeps its characters one for one, line breaks and tabs as spaces |
| Diagnostic.InvalidBecomesOneMark | diagnostic/diagnostic.go:50-62 | a maximal run of unreadable octets becomes one replacement character |
| Diagnostic.MarkerText | diagnostic/diagnostic.go:22 | the marker is an ellipsis and the bracketed word |
| Diagnostic.TruncatedIsLongest | diagnostic/diagnostic.go:71-79 | a text too long keeps its longest whole-character beginning that leaves room for the marker |
| Diagnostic.TinyLimits | diagnostic/diagnostic.go:68-70 | for limits up to the marker's length only a prefix of the marker remains, nothing below three octets |
| Diagnostic.SanitisedAppend | diagnostic/diagnostic.go:48-83 | sanitising goes part by part where the second part begins with a character |
| AlertSubject.FindsThePrintedID | db/legacy_alert_subject.go:13-48 | for every user name the parser returns exactly the printed id if it is positive, else nothing |
| AlertSubject.BoundedSanitisesTheName | db/alerts.go:75 | bounding without truncation only sanitises the name |
| AlertSubject.AutoBanNamesItsUser | mailer/mailer.go:93-100 | the auto-ban message, bounded without truncation, names its user and nobody else |
| AlertSubject.DebugAbuseNamesItsUser | mailer/mailer.go:123-130 | the debug-abuse message does too |
| DebugQueue.PushStep | handler/debug_user.go:406-480 | whatever the reader does, a push that does not wait sends its event, and the notice after it exactly when it reports a loss, which comes only from the front |
| DebugQueue.PushKeepsTheEnd | handler/debug_user.go:402-480 | the queue is then the end of the old queue, the event and the notice |
| DebugQueue.PushAccounts | handler/debug_user.go:422-477 | accounted bytes cover the queue; queued bytes stay within the cap or one event and its notice |
| DebugQueue.RunStaysBounded | handler/debug_user.go:422-477 | over every run of pushes and reads |
| DebugQueue.WholeLifeStaysBounded | handler/debug_user.go:208-213 | from the empty channel to the unaccounted event at the session's end, which adds at most itself |
| DebugQueue.QuietPush | handler/debug_user.go:431-477 | undisturbed, a push evicts exactly the events it must and reports a loss exactly when the queue was full or over the cap |
| DebugQueue.QuietPushIsExact | handler/debug_user.go:422-477 | and keeps the accounts exact: what is accounted is what is queued |
| DebugQueue.WaitsIffEvictsForBytes | handler/debug_user.go:402-436 | a push can block, for some timing of the reader, exactly if something is queued and the accounted bytes leave no room for the event and a notice |
| DebugQueue.WaitingNeedsTheReader | handler/debug_user.go:433-436 | for a reader that receives nothing meanwhile it never blocks |
| DebugQueue.SlowReaderMakesAPushWait | handler/debug_user.go:426-436 | from an empty channel, undisturbed pushes of events of any one size with the reader one event behind come to a push that can block, since receiving gives no bytes back |
| DebugQueue.APushCanWait | handler/debug_user.go:22-29 | with events of 400 KiB, about what the cut bodies make, it is the push after ten |
| DebugQueue.EventQueue.Push | handler/debug_user.go:406-480 | the loop and branches as written are that push |
| DebugHub.StepKeepsValid | handler/debug_user.go:186-538 | every step, stale callbacks included, keeps a session current exactly while it is active, closed once when it is not |
| DebugHub.ClosedOnceSentNever | handler/debug_user.go:186-538 | over every run each channel is closed at most once, exactly when its session ends, and nothing is sent after that |
| DebugHub.StaleForever | handler/debug_user.go:198-207 | a callback made stale never does anything again |
| DebugHub.FreshEndsItsSession | handler/debug_user.go:186-217 | a callback that is not stale ends its own session and no other |
| DebugHub.EndsAreTold | handler/debug_user.go:208-213 | the stream is told when a timer or a replacement ends its session, but not when the user or the grace period does |
| DebugHub.GraceIsArmed | handler/debug_user.go:484-516 | the end of the current session's latest stream arms its grace period; that of any other changes nothing |
| DebugHub.StartedAsAsked | handler/debug_user.go:273-299 | a new session is current, active and as asked for; the dry-run switch changes that alone |
| DebugHub.ActivityMakesStale | handler/debug_user.go:219-231 | a push makes earlier idle callbacks stale, an attach also no-attach and grace ones |
| DebugHub.ReplacingMakesStale | handler/debug_user.go:260-272 | replacing a session makes all its callbacks stale |
| DebugHub.NoSessionIsForgotten | handler/debug_user.go:283-296 | when every operation gets its locks, an active session always has an idle and a lifetime callback that would end it |
| DebugLocks.NextKeepsOk | handler/debug_user.go:186-538 | every step of hub, queues and locks keeps them consistent: only active sessions have a waiting push, and the hub is kept only because of one |
| DebugLocks.PlayIsHubRun | handler/debug_user.go:186-538 | with waiting pushes, a run of the whole is still a run of the hub, so what is closed or stale stays so |
| DebugLocks.PushCanWaitIff | handler/debug_user.go:406-436 | a push that gets its session can come to wait exactly if something is queued and the accounted bytes leave no room |
| DebugLocks.PushReachesQueue | handler/debug_user.go:406-480 | a push counts as activity and reaches the queue of its session, and no other |
| DebugLocks.WaitingIsForGood | handler/debug_user.go:406-436 | a waiting push waits over every later run, and its session stays as it is |
| DebugLocks.KeptHubIsForGood | handler/debug_user.go:186-192 | once an operation waits for that session with the hub locked, no later run changes any session |
| DebugLocks.CallbackEndsIff | handler/debug_user.go:186-217 | a callback that is not stale ends its session exactly if the hub is free and no push waits in the session; otherwise it keeps the hub |
| DebugLocks.StrangersPassBy | handler/debug_user.go:186-193 | operations on a session that is not current wait for nobody's session and do nothing |
| DebugLocks.ActiveEndsUnlessKept | handler/debug_user.go:186-217 | an active session has an idle and a lifetime callback that would end it, exactly if the hub is free and no push waits in it |
| DebugLocks.RoomyRunForgetsNone | handler/debug_user.go:406-436 | over every run in which no push must evict for bytes, no push waits and every active session would be ended |
| DebugHub.UserDebugHub.StartSession | handler/debug_user.go:238-300 | replaces the old session and arms the timers |
| DebugHub.UserDebugHub.StopSession | handler/debug_user.go:303-316 | closes and removes the current session |
| DebugHub.UserDebugHub.PushEvent | handler/debug_user.go:406-420 | a push counts as activity and sends only while the session is active |
| DebugHub.UserDebugHub.AttachStream | handler/debug_user.go:337-364 | advances the stream epoch of the active session |
| DebugHub.UserDebugHub.RunCallback | handler/debug_user.go:186-217 | ends the session or, when stale, does nothing |
| DebugHub.UserDebugHub.CloseAfterGrace | handler/debug_user.go:484-516 | arms the grace callback for that stream only |
| DebugHub.UserDebugHub.ShutdownAll | handler/debug_user.go:521-538 | closes every session once |
| SlidingWindows.FilterInPlace | handler/probe_limiter.go:45-50 | filtering a slice over its own backing array gives the recent records |
| SlidingWindows.CapGrows | handler/probe_limiter.go:51-59 | an accept with room in its own window keeps every window within the limit |
| ProbeLimiter.AllowReflects | handler/probe_limiter.go:37-62 | the limiter decides as if it kept the whole history |
| ProbeLimiter.SweepsChangeNothing | handler/probe_limiter.go:64-86 | sweeps anywhere in a run change no decision |
| ProbeLimiter.AcceptsAreCapped | handler/probe_limiter.go:37-62 | with one limit no window ever holds more accepts than it |
| ProbeLimiter.Limiter.AllowProbe | handler/probe_limiter.go:37-62 | the decision and the new records, swept exactly after an accepted probe when a sweep is due |
| ProbeLimiter.Limiter.MaybeSweep | handler/probe_limiter.go:67-86 | sweeps every user or nothing |
| DonationLimiter.AcquireReflects | handler/donation_limiter.go:26-48 | a lease is granted as if expired leases were never dropped |
| DonationLimiter.LeasesAreCapped | handler/donation_limiter.go:26-64 | no window ever holds more leases, acquired and not released, than the limit |
| DonationLimiter.WithoutTakesOnlyItsOwn | handler/donation_limiter.go:51-63 | a release removes only its own record and is idempotent |
| DonationLimiter.Limiter.AcquireLease | handler/donation_limiter.go:26-48 | the lease and the new windows |
| DonationLimiter.Limiter.ReleaseLease | handler/donation_limiter.go:50-63 | acts once, on its own record |
| IpThrottle.AllowByStanding | handler/ipthrottle.go:72-103 | an answer and all later standings depend on the address's standing alone |
| IpThrottle.DisabledAllowsAll | handler/ipthrottle.go:72-76 | without a positive rate everything is allowed |
| IpThrottle.PurgesChangeNothing | handler/ipthrottle.go:119-141 | a run with purges and the same run without them give the same answers |
| IpThrottle.AllowedAreCapped | handler/ipthrottle.go:72-103 | with a penalty at least as long as the window no window holds more allowed hits than the rate |
| IpThrottle.CapHoldsIffPenaltyCoversWindow | handler/ipthrottle.go:81-103 | the cap holds for every run exactly under that condition |
| IpThrottle.Throttle.AllowHit | handler/ipthrottle.go:72-103 | the answer and the new tables |
| IpThrottle.Throttle.PurgeOld | handler/ipthrottle.go:119-141 | drops expired penalties and addresses without recent hits |
| LoginThrottle.FailByStanding | handler/loginthrottle.go:81-103 | a failure locks exactly when it is the last of enough within the window since the last lock or success |
| LoginThrottle.SuccessForgets | handler/loginthrottle.go:106-113 | a success forgets the failures and the lock of its key, and of no other |
| LoginThrottle.FewFailuresNeverLock | handler/loginthrottle.go:81-103 | fewer failures than the limit in a window after a success never lock |
| LoginThrottle.EnoughFailuresLock | handler/loginthrottle.go:81-103 | as many as the limit lock the key exactly until the penalty is over |
| LoginThrottle.PurgesChangeNothing | handler/loginthrottle.go:115-136 | purges change no answer |
| LoginThrottle.Throttle.RecordFailure | handler/loginthrottle.go:81-103 | the new window and whether it locks |
| LoginThrottle.Throttle.IsLocked | handler/loginthrottle.go:73-78 | locked exactly until the lock ends |
| LoginThrottle.Throttle.RecordSuccess | handler/loginthrottle.go:106-110 | forgets the key |
| LoginThrottle.Throttle.PurgeOld | handler/loginthrottle.go:115-136 | drops what is neither locked nor recent |
| WeightedPick.EveryCandidateHasItsShare | handler/donations.go:100-119 | each candidate is drawn on an interval as long as its weight |
| WeightedPick.EarlierWeighsMore | handler/donations.go:100-108 | an earlier deadline weighs more, except within the last minute, where all weigh the same |
| WeightedPick.TriedFirst | handler/donations.go:110-119 | a candidate is tried first on its share of all the weights |
| WeightedPick.ChosenByShare | handler/donations.go:110-119 | and on no other draw |
| WeightedPick.PickWeightedDonation | handler/donations.go:95-127 | the first candidate in the order of the draws that has rate left, with one new lease on it; or none, and every candidate refused |
| Fishing.ExpectedTierMultiplierByLoop | db/games.go:256-275 | the loop computes the mean raw multiplier of a tier |
| Fishing.BuildFishingEngine | db/games.go:210-254 | the outcomes, the scale or the error |
| Fishing.AcceptedScales | db/games.go:236-248 | an engine is refused exactly if nothing has weight or the scale is out of bounds |
| Fishing.BuiltIsDistribution | db/games.go:218-240 | the outcomes' probabilities and the junk rate make one, in any order |
| Fishing.EveryOutcomeHasItsShare | db/games.go:434-446 | an outcome is picked on an interval as long as its probability; the fallback is unreachable |
| Fishing.RandIntIsUniform | db/games.go:403-412 | every integer is drawn on an interval of the same length |
| Fishing.RollFishingOutcome | db/games.go:417-475 | a roll is the picked outcome, then a species of its tier, then a size of the species |
| Fishing.CatchPays | db/games.go:448-475 | sizes lie in range and every positive outcome pays, so the clamp at zero never bites; how much is said by Fishing.CatchesPayIsOutcomePay |
| Fishing.ReturnIsExact | db/games.go:225-250 | the expected payout reckoned per outcome is exactly the promised return whenever a fish has weight; else what the treasures give |
| Fishing.EveryFishHasItsShare | db/games.go:417-475 | a given fish is caught on an interval of the first draw as long as its outcome's probability, one of the second for its species and one of the third for its size |
| Fishing.CatchesPayIsOutcomePay | db/games.go:448-475 | the mean of what the catches of an outcome are paid, over species and sizes, is what the outcome was reckoned with |
| Fishing.PaidReturnIsExact | db/games.go:225-250 | so the expectation of what rolls are paid is exactly the promised return, or the treasures' share without fish |
| Fishing.ShippedMultipliers | db/games.go:147-190 | what the smallest and the largest fish of each tier are worth, the bonus from a metre on and the cap included |
| Fishing.LargerPaysMore | db/games.go:167-190 | a larger fish of a tier never pays less |
| Fishing.SpeciesShareRanges | db/games.go:68-97 | the shipped roster meets the condition of the above |
| Cooler.StepKeepsValid | mailer/cooler.go:47-137 | every interleaved step keeps accepted summaries equal to the batches in window order plus the buffer, sends each taken batch once and closes each channel once |
| Cooler.AcceptedUntilStopped | mailer/cooler.go:47-66 | until the stop every summary is accepted at the end of the buffer, and a timer is set |
| Cooler.RunKeepsValid | mailer/cooler.go:47-137 | under every interleaving of add, timer, flush, send, stop and shutdown |
| Cooler.SettledSentEverything | mailer/cooler.go:69-82 | at rest every accepted summary was in exactly one mail, in order |
| Cooler.StoppedAcceptsNothing | mailer/mailer.go:142-147 | nothing is accepted after the stop |
| Cooler.EveryWindowAdvances | mailer/cooler.go:69-137 | every window that is not closed has a step, which brings the whole nearer to rest |
| Cooler.StepsNeverGoBack | mailer/cooler.go:47-137 | no step takes any window back in its phases or forgets it |
| Cooler.StoppedNeverGoesBack | mailer/cooler.go:110-137 | once stopped no step adds a window or brings the whole further from rest |
| Cooler.ShutdownLeavesNoTimerWaiting | mailer/cooler.go:118-134 | after a shutdown no timer is left waiting to fire |
| Cooler.CanSettle | mailer/cooler.go:69-137 | from every state the windows can be brought to their close with everything sent |
| Cooler.CoolingWindow.AddSummary | mailer/cooler.go:47-66 | buffers and opens a window when none is open |
| Cooler.CoolingWindow.BeginFlush | mailer/cooler.go:69-75 | takes the whole buffer |
| Cooler.CoolingWindow.SendItems | mailer/cooler.go:84-106 | one mail for the whole batch |
| Cooler.CoolingWindow.EndFlush | mailer/cooler.go:76-81 | closes the window's channel, and forgets it only if it is still the newest |
| Cooler.CoolingWindow.ShutdownWindow | mailer/cooler.go:110-137 | takes the buffer if the timer had not fired, and returns the newest window to wait for |
| Relay.DeltasAreTheChunks | translator/sse.go:59-77 | content and reasoning deltas are the upstream's chunks in order |
| Relay.RoleIsOnFirstDelta | translator/sse.go:66-76 | the role is on the first delta that bears text and on no other frame |
| Relay.FlagsMean | translator/sse.go:79-110 | done, failed and error frames say exactly what the events were |
| Relay.OutcomesAreTold | translator/sse.go:79-118 | every failure becomes one error frame with its reason sanitised, every good end one stop, and the last reason is remembered |
| Relay.EndingTells | handler/handler.go:1146-1187 | what is written after the events: the terminator, or one error unless there was one, a transport's sanitised |
| Relay.SafetyNet | translator/sse.go:127-135 | the safety net stops exactly an answer with text and no end |
| Relay.EndsInDoneOrError | handler/handler.go:1146-1187 | an uncancelled relay ends in one terminator without error frames, or has an error frame and no terminator |
| Relay.FinalizeAddsNothing | translator/sse.go:127-135 | the safety net never emits where the relay calls it |
| Relay.SuccessMeans | handler/donations.go:1010-1056 | success is exactly: the workflow ended, nothing failed, the transport reported nothing |
| Relay.StreamConverter.ConvertEvent | translator/sse.go:59-118 | the frame and the new flags for each event |
| Relay.RelayStream | handler/handler.go:1096-1187 | the loop, cancellation and the ending as written |
| Sessions.AccessLeavesEnough | db/sessions.go:56-87 | a good access leaves the slid lifetime less a day, and the expiry never shrinks |
| Sessions.NewSessionKeepsAlive | db/sessions.go:71-85 | uses at gaps under six days keep a session good until the last day before its cap |
| Sessions.GapBoundIsExact | db/sessions.go:71-85 | up to a day before the cap, gaps under a bound keep every session good exactly if the bound is at most six days |
| Sessions.EndBoundIsExact | db/sessions.go:71-85 | gaps under six days keep every session good up to some time before the cap exactly if that time is at least a day |
| Sessions.LateExpiryIsFinal | db/sessions.go:64-85 | with the stored expiry within a day of the cap, all uses are good exactly if all come before the stored expiry |
| Sessions.SixDaysCanBeTooLong | db/sessions.go:76-85 | a gap of six days can end it |
| Sessions.LastDayIsNotCovered | db/sessions.go:71-85 | uses never more than five days apart after which a session ends on its last day |
| Sessions.RunStaysBounded | db/sessions.go:56-87 | under every interleaving of reads, compare-and-set writes, deletes and purges the expiry only grows, stays within thirty days, and at most 22 renewals are written |
| Sessions.EachOfTwentyTwoIsWritten | db/sessions.go:76-85 | 22 renewals can be reached |
| Sessions.NewSessionIsValid | db/sessions.go:31-47 | a new session starts within the bounds |
| Sessions.SessionTable.CreateSession | db/sessions.go:31-47 | the new row |
| Sessions.PurgesChangeNothing | db/sessions.go:106-130 | purges change no later answer |
| Sessions.PurgeTakesTheDead | db/sessions.go:106-130 | a purge takes exactly the sessions no access would find good |
| Sessions.AccessIsReadAndWrite | db/sessions.go:56-87 | an access nothing comes between is its read and then its write |
| Sessions.LateWriteIsLost | db/sessions.go:76-85 | a renewal that another preceded changes nothing; a delete deletes |
| Sessions.SessionTable.GetSession | db/sessions.go:56-87 | the answer and the new row |
| Sessions.SessionTable.PurgeExpired | db/sessions.go:106-130 | deletes exactly the expired rows |

## Left out

- HTTP routing and handlers, OAuth, cookies, static pages, exports, the front end and the plugin: plumbing.
- The Dify client, egress policy, SMTP and marketplace sync: their answers are inputs of the model.
- Encryption, hashing and random ids: ids are fresh, ciphertexts opaque.
- The YAML template obfuscation: only its result, an injective mapping and dummies, is used.
- SQL text, schema and migrations: tables are maps, transactions atomic steps; a clock reading belongs to its transaction.
- The A, B and C rate classes: they check and record in separate steps, so no cap is promised.
- The rolling seven- and 28-day activity columns: sums over other days of what the nine counters already show for one.
- BatchUpdateUserBalance (db/users.go:396-448): many adjustments in one transaction; single ones are modelled.
- Promotion of a user to administrator and direct edits of contribution counts: outside the laws stated here.
- RecordDonationSuccess and RecordDonationFailure (db/donations.go:598-650): no caller in the charity path.
- Limit and order of the stale scan (db/charity_reservations.go:161-184): the model lets it find any rows.
- Attempt timeouts and lock-contention retries of the settlement worker: an attempt may fail or be repeated at any point.
- The abuse threshold of debug sessions (handler/debug_user.go:242-258) and truncation of captured bodies: independent of the queue and the lifecycle.
- Rounding of payouts, leaderboards and the per-game best rows: presentation.
- Waiting of the mailer's shutdown for a window older than the newest: the code does not promise it.
- The text of contract and validation errors: the kind of error is modelled, not its wording.
- AlertSubject.AutoBanNamesItsUser: a message long enough to be truncated by the boundary is not covered, because its separator may be cut off.
- ActivityStore.Store.RebuildSiteDay: the rolling seven- and 28-day columns are not among its counters.
- CharityStore.Store.DeleteUser: only users, donations, reservations and rounds are modelled; sessions, logs, keys, alerts and applications of the user go in the same transaction.
- CharityStore.Store.PatchDonation: the service, model, endpoint, key, rate and note columns are not kept; a bad rate and a missing review record are refused as in the source.
- CharityStore.Store.SettleFishingRound: the per-game best rows are not kept.
- CharityRecovery.RecoveryIsUnique: failures and the status of donations are compared in CharityOutcome.RecoveryIsUniqueInFull, which needs that no deadline passes meanwhile.
- DebugLocks.KeptHubIsForGood: a shutdown that meets a waiting session has stopped some others first; those are stops of their own in the model.
- Sessions.PurgesChangeNothing: for accesses whose read and write nothing comes between; a renewal already decided on can be lost to a purge in between.
- Fishing.BuildFishingEngine: negative weights, which the constant bait specs do not have.
- WeightedPick.PickWeightedDonation: one reading of the clock for the whole pick.
- DebugHub.StepKeepsValid: sessions are identified by number instead of pointer identity.
- Slots.TranslateOver: the two copies of the loop in the source are one method over the list of names.
- Contracts.TranslateForService: text is a sequence of Unicode characters, not of bytes.
