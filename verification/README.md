# A verified model of the booking and money backend

This project models, in Dafny, the parts of the marketplace backend whose correctness depends on
ordering, arithmetic or concurrency, and proves what those parts do in every run. It is checked with
`dafny verify dfyconfig.toml`.

| files | what they model |
|---|---|
| `Windows`, `EffectiveWindows` | subtraction of blocked ranges on a shared buffer; the fold of exceptions over weekly windows |
| `Slots`, `BookingRows` | the slot generator and the slot checker of one calendar |
| `Allocator`, `AllocatorSafety`, `AllocatorHistory`, `AllocatorRepaired`, `BookingStore` | creating, confirming, starting, completing, cancelling, expiring and rescheduling bookings, as interleaved statements and as sequential code |
| `Ledger`, `Payments`, `ConfirmRuns` | wallets and their entries; the two-entry payment confirmation, alone and interleaved |
| `Settlement` | the fee split and repeated, crashing settlement |
| `Payouts`, `PayoutRuns` | the holding window over earnings and payout requests, alone and interleaved |
| `RateLimiter`, `RateLimiterRuns` | the token bucket with lazy pruning |
| `TokenRefresh` | the single-flight refresh of the push service's access token |
| `MigrationFiles`, `MigrationRuns` | loading, applying and rolling back migrations |
| `Sessions`, `SessionRuns` | rotation of refresh tokens |
| `Paging` | keyset and offset paging of messages |

Concurrent behaviour is a state machine whose steps are single database statements, transactions or
critical sections; a run is any finite list of steps, by any threads, including crashes. Sequential
code is a class whose methods are proved equal to the functions the machines use. Time is whole
seconds (minutes within a day), zones are fixed offsets, money is integer cents, rates are basis
points; only the rate limiter uses reals.

## Findings

Where a promise is false of the code, the code is modelled as it is, a run or an input shows the
failure, and the exact condition is proved.

- Blocking part of a window that is not the day's last closes the windows after it:
  `removeCovered` writes over the slice it is still reading. On disjoint windows the result is right
  exactly when only the last window may split (`SeparateExactIffSplitLast`; for a whole day
  `LastBlockExactIff`).
- Confirming a booking that holds no slot any more, when the slot was taken, makes two active bookings
  overlap, and rescheduling can land on a booking another request has checked but not committed. A
  run keeps active bookings disjoint exactly when every confirmation, move and insert meets no other
  active booking where it is written (`DisjointThroughoutIff`, `ConfirmDisjointIff`,
  `MoveDisjointIff`). All runs do exactly when Reschedule checks and writes under the lock Create
  takes, and Confirm accepts no CANCELLED booking, nor a COMPLETED one if it accepts PENDING ones
  (`DisjointExactlyWhenRepaired`); repeating Reschedule's check in one statement is not enough. The
  comment on `CreateIfSlotFree` (internal/bookings/store.go:131-134) holds for creates among
  themselves only.
- Starts outside the requested day, which extra windows past midnight give, are offered by the
  generator and can be refused by the checker, which looks at the day the start falls on. An offered
  start is accepted on every calendar exactly when it lies on the day (`OfferedAcceptedIffOnDay`); the
  checker's window test means containment exactly when the interval ends on the day it starts
  (`WindowTestSoundIffSameDay`).
- Two deliveries of one payment can complete it and leave the intent FAILED: the ledger tests the
  balance before the reference. That can happen exactly when the wallet does not hold the amount
  beforehand (`PaidAndFailedIff`), and a FAILED intent is not looked at again by
  `ConfirmByReference`.
- A decline that arrives after the payment went through overwrites SUCCEEDED with FAILED
  (`LateDeclineOverwrites`).
- A settlement that crashes between its two credits is never completed by a retry (`CrashLosesFee`,
  `SettlementNeverResumes`), and one whose fee or whose earnings round to zero always returns an
  error (`SettleSucceedsIff`).
- Held earnings can be paid out. The wallet covers held earnings and open payments throughout exactly
  when each payout debit is within what is available when it is taken (`CoveredThroughoutIff`). Two
  requests that both check before either debits break this when together they exceed what was
  available (`RacingRequests`); so does a request made while a payment through the same wallet is
  between its receipt and its charge (`PayoutDuringPayment`).
- Paging by offset repeats a row after an arrival exactly when the arrival belongs on the page already
  read (`OffsetRepeatsIff`); keyset paging never repeats one.

## Model

| member | source | states |
|---|---|---|
| Windows.Append | internal/bookings/service.go:577-590 | appending to the shortened slice overwrites the shared buffer while there is capacity and copies otherwise |
| Windows.AppendPieces | internal/bookings/service.go:579-589 | one window's rest is written to at most the two slots after the output, all other slots keep their windows |
| Windows.RemoveCovered | internal/bookings/service.go:576-592 | the loop on the shared buffer computes the recurrence in which a read at an overwritten index sees the write |
| Windows.RemoveFreshExact | internal/bookings/service.go:576-592 | with an output of its own the loop would cover exactly the open minutes outside the block, for any input |
| Windows.RemoveInPlaceSound | internal/bookings/service.go:576-592 | as written it never outputs a blocked minute or one that was not open, for any input |
| Windows.NoOvertakeExact | internal/bookings/service.go:577-590 | while no split passes the reader the shared buffer makes no difference |
| Windows.OvertakeClosedForm | internal/bookings/service.go:577-590 | after the first overtaking split every later read finds that split's right piece |
| Windows.OvertakeCover | internal/bookings/service.go:576-592 | with an overtaking split exactly the minutes of the windows up to it, outside the block, come out |
| Windows.RemoveInPlaceExactIff | internal/bookings/service.go:576-592 | with an overtaking split the result is the set difference if and only if the later windows add no minute |
| Windows.SeparateExactIffSplitLast | internal/bookings/service.go:576-592 | on disjoint windows in any order the result is the set difference if and only if no window but the last splits |
| Windows.BlockedMorningLosesAfternoon | internal/bookings/service.go:576-592 | a concrete day on which blocking half an hour loses the afternoon |
| EffectiveWindows.WeekdaysFollow | internal/bookings/service.go:535-541 | 1970-01-01 is a Thursday and the weekdays follow one another round, on every day |
| EffectiveWindows.AppliesToIff | internal/bookings/service.go:554-563 | an exception covers the minutes from its start or midnight up to its end or midnight |
| EffectiveWindows.ListEffectiveWindows | internal/bookings/service.go:528-574 | the loops return the folded windows of the day, sorted by start, none lost or added |
| EffectiveWindows.LastExceptionWins | internal/bookings/service.go:543-569 | folding with fresh outputs, a minute is open iff the last exception covering it opens it, or none covers it and a weekly window does |
| EffectiveWindows.DayWindowsSound | internal/bookings/service.go:528-592 | the code never opens a minute that last-exception-wins keeps closed |
| EffectiveWindows.DayWindowsExact | internal/bookings/service.go:528-592 | when no block of the day overtakes the reader the day is exactly last-exception-wins |
| EffectiveWindows.LastBlockExactIff | internal/bookings/service.go:549-592 | a day whose last exception blocks part of disjoint windows is last-exception-wins if and only if no window but the last splits |
| EffectiveWindows.BoundlessDecidesDay | internal/bookings/service.go:549-569 | a last exception without bounds leaves no minute of the day open if it blocks, and every minute if it opens |
| EffectiveWindows.MorningBlockClosesAfternoon | internal/bookings/service.go:528-592 | a concrete calendar on which the code closes an open minute |
| BookingRows.OverlapsIffCommonInstant | internal/bookings/store.go:153-159 | proper intervals overlap if and only if they have an instant in common, so a booking may begin when another ends |
| BookingRows.HasOverlapIffOccupied | internal/bookings/store.go:297-314 | the query finds a row if and only if a pending, confirmed or running booking of the professional holds an instant of the interval |
| Slots.ClockReads | internal/bookings/service.go:659-661 | the local clock is the time plus the zone's offset |
| Slots.SlotAvailable | internal/bookings/service.go:594-616 | true iff no active booking meets the interval and one window of the start's day holds both clock minutes |
| Slots.SlotsFromExact | internal/bookings/service.go:500-521 | the slots from a grid start on are exactly the later grid starts that fit with the buffer, are not past and are free |
| Slots.WindowSlots | internal/bookings/service.go:500-521 | exactly those slots of a window, in order; the loop terminates |
| Slots.AvailableSlots | internal/bookings/service.go:476-524 | exactly the offered starts come back, window by window in the order of the windows' starts; an unparsable date is an error |
| Slots.ClockAt | internal/bookings/service.go:659-665 | the two clock conversions are inverse within a day |
| Slots.CheckerAt | internal/bookings/service.go:594-616 | the checker's verdict on an in-shop start any number of minutes from midnight: the windows of the day it falls on, both minutes taken modulo the day |
| Slots.OfferedPassesCreate | internal/bookings/service.go:167-174 | a slot offered for a start on the day passes the checks of Create in the same state |
| Slots.AcceptedIffOffered | internal/bookings/service.go:476-524 | a future start that is over before midnight passes Create exactly when a window would offer it |
| Slots.PastStartsIff | internal/bookings/service.go:119-121 | no past start is offered, and Create accepts a start up to five minutes past exactly when it would have been offered as it began |
| Slots.GeneratedPassesCreate | internal/bookings/service.go:476-524 | with windows inside the day everything returned passes Create |
| Slots.OutsideTheDayRefused | internal/bookings/service.go:659-661 | for every start outside the day, length and padding, a calendar whose extra window offers the start, which Create refuses |
| Slots.OfferedAcceptedIffOnDay | internal/bookings/service.go:167-174 | an offered start is accepted on every calendar if and only if it lies on the requested day |
| Slots.AcceptedWithinDay | internal/bookings/service.go:594-616 | for an interval within one local day acceptance is containment in one window and freedom from active bookings |
| Slots.AcceptedMinutesCovered | internal/bookings/service.go:594-616 | every clock minute before the end's of an accepted interval is open, in the windows and by last-exception-wins |
| Slots.WindowTestSoundIffSameDay | internal/bookings/service.go:603-613 | the window test implies containment for all windows if and only if the interval ends on the day it starts |
| AllocatorSafety.CreatedBookingsApart | internal/bookings/store.go:135-191 | in every run two active bookings of a professional, neither moved nor revived, have no instant in common, and the earlier keeps clear of the later one's travel and buffer |
| AllocatorSafety.DepositBeforeConfirmation | internal/bookings/service.go:286-314 | in every run a booking with a deposit that is confirmed, started, completed or settled had its deposit paid at an earlier state |
| AllocatorSafety.CountFollowsHistory | internal/bookings/store.go:338-368 | in every run booking_count equals the number of COMPLETED history rows of the professional |
| AllocatorSafety.RunSafe | internal/bookings/store.go:135-191 | the invariant behind these, kept by every statement of every handler, by crashes and by deposit updates |
| AllocatorHistory.MarksHaveCauses | internal/bookings/store.go:316-384 | a booking counts as moved only after a reschedule was written, and as revived only after it was over |
| AllocatorHistory.AlwaysActiveApart | internal/bookings/store.go:135-191 | in every run two bookings of a professional that were never over and never moved have no instant in common |
| AllocatorHistory.DepositsAreCurrent | internal/bookings/store.go:252-260 | Confirm finds a deposit paid if and only if its intent's latest update says so |
| AllocatorHistory.LocksAreReleased | internal/bookings/store.go:141-150 | in every run a professional's row is locked only by a handler inside Create |
| AllocatorRepaired.RepairedBookingsDisjoint | internal/bookings/store.go:370-384 | under both conditions all active bookings of a professional are disjoint in every run |
| AllocatorRepaired.ConfirmRevivesIntoOverlap | internal/bookings/service.go:307 | if Confirm accepts CANCELLED, or PENDING and COMPLETED, an overlapping state is reachable |
| AllocatorRepaired.RescheduleOverlapsInFlightCreate | internal/bookings/store.go:371 | without Create's lock an overlapping state is reachable even if the check and the write are one step |
| AllocatorRepaired.DisjointExactlyWhenRepaired | internal/bookings/store.go:370-384 | all reachable states are disjoint if and only if both conditions hold, over every set of statuses Confirm may accept and every way Reschedule may write |
| AllocatorRepaired.ConfirmDisjointIff | internal/bookings/service.go:307 | from a disjoint table a confirmation leaves it disjoint iff the booking is active already or meets no active booking of its professional |
| AllocatorRepaired.MoveDisjointIff | internal/bookings/store.go:371 | a move leaves it disjoint iff the booking is not active or its new place meets no active booking |
| AllocatorRepaired.StepDisjointIff | internal/bookings/store.go:135-191 | the same for every statement of every handler; only inserts, confirmations and moves can fail |
| AllocatorRepaired.DisjointThroughoutIff | internal/bookings/store.go:370-384 | a run of any configuration, the code's included, stays disjoint throughout iff each of its steps fits where it is taken |
| BookingStore.Store.CreateIfSlotFree | internal/bookings/store.go:135-191 | inserts the requested columns, with its history row, exactly when no instant of the padded interval is held by an active booking and the identifier is new |
| BookingStore.Store.UpdateStatus | internal/bookings/store.go:316-336 | changes the status and nothing else of the row, and adds a history row, exactly when the stored status is the expected one |
| BookingStore.Store.CompleteStatus | internal/bookings/store.go:338-368 | status, count and history row change together or not at all |
| BookingStore.Store.SetTimes | internal/bookings/store.go:370-384 | the times of any existing booking are overwritten whatever its status; the length is kept in whole minutes |
| Allocator.MovedKeepsLength | internal/bookings/service.go:432-433 | a rescheduled booking keeps its length, less a part of a minute, and everything but its times |
| BookingStore.Store.Confirm | internal/bookings/service.go:286-316 | the answer in each case: unknown, not the professional's, deposit unpaid, or confirmed from any status |
| BookingStore.Store.Start | internal/bookings/service.go:341-362 | the answer in each case; only from CONFIRMED |
| BookingStore.Store.Complete | internal/bookings/service.go:364-385 | the answer in each case; only from IN_PROGRESS or CONFIRMED, and counts the booking |
| BookingStore.Store.Cancel | internal/bookings/service.go:387-408 | the answer in each case; by either party, from PENDING, CONFIRMED or IN_PROGRESS |
| BookingStore.Store.Reschedule | internal/bookings/service.go:410-459 | the answer in each case: customer, status, time up to five minutes past, the slot check without the booking itself, and the slot lock |
| BookingStore.Store.Create | internal/bookings/service.go:167-214 | from the slot check on, the answer in each case: time, the slot check with travel before a home visit and the buffer after, the slot lock, and a new identifier |
| BookingStore.AloneConfirms | internal/bookings/service.go:286-316 | the machine's handler run alone does to the tables what the method does |
| BookingStore.AloneStarts | internal/bookings/service.go:341-362 | the same for Start |
| BookingStore.AloneCompletes | internal/bookings/service.go:364-385 | the same for Complete, up to its settlement |
| BookingStore.CompletedIsSettled | internal/bookings/service.go:364-385 | after the transaction the completion hook settles the booking |
| BookingStore.AloneCancels | internal/bookings/service.go:387-408 | the same for Cancel |
| BookingStore.AloneReschedules | internal/bookings/service.go:410-459 | the same for Reschedule |
| BookingStore.AloneCreates | internal/bookings/store.go:135-191 | lock, check, insert and commit with nobody in between are the store's transaction |
| BookingStore.AloneExpires | internal/jobs/jobs.go:82-99 | the expiry job cancels a booking that is still PENDING |
| Ledger.PostSound | internal/payments/store.go:99-157 | a posting keeps balances equal to credits minus debits and never negative, balance_after equal to the prefix sum, references unique |
| Ledger.LedgerSound | internal/payments/store.go:99-157 | the same over every run of attempted postings |
| Ledger.NeverOverdrawn | internal/payments/store.go:130-141 | no prefix of a wallet's entries sums below zero |
| Ledger.PostExists | internal/payments/store.go:190-197 | exactly which references exist after a posting |
| Payments.PaymentStore.ApplyLedger | internal/payments/store.go:99-157 | commits balance and entry together, or returns the first failing test's error and changes nothing |
| Payments.PaymentStore.TransactionExists | internal/payments/store.go:190-197 | true iff an entry has the reference |
| Payments.PaymentStore.MarkIntentSucceeded | internal/payments/store.go:322-326 | the intent is SUCCEEDED afterwards |
| Payments.PaymentStore.MarkIntentFailed | internal/payments/store.go:328-332 | the intent is FAILED afterwards, whatever it was |
| Payments.PaymentStore.ConfirmPayment | internal/payments/service.go:197-234 | ledger, status and error of one undisturbed confirmation, from any state |
| Payments.PaymentStore.ConfirmByReference | internal/payments/service.go:371-412 | only PENDING intents are touched, as the gateway's answer says; an unknown intent and an unreachable gateway are errors that change nothing |
| Payments.PaymentStore.SettleBooking | internal/payments/service.go:470-497 | ledger and error of one undisturbed settlement, from any state, and who gains what by it |
| Payments.SettleMovesMoney | internal/payments/service.go:485-492 | a settlement without error adds total less fee to the professional's wallet, the fee to the platform's, and nothing to any other |
| Payments.ConfirmMovesNothing | internal/payments/service.go:197-234 | confirming an untouched intent leaves every wallet's balance as it was |
| Payments.ConfirmSucceedsIff | internal/payments/service.go:197-234 | a confirmation run alone succeeds exactly when it does not find a received, uncharged payment with too small a balance |
| Payments.ConfirmIdempotent | internal/payments/service.go:197-234 | confirming again changes nothing and succeeds |
| ConfirmRuns.ConfirmedAtMostOnce | internal/payments/service.go:197-234 | any mix of concurrent, crashed and repeated confirmations leaves at most one receipt and one charge of the intent's amount in the customer's wallet, the charge after the receipt and under the category of the part it pays; success means both |
| ConfirmRuns.RetrySucceeds | internal/payments/service.go:197-234 | if nothing else debits the wallet, a retry from wherever a run stopped ends SUCCEEDED with one of each |
| ConfirmRuns.RefusedIffRaced | internal/payments/store.go:133-135 | then a thread is told the balance is short exactly when another has charged in between and the rest of the wallet is too small |
| ConfirmRuns.PaidIntentEndsFailed | internal/payments/service.go:219-225 | whenever the wallet does not already hold the amount, a run exists that completes the payment and marks it FAILED |
| ConfirmRuns.UnfailingRun | internal/payments/service.go:197-234 | when it does, no run of confirmations marks the intent FAILED |
| ConfirmRuns.PaidAndFailedIff | internal/payments/service.go:219-225 | a run that ends complete and FAILED exists if and only if the wallet does not hold the amount beforehand |
| ConfirmRuns.AloneIsConfirmPayment | internal/payments/service.go:197-234 | a thread alone does what the sequential code does, so the interleaved steps and the method are the same code |
| ConfirmRuns.CrashAfterReceipt | internal/payments/service.go:197-210 | a crash after the receipt leaves it in the ledger, uncharged |
| ConfirmRuns.LateDeclineOverwrites | internal/payments/store.go:328-332 | a decline after a complete payment turns SUCCEEDED into FAILED |
| ConfirmRuns.RunInv | internal/payments/service.go:197-234 | the invariant over all interleavings |
| Settlements.FeeIsNearestCentIff | internal/payments/service.go:518-520 | a number of cents is the fee if and only if it is the nearest to the exact percentage, the higher of two |
| Settlements.FeeWithinTotal | internal/payments/service.go:470-484 | for rates up to 100 percent the fee is part of the total |
| Settlements.SettleConserves | internal/payments/service.go:470-497 | a settlement that returns nil credited exactly the total, in two positive parts |
| Settlements.SettleSucceedsIff | internal/payments/service.go:470-497 | a settlement succeeds exactly when there is nothing to settle, or the professional has an account, nothing of the booking is credited, and fee and earnings are both at least a cent |
| Settlements.AloneIsSettleBooking | internal/payments/service.go:470-497 | an attempt alone is the sequential settlement |
| Settlements.NeverOverpaid | internal/payments/service.go:470-497 | over all interleaved, repeated and crashed attempts a booking is credited nothing, exactly the earnings of one of the attempts, or its total |
| Settlements.PartsGoToTheirOwners | internal/payments/service.go:485-492 | in every run each entry of the booking is an attempt's professional's earnings or the platform's fee, in the right wallet, category and amount |
| Settlements.CrashLosesFee | internal/payments/service.go:485-492 | a crash between the credits leaves exactly the earnings credited |
| Settlements.SettlementNeverResumes | internal/payments/service.go:485-492 | once only the earnings are credited no later attempt changes what the booking was credited |
| Payouts.PayoutDesk.SumEarnings | internal/payments/store.go:199-210 | the sum of the account's earning credits written since a time |
| Payouts.PayoutDesk.GetWallet | internal/payments/store.go:85-97 | a missing wallet has balance 0 |
| Payouts.PayoutDesk.AvailableBalance | internal/payouts/service.go:153-172 | balance less held earnings, not below zero |
| Payouts.PayoutDesk.EarningsSummary | internal/payouts/service.go:196-242 | each figure of the dashboard, and that available plus pending is the wallet iff held earnings are covered |
| Payouts.PayoutDesk.RequestPayout | internal/payouts/service.go:89-130 | the error in the order of the tests, or the debit of this wallet alone and the PENDING row; a bank account named is one of the professional's |
| Payouts.PayoutDesk.MarkPaid | internal/payouts/store.go:247-258 | a row is paid exactly once, from PENDING |
| Payouts.AcceptedRequest | internal/payouts/service.go:94-118 | a request is accepted if and only if it is positive, within what is not held, names no bank account but the professional's, and the ledger takes it |
| Payouts.RefusedRequest | internal/payouts/service.go:94-118 | exactly when each refusal comes back |
| Payouts.RequestMovesMoney | internal/payouts/service.go:120-122 | an accepted request takes its amount from the professional's wallet and nothing from any other |
| Payouts.PostEarned | internal/payments/store.go:199-210 | how one posting moves balance and held earnings |
| Payouts.EarnedShrinks | internal/payments/store.go:213-215 | as time passes earnings only leave the window |
| Payouts.DebitKeepsHeldIff | internal/payouts/service.go:103-106 | a debit leaves held earnings covered exactly when it is within the available balance |
| Payouts.AvailablePlusPendingIff | internal/payouts/service.go:153-182 | available plus pending is the wallet balance exactly when the wallet covers the held earnings |
| PayoutRuns.WholeIsRequestPayout | internal/payouts/service.go:89-130 | the three steps undisturbed are the sequential request, whatever bank account it names |
| PayoutRuns.PayoutsConserved | internal/payouts/service.go:89-130 | in every interleaving a wallet's payout debits are what is paid, waiting, unrecorded or lost in a crash; PAID never exceeds them |
| PayoutRuns.DebitCoveredIff | internal/payouts/service.go:120-122 | a debit keeps held earnings and open payments covered exactly when it is within what is available beside them |
| PayoutRuns.StepCoveredIff | internal/payouts/service.go:89-130 | any step keeps a covered wallet covered exactly when its debit, if it takes one, is affordable |
| PayoutRuns.CoveredThroughoutIff | internal/payouts/service.go:89-130 | over every interleaving the wallet is covered in each state if and only if each payout debit is affordable when it is taken |
| PayoutRuns.HeldEarningsStay | internal/payouts/service.go:89-172 | in every interleaving whose debits are affordable, available plus held is the wallet in each state |
| PayoutRuns.PayoutDuringPayment | internal/payouts/service.go:99-122 | a request made while a payment is open succeeds, and held earnings are lost exactly when request and payment exceed what was available |
| PayoutRuns.RacingRequests | internal/payouts/service.go:99-122 | two requests that both check first both succeed, and held earnings are lost exactly when together they exceed what was available |
| PayoutRuns.CrashKeepsDebit | internal/payouts/service.go:120-129 | a crash after the debit loses the payout and keeps the debit |
| PayoutRuns.HoldingPeriodEnds | internal/payouts/service.go:162-171 | once the holding period has passed since the last entry the whole wallet can be withdrawn |
| RateLimiter.TokenBucket.Take | pkg/httpx/ratelimit.go:53-65 | refill, clamp and take on the bucket |
| RateLimiter.Limiter.BucketFor | pkg/httpx/ratelimit.go:41-48 | finds the bucket or, after pruning a large table, makes a full one |
| RateLimiter.Limiter.Allow | pkg/httpx/ratelimit.go:36-65 | decision and table after a call, equal to the functions the trace results are about |
| RateLimiter.Limiter.Prune | pkg/httpx/ratelimit.go:67-76 | exactly the buckets idle for more than fifteen minutes go |
| RateLimiterRuns.AdmittedWithinRate | pkg/httpx/ratelimit.go:36-65 | for any clock, up to an admitted call at most cap plus the refill since t1 passes |
| RateLimiterRuns.FullRateBound | pkg/httpx/ratelimit.go:36-65 | the bound over any window of calls, without pruning |
| RateLimiterRuns.PruningIsInvisible | pkg/httpx/ratelimit.go:36-76 | with a monotone clock and a positive rate pruning changes no decision |
| RateLimiterRuns.RateBound | pkg/httpx/ratelimit.go:25-65 | of a key's calls between t1 and t2 at most rpm * (1 + (t2 - t1) / 60) pass |
| RateLimiterRuns.BurstAdmitsExactlyCap | pkg/httpx/ratelimit.go:46-65 | of a burst by a new client exactly the first rpm calls pass |
| RateLimiterRuns.SpacedNeverRefused | pkg/httpx/ratelimit.go:19-65 | a client whose calls are at least 60/rpm seconds apart is never refused, whatever others do |
| RateLimiterRuns.PruneKeepsRecentIff | pkg/httpx/ratelimit.go:43-76 | when a new client finds more than ten thousand buckets, exactly those of clients that called in the last fifteen minutes survive |
| RateLimiterRuns.NothingDropped | pkg/httpx/ratelimit.go:41-48 | otherwise no bucket is dropped or changed but the caller's |
| TokenRefresh.TokenClient.Begin | pkg/fcm/fcm.go:246-271 | the first critical section: cached token, queue, or take the flight |
| TokenRefresh.TokenClient.AfterWake | pkg/fcm/fcm.go:262-269 | a woken call gets the token iff it is usable for another minute |
| TokenRefresh.TokenClient.StoreToken | pkg/fcm/fcm.go:327-331 | token and expiry are replaced together |
| TokenRefresh.TokenClient.TakeWaiters | pkg/fcm/fcm.go:273-278 | the flight ends and the queue is handed over in one section |
| TokenRefresh.RunInv | pkg/fcm/fcm.go:245-332 | in every interleaving at most one refresh is in flight, waiters queue only behind one, every channel to be closed is open and on one list, and every blocked call's channel is queued, about to be closed, or closed |
| TokenRefresh.NeverClosedTwice | pkg/fcm/fcm.go:279-281 | a channel about to be closed is open |
| TokenRefresh.QuiescentMeansWoken | pkg/fcm/fcm.go:253-261 | when nobody is refreshing or closing, every blocked call has been woken |
| TokenRefresh.LeavingWakesAll | pkg/fcm/fcm.go:273-282 | a leaving call closes the channel of everyone queued, one step each |
| TokenRefresh.CacheIsLastStored | pkg/fcm/fcm.go:327-331 | in every run the cache holds the last exchange's token and its expiry, or nothing before the first |
| TokenRefresh.EnterServesFreshIff | pkg/fcm/fcm.go:246-251 | in every run an entering call is answered from the cache, without a flight, if and only if the last exchange's token has more than a minute left |
| TokenRefresh.RecheckServesFreshIff | pkg/fcm/fcm.go:262-269 | so is a woken call, which else fails |
| TokenRefresh.RefresherReturnsItsToken | pkg/fcm/fcm.go:273-332 | the refreshing call returns the token it stored, or none if it failed |
| TokenRefresh.CancelReturns | pkg/fcm/fcm.go:257-261 | a cancelled call returns without a token and leaves its channel queued |
| MigrationFiles.LoadMigrations | pkg/database/migrate.go:23-68 | one record per version mentioned in the directory, strictly increasing, each part from the last file that gives it; fails exactly when a migration file cannot be read |
| MigrationFiles.ParseIff | pkg/database/migrate.go:31-46 | an entry is taken for a migration if and only if it is a file named version, underscore, name, .sql |
| MigrationFiles.VersionReadBack | pkg/database/migrate.go:38-41 | a version is read back from its decimal digits, with leading zeros or a sign |
| MigrationFiles.StemOfName | pkg/database/migrate.go:51-58 | the name is what stands before .up or .down |
| MigrationFiles.MergeNext | pkg/database/migrate.go:30-60 | one file merged into the map, or skipped |
| MigrationFiles.MergeFile | pkg/database/migrate.go:46-58 | name and script by the name's ending |
| MigrationFiles.InVersionOrder | pkg/database/migrate.go:62-67 | the map's records in version order |
| MigrationRuns.Database.ApplyMigration | pkg/database/migrate.go:210-220 | the version is recorded only if script and row both succeed |
| MigrationRuns.Database.RollbackMigration | pkg/database/migrate.go:168-178 | the version is removed only if there is a script and both statements succeed |
| MigrationRuns.Database.MigrateUp | pkg/database/migrate.go:97-124 | the loop over a snapshot of the recorded versions does what the recursion on the current ones does |
| MigrationRuns.Database.NewestFirst | pkg/database/migrate.go:143-151 | the applied migrations, reversed in place |
| MigrationRuns.Database.MigrateDown | pkg/database/migrate.go:128-166 | rolls back the newest applied ones, as many as asked for, stopping at a failure |
| MigrationRuns.Reverse | pkg/database/migrate.go:149-151 | swapping from both ends reverses the slice |
| MigrationRuns.UpExtends | pkg/database/migrate.go:97-124 | from a prefix, up ends in the prefix before the first migration that fails, and succeeds iff it is all of them |
| MigrationRuns.DownShrinks | pkg/database/migrate.go:128-166 | from a prefix, down ends after the last migration that cannot be undone, and succeeds iff all asked for are gone |
| MigrationRuns.RecordedIsPrefix | pkg/database/migrate.go:97-166 | after any commands, failed or not, the recorded set is a prefix of the version order |
| MigrationRuns.DownLeaves | pkg/database/migrate.go:126-166 | with everything working down(steps) leaves the prefix shorter by steps; zero, negative or too many steps roll everything back |
| MigrationRuns.DownThenUp | pkg/database/migrate.go:97-166 | down(k) from the full state leaves the first n - k, and up restores all |
| Sessions.SessionStore.Create | internal/auth/session.go:31-43 | inserts unless the hash is taken |
| Sessions.SessionStore.GetByHash | internal/auth/session.go:45-61 | finds the session with the hash |
| Sessions.SessionStore.Revoke | internal/auth/session.go:66-76 | changes only a live session and says whether it did |
| Sessions.SessionStore.Refresh | internal/auth/service.go:231-271 | the errors in their order; otherwise the old session is revoked and a new one of the same user made |
| Sessions.SessionStore.Logout | internal/auth/service.go:273-283 | revokes the session of a known token and is silent about others |
| Sessions.AcceptedTokenIff | internal/auth/service.go:236-255 | a token is accepted if and only if its session is live, unexpired and of an active user, and which error comes back else |
| SessionRuns.AloneIsRefresh | internal/auth/service.go:231-271 | the three steps undisturbed are the sequential refresh |
| SessionRuns.RunInv | internal/auth/service.go:231-283 | the invariant over all interleavings of refreshes and logouts |
| SessionRuns.FamilyIsChain | internal/auth/service.go:231-283 | in every interleaving a session has at most one successor and is revoked if it has one; two descendants of one login are on one chain and at most one is live or about to be rotated |
| SessionRuns.RotatedWasValid | internal/auth/service.go:236-269 | in every interleaving a rotated session had been presented unexpired while its user was active, and its successor is the same user's |
| SessionRuns.DeadFamilyStaysDead | internal/auth/service.go:231-283 | a family without a live session or a rotation under way never gets one again |
| SessionRuns.LogoutEndsFamily | internal/auth/service.go:273-283 | logging out with the family's live token ends it |
| SessionRuns.CrashEndsFamily | internal/auth/service.go:255-269 | a refresh that crashes between revoking and issuing ends it too |
| SessionRuns.EarlierLeads | internal/auth/session.go:63-76 | in a family an earlier generation leads to a later one and has a successor |
| Paging.MessageStore.AddMessage | internal/messaging/store.go:283-302 | appends a row under a new identifier |
| Paging.MessageStore.ListMessages | internal/messaging/store.go:326-359 | by cursor, or by offset without one |
| Paging.MessageStore.Select | internal/messaging/store.go:335-344 | scanning for the newest row below the last one gives the ordered, limited page |
| Paging.PageIs | internal/messaging/store.go:336-339 | a page is strictly decreasing, holds only eligible rows, and leaves out an eligible row only when full and the row is below all of it |
| Paging.PageNewestFirst | internal/messaging/store.go:336-339 | a page is of the conversation, by time never increasing and by identifier decreasing at equal times, strictly behind the cursor |
| Paging.NothingMissedOrRepeated | internal/messaging/store.go:323-359 | however many messages arrive between pages, the feed is strictly decreasing and has every message of the start that the cursor has passed |
| Paging.FeedNewestFirst | internal/messaging/store.go:323-359 | so is everything the client reads, page after page |
| Paging.ShortPageMeansAll | internal/messaging/store.go:323-359 | after a short page every message of the start has been delivered |
| Paging.PagingEnds | internal/messaging/store.go:323-359 | as many pages as could hold the table include a short one |
| Paging.OffsetRepeats | internal/messaging/store.go:340-344 | an arrival that belongs on the page already read makes the next offset page begin with its last row |
| Paging.OffsetContinues | internal/messaging/store.go:340-344 | any other arrival leaves two offset pages without a common row |
| Paging.OffsetRepeatsIff | internal/messaging/store.go:340-344 | after one arrival behind a full first page the second repeats a row if and only if the arrival is of the conversation and newer than the first page's last row |

## Left out

- BookingStore.Store.Create: starts at the slot check; the start time's presence, idempotent replay and the lookups of service, variant and professional come before it, and their results are its inputs.
- BookingStore.Store.Reschedule: the lookup of the professional is not modelled, and a cache that fails counts as one that does not grant the lock; the same holds for Create.
- EffectiveWindows.ListEffectiveWindows: does not fix the order of windows with equal starts, because the sort is not stable.
- RateLimiterRuns.RateBound: assumes that calls take the lock in the order of their clock readings, because a bucket pruned at a later reading could be refilled for an earlier one; without pruning `AdmittedWithinRate` needs no such order.
- TokenRefresh.RunInv: says that no wake-up is lost, not that a scheduler eventually runs the woken call.
- BookingStore.Store.UpdateStatus: does not model a driver that reports an update to the same value as no row, because that is a connection option; the same holds for SetTimes.
- SQL isolation, foreign keys, decimal overflow and deadlocks: each statement or transaction is one atomic step, and reads after a lock see committed rows.
- The Redis slot lock inside the allocator machine: it only excludes equal start times and the overlap results do not need it; in the sequential methods its grant is an input.
- The text of an exception's date: it is taken to be the bare day. If the driver renders the DATE column as a timestamp, no exception matches its day.
- Time zones with daylight saving and sub-second times; a zone is a fixed offset.
- Float rounding: cents, basis points and, in the rate limiter, reals; amounts below a cent are not modelled.
- Gateways, signatures and the webhook table: an answer is an input; test gateways that mark intents SUCCEEDED without the ledger are left out.
- Hashing, access tokens, OTP and social login; a refresh token is an opaque hash. `RevokeAllForUser` has no caller.
- What migration scripts do to the schema, and the status listing.
- Start of week and month, the totals beside listings, read marks, and rich message columns.
- Bank account management; an account is its owner.
- Categories, deals, disputes, reviews, posts, portfolio, media, admin, analytics, reports, verification and notifications: plain reads and writes of single rows, and sums over them.
- The websocket hub, seed data, configuration, handlers and the frontend.
