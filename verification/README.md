# Monize, verified in Dafny

This project models the money engine of Monize and a few of its self-contained state
machines and codecs, and proves what they are for. `dafny verify dfyconfig.toml` checks all
of it.

Money is an `int` count of ten-thousandths, the precision the database stores, so
`roundMoney` of a stored amount is the identity; where a rate multiplies it, rates and
products are exact `real`s and the rounding is written out. Dates are day numbers.

## What is proved

**The account balance protocol** (`BalanceProtocol`, `BalanceInvariant`, `DuePass`,
`CloseGuarantee`, `ConcreteRuns`, `AccountOperations`). `accounts.current_balance` caches the
opening balance plus the ledger. Any number of database sessions maintain it at READ COMMITTED:
one event is one SQL statement, which sees the committed tables and its own transaction's
writes; a row written or locked stays locked to the end of the transaction; a transaction takes
its date when it begins, and midnight may pass while it runs. *Drift* is what the cache is
behind. On a fixed day no event changes any drift except a commit of an absolute recomputation,
which removes it, so every interleaving keeps cache and sum equal (`FixedDayAgreement`); that
the lock comes before the ledger is read is what this rests on (`EarlyReadLosesPosting`). Over
days, with at most eight between two completed due passes, each pass completed on its own date
leaves every account right, whether or not it was a candidate (`EveryPassSettles`). An account
closed at a current zero stays at zero as long as each commit leaves it there (`CloseHolds`).
`AccountOperations` is the imperative form: each operation of the service as a method that
issues its statements beside sessions in the middle of anything, says exactly when it has to wait
for one of them and from where it goes on, and states the whole new state and, where a balance is
recomputed, the order of its statements.

Three of these guarantees are false of the code without a condition. Each is given exactly, with
a run in `ConcreteRuns` that shows why it is needed.

- The pass finds accounts through the rows of its window. So a commit must leave each account out
  of step some row that has fallen due since the last pass (`ForgottenDeletion` deletes the last
  one, with `backend/src/common/deletion-balance.util.ts:45-69` moving the balance for a row dated
  on or before today). Nor may a commit of one date put an account out of step behind a session of
  another: behind a pass that has looked already (`MidnightPosting`), or whose total it puts out.
  Rows are not always changed under the lock of their account: a bulk void moves no balance for a
  row dated ahead, nor where its rows cancel
  (`backend/src/transactions/transaction-bulk-update.service.ts:1560-1582`), so it can commit beside
  a pass that has totalled the account (`BulkVoidBesidePass`). `DuePass.Spares` says all of it, and
  a commit keeps every account explained to every pass exactly when it holds (`CommitCoversExactly`;
  with every session of today, `SameDaySpares`). A pass on the last day allowed settles exactly the
  accounts that were left explained (`LatePassSettlesExactly`), and `PassSettlesExactly` says for any
  single pass exactly when it settles an account.
- A closed account refuses deltas, not recomputations. An edit with a future date on either side
  recomputes the accounts it touches (`backend/src/transactions/transactions.service.ts:3117-3135`),
  so a row that moves away from a closed account takes its amount with it (`MovedFromClosed`), and
  a row dated ahead that was being posted during the close arrives after it
  (`CreatedWhileClosing`). And two past rows that cancel can be bulk deleted without the account's
  lock, beside a session of an earlier date whose total has only one of them
  (`DeletedBesideRecompute`). A commit keeps the account closed at zero exactly when its row changes
  cancel there, what it recomputed came out at zero, none of its rows is dated ahead and it puts out
  no total another session has read (`CommitClosedExactly`, `RecomputedStaysZeroExactly`).
- Close reads the stored balance; a stored zero survives the next recomputation exactly when it was
  current (`RecomputeRevealsDrift`).

**Loans and mortgages** (`Money`, `PaymentCount`, `MortgagePayoff`, `LoanSchedule`,
`Waterfall`). The logarithm counts the periods of the real schedule; the closed forms are that
schedule's balance and interest; the rounded schedule clears its debt in the promised time; the
waterfall conserves money over any run of installments, and booking in a currency's smallest
unit keeps exact sums and never overshoots the debt.

**The forecast** (`Forecast`). Landing, deltas, sparse series and forward fill compose to one
prefix sum over the rows and the occurrences due since 31 days ago, with a record of what was
overdue; older ones are forgotten, and `OlderIsForgotten` says by how much that matters.

**The migration runner** (`Migrations`). Any number of processes, crashes and failures.

**The share stash** (`ShareStash`, `ShareInterleaving`). What a visible bundle promises, wherever
a share or a purge is cut short, first with shares taken one at a time, then with shares and
purges that overlap, one cache operation at a time. The promise has three conditions, each with a
run that shows it is needed. An *expired* index can outlive its bytes when a purge dies half-way
(`ExpiredMayBeHollow`). A purge takes a bundle whose index it cannot *read* for dead, so a live
bundle survives it exactly when its index could be read (`LiveSurvivesExactly`), and an unexpired
index can outlive its bytes too (`UnreadMayBeHollow`). And a purge that comes *between* a share's
first write and its index takes its bytes for orphans (`OverlapMayBeHollow`). Once the purges have
done what they were to do, an unexpired bundle that all of them could read is whole exactly when
none came in between (`UnexpiredIsWholeExactly`), and any visible bundle exactly when no purge
took a byte of it for dead (`VisibleIsWholeExactly`).

**Codecs and transformations** (`PngFilter`, `PixelDiff`, `CsvFormat`, `MoneyText`,
`AccountExport`, `RuleRewrite`, `RunningBalance`). Each is undone by, or agrees with, an
independent definition, and where writer and reader share a rule (the filters of an image, the
guard of a field, the names of the columns) the rule is stated by itself. Two findings: the backward walk of the loan detector goes over every
row of the account, while the stored balance leaves out void rows and rows dated ahead, and it
takes the magnitude of the balance; `WalkMeetsReplayExactly` says exactly when it is right all
the same, and `UncountedRowMisleads` and `CreditMisleads` are ledgers where it is not. And the
pixel count compares bytes by position, so with an alpha channel on one side only it depends on
the order of the frames (`OrderMatters`).

## Model

| member | source | states |
|---|---|---|
| BalanceInvariant.FixedDayAgreement | backend/src/accounts/accounts.service.ts:1757-1798 | on one day, after every interleaving of postings, recomputations, due passes, opening changes, closes and reopens by any number of sessions of that day, each stored balance is its opening balance plus its counted rows through today, and so is each total in flight |
| BalanceInvariant.DriftStep | backend/src/accounts/accounts.service.ts:209-224 | no event but the calendar's changes how far a balance is from its ledger, except a commit; on the transaction's own date that leaves it as it was or, for an account it recomputed, at what the total it read has missed since |
| BalanceInvariant.CommitDrift | backend/src/common/db/locks.ts:21-26 | a commit publishes rows and balance together: what its rows say of later days, and what its totals have missed, is the drift it leaves |
| BalanceInvariant.OpeningOk | backend/src/accounts/accounts.service.ts:2666-2687 | the statements of an opening-balance change keep the protocol invariant, the old value being read under the lock |
| BalanceInvariant.Keeps | backend/src/common/db/locks.ts:221-240 | every statement of every session, every commit and midnight keep the protocol invariant: locks exclude each other and each transaction's version accounts for its own rows by its own date |
| BalanceInvariant.TotalsRightExactly | backend/src/transactions/transaction-bulk-update.service.ts:770-775 | a commit keeps right every total of an account that other sessions have read exactly when its rows weigh nothing there by each such session's date |
| DuePass.EveryPassSettles | backend/src/accounts/accounts.service.ts:2512-2618 | over any run of days and sessions, midnight passing anywhere, with at most eight days between passes and commits that leave accounts explained, a pass completed on its own date leaves every account, candidate or not, equal to its ledger; one overtaken by midnight leaves each in agreement or with some row fallen due since its date, for the next pass to find it by |
| DuePass.CommitCoversExactly | backend/src/transactions/transactions.service.ts:3117-3135 | a commit, whatever it locks and whenever its transaction began, keeps every account explained to every pass, under way or to come, exactly when each account it leaves out of step keeps a row fallen due since the last pass and since the date of each pass that has let the account go or has totalled it |
| DuePass.SameDaySpares | backend/src/transactions/transactions.service.ts:3117-3165 | with every session of today and every total right, that is exactly when each account out of step that the commit does not recompute itself keeps a row fallen due since the last pass |
| DuePass.PassSettles | backend/src/accounts/accounts.service.ts:2573-2603 | a pass that commits on its own date leaves every account in agreement; one overtaken by midnight leaves each in agreement or with some row fallen due since its date, and those it recomputed equal to the ledger through its date but for what its totals have missed |
| DuePass.DayInvBegins | backend/src/accounts/accounts.service.ts:258-263 | an idle database in agreement, no more than eight days after a pass, is a state the runs above can start from |
| DuePass.NewDayExplained | backend/src/accounts/accounts.service.ts:258-263 | a new day puts an account out of step only with a row that explains it |
| DuePass.FindDueCatches | backend/src/accounts/accounts.service.ts:2537-2546 | the window of the pass, seven days back and the day itself, shows it every account that a row by its date explains |
| BalanceInvariant.WindowInFigures | backend/src/accounts/accounts.service.ts:2537-2546 | the pass finds an account exactly through a counted row of it dated from seven days before the pass's date to that date |
| BalanceInvariant.EightDaysIsTooOld | backend/src/accounts/accounts.service.ts:261-263 | an account is found through an only row seven days old, and not through one eight days old |
| DuePass.EightDaysBetweenPasses | backend/src/accounts/accounts.service.ts:261-263 | the run condition asks of the calendar that no day begins more than eight days after the last completed pass, and nothing else |
| DuePass.PassSettlesExactly | backend/src/accounts/accounts.service.ts:2537-2603 | with anything interleaved whose rows weigh today what they weigh by its own date, a pass leaves an account equal to its ledger exactly when it already was, it has a counted row in the window, or another session recomputes it meanwhile |
| DuePass.LatePassSettlesExactly | backend/src/accounts/accounts.service.ts:258-263 | on the last day allowed the window is exactly the days since the last pass, and the pass settles an account exactly when it was left explained or another session recomputes it meanwhile |
| DuePass.EarlyReadLosesPosting | backend/src/accounts/accounts.service.ts:1745-1751 | a total read before the lock and written after another session's commit is wrong by exactly that session's posting |
| ConcreteRuns.ForgottenDeletion | backend/src/common/deletion-balance.util.ts:45-69 | a run in which a row that has just fallen due is deleted before the pass, which then completes and leaves the balance wrong |
| ConcreteRuns.MidnightPosting | backend/src/transactions/transactions.service.ts:683-696 | a run in which a posting of a row dated tomorrow commits after tomorrow's first pass has looked, which then completes and leaves the balance wrong |
| ConcreteRuns.BulkVoidBesidePass | backend/src/transactions/transaction-bulk-update.service.ts:1560-1582 | a run in which a bulk void of a row dated tomorrow, which locks no account, commits after tomorrow's pass has totalled it, and the pass completes with the balance wrong and no row left to find it by |
| CloseGuarantee.CloseHolds | backend/src/accounts/accounts.service.ts:1492-1602 | from an accepted check on a current balance, through anything running beside the close and any later run of days without a reopen in which each commit leaves the account at zero and the totals others have read of it right, each half stays closed at zero and equal to its ledger |
| CloseGuarantee.ClosedForGood | backend/src/accounts/accounts.service.ts:1492-1602 | no statement, due pass or new day moves a closed account from zero, and no commit that leaves it there and puts out no total of it |
| CloseGuarantee.CommitClosedExactly | backend/src/accounts/accounts.service.ts:1757-1798 | a commit keeps the account closed at zero for good exactly when its row changes cancel on it, what it recomputed came out at zero, none of its rows is dated ahead and it puts out no total another session has read of it |
| CloseGuarantee.RecomputedStaysZeroExactly | backend/src/transactions/transactions.service.ts:3117-3135 | a posting that recomputes a closed account on its own date leaves it at zero exactly when its row changes cancel on it |
| CloseGuarantee.DeltasAloneLeaveZero | backend/src/accounts/accounts.service.ts:1678-1710 | a posting that only moves balances by deltas leaves a closed account at zero exactly when none of its rows there is dated ahead |
| ConcreteRuns.MovedFromClosed | backend/src/transactions/transactions.service.ts:3117-3135 | a run in which a past row moves from a closed account to an open one, dated ahead, and the closed account ends away from zero |
| ConcreteRuns.CreatedWhileClosing | backend/src/transactions/transactions.service.ts:683-696 | a run in which a row dated ahead commits after the account it found open was closed, and a later pass moves the closed account |
| ConcreteRuns.DeletedBesideRecompute | backend/src/transactions/transaction-bulk-update.service.ts:770-775 | a run in which two past rows that cancel on a closed account are bulk deleted without its lock, beside a recomputation of an earlier date that has totalled one of them, and the account ends away from zero |
| CloseGuarantee.DeltaRefused | backend/src/accounts/accounts.service.ts:1678-1710 | a delta on a closed account rolls the whole transaction back, ledger rows included, and changes no table |
| CloseGuarantee.CheckAccepts | backend/src/accounts/accounts.service.ts:1527-1560 | an accepted check on a current balance means zero today and on every later day |
| CloseGuarantee.RecomputeRevealsDrift | backend/src/accounts/accounts.service.ts:1527-1538 | a stored zero survives the next recomputation of its day exactly when it was current, or as far from it as what the total has missed |
| AccountOperations.Database.Recalculate | backend/src/accounts/accounts.service.ts:233-255 | done exactly when no other session holds any of the accounts named: then they get opening balance plus ledger through the day it began, from a total read once all are locked in order, and nothing else changes; otherwise it waits, holding what it has locked and having changed nothing |
| AccountOperations.Database.ContinueRecompute | backend/src/common/db/locks.ts:221-240 | one that waits, or a due pass, goes on from the accounts it holds to the next in order: what it then writes is the ledger as it is once the last is locked, and it waits again exactly when another session holds one of the rest |
| AccountOperations.UnderwayStays | backend/src/common/db/locks.ts:21-26 | whatever other sessions do meanwhile, an operation that waits can go on, and the accounts it holds have not changed |
| AccountOperations.Database.ApplyDueTransactionBalances | backend/src/accounts/accounts.service.ts:2537-2603 | exactly the accounts out of step with a counted row dated from seven days ago to today are rewritten, and nothing else; it waits exactly when another session holds one of them |
| AccountOperations.DuePassSettles | backend/src/accounts/accounts.service.ts:2554-2577 | run alone, the pass settles each account with a row in its window and rewrites only those that were out of step |
| AccountOperations.OutOfStepExactly | backend/src/accounts/accounts.service.ts:2537-2577 | those accounts, in figures: a stored balance other than opening balance plus ledger, and a counted row of the last seven days or today |
| AccountOperations.RecomputedSettles | backend/src/accounts/accounts.service.ts:1777-1790 | recomputing brings the drift of the named accounts to zero, leaves every other one's, and changes nothing but stored balances |
| AccountOperations.Database.ApplyOpeningBalanceChange | backend/src/accounts/accounts.service.ts:2666-2687 | the opening balance is set and the stored balance moves by the difference; it waits, with nothing read, exactly when another session holds the account |
| AccountOperations.OpeningKeepsDrift | backend/src/accounts/accounts.service.ts:2666-2687 | the opening balance is the new one, the account is as far from its ledger as it was, and nothing else of it changes |
| AccountOperations.Database.Close | backend/src/accounts/accounts.service.ts:1492-1602 | both halves are marked closed exactly when no other session holds them, the account is open, both read zero, neither has a row dated ahead and, for an investment account, neither has an open holding; it is refused with nothing changed when it could lock what it looked at and one of these fails, and waits otherwise |
| AccountOperations.CloseableExactly | backend/src/accounts/accounts.service.ts:1506-1585 | close accepts exactly an open account neither half of which has a balance or a counted row dated ahead nor, for an investment account, an open holding |
| AccountOperations.HalvesExactly | backend/src/accounts/accounts.service.ts:1471-1486 | the halves are the account and, for an investment account, the one it is linked with |
| AccountOperations.MarkedExactly | backend/src/accounts/accounts.service.ts:1587-1602 | closing and reopening set the flag of the halves and change nothing else |
| AccountOperations.Database.Reopen | backend/src/accounts/accounts.service.ts:1608-1651 | a closed account and its linked half are marked open as soon as no other session holds them, and an open one is refused with nothing changed |
| AccountOperations.Database.LockAll | backend/src/common/db/locks.ts:221-240 | each account is locked once, in ascending order of id, up to the first that another session holds, and no balance is touched |
| Money.RoundHalfAway | backend/src/common/round.util.ts:32-45 | the nearest whole number, never further than a half, the one further from zero at an exact half |
| Money.RoundMonotone | backend/src/common/round.util.ts:32-45 | rounding keeps the order of amounts |
| PaymentCount.CountIsFirstClearing | backend/src/accounts/amortization-count.util.ts:32-54 | the count is the first period at which the balance b(1+r) - A from P reaches zero or below, and Infinity means there is none |
| PaymentCount.InfiniteExactly | backend/src/accounts/amortization-count.util.ts:44-50 | Infinity exactly when no number of installments clears the balance, and exactly when A is not above zero or not above P times r |
| PaymentCount.CeilLog | backend/src/accounts/amortization-count.util.ts:51-54 | what the quotient of logarithms stands for: the least power that reaches the target |
| PaymentCount.ScaledClosedForm | backend/src/accounts/mortgage-amortization.util.ts:330-346 | the balance recurrence in closed form, before the division by the rate |
| MortgagePayoff.ClosedFormIsSchedule | backend/src/accounts/mortgage-amortization.util.ts:335-346 | the closed-form balance after k payments is k steps of the recurrence, with or without a rate |
| MortgagePayoff.InterestAccounts | backend/src/accounts/mortgage-amortization.util.ts:422-434 | the interest of all periods is what was paid less the principal retired |
| MortgagePayoff.ResidualPayoffIsSchedule | backend/src/accounts/mortgage-amortization.util.ts:379-435 | a known answer describes the schedule: every billed period is reached in debt, the count is the first of the caller's and the clearing one, the residual is exactly the last balance with its interest, rounded, the interest is exactly the sum over the periods with the residual's rounding, rounded, and a clearing residual is at most one installment |
| MortgagePayoff.UnknownExactly | backend/src/accounts/mortgage-amortization.util.ts:389-412 | the answer is unknown exactly for a negative principal, an unusable count, or an installment that never clears a positive one |
| MortgagePayoff.PaidOff | backend/src/accounts/mortgage-amortization.util.ts:389-401 | a mortgage paid off has an answer, three zeros, whatever its terms, and the unknown answer is -1 three times |
| MortgagePayoff.LinearClosedForm | backend/src/accounts/mortgage-amortization.util.ts:507-509 | P r (N+1) / 2 is the sum of N periods' interest on a debt falling by P/N |
| MortgagePayoff.InterestOnlyClosedForm | backend/src/accounts/mortgage-amortization.util.ts:483-493 | P r N is the sum of N periods' interest on the whole debt |
| MortgagePayoff.LinearRetiresExactly | backend/src/accounts/mortgage-amortization.util.ts:496-505 | N-1 rounded principals and the last one retire exactly P when, and only when, the first N-1 do not exceed it |
| MortgagePayoff.SharesExactly | backend/src/accounts/mortgage-amortization.util.ts:496-505 | the constant principal is P/N to the nearest ten-thousandth and the last one what the others leave, or zero |
| MortgagePayoff.LinearLastPrincipal | backend/src/accounts/mortgage-amortization.util.ts:496-505 | the last principal then differs from the constant one by at most N half-units |
| MortgagePayoff.LinearOvershoots | backend/src/accounts/mortgage-amortization.util.ts:502-505 | a debt whose rounded principals exceed it, so that the clamp hides an overpayment |
| LoanSchedule.CalculatePaymentSplit | backend/src/accounts/loan-amortization.util.ts:74-105 | interest is the balance times the rate to the nearest ten-thousandth, away from zero at a half; principal is the rest of the payment, no less than zero and no more than the balance |
| LoanSchedule.PaymentSplitIsSplit | backend/src/accounts/loan-amortization.util.ts:84-105 | every period of the schedules below is such a split |
| LoanSchedule.ScheduleIsOrdered | backend/src/accounts/loan-amortization.util.ts:84-98 | with rounded interest, interest never rises and principal never falls before the period that clears the debt |
| LoanSchedule.FullInstallment | backend/src/accounts/loan-amortization.util.ts:86-88 | for such an installment, before the last period interest and principal sum to exactly the installment |
| LoanSchedule.ScheduleClears | backend/src/accounts/loan-amortization.util.ts:95-98 | with a positive first principal the debt is exactly zero within ceil(P / first principal) periods and the principals sum to exactly P |
| LoanSchedule.ClearsExactly | backend/src/accounts/loan-amortization.util.ts:90-93 | a debt is ever cleared exactly when the installment is more than half a ten-thousandth above the debt times the rate |
| Waterfall.AllocateLoanPayment | backend/src/accounts/loan-payment-waterfall.util.ts:86-141 | the sequence of clamps computes the allocation the lemmas below are about |
| Waterfall.AllocationExactly | backend/src/accounts/loan-payment-waterfall.util.ts:86-141 | each line by its own rule: what is capitalized, how far interest is paid, when principal waits and where it stops, and what is left for the extra |
| Waterfall.InstallmentIsSound | backend/src/accounts/loan-payment-waterfall.util.ts:62-85 | one installment never overpays the debt, sums to its total, books all interest before any principal or extra, and raises the debt only by a capitalized shortfall, by exactly that |
| Waterfall.OverdrawsExactly | backend/src/accounts/loan-payment-waterfall.util.ts:99-140 | the parts exceed the installment exactly when more principal was priced, and is owed, than interest leaves of it |
| Waterfall.ShortOnlyWhenAllIsPaid | backend/src/accounts/loan-payment-waterfall.util.ts:74-84 | the installment is paid out whole unless the debt is retired or everything priced and configured is paid |
| Waterfall.PaidInOrder | backend/src/accounts/loan-payment-waterfall.util.ts:56-73 | interest comes before principal and principal before extra, and the unpaid interest is what exceeds the whole installment |
| Waterfall.RunConserves | backend/src/accounts/loan-payment-waterfall.util.ts:86-141 | over any run the debt is the first debt plus the booked interest less the totals, and never below zero |
| Waterfall.BookLoanAllocation | backend/src/accounts/loan-payment-waterfall.util.ts:169-216 | a balanced allocation is booked line by line as priced, in whole units that sum to its total exactly; a non-negative one with no negative line and no more than the debt retired; and a debt of whole units that it retires is left at exactly zero |
| Waterfall.LinesAsPriced | backend/src/accounts/loan-payment-waterfall.util.ts:169-216 | interest and extra are the nearest whole amounts and principal takes the rest of the nearest total; where that would turn priced principal negative, principal is the nearest and the extra takes the rest; where it exceeds the debt, what was priced or is owed is cut down to the unit, and the extra goes first |
| Waterfall.UnbalancedLines | backend/src/common/currency-minor-unit.util.ts:56-65 | lines that do not sum to their total are each rounded to the nearest unit |
| Waterfall.WholeLinesAreKept | backend/src/accounts/loan-payment-waterfall.util.ts:169-183 | principal, interest and extra priced in whole cents are booked as they are |
| Waterfall.BookingIsWhole | backend/src/common/currency-minor-unit.util.ts:50-72 | every line of every booked allocation is a whole number of units and the lines sum to the total exactly |
| Waterfall.LinesNonNegative | backend/src/accounts/loan-payment-waterfall.util.ts:179-182 | when rounding would turn principal negative the extra absorbs it, and then no line is negative |
| Waterfall.BookingNeverOvershoots | backend/src/accounts/loan-payment-waterfall.util.ts:188-208 | a non-negative allocation is booked with no negative line and retires no more than the debt |
| Waterfall.BookingStaysNear | backend/src/accounts/loan-payment-waterfall.util.ts:143-168 | interest is booked to the nearest unit, and so is the total unless the debt cuts it; then less than a unit of what could be retired is left |
| Waterfall.FinalInstallmentIsExact | backend/src/accounts/loan-payment-waterfall.util.ts:165-167 | a debt of whole units is left at exactly zero by the installment that retires it |
| Waterfall.ShortfallAsBooked | backend/src/accounts/loan-payment-waterfall.util.ts:156-159 | a capitalized shortfall raises the booked debt by the rounded interest less the rounded installment, and `unpaidInterest` is that exactly while the two round apart |
| Waterfall.ShortfallRoundsAway | backend/src/accounts/loan-payment-waterfall.util.ts:183-187 | an installment whose shortfall rounds away: the debt stays and the unrounded shortfall is reported |
| Waterfall.BookedRun | backend/src/accounts/loan-payment-waterfall.util.ts:160-167 | a debt kept in whole units stays in whole units, and out of credit, over any run of priced and booked installments |
| Forecast.TransferNetsToZero | backend/src/accounts/balance-forecast.util.ts:120-134 | the two sides of a priced transfer cancel exactly when it is an outflow |
| Forecast.DeltaOverAccounts | backend/src/accounts/balance-forecast.util.ts:113-134 | over any accounts, each counted once, an occurrence moves its amount at the source and its magnitude at the destination, once each |
| Forecast.OutflowIsConserved | backend/src/accounts/balance-forecast.util.ts:120-134 | over all accounts a plain occurrence moves its amount, and a transfer nothing exactly when it is an outflow |
| Forecast.AccumulateForecastDeltas | backend/src/accounts/balance-forecast.util.ts:148-191 | each day of the map holds the actual delta and every priced occurrence landing that day; the gaps and the overdue record are those of the occurrences |
| Forecast.GapsAreExact | backend/src/accounts/balance-forecast.util.ts:160-178 | the gap list names exactly the schedules with an unpriced occurrence on the account, each once |
| Forecast.GapReason | backend/src/accounts/balance-forecast.util.ts:160-171 | a gap gives the reason of the first occurrence of its schedule that has no price, and the unresolved rate when that gives none |
| Forecast.CompleteExactly | backend/src/accounts/balance-forecast.service.ts:201-206 | a forecast is complete exactly when every occurrence touching the account is priced |
| Forecast.BuildForecastSeries | backend/src/accounts/balance-forecast.util.ts:198-214 | the sparse series, read at its latest point, gives every day the start balance and all deltas up to it |
| Forecast.ForwardFill | backend/src/accounts/daily-balance-totals.service.ts:436-451 | exactly the days on or after the first point get a value, each the latest point's |
| Forecast.Project | backend/src/accounts/balance-forecast.service.ts:159-222 | the stages compose: every requested day after today to the horizon has the start balance plus all rows by then and all occurrences due by then and no more than 31 days overdue; such an occurrence without a price, and nothing else, withholds the account; and the overdue record names tomorrow, the number of those due before today and their net, where there are any |
| Forecast.LandAll | backend/src/accounts/balance-forecast.service.ts:159-199 | exactly the occurrences due from 31 days before today to the horizon that move money through the account reach the projection, in order, each on the day it lands |
| Forecast.LandingExactly | backend/src/accounts/balance-forecast.util.ts:100-106 | an occurrence due by today lands tomorrow, any other on its day, and only one due before today is overdue |
| Forecast.OverdueExactly | backend/src/accounts/balance-forecast.util.ts:174-180 | the overdue record counts the account's occurrences due before today and no more than 31 days ago, each once, and nets the priced ones |
| Forecast.AnyOrder | backend/src/accounts/balance-forecast.util.ts:172-189 | what lands in any span of days is the same for every order of the occurrences |
| Forecast.OverdueIsCarried | backend/src/common/scheduled-occurrences.ts:22-34 | what lands in the days after today is everything due from 31 days ago to the last of them |
| Forecast.OlderIsForgotten | backend/src/accounts/balance-forecast.service.ts:159-169 | the forecast is short of everything due and unposted by exactly what fell due more than 31 days ago |
| Forecast.UnpricedInputs | backend/src/accounts/balance-forecast.service.ts:171-199 | the projection meets an unpriced input exactly when an occurrence that is carried has no price |
| Migrations.AppliedAtMostOnce | backend/src/db-migrate.ts:292-392 | whatever starts, crashes and fails, each migration's effect is committed at most once and is there exactly when its ledger row is |
| Migrations.RunExtendsByPrefix | backend/src/db-migrate.ts:357-392 | a run extends what it found by a prefix of its ordered pending list, and by all of it when it finishes |
| Migrations.PrimaryKeyNeverCollides | backend/src/db-migrate.ts:295-300 | the ledger being read under the lock, recording a file never meets an existing row |
| Migrations.AppliedInOrder | backend/src/db-migrate.ts:343-355 | when all processes carry the same ordered directory the history is always a prefix of it |
| Migrations.Database.RunMigrations | backend/src/db-migrate.ts:357-392 | the loop applies the pending files up to the first that fails, counts them, and succeeds exactly when none did |
| ShareStash.Worker.Purge | frontend/public/sw.js:157-198 | cut short anywhere, a purge adds nothing and keeps every live bundle whose index it could read; run to its end it leaves exactly those and what could not be deleted |
| ShareStash.LiveSurvivesExactly | frontend/public/sw.js:171-184 | a live bundle survives a purge that does all it has to exactly when its index could be read; otherwise none of it is left |
| ShareStash.Worker.StoreFiles | frontend/public/sw.js:219-266 | the files are judged and stored in order until a write does not succeed |
| ShareStash.Worker.StashShare | frontend/public/sw.js:206-287 | whatever is cut short, the cache is a purge followed by a prefix of the share's writes, as long as the writes that succeed, and success means all of them |
| ShareStash.EveryFileJudged | frontend/public/sw.js:236-262 | every shared file is in the index once and in order; it is refused for the first that holds of its kind, more than 10 MiB, ten files accepted before it and more than 50 MiB with them, and accepted when none does |
| ShareStash.CountedIsWritten | frontend/public/sw.js:256-263 | what counts against the limits is what is stored: as many files and as many bytes |
| ShareStash.LiveExactly | frontend/public/sw.js:180-184 | a bundle lives for one hour from the time in its index |
| ShareStash.ShareKeeps | frontend/public/sw.js:269-287 | wherever a share stops the stash stays sound, and it is visible exactly when its index was written |
| ShareStash.SerialIsWhole | frontend/public/sw.js:206-287 | over any run of shares and purges taken one at a time and cut short anywhere, an unexpired index that every purge could read names only files whose bytes are stored, each file of its share once, within the limits |
| ShareStash.PurgeIsExact | frontend/public/sw.js:152-156 | after a purge that does all it has to, exactly the keys of the unexpired indexed bundles it could read remain, unchanged, but for bytes an earlier purge took from a bundle it could not read |
| ShareStash.ExpiredMayBeHollow | frontend/public/sw.js:184-191 | a run in which a purge dies on an expired bundle and leaves its index without the bytes |
| ShareStash.UnreadMayBeHollow | frontend/public/sw.js:176-189 | a run in which a purge cannot read the index of a live bundle and leaves the index, still unexpired, without the bytes |
| ShareInterleaving.VisibleIsWhole | frontend/public/sw.js:848-857 | over any run of overlapping shares and purges, a visible bundle lists every file of its share once, within the limits, and is whole if no purge took a byte of it for dead |
| ShareInterleaving.VisibleIsWholeExactly | frontend/public/sw.js:169-192 | once the purges have deleted what they were to, a visible bundle is whole exactly when no purge took a byte of it for dead |
| ShareInterleaving.CondemnedExactly | frontend/public/sw.js:171-190 | a purge takes a byte for dead exactly by reading its bundle, with the byte listed, before the index is in, after it has expired, or without being able to read it |
| ShareInterleaving.WholeExactly | frontend/public/sw.js:269-273 | a visible bundle is whole exactly when no byte of it was deleted |
| ShareInterleaving.UnexpiredIsWholeExactly | frontend/public/sw.js:269-287 | an unexpired bundle that every purge could read is whole, once they have deleted what they were to, exactly when none came between its first write and its index |
| ShareInterleaving.OverlapMayBeHollow | frontend/public/sw.js:848-857 | a run in which another share's purge deletes the bytes of a share that then writes its index |
| PngFilter.PaethIsNearest | e2e/readme/png-diff.ts:18-25 | the predictor is whichever of left, up and upper left is nearest to left + up - upper left, left before up and up before upper left when they are as near |
| PngFilter.UndoByte | e2e/readme/png-diff.ts:65-73 | one byte is its filtered value plus the prediction from the bytes before it, modulo 256, in place |
| PngFilter.DecodeRows | e2e/readme/png-diff.ts:58-75 | the in-place loops compute the decoded image, each byte of it by the lemma below |
| PngFilter.DecodedByteIsUndone | e2e/readme/png-diff.ts:58-75 | byte x of row y is its raw byte plus, modulo 256, nothing for filter 0 or any not known, the byte a pixel to the left for 1, the byte above for 2, half their sum for 3, and the nearest of left, above and above left for 4, with zero outside the image |
| PngFilter.DecodeUndoesFilter | e2e/readme/png-diff.ts:61-75 | for every image and every choice of filter per row, decoding the filtered rows restores the bytes |
| PngFilter.FilterUndoesDecode | e2e/readme/png-diff.ts:61-75 | filtering the decoded image with the filters read gives the raw data back, so no two raw inputs with the same filters decode alike |
| PixelDiff.DifferingPixels | e2e/readme/png-diff.ts:83-100 | the loops count the pixels with a channel beyond the tolerance, and frames of different sizes differ everywhere |
| PixelDiff.PixelDiffersExactly | e2e/readme/png-diff.ts:90-98 | a pixel differs exactly when one of its bytes is further from the byte at the same place of the other frame than the tolerance |
| PixelDiff.CountExactly | e2e/readme/png-diff.ts:86-100 | frames of different sizes count every pixel of the first, others the pixels that differ |
| PixelDiff.NoneDiffersExactly | e2e/readme/png-diff.ts:79-82 | frames of one shape count nothing exactly when every byte is within the tolerance |
| PixelDiff.Symmetric | e2e/readme/png-diff.ts:83-100 | with equal channels the order of the frames does not matter |
| PixelDiff.OrderMatters | e2e/readme/png-diff.ts:93-99 | with an alpha channel on one side only, it does |
| CsvFormat.EscapeCsv | backend/src/accounts/account-export.service.ts:383-404 | the escaped field is read back as the guarded value, and is quoted exactly when that holds a comma, a quote or a line break |
| CsvFormat.ParseUndoesText | backend/src/accounts/account-export.service.ts:361-404 | a reader of section 2 of RFC 4180 gets every table of rows of arbitrary strings back, cell by cell |
| CsvFormat.GuardedIsNoFormula | backend/src/accounts/account-export.service.ts:66-79 | a guarded field opens with none of =, +, -, @, tab and carriage return unless it is a number, and guarding again changes nothing |
| CsvFormat.GuardExactly | backend/src/accounts/account-export.service.ts:383-393 | an apostrophe goes in front of exactly the values that open with one of these and are no number |
| CsvFormat.NumericExactly | backend/src/accounts/account-export.service.ts:66-79 | a number is an optional sign, digits and separators with at least one digit, and an optional percent sign, and nothing else is |
| CsvFormat.ExemptHolds | backend/src/accounts/account-export.service.ts:66-79 | of the ASCII characters a value that is exempt holds only digits, separators, a sign in front and a percent sign behind |
| CsvFormat.FormulaIsGuarded | backend/src/accounts/account-export.service.ts:383-393 | `=1+1` is written behind an apostrophe |
| CsvFormat.GuardedCollides | backend/src/accounts/account-export.service.ts:384-393 | two values are guarded alike exactly when they are equal or one is the other behind an apostrophe |
| MoneyText.ShowReads | backend/src/accounts/account-export.service.ts:377-379 | a printed amount reads back as the same amount and needs no quotes |
| MoneyText.ShowIsShort | backend/src/accounts/account-export.service.ts:377-379 | it has a minus sign exactly below zero and no idle zero: none before another whole digit, none at the end of up to four decimals |
| AccountExport.CsvRow | backend/src/accounts/account-export.service.ts:361-381 | a row is the quoted, guarded fields with the amounts printed as they are and a missing balance empty |
| AccountExport.ExportCsv | backend/src/accounts/account-export.service.ts:100-179 | the file parses to the header, a row per transaction with its running balance, and a row per expanded split |
| AccountExport.TransactionIsListed | backend/src/accounts/account-export.service.ts:124-174 | under the names of the header a reader finds each text of a transaction, guarded, its amount and its balance, and below it, where it is expanded, each split's category, memo and amount and nothing else |
| AccountExport.CategoryExactly | backend/src/accounts/account-export.service.ts:134-160 | the category is the label of a transfer unless its splits are listed, "(Split)" for a split transaction, else the path |
| AccountExport.TransferLabelExactly | backend/src/accounts/account-export.service.ts:64-66 | the label says To for a negative amount and From otherwise, and determines the direction and the other account |
| AccountExport.BalancesAreRunning | backend/src/accounts/account-export.service.ts:117-126 | a reader finds one balance per transaction, in order, and none beside a split |
| AccountExport.RunningBalanceAt | backend/src/accounts/account-export.service.ts:119-126 | each balance is the opening balance and all amounts so far that are not void |
| RuleRewrite.MeaningKept | backend/src/accounts/loan-source-account.ts:109-134 | on every nesting of groups, the rewritten condition judges the new account as it judged the old unless a leaf named the new one alone, third accounts as before, and the old one as an account it never named |
| RuleRewrite.NewAccountReadsAsOld | backend/src/transaction-rules/rule-condition.evaluator.ts:30-47 | a condition no leaf of which names the new account without the old, such as a list with both, holds for a row on the new one exactly when it held on the old |
| RuleRewrite.ThirdAccountsUnchanged | backend/src/transaction-rules/rule-condition.evaluator.ts:122-139 | a row on any third account is judged the same |
| RuleRewrite.OldAccountIsForgotten | backend/src/accounts/loan-source-account.ts:122-133 | the old account is judged as any account the condition never named |
| RuleRewrite.LeafReadsExactly | backend/src/accounts/loan-source-account.ts:122-133 | at a leaf, whatever its operator and value, the new account reads as the old one did exactly when the leaf does not find the new one alone |
| RuleRewrite.LeafMeaning | backend/src/transaction-rules/rule-condition.evaluator.ts:122-139 | the four operators on an account: it, any other, one of a list, none of a list |
| RuleRewrite.GroupMeaning | backend/src/transaction-rules/rule-condition.evaluator.ts:30-47 | all of nothing holds, any of nothing does not, and `not` turns the answer of a group around |
| RuleRewrite.ListRewritten | backend/src/accounts/loan-source-account.ts:124-133 | a list that names the old account is rewritten place by place and left with each account once, where it first comes; one that does not is left alone, repetitions and all |
| RuleRewrite.SameExactly | backend/src/accounts/loan-source-account.ts:104-121 | the same object is returned exactly when no account leaf named the old account |
| RuleRewrite.Idempotent | backend/src/accounts/loan-source-account.ts:109-134 | rewriting again returns the same object |
| RuleRewrite.BackAgain | backend/src/accounts/loan-source-account.ts:109-134 | pointing a rule there and back restores its meaning: on the old account when no leaf named the new one alone, on the new one when none named it, on every other always |
| RuleRewrite.Store.ReassignLoanSource | backend/src/accounts/loan-source-account.ts:57-94 | the schedule draws on the new account; a rule with no action that settles this loan is left alone, and each other that names the old source is rewritten; the revision rises by one exactly where the rule changes, and actions never change |
| RuleRewrite.SettlesExactly | backend/src/accounts/loan-source-account.ts:96-102 | a rule settles a loan exactly through an action that settles an installment of that loan |
| RuleRewrite.ReassignedOnce | backend/src/accounts/loan-source-account.ts:81-93 | a second reassignment bumps no revision, and a revision is bumped exactly when the rule changed |
| RunningBalance.BuildRunningBalanceMap | backend/src/accounts/loan-payment-detector.service.ts:897-927 | the map has exactly the dates with a row, each with what the walk reached at the date's first row |
| RunningBalance.WalkMeetsReplayExactly | backend/src/accounts/loan-payment-detector.service.ts:891-896 | the walk agrees with a forward replay at a row exactly when the rows from there on that the stored balance does not count cancel out, or make up for twice a credit |
| RunningBalance.UncountedRowMisleads | backend/src/accounts/loan-payment-detector.service.ts:121-126 | a ledger with a row dated ahead for which the walk reports a debt where a replay owes nothing |
| RunningBalance.CreditMisleads | backend/src/accounts/loan-payment-detector.service.ts:906 | an account in credit for which the walk reports twice the credit too much |
| RunningBalance.RightExactlyInDebt | backend/src/accounts/loan-payment-detector.service.ts:906-920 | when every row is counted, it agrees exactly when the account is not in credit |
| RunningBalance.DebtBeforeEachDate | backend/src/accounts/loan-payment-detector.service.ts:897-927 | on a dated, counted ledger every entry is the debt left by the rows of earlier dates exactly when the account is not in credit |

## Left out

- BalanceInvariant.FixedDayAgreement: all users share one timezone, and a transaction has one date, that of its beginning; the service reads the clock at each operation and takes `today` per timezone bucket.
- DuePass.EveryPassSettles: under `Spares` at each commit, which the code does not see to: `CommitCoversExactly` shows the condition to be exact, and `ForgottenDeletion`, `MidnightPosting` and `BulkVoidBesidePass` are runs without it. For a pass overtaken by midnight it names a row behind each account out of step, not how far out of step the account is.
- CloseGuarantee.CloseHolds: starts from a stored balance that is current (the code checks the stored figure only) and needs each other commit to leave the account at zero and its totals right, which the code does not see to: `MovedFromClosed`, `CreatedWhileClosing` and `DeletedBesideRecompute` are runs of it that do not. Later deltas are open-only and the opening balance is left alone (`CloseGuarantee.Ordinary`).
- AccountOperations.Database.Close: the count of open holdings belongs to the account and does not change, and a missing account is not an outcome.
- AccountOperations.Database.Recalculate: like the other operations, it runs from one wait to the next with nothing between its statements; interleavings of single statements are the subject of the protocol modules. Other sessions hold still while it looks for the first account it has to wait for.
- AccountOperations.Database.Reopen: the source reads the account without a lock, as here, and then saves the entity it read; here only the flag is written, under the lock, and what the ORM makes of other columns that have changed since the read is not part of this model.
- BalanceProtocol: the waits of foreign-key share locks, deadlock detection and statement timeouts; a blocked statement is one that is not enabled yet. Ledger changes reach balances only through the functions cited.
- PaymentCount.CeilLog: the logarithm stands for its exact value; the precision of `Math.log`, `Math.pow` and floating point in general is not modelled.
- Waterfall.AllocateLoanPayment: amounts are given at storage precision, and the currency's decimals enter as the size of its unit in ten-thousandths.
- LoanSchedule: payment dates, end dates and `calculatePaymentForTerm`; the same arithmetic with calendar stepping around it.
- Forecast.Project: the dates of a schedule's occurrences, exchange rates and fee pricing; an occurrence arrives with its date and its amount or the reason it has none. The sum over accounts in several currencies is not part of this model.
- Migrations.AppliedAtMostOnce: file names that fail the path check are skipped by the runner and are not in the ordered list here; the SQL of a migration either takes effect with its ledger row or not at all.
- ShareStash.Worker.StashShare: the kind of a file is given (its classification compares lower-cased MIME types and extensions), bundle ids are assumed fresh, and the page that later claims or discards a bundle is not modelled.
- ShareStash.SerialIsWhole: shares and purges one at a time, unexpired indexes that every purge could read, and a clock that does not go back; the runs that overlap are in `ShareInterleaving`.
- PngFilter.DecodeRows: inflating and chunk reading; the raw bytes are given and have the length the header promises.
- CsvFormat.IsNumeric: which characters are decimal digits, currency symbols or white space is a parameter; `CsvFormat.KnowsAscii` is what Unicode says of the ASCII ones.
- AccountExport.ExportCsv: dates arrive formatted and names masked; the QIF export is not modelled.
- RuleRewrite.MeaningKept: the row's other facts, including the two accounts of a transfer, stay as they are when it is read on another account.
- RunningBalance: `consolidatePaymentsByDate` and the heuristics of the detector (confidence, frequency, trend).
- Controllers, validation, SQL text, i18n, logging, push and offline pages.
