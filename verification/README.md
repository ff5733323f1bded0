# OmniHR: leave ledger, accruals and step protocols in Dafny

A Dafny 4.11 model of the leave module of the OmniHR backend and of the three protocols around
it, with proofs of what holds in every state the system can reach.

* **Leave ledger.** The tables are sequences of rows that only grow; a row's id is its position.
  Nothing in the tables makes a key unique: a lookup meant for one row can find none, one or
  several (`Repository.Lookup`), as `scalar_one_or_none` can, and that it never finds several is
  a theorem. `Ledger` gives each service operation as a function from tables to new tables or an
  error, and `Ledger.Run` gives the runs of the system. `LeaveServices.LeaveService` is the
  service as an object: its methods change the tables step by step, roll back when they fail,
  and are proved against those functions; a valid service is always in a state of some run.
* **Accrual engine.** A run is two nested loops; one turn of the inner loop is also an event of
  its own, carrying its own (possibly stale) user and policy, so the theorems on runs of the
  system cover every interleaving of runs, manual triggers, policy edits and other operations.
* **One allocation at a time.** `AllocationViews` looks at an allocation through its user, leave
  type and year and says what every event does to it in terms of the state before the event; when
  a balance falls below zero, repeated runs and the closed form of many accruals follow from that.
* **Working days.** The day-by-day loop, tied to a cardinality, a closed form and the effect of
  loading one year's holidays.
* **Step protocols.** The multi-worker scheduler with its 23-hour lock, the idempotency-key
  protocol and refresh-token rotation, each as a class and as a machine over all interleavings.

Days are counted in hundredths (half a day is 50). Dates are ordinals as in Python's `date`;
year, month and weekday are functions of the ordinal. The clock, the moments at which Redis
executes a command, the order in which queries return rows, password checks and token decoding
are parameters.

`dafny verify dfyconfig.toml` checks the whole project.

## What the proofs show about the code

* The scheduler's comment promises no second run of a date across workers
  (app/core/scheduler.py:34). The lock lives 82800 s and a day 86400 s, so a second run can
  happen, with workers that never stall (`PromptWorkersRunTwice`): a pass runs a date again
  exactly when its worker is not done with the date and 82800 s have gone by since the last run of
  that date (`PassRule`, `RepeatRule`), and each date runs once exactly when no pass does
  (`EachDateRunsOnce`). Three runs cannot happen as long as no worker stalls more than 79200 s
  between reading the clock and taking the lock; with one second more, they can
  (`AtMostTwoRunsPerDate`, `ThreeRunsNeedAStall`). Unless users or policies were edited in
  between, the second run changes nothing, whatever else happened (`RunIsIdempotent`).
* Nothing is held back for pending requests and an approval does not look at the balance, so
  two approvals overdraw an allocation exactly when together they exceed what remains
  (`TwoApprovalsOverdraw`). A step takes a balance below zero exactly when it approves more days
  than remain, accrues to a quota below the days used, or opens the allocation with a negative
  default quota (`DebtRule`, `RunDebtRule`); each of the three is reached from empty tables
  (`DebtByApproval`, `DebtByAccrual`, `DebtByDefault`).
* The schema document lists a unique constraint on allocations and checks that allocated, used
  and compensatory days are not negative (docs/DATABASE_SCHEMA.md:111-120); the table classes
  have none of them. Uniqueness is proved from the operations (`ReachableInv`), and so are the
  checks on used and compensatory days; the allocated days go below zero exactly when an
  allocation is opened with a negative default quota or an accrual is due under a negative quota
  (`ColumnChecks`, `NegativeByAccrual`).
* Holidays are loaded for the start year only, so a request that crosses the new year may be
  charged for holidays; `StartYearHolidays` says exactly when, and `NewYearIsCharged` gives one.
* A request that ends on 31 December 9999 steps past `date.max`; the operation fails
  (`CostShape`, `AdmissionRule`).
* The idempotency lock excludes a second execution exactly as long as no client asks for it when
  the first has been executing for 300 s (`ExclusiveExactly`, `LateExecutionsOverlap`).
* The idempotency entry joins path and key with a colon (app/core/services/idempotency_service.py:39),
  so a path that holds a colon can share an entry with a shorter one; `RedisKeysCollide` says
  exactly when, and paths without a colon never do (`PathsAreSeparated`).

## Model

| member | source | states |
|---|---|---|
| Calendar.CivilDate | app/modules/leaves/service.py:593-605 | every civil date of years 1 to 9999 has its year and month back, under the Gregorian leap rule and month lengths |
| Calendar.DateIsCivil | app/modules/leaves/service.py:593-605 | and every date is a day of its own year and month |
| Calendar.WeeksFromAMonday | app/modules/leaves/service.py:59-60 | weekdays count from Monday, 1 January 2024, in weeks of seven days |
| WorkingDays.CalculateWorkingDays | app/modules/leaves/service.py:48-68 | the day-by-day loop, with its floor of half a day, computes the cost function; it fails exactly when it would step past `date.max` |
| WorkingDays.CountIsCardinality | app/modules/leaves/service.py:59-63 | the loop counts each weekday, non-holiday date of the period exactly once |
| WorkingDays.CountAdditive | app/modules/leaves/service.py:59-63 | splitting a period at any date loses and gains no day |
| WorkingDays.CountClosedForm | app/modules/leaves/service.py:59-63 | the count is 5 per whole week plus a part fixed by the first weekday and the odd days, minus the weekday holidays of the period |
| WorkingDays.CostShape | app/modules/leaves/service.py:65-68 | a cost is a multiple of half a day, zero exactly when the period holds no working day; a half-day request costs exactly half a day less, so the floor never binds |
| WorkingDays.StartYearHolidays | app/modules/leaves/service.py:146-151 | loading only the start year's holidays never undercharges, and charges right exactly when every weekday holiday of the period is in the start year |
| WorkingDays.NewYearIsCharged | app/modules/leaves/service.py:146-151 | a two-day period over the new year whose second day is a holiday is charged two days |
| Repository.FindAllocation | app/modules/leaves/repository.py:52-71 | finds no row exactly when no row has the key, one row only when it is the only one, several only when two rows share the key |
| Repository.FindPolicy | app/modules/leaves/repository.py:181-194 | the same for active policies of a leave type and designation (or none) |
| Repository.OverlapClauseIsIntersection | app/modules/leaves/repository.py:85-90 | the three-way overlap predicate holds exactly when some date lies in both periods |
| LedgerRuns.ReachableInv | app/modules/leaves/service.py:74-638 | every state of every run from tables with no requests or allocations yet has the whole invariant: references, unique keys, conservation, no double booking, request states, approval rows, unique policies, audit ledger, accrual order |
| LedgerRuns.StepKeepsInv | app/modules/leaves/service.py:74-638 | each operation, succeeding or rolled back, keeps that invariant from any state that has it |
| LedgerRuns.LookupsAreUnambiguous | app/modules/leaves/repository.py:71-194 | in every reachable state the one-row lookups never find two rows |
| LedgerRuns.UsedDaysAreConserved | app/modules/leaves/service.py:206-213 | in every reachable state `used_days` is the sum of the approved requests of its user, paid leave type and start year, and zero for unpaid leave |
| LedgerRuns.RestoringNeverClamps | app/modules/leaves/service.py:383-392 | a stored request always has its allocation, and restoring the days of an approved one never meets the floor of zero |
| LedgerRuns.NoDateIsBookedTwice | app/modules/leaves/service.py:132-144 | in every reachable state no date lies in two pending or approved requests of one user |
| LedgerRuns.PolicyTakesEffect | app/modules/leaves/service.py:457-491 | the policy configured is the one found afterwards for its leave type and designation (none, if configured inactive), it is logged with its frequency and rate, and every other lookup is unchanged |
| LedgerRuns.UserTakesEffect | app/modules/users/service.py:94-245 | editing a user changes that user and nothing else |
| Admission.AdmissionRule | app/modules/leaves/service.py:110-203 | a request is filed exactly when its period is well-formed, shares no date with a live request of the user, holds a date to charge and, when paid, fits the allocated days less the approved ones; its days are the weekdays of the period outside the start year's holidays, half a day less for a half-day form; it is approved at once exactly when its leave type needs no approval or its threshold covers those dates; and otherwise the error says which check failed |
| Admission.TargetBalanceFound | app/modules/leaves/service.py:162-166 | the balance lookup of an application never misses and reads the row of its own leave type and year |
| Admission.ApplyLeavesNoDebt | app/modules/leaves/service.py:168-213 | applying leaves every balance it does not charge unchanged and never leaves the one it charges below zero |
| Admission.HolidayTakesEffect | app/modules/leaves/service.py:410-440 | a holiday can be added exactly on a free date, and later applications are charged for exactly that one date less, when it is a weekday of their period in their start year |
| Lifecycle.EveryHistoryIsLegal | app/modules/leaves/service.py:182-394 | over every run a request is filed pending or approved, decided at most once and only while pending, and never leaves CANCELLED: nine possible histories, at most two changes |
| Lifecycle.ApprovalRowsMatchDecisions | app/modules/leaves/service.py:314-322 | the approval rows of a request number the decisions of the run on it that took effect: one when a manager decided it, none when it is pending or was approved automatically |
| Lifecycle.StartedLeaveIsPermanent | app/modules/leaves/service.py:371-394 | approved paid leave whose start has arrived stays approved in every later state, as long as the clock does not run back |
| Lifecycle.UsedDaysCoverStarted | app/modules/leaves/service.py:371-394 | so `used_days` never falls below the approved days already started |
| Lifecycle.CancelUndoesApproval | app/modules/leaves/service.py:298-394 | approving a pending request and cancelling it before it starts leaves every allocation exactly as it was |
| AuditLedger.AuditAccountsForEveryChange | app/modules/leaves/service.py:516-636 | over any run the log only grows, and the new entries about an allocation chain exactly from its old allocated days to its new ones |
| AuditLedger.AllocationsAreAccounted | app/modules/leaves/service.py:81-92 | from empty tables on, the log about an allocation chains from the days its creator opened it with (the default quota for a look-up or an application, zero for a grant or an accrual) to its allocated days |
| LogHistories.LogTellsHistories | app/modules/leaves/service.py:216-404 | in every reachable state the log read back is the history of each request, every filing, decision and cancellation once and in order, and its entries name the owner, the days and the approver |
| AllocationViews.StepView | app/modules/leaves/service.py:74-638 | what every operation, succeeding or rolled back, does to the allocation of every user, leave type and year, in terms of the state before it; of an accrual run, only the first due turn counts |
| AllocationViews.GrantAddsDays | app/modules/leaves/service.py:500-518 | a grant adds exactly its days to its own allocation, opening it if need be, and touches no other |
| Debts.DebtRule | app/modules/leaves/service.py:298-312 | a step takes a balance below zero exactly when it approves more days than remain, accrues to a quota below the days used, or opens the allocation with a negative default quota |
| Debts.RunDebtRule | app/modules/leaves/service.py:74-638 | a whole run keeps a balance at or above zero throughout exactly when none of its events does so |
| Debts.TwoApprovalsOverdraw | app/modules/leaves/service.py:257-312 | two pending paid requests on one allocation, both approved, overdraw it exactly when together they exceed what remains |
| Debts.ColumnChecks | app/modules/leaves/service.py:605-615 | no step makes used or compensatory days negative, and one makes the allocated days negative exactly when it opens with a negative default quota or accrues to a negative one |
| DebtWitnesses.DebtByApproval | app/modules/leaves/service.py:298-312 | from empty tables, for any leave type with a default below two days and any two working dates of a year, two approvals end below zero |
| DebtWitnesses.DebtByAccrual | app/modules/leaves/service.py:605-615 | from empty tables, two days taken at once and an accrual capped below two days end below zero |
| DebtWitnesses.DebtByDefault | app/modules/leaves/service.py:83-92 | from empty tables, viewing balances opens an allocation below zero when the default quota is |
| DebtWitnesses.NegativeByAccrual | app/modules/leaves/service.py:575-615 | from empty tables, one accrual under a negative quota opens an allocation with negative allocated days |
| AccrualRuns.AccrualsAreBounded | app/modules/leaves/service.py:557-615 | under every interleaving one allocation accrues at most 12 times, each in a later month of its own year, the last being its accrual date; at most 4, 2 or 1 times when its accruals are quarterly, half-yearly or yearly |
| AccrualRuns.RunReaches | app/modules/leaves/service.py:557-615 | a run leaves an allocation alone unless a listed, non-manual policy of its leave type is for everyone or for its user's designation; one that is reached is opened if missing, and gains the rate of one of those policies, up to its quota, exactly when one of them was last served in an earlier period |
| AccrualRuns.RunOpensExactly | app/modules/leaves/service.py:561-583 | a missing allocation is there after a run exactly when such a policy reaches it |
| AccrualRuns.OtherDesignationsAreUntouched | app/modules/leaves/service.py:561-566 | policies for other designations leave a user's allocations alone |
| AccrualRuns.RunIsIdempotent | app/modules/leaves/service.py:557-638 | after the accruals of a date, and whatever events follow except edits of users and policies, running them again with rows in any order changes no allocation and no audit entry |
| AccrualRuns.OneAccrualPerAllocation | app/modules/leaves/service.py:560-615 | within one run an allocation accrues at most once, also when a designation policy and the global one both match |
| AccrualRuns.RunAppendsAccruals | app/modules/leaves/service.py:617-636 | a run appends accrual entries of its own date and nothing else to the log |
| AccrualTheorems.RunCounts | app/modules/leaves/service.py:554-638 | when no user and leave type is matched by two policies, the count a run returns is the number of user and policy pairs due when it started |
| AccrualTheorems.RunIsOrderIndependent | app/modules/leaves/service.py:557-638 | when no user and leave type is matched by two policies, every order of users and policies gives the same allocations, count and other tables |
| AccrualTheorems.AccrueAllClosedForm | app/modules/leaves/service.py:586-615 | for one allocation and policy, any dates of one year give the opening balance plus a rate per strict left-to-right maximum of the period index, capped once |
| AccrualTheorems.AccrualClosedForm | app/modules/leaves/service.py:545-638 | the same in the system: for any run in which one policy accrues a leave type for a user, by runs or single turns, in any order of dates and rows and between any operations that neither grant those days nor edit users or policies, counted from the days before or from those the allocation was opened with |
| LeaveServices.LeaveService.GetUserBalances | app/modules/leaves/service.py:74-108 | opens the missing allocations and reports, for each leave type, the allocated days less the approved ones |
| LeaveServices.LeaveService.ApplyLeave | app/modules/leaves/service.py:110-235 | files the request exactly when the application is admissible, and otherwise restores every table and answers which check failed |
| LeaveServices.LeaveService.UpdateLeaveStatus | app/modules/leaves/service.py:257-339 | decides exactly a pending request, with APPROVED or REJECTED, or restores every table |
| LeaveServices.LeaveService.CancelLeave | app/modules/leaves/service.py:341-404 | cancels exactly for the owner of a request that is neither cancelled nor approved paid leave already started, or restores every table |
| LeaveServices.LeaveService.AddHoliday | app/modules/leaves/service.py:410-440 | adds the holiday unless its date is taken |
| LeaveServices.LeaveService.CreateOrUpdateAccrualPolicy | app/modules/leaves/service.py:444-494 | updates the active policy of the pair or adds one |
| LeaveServices.LeaveService.GrantManualAllocation | app/modules/leaves/service.py:500-543 | grants the days and returns what remained plus the days granted; fails exactly on a non-positive grant or a missing user or leave type |
| LeaveServices.LeaveService.TriggerPeriodicAccruals | app/modules/leaves/service.py:545-638 | the nested loops perform the run over any order of the active users and policies, never fail, and return the number of entries appended |
| Scheduler.Worker.Iterate | app/core/scheduler.py:22-67 | one pass runs a date exactly when the worker has not marked it and its lock is free; the date is marked unless the run raised, also when the lock was taken |
| Scheduler.Worker.RunLoop | app/core/scheduler.py:22-67 | the loop of a lone worker performs its passes in order |
| Scheduler.LoopIsAWorld | app/core/scheduler.py:22-67 | that loop is a run of the system of workers in which only it moves |
| Scheduler.RunsAreSpaced | app/core/scheduler.py:31-36 | under any interleaving, restarts and failures, a date is locked for exactly 82800 s after its last run, so two runs of it are at least that far apart, a failed one included |
| Scheduler.PassRule | app/core/scheduler.py:29-67 | after any moves, a pass runs its date exactly when 82800 s have gone by since the last run of the date and the worker is not done with it: since its start, its last pass that did not end in a failed run was of another date |
| Scheduler.RepeatRule | app/core/scheduler.py:29-59 | a pass runs a date again exactly when its worker is not done with the date and 82800 s have gone by since the last run of that date |
| Scheduler.EachDateRunsOnce | app/core/scheduler.py:34 | in a whole run of the system each date runs at most once exactly when no pass does so |
| Scheduler.PromptWorkersRunTwice | app/core/scheduler.py:34 | two workers that never stall run one date twice, 82800 s apart |
| Scheduler.AtMostTwoRunsPerDate | app/core/scheduler.py:31-38 | at most two runs serve one UTC date when no worker stalls longer than 79200 s between clock and lock |
| Scheduler.ThreeRunsNeedAStall | app/core/scheduler.py:24-36 | one second more and three runs of a date happen |
| Idempotency.IdempotencyService.GetCachedResponse | app/core/services/idempotency_service.py:31-66 | answers a live entry with a conflict or its response, and misses otherwise |
| Idempotency.IdempotencyService.LockKey | app/core/services/idempotency_service.py:68-86 | marks the key in flight exactly when no entry is live; grants without Redis or key |
| Idempotency.IdempotencyService.SaveResponse | app/core/services/idempotency_service.py:88-113 | overwrites the entry with the response and its own time to live |
| Idempotency.IdempotencyService.CheckIdempotency | app/core/services/idempotency_service.py:119-142 | a live response at the look-up is replayed, the key is locked when no entry is live at the look-up or at the lock, and anything else conflicts |
| Idempotency.ExecutionsAreExclusive | app/core/services/idempotency_service.py:31-113 | under every interleaving of on-time clients at most one executes, none while a response is live, each lock waits for what came before it to run out, and every replay returns the last response saved |
| Idempotency.LookRule | app/core/services/idempotency_service.py:31-66 | in every run a client that looks up is replayed the last saved response for 24 h, refused for 300 s after the last lock, and goes on otherwise |
| Idempotency.LockGrantRule | app/core/services/idempotency_service.py:68-86 | a client that goes on gets the lock exactly when the last lock or save has run out by then |
| Idempotency.SaveRule | app/core/services/idempotency_service.py:88-113 | an execution that finishes leaves its response as the last save, for later look-ups to replay |
| Idempotency.FailureRule | app/core/services/idempotency_service.py:68-113 | a failed execution stores nothing and keeps its lock: its own client, trying again, is refused for the rest of the 300 s |
| Idempotency.RedisKeysCollide | app/core/services/idempotency_service.py:39 | two paths and keys share an entry exactly when they are the same, or one path is the other followed by a colon and the start of the other's key |
| Idempotency.LockRule | app/core/services/idempotency_service.py:68-86 | beside an execution, another client's lock succeeds exactly from 300 s after its start |
| Idempotency.ExclusiveExactly | app/core/services/idempotency_service.py:68-86 | in a whole run at most one client executes at every moment exactly when no lock is asked for beside an execution that has outlived its own |
| Idempotency.LateExecutionsOverlap | app/core/services/idempotency_service.py:15-18 | an execution that outlives its lock lets a second one start |
| Auth.AuthService.AuthenticateUser | app/modules/auth/service.py:28-62 | succeeds exactly on an existing, active account with a verified password and then adds one token of that account for seven days; changes nothing on failure |
| Auth.AuthService.RefreshTokens | app/modules/auth/service.py:64-130 | succeeds exactly on a decoded, stored, unrevoked, unexpired token of an active user; revokes it and issues one to the same user, or rolls the revocation back |
| Auth.AuthService.LogOut | app/modules/auth/service.py:132-149 | revokes the token only if it is unrevoked and the user's own |
| Auth.FamiliesHaveOneLiveToken | app/modules/auth/service.py:64-130 | in every run each login's chain of tokens has one user and at most one unrevoked token, its last |
| Auth.TokensAreSingleUse | app/modules/auth/service.py:76-104 | in every run a token is redeemed at most once and is revoked ever after |
| Auth.RefreshRule | app/modules/auth/service.py:64-130 | after any run a refresh succeeds exactly when its token was issued at most seven days ago, was neither redeemed nor logged out by its user since, and its user is active now |
| Auth.TokensDescendFromLogins | app/modules/auth/service.py:28-130 | every token of a run descends from a login of its own user, with a verified password, who existed and was active then |
| Auth.LiveTokensAreSessions | app/modules/auth/service.py:28-149 | a user's unrevoked tokens number the successful logins less the effective logouts |

## Left out

- GrantAddsDays: on a row loaded from the database the source adds a float to a Decimal when it builds the answer (app/modules/leaves/service.py:540-542), which raises and rolls the grant back; the model has exact numbers and grants the days.
- GrantManualAllocation: the same.
- A signed-in user is taken to exist: the checks for a missing user in viewing balances and applying stand for the dependency that loads the user.
- Routers, schemas, dependency injection, error texts and response formatting: plumbing; the value checks of the grant and policy payloads are kept as failures.
- Free text (reasons, comments, names, descriptions) and creation times: carried through unread.
- Users and organisation data: a user is its designation and activity, edited by one event; designation ids are not checked against a table.
- `Numeric(5,2)` overflow and float rounding: exact integers stand for both.
- Concurrent transactions on apply, approve, cancel, grant and refresh: the code takes no lock there, so operations are atomic events; accrual turns interleave freely, except that two turns never create one missing row at once.
- Redis faults, the fail-open paths beyond the class methods, and JSON encoding of stored responses: the protocol theorems assume Redis is up and a response is read as it was written.
- Signing and decoding of tokens, password hashing: a token string is identified with its row, and decoding is a parameter.
- The route cache: it is invalidated before commit, so no agreement with the tables is claimed.
- Listing, searching, pagination, roles, seeding and migrations: no rules beyond selection.
- Second-tier approval, carry-forward, earned compensatory days and loss of pay: described in documents, not implemented.
