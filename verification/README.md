# Payrolla in Dafny

A model of the self-contained algorithms and protocols of Payrolla, a Flask payroll
application, with proofs of what they promise. `dafny verify dfyconfig.toml` checks all of
it. Each file is one module:

- `Money`, `Paye`, `PayeLaws`, `BandEditor`, `Bonus`, `Overtime`: pesewa rounding, the PAYE
  bands built from typed rows, the tax they charge against the true marginal-slice tax, the
  band editor's round trip, the yearly bonus concession and the overtime tax.
- `Throttle`, `ThrottleLaws`, `AccessLimiter`: the login limiter with the route that drives it,
  and the hourly limiter of access requests, as machines over runs of any length.
- `Idempotency`, `Invites`: two protocols of any number of clients, each as the statements it
  sends to the database, interleaved in any order.
- `Schema`, `Purge`, `PurgeLaws`, `ReplaceRuns`: the foreign-key graph as one map from rows to
  what they refer to, the ordered deletes over it, and replacing a period's runs.
- `Sorting`, `AuditPaging`: stable sorting, and the audit page and timelines cut from two
  queries fetched to a depth.
- `Text`, `TextWords`, `HeaderImport`, `HeaderLaws`, `LabelLaws`: stacked headers to column names
  to fields to rows.
- `StorageKeys`, `Receipts`: receipt rows in a transactional table beside objects in a store
  that is not transactional.
- `RiskGate`, `RiskLaws`: the gate's sentences, read back, and the staleness mark.
- `Licence`, `LicenceLaws`: the text a licence signature covers, minted identifiers and
  base64url.
- `Outcomes`: Option and Result.

Where the source changes things step by step the model does too: a class with the same fields,
or a method with the same loop, proved against a specification function that the lemmas are
about. Inputs the code takes from elsewhere are parameters: clocks, query results, row ids,
fresh password hashes and storage identifiers, the alias table of the import, number formats,
and which step of a request fails.

## What the proofs found

Some documented promises need a condition. The model keeps the code as it is; the condition is
proved exact, or a concrete input shows the failure.

- PAYE can fall by a pesewa as income rises, because a band's base is rounded when stored
  (`BandEditor.PesewaDropExample`); `PayeLaws.MonotoneIffNoDrop` says exactly when it cannot.
- The one-pesewa accuracy of PAYE is about percents of at most four decimals. Longer percents
  are stored to six places of the rate, and then the error is unbounded unless the top rate is
  exact (`PayeLaws.ErrorBoundedIffTopRateExact`, `BandEditor.TinyRateExample`).
- The first complaint about a refused band list does not depend on the row order exactly if all
  its invalid rows have one complaint (`BandEditor.ComplaintIgnoresOrderIff`).
- Imported bonuses may be negative (app/payroll.py:932-933). The concession is min(total, cap) to
  half a pesewa throughout the year exactly if nothing is clawed back once the total has passed
  the cap (`Bonus.AlwaysOnCapIffNoLateClawback`); a later clawback gives concession back although
  the total still exceeds the cap (`Bonus.ClawbackExample`).
- `retry_after` is documented as the wait until the soonest of the keys unlocks. The code
  returns the longest wait, which is the soonest exactly if all locked keys unlock together
  (`ThrottleLaws.WaitIsSoonestIff`, `ThrottleLaws.WaitIsNotSoonest`).
- With an hourly limit of zero, refusals themselves fill the access-request table without bound
  (`AccessLimiter.BoundedIffLimitPositive`).
- A process that dies between claiming an idempotency key and storing its result leaves the key
  answering "in progress" for ever (`Idempotency.AbandonedForever`); every other key can still
  be answered (`Idempotency.CanAnswerIffNotAbandoned`).
- A resend that read "pending" before an invite was accepted overwrites the chosen password
  when it commits; an accept is final exactly when no resend is in flight
  (`Invites.AcceptIsFinalIffNoResend`, `Invites.OverwriteIsReachable`).
- Emptying a tenant leaves dangling foreign keys exactly when a tax-relief approval, expense
  receipt, access request or licence names something that goes, or the data is not
  tenant-coherent (`PurgeLaws.IntegrityIffSafe`, `PurgeLaws.CoherentIsSafe`,
  `PurgeLaws.ReceiptLeftDangling`).
- Hard-deleting a run does not delete its distribution batches, whose foreign key is not
  nullable; the foreign keys stay valid exactly when there is none (`ReplaceRuns.PurgedIntegrity`,
  `ReplaceRuns.BatchLeftDangling`).
- The audit page is exact only if the rows it needs were fetched, which same-date expenses
  recorded on different days break (`AuditPaging.PageExactIff`, `AuditPaging.PageOneMisses`).
- Header conflicts are refused except in one family: a label that occurs twice, names a field
  as it is written, and occurs once more with "(2)" after it (`HeaderLaws.OneColumnIff`).
  Excluding every header that ends in a parenthesised number is enough but not needed.
- `attach_receipt` says a failed commit orphans the object rather than leaving a row without
  one. That holds under every failure exactly for a first upload; replacing or removing a receipt
  deletes the old object before the commit (`Receipts.SafeWhateverFailsIffFirst`,
  `Receipts.AlwaysSoundIff`).
- A recorded reason whose rule no longer trips is not marked stale when the new baseline's
  total is zero (`RiskLaws.StaleIff`, `RiskLaws.ZeroBaselineGoesUnmarked`).

## Model

| member | source | states |
|---|---|---|
| Money.RoundHalfUpLaws | app/money.py:28-37 | rounding to the pesewa moves an amount by at most half a pesewa, is monotone, commutes with adding a pesewa and fixes whole pesewas |
| Money.Ties | app/statutory.py:70-76 | half way between two integers the one rounding goes away from zero and Python's own to the even one |
| Paye.BandsFromRows | app/statutory.py:47-76 | the loops accept or refuse a row list, with the first complaint, exactly as the specification ParseBands says |
| Paye.CleanRows | app/statutory.py:57-65 | the first invalid row decides the complaint; otherwise every row is cleaned |
| Paye.AcceptedIff | app/statutory.py:47-69 | a list is accepted exactly if it has rows, all thresholds finite from 0 up and percents from 0 to 100, no two thresholds equal |
| Paye.RefusalMeans | app/statutory.py:47-69 | a refusal is for the first row that is wrong and says what is wrong with it, or for no rows, or for two equal thresholds when no row is wrong |
| Paye.AccumulateBands | app/statutory.py:70-76 | one pass stores, for every slice, its threshold, its rate and the rounded cumulative base |
| PayeLaws.PayeUsesBand | app/models.py:970-983 | compute_paye charges by the highest band at or below the income, and nothing below the lowest |
| PayeLaws.BaseIsMarginal | app/statutory.py:70-76 | the unrounded base plus the band's own slice is the true marginal-slice tax |
| PayeLaws.PayeErrorBound | app/statutory.py:47-76 | for every accepted row list and income the error is at most one pesewa plus the rate rounding on one slice, whatever the number of bands |
| PayeLaws.PayeAccurate | app/models.py:970-983 | with percents of at most four decimals PAYE is within one pesewa of the true tax at every income |
| PayeLaws.ErrorBoundedIffTopRateExact | app/statutory.py:70-76 | for arbitrary percents the error over all incomes is bounded exactly when the top rate survives rounding to six places |
| PayeLaws.PayeAlmostMonotone | app/models.py:970-983 | more income never lowers PAYE by more than a pesewa; PAYE lies between 0 and the income plus a pesewa |
| PayeLaws.PayeMonotoneOnExactBases | app/models.py:970-983 | PAYE is monotone when every base is a whole number of pesewas |
| PayeLaws.MonotoneIffNoDrop | app/models.py:970-983 | PAYE is monotone exactly when no stored base is below the highest tax charged in the band under it |
| BandEditor.PesewaDropExample | app/models.py:970-983 | three 1% bands on which PAYE falls from 2 pesewas to 1 as income rises from 1.48 to 1.49 |
| BandEditor.TinyRateExample | app/statutory.py:70-76 | one accepted row, at 0.00001 percent, on which no bound on the error of PAYE holds |
| BandEditor.BandsIgnoreOrder | app/statutory.py:47-76 | any permutation of accepted rows gives the same bands |
| BandEditor.ComplaintIgnoresOrderIff | app/statutory.py:57-69 | a refused list is refused for the same reason in every order exactly if all its invalid rows have one complaint |
| BandEditor.ComplaintDependsOnOrder | app/statutory.py:57-65 | two orders of the same two rows get different complaints |
| BandEditor.BandsDescend | app/statutory.py:70-76 | one band per row, thresholds strictly descending |
| BandEditor.BandKept | app/statutory.py:70-76 | every typed row has its band: its threshold, and its rate to six places |
| BandEditor.ShownRows | app/statutory.py:93-98 | the editor shows the bands lowest first, each percent to four decimals and at most half of the last one off |
| BandEditor.RedisplayRoundTrip | app/statutory.py:93-98 | with percents of at most four decimals re-submitting what the editor shows gives back the same bands |
| BandEditor.RedisplayStabilises | app/statutory.py:93-98 | for any accepted rows thresholds and rates survive re-submission, and after one round nothing changes |
| Bonus.YearOnTrack | app/payroll_calculations/__init__.py:51-101 | in a year without late clawbacks the concession used stays on track with the total paid so far, whatever the signs of the bonuses |
| Bonus.AlwaysOnCapIffNoLateClawback | app/models.py:1005-1026 | for bonuses of any sign the concession used is min(total, cap) to half a pesewa throughout the year exactly if nothing is clawed back once the total has passed the cap by half a pesewa |
| Bonus.ConcessionIsCapped | app/models.py:1005-1026 | however the bonuses and clawbacks of a year are split over runs, none of them late, the concession is within half a pesewa of min(total, cap) |
| Bonus.SplitDoesNotMatter | app/models.py:1005-1026 | two such ways of splitting one total grant concessions at most a pesewa apart |
| Bonus.ClawbackExample | app/models.py:1005-1026 | a late clawback gives concession back although the total still exceeds the cap |
| Bonus.BonusIsSplit | app/models.py:1005-1026 | a bonus is taxed at the rate as far as the cap has room and the rest is excess, both in whole pesewas and at most half a pesewa off |
| Bonus.TaxIsRateOfConcession | app/models.py:1005-1026 | over any year the concessionary tax is the rate on the concession granted, to half a pesewa on each tax and each concession, and no clawback refunds tax |
| Overtime.OvertimeMonotone | app/models.py:985-1003 | overtime tax never falls as overtime rises, is within half a pesewa of the exact two-rate sum, and is zero without overtime |
| Overtime.CediByCedi | app/models.py:985-1003 | before rounding each cedi up to the cap is taxed at the low rate and each one above it at the high rate |
| Overtime.PartsWithinPesewa | app/models.py:985-1003 | rounding the two taxed portions of a payment apart instead of their sum differs by at most a pesewa |
| Overtime.PartsDiffer | app/models.py:985-1003 | and does differ: 0.15 over a cap of 0.10 is taxed one pesewa, and two portion by portion |
| Throttle.RetryAfter | app/login_throttle.py:98-114 | a positive wait ends exactly when one of the keys unlocks, no locked key unlocks later, and the wait is positive exactly when some key is locked |
| Throttle.Limiter.Check | app/login_throttle.py:98-114 | the loop computes the longest wait of the keys |
| Throttle.Limiter.Prune | app/login_throttle.py:75-87 | an entry is kept exactly while it is locked or its first failure is less than a window old |
| Throttle.Limiter.RegisterFailure | app/login_throttle.py:117-141 | the new table and the answer: prune when full, then count on each key, locking at the limit |
| Throttle.FailureCountsOnce | app/login_throttle.py:117-141 | a failure adds one to each key's count, starting from none where the window or the lock is over, and locks it at the limit; others are kept, and in a full table only while locked or in their window |
| Throttle.Limiter.Clear | app/login_throttle.py:144-149 | a success forgets the keys and nothing else |
| Throttle.Limiter.Login | app/auth.py:192-241 | blocked exactly if the address or the account has a lock outlasting the check, else logged in exactly if the credentials are right; blocked changes nothing, logging in forgets the account and nothing else, a refusal counts once on both |
| Throttle.AnswerMeans | app/auth.py:192-218 | which of the three answers an attempt gets, by the two locks and the credentials |
| Throttle.AttemptMeans | app/auth.py:192-221 | the table each of the three answers leaves behind |
| ThrottleLaws.RunKeepsSane | app/login_throttle.py:117-141 | entries stay well formed in every run of the route |
| ThrottleLaws.CountLandsUnlocked | app/auth.py:176-221 | no failure is counted on a locked key |
| ThrottleLaws.LockRunsItsCourse | app/login_throttle.py:98-141 | no lock is extended or lifted before its announced end, and nothing is counted on it |
| ThrottleLaws.FailuresAreRationed | app/login_throttle.py:98-141 | a key never cleared counts at most limit * (floor(T / min(window, lockout)) + 2) failures in any stretch of length T of any run |
| ThrottleLaws.LimitFailuresLock | app/login_throttle.py:117-141 | failures that fill up the key's present window, or the one they start where it has aged out, lock it for exactly the lockout from the last |
| ThrottleLaws.RefusalAnnouncesLock | app/auth.py:176-221 | the answer to a refused attempt says locked exactly when one of its keys is locked afterwards |
| ThrottleLaws.WaitIsSoonestIff | app/login_throttle.py:98-114 | the wait announced is the soonest unlock exactly if all locked keys unlock together |
| ThrottleLaws.WaitIsNotSoonest | app/login_throttle.py:98-114 | and is not where the address unlocks in ten ticks and the account in twenty |
| ThrottleLaws.PruningIsInvisible | app/login_throttle.py:75-87 | with prunes inserted anywhere, and any table bound, every caller hears what an unpruned limiter would say |
| AccessLimiter.Cap.Allow | app/access_requests.py:57-74 | accepted exactly if fewer than the limit of the address's stamps are less than 3600 seconds old and the table has it, has room, or has room once addresses silent for an hour are dropped; and what the table holds afterwards |
| AccessLimiter.Cap.Sweep | app/access_requests.py:65-69 | exactly the addresses with no stamp less than 3600 seconds old are dropped |
| AccessLimiter.AllowVersusIdeal | app/access_requests.py:57-74 | one call answers as an unbounded log that counts acceptances less than 3600 seconds old, except for a new address against 5000 live ones |
| AccessLimiter.AnswersAreIdeal | app/access_requests.py:57-74 | whole runs answer as that log while fewer than 5000 addresses are live |
| AccessLimiter.EachAnswer | app/access_requests.py:57-74 | any call of any run is refused if the limit of its address's acceptances before it are less than an hour old, and accepted if fewer are and fewer than 5000 addresses are live |
| AccessLimiter.AcceptancesAreRationed | app/access_requests.py:57-74 | in every run at most limit submissions per address are accepted in any hour |
| AccessLimiter.RunBounded | app/access_requests.py:57-74 | with a limit of at least one the table never exceeds 5000 addresses |
| AccessLimiter.FloodGrows | app/access_requests.py:57-74 | with a limit of zero distinct addresses grow the table one by one |
| AccessLimiter.BoundedIffLimitPositive | app/access_requests.py:57-74 | the table is bounded in every run exactly when the limit is at least one |
| Idempotency.AlwaysInv | app/distribution/idempotency.py:14-48 | the protocol invariant holds under every interleaving |
| Idempotency.NeverTwiceAtOnce | app/distribution/idempotency.py:14-48 | run_fn never runs twice at once for one key |
| Idempotency.StoredAtMostOnce | app/distribution/idempotency.py:14-48 | a key gets at most one stored result, and no run starts after it |
| Idempotency.AnswersAreTheStoredSummary | app/distribution/idempotency.py:19-48 | every answer with a summary carries the stored one |
| Idempotency.StoreFindsItsClaim | app/distribution/idempotency.py:45-48 | the final store always finds the claim it made |
| Idempotency.FailureFreesTheKey | app/distribution/idempotency.py:35-43 | after a failed run the next claim, by anyone, starts run_fn |
| Idempotency.CrashAbandons | app/distribution/idempotency.py:22-48 | a process that dies between claiming and storing leaves an abandoned key |
| Idempotency.AbandonedForever | app/distribution/idempotency.py:22-32 | an abandoned key never runs again and always answers in progress |
| Idempotency.CanAnswerIffNotAbandoned | app/distribution/idempotency.py:14-48 | in every reachable state a key can still be answered with a summary exactly while it is not abandoned |
| Idempotency.AbandonedIsReachable | app/distribution/idempotency.py:22-32 | a claim and a crash from the start reach an abandoned key |
| Idempotency.Service.ReplayOrRun | app/distribution/idempotency.py:14-48 | the answer and the new rows of an uninterrupted request, for every outcome |
| Idempotency.RequestIsSteps | app/distribution/idempotency.py:14-48 | an uninterrupted request is one client's steps of the machine, with the same rows and the same answer |
| Invites.UserTable.LoadFromToken | app/invites.py:49-60 | a link never opens more than 72 hours after it was made, one made from the present hash opens exactly until then, and one that opens carries the last sixteen characters of the user's present hash |
| Invites.ExpiredIsRefused | app/invites.py:52-55 | opening a link past its age loads no form and changes nothing |
| Invites.ExpiredIsNeverAccepted | app/invites.py:163-191 | in every run a link only ever opened past its age sets no password |
| Invites.UserTable.Claim | app/invites.py:176-187 | the conditional update changes one row or none, and reports which |
| Invites.RotationCancelsLinks | app/invites.py:69-75 | after a resend commits its hash only the new link opens, a form loaded against the old hash submits nothing, and nobody else and no activation time changes |
| Invites.AlwaysInv | app/invites.py:69-191 | current and pending hashes stay distinct and unretired under every interleaving |
| Invites.TokenAcceptedOnce | app/invites.py:176-191 | under every interleaving each token sets a password at most once |
| Invites.CommitKillsEarlierTokens | app/invites.py:44-60 | committing an accept or a resend kills every token naming the hash it replaces |
| Invites.DeadForever | app/invites.py:44-60 | a token naming neither the present hash nor a pending one never opens or sets a password again |
| Invites.CanOpenIffNamed | app/invites.py:44-75 | a token has a future exactly while it names the present hash or that of a resend in flight |
| Invites.ResendOverwrites | app/invites.py:141-151 | a resend in flight can overwrite whatever password is there |
| Invites.AcceptIsFinalIffNoResend | app/invites.py:141-191 | an accepted password survives every continuation exactly when no resend for the user is in flight |
| Invites.OverwriteIsReachable | app/invites.py:141-191 | a reachable state in which an accept has gone through and a resend begun before it overwrites the chosen password |
| Invites.SideConditionsHold | app/invites.py:44-75 | loaded forms hold issued tokens and tokens name generated hashes in every reachable state |
| Purge.Database.ReleaseUserReferences | app/demo_data.py:136-168 | the loop re-points or clears the fifteen columns and deletes the users' notices |
| Purge.Database.PurgeClientCompany | app/demo_data.py:171-265 | the twenty statements leave exactly the state read off the database before them, and so does each prefix; the company's own row goes exactly if it is to be dropped |
| Purge.Database.PurgeObsoletePlatformUsers | app/demo_data.py:268-288 | users of no company off the roster are removed, never the replacement; those left are on the roster or the replacement, and the database is the released one without them |
| Purge.PlanAdvances | app/demo_data.py:125-133 | each bulk delete takes the database from one stage to the next, cascaded links included |
| Purge.ReleaseAdvances | app/demo_data.py:258-261 | the release of the users is the eighteenth stage |
| PurgeLaws.ChildFirst | app/demo_data.py:186-256 | every table is deleted before the tables its deleting columns name |
| PurgeLaws.StageIntegrity | app/demo_data.py:171-265 | on a safe database every foreign key is valid after each statement |
| PurgeLaws.ReleasingKeepsIntegrity | app/demo_data.py:149-168 | and after each column update within the release |
| PurgeLaws.HeirStays | app/demo_data.py:136-168 | the replacement user is there at every stage |
| PurgeLaws.IntegrityIffSafe | app/demo_data.py:171-265 | the purge keeps every foreign key valid exactly on safe databases |
| PurgeLaws.CoherentIsSafe | app/demo_data.py:171-265 | on tenant-coherent data safe means that no relief approval, expense receipt, access request or licence names anything that goes |
| PurgeLaws.ReceiptLeftDangling | app/demo_data.py:171-265 | a database with valid foreign keys whose one expense receipt is left pointing at a deleted expense |
| PurgeLaws.NobodyNamesTheCompany | app/demo_data.py:171-265 | after a safe purge that drops the company row no foreign key names it |
| PurgeLaws.WhoStillNamesTheCompany | app/demo_data.py:171-265 | after a purge that keeps the company row only receipts and access requests can name it |
| PurgeLaws.DoomedBelongs | app/demo_data.py:186-256 | in coherent data only rows of the tenant are deleted |
| PurgeLaws.OtherTenantsKept | app/demo_data.py:171-265 | rows of other tenants survive, payslip links included; a column that named a user who left names the replacement or nobody, and all others are unchanged |
| PurgeLaws.ReleaseIntegrity | app/demo_data.py:268-288 | removing platform users keeps the foreign keys valid exactly if no receipt, access request or licence names them |
| ReplaceRuns.Books.PurgePayrollRun | app/payroll.py:2014-2045 | the deletes in sequence remove exactly the run, its children and cascaded links |
| ReplaceRuns.BlockedIff | app/payroll.py:1967-2011 | a run may be deleted exactly if it is Draft, Previewed or Rejected, no voucher, remittance or expense names it, and none of its deliveries was sent |
| ReplaceRuns.ReasonsAreTrue | app/payroll.py:1967-2011 | each reason given holds with the number it states, and each that holds is given |
| ReplaceRuns.PurgedExactly | app/payroll.py:2014-2045 | a purge takes the runs, the rows of five tables naming them and the links to an item or delivery that goes, and leaves every other row as it is |
| ReplaceRuns.Books.HardDelete | app/payroll.py:2048-2059 | purged exactly if the run may be deleted, else refused with its blockers and unchanged |
| ReplaceRuns.Books.ReplaceExistingRuns | app/payroll.py:210-227 | all or nothing: every run purged exactly when each may be deleted, else nothing changed and the first blocked run reported |
| ReplaceRuns.PurgedKeepsBlockers | app/payroll.py:1967-2011 | purging runs changes no blocker of any other run, so the second loop cannot fail |
| ReplaceRuns.PurgedTwice | app/payroll.py:2014-2045 | purging runs one by one is purging them together |
| ReplaceRuns.PurgedIntegrity | app/payroll.py:2014-2045 | foreign keys stay valid exactly if no distribution batch belongs to the runs, deliveries and items agreeing |
| ReplaceRuns.BatchLeftDangling | app/payroll.py:2014-2059 | an unblocked draft run whose one distribution batch is left pointing at nothing |
| AuditPaging.BuildAuditRows | app/audit.py:211-258 | a newest-first permutation of both lists, ties in the order given |
| AuditPaging.NewestMeans | app/audit.py:211-258 | rows of both kinds go by the day they are shown under, latest first, and within a day by the second of the day they were recorded at |
| AuditPaging.AuditTrail | app/audit.py:78-138 | the total and the rows of the page asked for, by kind and module filter |
| AuditPaging.PageExactIff | app/audit.py:87-120 | a page is the page of the full merged list exactly if every row ranked up to its end was fetched |
| AuditPaging.SortedPagesExact | app/audit.py:87-120 | sources in the page's order make every page of every size exact |
| AuditPaging.PagesShowEveryRowOnce | app/paging.py:41-73 | the pages together are the full sorted list, every row once |
| AuditPaging.NextMeansMore | app/paging.py:56-77 | a next page is offered exactly while it has rows, and a previous page offered by a page that exists has rows |
| AuditPaging.FilterSort | app/audit.py:258 | a stable sort commutes with filtering |
| AuditPaging.ActionsInOrder | app/audit.py:103 | actions fetched by creation time are in the page's order |
| AuditPaging.ExpensesInOrderIff | app/audit.py:116-117 | the expense query has the page's order exactly if same-date expenses recorded later were recorded no earlier in the day |
| AuditPaging.SameDayExpensesInOrder | app/audit.py:116-117 | it has it when same-date expenses were recorded on one day |
| AuditPaging.PageOneMisses | app/audit.py:87-120 | fifty-one same-date expenses whose first row is missing from page 1 |
| AuditPaging.TimelineIsTop | app/events.py:216-272 | a timeline is the newest of both sources whatever the limit, with no further guard |
| HeaderImport.BuildCompositeColumns | app/excel_utils.py:331-355 | the counter pass gives a name for every cell of the longest row, its label, suffixed from the second occurrence |
| LabelLaws.RowUnderneath | app/excel_utils.py:342-347 | a row put under a block adds its cell, with white space collapsed, at the end of the column's label; a blank, nan or none cell adds nothing, and the first cell to say something is the label |
| LabelLaws.SilentColumnIsUnnamed | app/excel_utils.py:348-349 | a column no row says anything in is Unnamed with its number |
| TextWords.CollapsedIsWords | app/excel_utils.py:347 | collapsing and stripping white space leaves the words, one space apart |
| HeaderImport.MapColumns | app/excel_utils.py:255-282 | every name is mapped to the field its base label names, or to none |
| LabelLaws.ClaimsIff | app/excel_utils.py:255-282 | a column claims a field exactly if what is left of its name normalises to an alias of the field and not to a derived header |
| HeaderImport.MappingConflicts | app/excel_utils.py:285-309 | the errors are exactly the fields claimed by several names and the mandatory fields claimed by none |
| HeaderImport.ReadRow | app/excel_utils.py:579-600 | what the row reader puts under each field, unique names or not |
| LabelLaws.FirstFilledIsFirst | app/excel_utils.py:572-576 | of the columns of one name the first filled cell is read |
| HeaderLaws.SuffixedEqual | app/excel_utils.py:350-353 | two suffixed labels are equal only with the same label and number |
| HeaderLaws.OneColumnIff | app/excel_utils.py:255-309 | with no conflict reported every field is read from at most one physical column exactly if no label occurs twice, names a field as written, and occurs again with (2) after it |
| HeaderLaws.PlainHeadersAreSafe | app/excel_utils.py:331-355 | headers none of which ends in a parenthesised number are safe |
| HeaderLaws.FigureIsItsCell | app/excel_utils.py:579-600 | for every header block, no conflict and no such headers: each claimed figure is the cell of its one column, and every mandatory field is claimed |
| HeaderLaws.SlipsThrough | app/excel_utils.py:255-309 | six headers, the three mandatory ones among them, with which no conflict is reported and a figure is read from two columns |
| HeaderLaws.NormalizeKeeps | app/excel_utils.py:221-224 | normalising keeps exactly the letters, lower-cased, and the digits |
| LabelLaws.NormalizedWord | app/excel_utils.py:221-224 | a word of letters and digits is only put in lower case |
| LabelLaws.NormalizedApart | app/excel_utils.py:221-224 | any other character only keeps the words on its two sides one space apart |
| LabelLaws.NumberTakenOff | app/excel_utils.py:268-269 | a parenthesised number is taken off the end of a name once, and nothing else is |
| Receipts.Desk.Attach | app/receipts.py:182-227 | the session and the store after an upload that may fail at any step |
| Receipts.Desk.Detach | app/receipts.py:230-249 | the session and the store after a removal, a no-op where nothing is attached |
| Receipts.Desk.Handle | app/client/expenses.py:221-390 | a request from start to commit or rollback is the specified change |
| Receipts.RowsChangeIff | app/receipts.py:182-249 | the committed rows change exactly if nothing fails up to the commit, and a refused upload or a removal of nothing changes nothing |
| Receipts.ObjectsLeft | app/receipts.py:182-249 | which objects a request leaves in storage: the new one as far as it was written, the old one unless it was deleted, all others untouched |
| Receipts.SoundIffNotUndermined | app/receipts.py:182-249 | a request keeps every committed row's object exactly unless it deleted one and was then not committed |
| Receipts.SafeWhateverFailsIffFirst | app/receipts.py:182-249 | a request keeps every committed row's object under every combination of failures exactly if its expense has no receipt yet |
| Receipts.AlwaysSoundIff | app/receipts.py:182-249 | every state along a run keeps every row's object exactly if no request of it deletes an object and is then not committed |
| Receipts.CommittedUploadReadsBack | app/storage.py:137-149 | a committed upload reads back whole and nobody else's receipt changes |
| Receipts.OthersUntouched | app/receipts.py:182-249 | no request changes another expense's receipt or object |
| Receipts.AtMostOneOrphan | app/receipts.py:182-249 | a request leaves at most one object behind, none when nothing fails |
| Receipts.RunKeepsSound | app/receipts.py:182-249 | such a run ends with every object there and at most one leftover per request that failed |
| Receipts.TidyRunLeavesNothing | app/receipts.py:182-249 | where nothing fails storage holds the rows' objects and no others |
| StorageKeys.SafeKeysStayInside | app/storage.py:48-67 | a key matching the pattern is never refused later and resolves inside the root |
| StorageKeys.SafeKeyIff | app/storage.py:48-67 | which keys are accepted, character by character, and which error each other key gets |
| StorageKeys.BuiltKeysAreSafe | app/receipts.py:172-179 | every built key is accepted as it stands and lies in the company's directory |
| StorageKeys.BuiltKeysDiffer | app/receipts.py:172-179 | built keys differ unless company, identifier and extension agree |
| RiskGate.ReasonItems | app/risk.py:432-457 | the loop splits, strips and classifies the stored text |
| RiskGate.CompareToPrevious | app/risk.py:216-247 | one row per metric against the baseline, none without one |
| RiskLaws.TripsIff | app/risk.py:113-183 | the rules trip exactly on a client's first two runs, on a net pay off by more than 15% of the baseline's, and on workers off by more than a fifth of them |
| RiskLaws.HeldIff | app/risk.py:315-329 | a run is held, with a reason on record, exactly if a rule trips, and without a baseline only the first can |
| RiskLaws.SentencesSay | app/risk.py:113-183 | what each tripped rule says, word for word |
| RiskLaws.CompareMeans | app/risk.py:216-247 | a row's change added to the baseline's figure is the run's, its share is of the baseline's magnitude and absent at zero, and it is flagged exactly beyond a fifth for workers and 15% for amounts |
| RiskLaws.MetricDeltas | app/risk.py:193-213 | the five figures compared and their order, taxes being PAYE and SSNIT together |
| RiskLaws.OnePiece | app/risk.py:446-456 | each piece of the stored text that is not blank is one item, stripped and labelled, and nothing else is |
| RiskLaws.PhrasesDecide | app/risk.py:425-429 | each known phrase labels the text around it, whatever else stands there, an earlier rule's phrase going first |
| RiskLaws.ReadBack | app/risk.py:315-329 | readable checks come back from the stored text in order |
| RiskLaws.GateIsReadable | app/risk.py:113-183 | every tripped sentence is read back as its own rule |
| RiskLaws.QueueShowsTheVerdict | app/risk.py:425-457 | for every run and baseline the queue shows exactly the tripped rules in order with their sentences |
| RiskLaws.StaleIff | app/risk.py:506-532 | a verdict is marked stale exactly when a rule on record no longer trips against the present baseline and the baseline's total is not zero |
| RiskLaws.ZeroBaselineGoesUnmarked | app/risk.py:506-532 | a held verdict whose rule no longer trips, unmarked because the new baseline's total is zero |
| RiskLaws.MovedBaselineIsMarked | app/risk.py:506-532 | a verdict marked stale after its baseline moved from 50 to 95 |
| RiskLaws.NotStaleWhileUnchanged | app/risk.py:460-532 | no verdict is stale while run and baseline are unchanged |
| RiskLaws.FlagsAgree | app/risk.py:192-247 | the comparison's net and workers flags are the gate's verdicts |
| Licence.CanonicalFeatures | app/licensing.py:56-69 | the loop computes the canonical feature text or the first error |
| LicenceLaws.BadFeatureIsFirst | app/licensing.py:56-69 | the feature complained of is the first that holds a comma or a bar |
| Licence.SigningPayload | app/licensing.py:82-97 | the joined fields, or the error of the first field that has one |
| LicenceLaws.FieldErrors | app/licensing.py:82-97 | each string field is refused by its name when empty or holding a bar, and otherwise signed stripped |
| LicenceLaws.LastErrors | app/licensing.py:72-97 | the errors of the employee count and of the features |
| LicenceLaws.SignableIff | app/licensing.py:72-97 | exactly which terms can be signed |
| LicenceLaws.PayloadSpelled | app/licensing.py:82-97 | cut at its bars the payload is the product, the version and the eight terms in order |
| LicenceLaws.CanonicalIffSet | app/licensing.py:56-69 | canonical feature texts are equal exactly if the features are equal as sets |
| LicenceLaws.FeaturesAscend | app/licensing.py:56-69 | cut at its commas the canonical text is each feature once, in ascending order of character codes |
| LicenceLaws.PayloadInjective | app/licensing.py:82-97 | payloads are equal exactly if all eight canonical fields are |
| LicenceLaws.SamePayloadIffAgree | app/licensing.py:56-97 | payloads are equal exactly if the terms agree, features taken as a set and outer white space aside |
| LicenceLaws.CleanFirmNameSigns | app/licensing.py:159-165 | a cleaned firm name can always be signed; cleaning fails exactly on names with nothing to keep |
| LicenceLaws.FirmNameKept | app/licensing.py:159-165 | what is kept of a name: its words, one space apart, up to 160 characters |
| LicenceLaws.MintedIdsAreUsable | app/licensing.py:145-151 | a minted install id is always well formed, so its error is never raised |
| LicenceLaws.SlugIsNormalized | app/licensing.py:140-142 | a slug is the name's words in lower case, a dash apart, or firm where there are none |
| LicenceLaws.MintedIdSpelled | app/licensing.py:145-151 | an install id is up to fifty characters of the slug, a dash, and up to six lower-case letters or digits of the random part |
| LicenceLaws.DecodeEncode | app/licensing.py:100-106 | base64url decoding gives back every byte encoded |
| LicenceLaws.SymbolCodes | app/licensing.py:100-101 | the base64url alphabet |
| LicenceLaws.GroupIsOneNumber | app/licensing.py:100-101 | four characters of the encoding and the three bytes they stand for are one number |
| LicenceLaws.RestIsOneNumber | app/licensing.py:100-101 | one or two bytes left over at the end are filled up with zero bits and not padded |
| Text.DecReadsBack | app/excel_utils.py:350-353 | a number is spelled in decimal digits that read back as it, with no zero ahead |
| LicenceLaws.DecodesIff | app/licensing.py:104-106 | alphabet text decodes exactly if no single character is left over |

## Left out

- Binary floating point: amounts, rates and clock readings are exact reals or integers, with the source's own rounding written out; the error of the float operations before a rounding is not modelled, so a threshold or half-pesewa that floats miss by an ulp is outside the model.
- Missing creation times in the queries: where a database puts NULLs is its own choice, so `AuditPaging.ActionsInOrder` and `AuditPaging.ExpensesInOrderIff` are about rows that have one; `AuditPaging.PageExactIff` covers all rows.
- Unicode case folding and white space beyond U+00A0: strip, lower and the normaliser work on Latin letters and the white space up to there.
- Licence.Decode: characters outside the alphabet, which Python drops before decoding, are excluded by its precondition.
- Throttle.Limiter.Login: the check, the password verification and the count are one sequential step; two requests that both pass the check before either counts are not modelled.
- Purge.Database.PurgeClientCompany: the session's identity map and SQLAlchemy's nulling of loaded children are not modelled; no child is left when the company row goes.
- Purge.Database.BulkDelete: NOT NULL and unique constraints are not modelled, only foreign keys and the two cascades of payslip_link.
- ReplaceRuns.Books.PurgePayrollRun: the audit entry it writes is not modelled; it names only the acting user.
- HeaderImport.ReadRow: parsing of amounts, skipping of total rows and the defaults for missing fields come after it and are not modelled.
- HeaderImport.MapColumns: the alias and derived-header tables are parameters, so the results hold for any tables.
- Invites: expiry is part of `Opens`, but hashing and signing are not; only issued tokens are taken to carry a valid signature, and a new hash to end in sixteen characters no earlier hash ended in.
- Idempotency: `run_fn` may do anything but touch the table of keys; that the JSON of a summary is never empty is taken as given.
- Receipts: the checks on an uploaded file (extension, declared type, leading bytes, size) are one flag; two requests changing one expense's receipt at once are not modelled.
- RiskGate.EvaluateRun: the queries for the previous closed run and the number of earlier runs are parameters; amounts are taken to print as digits, commas, a point and a sign.
- Union dues and the payroll calculators: single formulas over the same rounding.
- Header detection, the data-start anchor, workbook reading and writing, and bank-listing groups: input and output.
- The payroll run lifecycle: the single-run routes set the status without checking the old one, so it bounds nothing.
- Bulk approval and rejection, recalculation of salaried items and matching of imported employees: loops whose claims follow from one reading.
- Flask routing, templates, sessions, permissions, e-mail, PDF and CSV output, migrations, dashboard captions and seed data: user interface and input/output.
- Ed25519 signing and verification: the model ends at the text that is signed.
