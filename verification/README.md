# Pindora back office: a verified model

This project models the seven parts of the property-management back office whose correctness depends on state kept
over time or on exact arithmetic, and proves what they keep.

| part | modules | what is modelled |
|---|---|---|
| Idempotency keys | `Utf8`, `Idempotency`, `IdempotencyTheorems`, `IdempotencyStore`, `IdempotencyRefinement` | any number of workers interleaved over one table with a unique key: query, delete-flush, insert-flush with clash and retry, a view that commits midway, returns, raises or dies, recording of the response, pruning, clock ticks; and the functions as they run in one process |
| Billing | `Calendar`, `PeriodKeys`, `Money`, `Invoices`, `Leases`, `Billing`, `BillingTheorems`, `BillingService` | lease and invoice status machines, VAT in whole cents, the before-insert hook, the periodic biller, and all of them mixed over any history |
| Occupancy | `Occupancy` | the dashboard's arrivals-minus-departures walk, the week overview and the unit status overview over one list of stays |
| Email queue | `EmailQueue`, `EmailTheorems`, `EmailDispatcher` | batches, deliveries that succeed, are refused or die, the backoff table, retry and cancel by an administrator |
| Settings export | `Settings` | the redacted JSON export and the upsert restore |
| Backups | `Backups`, `BackupTheorems`, `BackupManager` | dump, prune, safe copy and restore, with the ledger of backups inside the database that is dumped and replaced |
| Login lockout | `Lockout` | the sliding window over the log of attempts |
| Availability cache | `AvailabilityCache` | the cache of matrices that hands out the cached object itself |

`Wrappers` holds the option type. Where the program computes, the model is a function; where it updates rows, objects or
dictionaries in place, the model is a class or a method proved equal to a function on values, and the theorems are
about that function, over every run.

Conventions. Rows are keyed by natural numbers handed out in order. A service error is a step without effect. The
clock, the outcome of a foreign call (mail server, `pg_dump`, `psql`, file removal) and the order in which the database
returns rows without an ORDER BY are parameters that every theorem ranges over. Money is in whole cents, a rate of
24.00 % is 2400, times are integers in the unit the module names, days are ordinals.

## Where the code and its documentation part

The model follows the code.

- `prune_old_backups` is documented to keep pre-restore copies regardless of age. The protection is read from the
  ledger, and a restore replaces the ledger, so the copy made for a restore is an unprotected file afterwards
  (`BackupTheorems.SafeCopyPrunedIff`, `SafeCopyIsLost`; as far as the promise holds: `KeptUntilReplaced`).
- `restore_backup` is documented to replay the JSON exports on request. It looks for their names in the row of the
  restored database, where that row is still pending and names none, so nothing is replayed
  (`BackupTheorems.OptedInReplayDoesNothing`). Only a dump made elsewhere, whose row does name an export, gets it
  replayed, and if the export is missing the restore reports failure although the contents were replaced
  (`ReplayExactly`, `ReplayHappens`, `ReplayFailsIff`).
- The backoff table has a fifth entry of twelve hours that no delivery uses (`EmailTheorems.BackoffArguments`).
- The dashboard walk is off by the departures of its first day, on every day (`Occupancy.TrendExactIff`,
  `TrendCanBeNegative`).
- Ended and cancelled leases can be revived by a first signature (`Leases.ClosedLeaseRevivedIff`).
- Editing the lease or the metadata of an invoice can let the biller bill the same period again: exactly when no
  invoice carries the lease and the period any longer (`BillingTheorems.BilledAgainIff`, `DoubleBillingHappens`).
- The hook treats a computed total of zero as a legacy row and drops the requested VAT rate
  (`Invoices.HookKeepsConsistency`).
- A due date in an update of an overdue invoice is accepted and ignored (`Invoices.OverdueDueDateIgnored`).
- The availability page can show the dashboard's shortened list (`AvailabilityCache.PageIsTruncatedIff`).
- An idempotency row that its owner abandons after a commit in the view, and only such a row, is left without an owner
  or an answer, and blocks its key until it expires (`IdempotencyTheorems.OrphanedExactlyBy`,
  `OrphanBlocksKeyUntilExpiry`, `IdempotencyRefinement.OrphanFromScratch`).

## Model

The results come first. From the row of `Utf8.RoundTrip` on stand what they are built from: single operations, one step or
one branch read off the code, and the methods that carry them out in place.

| member | source | states |
|---|---|---|
| Utf8.CutDecodesToPrefix | app/idempotency/services.py:181-183 | cutting the bytes anywhere and decoding with errors ignored gives exactly the leading code points that fit whole |
| Utf8.FitIsLongest | app/idempotency/services.py:181-183 | a prefix encodes within the limit exactly when it is no longer than that |
| IdempotencyTheorems.StoredBodyIsLongestPrefix | app/idempotency/services.py:180-187 | the cached body is the longest prefix of the body whose encoding fits in 65536 bytes |
| Idempotency.NextKeeps | app/idempotency/services.py:57-104 | every step of every worker, the pruner and the clock keeps the whole protocol invariant |
| Idempotency.RunInvariant | app/idempotency/decorators.py:61-113 | the invariant holds after every interleaving of any number of workers |
| IdempotencyTheorems.OneRowOneOwner | app/idempotency/services.py:88-99 | in every reachable state each key has at most one row and each row at most one worker in its view |
| IdempotencyTheorems.OnlyOwnerTouchesLiveRow | app/idempotency/services.py:173-196 | in every run only the owner writes a row, and an unexpired row is removed only by its owner after an answer that may not be replayed; a late owner of a replaced row cannot touch the new one |
| IdempotencyTheorems.RunExtends | app/idempotency/services.py:173-187 | what was entered, recorded and released stays so for ever |
| IdempotencyTheorems.ViewEnteredOncePerLiveRow | app/idempotency/decorators.py:101-113 | the view is entered again for a key only after the earlier row expired, was answered with a status that may not be replayed, or never became visible |
| IdempotencyTheorems.CompletedOncePerLifetime | app/idempotency/decorators.py:101-113 | two replayable executions for one key never overlap: the first row had expired |
| IdempotencyTheorems.RecordedByOwner | app/idempotency/services.py:173-187 | what is recorded for a row was recorded by a step of its owner, with that status and stored body |
| IdempotencyTheorems.ReplayIsFaithful | app/idempotency/decorators.py:82-94 | a replay answers with the status and stored body the row's owner recorded, for the same key and hash, and only with a status below 400 or 422 |
| IdempotencyTheorems.ReplaysAgree | app/idempotency/decorators.py:82-94 | two replays of one row agree, whenever they happen |
| IdempotencyTheorems.AnswerIsKept | app/idempotency/services.py:107-112 | over every run, once the owner of a row answers with a status below 400 or with 422, the row holds that status and stored body, under its key and hash, until it expires, whatever the other workers do |
| IdempotencyTheorems.KeptAnswerIsGiven | app/idempotency/decorators.py:72-94 | until then every query for the key is answered by it: the recorded status and stored body to the same hash, a conflict to another |
| IdempotencyTheorems.RefusalFreesKey | app/idempotency/services.py:173-179 | any other status leaves no row of the key |
| IdempotencyTheorems.OrphanedExactlyBy | app/idempotency/decorators.py:101-111 | in every run a step leaves a row orphaned exactly if its owner abandons it after a commit in the view: the view or the recording raised, or the process died |
| IdempotencyTheorems.UnansweredIsOrphanedOrInView | app/idempotency/decorators.py:82-111 | in every run a visible row without an answer is orphaned exactly if its owner is not still in the view past a commit |
| IdempotencyRefinement.OrphanWitness | app/idempotency/decorators.py:101-111 | from any reachable state with a fresh worker and a free key there is a run that leaves the new row orphaned at the time it was made |
| IdempotencyRefinement.OrphanFromScratch | app/idempotency/decorators.py:101-111 | such a run from the empty table |
| IdempotencyTheorems.OrphanBlocksKeyUntilExpiry | app/idempotency/decorators.py:82-99 | an orphaned row never gets an answer: until it expires each request for its key finds it in progress or in conflict, in every continuation |
| IdempotencyRefinement.DecoratorIsARun | app/idempotency/decorators.py:61-113 | what the decorator does to the table and answers, served without interruption, is what a run of the interleaved protocol does from any reachable state in which nobody else holds the key |
| IdempotencyStore.RetryIsReplayed | app/idempotency/decorators.py:61-113 | a request and its retry with the same key and hash within the life of the row: after a status below 400 or 422 the retry is answered with that status and stored body and changes nothing; after any other status or an exception it enters the view |
| IdempotencyStore.LiveRowDecides | app/idempotency/decorators.py:72-99 | a live row of the key gives its answer, or in progress, to the same hash and a conflict to another, and the table stays |
| IdempotencyStore.GetOrCreate | app/idempotency/services.py:57-104 | whatever tables the eight rounds meet, the outcome is decided by the first round that does not clash; it fails if and only if all eight clash |
| IdempotencyStore.KeyStore.IdempotentPost | app/idempotency/decorators.py:61-113 | the table and the reply are those of the finding of its query; the view is entered if and only if no live row of the key exists; a status below 400 or 422 then leaves a row with the key, the hash, that status, the stored body and the configured life, and any other leaves no row of the key |
| Calendar.DaysBeforeYearClosed | app/billing/services.py:1461-1470 | the recursive count of days agrees with the closed Gregorian formula |
| Calendar.IsoCalendarLocates | app/billing/services.py:1464-1467 | the ISO year, week and weekday locate the date |
| Calendar.IsoWeekByThursday | app/billing/services.py:1466-1467 | the week belongs to the year that holds its Thursday and is numbered by it, as section 4.1.4 of ISO 8601:2004 has it |
| PeriodKeys.KeysAreFaithful | app/billing/services.py:1461-1467 | two due dates of one cycle share a period key exactly when they are the same date |
| PeriodKeys.CyclesNeverCollide | app/billing/services.py:1461-1470 | keys of different cycles never collide, whatever the dates |
| PeriodKeys.DueDays | app/billing/services.py:1461-1473 | due are the first of the month, Mondays, any day, by cycle |
| PeriodKeys.KeysAsWritten | app/billing/services.py:1463-1470 | how keys are written, with a day that the ISO calendar counts to the next year |
| Invoices.LifeOfAnInvoice | app/billing/services.py:1035-1299 | the same over every run of operations; paid and cancelled are final |
| Leases.LifeOfALease | app/billing/services.py:601-841 | the same over every run of lease operations; a signature is written at most once |
| Leases.ClosedLeaseRevivedIff | app/billing/services.py:1402-1438 | an ended or cancelled lease changes status exactly by a first signature with its token, and then becomes active |
| Leases.CancelledLeaseBecomesActive | app/billing/services.py:1330-1438 | a run in which a cancelled lease ends up active |
| Billing.NextKeeps | app/billing/services.py:1449-1526 | every lease, invoice, overdue and biller operation keeps the billing invariant |
| Billing.RunInvariant | app/billing/services.py:1449-1526 | the invariant holds over every serial history from empty tables |
| Billing.NewBillFirst | app/billing/services.py:1474-1489 | a newly billed invoice is the first of its period for the lease, and the very first one for a one-time lease |
| BillingTheorems.NoPeriodBilledTwice | app/billing/services.py:1449-1526 | over every history two automatic invoices of a lease share neither period nor due date, and a one-time lease has at most one, unless an edit gave the older another lease or period; cancelling or paying it makes no difference |
| BillingTheorems.BillerNeverMakesTheSecond | app/billing/services.py:1474-1489 | the same against every older invoice, automatic or not: a one-time lease is billed only when it has no invoice |
| BillingTheorems.PeriodsAreDueDates | app/billing/services.py:1461-1470 | over every history two bills of one cycle share a period exactly when they share the due date |
| BillingTheorems.RunBillsIff | app/billing/services.py:1449-1526 | a run bills a lease exactly if it is active, due, and no invoice carries the period, or, for a one-time lease, the lease |
| BillingTheorems.RunBillsPlainly | app/billing/services.py:1449-1489 | a run bills a lease exactly if it is active, the day is a first of the month, a Monday or any, by its cycle, and no invoice carries the lease with the period, or the one-time lease at all |
| BillingTheorems.NewBillsCharge | app/billing/services.py:1490-1506 | over every history each invoice a run adds charges the rent its lease has then, at the default rate (none on a total of nothing), with exact half-up VAT and total, in euros, to the lease's guest and reservation, open and due on the day, for default rates not below 0 |
| BillingTheorems.BilledAgainIff | app/billing/services.py:1474-1489 | in every history a billed period is billed again by a run if and only if the lease is active, the day is due, and no invoice of the organization carries the lease with that period any longer, or, for a one-time lease, the lease at all |
| BillingTheorems.EditAllowsDoubleBilling | app/billing/services.py:1035-1165 | after an edit of the metadata the same lease is billed a second time for one day |
| BillingTheorems.DoubleBillingHappens | app/billing/services.py:1035-1165 | a history from empty tables in which one day is billed twice |
| BillingTheorems.RunBillsAll | app/billing/services.py:1453-1489 | after a run without failures no active lease is left to bill for the day |
| BillingTheorems.RerunIsNoOp | app/billing/services.py:1453-1489 | a second run for the same day, in any order, changes nothing and skips every lease |
| BillingTheorems.RunAccounting | app/billing/services.py:1522-1525 | every active lease is counted once; new invoices lie between created and created + errors, because a failure after the commit is counted as skipped |
| BillingTheorems.InvoiceHistory | app/billing/services.py:1035-1299 | between any two moments of a history an invoice keeps its organization, moves one way, and is frozen after draft and open |
| BillingTheorems.LeaseHistory | app/billing/services.py:601-841 | between any two moments a lease keeps what left-draft freezes and its signature |
| BillingTheorems.ReachableAmounts | app/billing/services.py:864-1100 | every invoice of every history has amount = total = subtotal + VAT, a subtotal that is not negative, VAT within half a cent of subtotal times rate, and, for rates from 0 to 100, VAT between 0 and the subtotal |
| BillingTheorems.ReachableVatMonotone | app/billing/services.py:864-1100 | of any two invoices of a history, the one with no less subtotal and no less rate has no less VAT and no less total |
| BillingTheorems.OverdueIsPastDue | app/billing/services.py:1223-1262 | every overdue invoice is past due, and a second pass on the same day changes nothing |
| BillingService.BillingStore.GenerateDueLeaseInvoices | app/billing/services.py:1449-1526 | the biller's loop leaves the tables and returns the counts the step-by-step specification gives |
| Occupancy.WalkIsOff | app/admin/services.py:948-994 | on every day of the window the arrivals-minus-departures number is the direct count of stays minus the stays that end on the first day |
| Occupancy.OccupancyTrend | app/admin/services.py:948-994 | the loop computes that walk, and so the direct count less the departures of the first day |
| Occupancy.TrendExactIff | app/admin/services.py:948-994 | the walk is right on a day exactly when no stay ends on the first day of the window |
| Occupancy.TrendCanBeNegative | app/admin/services.py:948-994 | with one stay that leaves on the first day, the walk shows minus one on every day of an empty house |
| Occupancy.WeekOverview | app/admin/services.py:264-304 | the seven days hold the direct counts of staying, arriving and leaving, except that no departure is shown on the first |
| Occupancy.UnitStatusOverview | app/admin/services.py:169-261 | each unit gets exactly one row, with the blocked, arriving, departing, occupied, free priority over all its stays |
| Occupancy.TakenUnitsMatchWeekOverview | app/admin/services.py:169-304 | with no blocked unit, never more units are arriving or occupied than stays are counted for the day, and exactly as many when no two stays of a unit overlap |
| EmailQueue.BatchIsEarliest | app/email/scheduler.py:42-53 | a batch is in order and without repetition; a due row is left out only when the batch is full, and then comes after all of its rows |
| EmailQueue.NextKeeps | app/email/scheduler.py:40-135 | every cycle, crash, retry, cancel and arrival keeps each row in step with its history |
| EmailTheorems.DeliveredAtMostOnce | app/email/scheduler.py:65-135 | over every run a row is accepted at most once, offered at most 5 times plus once per retry, its count is min(5, failures), and its waiting times total at most 156 minutes |
| EmailTheorems.SettledForever | app/admin/routes.py:4484-4539 | a row once sent, cancelled or left sending by a crash is never touched again |
| EmailTheorems.CancelTakesOut | app/admin/routes.py:4515-4539 | a cancel makes a pending row cancelled with nothing scheduled, and in every continuation it is never offered; a row in any other status, and every other row, keeps its whole value |
| EmailTheorems.RetryPutsBack | app/admin/routes.py:4484-4512 | a retry makes a failed row pending and due at once with its attempts as they are, and leaves all else alone |
| EmailTheorems.RetriedRowIsOffered | app/email/scheduler.py:40-58 | a row put back is offered to the mail server by the next cycle that has room and in which no process dies |
| EmailTheorems.DueRowIsOffered | app/email/scheduler.py:40-58 | such a cycle offers every pending row whose time has come, once |
| EmailTheorems.BatchOrder | app/email/scheduler.py:42-53 | rows without a time go first, then earlier times, then lower ids, within a batch and before what is left out |
| EmailTheorems.SendingIffDied | app/email/scheduler.py:65-135 | over every run a row is left sending exactly if the process died in a delivery of that row |
| EmailTheorems.WaitsItsTurn | app/email/scheduler.py:42-53 | no cycle before a pending row's next attempt time offers it to the mail server |
| EmailTheorems.BusyCyclesSpend | app/email/scheduler.py:40-118 | in any run of cycles, every cycle that meets a due row spends at least one of the attempts the queue has left, whatever waits beside it |
| EmailTheorems.QueueDrains | app/email/scheduler.py:40-118 | without arrivals, retries and cancels, once as many cycles have met a due row as there were attempts left, no row is pending, whatever the batch size and the waiting times; each row is offered at most 5 times and ends sent or failed, unless a process died in its delivery |
| EmailTheorems.DrainsInTime | app/email/scheduler.py:21-58 | cycles at most a gap apart leave no row pending once the attempts left, at two hours and one gap each, have run out |
| EmailDispatcher.ProcessEmailQueue | app/email/scheduler.py:40-58 | the loop over the batch, on the row objects, is one cycle of the queue and counts the rows it processed |
| Settings.RestoredValue | app/backups/services.py:246-288 | after a restore a key holds the last value the export carries for it; if it carries none, or only the marker, the old value stays and the key is not created |
| Settings.RestoreTwice | app/backups/services.py:224-296 | restoring the same export again changes no value and creates no key |
| Settings.CountsAddUp | app/backups/services.py:261-296 | created + updated + skipped is the number of rows with a key, preserved is at most updated, and created is the number of new keys |
| Settings.CountsExactly | app/backups/services.py:252-296 | which rows are counted as created, updated, preserved and skipped, decided by the table at the start and the rows before |
| Settings.ExportedValuesArrive | app/backups/services.py:329-364 | exporting one table and restoring into another: shown values arrive, secrets and other keys stay, a secret the other does not have is not created |
| Settings.ExportedFieldsArrive | app/backups/services.py:274-280 | description, secrecy and any non-empty type arrive with the row |
| Settings.OwnExportIsIdentity | app/backups/services.py:329-364 | restoring a table's own export into it changes nothing but time stamps |
| Settings.SecretsDoNotLeak | app/backups/services.py:339-344 | two tables give the same export exactly when they differ in nothing but secret values and time stamps |
| BackupTheorems.SafeCopyFirst | app/backups/services.py:985-1011 | whenever a restore replaces the database, a complete copy of the database it replaced is on disk after that run |
| BackupTheorems.ReplacesIff | app/backups/services.py:966-1103 | exactly when a restore replaces the database: the safe copy succeeds, the load goes through, and the target is complete and left by the pruning, or has just been written by the safe copy |
| BackupTheorems.ContentsChangeOnlySafely | app/backups/services.py:938-1103 | in any step of any run contents change only by ordinary work, or by a restore that leaves a copy of what it replaced |
| BackupTheorems.RunKeepsHonest | app/backups/services.py:536-592 | over every run each dump holds its own row as pending and without export names |
| BackupTheorems.OptedInReplayDoesNothing | app/backups/services.py:1154-1173 | over every run the opted-in replay does nothing and cannot fail: a restore gives the dump's contents and ledger, or leaves the contents unchanged |
| BackupTheorems.ReplayExactly | app/backups/services.py:1154-1187 | an opted-in replay is decided by the row the dump holds of itself: no export named, the dump's contents; one on disk, and only then, the dump's settings with that export restored into them; one missing, a failure with the contents replaced |
| BackupTheorems.ReplayHappens | app/backups/services.py:1154-1187 | an input for which the replay brings in a setting the dump lacks |
| BackupTheorems.KeptUntilReplaced | app/backups/services.py:840-844 | a safe copy is kept, whatever its age, over every run in which no restore replaces the database |
| BackupTheorems.SafeCopyPrunedIff | app/backups/services.py:813-884 | after the restore it was made for, a safe copy survives a prune exactly when it is within the window, cannot be removed, or the restored ledger lists it |
| BackupTheorems.SafeCopyIsLost | app/backups/services.py:813-884 | an input for which the documented promise fails |
| BackupTheorems.RevertRoundTrip | app/backups/services.py:938-1103 | restoring the safe copy brings back the contents from before the first restore, exactly when the new copy and the load succeed and the prune in between leaves the old copy |
| BackupTheorems.RunKeepsFile | app/backups/services.py:826-850 | over every run a file nobody writes stays on disk for the length of the retention window, whatever the ledger becomes |
| BackupTheorems.RevertWithinWindow | app/backups/services.py:938-1103 | for the length of the retention window a restore can be undone from its safe copy, whatever is done in between, further restores included |
| BackupTheorems.LedgerStaysTruthful | app/backups/services.py:737-743 | through failures, crashes and prunes every success in the ledger has its complete file |
| BackupManager.Manager.PruneOldBackups | app/backups/services.py:813-884 | the loop over the directory, in any order, has the effect of the declarative prune and returns how many files went |
| BackupManager.Manager.RestoreBackup | app/backups/services.py:938-1197 | safe copy, load, audit and replay in this order have the effect of the value-level restore |
| Lockout.AtMostMaxPlusOne | app/auth/services.py:103-111 | with no success in between, any closed 15-minute window holds at most max + 1 attempts that get past the lock, whatever the log held before and however other emails are mixed in |
| Lockout.BoundIsReached | app/auth/services.py:103-111 | max + 1 wrong passwords in one second all get past the lock, for every limit |
| Lockout.AnswersExactly | app/auth/services.py:43-111 | when a login gets in, is locked out, or is refused and why, from the log and the verdict alone |
| Lockout.RightPasswordLogsIn | app/auth/services.py:43-111 | in any run, after at most max tries and old failures of the email within 15 minutes its right password is accepted |
| Lockout.SilenceUnlocks | app/auth/services.py:103-111 | an email without attempts for more than 15 minutes is unlocked, after any run |
| Lockout.LockHidesVerdicts | app/auth/services.py:53-60 | runs that differ only in the verdicts of logins that meet the lock have the same log and the same outcomes throughout |
| Lockout.OthersDoNotMatter | app/auth/services.py:103-111 | striking all logins on other emails from a run changes no failure count of an email |
| AvailabilityCache.Provenance | app/admin/routes.py:607-634 | every entry was computed by one request for its key at the time it bears, and is cut to three exactly when the dashboard was served from it |
| AvailabilityCache.SameKeyIff | app/admin/routes.py:589-604 | two requests share an entry exactly if they have the same user, organization, first and last day, property filter and cancelled flag, the dashboard asking for the week from today and a page for 1 to 31 days, 14 if not said |
| AvailabilityCache.ShownList | app/admin/routes.py:607-634 | what any request shows was computed for the same view, user and organization included, by the request that filled the entry, at most 30 seconds before, and is whole unless the dashboard was served from it |
| AvailabilityCache.StoredListIsShown | app/admin/routes.py:623-625 | a repeat of a request within 30 seconds of the one that had its list computed is shown that list |
| AvailabilityCache.NewListIsShown | app/admin/routes.py:626-634 | a request whose view nobody asked for in the last 30 seconds has its list computed, and the dashboard shows the first three of it |
| AvailabilityCache.PageIsTruncatedIff | app/admin/routes.py:356-364 | the page shows less than the filling request computed exactly when that is more than three properties and the dashboard was served from the same list |
| AvailabilityCache.OtherPagesAreWhole | app/admin/routes.py:637-660 | pages over other than seven days, or with filters, always show the whole list |
| AvailabilityCache.PageCanBeTruncated | app/admin/routes.py:356-364 | two requests after which the page shows three of four properties |
| Utf8.RoundTrip | app/idempotency/services.py:180-183 | decoding the encoding of any text gives the text back |
| Utf8.AsInTheTable | app/idempotency/services.py:181 | the bytes of a character are those of the table of RFC 3629 |
| Idempotency.EntriesAreOver | app/idempotency/services.py:69-99 | when a worker may insert a key, every earlier entry for it has been released or has expired |
| Idempotency.OwnerStepKeeps | app/idempotency/services.py:173-187 | a commit, recording or release by the owner of a row keeps the invariant for everybody else |
| IdempotencyTheorems.FindTotal | app/idempotency/services.py:71-86 | a query has exactly one of the outcomes absent, expired, mismatch, live |
| IdempotencyTheorems.EnteredRow | app/idempotency/services.py:88-95 | a new row has the request's key, endpoint and hash, no answer, and the configured life from the moment the worker read the clock |
| IdempotencyStore.KeyStore.RecordResponse | app/idempotency/services.py:173-187 | with a status below 400 or 422 completes the row by its id, with any other deletes it; a row already gone stays away |
| IdempotencyStore.KeyStore.PruneExpired | app/idempotency/services.py:190-196 | deletes exactly the rows past their expiry and returns how many |
| IdempotencyStore.KeyStore.RunView | app/idempotency/decorators.py:101-113 | a row of its own, then the view: an exception rolls both back, a response is recorded or frees the key |
| Calendar.OrdinalOrder | app/billing/services.py:1461-1470 | ordinals order dates as the calendar does |
| Calendar.MonthTable | app/billing/services.py:1461-1470 | the days before each month |
| Money.ParseAmount | app/billing/services.py:70-98 | an amount is accepted exactly if it is a number that does not round below zero, and is read to the nearest cent |
| Money.ParseRate | app/billing/services.py:132-150 | a rate is accepted exactly if it is blank or rounds into 0 to 100 percent, and is read to the nearest hundredth |
| Money.HalfEvenNearest | app/billing/services.py:85 | requested amounts are rounded to the nearest cent, ties to the even one |
| Money.HalfUpNearest | app/billing/services.py:107-108 | the rounded amount is the one whole number of cents within half a cent, away from zero on a tie |
| Money.VatWithinHalfCent | app/billing/services.py:111-119 | the total is subtotal plus VAT exactly, and VAT is within half a cent of subtotal times rate |
| Money.VatBounds | app/billing/services.py:111-119 | for a subtotal that is not negative and rates from 0 to 100 the VAT lies between 0 and the subtotal |
| Money.VatMonotone | app/billing/services.py:111-119 | VAT and total are monotone in subtotal and rate |
| Invoices.PendingInvoice.CoerceLegacyAmountOnly | app/billing/models.py:15-28 | the hook, assigning field by field, has the effect the value-level hook describes |
| Invoices.HookKeepsConsistency | app/billing/models.py:15-28 | after the hook amount = total = subtotal + VAT, VAT fits the rate, and the requested rate survives unless the total is zero |
| Invoices.CreateOk | app/billing/services.py:864-941 | a created invoice has exact amounts, a subtotal that is not negative, no payment time and the requested status |
| Invoices.CreatedIff | app/billing/services.py:860-925 | which requests make an invoice |
| Invoices.CreatedFields | app/billing/services.py:919-940 | the invoice has the fields of the request, and the lease's guest where it names none |
| Invoices.CreatedAmounts | app/billing/services.py:880-884 | its subtotal is the one requested and its rate the one requested or the default, except where the total is nothing |
| Billing.FindLeasePlainly | app/billing/services.py:888-896 | a lease is found exactly within its organization |
| Billing.DescriptionAsWritten | app/billing/services.py:1495 | how the description of an automatic invoice reads |
| Invoices.UpdatedIff | app/billing/services.py:1035-1165 | which updates are accepted, by status |
| Invoices.UpdatedFields | app/billing/services.py:1035-1165 | what an update changes on any invoice, and that it is only texts once the invoice is neither draft nor open |
| Invoices.UpdatedMoney | app/billing/services.py:1075-1100 | the new subtotal and rate are the ones requested, subtotal before amount, and VAT and totals follow |
| Invoices.UpdatedRest | app/billing/services.py:1035-1165 | currency, due date and references are the ones requested, or stay |
| Invoices.StatusOperations | app/billing/services.py:1168-1299 | paying, cancelling and the overdue pass: on which invoices they act, and what they set |
| Invoices.ChangeKeeps | app/billing/services.py:1035-1299 | each operation keeps amounts consistent and paid_at exactly on paid invoices, moves statuses one way, freezes money and due date after draft and open, and marks overdue only what is past due |
| Invoices.OverdueDueDateIgnored | app/billing/services.py:1035-1165 | a due date in an update of an overdue invoice is accepted and has no effect |
| Leases.CreateOk | app/billing/services.py:522-598 | a created lease is an unsigned draft whose end does not precede its start |
| Leases.CreatedIff | app/billing/services.py:522-598 | which requests make a lease |
| Leases.CreatedFields | app/billing/services.py:522-598 | the lease has the fields of the request, rent and deposit each to the cent |
| Leases.UpdatedIff | app/billing/services.py:601-736 | which updates are accepted, by status |
| Leases.UpdatedFields | app/billing/services.py:601-736 | what an accepted update changes, and that the rest stays |
| Leases.StatusOperations | app/billing/services.py:739-841 | activating, ending, cancelling, sending and signing: when each acts, and what it sets |
| Leases.ChangeKeeps | app/billing/services.py:601-841 | each operation keeps dates in order, never re-enters draft, and freezes unit, guest, reservation, start and cycle once draft is left |
| Leases.SecondSignatureIgnored | app/billing/services.py:1402-1438 | a sign call on a signed lease changes nothing |
| Leases.ResentLeaseOnlyActivatedByHand | app/billing/services.py:1330-1438 | a signed lease sent for signing again can only be activated by hand |
| BillingService.BillingStore.CreateLease | app/billing/services.py:522-598 | stores the lease the value-level operation describes, or nothing |
| BillingService.BillingStore.PatchLease | app/billing/services.py:614-723 | the field-by-field update with its checks in order accepts exactly what the value-level update accepts, and gives the same lease |
| BillingService.BillingStore.UpdateLease | app/billing/services.py:601-736 | updates exactly the addressed lease of the organization, or nothing |
| BillingService.BillingStore.ActivateLease | app/billing/services.py:739-765 | activates a draft or pending lease, or changes nothing |
| BillingService.BillingStore.EndLease | app/billing/services.py:768-812 | ends an active lease with a date not before its start, or changes nothing |
| BillingService.BillingStore.CancelLease | app/billing/services.py:815-841 | cancels as the value-level operation does, or changes nothing |
| BillingService.BillingStore.SendLeaseForSigning | app/billing/services.py:1330-1399 | issues a token and moves the lease to pending signature, also from active; answers well exactly if that was allowed and the email went out |
| BillingService.BillingStore.SignLeaseWithToken | app/billing/services.py:1402-1438 | the lease holding the token becomes active at its first signature, whatever its status; later calls change nothing |
| BillingService.BillingStore.CreateInvoice | app/billing/services.py:844-941 | parses and checks the request in order and inserts one invoice, as the hook leaves it, under the next id, or stores nothing |
| BillingService.BillingStore.VisitLease | app/billing/services.py:1454-1525 | the loop body bills one lease as the specification does and counts it |
| BillingService.BillingStore.UpdateInvoiceLimited | app/billing/services.py:1035-1165 | updates exactly the addressed invoice within the limits of its status, or nothing |
| BillingService.BillingStore.MarkInvoicePaid | app/billing/services.py:1168-1220 | marks the addressed invoice paid, or changes nothing |
| BillingService.BillingStore.CancelInvoice | app/billing/services.py:1265-1299 | cancels the addressed invoice, or changes nothing |
| BillingService.BillingStore.MarkOverdueInvoices | app/billing/services.py:1223-1262 | marks exactly the open invoices past due, and counts them |
| Occupancy.NextDay | app/admin/services.py:987-994 | the stays covering a day are those of the day before plus arrivals minus departures |
| Occupancy.InWeekCounts | app/admin/services.py:264-304 | restricting the stays to the week loses nothing but the departures of its first day |
| Occupancy.TopStay | app/admin/services.py:169-261 | the stay ranked first is one that touches the day and none of the others stands above it |
| Occupancy.TopStayDecides | app/admin/services.py:169-261 | the stay ranked first alone tells whether the unit has an arrival, a departure or a covering stay, in that order |
| Occupancy.StatesPlainly | app/admin/services.py:169-261 | when a unit is blocked, arriving, departing, occupied or free |
| Occupancy.TopStayPlainly | app/admin/services.py:169-261 | which stay a row names: by start, then by id, within those that start, else end, else go on |
| Occupancy.OverlapHidesAStay | app/admin/services.py:169-261 | with overlapping stays a departure can hide a stay that covers the day |
| EmailQueue.DeliverFirstEach | app/email/scheduler.py:54-58 | each row a batch reaches is delivered once, from the state the batch found it in |
| EmailTheorems.BackoffArguments | app/email/scheduler.py:35-37 | a refused delivery looks up the backoff table with 1 to 4 attempts only, and waits 1, 5, 30 or 120 minutes |
| EmailTheorems.DeliveryEffects | app/email/scheduler.py:65-135 | what a delivery leaves behind for each outcome: the status, the count, the error, and one minute, five, thirty or two hours of waiting after the first four refusals |
| EmailTheorems.EnqueueEffects | app/email/services.py:232-243 | a mail is queued pending, without attempts, and due at once |
| EmailTheorems.SyncEffects | app/email/models.py:161-169 | what the compatibility fields become |
| EmailDispatcher.OutgoingEmail.SyncCompatFields | app/email/models.py:161-169 | the compatibility fields are filled in place as the value-level operation says |
| EmailDispatcher.OutgoingEmail.Deliver | app/email/scheduler.py:65-135 | one delivery, field by field, has the effect of the value-level delivery for every outcome |
| EmailDispatcher.OutgoingEmail.Retry | app/admin/routes.py:4484-4512 | requeues a failed row at once and leaves any other alone |
| EmailDispatcher.OutgoingEmail.Cancel | app/admin/routes.py:4515-4539 | cancels a pending row and leaves any other alone |
| Settings.SettingsStore.RestoreFromJson | app/backups/services.py:224-296 | the upsert loop leaves the table and returns the counts the row-by-row specification gives |
| Settings.UnnamedKeyUntouched | app/backups/services.py:246-288 | a key the export does not name keeps its whole row |
| Settings.LastValueIs | app/backups/services.py:252-288 | the last value is that of the last row for the key that does not hold the marker text |
| Settings.NoLastValue | app/backups/services.py:252-288 | there is none exactly if every row for the key holds the marker |
| Settings.CreatedRow | app/backups/services.py:257-268 | a created row has the given type and description, or string and nothing |
| Settings.UpdatedRow | app/backups/services.py:274-288 | an updated row keeps type and description where none are given |
| Settings.RestoreTwiceMayChangeTypes | app/backups/services.py:257-280 | a marker row skipped the first time can change a type the second time |
| Settings.AllRowsCountedIff | app/backups/services.py:246-251 | the counts add up to all rows exactly when every row has a key |
| BackupTheorems.PruneExact | app/backups/services.py:826-874 | a prune removes exactly the removable files past the window that no pre-restore row of the current ledger protects, and their ledger rows; contents and all other files and rows stay |
| BackupTheorems.PruneRest | app/backups/services.py:853-883 | of the JSON exports it removes exactly those of removed files that can be removed, and it logs the number of files, if any |
| BackupTheorems.PruneAgain | app/backups/services.py:813-884 | pruning twice at one time is pruning once |
| BackupTheorems.BackupIsComplete | app/backups/services.py:536-810 | a backup reported as taken is on disk, complete, and holds the database it was to save plus its own pending row; the pruning that follows has not taken it, and no other file was changed or added |
| BackupTheorems.FailedBackupFrame | app/backups/services.py:594-723 | a failed backup leaves contents, other rows and other files alone |
| BackupTheorems.BackupOutcomes | app/backups/services.py:536-743 | how each attempt ends in the ledger, the audit log and on disk |
| BackupTheorems.RestoreOutcomes | app/backups/services.py:966-1007 | what a restore reports before it comes to the load, exactly when, and what it logs |
| BackupTheorems.RestoreLogs | app/backups/services.py:1080-1187 | what it logs last, by result |
| BackupTheorems.RestoredIsTheDump | app/backups/services.py:1043-1141 | without the replay the database after a restore is the dump's with the restore logged |
| BackupTheorems.FailedRestoreKeepsContents | app/backups/services.py:992-1103 | a restore that stops before or in the load leaves the contents as they were, provided the load is all or nothing |
| BackupTheorems.ReplayFailsIff | app/backups/services.py:1154-1173 | exactly when a restore fails after the contents have been replaced |
| BackupManager.Manager.CreateBackup | app/backups/services.py:516-810 | row by row and file by file, a backup has the effect of the value-level step for every failure |
| BackupManager.Manager.ReplayExports | app/backups/services.py:1154-1187 | the replay upserts the export the restored row names, if any |
| Lockout.MaxAttempts | app/auth/services.py:95-100 | the configured limit, or 5 if it is no number, and never less than one |
| Lockout.WithoutExactly | app/auth/services.py:131-133 | clearing an email removes all its failures and keeps every other entry as often as it was there |
| Lockout.LogsExactly | app/auth/services.py:114-133 | what a login leaves in the log |
| Lockout.LoginGuard.ResetFailedAttempts | app/auth/services.py:131-133 | the deletion in place is that clearing |
| Lockout.LoginGuard.AuthenticateUser | app/auth/services.py:43-92 | a login answers from the log and the verdict: locked exactly with more than max failures of the email in the last 15 minutes, otherwise in exactly with the right verdict and refused with any other; the log gets the attempt, and a success clears the email's failures |
| Lockout.CountAfterOne | app/auth/services.py:43-92 | a login changes no count of another email; its own adds one failure or clears them all |
| Lockout.SuccessUnlocks | app/auth/services.py:90-92 | after a success the email is unlocked at any time |
| AvailabilityCache.Cache.GetCachedMatrix | app/admin/routes.py:607-634 | a hit hands out the cached object, a miss stores a fresh one, and no two keys share an object |
| AvailabilityCache.Cache.ServeAdminHome | app/admin/routes.py:356-364 | the dashboard's slice shortens the entry that stays in the cache |
| AvailabilityCache.Cache.ServeAvailabilityPage | app/admin/routes.py:652-660 | the page shows the entry as it is in the cache |

## Left out

Idempotency:
- A view that rolls the session back and then keeps working; the model assumes a view does not.
- The stored endpoint, which is never compared (app/idempotency/services.py:75), is carried but decides nothing.
- Hashing of the request body, JSON formatting and redaction of cached bodies; a body is a text of Unicode scalar values. A text with surrogates makes the encoding raise, which is the event Abandon.
- Callers outside the decorator: the administrators' bulk route continues past an in-progress row (app/admin/routes.py:3735-3773), and webhooks ignore the stored response.

Billing:
- The biller run by several processes at once: there is no lock in the code, so no guarantee across processes exists; runs are serial here.
- Fields assigned before a service error is raised and committed by someone else later; an error is a step without effect.
- Lease templates, invoice numbers and rendering, webhooks, notifications, audit rows.
- BillingTheorems.NoPeriodBilledTwice: does not cover invoices to which an edit gave another lease or period, because the claim is false for them; BilledAgainIff says exactly when.
- BillingTheorems.NewBillsCharge: is stated for default rates not below 0; with a negative rate in the settings a total can come out as nothing although there is a rent, and the insert hook then drops both (HookKeepsConsistency).
- Non-finite decimal texts, and amounts past the column width.
- The clean-up of descriptions, notes and currency texts; they are opaque, and a currency is accepted or not.

Occupancy:
- Occupancy percentages in floating point, labels, and the query windows of the other dashboard figures.
- Occupancy.TakenUnitsMatchWeekOverview: assumes that every stay is in a listed unit, because both overviews are over one organization.

Email:
- Several dispatchers at once, and an administrator acting in the middle of a cycle; the code takes no row lock.
- Rendering, trimming of recipients, and truncation of error texts.
- EmailTheorems.QueueDrains: allows a row to be left sending when a process dies in its delivery, because the code never picks such rows up again.

Settings and backups:
- JSON syntax and keys that are not texts; time zones of time stamps.
- The email-template export and its restore, which have the same shape as settings without secrets.
- The uploads archive, the off-site copy, notifications, and the size shown to the operator.
- BackupTheorems.FailedRestoreKeepsContents: rests on psql being all or nothing and on a dump that was cut short not loading. In the program (app/backups/services.py:1057-1077) such a dump ends the input of psql early, and what psql then makes of the part it has read is not modelled.
- IdempotencyStore.GetOrCreate: its rounds meet arbitrary tables; only the uninterrupted request is shown to be a run of the protocol (IdempotencyRefinement.DecoratorIsARun).
- Concurrent writes between the safe copy and the load; failures of the database while a prune runs.
- A settings export cut short by a failure; no file is kept of it.

Lockout:
- Normalization of the email, the audit rows, the address of the client, password and two-factor checks themselves.
- Logins running at the same time; each login here reads and writes the log without interruption.

Availability cache:
- The content of a matrix beside its list of properties, and eviction, which the code does not do.
- Threads serving requests at the same time in one process.

Rows of the lease, invoice, settings and backup tables are values in maps that the methods reassign; two references to one
row object, and the order of flushes inside one operation, are not captured there.

Elsewhere: HTTP routing, forms, PDF, CSV and spreadsheet output, search and GDPR export are plumbing or easy members.
