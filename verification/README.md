# Verified model of the mass-backup engine

Network devices are backed up in lots. The tasks of a lot compete for VPN group locks, one global VPN lock and a few
numbered slots per Jump Host (bastion); controllers adjust how many slots a bastion gets and stop using it when it
fails too often; a lot runs in three phases joined by callbacks, is declared finished by the check of a task that ends,
by a status request or by a stop of all backups, and may schedule one follow-up; a daily scheduler enqueues every
tenant's devices; progress is read by polling capped log lists. This project models that logic and proves what it keeps
in every run, together with two self-contained algorithms of the same repository: the MySQL dump reader of the
migration script and the greedy asset/device reconciliation.

One module per component:

- `LockProtocol` is a state machine of any number of workers over `ConnectionMode` (one effective mode per device):
  every interleaving is a run. The circuit breaker (`CircuitBreaker`), the slot controller (`SlotController`), the
  duration average and window sizing (`WindowSizing`), the log list (`LogStream`) and the schedule table
  (`DailyScheduler`) are classes whose methods are proved against a step function; the theorems are about runs of steps.
- `Binary64` is the floating-point arithmetic of the breaker's percentage, in integers; `FloatRatio` extends it to any
  positive ratio, as the slot count's product and quotient need it.
- `PhasePayload`, `PhaseCallbacks`, `LotPipeline` and `EndOfLot` follow a lot from its plan to its end, with status
  requests, cancels and stops between any two of its steps; `GroupRun` and `LotSnapshot` count its devices, `Interleave`
  is the bastion round-robin.
- `Calendar` and `NextRun` compute next runs in a zone with a fixed offset; `ConfigLines` is the configuration
  normaliser; `DumpReader` and `DumpRoundTrip` are the dump reader and a mysqldump-style printer; `Reconcile` is the
  greedy matching; `Text` and `Wrappers` hold the few Python string operations and the option type they share.

Each Redis lock acquisition or release, `SET NX`, `flock`, breaker check or record, log append and task-meta update is
one atomic step; a finalisation check and a status request are several, so that what they write can be out of date.
Times are integers or reals of one monotone clock. Regular-expression and message classifiers, the pair scorer, the
outcome of a backup and the stop requests are arbitrary inputs.

What the proofs brought out, where it differs from what one would expect of the code:

- The duration average is stored rounded to three digits, so it can leave the bounds of its samples. It stays inside
  exactly when rounding moves neither bound outwards (`BoundsKeptExactly`, `RoundingLeavesBounds`).
- `reset_circuit_breakers_for_new_batch` describes itself as clearing learnt slot reductions, but deletes only the
  streak and cooldown keys: the slot count survives (`ResetKeepsSlots`).
- The VPN callback launches its groups before it writes their ids into the lot. If all of them end before that write,
  every finalisation check has given up on an incomplete count. So in every undisturbed run some check finds the lot
  ended exactly when the plan defers no VPN groups (`EndSeenIffNoVpn`, `DeclaredIffNoVpn`). A lot whose end no check
  saw loses its follow-up for good (`SilentLosesFollowUp`, `FollowUpIffSeen`); a later status request can still show it
  as finished (`RefreshShowsEnd`).
- A status request writes back what it read: a slow one can take a finished lot's declaration away again
  (`StaleRefreshHides`), or a cancel, which would have kept the follow-up away (`StaleRefreshForgetsCancel`,
  `CancelStopsFollowUp`). After a cancel it can declare the lot while its tasks still run (`CancelShowsTooEarly`);
  without a cancel or a stop of all backups, which declares running lots itself, a declared lot has always ended
  (`DeclaredIsFinal`).
- The breaker's float percentage misses a threshold of 57 or 58 per cent that is met exactly (57 failures of 100 count
  as 56 per cent) and is exact everywhere else (`PercentAtLeast`, `FiftySeven`, `ThresholdHonoured`).
- The slot count rounds a float quotient up. For a batch that fills a whole number of windows it can ask for one slot
  too many, never for too few: 375 devices of 43.2 seconds fill nine windows of 1800 seconds and it asks for ten
  (`OneSlotTooMany`). It does so exactly when the decimal average was rounded up by more than half a digit of the total
  time divided by the devices (`CodeNeededExactly`).
- A group task that crashes only returns its error, which is stored after the task's own check. Until then the lot
  counts the group as a success, and a lot in which every failed task is like that is written as a success
  (`StatusWrongExactly`, `CrashedLotSucceeds`).
- A lot reaches its planned total exactly when its payloads are well formed (`CompleteIffWellFormed`); the planner's
  own payloads are (`PlanIsWellFormed`).
- The lock order is what keeps workers from deadlock: one job taking a slot before a VPN lock suffices for one
  (`UnorderedJobDeadlocks`), and the jobs of the two task types never do (`JobsAreOrdered`).

## Model

| member | source | states |
|---|---|---|
| DumpReader.MysqlUnescape | scripts/migrate_old_system_full.py:78-102 | the unescaping loop computes the left-to-right decoding of backslash escapes |
| DumpReader.IterInsertValueBlocks | scripts/migrate_old_system_full.py:118-150 | the block scanner yields the text between each INSERT needle and its closing semicolon outside strings and parentheses |
| DumpReader.IterBlocks | scripts/migrate_old_system_full.py:121-150 | the scan loop, whose position strictly grows |
| DumpReader.ParseValuesBlock | scripts/migrate_old_system_full.py:153-195 | the character loop computes the rows of one block as a run of the parser's state machine |
| DumpReader.ParseTableRows | scripts/migrate_old_system_full.py:198-203 | all rows of a table's blocks, in order |
| DumpRoundTrip.UnescapeEscape | scripts/migrate_old_system_full.py:78-102 | unescaping undoes every escaping a dump may choose, for any string |
| DumpRoundTrip.ScalarRoundTrip | scripts/migrate_old_system_full.py:105-115 | every printed cell (integer, NULL, any string) is recognised as the value it was printed from |
| DumpRoundTrip.ReadRows | scripts/migrate_old_system_full.py:153-195 | reading printed rows appends exactly those rows and never ends the block early, whatever the strings contain |
| DumpRoundTrip.PassStatement | scripts/migrate_old_system_full.py:118-150 | after text free of the needle the scanner reports exactly one statement's rows as a block and goes on behind it |
| DumpRoundTrip.DumpBlocks | scripts/migrate_old_system_full.py:118-150 | the blocks of a dump are its statements' row texts, one each, in order |
| DumpRoundTrip.DumpRoundTrip | scripts/migrate_old_system_full.py:198-203 | printing any rows into any number of INSERT statements and reading them back returns exactly those rows |
| Reconcile.BuildCandidates | scripts/maintenance/validate_group_comparison_readonly.py:222-230 | the nested loops score every asset/device pair once, in building order |
| Reconcile.ChoosePairs | scripts/maintenance/validate_group_comparison_readonly.py:231-247 | the loop over the sorted candidates chooses greedily and records the matched sides |
| Reconcile.Reconcile | scripts/maintenance/validate_group_comparison_readonly.py:222-254 | the output rows: chosen pairs, then assets and devices left alone |
| Reconcile.SortOrdered | scripts/maintenance/validate_group_comparison_readonly.py:231-231 | the sort permutes the candidates into descending score, ties in building order |
| Reconcile.PickIsMatching | scripts/maintenance/validate_group_comparison_readonly.py:235-247 | whatever is taken already, the loop chooses acceptable pairs with distinct ends |
| Reconcile.ChosenPairsMatch | scripts/maintenance/validate_group_comparison_readonly.py:222-247 | the chosen pairs form a matching over acceptable scored pairs |
| Reconcile.NoBetterPairLeft | scripts/maintenance/validate_group_comparison_readonly.py:222-247 | every acceptable pair shares an end with a chosen pair of at least its score |
| Reconcile.EachSideReportedOnce | scripts/maintenance/validate_group_comparison_readonly.py:222-254 | each asset and each device is in exactly one output row, and the rows are worth what the pairs are |
| Reconcile.RowsAreRight | scripts/maintenance/validate_group_comparison_readonly.py:235-254 | a row with both sides holds an acceptable pair with the very score and level of that asset and device; a row with one side has score 0 and no match |
| Reconcile.RowsAreMatching | scripts/maintenance/validate_group_comparison_readonly.py:235-254 | no two rows share an asset or a device |
| Reconcile.NoBetterRowMissing | scripts/maintenance/validate_group_comparison_readonly.py:222-247 | each acceptable pair meets a reported pair that scores more, or as much and was built no later |
| Reconcile.RowsInOrder | scripts/maintenance/validate_group_comparison_readonly.py:231-254 | pairs come first by falling score, then the assets left alone, then the devices, each in their order |
| Reconcile.HalfOptimal | scripts/maintenance/validate_group_comparison_readonly.py:231-247 | any matching that still fits beside what is taken is worth at most twice what the loop still collects |
| Reconcile.TotalIsHalfOptimal | scripts/maintenance/validate_group_comparison_readonly.py:222-254 | the reported total is at least half that of any matching over acceptable pairs |
| LockProtocol.JobsAreOrdered | app/tasks/backups.py:1869-1900 | under one effective mode per device no job takes a slot before a VPN lock |
| LockProtocol.SlotKeysDiffer | app/tasks/backups.py:1882-1890 | two groups compete for the same slots exactly when their normalised hosts and their ports agree |
| LockProtocol.InvAlongRun | app/tasks/backups.py:1904-2061 | locks, leases and workers agree in every state any interleaving of any number of workers reaches |
| LockProtocol.RunningHoldsItsNeed | app/tasks/backups.py:1993-2061 | in every reachable state a worker at a device holds a slot of exactly the bastion its current device needs, or none, and exactly the VPN locks its job asks for |
| LockProtocol.DeviceRunsWithItsLocks | app/tasks/backups.py:2368-2371 | while a single device runs, its worker has a slot of its group's host and port exactly when the mode is JumpHost through another machine, and the VPN locks exactly when the mode is Vpn |
| LockProtocol.GroupRunsWithItsLocks | app/tasks/backups.py:3214-3221 | the same for each device of a group task, under one VPN session when one of its devices or the caller asks for it |
| LockProtocol.BatchRunsInOrder | app/tasks/backups.py:3244-3303 | a group task turns to its devices in order and skips none |
| LockProtocol.DoneMeansDealt | app/tasks/backups.py:1936-2061 | a worker that ended without abandoning its job has dealt with each of its devices once |
| LockProtocol.LeaseLasts | app/tasks/backups.py:1993-2061 | a slot once taken stays the worker's for the whole time to live unless it gives it back |
| LockProtocol.AttemptsBounded | app/services/vpn_service.py:514-604 | a session tries to connect at most the configured number of times |
| LockProtocol.NoCircularWait | app/services/vpn_service.py:555-604 | while a worker is unfinished, some worker can take a step that is neither a failed poll nor giving up |
| LockProtocol.UnorderedJobDeadlocks | app/services/backup_executor.py:958-966 | the order is needed: a run with one job that takes a slot before a VPN lock ends in a deadlock |
| LockProtocol.SlotExclusion | app/tasks/backups.py:1936-2061 | two workers hold one slot of a bastion only if one of them has outstayed its lease |
| LockProtocol.SlotBound | app/tasks/backups.py:695-724 | the holders of a bastion within their lease, whatever others overstay, never exceed the largest slot count one of them resolved on entry, so never 16 |
| LockProtocol.DoneHoldsNothing | app/tasks/backups.py:1936-2061 | however a worker ended, it holds no slot and neither VPN lock |
| LockProtocol.ReleaseIsOwn | app/tasks/backups.py:2056-2061 | a release, even a late one, removes the worker's own lease and no other |
| LockProtocol.VpnExclusion | app/services/vpn_service.py:514-604 | one session per VPN group, and one in all unless workers are isolated |
| CircuitBreaker.JumpHostBreaker.Record | app/tasks/backups.py:1667-1682 | recording appends the outcome and renews the list's expiry |
| CircuitBreaker.JumpHostBreaker.Check | app/tasks/backups.py:1685-1769 | a check prunes, counts, perhaps opens, and answers as its step function |
| CircuitBreaker.JumpHostBreaker.CountWindow | app/tasks/backups.py:1710-1727 | the counting loop keeps the entries of the window and counts successes and failures among them |
| CircuitBreaker.JumpHostBreaker.PruneWindow | app/tasks/backups.py:1705-1740 | pruning leaves the pruned state of the step function and counts its window |
| Binary64.AtEquality | app/tasks/backups.py:1741-1746 | where the failures are exactly k per cent, the float percentage is that of k failures of 100 |
| Binary64.AtThreshold | app/tasks/backups.py:1741-1746 | of the thresholds 30 to 95, k failures of 100 reach k in floats except for 57 and 58 |
| Binary64.PercentAtLeast | app/tasks/backups.py:1741-1746 | up to 2^45 samples the float test equals the exact one, except at equality with 57 or 58 per cent |
| Binary64.FiftySeven | app/tasks/backups.py:1741-1746 | 57 failures of 100 count as 56 per cent |
| Binary64.DigitsKept | app/tasks/backups.py:1744-1744 | both rounded results have the 53 binary digits of the format |
| CircuitBreaker.TripsUnlessEqual | app/tasks/backups.py:1741-1746 | on each window the code's test and the exact one agree unless the failures are exactly the threshold and that is 57 or 58 |
| CircuitBreaker.ThresholdHonoured | app/tasks/backups.py:1741-1746 | the code's test is the exact one on all windows exactly when the threshold is neither 57 nor 58 |
| CircuitBreaker.RunSound | app/tasks/backups.py:1667-1769 | stored list and full history stay in agreement along any run under one monotone clock |
| CircuitBreaker.WindowIsHistory | app/tasks/backups.py:1705-1740 | the pruned list a check reads holds in its window exactly what the full history holds |
| CircuitBreaker.CheckMatchesHistory | app/tasks/backups.py:1685-1769 | a check refuses exactly when the breaker is open or the full history, cut to the window, trips the code's float test |
| CircuitBreaker.CheckMatchesPercentage | app/tasks/backups.py:1685-1769 | the same in exact percentages, but for thresholds of 57 and 58 met exactly |
| CircuitBreaker.RefusesExactly | app/tasks/backups.py:1685-1769 | over any run, told by its records and verdicts alone: a check refuses exactly while an earlier refusal keeps the breaker open or when the window trips it, with the retry time of either |
| CircuitBreaker.RefusalOpens | app/tasks/backups.py:1697-1765 | a refusal of a closed breaker at t makes every check until t + opening refuse with the time left, whatever comes in between but a reset; then the window decides again |
| CircuitBreaker.NoLockoutForever | app/tasks/backups.py:1697-1765 | with nothing recorded after t, every check from t + window + opening on admits |
| CircuitBreaker.OpenCheckChangesNothing | app/tasks/backups.py:1697-1703 | a check made while open changes nothing and never extends the opening |
| SlotController.JumpHostSlots.Adapt | app/tasks/backups.py:1576-1664 | one result updates streaks, cooldown and slot count as the step function |
| SlotController.JumpHostSlots.Reset | app/tasks/backups.py:335-385 | the reset deletes the streak and cooldown keys |
| SlotController.ChangesArePaid | app/tasks/backups.py:1576-1664 | raises times the success streak, and drops times the smaller failure streak, never exceed what was recorded for them |
| SlotController.StreaksExclude | app/tasks/backups.py:695-724 | in any run the two streaks are never both positive and every resolved count lies in 1..16 |
| SlotController.ChangesAreSpaced | app/tasks/backups.py:1576-1664 | between resets any two changes are at least the smaller cooldown apart |
| SlotController.SlotsMoveOnlyByChanges | app/tasks/backups.py:1576-1664 | the count moves only with a logged change: a raise adds one below the ceiling, a drop goes strictly down |
| SlotController.ResolveExactly | app/tasks/backups.py:695-724 | the stored count comes before the override and that before the base, within 1 and 16 |
| SlotController.FullStreakRaises | app/tasks/backups.py:1604-1628 | below the ceiling the success that completes a streak, and none before, raises the count by one and starts the regular cooldown |
| SlotController.NoRaiseAtCeiling | app/tasks/backups.py:1604-1628 | at the ceiling no success changes the count |
| SlotController.FullStreakDrops | app/tasks/backups.py:1630-1664 | the saturation that completes a streak, and none before, lowers the count by one with the regular cooldown, or when severe by two or to one with the severe cooldown |
| SlotController.Ignored | app/tasks/backups.py:1576-1603 | results in a cooldown, other failures and a switched-off controller change nothing |
| SlotController.StreaksBreak | app/tasks/backups.py:1604-1636 | a success ends a streak of saturations and the other way round |
| SlotController.ResetBeginsAnew | app/tasks/backups.py:335-385 | after a reset no streak and no cooldown is left |
| SlotController.ResetKeepsSlots | app/tasks/backups.py:335-385 | the reset keeps the learnt slot count |
| FloatRatio.RoundedDigits | app/tasks/backups.py:639-639 | a rounded ratio has a significand of 53 binary digits |
| FloatRatio.RoundedWithin | app/tasks/backups.py:639-639 | rounding moves a ratio by at most one part in 2^53 |
| FloatRatio.RoundsAbove | app/tasks/backups.py:639-639 | rounding carries a ratio above an integer exactly when it exceeds it by more than half a digit, and then by a whole one |
| FloatRatio.RoundedIsQuotient | app/tasks/backups.py:1744-1744 | a ratio of counts is rounded as the breaker's percentage rounds it |
| WindowSizing.CeilCovers | app/tasks/backups.py:639-642 | the exact need is the least count whose windows cover the devices' total time |
| WindowSizing.QuotientWithin | app/tasks/backups.py:639-639 | the three roundings together move the quotient by at most five parts in 2^53 |
| WindowSizing.WholeQuotient | app/tasks/backups.py:639-639 | where the batch fills k windows, the float quotient exceeds k exactly when the average's rounding up does; the division never undoes it |
| WindowSizing.CodeNeededExactly | app/tasks/backups.py:639-640 | up to sixteen windows the code asks for the exact need, or for one more exactly under that condition; beyond, both reach the cap |
| WindowSizing.OneSlotTooMany | app/tasks/backups.py:639-639 | 375 devices of 43.2 seconds need nine slots in windows of 1800 seconds and the code asks for ten |
| WindowSizing.FortyThreeIsStored | app/tasks/backups.py:597-597 | one backup of 43.2 seconds stores that very average |
| WindowSizing.StoredExactly | app/tasks/backups.py:597-633 | every stored average is the number of thousandths that the slot count reads |
| WindowSizing.WindowSlotsFit | app/tasks/backups.py:606-656 | the result lies between min(current, minimum) and current and covers the batch when below current; strictly between, it is the least count that does, or one more exactly under the stated rounding condition |
| WindowSizing.WindowSlotsLeast | app/tasks/backups.py:606-656 | without enough data the count stays; with it, no smaller count within the bounds covers the batch but the one that the stated rounding misses |
| WindowSizing.JumpHostDurations.Record | app/tasks/backups.py:565-603 | a successful backup moves the stored average by one capped, rounded exponential step |
| WindowSizing.MixMoves | app/tasks/backups.py:591-596 | an average moves towards the new sample by the configured share of their distance |
| WindowSizing.AverageMoves | app/tasks/backups.py:577-597 | the next stored average is the old one and that share, rounded, and the first is the sample |
| WindowSizing.AverageWithinRounded | app/tasks/backups.py:565-603 | for any durations, the average stays within the rounded bounds of the samples capped at the time limit; non-positive durations are ignored, and there is an average exactly when there is a sample |
| WindowSizing.BoundsKeptExactly | app/tasks/backups.py:565-603 | over all durations whose capped samples lie within bounds, it stays within them exactly when rounding moves neither outwards |
| WindowSizing.RoundingLeavesBounds | app/tasks/backups.py:565-603 | one sample of 1.0004 seconds is stored as 1 second |
| LogStream.LogList.Append | app/services/realtime_backup_logs.py:187-244 | an append numbers the entry, trims the list to its maximum and drops overdue entries |
| LogStream.LogList.PopOverdue | app/services/realtime_backup_logs.py:284-309 | head pruning removes exactly the leading overdue entries |
| LogStream.LogList.ClearTenant | app/services/realtime_backup_logs.py:450-496 | clearing a tenant keeps every other entry in order and reports how many went |
| LogStream.ScanRecentEntries | app/services/realtime_backup_logs.py:349-418 | the chunked backward scan with early exits equals filtering and taking the last `limit` |
| LogStream.LogList.Read | app/services/realtime_backup_logs.py:421-447 | reading a stored list gives that answer |
| LogStream.AppendWell | app/services/realtime_backup_logs.py:187-244 | appends, trims and pruning keep the list sequence-ordered and drawn from the history |
| LogStream.AppendKeeps | app/services/realtime_backup_logs.py:187-244 | an append stores the new entry last under the next number and drops from the front only the overdue up to the first that is not, and what has the maximum behind it |
| LogStream.CutoffIsKept | app/services/realtime_backup_logs.py:284-309 | an entry stamped at the cutoff or later is not overdue; an earlier, unstamped or unreadable one is |
| LogStream.ListIsLastWritten | app/services/realtime_backup_logs.py:210-244 | without clears and cutoffs the stored list is exactly the last entries appended, with their tenants, stamps and texts, up to the maximum |
| LogStream.EntrySurvives | app/services/realtime_backup_logs.py:210-309 | a stored entry that no clear and no cutoff touches stays until the maximum of newer ones was appended |
| LogStream.ArrivalsStored | app/services/realtime_backup_logs.py:210-309 | after at most the maximum of appends, none of which the run's own clears and cutoffs touch, all of them are stored |
| LogStream.DropOverdueIsSuffix | app/services/realtime_backup_logs.py:284-309 | pruning leaves a suffix that starts with an entry that is not overdue |
| LogStream.ClearWell | app/services/realtime_backup_logs.py:450-496 | clearing a tenant keeps the list well formed |
| LogStream.AnswerRises | app/services/realtime_backup_logs.py:349-418 | an answer holds wanted entries in rising order, newer than the cursor, none newer than the next cursor |
| LogStream.NothingLeft | app/services/realtime_backup_logs.py:349-418 | with a positive limit no wanted entry of the list stays behind the new cursor |
| LogStream.AnswerIsNewest | app/services/realtime_backup_logs.py:349-418 | a wanted entry is missing from an answer only if the answer is full and all its entries are newer |
| LogStream.CursorMoves | app/services/realtime_backup_logs.py:349-418 | the next cursor is the number of the last entry, or the old one when there is none |
| LogStream.CursorAhead | app/services/realtime_backup_logs.py:349-375 | a cursor at or beyond the counter is answered with the counter |
| LogStream.PollsRise | app/services/realtime_backup_logs.py:421-447 | over any number of polls a reader receives strictly rising sequence numbers, whatever later states it polls |
| LogStream.ReaderRises | app/services/realtime_backup_logs.py:187-496 | the same over any run of appends with pruning, clears and polls of one list |
| LogStream.PollsMissNothing | app/services/realtime_backup_logs.py:421-447 | a poll returns exactly what arrived since when at most `limit` wanted entries did and none was trimmed |
| LogStream.RunMissesNothing | app/services/realtime_backup_logs.py:187-496 | the same for the poll after any run of appends, pruning and clears |
| LogStream.RunReachesReader | app/services/realtime_backup_logs.py:187-496 | what a run appends reaches the reader: the next poll returns exactly the wanted ones among at most the maximum of appends that the run itself spares |
| ConfigLines.NormalizeConfigLines | app/services/backup_diagnostics.py:201-228 | both loops compute the normalised lines, and kept plus dropped equals the input line count |
| ConfigLines.NormalizedShape | app/services/backup_diagnostics.py:201-228 | stored lines are stripped on the right and not volatile, and no two blank lines follow each other |
| ConfigLines.ContentKept | app/services/backup_diagnostics.py:205-228 | every line that is neither volatile nor blank is stored, in order and once, and else only blank lines |
| ConfigLines.LoneReturnBreaks | app/services/backup_diagnostics.py:202-203 | a carriage return alone breaks a line |
| ConfigLines.NormalizeTwice | app/services/backup_diagnostics.py:201-228 | normalising a stored, non-empty result again is the identity and drops nothing |
| ConfigLines.VolatileLinesIgnored | app/services/backup_diagnostics.py:205-215 | volatile lines inserted anywhere never change the result, and are exactly what more is dropped |
| ConfigLines.VolatileLineInText | app/services/backup_diagnostics.py:202-215 | the same for one volatile line between arbitrary text with any line breaks |
| Interleave.FillBuckets | app/tasks/backups.py:1263-1265 | the buckets hold each bastion's items in input order, bastions in order of first appearance |
| Interleave.DealRound | app/tasks/backups.py:1271-1280 | one pass deals the next item of every bastion that has one, and at least one while any remains |
| Interleave.InterleaveByBastion | app/tasks/backups.py:1250-1280 | the loop ends and deals all rounds in order |
| Interleave.EachBastionInOrder | app/tasks/backups.py:1253-1258 | each bastion's items come out all, once, in input order, the n-th with the n-th countdown |
| Interleave.DealIsPermutation | app/tasks/backups.py:1263-1280 | the output is a permutation of the input |
| Interleave.RanksRise | app/tasks/backups.py:1253-1258 | item n of any bastion comes before item n + 1 of every bastion; countdowns are n * step and never go down |
| PhasePayload.SortedSetShape | app/tasks/backups.py:1307-1309 | a group's ids come out rising and without repetition, none lost |
| PhasePayload.BuildPayload | app/tasks/backups.py:1283-1318 | the payload has one entry per group with its sorted ids |
| PhasePayload.SplitByRoute | app/tasks/backups.py:3744-3758 | the planning loop routes each device by its effective mode |
| PhasePayload.PayloadCovers | app/tasks/backups.py:1301-1318 | a payload holds each of its devices once and no other |
| PhasePayload.PayloadDefers | app/tasks/backups.py:1283-1318 | a payload has one entry for each group with devices of its phase, with the group's id and exactly those devices |
| PhasePayload.RouteExactly | app/tasks/backups.py:3744-3758 | only devices of a group are deferred, by effective mode Vpn or JumpHost |
| PhasePayload.EachDeviceOnce | app/tasks/backups.py:3744-3763 | every device of a lot is planned on exactly one route, exactly once |
| PhaseCallbacks.CollectJumpEntries | app/tasks/backups.py:2649-2663 | the nested loops collect the devices of acceptable groups, skipping those seen |
| PhaseCallbacks.ChooseVpnGroups | app/tasks/backups.py:2839-2844 | the launch loop takes the groups with an id and devices |
| PhaseCallbacks.JumpEntriesShape | app/tasks/backups.py:2649-2663 | every device of an acceptable group is enqueued, and none twice |
| PhaseCallbacks.EntriesKeepGroups | app/tasks/backups.py:2649-2663 | each device is enqueued under a group of the payload that has it |
| PhaseCallbacks.JumpEntriesSize | app/tasks/backups.py:2649-2663 | never more devices are enqueued than planned, and as many exactly when the payload is well formed |
| PhaseCallbacks.VpnLaunchesSize | app/tasks/backups.py:2839-2853 | never more groups are launched than planned, and all exactly when each is acceptable |
| PhaseCallbacks.VpnLaunchesHave | app/tasks/backups.py:2839-2853 | exactly the acceptable groups are launched |
| PhaseCallbacks.EnqueuedOnce | app/tasks/backups.py:2667-2684 | dealing the devices over their bastions enqueues each exactly once |
| LotPipeline.PlanLot | app/tasks/backups.py:3744-3838 | the planner writes one child per direct group and lone device and a total that counts the deferred phases |
| LotPipeline.PlanExactly | app/tasks/backups.py:3744-3838 | by group and effective mode: each group's JumpHost devices are deferred to the Jump Host phase and its Vpn devices to the VPN phase, one entry per group; one task for each group with other devices and each device without a group; the total adds a task per JumpHost device and VPN group |
| LotPipeline.PhasesInOrder | app/tasks/backups.py:2552-2853 | in any run a phase launches its tasks only when every task of the phases before it has ended |
| LotPipeline.StopLaunchesNothing | app/tasks/backups.py:2584-2601 | while a stop or cancel is in force no phase launches anything |
| LotPipeline.PlanIsWritten | app/tasks/backups.py:3838-3868 | every written plan is a starting state of the results below |
| LotPipeline.StartJumpKeeps | app/tasks/backups.py:2552-2784 | the Jump Host callback keeps the total, the distinct task ids and the count of tasks to come, on each of its branches |
| LotPipeline.StartVpnKeeps | app/tasks/backups.py:2788-2853 | the same for the VPN callback up to its launches |
| LotPipeline.WriteVpnKeeps | app/tasks/backups.py:2872-2899 | writing the launched ids merges them without loss or repetition and keeps the total |
| LotPipeline.InvAlongRun | app/tasks/backups.py:1485-1573 | the invariant of tasks, counts, checks, status requests and flags holds in every state any interleaving reaches, with cancels, stops of all backups and stale refreshes |
| LotPipeline.SnapshotCountsFailures | app/tasks/backups.py:886-1093 | the snapshot of ended children counts all failures exactly when no failed child left its result unheard |
| LotPipeline.CountNeverExceedsTotal | app/tasks/backups.py:2649-2899 | children plus what is not enqueued yet never exceed the planned total, which never changes |
| LotPipeline.PollWriteKept | app/web/tenant/backups.py:51-333 | a refresh, however old what it read, keeps the invariant: while nobody cancels, its counters never claim more than has ended |
| LotPipeline.CancelStepKept | app/web/tenant/backups.py:907-953 | a cancel resets the declaration and keeps the invariant |
| LotPipeline.StopAllKept | app/web/tenant/schedules.py:473-508 | a stop of all backups declares each undeclared lot and keeps the invariant |
| LotPipeline.DeclaredIsFinal | app/tasks/backups.py:1485-1503 | a lot that a check found ended, or that is declared without ever being cancelled or stopped, has no phase pending and no task running, and stays so in every continuation |
| LotPipeline.StopAllDeclares | app/web/tenant/schedules.py:473-508 | a stop of all backups declares every lot at once, whether or not its tasks run, and sets the global stop |
| LotPipeline.CancelShowsTooEarly | app/web/tenant/backups.py:255-265 | the exception: from every state with all tasks launched, a cancel and one refresh declare the lot with no task ended in between |
| LotPipeline.CompleteIffWellFormed | app/tasks/backups.py:2715-2899 | after the last phase the children number the total exactly when the plan was well formed |
| LotPipeline.PlanIsWellFormed | app/tasks/backups.py:3744-3763 | with distinct devices and non-blank group ids the planner's payloads are well formed |
| LotPipeline.OneFollowUp | app/tasks/backups.py:1485-1573 | at most one follow-up, only by a bulk lot and only after a check found all its tasks ended; a reprocessing lot never schedules one |
| EndOfLot.EndIsSeen | app/tasks/backups.py:1485-1503 | in every undisturbed run of a plan without VPN groups to the end, some check finds the whole lot ended |
| EndOfLot.SilencingRun | app/tasks/backups.py:2849-2887 | every plan with VPN groups has an undisturbed run to the end in which no check does |
| EndOfLot.EndSeenIffNoVpn | app/tasks/backups.py:2849-2899 | a check sees the end in all undisturbed runs, whatever is polled, exactly when the plan defers no VPN groups |
| EndOfLot.DeclaredIffNoVpn | app/tasks/backups.py:2849-2899 | all undisturbed runs without a status request end declared exactly when the plan defers no VPN groups |
| EndOfLot.FollowUpIffSeen | app/tasks/backups.py:1504-1573 | an undisturbed bulk lot with candidates ends with its one follow-up exactly when a check saw its end |
| EndOfLot.SilentLosesFollowUp | app/tasks/backups.py:1485-1573 | when everything ended unseen, no continuation, polled or cancelled, lets a check see it or schedules a follow-up |
| EndOfLot.RefreshShowsEnd | app/web/tenant/backups.py:820-855 | a status request can declare any lot whose tasks are complete and ended; the follow-up stays as it was |
| EndOfLot.StaleRefreshHides | app/web/tenant/backups.py:842-849 | beside every run, one slow status request ends it with the lot not declared and all else the same |
| EndOfLot.CancelStopsFollowUp | app/tasks/backups.py:1504-1509 | a cancelled lot schedules no follow-up once the checks that read it before have ended, as long as no refresh writes |
| EndOfLot.StaleRefreshForgetsCancel | app/web/tenant/backups.py:842-849 | a refresh that read the lot before a cancel and writes after it takes the cancel back |
| EndOfLot.NoCandidatesNoFollowUp | app/tasks/backups.py:1526-1543 | without candidates no run schedules a follow-up |
| EndOfLot.SwitchedOffNoFollowUp | app/tasks/backups.py:1507-1509 | with follow-ups switched off no run decides on one |
| EndOfLot.RefreshCounts | app/web/tenant/backups.py:283-333 | each counter a refresh writes is the larger of what it saw and what it had read, and the declaration follows from the total |
| GroupRun.LoopDevices | app/tasks/backups.py:3244-3303 | success + failed equals the devices on normal and cancelled exits, success counts what succeeded before the first stop |
| GroupRun.RunGroup | app/tasks/backups.py:3050-3510 | every exit reports success + failed = total, but a crash and a missing or inactive group, which report only an error |
| LotSnapshot.CountChild | app/tasks/backups.py:1038-1093 | a child counts max(planned, reported) devices, split into succeeded and failed |
| LotSnapshot.CountedExactly | app/tasks/backups.py:1038-1093 | a child's devices are those it reports, and the missing ones counted as its own outcome is |
| LotSnapshot.BuildSnapshot | app/tasks/backups.py:1005-1135 | ready exactly when all tasks are known and ended; done = success + failed for tasks and devices; total >= done |
| LotSnapshot.DevicesConserved | app/tasks/backups.py:1023-1104 | devices done are skipped plus planned exactly when no child reports more than planned |
| LotSnapshot.SuccessMeansAll | app/tasks/backups.py:1095-1115 | a cancelled lot is stopped; another is a success exactly when nothing was skipped and every task succeeded |
| LotSnapshot.GroupChildConserved | app/tasks/backups.py:3050-3510 | a group task that ran at most its planned devices counts exactly its planned devices, however it ended; a crash counts as failed once its error is stored and as succeeded before |
| LotSnapshot.UnheardExactly | app/tasks/backups.py:886-897 | a failed child is read as a success exactly when its result is neither in its meta nor stored as a return value |
| LotSnapshot.StatusWrongExactly | app/tasks/backups.py:1105-1115 | the written status is wrong exactly when nothing was cancelled or skipped, some task failed, and every failed task is unheard; it is then success instead of failed |
| LotSnapshot.CrashedLotSucceeds | app/tasks/backups.py:3497-3519 | a lot whose only group crashed is written as a success by that group's own check |
| Calendar.NumberOfDate | app/services/schedule_utils.py:73-87 | counting days from year 1 and the day-number formula agree |
| Calendar.DateOfNumber | app/services/schedule_utils.py:73-87 | formula and counting are inverses on valid dates, leap years included |
| NextRun.RuleExactly | app/services/schedule_utils.py:61-75 | weekly and monthly in any case and padding give their rules with the day clamped or filled in, any other text the daily one |
| NextRun.TimeShows | app/services/schedule_utils.py:42-47 | an instant at a time of day shows that hour and minute |
| NextRun.ClockRead | app/services/schedule_utils.py:26-34 | two numbers and a colon are read as that time when they are one, and as none otherwise |
| NextRun.UnreadableIsDefault | app/services/schedule_utils.py:26-34 | a text that is no time stands for the default |
| NextRun.KnownDates | app/services/schedule_utils.py:63-87 | the calendar agrees with known weekdays and leap years |
| Text.StripShape | app/services/schedule_utils.py:61-61 | stripping removes all white space at both ends and nothing else |
| ConnectionMode.NamesExactly | app/services/connection_mode.py:13-20 | the names of the modes, in any case and padding |
| ConnectionMode.SubgroupDecides | app/services/connection_mode.py:29-58 | an active subgroup with a known type decides the mode |
| ConnectionMode.DeviceDecides | app/services/connection_mode.py:29-58 | else a known type in the device's own parameters does |
| ConnectionMode.GroupDecides | app/services/connection_mode.py:59-77 | else the group's type, then its Jump Host flag, then its VPN flag, and then it is direct |
| NextRun.ClockRoundTrip | app/services/schedule_utils.py:26-34 | a formatted time reads back as itself |
| NextRun.SanitizeTwice | app/services/schedule_utils.py:26-34 | sanitising always gives a readable time and sanitising again changes nothing |
| NextRun.DailyIsFirst | app/services/schedule_utils.py:37-47 | the first instant after the reference at the sanitised time, within a day |
| NextRun.WeeklyIsFirst | app/services/schedule_utils.py:63-71 | the first such instant on the clamped weekday, within seven days |
| NextRun.MonthlyIsFirst | app/services/schedule_utils.py:73-87 | the first such instant on min(target day, month length), with year roll-over and leap years |
| NextRun.NextRunIsFirst | app/services/schedule_utils.py:50-90 | in local time, compute_next_run_at returns the first instant after the reference that the schedule's rule names |
| NextRun.NextRunUtcIsFirst | app/services/schedule_utils.py:50-90 | the same for UTC instants in a zone with a fixed offset, within a day for daily and seven days for weekly schedules |
| DailyScheduler.MostCommonIsMost | app/tasks/backups.py:4012-4020 | no time is shared by more rows than the tenant's |
| DailyScheduler.MostCommonIsFirst | app/tasks/backups.py:4012-4020 | of the times shared by the most rows the first seen is the tenant's |
| DailyScheduler.EnqueueBatch | app/tasks/backups.py:4109-4146 | a batch's direct, Jump Host and VPN jobs with their countdowns |
| DailyScheduler.Schedule.Tick | app/tasks/backups.py:3966-4159 | a blocked run changes nothing; another adds rows, tidies them and runs a batch exactly when a row is due |
| DailyScheduler.BatchIffDue | app/tasks/backups.py:4061-4083 | a run that is not blocked runs a batch exactly when the next run of some row has come |
| DailyScheduler.EveryDeviceHasRow | app/tasks/backups.py:4030-4060 | after a run every enabled device has a row and the old rows keep theirs |
| DailyScheduler.QuietRunKeepsRows | app/tasks/backups.py:4061-4083 | a run without a batch keeps each next run, sanitises each time and fills in what was missing |
| DailyScheduler.MissingTimeIsTenants | app/tasks/backups.py:4061-4070 | a row without a time gets the time that the tenant's other rows have |
| DailyScheduler.NextBatchIsNextOccurrence | app/tasks/backups.py:4150-4157 | after a batch every row runs next at the first occurrence of its time after the following second, within a day |
| DailyScheduler.BatchAligns | app/tasks/backups.py:4150-4157 | after a batch all rows share one time and run next after now |
| DailyScheduler.TickFromAligned | app/tasks/backups.py:4030-4083 | a run without a batch keeps the rows aligned, one with a batch follows an occurrence of their time |
| DailyScheduler.OccurrenceBetweenBatches | app/tasks/backups.py:4012-4157 | between two batches of a tenant there is an occurrence of its daily time, with any runs and added devices in between |
| DailyScheduler.EachDueDeviceOnce | app/tasks/backups.py:4109-4146 | each device of a batch is enqueued exactly once across the three routes |
| DailyScheduler.BatchEnqueuesEligible | app/tasks/backups.py:4103-4146 | a batch enqueues exactly the tenant's devices that are not excluded, each once |
| DailyScheduler.BatchByMode | app/tasks/backups.py:4109-4146 | Vpn devices go into one job per group, JumpHost devices and all others each into their own, the n-th of the others 2 n seconds after the start |

## Left out

- A worker killed outright: leases then end by their time to live only, which the model has, but the VPN file locks
  are released by the operating system, which it does not.
- A holder that outstays the lock's time to live: exclusion is stated for holders within it.
- Update in place inside the lock protocol and the lot pipeline: both are state machines on values, so that every
  interleaving of steps is a run. The loops inside their calls are methods of `PhaseCallbacks`, `PhasePayload`,
  `Interleave`, `GroupRun` and `LotSnapshot`; order among the children of a lot is only that of their ids.
- Redis outages, and interleavings inside one task-meta update, breaker operation or log append.
- The planner's own window: tasks are sent before the plan is written, so that a callback may run, or a task may end and
  make its check, before that. The results start from the written plan; a direct task that ends earlier can leave even a
  lot without VPN groups unseen.
- Lots that were stopped: the pending phases are then not enqueued and the total stays higher, so only safety is
  claimed.
- EndOfLot.EndSeenIffNoVpn: is about runs in which no task ends without a check of its own; a task that is revoked,
  killed, or timed out after its check is a step of its own (`Vanish`), for which only safety is claimed.
- LotPipeline.StopAllKept: a stop of all backups also empties queues; the tasks lost there are tasks that never end, and
  the tenant lock it releases is left out.
- LotPipeline.PollWriteKept: takes a task to end well or badly once and for all, as the tasks' stored results do; that
  Celery forgets results or reports them late is modelled, a refresh that classifies one result in two ways is not. The
  pause between two refreshes, the device counters and the messages are left out.
- NetworkManager profile state: the VPN session cleans profiles even after a lock timed out, and the group VPN test
  connects without the locks.
- The per-tenant bulk lock: its get, delete and set are separate steps and it is off by default.
- LogStream.ScanRecentEntries: reads one snapshot of the list; the source asks for its length and its chunks separately.
- LogStream.LogList.Append: does not model the expiry of the counter and list keys; the list of a task and the global
  list are two instances.
- Binary64.PercentAtLeast: is proved for windows of up to 2^45 samples.
- WindowSizing.JumpHostDurations.Record: averages over the reals; float rounding and the expiry of the stored average
  are not modelled.
- WindowSizing.CodeNeededExactly: floats that overflow are not modelled, so device counts beyond some 10^300.
- DumpReader.ParseValuesBlock: decimal numbers keep their text instead of becoming floats; doubled quotes as an escape
  are outside the printer, and digits are ASCII digits.
- DumpRoundTrip.DumpRoundTrip: assumes that the INSERT text of the table does not occur in the text between its own
  statements.
- NextRun.NextRunIsFirst: assumes a fixed offset; daylight saving changes and years after 9999 are not modelled, and
  times are read with ASCII digits only.
- DailyScheduler.OccurrenceBetweenBatches: rows of devices disabled for a while are not modelled; such a row comes back
  with an old next run and makes its tenant due at once.
- PhasePayload.BuildPayload: keeps groups in order of first appearance; the source sorts them by name, which changes no
  count. The flag that forces the VPN mode of a group is not carried.
- LotSnapshot.BuildSnapshot: failure categories and their counts, messages and timestamps are left out.
- Reconcile.Reconcile: the scorer is any function to a non-negative score and a level; its evidence texts are left out.
- Which candidates a follow-up takes up: the follow-up step only asks whether there are any.
- Connecting, logging in and running backup scripts, message classification, SQL persistence, Celery delivery, web
  routes, templates, settings, quotas and metrics: foreign calls or properties much easier than the ones above.
