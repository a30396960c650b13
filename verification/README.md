# Verification of lss-collector

A Dafny 4.11 model of the collector of `lss`, the monitor of a local LLM server, and proofs of what
its parts promise together. `dafny verify dfyconfig.toml` checks all of it.

| file | part of the collector |
|---|---|
| `series.dfy`, `roller.dfy` | aggregates, buckets and the bucket accumulator |
| `db.dfy`, `rollup.dfy` | the tables and the pipeline that folds every 5 s sample into the one-minute and ten-minute tiers |
| `restart.dfy` | polls, crashes, pushes cut short and the replay at start-up |
| `losses.dfy` | what restarts lose, exactly, over every run |
| `backfill.dfy`, `upgrade.dfy` | the chunked back-fill of old databases beside the live loop, and what it leaves open |
| `counters.dfy` | what the tiers say about the engine's growing counters |
| `windows.dfy` | the token totals read back from the tiers, the seam between them, retention |
| `repair.dfy` | the in-place repair of impossible token buckets |
| `incidents.dfy` | the dedupe key of an Xid report, keyed inserts, the one-off merge of duplicates |
| `xid.dfy`, `xidscan.dfy` | the bounded journal read, and the whole scan protocol with its two persisted markers |
| `locks.dfy` | the lock order `db`, `shared`, `tailscale` and every thread's lock sites |
| `cmd.dfy` | one child process per guard |
| `bench.dfy` | one benchmark at a time, and the benchmark's own requests |
| `detect.dfy` | the two-phase port scan |
| `loadouts.dfy` | which configuration is served and what is measured of each |
| `query.dfy` | the query-string decoder and the status grid |

Code that changes things in place is a class or a method proved against a function on values
(`Roller`, `Pipeline`, `Db`, `Table`, `Poller`, `OwnLoad`, `Loadouts`, the repair, back-fill,
decoding and grid loops); the theorems are about those functions. Protocols between threads and
processes are step systems, and their theorems are about every state of every run.

Conventions. Tables are maps on their primary keys. All sums are reals: rounding is not modelled.
A sample is its time, the numbers it carries by itself, the engine's growing counters and the
gateway's log; each metric name occurs once in a sample. What a query, a clock, an engine or
`nvidia-smi` answers is an arbitrary input. Automatic induction is switched off on every lemma it
would apply to.

## Where the code and its own words differ

The model follows the code.

- All time is "never counted twice" (`query.rs`, `tokens_doc`): false for a ledger seeded at
  start-up (`main.rs:474-491`). It is filled from the whole ten-minute history but dated to the
  oldest raw sample, so history older than that is added a second time. `SeededLedgerCountsOlderTwice`
  has the exact condition.
- Retention changes neither the 24-hour nor the seven-day total of `/tokens` (`PruneKeepsTotals`) but
  lowers its all-time row (`PruneLowersAllTime`). It makes a window's figures vanish when nothing
  generated is left in the tier - zero tokens become no figure - and can shorten a window's stated
  coverage (`PruneAndWindow`, exactly when; `PruneVanishesExample`, `PruneCoverageExample`,
  `PruneAllTimeExample`).
- "A restart costs the tiers nothing" (`main.rs:390-391`): true for metrics a sample carries by
  itself, when the restart falls in the ten-minute window of the last stored sample and no push that
  was to close a window was cut short. `RestartExactly`, `RestartGateExactly` and `RestartAnyMetric`
  say for every run, from its events, which rows are missing or short at the end. Three ways to lose
  something:
  - a restart in a later window: the open rows of both tiers (`LateRestartLosesTheOpenRow`,
    `LateRestartExample`);
  - a death inside the push of the sample that opens a new window. The sample is stored
    (`main.rs:970`) before it is pushed (`main.rs:1035`), so the next start replays the new window
    only: of the closed window's rows just those the push got written remain (`TornPushExactly`,
    `TornAtTheBoundary`);
  - a metric computed against the previous sample: one step of it (`RestartCostsOneStep`,
    `CounterStepExample`).
- The back-fill of an old database ends without closing its own last bucket, and the replay does not
  reach it: the bucket of the last sample before the window of the first start is missing in both
  tiers and the gate log, and - but for the step a counter loses at any restart - nothing else is
  (`UpgradeExactly`, `UpgradeGateExactly`, `UpgradeExample`).
- "The oldest row stays" after the duplicate merge (`db.rs:204-206`): not when a younger row already
  had the key (`OldestStaysExactly`, `YoungerRowStays`).
- The back-fill and the hot path "can never double-book" (`db.rs:189-191`): they can when
  `nvidia-smi` answered them differently about the PCI address - one knew its index and the other did
  not, or the cards were renumbered in between -, since the label is part of the key
  (`BookedTwiceExactly`, `BookedTwiceExamples`). For the same reason two cards' reports of one number
  and second can share a row (`SharedRowExactly`, `SharedRowExample`).
- "The kernel journal was read on this poll (the Xid scan is current up to `sample.ts`)"
  (`collect.rs:173`), and the back-fill's marker "is cleared only when the read completed"
  (`main.rs:1373-1374`): both scripts end in `; true` (`collect.rs:36`, `collect.rs:111`) and no exit
  status is looked at (`collect.rs:466`, `cmd.rs:145`), so a `journalctl` that fails at once counts as a
  read that found nothing. The mark advances, or the marker goes, over reports nobody read
  (`UnreadableCountsAsRead`, `MarkerClearedUnread`). `XidScanSafety` names these lines: those a read of
  their span answered without. With complete reads the scan loses nothing but gap back-fills
  (`CompleteReadsLoseNothing`).
- Token counts are taken "never across two samples that carry different sets of counters"
  (`series.rs:196-197`): what is compared is the version of the sample's format. A counter that the
  engine begins to publish in between reads as 0 before, and its whole life is booked in one step
  (`NewCounterBooksItsLife`, `NewCounterExample`).
- "Every bucket whose start falls inside this minute" (`query.rs:97`): the code fills every slot the
  minute overlaps (`OverlapIsStartInside`, `OverlapExample`). On the one grid it is called with, whole
  half minutes, the two are the same (`StatusPageAgrees`).
- A comment at `main.rs:1251` names the order `shared -> db`; the declared rule and the code are
  `db`, `shared`, `tailscale`.
- A plain process has no start time, so the back-fill of a new loadout counts every raw sample still
  stored, also those of other loadouts (`FirstSightCountsAgain`, `PlainProcessCountsAgain`). While
  the machine does not identify itself, samples go on counting for the loadout last known.
- The decoder reads `%+A` as one byte, because the hexadecimal parser accepts a sign (`SignedEscape`).
- The scan that skips a proxy's port "only ever skips work `rank()` would have undone anyway"
  (`detect.rs:67-69`): true exactly under the condition of `TwoPhaseIsFull`; a second engine with the
  first one's model is missed (`SecondEngineMissed`).

## Model

| member | source | states |
|---|---|---|
| `Series.Bucket` | crates/lss-core/src/series.rs:353-353 | the aligned instant with `ts` in its bucket: at or before it, less than `res` seconds before, a whole multiple of the tier |
| `Series.BucketIsRemEuclid` | crates/lss-core/src/series.rs:353-353 | that instant is `ts - ts.rem_euclid(res)`, also for negative times |
| `Series.FoldSummarises` | crates/lss-core/src/series.rs:91-105 | merging values one by one gives their sum, their count, and a least and a greatest value that occur |
| `Series.FoldConcat` | crates/lss-core/src/series.rs:100-105 | folding two runs of values together is merging their folds |
| `Series.RowRoundTrip` | crates/lss-core/src/series.rs:96-108 | storing an aggregate as average and count and reading it back gives the same aggregate if and only if it holds at least one value |
| `Series.StoredIsAverage` | crates/lss-core/src/series.rs:91-108 | what is stored of a bucket is the average of its values, their extremes and how many they are |
| `Rollers.Roller.AddPoints` | crates/lss-core/src/series.rs:352-365 | one call of `add`: the new state and the batch handed out, tied to the reference step; a batch only when a later bucket starts |
| `Rollers.Roller.MergePoints` | crates/lss-core/src/series.rs:356-363 | every point of the sample merged once, other metrics untouched |
| `Rollers.Roller.Flush` | crates/lss-core/src/series.rs:367-371 | takes the open bucket; nothing when nothing was accumulated |
| `Rollers.ClosedRowsStep` | crates/lss-core/src/series.rs:352-365 | one more in-order sample adds to the reference rows exactly the batch handed out, and that batch meets no earlier row |
| `Rollers.HoldsOpenStep` | crates/lss-core/src/series.rs:352-365 | after every sample the accumulator holds the fold of exactly the newest bucket's raw values |
| `Store.Db.WriteRollup` | crates/lss-collector/src/db.rs:352-360 | one batch: all its rows replace what is there, or only fill what is missing; every other row unchanged |
| `Store.Db.WriteGatelog` | crates/lss-collector/src/db.rs:432-439 | an empty log is never stored; a row already there survives unless `replace` |
| `Store.Db.InsertSample` | crates/lss-collector/src/db.rs:167-171 | keyed by time: the table stays ordered, one sample per time, the new one in its place |
| `Store.Db.EachSample` | crates/lss-collector/src/db.rs:374-384 | exactly the stored samples of `[from, to)`, oldest first |
| `Store.Db.FirstSampleAtOrAfter` | crates/lss-collector/src/db.rs:386-388 | the least stored time at or after `from`, or none exactly when there is none |
| `Store.InsertedMeaning` | crates/lss-collector/src/db.rs:167-171 | an insert keeps order and everything but a sample of the same time |
| `Store.BetweenSplit` | crates/lss-collector/src/db.rs:374-384 | two adjacent ranges read one after the other are the whole range |
| `Rollup.Pipeline.Push` | crates/lss-collector/src/rollup.rs:40-61 | one sample into both tiers and the gate log: whole new state and tables |
| `Rollup.Pipeline.Replay` | crates/lss-collector/src/rollup.rs:33-37 | the stored samples pushed in order without overwriting |
| `Rollup.PushedAllClosedForm` | crates/lss-collector/src/rollup.rs:40-61 | pushing any in-order stream writes exactly the reference rows - over what is there with `replace`, under it without - and leaves the pipeline holding exactly the open buckets |
| `Rollup.RollupRefinement` | crates/lss-collector/src/rollup.rs:40-61 | each tier has a row for exactly the (metric, bucket) pairs touched in buckets older than the newest sample's, and each row summarises exactly the raw values of its bucket |
| `Rollup.TenMinutesAreTheirMinutes` | crates/lss-collector/src/rollup.rs:40-61 | every closed ten-minute row is the merge of its ten one-minute rows, present if and only if one of them is |
| `Rollup.GateLogRefinement` | crates/lss-collector/src/rollup.rs:52-58 | the gate log has a row for exactly the closed buckets in which something was logged, holding the merged logs of its samples |
| `Rollup.GateLogCounts` | crates/lss-core/src/gatelog.rs:312-330 | counter by counter, said without the merge: a bucket has a row if and only if it is closed and some sample in it counted something, and each of the four counters of the row is the sum over the bucket's samples |
| `Rollup.PushedAllConcat` | crates/lss-collector/src/rollup.rs:33-61 | pushing in two instalments is pushing once |
| `Restarts.RestartTransparency` | crates/lss-collector/src/rollup.rs:30-61 | after any run of polls, crashes between polls and pushes cut short inside a window, each restart in the ten-minute window of the last sample: pipeline and tables agree with the collector that never died, on every metric a sample carries by itself |
| `RestartLosses.RestartExactly` | crates/lss-collector/src/main.rs:390-394 | after any run of polls, crashes anywhere and restarts at any later time: a tier row of a metric a sample carries by itself is there, and right, if and only if the collector that never died has it and no start came after its window while it was unwritten - its bucket not closed by the samples stored before that start, or closed only by a cut-short push that had not written it |
| `RestartLosses.LostIsTheOpenRow` | crates/lss-collector/src/main.rs:390-394 | of the rows something was put into, such a start loses exactly those of the last sample's bucket, and of the bucket a cut-short push was closing those it had not written |
| `RestartLosses.RestartAnyMetric` | crates/lss-collector/src/main.rs:390-394 | the same for any metric and any run: a row is as the collector that never died has it if and only if its bucket is not closed, or it was lost but never touched, or it was not lost and no start of its own window found it unwritten or that window's first sample says the same of it alone |
| `RestartLosses.RestartGateExactly` | crates/lss-collector/src/main.rs:390-394 | for every row of the gate log: there, and right, if and only if the collector that never died has it and no start came after its window while it was unwritten |
| `RestartLosses.TornPushExactly` | crates/lss-collector/src/rollup.rs:40-61 | a push cut short, whatever happens afterwards: a row from before the window the next start replays is there in the end if and only if it got written, and then it is the new one, or was stored already, and then it is as it was; the gate-log row is there likewise |
| `RestartLosses.TornAtTheBoundary` | crates/lss-collector/src/main.rs:970-1035 | samples at 0 and 600, the second one's push cut short before it wrote, a start at 600: both tiers' rows and the gate-log row of time 0 are gone for good |
| `RestartLosses.TornRunIsTimely` | crates/lss-collector/src/main.rs:970-1035 | that run can happen: two samples in order and a start not before the second |
| `Restarts.ReplayRecovers` | crates/lss-collector/src/main.rs:390-394 | one restart: replaying the current window over whatever rows of it survived gives back both tiers, the gate log and the open buckets |
| `Restarts.LateRestartLosesTheOpenRow` | crates/lss-collector/src/main.rs:390-394 | the open row of either tier, which the collector that never died writes if and only if a sample touched it, is written after a restart if and only if it was touched and the restart fell in the window of the last sample |
| `RestartLosses.LateRestartExample` | crates/lss-collector/src/main.rs:390-394 | a sample at 0, a start at 600: both tiers' rows are lost |
| `Restarts.RestartCostsOneStep` | crates/lss-collector/src/main.rs:390-394 | for any metric, also one computed against the previous sample, and any row of the restart's window in either tier: it comes out right after a restart if and only if it was stored already or the window's first sample says the same of that bucket with and without the sample before it |
| `RestartLosses.CounterStepExample` | crates/lss-collector/src/main.rs:390-394 | five tokens counted between 595 and 600 are in no ten-minute row after a restart at 600 |
| `Backfilling.Backfill` | crates/lss-collector/src/rollup.rs:83-105 | the hour-chunk loop ends having pushed every stored sample before `until` exactly once, in order, whatever the gaps: the one-pass fold; existing rows are kept; the count is the samples read |
| `Backfilling.BackfillHour` | crates/lss-collector/src/rollup.rs:88-102 | one chunk: from the first stored sample to the end of its hour, capped at `until`; stops exactly when none is left |
| `Backfilling.ChunkFollows` | crates/lss-collector/src/rollup.rs:90-94 | nothing stored lies between two chunks |
| `Backfilling.InterleavingIsIrrelevant` | crates/lss-collector/src/rollup.rs:80-105 | live writes and back-fill writes in any interleaving: every live row wins, every other row comes from the table or the first fill |
| `Backfilling.BackfillInterleaved` | crates/lss-collector/src/rollup.rs:80-105 | with live writes anywhere between the back-fill's, the result is the live rows over the old rows over the one-pass fold, in the tiers and in the gate log |
| `Backfilling.LiveWrites` | crates/lss-collector/src/rollup.rs:40-61 | the batches the live loop hands out for a stream, written over a table in order, are that table after the stream |
| `Upgrades.UpgradedInAnyOrder` | crates/lss-collector/src/main.rs:616-635 | the first start on a database without tiers: replay, then the live loop's batches and the back-fill's, each in its own order, end in the same tables however they interleave |
| `Upgrades.UpgradeExactly` | crates/lss-collector/src/main.rs:616-635 | those tables hold every row of the collector that had always written them, except exactly the rows, of either tier, of the bucket in which the last sample before the start's window lies; older rows for every metric, those from the start's window on for metrics a sample carries by itself |
| `Upgrades.UpgradeGateExactly` | crates/lss-collector/src/main.rs:616-635 | the same, for the gate log |
| `Upgrades.UpgradeExample` | crates/lss-collector/src/rollup.rs:80-105 | a sample at 0, the first start at 600: its rows and its log are nowhere |
| `Windows.SumCountsRawOnce` | crates/lss-collector/src/db.rs:711-715 | a tier's sum over any span is the sum of the raw points of its whole closed buckets, each once |
| `Windows.SeamExactness` | crates/lss-collector/src/query.rs:306-318 | the seven-day total counts every raw point from its first whole ten-minute bucket to the newest closed bucket exactly once across the seam |
| `Windows.DayIsExact` | crates/lss-collector/src/query.rs:306-318 | the 24-hour total counts every raw point of the whole closed minutes of the last day exactly once |
| `Windows.WeekAtLeastDay` | crates/lss-collector/src/query.rs:306-318 | the seven-day total is never below the 24-hour one |
| `Windows.AllTimeAddsOnlyOlder` | crates/lss-collector/src/query.rs:336-343 | the all-time row adds to the ledger only buckets that ended before it began, each raw point once |
| `Windows.SeededLedgerCountsOlderTwice` | crates/lss-collector/src/main.rs:474-491 | a ledger seeded from the history and dated to the oldest raw sample is right if and only if no bucket that ended before that date holds anything |
| `Windows.SeededLedgerHoldsAll` | crates/lss-collector/src/main.rs:474-491 | the seed itself is the sum of every raw point of the closed ten-minute buckets, once |
| `Windows.SeededLedgerExample` | crates/lss-collector/src/main.rs:474-491 | five stored tokens shown as ten; the bucket that begins with the start-up itself is in the seed |
| `Windows.WindowsAreNested` | crates/lss-collector/src/tokens_run.rs:33-64 | hour <= day <= week in every figure, coverage between nothing and the window's length, and no figure exactly when nothing was recorded |
| `Windows.WindowFigures` | crates/lss-collector/src/tokens_run.rs:33-43 | each of the four figures of a window is the sum of the raw points of its own metric over the whole closed buckets since the window's start, and the coverage goes back to the oldest row or that start |
| `Windows.PrunedExactly` | crates/lss-collector/src/db.rs:312-318 | under the default retention exactly the minute rows older than fourteen days and the ten-minute rows older than ninety go |
| `Windows.PruneKeepsTotals` | crates/lss-collector/src/db.rs:312-318 | under the default retention pruning changes neither the 24-hour nor the stitched seven-day total |
| `Windows.PruneAndWindow` | crates/lss-collector/src/tokens_run.rs:33-43 | pruning and one window of either tier: the figures stay if and only if nothing was ever recorded or something recorded is kept; the coverage stays if and only if, besides, the oldest row was kept or the oldest left reaches back to the window's start |
| `Windows.PruneKeepsWindows` | crates/lss-collector/src/tokens_run.rs:33-64 | the figures of hour, day and week (minutes) and month (ten minutes) each survive pruning exactly when nothing was ever recorded in that tier or something recorded is kept |
| `Windows.PruneVanishesExample` | crates/lss-collector/src/tokens_run.rs:33-43 | a collector idle for fifteen days: a fully covered hour without tokens becomes no figure at all |
| `Windows.PruneCoverageExample` | crates/lss-collector/src/tokens_run.rs:33-43 | a covered hour becomes half a covered hour |
| `Windows.PruneLowersAllTime` | crates/lss-collector/src/db.rs:312-318 | the all-time row falls by exactly the sum of what pruning removed before the ledger |
| `Windows.PruneAllTimeExample` | crates/lss-collector/src/query.rs:336-343 | five tokens shown until they are ninety days old |
| `CounterGrowth.TiersNeverNegative` | crates/lss-core/src/series.rs:171-230 | over any stream, with engine restarts, gaps and changed counter sets, no tier ever holds a negative count |
| `CounterGrowth.StepExactly` | crates/lss-core/src/series.rs:171-230 | one step of a counter, exactly: a point if and only if it did not go back, both samples are of one version, in order and at most a minute apart; and then it is the difference |
| `CounterGrowth.StepExamples` | crates/lss-core/src/series.rs:171-230 | a step over sixty seconds counts, one over sixty-one does not, nor one back, nor the first sample |
| `CounterGrowth.PointsAddUp` | crates/lss-core/src/series.rs:171-230 | over a steady stretch the raw points of a counter add up to exactly how far it got |
| `CounterGrowth.NewCounterBooksItsLife` | crates/lss-core/src/series.rs:196-213 | a counter the sample before did not report becomes one point of its whole value if and only if both samples are of one version |
| `CounterGrowth.NewCounterExample` | crates/lss-core/src/series.rs:196-213 | a million tokens in five seconds |
| `CounterGrowth.TierHoldsCounterGrowth` | crates/lss-core/src/series.rs:171-230 | the closed buckets of either tier add up to exactly the counter's growth from the first sample to the last one before the open bucket |
| `TokenRepair.RepairImpossibleTokenBuckets` | crates/lss-collector/src/db.rs:642-677 | nothing unless both metrics are known; else every bad bucket once, each spread and deleted, and the report: of each, what it held and what was placed back |
| `TokenRepair.FindBad` | crates/lss-collector/src/db.rs:645-655 | lists exactly the impossible buckets, each once |
| `TokenRepair.FindHoles` | crates/lss-collector/src/db.rs:657-666 | the loop finds the cells a repair fills and sums up their prompts; `RepairedExactly` says which those are |
| `TokenRepair.RepairOne` | crates/lss-collector/src/db.rs:657-674 | one bad bucket: totals of the whole table, the amount put back - the lesser of the bucket and the prompts of the earlier buckets without cached tokens - and what each written row looks like |
| `TokenRepair.RepairedExactly` | crates/lss-collector/src/db.rs:657-674 | one repair, said on the cells before and after: one share between nothing and all, every earlier bucket of the tier with prompts and no cached tokens gets that share of its prompts, and that share of all those prompts is the lesser of the bucket and the prompts; the bucket goes; no other cell changes |
| `TokenRepair.ImpossibleExamples` | crates/lss-collector/src/db.rs:643-655 | the bucket the repair was written for is bad; one exactly at either limit, in either tier, is not |
| `TokenRepair.RowIsWorthItsSum` | crates/lss-collector/src/db.rs:646-650 | the product read of a stored row, average times count, is the sum of the values stored in it |
| `TokenRepair.RepairLeavesNoneImpossible` | crates/lss-collector/src/db.rs:631-677 | afterwards no bucket of either tier is impossible, whatever the order |
| `TokenRepair.RepairConserves` | crates/lss-collector/src/db.rs:667-674 | each tier's cached total changes by exactly the sum of put back minus removed, put back being the lesser of the bucket and the prompts of the earlier buckets without cached tokens; by nothing when these were enough |
| `TokenRepair.RepairTouchesOnlyHoles` | crates/lss-collector/src/db.rs:656-674 | other metrics keep their rows; a changed cached cell was bad, or lies before a bad bucket, had prompts, said nothing, and now says no more than was read |
| `TokenRepair.RepairTwice` | crates/lss-collector/src/db.rs:631-677 | a second run finds and changes nothing |
| `Incidents.XidKeyInjective` | crates/lss-core/src/incidents.rs:57-59 | two reports share a key only if label, number and time are equal, whatever the label contains |
| `Incidents.BookedDetailGivesItsKey` | crates/lss-core/src/incidents.rs:63-68 | the wording an Xid is booked under gives back the key it was booked with |
| `Incidents.KeyReadExactly` | crates/lss-core/src/incidents.rs:63-68 | for any wording whatever: it gives a key if and only if it reads as a label that is not empty, the first ` Xid `, a run of digits below 2^32 and anything else; and the key is made of that label without blanks around it, that number and the row's start |
| `Incidents.TrimMeaning` | crates/lss-core/src/incidents.rs:67-67 | trimming takes the blanks off both ends and nothing else |
| `Incidents.WhiteIsListed` | crates/lss-core/src/incidents.rs:67-67 | the blanks are the twenty-five characters of Unicode's White_Space |
| `Incidents.LabelsArePlain` | crates/lss-core/src/xid.rs:20-25 | both kinds of label meet the condition of the previous row, for any address without blanks other than the word `Xid` itself |
| `IncidentTable.BookedKeepsKeysUnique` | crates/lss-collector/src/db.rs:192-202 | a keyed insert adds its key and nothing else, once; existing rows unchanged; uniqueness kept |
| `IncidentTable.BookedRow` | crates/lss-collector/src/db.rs:189-202 | a new event is one more row that begins and ends at its time, of its kind, wording and key; a known one changes nothing; none is new twice |
| `IncidentTable.UnkeyedIsKnown` | crates/lss-collector/src/db.rs:189-202 | an event without a key is known if and only if a row has its kind, time and wording |
| `IncidentTable.Table.EventIncident` | crates/lss-collector/src/db.rs:192-202 | inserts unless the event is known, and says which |
| `IncidentTable.Table.MergeDuplicateXids` | crates/lss-collector/src/db.rs:207-229 | walks the unkeyed Xid rows oldest first and leaves the merged table; returns how many rows went |
| `IncidentTable.Table.UnkeyedXids` | crates/lss-collector/src/db.rs:208-212 | exactly the Xid rows without a key, in id order |
| `IncidentTable.MergedAllRow` | crates/lss-collector/src/db.rs:214-227 | what becomes of every single row, said without walking |
| `IncidentTable.MergeKeepsEveryKeyOnce` | crates/lss-collector/src/db.rs:204-229 | no two rows share a key afterwards, and the keys are exactly those present or derivable before |
| `IncidentTable.EveryXidIsKeyed` | crates/lss-collector/src/db.rs:208-216 | whatever Xid row had no key but a wording that gives one, its key is there afterwards |
| `IncidentTable.MergeTouchesNothingElse` | crates/lss-collector/src/db.rs:204-229 | rows of other kinds and rows without a derivable key are unchanged; keyed rows change in wording only |
| `IncidentTable.MergeKeeper` | crates/lss-collector/src/db.rs:216-225 | the row that stays is the keyed one, else the oldest of the event |
| `IncidentTable.MergeWording` | crates/lss-collector/src/db.rs:217-220 | it has the wording of the newest row that had no key |
| `IncidentTable.OldestStaysExactly` | crates/lss-collector/src/db.rs:204-206 | the oldest row stays if and only if no younger row of the event already had the key |
| `IncidentTable.YoungerRowStays` | crates/lss-collector/src/db.rs:204-206 | a row without a key and a younger keyed one of the same event: the younger stays |
| `IncidentTable.MergeTwice` | crates/lss-collector/src/db.rs:204-229 | a second run removes nothing |
| `HotPath.HotWindow` | crates/lss-collector/src/collect.rs:42-49 | from five seconds before the last read, never more than ten minutes back; a gap exactly when that cuts something off, and window and gap adjoin |
| `HotPath.Poller.Poll` | crates/lss-collector/src/collect.rs:510-525 | one journal read: the fresh lines, the dedupe queue, the new read point, the gap only when the read worked |
| `HotPath.FreshMeaning` | crates/lss-collector/src/collect.rs:514-520 | exactly the lines not seen before, each once |
| `HotPath.ForgetMeaning` | crates/lss-collector/src/collect.rs:523-525 | lines are forgotten from the front of the queue while they are older than fifteen minutes; no younger line is |
| `HotPath.ReadsAndGapsCover` | crates/lss-collector/src/collect.rs:42-49 | over any run of polls the windows of the reads that answered and the reported gaps cover every second up to the last of them |
| `HotPath.GapsAreDisjoint` | crates/lss-collector/src/collect.rs:554-555 | a gap is reported once |
| `XidScan.InvStep` | crates/lss-collector/src/main.rs:553-563 | every step of the scan - kernel line, clock, start, poll, gap, booking, mark, back-fill success or failure, pruning, crash - keeps the accounting of every line |
| `XidScan.XidScanSafety` | crates/lss-collector/src/main.rs:553-563 | in every state of every run, whatever part of its span each journal read lists, each kernel line before the persisted scan mark and not older than seven days at the newest start is booked, or owed by the persisted marker, or in a gap back-fill, or was left out by a read of its span that answered |
| `XidScan.YoungRowStands` | crates/lss-collector/src/db.rs:312-320 | what is booked has its row in every state of every run, until pruning may take it after ninety days |
| `XidScan.NothingOwedNothingMissing` | crates/lss-collector/src/main.rs:1375-1418 | with the marker gone and no gap back-fill pending, failed or dead, everything before the newest poll whose read answered and whose lines were booked, or before the newest start, is booked or was left out by a read of its span that answered |
| `XidScan.CompleteReadsLoseNothing` | crates/lss-collector/src/main.rs:1375-1418 | while every read that answers lists all of its span, the last case of both cannot happen |
| `XidScan.GapsAreReported` | crates/lss-collector/src/collect.rs:554-555 | every gap that counts as accounted for is one that some poll left between two of its reads |
| `XidScan.MarkKeepsUp` | crates/lss-collector/src/main.rs:954-955 | at the end of a poll whose journal read answered the mark is less than a minute behind it |
| `XidScan.MarkedOnceAMinute` | crates/lss-collector/src/main.rs:954-955 | the mark changes only at the end of such a poll, to that poll, and at least a minute after the same collector changed it before |
| `XidScan.RestartReadsLittle` | crates/lss-collector/src/main.rs:553-563 | a start with no back-fill left over re-reads from less than a minute before the last poll that answered, and never more than seven days |
| `XidScan.StartOwes` | crates/lss-collector/src/main.rs:553-563 | what a start owes: from the unfinished back-fill's marker, else from the mark, else everything - of the last seven days |
| `XidScan.NeverListedNeverBooked` | crates/lss-collector/src/collect.rs:508-522 | a line that no read ever listed is in no state of the run booked |
| `XidScan.UnreadableCountsAsRead` | crates/lss-collector/src/collect.rs:35-37 | a run of one failing `journalctl`: the mark passes a report that is not booked, not owed and in no gap |
| `XidScan.MarkerClearedUnread` | crates/lss-collector/src/main.rs:1375-1412 | a run whose start-up back-fill reads nothing: its marker is gone and the report of the downtime is not booked |
| `XidScan.HandedOnce` | crates/lss-collector/src/collect.rs:510-525 | no line is handed on twice by one run of the collector |
| `XidScan.NeverHandedAgain` | crates/lss-collector/src/collect.rs:510-525 | no two polls with no crash between them hand on the same line |
| `XidScan.OneRowPerKey` | crates/lss-collector/src/db.rs:189-202 | no state of any run has two rows of one key |
| `XidScan.PrunedExactly` | crates/lss-collector/src/db.rs:312-320 | exactly the incidents that ended more than ninety days ago go; open ones stay |
| `XidScan.BookAllMeaning` | crates/lss-collector/src/main.rs:1394-1412 | booking a list adds exactly its keys |
| `XidScan.RowOrigin` | crates/lss-collector/src/db.rs:189-202 | over any run every keyed row was there from the start or was made by a booking that gave it its key |
| `XidScan.RowSaysItsReport` | crates/lss-core/src/incidents.rs:142-145 | over any run every row is one of the beginning, unchanged, or says exactly what one booked report says: kind, time, card, number, hint, the kernel's words, key; no later booking rewords it |
| `XidScan.BookedOnce` | crates/lss-collector/src/collect.rs:105-122 | while every booking of an address was labelled the same, a row of the report's number and second under another label is not this report's: it was there from the start or belongs to another address |
| `XidScan.BookedTwiceExactly` | crates/lss-core/src/xid.rs:20-25 | two bookings of one new report, whatever `nvidia-smi` answered each time, make two rows if and only if the labels differ: one answer knew the index and the other did not, or they knew different ones; otherwise one |
| `XidScan.BookedTwiceExamples` | crates/lss-core/src/xid.rs:20-25 | an index known once only, and a card renumbered: two rows each |
| `XidScan.SharedRowExactly` | crates/lss-core/src/incidents.rs:57-59 | two reports share a key if and only if number and second are equal and the answers they were labelled by name the same card |
| `XidScan.SharedRowExample` | crates/lss-core/src/incidents.rs:57-59 | after a renumbering two cards' reports of one second are one row |
| `Locks.OrderIsDiscipline` | crates/lss-collector/src/main.rs:53-76 | nesting guards in the declared order is exactly never taking a lock out of order or twice |
| `Locks.DeclaredOrder` | crates/lss-collector/src/main.rs:53-76 | the order is the declared one: `db`, then `shared`, then `tailscale` |
| `Locks.SomeoneCanGoOn` | crates/lss-collector/src/main.rs:53-76 | any number of threads that keep the order: while anything is left to do some thread can step |
| `Locks.EveryScheduleFinishes` | crates/lss-collector/src/main.rs:53-76 | every schedule is finished after exactly as many steps as there is work, and is never stuck before |
| `Locks.ActivityInOrder` | crates/lss-collector/src/main.rs:742-1365 | every lock site of the collector's threads keeps the declared order |
| `Locks.CollectorNeverDeadlocks` | crates/lss-collector/src/main.rs:742-1365 | any number of threads doing any sequence of the collector's activities never deadlock |
| `Locks.OppositeOrdersDeadlock` | crates/lss-collector/src/main.rs:64-68 | two threads nesting two locks in opposite orders, or one taking a lock twice, can stop for ever |
| `Subprocess.OneChildPerGuard` | crates/lss-collector/src/cmd.rs:39-95 | never two unreaped children of one guard; while one is, the flag is set and callers are refused |
| `Subprocess.BusyExactlyWhileHeld` | crates/lss-collector/src/cmd.rs:39-95 | the flag is set exactly while some call is between its swap and its clear |
| `Subprocess.StuckUntilReaped` | crates/lss-collector/src/cmd.rs:83-93 | until a child has been waited for, no timeout or kill clears the flag and every caller is refused |
| `Subprocess.WaitsUntilToldOrTired` | crates/lss-collector/src/cmd.rs:39-95 | a call has a waiting caller exactly from the start of its child until its answer or its timeout |
| `Subprocess.FreeOnceCleared` | crates/lss-collector/src/cmd.rs:40-42 | a caller gets in if and only if no call holds the guard |
| `BenchRuns.OneRunAtATime` | crates/lss-collector/src/bench_run.rs:124-171 | after recovery at most one row whose end was not lost says `running`; it belongs to the session that has the lock and the file names this process |
| `BenchRuns.AtMostOneRunning` | crates/lss-collector/src/bench_run.rs:156-171 | without a failed write, at most one row says `running` |
| `BenchRuns.ReleasedRowIsClosed` | crates/lss-collector/src/bench_run.rs:297-303 | a lock is released over a row still `running` if and only if writing that run's end failed |
| `BenchRuns.FinishCloses` | crates/lss-collector/src/db.rs:744-747 | the end of a run closes its own row if and only if it could be written, and no other |
| `BenchRuns.TakenExactlyWhenFree` | crates/lss-collector/src/bench_run.rs:126-150 | the lock is taken if and only if no live process holds it, and then no session had it |
| `BenchRuns.RefusedExactlyWhileHeld` | crates/lss-collector/src/bench_run.rs:126-153 | a bench is refused if and only if another session of this collector is between taking and releasing the lock or another live process is named in the file |
| `BenchRuns.TakenAfterRelease` | crates/lss-collector/src/bench_run.rs:126-153 | who asks right after a release, or after a run that could not be recorded, gets the lock |
| `BenchRuns.RecoveryClears` | crates/lss-collector/src/bench_run.rs:156-171 | recovery leaves a lock file only if another live process is named in it, and closes every open row |
| `BenchRuns.FileOutlives` | crates/lss-collector/src/bench_run.rs:124-171 | the lock file changes by taking, releasing, a run that could not be recorded and recovery only: it outlives a crash |
| `OwnTraffic.OwnLoad.Start` | crates/lss-collector/src/bench_run.rs:734-736 | sets what is in flight; `OwnLoadIsBounded` ties it to the requests sent |
| `OwnTraffic.OwnLoad.Finish` | crates/lss-collector/src/bench_run.rs:739-743 | nothing in flight, a grace of two polls, the abandoned ones added |
| `OwnTraffic.OwnLoad.Count` | crates/lss-collector/src/bench_run.rs:748-754 | settles and counts |
| `OwnTraffic.SettlesExamples` | crates/lss-collector/src/bench_run.rs:745-751 | four and a half running of four in flight settle, a little more does not, nor does no reading |
| `OwnTraffic.OwnLoadIsBounded` | crates/lss-collector/src/bench_run.rs:714-755 | over any run the count is never below the requests sent and not yet returned plus the abandoned ones still running, and above by at most the abandoned ones that have ended plus one request of grace for two polls; a look at an engine that runs only what is in flight settles it |
| `OwnTraffic.SafeExactlyWhenReached` | crates/lss-collector/src/bench_run.rs:745-751 | the settling step writes off nothing still running, whatever else is there, if and only if every request in flight had reached the engine |
| `Detect.Rank` | crates/lss-collector/src/detect.rs:107-114 | the ranked list, by a retain loop and a stable sort |
| `Detect.RankedMeaning` | crates/lss-collector/src/detect.rs:106-114 | exactly the named engines and the plain answers whose model no named engine serves, in order |
| `Detect.BestFirst` | crates/lss-collector/src/detect.rs:107-114 | the order: named engines before plain answers, of each those with a model first, of these by address |
| `Detect.LexExamples` | crates/lss-collector/src/detect.rs:107-114 | addresses are ordered as in a dictionary |
| `Detect.RankIsIdempotent` | crates/lss-collector/src/detect.rs:107-114 | ranking twice is ranking once |
| `Detect.RankIgnoresOrder` | crates/lss-collector/src/detect.rs:107-114 | the order of the finds does not matter |
| `Detect.ScanPorts` | crates/lss-collector/src/detect.rs:76-103 | the two-phase scan |
| `Detect.TwoPhaseIsFull` | crates/lss-collector/src/detect.rs:58-103 | the two-phase scan equals the full scan if and only if every skipped port would have been nothing or a plain answer with a model a named engine serves |
| `Detect.SecondEngineMissed` | crates/lss-collector/src/detect.rs:67-69 | two engines known by name serving one model: the second is not found |
| `Detect.HonestProxiesAreSkippedSafely` | crates/lss-collector/src/detect.rs:58-69 | a proxy whose identification agrees with its cheap answer is always skipped safely |
| `LoadoutRuns.Loadouts.OnSample` | crates/lss-collector/src/loadouts.rs:107-131 | one poll: switch, observation, minute save - the whole new state and table; `LoadoutAccounting` says on the events what that adds up to |
| `LoadoutRuns.Loadouts.SwitchTo` | crates/lss-collector/src/loadouts.rs:133-182 | same configuration, return to an older one, or first sight: the new state and table |
| `LoadoutRuns.LoadoutDb.SaveLoadout` | crates/lss-collector/src/db.rs:717-724 | stores the accumulator; the first-seen time of a known loadout stays |
| `LoadoutRuns.PollAdds` | crates/lss-collector/src/loadouts.rs:107-131 | every poll counts for exactly one loadout, the one then current; the others keep what they had |
| `LoadoutRuns.LoadoutAccounting` | crates/lss-collector/src/loadouts.rs:107-182 | over any run of switches, restarts, returns and crashes each loadout holds exactly what the events say was observed while it was served, in order: each sample with the one of the poll before it, none after a switch or a start, what a first sight brought, each run and cold start; less what crashes dropped |
| `LoadoutRuns.RunReflects` | crates/lss-collector/src/loadouts.rs:107-131 | in every state the served loadout, the previous sample, the last time down, the raw samples and which loadouts are stored are what the events of the run say |
| `LoadoutRuns.BackfilledPairs` | crates/lss-collector/src/loadouts.rs:232-252 | what a first sight brings is every stored sample since the container's start, each with the one before it |
| `LoadoutRuns.BeganExamples` | crates/lss-collector/src/loadouts.rs:133-182 | a run is always noted; a cold start only when the serve was seen down after the container started and at most sixty seconds ago, with the time since that start |
| `LoadoutRuns.CrashDropsUnderAMinute` | crates/lss-collector/src/loadouts.rs:122-128 | a crash drops only the unsaved end of the served loadout: what is stored is a prefix, and every sample beyond it was polled less than sixty seconds before the last poll |
| `LoadoutRuns.SavedOnceAMinute` | crates/lss-collector/src/loadouts.rs:122-128 | besides a switch a poll writes the table if and only if something is served and a minute has passed since the last write |
| `LoadoutRuns.FirstSeenIsKept` | crates/lss-collector/src/loadouts.rs:133-182 | since when a loadout is known is decided at its first switch - the container's start when samples of that run were stored, else that poll - and never changes |
| `LoadoutRuns.DocListsEachOnce` | crates/lss-collector/src/loadouts.rs:219-227 | the document lists no loadout twice and shows of each everything measured |
| `LoadoutRuns.DocIsComplete` | crates/lss-collector/src/loadouts.rs:219-227 | the served loadout is first, and exactly it and the remembered ones are listed |
| `LoadoutRuns.DocInOrder` | crates/lss-collector/src/loadouts.rs:219-227 | the others follow in the order in which they were remembered |
| `LoadoutRuns.FirstSightCountsAgain` | crates/lss-collector/src/loadouts.rs:232-252 | at the first sight of a loadout a sample already counted for another counts again if and only if it is not older than the container's start, taken as 0 for a plain process |
| `LoadoutRuns.PlainProcessCountsAgain` | crates/lss-collector/src/loadouts.rs:232-252 | two plain processes one after the other: the first one's sample is measured of both |
| `Queries.PercentDecode` | crates/lss-collector/src/query.rs:27-54 | the decoding loop against its specification, with termination |
| `Queries.HexDigits` | crates/lss-collector/src/query.rs:33-37 | the digits are the sixteen of either case and no other byte |
| `Queries.DecodeUndoesEncode` | crates/lss-collector/src/query.rs:27-54 | decoding undoes every way of writing a byte string: plain, `+` for a space, escapes with digits of either case |
| `Queries.EveryStringRoundTrips` | crates/lss-collector/src/query.rs:27-54 | every byte string can be written and is read back |
| `Queries.SignedEscape` | crates/lss-collector/src/query.rs:33-37 | a percent sign, a plus and a digit are read as one byte, which RFC 3986 does not know |
| `Queries.StrayPercent` | crates/lss-collector/src/query.rs:33-42 | a percent sign stays itself exactly when no two digits, or sign and digit, follow |
| `Queries.QueryRoundTrip` | crates/lss-collector/src/query.rs:15-25 | what was printed behind the question mark is read back, the later of two equal keys counting, a key without an equals sign as empty, and a field without a key as nothing |
| `Queries.NoQuestionNoQuery` | crates/lss-collector/src/query.rs:15-25 | without a question mark there are no parameters |
| `Queries.MapRoundTrip` | crates/lss-collector/src/query.rs:15-25 | every printing of a finite map, in any order, parses to the map |
| `Queries.EveryMapCanBePrinted` | crates/lss-collector/src/query.rs:15-25 | every finite map without an empty key has such a printing |
| `StatusGrid.FillSlots` | crates/lss-collector/src/query.rs:82-106 | every slot gets the value of the last row read with data whose minute overlaps it, and stays empty otherwise; every index in bounds |
| `StatusGrid.GridShowsLatest` | crates/lss-collector/src/query.rs:82-106 | with the rows as they are read - ascending in time, from a minute before the grid to its end - a slot shows the latest stored minute with data that overlaps it, and nothing exactly when there is none |
| `StatusGrid.FilledExactly` | crates/lss-collector/src/query.rs:93-105 | a slot is filled if and only if some minute with data overlaps it |
| `StatusGrid.TenthsIsNearest` | crates/lss-collector/src/query.rs:90-96 | the rounding is to the nearest tenth, a half away from zero |
| `StatusGrid.ShownIsAverage` | crates/lss-collector/src/query.rs:90-96 | what a slot shows is the minute's sum over its count, to the nearest tenth |
| `StatusGrid.BoundsAreOverlap` | crates/lss-collector/src/query.rs:98-100 | the two divisions bound exactly the overlapped slots |
| `StatusGrid.NothingOutsideMatters` | crates/lss-collector/src/query.rs:89-89 | a row that overlaps a slot lies in the range that is read |
| `StatusGrid.OverlapIsStartInside` | crates/lss-collector/src/query.rs:97-100 | overlap agrees with the code's comment on every slot of the grid if and only if the minute begins at a slot's start, or before the grid, or after it |
| `StatusGrid.OverlapExample` | crates/lss-collector/src/query.rs:97-100 | a minute that begins in the middle of a slot fills it |
| `StatusGrid.StatusPageAgrees` | crates/lss-core/src/history.rs:197-199 | on the status page's half-minute grid and for rows on whole minutes the comment is right |

## Left out

- Restarts.RestartTransparency: restarts in a later ten-minute window, cut-short pushes of a sample that
  opens a window, and metrics computed against the previous sample are excluded, because the property
  is false of them; `RestartExactly`, `RestartAnyMetric` and `TornPushExactly` say exactly when.
- RestartLosses.RestartExactly: the one-off back-fill is done; so for `RestartGateExactly` and
  `RestartAnyMetric`. A start that still owes it also refills every closed bucket before its window
  (`UpgradeExactly`).
- RestartLosses.TornAtTheBoundary: likewise, with the back-fill done.
- Upgrades.UpgradeExactly: one start on a database without tiers whose back-fill runs to its end; a
  back-fill that failed and is retried by a later start is not modelled, nor is the pruning of raw
  samples that the first poll does beside it (`main.rs:1093`).
- Backfilling.Backfill: no stored sample is pruned while it streams.
- Rollup.RollupRefinement: writes that succeed, as in RestartLosses and Upgrades: a failed write of a
  sample, a batch or a log row is only logged, and is lost without any death.
- XidScan.XidScanSafety: assumes a monotone clock, writes of the database that succeed and the scan gate
  on. Rows already keyed at the beginning end at the time in their key; retention is the default
  ninety days.
- Rollup.GateLogCounts: of a lane's log the two counters; its counts by status, verdict and key and its
  estimates, which merge in the same way, are not modelled.
- XidScan.HandedOnce: journal lines that are not Xid reports are not modelled, and two reports of identical
  text in the same second are one line.
- Incidents.BookedDetailGivesItsKey: an empty address, or the address `Xid`, is outside its condition;
  `KeyReadExactly` says what is recovered there.
- LoadoutRuns.LoadoutAccounting: writes that succeed; an accumulator is the sequence it was told, its
  formulas, probes and histogram windows are not modelled, nor is the deletion of all but the last
  hundred loadouts or of raw samples past their retention.
- Queries.PercentDecode: works on bytes; the final replacement of invalid UTF-8 is not modelled.
- BenchRuns.OneRunAtATime: each `take_lock` is one step; two processes interleaving inside it are not modelled,
  nor is a second collector on the same state directory, whose start-up recovery closes the first one's
  running row.
- OwnTraffic.OwnLoadIsBounded: requests in flight have reached the engine when it is asked;
  `SafeExactlyWhenReached` shows that this is needed.
- Locks.CollectorNeverDeadlocks: threads that panic and poisoned locks are not modelled; waiting on
  channels, child processes and the network is not waiting on a lock.
- Windows.SeamExactness: the cache share and the request counts' start times beside the totals are not modelled.
- TokenRepair.RepairConserves: the two other start-up repairs (probes, prefill peaks) are not modelled.
- Latency windows and histograms, and the rollup rows derived from them.
- SQLite, HTTP, subprocess pipes, `/proc`, NVML and TLS: inputs and answers are parameters.
- Alert rules, prices, probes' validity, the setup and cost wizards, and the scripts.
- The memory of the last hour (`History`) that the replay reads from: taken as the stored samples.
- Which sample points exist: what a sample says by itself is an arbitrary map, and a counter becomes its growth;
  rates per second and energy, which are computed from two samples in other ways, are not modelled.
