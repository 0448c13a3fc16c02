# Verification of the Baseline Security operator and console

A Dafny model of the parts of the Baseline Security operator (Go) and its console plugin (TypeScript)
where mistakes are costly and hard to see: the crash-tolerant remediation batch, the scan history and
its regression diff, the metrics certificate cache, version and CSV selection, the console's JSON
patches, and a few pure algorithms with an exact specification. `dafny verify dfyconfig.toml` checks
everything.

## How it is organised

Code that changes state step by step is written as classes and loops, each proved equal to a
specification function; the theorems are about those functions and about whole runs of them.

- `Text.dfy` holds what several parts share: byte order, sorted name lists, comma-separated lists,
  Kubernetes names, decimal numerals.
- `BatchModel`, `BatchSpec`, `BatchReconciler`, `BatchPaths`, `BatchFrames`, `BatchSafety`,
  `BatchOwnership`, `BatchLifecycle`, `BatchDecisions`, `BatchRetries`, `BatchUndisturbed`: the remediation
  batch protocol. The durable state (three annotations,
  `status.remediationBatch`, pools, remediations) is separate from the in-memory ClusterBaseline.
  Every API call is one step. Before each call other writers may act; the call is then served,
  conflicts, is refused, takes effect although the operator sees an error, or never happens because
  the operator died. A run is any list of reconciles and deletes over any such script, so a statement
  about all scripts is a statement about every crash point and every mix of failures.
- `History`, `HistoryRecorder`, `HistoryRuns`, `HistoryPoints`, `HistoryTheorems`, `HistoryInventions`,
  `HistoryModes`: scan history. A reconcile reads the stored status, records a look at the cluster, and then makes two separate
  writes, the status and the scoring-mode stamp; a run may lose either or both, and the spec's mode
  may change in between.
- `Inconsistent`, `Aggregate`: what an INCONSISTENT result collapses to, and the rollup over paged check
  results that feeds the history.
- `MetricsCert`: TLS handshakes as threads over a shared cache while the files rotate; every lock
  acquisition, read and parse is its own step and any two may be interleaved.
- `EditDistance`, `CsvVersion`, `CsvPrecedence`, `CsvSelection`: flag suggestions, the CSV version order and
  what it says of the names' numbers, and the tiered, paged search for the Compliance Operator's CSV.
- `Calendar`, `JsonPatch`, `Patches`, `PatchContents`, `PatchServer`, `ContentKey`, `CsvExport`, `WaiverClock`: the
  console's calendar checks, patch builders and their behaviour under concurrent clients with stale
  snapshots, content keys, CSV export, and the waiver clock (with the operator's requeue interval).

## What the proofs found

- **A partial pause can strand a pool.** When pausing fails part-way and the best-effort undo does not
  free everything, the branch at `operator/internal/controller/batch_apply.go:198-205` records only the
  pools before the failing one. A pool at or after it that was already paused by us from an earlier
  attempt is then named nowhere (`BatchOwnership.StrandedPool`); and so is the failing pool itself when
  its patch took effect although the call reported an error, even on an open that starts with no pool of
  ours (`BatchOwnership.LandedPool`). These are the only two ways: `BatchOwnership.PrefixLeaksExactly` and
  `BatchOwnership.PrefixWriteLeaksExactly` are the exact condition for one open, and
  `BatchSafety.RunLeaksExactly` for whole runs; `BatchSafety.FreshRunsNeverLeak` excludes both. The branch's own
  comment speaks only of the pools this call paused.
- **The diff can invent regressions and fixes.** The comments at
  `operator/internal/controller/history_reconcile.go:217-224` and
  `operator/internal/controller/sanitize.go:509-515` say the diff can only under-report. It can also invent:
  both the size share and the 4096 names per list that the status write keeps cut a scan's set before the
  next scan compares with it, so a check that failed in both scans is reported as newly failed when the
  earlier set lost its name and fewer than 4096 new names stand before it in the later one
  (`HistoryInventions.InventsNewExactly`, an if and only if). The share alone does it with far fewer than
  4096 names (`HistoryInventions.ShareAloneInvents`), the list bound alone within the share
  (`HistoryTheorems.InventedRegressionsExist`). A fix is invented when a name the earlier set kept fails
  again beyond the share (`HistoryInventions.InventsFixedExactly`). An earlier set that fits both bounds
  invents no failure, a later one that fits the share no fix
  (`HistoryInventions.FittingSetsInventNothing`).
  `HistoryInventions.ReportsOverRuns` carries the conditions through whole runs, with the one under which
  the reports are exactly the scans' own differences.
- **A lost stamp plus a mode change mixes a ring.** The comment at
  `operator/internal/controller/history_reconcile.go:42-45` calls a failed stamp write self-healing. It is
  not when the mode changes before the next stamp write and no stamp
  (`HistoryModes.FlipWhileLaggingMixes`) or the stamp of the new mode
  (`HistoryModes.FlipBackWhileLaggingMixes`) is stored. `HistoryModes.LookMixesExactly` says exactly when a
  recorded look mixes a ring, and `HistoryModes.RunMixesExactly` carries the condition through whole runs.
  While the mode changes only once the stamp is level, `HistoryModes.ModePurity` holds.
- **Creating blindly replaces.** An unguarded create shape replaces what its snapshot did not hold: the
  waiver list, the binding list, or the whole annotations map with the operator's recovery records in it.
  Each keeps the rest only when there is no rest (`PatchServer.BlindCreateKeepsOthersIff`,
  `PatchServer.BlindBindKeepsOthersIff`, `PatchServer.BatchKeepsOthersIff`); every other shape acts on the
  current lists and annotations even without a version (`PatchServer.AcceptedActsOnCurrent`,
  `PatchServer.BatchAnnotates`). The batch patch is guarded in all shapes for a reason of its own: a stale
  resubmit would repeat a batch.
- **What cannot be observed counts as grace.** The comments at
  `operator/internal/controller/batch_apply.go:326-332`, `:361-363` and `:374-376` say that without the
  remediation CRD a finish counts "cancelled", and that an unreadable remediation still allows "cancelled"
  or "applied". The test at `:393-401` overrides all three: such a batch is released at once and counted as
  "grace" (`BatchDecisions.AbsentCrdReleases`, `BatchDecisions.FinishDecides`).

## Model

| member | source | states |
|---|---|---|
| BatchSafety.NoLeakedPause | operator/internal/controller/batch_apply.go:138-228 | Before and after every event of any run with crashes, conflicts and retried opens, each pool paused under our marker is named in the durable pools annotation while status has no batch, and in status.remediationBatch.pools otherwise; the one hypothesis is that whenever the partial-pause branch ran, no pool from the failing one on was ours when pausing began and the failing pause had no effect. |
| BatchSafety.RunLeaksExactly | operator/internal/controller/batch_apply.go:138-228 | A run of any length is leak-free at every point if and only if none of its reconciles both recorded a prefix on the partial-pause branch, with a later pool ours before or a failing pause that took effect, and stored it with its status write. |
| BatchSafety.FreshRunsNeverLeak | operator/internal/controller/batch_apply.go:138-228 | A run whose opens each start with no pool of ours, and whose failed pauses do not take effect, never leaks at any point. |
| BatchSafety.FreshOpensHoldNothing | operator/internal/controller/batch_apply.go:173-205 | When every open starts with no pool of ours, every run of the partial-pause branch finds none held. |
| BatchSafety.HonestRunsLandNothing | operator/internal/controller/batch_apply.go:195-205 | When no call takes effect while reporting an error, no failing pause does on that branch. |
| BatchFrames.StrayExactly | operator/internal/controller/batch_apply.go:195-205 | Whatever the API server answers, the pools of ours the branch leaves out are exactly those that were ours when pausing began and the failing one if its write was taken. |
| BatchSafety.DeleteReleasesAll | operator/internal/controller/batch_reconcile.go:507-577 | From any leak-free state a delete that reports success leaves no pool paused by us. |
| BatchSafety.FinishReleasesAll | operator/internal/controller/batch_apply.go:298-455 | A finish that drops the batch leaves no pool paused by us and neither recovery annotation. |
| BatchSafety.OrphanReleasesAll | operator/internal/controller/batch_reconcile.go:278-309 | Crash recovery without a request, when it succeeds, leaves no pool paused by us. |
| BatchSafety.SanitizeIdentity | operator/internal/controller/sanitize.go:353-373 | The status sanitizer never alters a batch this protocol writes. |
| BatchSafety.ClampItemsExactly | operator/internal/controller/sanitize.go:353-373 | A list run through the sanitizer holds exactly the first 253 characters of its names, each once, without empty ones. |
| BatchOwnership.OwnedWritesOnly | operator/internal/controller/batch_reconcile.go:65-179 | Over any run: a pool paused without a marker is never written, only our own marker is ever taken back, and spec.apply only goes from false to true, on a remediation that does not miss dependencies and belongs to a suite the ClusterBaseline owned when that same reconcile read it. |
| BatchOwnership.OnlyRequestedTouched | operator/internal/controller/batch_apply.go:82-167 | A reconcile pauses only pools its kept remediations lead to or that were already ours, and applies only requested names, under the owned suites of the ClusterBaseline it holds. |
| BatchOwnership.ReconcileAppliesOwn | operator/internal/controller/batch_apply.go:82-90 | The suites a reconcile applies under are those of the ClusterBaseline it read first. |
| BatchOwnership.PoolRestored | operator/internal/controller/batch_reconcile.go:65-179 | An unmarked pool no administrator touches has its original value and no marker whenever we hold nothing, after any run; if we hold it, it was running. |
| BatchOwnership.PrefixLeaksExactly | operator/internal/controller/batch_apply.go:198-218 | The partial-pause branch stores a leak-free status if and only if no pool from the failing one on was ours when pausing began and the failing pause had no effect, for every script of call outcomes. |
| BatchOwnership.PrefixWriteLeaksExactly | operator/internal/controller/batch_apply.go:198-205 | The same of the cluster as it is once the status write that ends the reconcile succeeds, whatever others do before it. |
| BatchOwnership.FreshOpenIsClean | operator/internal/controller/batch_apply.go:169-218 | An open that starts with no pool of ours stores a leak-free status on that branch if and only if the failing pause had no effect. |
| BatchOwnership.StrandedPool | operator/internal/controller/batch_apply.go:198-205 | A concrete world in which the branch strands a pool that was ours before. |
| BatchOwnership.LandedPool | operator/internal/controller/batch_apply.go:198-205 | A concrete fresh open, nothing ours, in which the branch strands the failing pool because its patch took effect. |
| BatchLifecycle.ResubmitSurvives | operator/internal/controller/batch_reconcile.go:320-371 | Whatever the operator writes, a request that names any other set than the batch's own is left as it is. |
| BatchLifecycle.CountedAtMostOnce | operator/internal/controller/batch.go:166-183 | Without interference, each batch outcome is counted at most once over any run with crashes and failed status writes, and once counted nothing of it is left. |
| BatchLifecycle.FinishLeavesNothing | operator/internal/controller/batch_apply.go:408-455 | Without interference, a finish that drops the batch leaves no request and no recovery annotation. |
| BatchLifecycle.SpentNeverReopens | operator/internal/controller/batch_apply.go:36-60 | A spent batch never reopens: no later job pauses a pool, applies a remediation or counts an outcome. |
| BatchLifecycle.StartNeverMoves | operator/internal/controller/batch_reconcile.go:203-229 | On any lawful path a recorded start time stays until a clear drops the recovery annotations. |
| BatchLifecycle.RetriedOpensKeepStart | operator/internal/controller/batch_reconcile.go:203-229 | Any number of failed or retried opens keeps the first durable start time. |
| BatchLifecycle.RecordedStartIsDurable | operator/internal/controller/batch_reconcile.go:181-273 | The start an open works with is the one the annotation holds. |
| BatchLifecycle.GraceIsBounded | operator/internal/controller/batch.go:54-63 | For every start value and instant t, the grace is past at t or at every instant later than t plus twice the grace. |
| BatchLifecycle.GraceIsNotMonotone | operator/internal/controller/batch.go:54-63 | The grace is past at t and not past at a later u if and only if the start lies more than the grace after t and within the grace of u; with an example. |
| BatchLifecycle.PastGraceFrees | operator/internal/controller/batch_apply.go:401-455 | Past the grace, with calls served and nobody else writing the ClusterBaseline, a finish resumes every pool, clears the annotations and drops the batch, whatever the remediations show and whatever others do to pools, remediations and the clock. |
| BatchLifecycle.GraceExactly | operator/internal/controller/batch.go:54-63 | The grace is past exactly when the start is missing or lies more than ten minutes away from now, in either direction. |
| BatchLifecycle.OrphanSucceeds | operator/internal/controller/batch_reconcile.go:278-309 | Recovery without a request succeeds whenever its calls are served and nobody else writes the ClusterBaseline. |
| BatchLifecycle.DeleteSucceeds | operator/internal/controller/batch_reconcile.go:507-577 | So does a delete, and then `BatchSafety.DeleteReleasesAll` applies. |
| BatchDecisions.FinishDecides | operator/internal/controller/batch_apply.go:298-455 | Once the list is served, a finish releases if and only if every watched name (the first 256) is observed Applied, or every one is observed with apply off, or some name cannot be observed (invalid, gone, unreadable), or the grace is past; it counts "cancelled" when all are off, else "grace" when late or blind, else "applied". Otherwise it changes nothing after the listing, keeps the batch and returns Ok. |
| BatchDecisions.FailedLookWaits | operator/internal/controller/batch_apply.go:324-346 | A failed listing is an error that changes nothing and keeps the batch, unless the grace is past or a name is invalid, when the batch is released as "grace". |
| BatchDecisions.AbsentCrdReleases | operator/internal/controller/batch_apply.go:325-415 | Without the remediation CRD the batch is released at once and counted as "grace". |
| BatchDecisions.ReleaseCounts | operator/internal/controller/batch_apply.go:402-447 | A release counts its reason once, as its last act, exactly when it succeeds and the batch is unreported. |
| BatchDecisions.FinishCounts | operator/internal/controller/batch.go:166-183 | A finish that drops the batch counts one outcome exactly when one of the three annotations was still there when it began. |
| BatchDecisions.OrphanCounts | operator/internal/controller/batch_reconcile.go:278-309 | Recovery without a request does nothing when nothing is annotated; otherwise its success leaves no recovery annotation and counts one outcome, "orphaned". |
| BatchDecisions.OpenTakesUp | operator/internal/controller/batch_apply.go:36-228 | An open that succeeds with a batch has taken up exactly the requested remediations that exist and may be applied, and exactly the pools they reboot or that were recorded and are ours; at some moment of the open each pool was paused (or absent or unreadable) and each remediation applied (or no longer eligible). |
| BatchDecisions.OpenDrops | operator/internal/controller/batch_apply.go:36-167 | An open of a request that succeeds without a batch had too many names, an invalid one, none that may be applied, or more than 32 pools. |
| BatchDecisions.OpenClears | operator/internal/controller/batch_apply.go:36-167 | In those four cases it clears the request, the fourth after looking at the recorded pools; a failed listing or a missing CRD is an error that leaves the request. |
| BatchDecisions.FirstStart | operator/internal/controller/batch_reconcile.go:203-229 | The recorded start is the one already stored, a long-past instant for an unusable one, and otherwise an instant of the clock during the open, however many attempts the write takes. |
| BatchDecisions.ReconcileStores | operator/internal/controller/clusterbaseline_controller.go:312-370 | A reconcile that succeeds has stored exactly the batch its work left, or none. |
| BatchDecisions.PoolIs | operator/internal/controller/batch.go:77-105 | The pool is the role label when that is a name, else what follows the last "-node-" of the scan name when that is one, else none. |
| BatchRetries.PauseRetries | operator/internal/controller/clock.go:101-116 | Of pausing or resuming a pool: only a write that conflicts starts another attempt, and an error means that all attempts are used up or that the last call failed for another reason than a conflict. |
| BatchRetries.ApplyRetries | operator/internal/controller/batch_reconcile.go:457-500 | The same of applying a remediation. |
| BatchRetries.RecordRetries | operator/internal/controller/batch_reconcile.go:181-273 | The same of recording a batch. |
| BatchRetries.ClearRetries | operator/internal/controller/batch_reconcile.go:320-371 | The same of clearing the annotations. |
| BatchUndisturbed.SetsOne | operator/internal/controller/batch_reconcile.go:65-179 | One undisturbed pause puts a readable pool under our marker unless it stood paused without one, one undisturbed resume takes back exactly what stood under the given marker, and every other pool stays. |
| BatchUndisturbed.LooksExactly | operator/internal/controller/batch_reconcile.go:34-58 | Looking at the recorded pools keeps exactly those paused under our marker, and fails exactly when one of them cannot be read. |
| BatchUndisturbed.ReconcileOpens | operator/internal/controller/batch_apply.go:36-228 | A reconcile that nobody disturbs opens every request of at most 256 valid names, one of which may be applied, with at most 32 pools and no recorded pool unreadable: it succeeds, and the stored batch's pools are paused and its remediations applied. |
| BatchModel.BatchPauseOwner | operator/internal/controller/batch.go:156-164 | The owner marker is never empty. |
| BatchModel.PoolFromRemediation | operator/internal/controller/batch.go:77-105 | The derived pool name is empty or a valid resource name. |
| BatchReconciler.Reconciler.SetMcpPaused | operator/internal/controller/batch_reconcile.go:65-179 | Pausing or resuming one pool, retried on conflict, leaves exactly the world its specification computes. |
| BatchReconciler.Reconciler.EnsureBatchMetadata | operator/internal/controller/batch_reconcile.go:181-273 | Records start time, pools and the kept request before anything is paused, without moving a recorded start. |
| BatchReconciler.Reconciler.ClearBatchAnnotations | operator/internal/controller/batch_reconcile.go:320-371 | Clears the request only when it names the given set, and the recovery keys when asked. |
| BatchReconciler.Reconciler.ResumeOrphanedBatch | operator/internal/controller/batch_reconcile.go:278-309 | The crash-recovery loop equals its specification. |
| BatchReconciler.Reconciler.ResumePoolsBestEffort | operator/internal/controller/batch_reconcile.go:582-592 | Tries every pool and reports whether any stayed paused. |
| BatchReconciler.Reconciler.ApplyOwnedRemediation | operator/internal/controller/batch_reconcile.go:457-500 | Flips spec.apply on one owned remediation, retried on conflict. |
| BatchReconciler.Reconciler.ValidateTargets | operator/internal/controller/batch_apply.go:82-137 | The loop keeps exactly the eligible names in order and collects exactly their pools. |
| BatchReconciler.Reconciler.OpenRemediationBatch | operator/internal/controller/batch_apply.go:36-228 | The whole open, with each write and each early exit, equals its specification. |
| BatchReconciler.Reconciler.FinishRemediationBatch | operator/internal/controller/batch_apply.go:298-455 | The whole finish, with its decision, each write and each early exit, equals its specification, whose decision `BatchDecisions.FinishDecides` states. |
| Text.SplitCsvJoin | operator/internal/controller/matching.go:99-108 | Plain items written as CSV and split again come back unchanged. |
| Text.SplitCsvLoop | operator/internal/controller/matching.go:99-108 | The splitting loop keeps the trimmed non-empty parts in order. |
| Text.UniqueSortedStrings | operator/internal/controller/batch.go:185-193 | The map-and-sort loop returns the non-empty values, sorted, each once. |
| Text.SortedIsCanonical | operator/internal/controller/batch.go:185-197 | Two sorted duplicate-free lists with the same elements are equal, so comparing them compares sets. |
| K8sNames.NamesRoundTrip | operator/internal/controller/batch_reconcile.go:234-249 | A sorted list of valid names stored as CSV is read back unchanged. |
| K8sNames.ValidExactly | operator/internal/controller/batch.go:112-117 | A valid name is 1 to 253 characters of lower-case letters, digits, dashes and dots whose dotted parts each begin and end with a letter or digit. |
| Text.TrimSpaceExactly | operator/internal/controller/matching.go:99-108 | Trimming takes off exactly the white space Go knows at either end. |
| HistoryTheorems.DiffOverRuns | operator/internal/controller/history_reconcile.go:295-367 | After any run from an empty status whose looks list each failing name once, PreviousFailures is the last scan's bounded set, the first scan reports nothing, and later newlyFailed and fixed are exactly the differences of the stored sets of the last two scans if and only if the last scan's trimmed failures fit 4096 names or share none with the stored set before. |
| HistoryTheorems.RunAgrees | operator/internal/controller/history_reconcile.go:295-367 | For all inputs the stored status agrees with the simple per-scan log after every mix of advances, late refreshes, lost writes, cleared CRDs and disabled scanning. |
| HistoryTheorems.BoundedDiffExact | operator/internal/controller/sanitize.go:499-501 | The stored lists are the exact difference of the two sets the status stores if and only if the later set fits 4096 names or is disjoint from the earlier one. |
| HistoryInventions.InventsNewExactly | operator/internal/controller/history_reconcile.go:217-225 | A name that failed in the previous scan too is reported as newly failed if and only if a name the share or the 4096 bound cut from the previous set fails again within the share, fewer than 4096 new names before it. |
| HistoryInventions.InventsFixedExactly | operator/internal/controller/history_reconcile.go:217-225 | A name that still fails is reported as fixed if and only if a name the previous set kept fails again beyond the share. |
| HistoryInventions.FittingSetsInventNothing | operator/internal/controller/history_reconcile.go:217-225 | A previous set within the share and 4096 names invents no failure; a current set within the share invents no fix. |
| HistoryInventions.ResurfacesWithinBound | operator/internal/controller/history_reconcile.go:217-225 | When the scan's own set fits 4096 names, any cut name that fails again within the share is invented. |
| HistoryInventions.MissesNewExactly | operator/internal/controller/sanitize.go:591-630 | A new failure goes unreported if and only if one lies beyond the share or behind 4096 listed names. |
| HistoryInventions.MissesFixedExactly | operator/internal/controller/sanitize.go:591-630 | A fix goes unreported if and only if a name cut from the previous set no longer fails. |
| HistoryInventions.ReportsExactly | operator/internal/controller/history.go:12-31 | Both reports are exactly the two scans' own differences if and only if none of those four happens. |
| HistoryInventions.KeptIsLongest | operator/internal/controller/sanitize.go:499-630 | What the status keeps of a scan's names fits a quarter of 768 KiB and 4096 names, and one name more would break one of the two. |
| HistoryInventions.ReportsOverRuns | operator/internal/controller/history_reconcile.go:295-367 | The same after every run from an empty status, each scan taken at its last recorded look: first scans report nothing, and invented failures, invented fixes and exactness each hold exactly under their condition on the two scans' failing names. |
| HistoryInventions.CutNameComesBack | operator/internal/controller/history_reconcile.go:217-225 | Any name either bound cut is reported as newly failed by a next scan in which it fails alone. |
| HistoryInventions.SunkNameLooksFixed | operator/internal/controller/history_reconcile.go:217-225 | Any failing name beyond the share is reported as fixed when it was the only failure before. |
| HistoryInventions.ShareAloneInvents | operator/internal/controller/history_reconcile.go:217-225 | The share alone invents both: with 769 names of 253 characters, a failure when only the last fails next, a fix when only the last failed before. |
| HistoryTheorems.RepeatedFailuresInvented | operator/internal/controller/history_reconcile.go:217-225 | Scanning twice with the same more than 4096 failures reports those beyond the bound as new. |
| HistoryTheorems.InventedRegressionsExist | operator/internal/controller/history_reconcile.go:217-225 | Such failures fit the size share: 4097 three-letter names. |
| HistoryTheorems.AdvanceNeedsEveryMember | operator/internal/controller/history_reconcile.go:292-334 | LastScanTime never rewinds while the CRDs exist and advances only when every member scan of every selected suite ended after it. |
| HistoryTheorems.ScanTimeNeverRewinds | operator/internal/controller/history_reconcile.go:296-321 | The same over whole runs with crashes and mode changes. |
| HistoryTheorems.SecondLookIsIdentity | operator/internal/controller/history_reconcile.go:302-320 | A second recordHistory on the same observations changes nothing. |
| HistoryTheorems.RepeatedReconcileIsNoOp | operator/internal/controller/clusterbaseline_controller.go:359-368 | A repeated reconcile of an unchanged cluster stores the same status, so the write can be skipped. |
| HistoryRuns.RingsHold | operator/internal/controller/history.go:48-126 | In every reachable state each ring has strictly increasing times up to LastScanTime, at most 30 points and scores in 0..100, and every failure list fits its size share. |
| HistoryRuns.BudgetNeverTrims | operator/internal/controller/sanitize.go:579-630 | The joint size budget never drops a name: four shares always fit. |
| HistoryRuns.SyncIsIdempotent | operator/internal/controller/history.go:56-76 | Syncing a snapshot of the same scan twice changes nothing. |
| HistoryModes.ModePurity | operator/internal/controller/history_reconcile.go:20-84 | At every crash point of every run in which the spec's mode does not change while the durable stamp lags, each ring holds points of one scoring mode. |
| HistoryModes.RingsStayPure | operator/internal/controller/history_reconcile.go:307-341 | The same from any pure state. |
| HistoryModes.LookMixesExactly | operator/internal/controller/history_reconcile.go:302-341 | From rings all of one mode and a look in the other, some ring holds two modes afterwards if and only if the generation is complete and not stale, the stored stamp is missing or names the look's mode, and a ring that gets a score keeps a point of another scan. |
| HistoryModes.RecordMixesExactly | operator/internal/controller/history_reconcile.go:302-341 | The same from rings each of one mode of its own. |
| HistoryModes.RunMixesExactly | operator/internal/controller/history_reconcile.go:20-84 | Over any run with lost writes and mode changes, every ring stays in one mode at every point if and only if no kept status write meets that condition. |
| HistoryModes.FlipWhileLaggingMixes | operator/internal/controller/history_reconcile.go:40-46 | A lost stamp write followed by a mode change mixes the modes in one ring when no stamp is stored. |
| HistoryModes.FlipBackWhileLaggingMixes | operator/internal/controller/history_reconcile.go:40-46 | A change of mode, a lost stamp write and the change back mix the modes while the stored stamp names the mode the spec went back to. |
| HistoryRecorder.SortedDiff | operator/internal/controller/matching.go:138-164 | The two-pointer pass returns the sorted unique members of a missing from b. |
| HistoryRecorder.NotIn | operator/internal/controller/matching.go:113-129 | The map-based pass returns the same set, sorted. |
| HistoryRecorder.Recorder.SyncFailureDiff | operator/internal/controller/history.go:12-31 | Both paths store the same two differences, on any lists. |
| HistoryRecorder.TrimFailureListToShare | operator/internal/controller/sanitize.go:587-630 | The running-size loop keeps the longest prefix within the share. |
| HistoryRecorder.ClampHistoryLoop | operator/internal/controller/history.go:111-126 | The in-place clamp keeps the newest points with scores in range and zero times replaced by the epoch. |
| HistoryRecorder.SyncHistorySnapshot | operator/internal/controller/history.go:56-76 | Refreshes, appends or removes the scan's point. |
| HistoryRecorder.CompletedSuiteTimes | operator/internal/controller/history_reconcile.go:148-188 | The member loop returns the completion range, or nothing when any member is unfinished or unreadable. |
| HistoryRecorder.Recorder.CompletedSuites | operator/internal/controller/history_reconcile.go:238-294 | Succeeds exactly when every selected suite is complete, with the newest end of all. |
| HistoryRecorder.Recorder.ClearHistoryRings | operator/internal/controller/history.go:36-44 | Empties the overall and every per-profile ring. |
| HistoryRecorder.Recorder.SyncProfileHistory | operator/internal/controller/history.go:78-103 | Syncs each per-profile ring with its bucket's score; `HistoryPoints.RingsExactly` says which of the bucket's sums that is. |
| HistoryRecorder.Recorder.RefreshScan | operator/internal/controller/history_reconcile.go:302-319 | Late results for the recorded scan. |
| HistoryRecorder.Recorder.AdvanceScan | operator/internal/controller/history_reconcile.go:333-388 | A newly completed scan. |
| HistoryRecorder.Recorder.RecordHistory | operator/internal/controller/history_reconcile.go:202-390 | The whole routine equals its specification, which reads only the generation's range. |
| HistoryRecorder.Recorder.CarryHistory | operator/internal/controller/aggregate.go:264-284 | Every still-selected profile keeps its ring across the rebuild. |
| HistoryRecorder.Recorder.Aggregate | operator/internal/controller/aggregate.go:231-308 | Absent CRDs clear the history, an empty selection hides the diff, anything else is recorded. |
| HistoryPoints.GenerationExactly | operator/internal/controller/history_reconcile.go:148-294 | A generation is complete if and only if every selected suite and each of its members is over at an instant from 1970 to an hour from now; its ends are the first and last second in which a member ended. |
| HistoryPoints.ScanTimeExactly | operator/internal/controller/history_reconcile.go:292-334 | LastScanTime moves to the newest member's second if and only if the generation is complete and there was none or every member ended after it. |
| HistoryPoints.RingsExactly | operator/internal/controller/history.go:78-103 | After a look every selected profile has a ring. When a scan is recorded at t, its point there is the floored percentage of the bucket's passes in Flat mode, of its weighted passes in the weighted one, and missing when those two sums are zero; earlier points stay, the oldest of thirty making room, unless the rings are of the other mode. When none is recorded, the ring is the one before. |
| HistoryPoints.OverallExactly | operator/internal/controller/history.go:48-76 | The overall ring records the rollup's score in the same way. |
| HistoryPoints.ClampExactly | operator/internal/controller/history.go:111-126 | The clamp keeps the newest points in order, forces scores into 0..100 and turns the zero time into the epoch. |
| HistoryModel.CoversUnique | operator/internal/controller/history_reconcile.go:239-294 | The range of a completed generation does not depend on the order suites are visited. |
| Scores.Score64 | operator/internal/controller/scoring.go:49-66 | A score exists exactly for countable sums, lies in 0..100 and is the floored percentage. |
| Aggregate.CountsConserve | operator/internal/controller/aggregate.go:99-122 | The eight counts over all buckets add up to the number of owned results. |
| Aggregate.Conserved | operator/internal/controller/aggregate.go:126-142 | Any count or weight summed over the selected buckets is the pooled one. |
| Aggregate.PooledIsSummed | operator/internal/controller/aggregate.go:30-38 | Pooled passes and failures, plain and weighted, equal the sums over the buckets. |
| Aggregate.OrderAndPagingDoNotMatter | operator/internal/controller/aggregate.go:147-291 | The whole rollup is the same for any order of the results and any split into pages. |
| Aggregate.FailListExactly | operator/internal/controller/aggregate.go:209-224 | The failure list holds exactly the names of owned raw failures, waived ones included. |
| Aggregate.FailListIsStrict | operator/internal/controller/aggregate.go:262-262 | Results with distinct names give a strictly sorted failure list. |
| Aggregate.WaivedExactly | operator/internal/controller/aggregate.go:70-218 | A bucket's Waived count is the number of its named raw failures whose name an unexpired entry of spec.waivers holds, and its Fail count the number of its other raw failures. |
| Aggregate.CountIsNumber | operator/internal/controller/aggregate.go:99-122 | Each of a bucket's counts is the number of its results of that class. |
| Aggregate.CountsExactly | operator/internal/controller/aggregate.go:99-122 | A bucket's pass count is the number of its results whose status comes to PASS; likewise fail and waived (FAIL without and with an unexpired waiver), manual, info, inconsistent, not applicable (SKIP or NOT-APPLICABLE), and error for every other text. |
| Aggregate.ScoreExactly | operator/internal/controller/aggregate.go:126-142 | The score is the floored percentage of passing among passing and unwaived failing results, each counted once, or as 10, 5, 2 and 1 for high, medium, low and any other severity in the weighted mode; each bucket carries its own two numbers and two masses. |
| Aggregate.EffectiveExactly | operator/internal/controller/aggregate.go:186-224 | A raw status counts as itself, except that WAIVED is an error and INCONSISTENT what its nodes' states come to. |
| Aggregate.SuitesExactly | operator/internal/controller/matching.go:14-98 | A suite belongs to a tailored profile exactly when it is "baseline-tp-" and a name, to a built-in one exactly when it is "baseline-" and a key not starting with "tp-", and to none otherwise. |
| Aggregate.Aggregator.CollectWaivers | operator/internal/controller/aggregate.go:69-79 | The loop over spec.waivers collects exactly the names with an unexpired waiver. |
| Inconsistent.EffectiveInconsistentStatus | operator/internal/controller/inconsistent.go:28-95 | One pass over the node entries and the most common state: INCONSISTENT when any state is neither PASS nor inapplicable or none is spelled, else PASS when some node passes, else NOT-APPLICABLE. |
| Inconsistent.UpperStatusToken | operator/internal/controller/inconsistent.go:104-118 | The early-exit loop uppercases ASCII letters and nothing else. |
| Inconsistent.UpperExactly | operator/internal/controller/inconsistent.go:104-118 | Upper case lies 32 below lower case for the ASCII letters, and every other character stays. |
| Inconsistent.StatesComeBack | operator/internal/controller/inconsistent.go:63-95 | The states written as node:STATE entries, and the most common one, are exactly the states read back. |
| Aggregate.Aggregator.Tally | operator/internal/controller/aggregate.go:99-122 | One result bumps exactly one count of its bucket, and the pool when it passed or failed. |
| Aggregate.Aggregator.AddWeight | operator/internal/controller/aggregate.go:126-142 | One result's weight lands on one side of its bucket and of the pool. |
| Aggregate.Aggregator.AggregateStatus | operator/internal/controller/aggregate.go:147-291 | The page and item loops compute the rollup defined by plain sums over all results, which `Aggregate.CountsExactly` and `Aggregate.ScoreExactly` read on the status and severity texts. |
| MetricsCert.RunKeepsInv | operator/cmd/metrics_cert.go:89-217 | The cache and lock invariant holds of every interleaving of handshakes and rotations. |
| MetricsCert.ServesOnlyGenuine | operator/cmd/metrics_cert.go:89-217 | In every reachable state the cached pair and every served pair parsed from content that was once on disk, and all self-signed answers are one identity. |
| MetricsCert.CacheOnlyMovesForward | operator/cmd/metrics_cert.go:125-168 | Between any two moments of a run with distinct rotations the cache neither empties nor moves back to an older rotation. |
| MetricsCert.SelfSignedOnlyWhenEmpty | operator/cmd/metrics_cert.go:191-216 | A handshake gets the self-signed identity only while the cache is empty. |
| MetricsCert.UndisturbedIsCurrent | operator/cmd/metrics_cert.go:92-168 | A handshake whose reads succeed while nothing rotates ends with exactly the pair on disk, whatever stale handshakes do. |
| MetricsCert.EveryStepProgresses | operator/cmd/metrics_cert.go:92-189 | Every handshake ends within fourteen steps of its own. |
| MetricsCert.SomeoneCanGo | operator/cmd/metrics_cert.go:112-167 | There is no deadlock: a blocked handshake waits for one that can move. |
| MetricsCert.MissingLoggedOncePerEpisode | operator/cmd/metrics_cert.go:222-233 | Unreadable files are logged at most once per episode. |
| MetricsCert.LogsExactly | operator/cmd/metrics_cert.go:138-233 | Missing files are logged exactly when no log stands since the last install, a corrupt pair is remembered by its content, an install clears both flags, and no other step touches one. |
| MetricsCert.CachedIsServed | operator/cmd/metrics_cert.go:92-121 | A read of the cached content is answered from the cache, without parsing or installing again. |
| MetricsCertProvider.Provider.GetCertificate | operator/cmd/metrics_cert.go:89-217 | One call's two-attempt loop takes exactly the steps of the transition system, with any change of the shared state by others between any two of them. |
| MetricsCertProvider.CallIsInterleaved | operator/cmd/metrics_cert.go:89-217 | Played among any events of other handshakes and rotations, with the mutex free when it is taken, the call ends where the transition system's interleaving ends. |
| MetricsCertProvider.CallAnswersGenuine | operator/cmd/metrics_cert.go:89-217 | So from any reachable state a call answers with a pair that was once on disk or with the one self-signed identity. |
| MetricsCertProvider.Provider.InstallOrKeep | operator/cmd/metrics_cert.go:138-168 | The guarded install section equals its step. |
| MetricsCertProvider.Provider.LastKnownGood | operator/cmd/metrics_cert.go:191-216 | The fallback section equals its step. |
| MetricsCertProvider.Provider.LogMissingOnce | operator/cmd/metrics_cert.go:222-233 | The once-per-episode log equals its step. |
| EditDistance.Distance | operator/cmd/main.go:550-568 | The two swapped rows compute the recursive Levenshtein distance. |
| EditDistance.LeastEdits | operator/cmd/main.go:549-568 | That distance is the least number of single-character edits between the two texts. |
| EditDistance.LevZero | operator/cmd/main.go:550-568 | Zero exactly on equal texts. |
| EditDistance.LevSymmetric | operator/cmd/main.go:550-568 | Symmetric. |
| EditDistance.LevTriangle | operator/cmd/main.go:550-568 | The triangle inequality. |
| EditDistance.LevBounds | operator/cmd/main.go:550-568 | Between the length difference and the longer length. |
| EditDistance.ClosestFlag | operator/cmd/main.go:533-547 | Returns the first name, help aside, of least distance at most 3, or nothing when there is none. |
| CsvVersion.NamesTotallyOrdered | operator/internal/controller/compliance_version.go:14-78 | Comparing CSV names is a strict total order on all names, and `CsvPrecedence.NamesExactly` says which. |
| CsvVersion.NumericByValue | operator/internal/controller/compliance_version.go:146-153 | Digit runs of any length compare by the integer they spell. |
| CsvVersion.CompareVersionParts | operator/internal/controller/compliance_version.go:80-95 | The loop compares zero-padded cores. |
| CsvVersion.ComparePrerelease | operator/internal/controller/compliance_version.go:97-126 | The loop compares dot-separated segments, numeric below text, shorter below longer. |
| CsvVersion.ComplianceCSVVersion | operator/internal/controller/compliance_version.go:42-62 | The parsing loop accepts exactly prefixed names whose core parts are 64-bit integers. |
| CsvPrecedence.NamesExactly | operator/internal/controller/compliance_version.go:14-78 | A name stands below another if and only if it carries no version where the other does, or its zero-padded core has the smaller part at the first difference, or with equal cores it is a prerelease of a release or has the lower segment first, or the versions are equal and its text is lower. |
| CsvPrecedence.ParsesExactly | operator/internal/controller/compliance_version.go:42-62 | A name carries a version if and only if it has the prefix and every dotted part of its core is a run of digits that fits 64 bits; the parts are the numbers they spell. |
| CsvPrecedence.PrintedParses | operator/internal/controller/compliance_version.go:42-62 | A printed version, with any prerelease and build, is read back part by part. |
| CsvSelection.BestIsNewest | operator/internal/controller/compliance_operator.go:403-452 | The running best is the newest CSV of its tier, the first of equals, or none when the tier is empty. |
| CsvSelection.BestOfPages | operator/internal/controller/compliance_operator.go:393-402 | Folding page after page with an incumbent is folding the whole list. |
| CsvSelection.PickComplianceOperatorCSV | operator/internal/controller/compliance_operator.go:474-497 | The index loop finds that best. |
| CsvSelection.FoldComplianceOperatorCSVs | operator/internal/controller/compliance_operator.go:403-452 | One page folds into both tiers' bests. |
| CsvSelection.FindComplianceOperatorCSV | operator/internal/controller/compliance_operator.go:292-391 | Every exit, complete or cut short, returns the newest of the first occupied tier (local Succeeded, any Succeeded, local other, any other) over what was read: no CSV of that tier has a higher version. |
| CsvSelection.AnswerIsRight | operator/internal/controller/compliance_operator.go:376-391 | The answer comes from the first occupied of the four tiers, and no CSV of that tier has the greater name by version; it is none exactly when all four are empty. |
| CsvSelection.BestTops | operator/internal/controller/compliance_operator.go:474-497 | The running best belongs to its tier, tops every other member of it by version, and is missing exactly when the tier is empty. |
| CsvSelection.WalkReads | operator/internal/controller/compliance_operator.go:327-367 | A walk without an error has read the first pages in turn, up to the last one, a token that does not advance, the fiftieth page, or the CRD's disappearance. |
| CsvSelection.WalkAborts | operator/internal/controller/compliance_operator.go:327-367 | A walk ends in an error only for a page it needed and was refused. |
| CsvSelection.SplitDoesNotMatter | operator/internal/controller/compliance_operator.go:327-367 | A complete walk of at most 50 pages finds the same CSV for every split. |
| Calendar.ReadBackIffValid | console-plugin/src/dates.ts:193-209 | Setting year, month and day and reading them back changes nothing exactly for days of the proleptic Gregorian calendar, for all integers. |
| Calendar.DayToCivilToDay | console-plugin/src/dates.ts:201-208 | Every day number is the number of the valid date read off it. |
| Calendar.CivilToDayToCivil | console-plugin/src/dates.ts:201-208 | Every valid date is read back from its day number. |
| Calendar.DaysAreCounted | console-plugin/src/dates.ts:201-208 | Day numbers count days from 1 January 1970. |
| Dates.IsoDayExists | console-plugin/src/dates.ts:193-209 | False exactly when the text spells a day that does not exist. |
| Dates.ExpiresAtMs | console-plugin/src/dates.ts:67-79 | A date-only expiry is the end of its local day; an impossible day is no instant. |
| Dates.IsParseableTime | console-plugin/src/patches.ts:146-178 | Accepts exactly RFC 3339 shapes with a real day, a real time of day and a finite instant. |
| PatchContents.TimesExactly | console-plugin/src/patches.ts:146-178 | A spelled time with any fraction and zone is let through if and only if its date exists, its hour is below 24, its minute and second below 60, and its instant finite. |
| Patches.AddWaiverPatch | console-plugin/src/patches.ts:205-272 | The field-by-field builder emits the specified operations. |
| PatchContents.RowExactly | console-plugin/src/patches.ts:205-247 | The stored row holds the name and each non-empty text, trimmed and stripped, under its own key, and nothing else. |
| PatchContents.StripsExactly | console-plugin/src/parse.ts:59-82 | Attributions lose every control and format character, a reason all of them but the two joiners, and every other character stays in order. |
| PatchContents.AddRefusesExactly | console-plugin/src/patches.ts:205-271 | A waiver patch is emitted if and only if the name is valid, the reason has at most 1024 and each attribution at most 253 characters, each given time is real, and the list holds the name or fewer than 256 rows. |
| PatchContents.BindRefusesExactly | console-plugin/src/patches.ts:51-67 | A binding is emitted if and only if the name is valid and at most 51 characters, not bound yet, and fewer than 32 are. |
| PatchContents.RemoveRefusesExactly | console-plugin/src/patches.ts:277-290 | A removal is emitted if and only if it has an index and a name. |
| Patches.BatchApplyPatch | console-plugin/src/patches.ts:96-130 | The loop takes the first 256 distinct valid names. |
| Patches.BatchApplyRequested | console-plugin/src/patches.ts:25-38 | True exactly when the operator's reading of the annotation names something. |
| Patches.BatchNamesDistinct | console-plugin/src/patches.ts:101-109 | The names in the request are distinct. |
| PatchContents.BatchNamesExactly | console-plugin/src/patches.ts:96-112 | Name by name, each new valid name, trimmed, goes to the end until there are 256. |
| PatchContents.BatchAsksExactly | console-plugin/src/patches.ts:96-130 | A batch is asked for if and only if some name is valid once trimmed. |
| Patches.BatchValueParsesBack | console-plugin/src/patches.ts:113-113 | The printed value parses back, by the operator's reading, to exactly those names: at most 256, all valid. |
| PatchServer.PlacesExactly | console-plugin/src/patches.ts:42-67 | The lists stand at spec.waivers and spec.tailoredProfiles, the version and the annotations under metadata. |
| PatchServer.NoWaiverLost | console-plugin/src/patches.ts:205-290 | Under any interleaving of clients with stale snapshots the stored waivers equal the accepted requests taken in turn, names stay distinct, sizes stay within 256 and 32, and no binding disappears. |
| PatchServer.GuardedActsOnItsSnapshot | console-plugin/src/patches.ts:42-45 | A guarded patch is accepted only against the very version it was built from. |
| PatchServer.AcceptedActsOnCurrent | console-plugin/src/patches.ts:51-67 | Guarded or not, every accepted patch other than a blind create of a list acts on the two current lists. |
| PatchServer.OthersKeepOrder | console-plugin/src/patches.ts:249-290 | Untouched waivers keep their content and order. |
| PatchServer.BlindCreateKeepsOthersIff | console-plugin/src/patches.ts:198-204 | A create without a version keeps every other waiver if and only if the list it replaces holds none. |
| PatchServer.BlindBindKeepsOthersIff | console-plugin/src/patches.ts:47-67 | A binding created without a version keeps every other binding if and only if there was none. |
| PatchServer.BatchAnnotates | console-plugin/src/patches.ts:96-130 | An accepted batch request sets its annotation among the current ones, unless it creates the map without a version from a snapshot that held none. |
| PatchServer.BatchKeepsOthersIff | console-plugin/src/patches.ts:113-130 | It keeps every other annotation if and only if it is no such create or there is no other annotation. |
| PatchServer.AddRowApplied | console-plugin/src/patches.ts:248-271 | An accepted add or replace puts its row into the list that was there. |
| PatchServer.RemoveApplied | console-plugin/src/patches.ts:277-290 | An accepted removal takes out exactly the named row. |
| PatchServer.BindingApplied | console-plugin/src/patches.ts:51-67 | An accepted binding appends one new name. |
| PatchServer.FreshIsAccepted | console-plugin/src/patches.ts:42-290 | A request built from the newest version, guarded or not, is accepted whenever the builder emits it. |
| ContentKey.DecodeEncode | console-plugin/src/contentKey.ts:23-82 | A decoder recovers every list of undefined, null, number-text, string and JSON-text parts from its encoding. |
| ContentKey.EncodingIsInjective | console-plugin/src/contentKey.ts:63-82 | Equal encodings mean equal lists. |
| ContentKey.EncodeKeyList | console-plugin/src/contentKey.ts:73-82 | The accumulation loop computes the encoding. |
| ContentKey.HistoryContentKey | console-plugin/src/overviewTrend.ts:56-66 | The loop computes the history key. |
| ContentKey.HistoryKeyInjective | console-plugin/src/overviewTrend.ts:44-66 | Two rings share a key exactly when they hold the same points. |
| ContentKey.ClockKeyInjective | console-plugin/src/components/useWaiverExpiryClock.ts:18-40 | Two waiver lists share a key exactly when their names and expiries agree; two clock keys are equal exactly when the fields followed by the offsets are, so exactly when both lists agree as long as names are not numbers and offsets are, or the offsets are as many. |
| ContentKey.PlainJoinCollides | console-plugin/src/contentKey.ts:63-66 | A plain join does not tell lists apart that the encoding does. |
| CsvExport.ExportRoundTrips | console-plugin/src/results.ts:102-144 | After the BOM the export parses to the header and one record per result, in order: the sanitised name; the sanitised, trimmed first line of the description, else the name, else "unknown"; WAIVED for a named failure in the waived set and otherwise the status; the sanitised severity or "unknown"; and "true" exactly for WAIVED. |
| CsvExport.CellComesBack | console-plugin/src/results.ts:91-91 | Any cell text, with quotes, commas, tabs and line breaks, is read back exactly. |
| CsvExport.NeverAFormula | console-plugin/src/results.ts:80-90 | No exported cell reads as a formula or holds an invisible character. |
| CsvExport.SanitiseExactly | console-plugin/src/results.ts:80-90 | A cell is its cleaned text, behind an apostrophe exactly when that text is white space and then one of the thirteen sigils. |
| CsvExport.CleanExactly | console-plugin/src/results.ts:83-88 | Cleaning keeps every character but the format characters and the export controls, in order. |
| CsvExport.ControlsExactly | console-plugin/src/parse.ts:48-54 | The export controls are C0, DEL and C1 without tab and the line breaks. |
| CsvExport.SanitiseTwice | console-plugin/src/results.ts:83-90 | Sanitising is idempotent. |
| CsvExport.ResultsCsv | console-plugin/src/results.ts:102-144 | The line loop computes the export. |
| WaiverClock.StandsStill | console-plugin/src/waivers.ts:47-80 | The active set and the expiring-soon list are constant until the soonest deadline, and for ever when there is none. |
| WaiverClock.TicksReachDeadline | console-plugin/src/components/useWaiverExpiryClock.ts:42-56 | Repeated capped delays reach the soonest deadline in finitely many ticks, at most 25 ms late, and see it still ahead before that. |
| WaiverClock.Schedule | console-plugin/src/components/useWaiverExpiryClock.ts:42-51 | The scheduled delay is 0 exactly when no deadline lies ahead, else the padded, capped distance to the soonest. |
| WaiverClock.NextIsStable | console-plugin/src/waivers.ts:111-131 | Looking again before the soonest deadline finds the same one. |
| WaiverClock.FutureWaiverDeadlines | console-plugin/src/waivers.ts:111-131 | The loops collect exactly the future expiries and their future offsets. |
| WaiverClock.SoonestDeadlineDelay | console-plugin/src/waivers.ts:89-106 | Zero exactly when no deadline is ahead, else the delay to the soonest. |
| WaiverClock.ActiveWaivedNames | console-plugin/src/waivers.ts:47-58 | The loop computes the active set. |
| WaiverClock.IsWaived | console-plugin/src/waivers.ts:27-42 | A check is waived exactly when the active set holds its name. |
| WaiverClock.ActiveExactly | console-plugin/src/waivers.ts:47-58 | A name is active exactly when it is not empty and an entry of it never expires or expires later than now; an unreadable expiry is neither. |
| WaiverClock.ExpiringExactly | console-plugin/src/waivers.ts:60-80 | The expiring-soon list keeps, in order, exactly the waivers with a readable expiry ahead by no more than the window. |
| WaiverClock.NearestWaiverExpiry | operator/internal/controller/clusterbaseline_controller.go:480-493 | The time to the soonest expiry ahead, or 0 when there is none. |
| WaiverClock.RequeueAfterAt | operator/internal/controller/clusterbaseline_controller.go:460-476 | Between 1 s and 60 s, at most 15 s while busy, and never past an expiry by more than the 1 s floor. |

## Left out

Assumptions and simplifications of the batch model:

- One worker reconciles, and a read sees the latest write; stale informer caches are not modelled.
- Administrators touch only pools without our marker; the console writes only the request annotation.
- A missing MachineConfigPool CRD means that no pool exists.
- Conflicts are detected by content rather than by a resourceVersion counter, and any call may also be told that it conflicts.
- Listing the remediations is one read; its paging and the retry sleeps, context cancellation and log lines are not modelled.
- The start annotation is an absent, unusable or exact instant; RFC 3339 text and its second granularity are not modelled.
- Batches stored without an owner by older releases, and hand-edited batches the schema would reject, are not modelled.
- The other reconcile steps between the batch work and the status write are not modelled; the skip of an unchanged status write is covered for history only.
- BatchLifecycle.PastGraceFrees: needs the calls served, because a refused one fails the reconcile and leaves the work to the next.
- BatchLifecycle.CountedAtMostOnce: says nothing about a batch whose request is resubmitted or withdrawn meanwhile, because a resubmit is a new request.

History, rollup and scores:

- End timestamps are parsed instants or unreadable; the text format of a scan's end is not modelled. A point's scoring mode is kept in the model only to state what a ring mixes; the stored point does not carry it.
- Result names are unique in a namespace, so the failure list is strictly sorted; the deduplication and the 253-character cut of the status clamp then change nothing and are not modelled. A name's cost is its length plus three, exact for the ASCII names Kubernetes allows.
- Hand-edited rings and lists beyond what the operator itself writes are not modelled.
- The rollup's counters are unbounded, not 32-bit. A result's severity is one text: that it comes from the object's field or else from its label is not modelled.
- Next-scan times, related objects, conditions and metrics are not modelled.

Certificates:

- Reading certificate and key is one step; a pair torn between two rotations appears as a content of its own.
- Parsing, key generation and the digest are abstract; the digest is injective.
- MetricsCert.CacheOnlyMovesForward: needs every rotation to write new content, because a digest cannot tell a restored old pair from a new one.

Console:

- JSON pointers are lists of tokens; their text form with `~1` is not modelled. Numbers and booleans inside documents are not modelled.
- PatchServer.NoWaiverLost: the API server's own schema admission is not modelled; other writers never touch the two lists.
- The schedule, rescan and remediation-mode patches would only add easy members.
- Strings are sequences of Unicode code points, or of UTF-16 units in `ContentKey`; lone surrogates are not modelled.
- ContentKey.DecodeEncode: booleans and bigints share the string spelling and unserializable values share kind tags in the source, so both are excluded; 0 and -0 print alike.
- `Date.parse`, the local time zone and timers are parameters; a timer is taken to fire exactly when due.
- The general category Cf and JavaScript white space are written out as ranges.
- Translated labels, HTML reports, charts, collation and all React components but the waiver clock are not modelled.

Everything else the operator does, such as subscriptions, scan settings, console deployment, dashboards, RBAC and informers, is not modelled.
