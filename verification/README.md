# squadopt scripts, verified

A Dafny model of the protocol, checker and walk-forward code of the Fantasy Premier League
optimizer's `scripts/`, with the library functions they rest on. Documents, files and clocks are
values; an exception is an outcome; a hash is an injective function; a solver, a model fit or a
forecast reader is an arbitrary function of its inputs.

`dafny verify dfyconfig.toml` checks the whole project.

- **Release checker** (`Json`, `AdviceIndex`, `RefusedIndex`, `Walk`, `Pricing`, `Variants`,
  `VariantsRun`, `VariantsMeaning`, `Top100`, `Top100Meaning`, `Raising`, `VariantsRaising`,
  `Top100Raising`, `ReleaseCheck`). Parsed documents with Python's `==`, `get`, subscripts,
  arithmetic and exceptions; the two tree checks as loops over one list; what a clean tree is, said
  without the checks, which are silent exactly on the clean trees; and the places where a check can
  raise, in the order it comes to them, which decide when it fails instead of reporting.
- **Checkpoints** (`PythonJson`, `AtomicWrites`, `Checkpoints`, `CrashSafe`). Temp-file-and-replace
  as a protocol of many processes with refused replaces and crashes, the retry loop as one of its
  histories, one identity per directory over every history of runs, and the two composed.
- **Shadow receipts and pairing** (`CaptureInventory`, `ShadowReceipts`, `ShadowRun`,
  `ProspectivePairing`). The deadline-gated, create-once receipt as a protocol, the command as one
  of its histories, the reader that agrees with it, and the three-branch pairing.
- **Out-of-fold export** (`OofKeys`, `OofDigest`, `OofWalk`, `OofWalkMeaning`, `OofRoster`,
  `OofSidecar`, `OofRounding`). The fold walk, its freedom from leaks, what its digests name, the scored
  population and the rounding identity.
- **Availability transitions** (`Wilson`, `TransitionCells`, `Transitions`, `BoundedReading`,
  `BoundedStability`). The Wilson interval in exact reals, counting, and exactly which captures a
  bounded reading does not depend on.
- **Fixture, amendment, scorecard** (`MoveRows`, `LegalFifteen`, `Amendment`, `AmendmentMeaning`,
  `AmendmentTorn`, `Scorecard`, `ScorecardMeaning`, `ScorecardForgery`). Swaps that reconcile, the rejection draw, an
  amendment that converges when cut between writes and what a cut inside one leaves, a log that
  only grows, and which rows of it can be forged.

Where the code and its documentation part, the code is followed and the difference is proved:

- `scripts/_phase_e_checkpoints.py:59` says the temporary file never survives a failure. It does
  after a crash or an error other than the fortieth refusal, once some of it was written or when one
  of its name was there before (`AtomicWrites.LeftoverExactlyWhen`).
- `scripts/add_device_plan_inputs.py:16-19` says a refusal leaves the tree untouched; the exact
  condition is `AmendmentMeaning.UntouchedExactlyWhen`, and `RefusedAfterAWrite` is a tree where it fails.
- The same script writes its files in place. Cut inside one, only the league's own table is put
  right by running again (`AmendmentTorn.TornRunConvergesExactlyWhen`). A directory that
  lacks only its final newline still reads: that cut counts as one between writes.
- `scripts/append_weekly_scorecard.py:9` says rows are immutable and a written row is refused. A
  model version can forge a row of another week, which is then refused though it was never written:
  exactly when one of its lines after the first starts as that row does
  (`ScorecardForgery.OneRowExactlyWhen`, `RefusedExactlyWhen`, `BrokenVersionBlocksAWeek`). A carriage
  return in it is read back as a newline (`ScorecardMeaning.GrowsExactlyWhen`).
- `scripts/export_component_oof.py:318-324` says different rows give different digests. A season
  name that splits breaks that, and nothing else can for one row or for seasons that do not split
  (`OofDigest.OneRowIsNamedExactlyWhen`, `OofDigest.KeyTextInjective`, `OofDigest.BrokenSeasonCollides`).
- `scripts/check_league_tree.py:811` turns the errors of an unreadable tree into findings, but not an
  `AttributeError` or an `OverflowError`; `ReleaseCheck.EscapesExactlyWhen` says on which trees the
  check itself fails.

## Model

| member | source | states |
| --- | --- | --- |
| `Walk.WalkInto` | scripts/check_league_tree.py:126-136 | the recursive walk appends to the list it is given exactly the hits of the node, in document order |
| `Walk.SilentExactlyWhenClean` | scripts/check_league_tree.py:126-136 | a walk finds nothing exactly when no node reachable through keys and positions is a forbidden text or carries a forbidden key |
| `Pricing.PriceMeans` | scripts/check_league_tree.py:139-157 | for integers, decimals and bools alike: a price is never negative, its ceiling is the price to 1e-9 over a proven control and absent over a merely found one, and the difference raises exactly when an integer past every float meets a float |
| `Pricing.AverageMeaning` | scripts/check_league_tree.py:557-561 | a mean and a maximum can be printed exactly when the values are numbers that add up within a float: integers exactly, a mixed list up to its first float and value by value after it |
| `Pricing.AverageErrors` | scripts/check_league_tree.py:557-561 | which of the two errors ends a summary: an overflow, or a value that is no number |
| `RefusedIndex.PageAccepts` | scripts/check_league_tree.py:195-312 | the page accepts every index that reads as the producer's refused shape |
| `RefusedIndex.Recognised` | scripts/check_league_tree.py:329-365 | the recogniser gives back exactly the reason of such an index |
| `RefusedIndex.ProducedRoundTrip` | src/squadopt/application/league_views.py:1030-1056 | for every valid identity, strategy list and reason, the produced index passes the page and its reason is read back |
| `RefusedIndex.RecognisedIsProduced` | scripts/check_league_tree.py:64-79 | the converse: a page-valid index with a recognised reason is, up to Python's equality, the produced index of one valid task and that reason |
| `RefusedIndex.PositiveIsItsInteger` | scripts/check_league_tree.py:166-176 | a number the page reads as an id is a safe integer above zero, however it is written |
| `VariantsRun.CheckVariants` | scripts/check_league_tree.py:405-568 | the nested loops over one problems list return the findings of each human member in turn and then the summary's error if it has one, or the first exception |
| `VariantsRun.CheckDevice` | scripts/check_league_tree.py:422-440 | a device member's findings: inputs that do not match, and a published baseline |
| `VariantsRun.CheckPureWindows` | scripts/check_league_tree.py:447-455 | the one-week window is named, and every named pure window is looked up at its one path |
| `VariantsRun.CheckChips` | scripts/check_league_tree.py:456-469 | every chip document of an available chip menu is looked up at its one path, in key order |
| `VariantsRun.CheckLongerWindows` | scripts/check_league_tree.py:470-487 | each longer window of each rival strategy is reported unless the index names it or states why not |
| `VariantsRun.CheckDocuments` | scripts/check_league_tree.py:488-552 | expected Top 100 keys that no document carries are reported, then every named and computed document is checked |
| `VariantsRun.CheckPayload` | scripts/check_league_tree.py:525-552 | one document's identity, price, plan weeks, gap, private keys and forbidden text |
| `VariantsMeaning.PureMeaning` | scripts/check_league_tree.py:447-455 | no pure-window finding exactly when the one-week window is named and every named window's document is there |
| `VariantsMeaning.ChipsMeaning` | scripts/check_league_tree.py:456-469 | no chip finding exactly when every chip of an available menu is at its one path and published |
| `VariantsMeaning.LongerMeaning` | scripts/check_league_tree.py:470-487 | no window finding exactly when every longer window of every offered rival strategy is named or stated unavailable |
| `VariantsMeaning.ExpectedMeaning` | scripts/check_league_tree.py:489-509 | no key is missing exactly when every weight of every longer pure window and of every unstated rival triple is named |
| `VariantsMeaning.PayloadMeaning` | scripts/check_league_tree.py:525-552 | a document adds nothing exactly when it is the row's own (mode, window, rival, weight), priced, with its plan weeks and nothing forbidden |
| `VariantsMeaning.RowMeaning` | scripts/check_league_tree.py:510-552 | a row adds nothing exactly when its document exists and is right |
| `VariantsMeaning.DocumentsMeaning` | scripts/check_league_tree.py:489-552 | the documents of a menu add nothing exactly when all are readable, backed and complete in their weights |
| `VariantsMeaning.DeviceMeaning` | scripts/check_league_tree.py:422-440 | a device member adds nothing exactly when its squad document holds fifteen different players of the index's own capture, chips, league and week, and no baseline is published |
| `VariantsMeaning.MemberMeaning` | scripts/check_league_tree.py:413-552 | a member adds nothing exactly when its index is page-valid and a stated refusal, a backed device menu or a backed full menu |
| `VariantsMeaning.HumansMeaning` | scripts/check_league_tree.py:411-412 | the members visited are exactly the human ones, and reading them fails exactly when a row is no object or a human one has no entry id |
| `VariantsMeaning.SummaryMeaning` | scripts/check_league_tree.py:557-561 | the summary by window is printed without error exactly when every window's ceilings can be averaged |
| `VariantsMeaning.SilentExactlyOnCleanTrees` | scripts/check_league_tree.py:405-568 | for every tree, the variants check runs without error, its summary included, and finds nothing exactly when the tree is clean, said without the check |
| `VariantsMeaning.MemberListsConcatenate` | scripts/check_league_tree.py:405-568 | the findings of two member lists are those of the one, then those of the other |
| `VariantsMeaning.RefusedMemberAddsNothing` | scripts/check_league_tree.py:418-421 | a refused member in the producer's shape adds no variants finding |
| `Top100.CheckTop100` | scripts/check_league_tree.py:571-681 | the nested loops return the problems of each human member in turn, unless the summary of the prices raises and the list is lost, or the first exception |
| `Top100.CheckRows` | scripts/check_league_tree.py:601-613 | rows stated unsolved are gathered by weight and word, and malformed ones reported, in one pass |
| `Top100.CheckList` | scripts/check_league_tree.py:617-662 | one list of paths, weight by weight: stated, missing, misplaced, unpublished or checked |
| `Top100.CheckDocument` | scripts/check_league_tree.py:638-662 | one weighted document: weight, word, price, stated limit, private keys and forbidden text |
| `Top100Meaning.PayloadMeaning` | scripts/check_league_tree.py:643-662 | a weighted document adds nothing exactly when it carries its weight, the word exactly on the word list, an agreeing price and the stated limit of its weight |
| `Top100Meaning.WeightMeaning` | scripts/check_league_tree.py:624-662 | a weight adds nothing exactly when its document is at its one path and right, or its absence is stated or the word is off |
| `Top100Meaning.ListMeaning` | scripts/check_league_tree.py:618-662 | a list adds nothing exactly when it is an object whose every weight is backed, and empty where the word is off |
| `Top100Meaning.BaselineMeaning` | scripts/check_league_tree.py:614-616 | the baseline adds nothing exactly when it is published and carries no Top 100 block |
| `Top100Meaning.MemberMeaning` | scripts/check_league_tree.py:581-662 | a member adds nothing exactly when its index is page-valid and refused, its menu stated absent, or every weight backed |
| `Top100Meaning.SummaryMeaning` | scripts/check_league_tree.py:667-673 | the summary by weight is printed without error exactly when every weight's plain prices can be averaged |
| `Top100Meaning.SilentExactlyOnBackedTrees` | scripts/check_league_tree.py:571-681 | for every tree, the Top 100 check runs without error, its summary included, and finds nothing exactly when every human member's menu is backed and its prices can be averaged |
| `Top100Meaning.RefusedMemberAddsNothing` | scripts/check_league_tree.py:586-589 | a refused member in the producer's shape adds no Top 100 problem |
| `ReleaseCheck.RunInTurn` | scripts/check_league_tree.py:806-813 | findings are extended check by check; a caught error becomes one finding, an attribute or arithmetic error ends the run |
| `ReleaseCheck.RunChecks` | scripts/check_league_tree.py:797-813 | the four checks are run in turn over the tree |
| `ReleaseCheck.PassesExactlyOnCompleteTrees` | scripts/check_league_tree.py:797-813 | the release check returns no finding exactly when the identity and word checks find none and the tree is clean for variants and Top 100 |
| `VariantsRaising.VariantsEscape` | scripts/check_league_tree.py:405-568 | the variants check ends with an uncaught error exactly when, among the places of the tree it reads in order, one is an attribute read on a value that is no object or a price or mean past every float, and none before it fails |
| `VariantsRaising.HugePriceRaises` | scripts/check_league_tree.py:155 | an integer price past every float, with a decimal ceiling, raises instead of being reported |
| `Top100Raising.Top100Escapes` | scripts/check_league_tree.py:571-681 | the same exact condition on the places the Top 100 check reads |
| `ReleaseCheck.EscapesExactlyWhen` | scripts/check_league_tree.py:797-813 | the release check itself fails exactly when one of the other two checks does with an uncaught error, or the tree meets either of those two conditions |
| `ReleaseCheck.TextAmongMembersEscapes` | scripts/check_league_tree.py:811-812 | a members list holding a text makes the check fail instead of reporting it |
| `PythonJson.RoundTripsExactlyWhenStable` | scripts/_phase_e_checkpoints.py:54-88 | a value written and read back equals itself exactly when it is stable: text keys, lists for tuples, no two keys of one text |
| `PythonJson.WrittenTwice` | scripts/_phase_e_checkpoints.py:54-66 | what was read back is written as the same document again |
| `PythonJson.JsonableIsStable` | scripts/_phase_e_checkpoints.py:38-51 | what jsonable returns for records, mappings, sequences, enums and paths over scalar leaves survives the round trip |
| `AtomicWrites.TempNamesDiffer` | scripts/_phase_e_checkpoints.py:63 | temporary names of different processes or paths differ |
| `AtomicWrites.TempIsNotJson` | scripts/_phase_e_checkpoints.py:63 | no temporary name matches the reader's *.json listing |
| `AtomicWrites.EveryHistoryIsSafe` | scripts/_phase_e_checkpoints.py:54-75 | over every interleaving of processes, refused replaces and crashes, no file matching *.json is ever partial and every process owns its temporary file |
| `AtomicWrites.OldOrNew` | scripts/_phase_e_checkpoints.py:54-75 | one step leaves a *.json path as it was, or holding the complete document its process was asked to save |
| `AtomicWrites.BoundedRetries` | scripts/_phase_e_checkpoints.py:67-75 | at most forty replaces are tried for one save |
| `AtomicWrites.ExhaustionCleansUp` | scripts/_phase_e_checkpoints.py:71-74 | the fortieth refusal removes the temporary file and changes no *.json file |
| `AtomicWrites.TempThereExactlyWhen` | scripts/_phase_e_checkpoints.py:62-66 | over every history, while a process saves, its temporary file is there exactly when it wrote some of it or found one of that name when it set out |
| `AtomicWrites.LeftoverExactlyWhen` | scripts/_phase_e_checkpoints.py:59-75 | however a save ends, while writing or while replacing, its temporary file is left exactly when it ended in a crash or in an error other than the fortieth refusal, and had been written to or been there before |
| `AtomicWrites.ReplacingHasWritten` | scripts/_phase_e_checkpoints.py:64-69 | from its first replace on a save has written, so a crash or another error always leaves the file |
| `AtomicWrites.Disk.WriteJsonAtomic` | scripts/_phase_e_checkpoints.py:54-75 | the retry loop stops at the first answer that is no refusal or after forty; the path holds the new document exactly on success and is untouched otherwise |
| `AtomicWrites.CallIsAHistory` | scripts/_phase_e_checkpoints.py:54-75 | what a call of the loop leaves is what a history of the step protocol leaves |
| `Checkpoints.Directory.RefuseForeignWork` | scripts/_phase_e_checkpoints.py:105-118 | the scan refuses exactly when some file is of another identity, or of another pool under a label this run probes |
| `Checkpoints.Directory.LoadCheckpoint` | scripts/_phase_e_checkpoints.py:140-149 | never written, refused, or the verified document |
| `Checkpoints.Directory.SaveCheckpoint` | scripts/_phase_e_checkpoints.py:151-172 | the label's file becomes the encoded checkpoint, or nothing changes when it cannot be serialised |
| `Checkpoints.LoadAfterSave` | scripts/_phase_e_checkpoints.py:140-172 | load after save returns the document for the same pool exactly when the identity survives a JSON round trip, and is refused for another pool |
| `Checkpoints.LoadedIsSaved` | scripts/_phase_e_checkpoints.py:151-172 | a checkpoint of stable parts is loaded as it was saved |
| `Checkpoints.OneDirectoryOneIdentity` | scripts/_phase_e_checkpoints.py:105-172 | over every history of scanning, loading and saving runs whose overlaps share an identity, all checkpoints ever present carry one identity and the label their file is named by, and none disappears |
| `Checkpoints.WorkingRunsLoad` | scripts/_phase_e_checkpoints.py:140-149 | in such a history a working run loads what is there exactly when its identity is stable |
| `Checkpoints.SaveAloneOverwrites` | scripts/_phase_e_checkpoints.py:151-172 | save checks nothing: outside such histories it overwrites foreign work |
| `CrashSafe.StepSimulates` | scripts/_phase_e_checkpoints.py:54-172 | with crashes, partial files, refused and failed replaces, every step of the machine is to a reader nothing, or one step of a history whose saves are single steps |
| `CrashSafe.OneIdentityWhateverCrashes` | scripts/_phase_e_checkpoints.py:54-172 | over every such history the listed checkpoints are complete, carry one identity at all times, are named by their labels and are never lost |
| `CrashSafe.WorkingRunsLoadWhateverCrashes` | scripts/_phase_e_checkpoints.py:140-149 | over every such history a working run loads what is there exactly when its identity is stable |
| `CaptureInventory.GameweekCaptures` | scripts/build_football_shadow.py:90-115 | the capture's own week in capture order with the skipped ids, or the refusal for a foreign source or an absent decision capture |
| `CaptureInventory.NewestMeansStrictlyLast` | scripts/build_football_shadow.py:139-141 | newest_for_gameweek is true exactly when the capture is the week's only last one |
| `CaptureInventory.ScoredMeansStrictlyLast` | scripts/football_prospective_inputs.py:84-94 | scored_capture selects a capture exactly when it is the week's only last one, and says why otherwise |
| `CaptureInventory.NewestIsScored` | scripts/build_football_shadow.py:190-192 | the writer's newest and the reader's scored capture are the same capture over the same inventory |
| `CaptureInventory.OneNewestInAnyOrder` | scripts/build_football_shadow.py:90-115 | at most one capture of a week is newest, whatever the order of the inventory |
| `ShadowReceipts.EveryReceiptIsGated` | scripts/build_football_shadow.py:118-196 | every receipt in every reachable state: both clock readings before the deadline, served false, written_before_deadline true to the artifact, accepted by its reader |
| `ShadowReceipts.ReceiptsNeverChange` | scripts/build_football_shadow.py:195 | receipts and artifacts once there are the same in every later state |
| `ShadowReceipts.ReceiptSays` | scripts/build_football_shadow.py:163-194 | the receipt's fields state the capture, the artifact's digest, the fingerprint and served false; and the v1 reader accepts its keys |
| `ShadowReceipts.WriterAndReaderAgree` | scripts/football_prospective_inputs.py:165-225 | on the unchanged root the receipt matches with served false, and the artifact is usable exactly when written before the deadline and not after as_of |
| `ShadowReceipts.ChangedBytesNeverMatch` | scripts/football_prospective_inputs.py:139-162 | after any change to the artifact's bytes the receipt never matches again |
| `ShadowRun.ShadowRoot.BuildShadow` | scripts/build_football_shadow.py:118-196 | one run's whole effect on the root, check by check in the source's order, and what it returns or raises |
| `ShadowRun.RunIsAHistory` | scripts/build_football_shadow.py:118-196 | a run alone on a reachable root is itself a history of the protocol: it leaves on disk what its steps leave |
| `ShadowRun.CompletedRunIsGated` | scripts/build_football_shadow.py:136-195 | a completed run read both clocks before the deadline, filed its capture's first receipt, and states newest truly |
| `ProspectivePairing.MatchingHandoffs` | scripts/football_prospective_inputs.py:256-281 | the alias then the retained copies, keeping those that name the target; an OSError reaches the caller |
| `ProspectivePairing.BackendRuleHandoff` | scripts/football_prospective_inputs.py:284-301 | the matching alias wins, otherwise the one retained fingerprint's first copy, otherwise none |
| `ProspectivePairing.CountedRecordFingerprints` | scripts/football_prospective_inputs.py:304-364 | the pre-deadline records' count and fingerprints, or a refusal when a record cannot be trusted |
| `ProspectivePairing.CountedMeans` | scripts/football_prospective_inputs.py:304-364 | a fingerprint is counted exactly when an eligible record names it |
| `ProspectivePairing.PairCurrent` | scripts/football_prospective_inputs.py:367-460 | the three-branch pairing, or the first exception of its two readings |
| `ProspectivePairing.SelectedIsTheTarget` | scripts/football_prospective_inputs.py:367-460 | what is selected names the target, and under branch a carries the one recorded fingerprint |
| `ProspectivePairing.BranchTable` | scripts/football_prospective_inputs.py:367-460 | no handoff exactly under branch c; replay exactly under branch b for a file written at or after the deadline |
| `ProspectivePairing.RetainedCopyIsPreferred` | scripts/football_prospective_inputs.py:423-426 | under branch a the alias is reported only when no retained copy carries the fingerprint |
| `ProspectivePairing.DiffersTable` | scripts/football_prospective_inputs.py:427-441 | backend_rule_differs exactly when a matching alias has another fingerprint, or none matches and the retained copies hold two or more |
| `ProspectivePairing.LateRecordChangesNothing` | scripts/football_prospective_inputs.py:343-346 | a valid record stamped at or after the deadline changes neither the counting nor the pairing |
| `OofKeys.FoldIdInjective` | src/squadopt/backtest/splits.py:60-64 | a fold label names one season and gameweek, whatever the season is called |
| `OofDigest.KeyTextInjective` | scripts/export_component_oof.py:317-335 | training sets none of whose seasons split have one digest text exactly when they are the same rows in the same order |
| `OofDigest.AnotherListExactlyWhen` | scripts/export_component_oof.py:317-335 | a digest text belongs to another list of rows too exactly when it is that of two rows or more, or of one row whose season splits: a line break in it follows what reads as a gameweek and a player |
| `OofDigest.OneRowIsNamedExactlyWhen` | scripts/export_component_oof.py:317-335 | one row alone shares its text with other rows exactly when its season splits |
| `OofDigest.BrokenSeasonCollides` | scripts/export_component_oof.py:326-334 | one row with a splitting season passes for two rows |
| `OofWalk.BuildOofTable` | scripts/export_component_oof.py:509-669 | the walk over the decisions: refused folds, records, training rows, the rounded and sorted table, the rounded and sorted distributions beside it, or the first error |
| `OofWalkMeaning.TrainingWeeksIncrease` | scripts/export_component_oof.py:526-539 | the training folds are the distinct weeks of the training rows, strictly increasing by season rank and gameweek |
| `OofWalkMeaning.GuardNeverFires` | scripts/export_component_oof.py:540-546 | the rows strictly before a week never hold the week, so the self-membership guard never fires |
| `OofWalkMeaning.TrainingSetsNest` | src/squadopt/prediction/component_dataset.py:273-307 | the training rows of an earlier decision are those of a later one, cut at the earlier |
| `OofWalkMeaning.ScoredOncePerDecision` | scripts/export_component_oof.py:516-619 | each row is scored once for each time its own week is decided |
| `OofWalkMeaning.ScoredExactlyOnce` | scripts/export_component_oof.py:509-669 | with distinct decisions and rows, each row of a decided week is scored exactly once and no other row is |
| `OofWalkMeaning.TableIsOutOfFold` | scripts/export_component_oof.py:509-669 | every entry is the rounded prediction of the model fitted on exactly the rows strictly before its week; every record is honest, cutoff last, own fold absent; scored-row counts sum to the table |
| `OofWalkMeaning.TableIsSorted` | scripts/export_component_oof.py:645-650 | the table is sorted by season text, gameweek and player, and the refused folds are those whose fit was refused |
| `OofSidecar.SidecarIsTheTables` | scripts/export_component_oof.py:620-662 | beside the table stands, row by row and in its order, the rounded distribution that the same out-of-fold model gives for each row that has one, once each, and nothing else |
| `OofSidecar.SidecarIsOutOfFold` | scripts/export_component_oof.py:620-662 | and so exactly the distributions of rows of decided weeks stand there, sorted by key; none exactly when a development arm declares none |
| `OofSidecar.SortFlatMap` | scripts/export_component_oof.py:653-658 | the stable sort of what rows give one by one is what the sorted rows give |
| `OofWalkMeaning.OutcomesCannotLeak` | scripts/export_component_oof.py:464-468 | rewriting the outcomes of a week and all later ones changes none of that week's predictions, distributions and record |
| `OofWalkMeaning.WalkRefusals` | scripts/export_component_oof.py:517-546 | no population exactly when no decided week has rows; a configuration error exactly when one has and the order does not rank every season once |
| `OofRoster.RosterIsTheScoredPopulation` | scripts/export_component_oof.py:672-705 | the roster holds one row per scored row and nothing else, with the one panel record of its key |
| `OofRoster.RosterRefusals` | scripts/export_component_oof.py:694-701 | refused exactly when a key repeats on either side, or a scored row has no named panel record |
| `OofRounding.HalfEvenMeans` | scripts/export_component_oof.py:355-357 | rounding gives the nearest value, the even one of two |
| `OofRounding.RoundAndDeriveIdempotent` | scripts/export_component_oof.py:338-367 | rounding and deriving an exported row changes nothing |
| `OofRounding.ControlIsRecomputable` | scripts/export_component_oof.py:338-367 | the bound recomputed from the exported columns is exact whichever factor is clipped, never negative, and within half a unit of the last decimal |
| `OofRounding.AbsentExactlyWhenUnderived` | scripts/export_component_oof.py:359-366 | a derived column is absent exactly when what it derives from is |
| `OofRounding.DerivingFirstDisagrees` | scripts/export_component_oof.py:341-347 | deriving before rounding exports a value its own columns do not give |
| `OofRounding.NegativeFactorDisagrees` | scripts/export_component_oof.py:349-352 | with a negative factor the two clips differ |
| `Wilson.IntervalIsTheScoreTest` | scripts/measure_availability_transitions.py:91-101 | the interval is exactly the set of true shares the score test does not reject; both clamps are no-ops and it holds the observed share |
| `Wilson.FailuresReflect` | scripts/measure_availability_transitions.py:91-101 | counting failures instead of successes reflects the interval |
| `Wilson.MoreSuccessesRaiseBothEnds` | scripts/measure_availability_transitions.py:91-101 | both ends are monotone in the successes |
| `Wilson.OutsideTheTrials` | scripts/measure_availability_transitions.py:93-96 | no interval exactly without trials; refused exactly for a count outside them |
| `TransitionCells.ResolveTable` | scripts/measure_availability_transitions.py:104-132 | the class of every (status, chance): unknown statuses first, then a stated chance, then the status |
| `TransitionCells.ReadOutcomes` | scripts/measure_availability_transitions.py:236-248 | one pass puts each code into one class, in order |
| `TransitionCells.ClassesPartition` | scripts/measure_availability_transitions.py:236-248 | the classes together hold exactly the codes read |
| `TransitionCells.ClassMembers` | scripts/measure_availability_transitions.py:236-248 | a code is in a class exactly when it was read and resolves to it |
| `TransitionCells.CellSharesAreShares` | scripts/measure_availability_transitions.py:209-233 | no count of a cell exceeds its trials, so no share of it is refused; the sorted players are the counted ones |
| `TransitionCells.StatedMeans` | scripts/measure_availability_transitions.py:272-279 | a cell reads exactly the players stated at its chance, and the fourth those stated at any |
| `TransitionCells.PooledCellAddsUp` | scripts/measure_availability_transitions.py:274-280 | a pair's pooled cell counts what its three stated chances count together |
| `Transitions.NextOpen` | src/squadopt/data/sources/fpl_live.py:335-363 | the earliest gameweek whose deadline is strictly later; none exactly when all have closed |
| `Transitions.DecisionCaptures` | scripts/measure_availability_transitions.py:139-186 | the held capture per gameweek, the skipped ones and the inventory, or the refusal of a missing or empty root |
| `Transitions.ChosenIsLast` | scripts/measure_availability_transitions.py:144-185 | a gameweek has a decision capture exactly when a capture decides it, and it is the last by instant and listing position |
| `Transitions.InventoryNamesEveryCapture` | scripts/measure_availability_transitions.py:159-178 | every capture read is in the inventory in order, and skipped with its reason exactly when it is no decision |
| `Transitions.PairTable` | scripts/measure_availability_transitions.py:251-281 | two consecutive captures pair exactly when the later is timely, agrees on the deadline and both list their players once; otherwise the first refusal in order |
| `Transitions.PooledIsTheSumOfProspectivePairs` | scripts/measure_availability_transitions.py:284-300 | the pooled figure counts exactly what the prospective pairs count |
| `BoundedReading.Measure` | scripts/measure_availability_transitions.py:303-377 | a whole reading, bounded or not, or its refusal |
| `BoundedReading.ReadingAccountsForEveryWeek` | scripts/measure_availability_transitions.py:327-351 | every decision capture is in one pair, one refused pair or without partner; pairs are consecutive and prospective exactly by their deadline |
| `BoundedStability.DecisionsKeptExactlyWhen` | scripts/measure_availability_transitions.py:316-323 | dropping captures leaves the decision captures up to the bound exactly when each dropped one that decides such a week comes, by instant then place, before a kept one that decides it |
| `BoundedStability.BoundedReadingIsStable` | scripts/measure_availability_transitions.py:316-326 | dropping captures that are beaten in that sense and taken after the horizon leaves every field of the reading |
| `BoundedStability.ReadingKeptExactlyWhen` | scripts/measure_availability_transitions.py:303-377 | a bounded reading that completes is the same without some captures exactly when each of them was taken after the horizon and is beaten where it decides a week up to the bound |
| `BoundedStability.LaterCapturesDoNotDisturb` | scripts/measure_availability_transitions.py:316-326 | any captures taken after the bound week's deadline may be added, when captures agree on increasing deadlines |
| `BoundedStability.MovedDeadlineDisturbs` | scripts/measure_availability_transitions.py:316-326 | without agreement a later capture takes the bound week over |
| `MoveRows.GainsOnChipBasis` | scripts/export_device_plan_fixture.py:360-387 | the in-place chain of swaps: the gains, or none when a row cannot be played, a squad has no value or the chain ends elsewhere |
| `MoveRows.RowsReconcile` | scripts/export_device_plan_fixture.py:300-357 | holding plus the published rows is the plan's total, to 1e-6, with one gain per row |
| `MoveRows.GainsTelescope` | scripts/export_device_plan_fixture.py:371-387 | the gains sum to the last squad's value less the held one's |
| `MoveRows.SquadStaysLegal` | scripts/export_device_plan_fixture.py:371-378 | the working squad keeps its size and stays duplicate-free at every row |
| `MoveRows.PlainRowsWalk` | scripts/export_device_plan_fixture.py:371-378 | rows with held outs and new, distinct ins can be played in any order given, and end at the same players |
| `MoveRows.PermutationSameSum` | scripts/export_device_plan_fixture.py:360-387 | with an order-blind value every permutation that can be valued publishes the same sum |
| `LegalFifteen.DrawPosition` | scripts/export_device_plan_fixture.py:162-174 | one pool's walk: the chosen ids, the unfilled count, and club counts that stay the true ones |
| `LegalFifteen.TakeMeans` | scripts/export_device_plan_fixture.py:162-174 | the walk keeps the club limit, adds at most the quota from its own pool, and leaves a quota unfilled only when every player not added is of a full club |
| `LegalFifteen.Attempt` | scripts/export_device_plan_fixture.py:158-177 | one attempt over the four positions: the sorted fifteen, or nothing when a quota is left unfilled |
| `LegalFifteen.DrawFifteen` | scripts/export_device_plan_fixture.py:157-177 | the first attempt that gives a fifteen |
| `LegalFifteen.EveryFifteenIsLegal` | scripts/export_device_plan_fixture.py:150-177 | whatever the loop returns is legal, for every table and every sequence of shuffles |
| `LegalFifteen.DrawnFifteenIsLegal` | scripts/export_device_plan_fixture.py:150-177 | a returned fifteen is strictly sorted, distinct, 2/5/5/3 by position and at most three per club |
| `Amendment.Accepted` | scripts/add_device_plan_inputs.py:183-199 | the entries written before the first refused one |
| `Amendment.Site.AddDevicePlanInputs` | scripts/add_device_plan_inputs.py:136-250 | the whole effect of one call on the trees, the tables and the directory, and its refusal |
| `AmendmentMeaning.AmendReadsNoPlan` | scripts/add_device_plan_inputs.py:84-117 | amending an entry reads every field but the one it writes, and changes only that one |
| `AmendmentMeaning.RefusedAtAnEntry` | scripts/add_device_plan_inputs.py:183-201 | a refusal at an entry has written exactly the entries before it; running again refuses again and changes nothing |
| `AmendmentMeaning.RunFromBetween` | scripts/add_device_plan_inputs.py:136-250 | a run that starts on what an earlier one left ends as that one would, with the same site when it completes |
| `AmendmentMeaning.InterruptedRunConverges` | scripts/add_device_plan_inputs.py:136-250 | a run cut off between any two writes, then run again, reaches the uninterrupted outcome and site |
| `AmendmentTorn.TornRunConvergesExactlyWhen` | scripts/add_device_plan_inputs.py:76-82 | a run cut inside a write can be completed by later runs exactly when the write was that of the league's own table, and then the next run leaves the whole run's site |
| `AmendmentTorn.NeverCompletes` | scripts/add_device_plan_inputs.py:76-82 | cut inside an entry, the capture's table or the directory, the run is refused for ever, whatever other runs of any league or capture come between |
| `AmendmentTorn.LeagueTableConverges` | scripts/add_device_plan_inputs.py:208-217 | the league's table is never read back: cut inside it, the next run ends as the cut one would have |
| `AmendmentMeaning.SecondRunChangesNothing` | scripts/add_device_plan_inputs.py:136-250 | a second run after a completed one changes nothing |
| `AmendmentMeaning.OthersKeepEverything` | scripts/add_device_plan_inputs.py:183-229 | other trees, other captures' tables, the members document and all entry fields but the plan are kept, whatever becomes of the run |
| `AmendmentMeaning.OtherLinesKeep` | scripts/add_device_plan_inputs.py:229-246 | other leagues' directory lines are kept, and this league's names the capture's table with the digest of its file |
| `AmendmentMeaning.CompletedRunMeans` | scripts/add_device_plan_inputs.py:199-229 | a completed run leaves every entry with the block of its own held side and both tables in place |
| `AmendmentMeaning.CompletesExactlyWhen` | scripts/add_device_plan_inputs.py:136-250 | a run completes exactly when nothing refuses it first, every entry can be amended and no two leagues share a tree |
| `AmendmentMeaning.UntouchedExactlyWhen` | scripts/add_device_plan_inputs.py:16-19 | a refused run leaves the site untouched exactly when it is refused before the loop, or every entry before the refused one already carries the block of its own held side, and the tables are there when it is the directory that is refused |
| `AmendmentMeaning.RefusedAfterAWrite` | scripts/add_device_plan_inputs.py:183-201 | a mismatch after a written entry is refused with the tree touched |
| `Scorecard.Card.AppendRow` | scripts/append_weekly_scorecard.py:39-78 | one run's status and the file it leaves |
| `ScorecardMeaning.LinesAsRead` | scripts/append_weekly_scorecard.py:67-70 | reading the file back changes line ends but not lines |
| `ScorecardMeaning.MarkersDiffer` | scripts/append_weekly_scorecard.py:69-70 | no line starts with the markers of two gameweeks |
| `ScorecardMeaning.HeaderOfSuchLines` | scripts/append_weekly_scorecard.py:19-28 | a header none of whose lines starts as a row does carries no marker and ends its last line |
| `ScorecardMeaning.RunAppends` | scripts/append_weekly_scorecard.py:66-75 | a written row adds its lines below all lines there, and any other run changes nothing |
| `ScorecardMeaning.OldTextIsPrefix` | scripts/append_weekly_scorecard.py:66-75 | one run: the old file is a byte prefix of the new one exactly when it holds no carriage return |
| `ScorecardMeaning.GrowsExactlyWhen` | scripts/append_weekly_scorecard.py:66-75 | over every sequence of runs: the text is a byte prefix of the text after any further runs exactly when it holds no carriage return or nothing was written since |
| `ScorecardMeaning.ReturnsExactlyWhen` | scripts/append_weekly_scorecard.py:66-75 | the card holds a carriage return exactly when the last written version does, or it has one row and the header does |
| `ScorecardMeaning.CardOnlyGrows` | scripts/append_weekly_scorecard.py:66-75 | with no carriage return in the header and the versions, the text after any runs is a byte prefix of the text after any further runs |
| `ScorecardMeaning.EveryWeekIsWrittenOnce` | scripts/append_weekly_scorecard.py:31-78 | over every sequence of runs the file ends in a newline, every written week has its row and none is written twice |
| `ScorecardForgery.ForgeriesOfARow` | scripts/append_weekly_scorecard.py:60-72 | how often a row marks another week below its first line depends on its version alone: on the version's lines after the first, with the cell border after the last |
| `ScorecardForgery.CardCounts` | scripts/append_weekly_scorecard.py:31-78 | over every sequence of runs and any versions, the card marks a week once if it was written, and once more for each row of it that a version forged |
| `ScorecardForgery.OneRowExactlyWhen` | scripts/append_weekly_scorecard.py:60-75 | over every sequence of runs, a week has its one row if written and none otherwise exactly when no version that was written forged a row of it |
| `ScorecardForgery.RefusedExactlyWhen` | scripts/append_weekly_scorecard.py:66-72 | over every sequence of runs, a settled week is refused as already there exactly when it was written or a version that was written forged a row of it |
| `ScorecardForgery.OneRowPerWeek` | scripts/append_weekly_scorecard.py:60-75 | so without line breaks in model versions the card has exactly one row per written week and none for others |
| `ScorecardForgery.BreakAloneForgesNothing` | scripts/append_weekly_scorecard.py:60-72 | a line break in a version need not forge anything |
| `ScorecardMeaning.KeepsOneRowEachExactlyWhen` | scripts/append_weekly_scorecard.py:60-75 | one written row keeps every week to one row exactly when no further line of it is marked as its own week, one on the card, or one twice |
| `ScorecardForgery.BrokenVersionBlocksAWeek` | scripts/append_weekly_scorecard.py:60-72 | a version that carries another week's marker on its second line makes that week refused though it was never written |

## Left out

- The publication-identity and manager's-word checks of the release checker: they enter `ReleaseCheck` as arbitrary results.
- Printed lines of the checks, the summaries among them; the errors that computing a summary raises are modelled. Which integers fit a float is an arbitrary predicate that holds of the safe ones.
- Errors of documents nested deeper than Python recurses.
- The forbidden-text and forbidden-key patterns as languages: they are arbitrary predicates on texts. Texts of values that are neither integers nor strings, and of tuples, are arbitrary functions.
- NaN inside compared lists and objects: Python's identity shortcut in `==` is not modelled; a NaN at the top of a comparison is unequal to everything.
- Pricing.PriceMeans: takes decimals and differences in exact reals, where Python holds the nearest binary float and rounds an integer to one when it meets a float, so near the 1e-9 bound, or past 2^53, the verdict can differ; likewise the sums of `Average`, of which only the overflow is modelled.
- Module `AtomicWrites`: an `unlink` that itself raises at the fortieth refusal (it leaves what the step `ReplaceFails` leaves), the sleep between attempts, the parent directory, and text that a crash cuts short on the temporary file beyond being partial.
- Module `Checkpoints`: the read-side retry of `read_json_retry`, and a file that is not JSON at all.
- Module `ShadowReceipts`: provenance fields of the receipt (commit, library versions, archive hashes, wall time) are an arbitrary map; the companion artifact is always absent, as the command passes none.
- Module `OofWalk`: whitespace around season names (`DecisionPoint` and the order strip it), missing season labels, exceptions raised inside fitting or predicting, the argument checks of lines 479-510 and the columns that are the same in every row. A prediction or a distribution is a function of the model and one row's own fields, as the library promises one row per input row in input order.
- Module `OofRounding`: values are exact reals; the binary floats that carry them are not modelled.
- Module `Wilson`: exact reals for a non-negative quantile, with the square root as its defining property.
- Module `TransitionCells`: the shares printed in a cell, which are the Wilson module applied to its counts.
- Modules `BoundedReading` and `BoundedStability`: parsing of the protocol's merge instant, and the constant fields of the record.
- Module `LegalFifteen`: a weak draw sorts ties in table order; an infeasible table never returns, so correctness is partial: the attempts are a parameter.
- Module `MoveRows`: points are exact reals, so the rounding of a float sum of gains against the total is not modelled; the value of a squad is an arbitrary function of the list; the no-chip chain in `src/squadopt/application/advice.py:255-341` walks the same way with a lookup test and is not modelled apart.
- Module `Amendment`: reading the snapshot, the rules and the handoff file (they precede every write), the printed lines and the optional solve with `--verify`.
- Module `Scorecard`: newline translation when the file is written under Windows (the text is what is on disk where a newline is one character); the header's wording (any header of lines no row starts like; `HeaderOfSuchLines` says what is needed of it), argument parsing, and the formats of numbers beyond the characters they can use.
- Model fitting, solving, bootstrap draws, HTTP, git, Markdown rendering and the thin command-line scripts: foreign code or single conditions that would only add easy members.
