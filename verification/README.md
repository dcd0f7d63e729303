# Verification of the evidence chain and its ledgers

Dafny models of the parts of this repository that claim something over whole runs: of the host
tools that record, retain and publish validation evidence, and of the server's budget,
requirement, notification and session bookkeeping. `dafny verify dfyconfig.toml` checks all of it.

- `Ledger`, `EventChain`, `PublicationGate`, `GateOutcomes`, `TornIndex`: the append-only validation
  ledger, its hash-chained file with anchors, and the start/validate/recover protocol of one issue,
  what it keeps and where it ends, over a whole index and over one whose last append was cut.
- `Strings`, `Totals`, `Json`, `Pins`, `Reports`, `Walk`, `Records`, `Compaction`, `RetentionProtocol`,
  `PublicationOutcomes`, `CleanupOutcomes`, `Endangered`, `ProtectedNames`, `MergeWindow`,
  `PolicyDefaults`: retention pins and the bytes they reserve, deduplication and record maintenance,
  compaction, all of them interleaved with publishing, where publication and cleanup end, which pinned
  evidence cleanup can still lose, the retention windows across a merge, and the evaluator that reads
  the installed policy.
- `Budget`, `BudgetStore`, `BudgetAnswers`, `LateSettlement`, `StopOrders`, `StopConditions`,
  `BudgetTransactions`: reservations before use, settled by late, repeated and reordered counters.
- `Requirements`: versions, requests, reviewed snapshots and the authorization test.
- `Notifier`, `LoginLimits`, `Sessions`: bounded delivery attempts, login windows, sessions under
  password changes.
- `HttpScenarios`: references into recorded responses, against RFC 6901.

A protocol is a state machine whose steps are single durable writes or lock operations, with a
step for being killed; its results quantify over all runs. Code that rewrites fields or tables is
a class whose methods are tied to that machine by their postconditions. A digest without
collisions is the value it is taken of, or a parameter with that hypothesis; random identities are
inputs that are required to be unused.

Where the code does less than its comments say, the model follows the code, a lemma exhibits it,
and others say when the promise does hold, exactly wherever that is a condition of the inputs:

- `evidence_pins.py` lines 5-6 and `bounded_retention.py` lines 6-10 say cleanup never touches
  pinned evidence. Compaction overwrites four files in the root of a run, and deduplication renames
  leftover links onto the reports beside them; evidence of such a name passes `check_files`
  (`ProtectedNames.CompactionOverwrites`, `DeduplicationConsumes`). Compaction also opens a leftover
  partial archive and pending record in place, and so writes through their hard links, whatever these
  are called (`CompactionWritesThrough`, `SuccessOverLostEvidence`). Where evidence is no such link the
  names decide (`ProtectedExactly`, `RetentionProtocol.PinnedEvidenceIsKept`); which pinned file can
  be lost from a given state is `EndangeredEvidence.LostExactly` and `UnsharedLostExactly`.
- `gate.py` line 436 promises that recover concludes a crashed attempt. When nothing else refuses it,
  it does exactly when the ledger's index is whole (`TornIndex.RecoverLeavesNothingOpen`, `TornForGood`).
- `compact_gate_evidence.py` lines 67-69 say reports are archived before they go. Legacy reports
  named like compaction's own record are not, and no others are lost (`Compaction.LostExactly`,
  `RecordNamedReportIsLost`).
- `install_remote_gate.py` line 77 bounds a proof by one hand-off window. That needs more than merge
  times that are never in the future: it fails exactly when two of them chain, and n of them give
  less than n windows (`MergeWindow.VaryingAnswersExtendTwice`, `OneWindowExactly`,
  `MergeTimesBound`, `BoundIsApproached`).
- `evidence_pins.py` lines 404-442 read a policy default without executing the module. That agrees
  with executing it where each name the default leads to sees its last assignment
  (`PolicyDefaults.InstalledDefaultIsPythons`), and otherwise exactly when the values agree
  (`ReassignmentDiffersExactly`, `ReassignmentDiffers`); names are paired with the same defaults
  exactly when no positional-only parameter has one (`PositionalOnlyDiffers`, `DefaultsAgreeExactly`).
- The order of usage reports never changes the usage, but it can change whether the account is
  stopped on the way (`LateSettlement.StopDependsOnOrder`, `StopOrders.UndecidedIsReached`). When
  no order stops it, and when every order does, is `StopConditions.NoOrderStopsExactly`,
  `EveryOrderStopsExactly` and `FinalOverAlwaysStops`.
- The notifier's deadline check and the start of an attempt read the clock separately
  (`Notifier.StartMayMissTheDeadline`); attempts start in time exactly when they start within the
  timeout of the check (`StartsInTimeExactly`).
- Reports that count cached input alone can contradict later ones (`Budget.CachedAloneMayConflict`);
  `MergesExactly` says for which known usage that cannot happen.

## Model

| member | source | states |
|---|---|---|
| EvidenceLedger.Directory.Begin | tools/evidence_ledger.py:235-243 | announces an attempt for named inputs by exactly one start event, or refuses and writes nothing |
| EvidenceLedger.Directory.FindPending | tools/evidence_ledger.py:216-226 | the one-pass scan returns exactly the attempts started and not concluded under an execution key |
| EvidenceLedger.Directory.ConcludeAttempt | tools/evidence_ledger.py:266-281 | records an outcome only for an attempt pending under exactly its inputs, a PASS only with evidence; otherwise nothing is written |
| EvidenceLedger.Directory.RevokePass | tools/evidence_ledger.py:309-317 | revocation needs the record of a PASS and is refused as missing or mismatch otherwise |
| EvidenceLedger.Directory.Standing | tools/evidence_ledger.py:320-332 | the early-exit scan answers Ok iff the PASS stands, missing iff it was never admitted, blocked otherwise |
| EvidenceLedger.Directory.Verify | tools/evidence_ledger.py:342-359 | verification succeeds iff record, inputs, standing, index binding and present evidence all agree |
| EvidenceLedger.Directory.LatestPass | tools/evidence_ledger.py:362-367 | the loop finds the newest PASS of exactly these inputs, or that there is none |
| EvidenceLedger.Directory.Current | tools/evidence_ledger.py:370-380 | answers Ok iff the newest PASS of the inputs verifies, and returns its record |
| EvidenceLedger.RunKeepsValid | tools/evidence_ledger.py:235-317 | every ledger written by begin, record and revoke, killed between record and event or not, keeps keys, single starts, single conclusions and backing records |
| EvidenceLedger.UnconcludedIsOpen | tools/evidence_ledger.py:246-263 | an attempt record() accepts is one announced for exactly its inputs that no event has concluded |
| EvidenceLedger.ConclusionBindsItsStart | tools/evidence_ledger.py:246-281 | an attempt starts once and concludes at most once, later, for exactly the inputs its start announced |
| EvidenceLedger.StandsExactly | tools/evidence_ledger.py:320-332 | a PASS stands iff it was admitted, nothing later of its execution key opposes it, and every start of that key is concluded |
| EvidenceLedger.SupersededForever | tools/evidence_ledger.py:320-332 | no continuation of the index, by any writer, makes a superseded PASS stand again |
| EvidenceLedger.NewestPassDecides | tools/evidence_ledger.py:362-380 | asking only the newest PASS loses nothing: it stands iff any PASS of those inputs stands |
| EvidenceLedger.RecordsNeverDisagree | tools/evidence_ledger.py:335-350 | for a standing PASS the index and the record name the same inputs |
| EventChain.ReadEvents | tools/evidence_ledger.py:170-184 | the file is accepted iff it ends in a newline and every line links to the one before; then its events and digests are returned |
| EventChain.ReadLines | tools/evidence_ledger.py:158-184 | the line loop refuses exactly the unchained line lists |
| EventChain.AppendReadsBack | tools/evidence_ledger.py:202-213 | append() to a readable index reads back as the same events and one more |
| EventChain.TornAppendIsRefused | tools/evidence_ledger.py:177-178 | an append cut short leaves the old index, the new one, or a file that every reader refuses |
| EventChain.AnchorHoldsExactly | tools/evidence_ledger.py:187-199 | an anchor accepts another chained file iff that file starts with the very lines that were anchored |
| EventChain.AcceptedChain | tools/remote-gate/evidence_admission.py:519-541 | every file an attempt accepts starts with the lines of every file published from before it, whatever was done to the file in between; failed attempts leave the anchor |
| EventChain.AnchorsFormOneChain | tools/remote-gate/evidence_admission.py:649-669 | the events successive publications verified form one prefix chain |
| EventChain.AdmitsExactly | tools/remote-gate/evidence_admission.py:519-541 | after a publication exactly the readable files that go on from the published lines are accepted, before the first one every readable file |
| EventChain.AppendedFilesAreAccepted | tools/remote-gate/evidence_admission.py:519-541 | while the index is only appended to, no attempt is refused |
| PublicationGate.ReachableHolds | tools/publication/gate.py:291-350 | in every reachable state, kills between any two writes included, locks exclude and the receipt covers whatever is open |
| PublicationGate.AtMostOneUnconcluded | tools/publication/gate.py:256-350 | at most one attempt of the issue is unconcluded |
| PublicationGate.ReceiptLeadsToTheAttempt | tools/publication/gate.py:425-432 | an unconcluded attempt is never lost: the receipt carries its inputs and its id or none, and crashed_attempt selects exactly it |
| PublicationGate.ReceiptIsBacked | tools/publication/gate.py:329-350 | a receipt that names a validation names the ledger's own conclusion of its attempt, and says PASS only for a PASS |
| GateOutcomes.FailedValidateConcludes | tools/publication/gate.py:256-264 | from every reachable state in which a validate holds an open attempt, when its Gate fails its unrefused steps conclude the attempt as FAIL, the receipt is FAIL and names that conclusion, nothing of the issue is open and the execution lock is free |
| GateOutcomes.FailedValidateReports | tools/publication/gate.py:256-264 | without an open attempt in hand a failing validate writes nothing to the ledger; its receipt is FAIL, says what it knows and names no validation |
| GateOutcomes.UnrefusedValidatePasses | tools/publication/gate.py:316-350 | from every reachable state with both locks free an unrefused validate passes iff nothing of the issue is unconcluded: start, record and PASS are in the ledger, the receipt names the PASS, nothing is open, and the PASS stands iff no other attempt of its executed inputs is pending; otherwise it changes nothing |
| GateOutcomes.UnrefusedStartLaunches | tools/publication/gate.py:460-482 | an unrefused start launches a validate and leaves a pending receipt iff nothing is unconcluded; otherwise it changes nothing |
| TornIndex.TornRunsAreRuns | tools/evidence_ledger.py:170-213 | whatever appends are cut and whenever, the whole lines, the receipt and the locks are those of a run of the protocol without cuts |
| TornIndex.TornForGood | tools/evidence_ledger.py:170-178 | once the index is torn no step of any issue writes to the ledger again |
| TornIndex.TornKeepsTheAttempt | tools/publication/gate.py:272-282 | the receipt goes on leading to the attempt that was open when the index was torn |
| TornIndex.RecoverLeavesNothingOpen | tools/publication/gate.py:435-453 | from any reachable state with both locks free a recover the host does not refuse concludes the crashed attempt as FAIL and leaves nothing open, iff the index is whole; over a torn one it changes nothing |
| EvidencePins.Files | tools/quality-host/evidence_pins.py:175-184 | the walk of one run finds every file outside the excluded subtrees, by inode |
| EvidencePins.ChargedFiles | tools/quality-host/evidence_pins.py:187-194 | merging the walks of several runs counts each inode once |
| EvidencePins.MeasureCharge | tools/quality-host/evidence_pins.py:187-194 | charge() is the size sum over the union of the inodes of the runs |
| EvidencePins.CheckFiles | tools/quality-host/evidence_pins.py:161-172 | the loop accepts the evidence iff every row lies in the run outside the cleanable paths with the digest it names |
| EvidencePins.StateChargeCoversFiles | tools/quality-host/evidence_pins.py:197-199 | the state charge covers the state file and its replacement iff the sequence number has at most 21 digits |
| EvidencePins.ConfirmShortens | tools/quality-host/evidence_pins.py:315-322 | confirming an unconfirmed publication shortens its entry by exactly two characters |
| EvidencePins.WriteReservesNoMore | tools/quality-host/evidence_pins.py:315-385 | confirming, extending, releasing and expiry never reserve more than before |
| EvidencePins.ReservationHolds | tools/quality-host/evidence_pins.py:269-368 | a state that fits the budget fits after every sequence of pins, confirmations, extensions, releases and expiries over unchanged files |
| EvidencePins.PinRoot.PinEvidence | tools/quality-host/evidence_pins.py:274-290 | a pin succeeds iff its evidence is accepted and the very state then written fits; otherwise nothing is written |
| EvidencePins.PinRoot.ConfirmPublication | tools/quality-host/evidence_pins.py:293-322 | confirms in place iff the pin is live at the first of two clock readings and of this validation; what is stored is live at the second |
| EvidencePins.PinRoot.ExtendPin | tools/quality-host/evidence_pins.py:344-357 | extends a live pin to at least the given time, refuses a change of width, never revives a pin |
| EvidencePins.PinRoot.ReleasePins | tools/quality-host/evidence_pins.py:360-368 | drops the named pins and every expired one, and reports which |
| EvidencePins.PinRoot.EnterCleanup | tools/quality-host/evidence_pins.py:371-385 | cleanup works on exactly the live pins, stored without expired ones |
| EvidencePins.IdentitiesAgree | tools/quality-host/evidence_pins.py:315-335 | through every run of pin operations a confirmed publication carries the identity of its own bytes |
| EvidencePins.PinRoot.FindConfirmed | tools/quality-host/evidence_pins.py:325-335 | returns exactly the live confirmed pins of the subject, or refuses iff the bytes of one differ from its identity |
| BoundedRecords.Records.DeduplicateFile | tools/quality-host/bounded_records.py:49-65 | one report becomes a link to the first one of equal bytes and mode in sorted order; a leftover temporary link is finished iff it is a link to that one, and stops the pass otherwise |
| BoundedRecords.Records.Deduplicate | tools/quality-host/bounded_records.py:35-46 | the walk fails iff some report is blocked by what stands at the name of its temporary link; it consumes exactly the leftover links that were due, every other file keeps its bytes, and without a fault equal reports share one inode; no charge grows |
| Reports.ListingIsDistinct | tools/quality-host/bounded_records.py:41 | sorted() visits every report once, a temporary link after the report it stands beside |
| Walk.RenameConsumesOne | tools/quality-host/bounded_records.py:56-64 | a rename of the walk takes away the one link that was due beside the report, and makes no other due or safe |
| Walk.NextStop | tools/quality-host/bounded_records.py:41-51 | as long as a link is due the walk has a next report to relink before it, and nothing stops it there |
| BoundedRecords.Records.ResumeDeletions | tools/quality-host/bounded_records.py:96-106 | resumed deletion refuses exactly unregistered and pinned leftovers, and otherwise removes all |
| BoundedRecords.Records.Retire | tools/quality-host/bounded_records.py:109-122 | a record goes only unpinned and with its expiry row in the index: afterwards the row is there and the run is not (that the row comes first is a step order of RetentionProtocol) |
| BoundedRecords.KeepRows | tools/quality-host/bounded_records.py:125-136 | the trimmed index holds the newest rows of the window and leaves one out only when it does not fit beside those kept |
| BoundedRecords.Records.TrimIndex | tools/quality-host/bounded_records.py:125-137 | the index on disk fits the rest of the budget, or is removed when not even an empty list fits |
| BoundedRecords.Records.MaintainOne | tools/quality-host/bounded_records.py:159-169 | one record is kept iff pinned, or young and either the newest or fitting beside what is kept |
| BoundedRecords.Records.Maintain | tools/quality-host/bounded_records.py:145-176 | after an applied pass pins, retained records and trimmed index fit the budget, each record is kept or gone by count, age and budget, and the index holds the rows of those gone; pinned runs and their files are there; a dry run changes nothing. A pass is over budget iff pins and newest record do not fit; otherwise it fails iff a leftover is unregistered or pinned, a report is stuck, the registry cannot be rewritten or the index cannot be replaced where it has to be, and with that fault |
| BoundedRecords.SortSorts | tools/quality-host/bounded_records.py:128-153 | the newest-first order of candidates and rows is sorted and keeps them distinct |
| RetentionProtocol.PinnedEvidenceIsKept | tools/quality-host/bounded_retention.py:60-107 | in every interleaving of capture, publisher, sweep, ledger writers and a cleanup pass killed anywhere, evidence accepted for a stored pin in an unshared run keeps its bytes unless cleanup writes files of that name |
| EndangeredEvidence.LostExactly | tools/compact_gate_evidence.py:12-85 | between two passes, evidence of a live pin can be lost while the pin stays when compaction is about to write its inode in place, in this run or another, or to move a file onto its name, or when it is a link to an earlier report of equal content beside a report the walk will relink; unless it is entangled, only then |
| EndangeredEvidence.UnsharedLostExactly | tools/quality-host/bounded_records.py:35-65 | in an unshared run exactly then |
| ProtectedNames.ProtectedExactly | tools/quality-host/evidence_pins.py:157-172 | evidence accepted at a path in an unshared run is safe in every run of the protocol iff the path is none of the four files compaction writes and no temporary link that a report sorting before its own can lead to |
| ProtectedNames.CompactionOverwrites | tools/compact_gate_evidence.py:50-85 | compaction overwrites accepted evidence named like one of its four files: where the run names its source and has no record, or has an unfinished record with its archive |
| ProtectedNames.DeduplicationConsumes | tools/quality-host/bounded_records.py:49-65 | deduplication renames away accepted evidence that is a link to an earlier report of equal content |
| ProtectedNames.CompactionWritesThrough | tools/compact_gate_evidence.py:72-73 | accepted evidence of any other name that is a hard link of a leftover partial archive can be lost while its pin stays |
| ProtectedNames.SuccessOverLostEvidence | tools/remote-gate/evidence_admission.py:603-614 | there success can be sent over evidence that would not be accepted any more |
| RetentionProtocol.SuccessIsBacked | tools/remote-gate/evidence_admission.py:603-669 | whenever success is sent the PASS stands and its pin is stored; evidence accepted in an unshared run, of no name cleanup writes, would be accepted again |
| RetentionProtocol.ConfirmedWasPublished | tools/remote-gate/evidence_admission.py:603-614 | a confirmed publication was sent as a success before |
| PublicationOutcomes.FinishConfirms | tools/remote-gate/evidence_admission.py:603-614 | in every reachable state after success was sent, the last step stores the publication as confirmed with the identity of its bytes iff its pin is live at the clock reading it checks, with every other field and live pin as before; otherwise it changes nothing |
| PublicationOutcomes.UnrefusedPublicationIsConfirmed | tools/remote-gate/evidence_admission.py:649-669 | a standing PASS with accepted evidence that fits the budget is published: the success is sent, its publication confirmed in the new pin, every other live pin kept |
| PublicationOutcomes.SweepIsStored | tools/quality-host/evidence_pins.py:344-368 | a sweep that finds the pin lock free releases and extends as it says and keeps every other live pin; while the lock is held it changes nothing |
| RetentionProtocol.PinStays | tools/quality-host/evidence_pins.py:274-368 | a pin nobody releases stays stored until the expiry it was given |
| RetentionProtocol.ResumedDeletionsAreRegistered | tools/quality-host/bounded_records.py:96-122 | after a kill anywhere every left-over directory is named in the index and none is pinned, so the next pass can resume |
| CleanupOutcomes.LeftoversAreRemoved | tools/quality-host/bounded_records.py:96-106 | whatever was interrupted before, a pass that takes the free lock removes every leftover directory and no run, file or index row, and works on the live pins |
| CleanupOutcomes.RecordIsRetired | tools/quality-host/bounded_records.py:109-122 | a record that is not pinned goes and is named in the index, every other run, row, file and pin stays; a pinned one is not registered |
| CleanupOutcomes.CompactionIsCompleted | tools/compact_gate_evidence.py:62-100 | seven unrefused steps leave the archive and the last record under their names and no temporary file, remove exactly what was to be removed, and leave every other name and every file as it was |
| CleanupOutcomes.TrimmingEnds | tools/quality-host/bounded_records.py:125-137 | in every reachable state trimming the index to rows it has is the last step of a pass, after which the pin lock is free |
| Compaction.NothingReviewedIsLost | tools/compact_gate_evidence.py:50-100 | killed and resumed anywhere, each file that is no hard link of what compaction opens in place is still there or was under a recorded path, and then every file review_files() selects is in the archive with its bytes |
| Compaction.LinkIsWrittenOver | tools/compact_gate_evidence.py:72-74 | such a link has other bytes once an archive is begun |
| Compaction.LostExactly | tools/compact_gate_evidence.py:39-47 | a completed compaction loses, besides the payloads, exactly the removed legacy reports that bear the name of its own record |
| Compaction.RecordNamedReportIsLost | tools/compact_gate_evidence.py:47 | such a report is removed and not archived |
| Compaction.OnlyRebuildableIsRemoved | tools/compact_gate_evidence.py:88-99 | only rebuildable payloads and legacy reports are removed |
| Compaction.KilledCompactionResumes | tools/compact_gate_evidence.py:54-61 | a killed compaction can always go on, and a completed one has removed everything it recorded |
| Compaction.CompactionCompletes | tools/compact_gate_evidence.py:50-100 | a compaction nothing interrupts archives every review file with its bytes, removes exactly what lies under the recorded paths and says so in its record |
| Compaction.ReviewedExactly | tools/compact_gate_evidence.py:39-47 | review_files() takes the files of four endings in the run and the two probe directories and everything in the signed and report trees, but no file of the name of its record |
| Compaction.FinishCompaction | tools/compact_gate_evidence.py:88-100 | removes exactly what lies under the recorded paths when each is one of the two payloads or directly below the reports, and stops at the first other one |
| Compaction.ChooseKept | tools/quality-host/bounded_retention.py:77-92 | payloads stay iff within count, age and the budget left by newer ones |
| MergeWindow.SettlePin | tools/remote-gate/evidence_admission.py:685-694 | one live pin is released, extended to its merge plus the window, or left alone, as its state and the answer say |
| MergeWindow.Sweep | tools/remote-gate/evidence_admission.py:697-712 | only pull request pins are extended; every pin still live after a sweep is confirmed, untouched for main or an open unmoved pull request, extended for a merged one |
| MergeWindow.ProofLivesAtMost | tools/remote-gate/evidence_admission.py:592-600 | with one merge time, never in the future, a proof expires when pinned for or one window after a merge before that, however often it is swept |
| MergeWindow.OneWindowExactly | tools/remote-gate/evidence_admission.py:685-694 | with answers from a set of merge times, never in the future, some schedule keeps a proof a whole window past its expiry iff two of the times chain: one before the expiry, one at or after it and within a window of the first, the widths printed alike |
| MergeWindow.VaryingAnswersExtendTwice | tools/remote-gate/evidence_admission.py:681-694 | two whole-second merge times that chain extend it by more than one window |
| MergeWindow.MergeTimesBound | tools/remote-gate/evidence_admission.py:685-694 | with n merge times a proof outlives its expiry by less than n windows |
| MergeWindow.BoundIsApproached | tools/remote-gate/evidence_admission.py:681-694 | n whole-second merge times reach n windows less a second each while the printed width stays |
| MergeWindow.MainPinEndsInTime | tools/install_remote_gate.py:76-80 | a main pin stored for an admission that found the proof ends, through every later sweep, within the installed retention of the start of the proof plus the delay between finding and pinning |
| PolicyDefaults.ReadInstalledDefault | tools/quality-host/evidence_pins.py:404-412 | the loop over the statements collects the assignments before the first maintain() and evaluates its default under them |
| PolicyDefaults.EvaluateIsPython | tools/quality-host/evidence_pins.py:431-442 | where every name mentioned, directly or through assignments, sees there the last assignment to it, an integer evaluate() returns is the value Python computes |
| PolicyDefaults.EvaluateEnds | tools/quality-host/evidence_pins.py:431-442 | there it ends within a computable call depth |
| PolicyDefaults.EvaluatesExactly | tools/quality-host/evidence_pins.py:431-442 | with enough call depth it returns an integer for exactly the integers, assigned names, sums, differences, products and powers with exponents from 0 to 64 built of such expressions |
| PolicyDefaults.GibibytesAreRead | tools/quality-host/evidence_pins.py:431-442 | GIB = 1024**3 and 4*GIB are read as 2 to the 30th and four times that |
| PolicyDefaults.DefaultIsSignatures | tools/quality-host/evidence_pins.py:423-428 | with no more defaults than ordinary arguments it pairs the same default with a name as the signature |
| PolicyDefaults.InstalledDefaultIsPythons | tools/quality-host/evidence_pins.py:404-442 | the default read without execution, when its own names are so traceable, is the one in the signature cleanup reads by executing the module; other names do not matter |
| PolicyDefaults.ReassignmentDiffersExactly | tools/quality-host/evidence_pins.py:404-412 | when the default leads to a name that is assigned again, the two agree iff that name has at its mention the value its last assignment gives it |
| PolicyDefaults.ReassignmentDiffers | tools/quality-host/evidence_pins.py:404-412 | with A = x; B = A; A = y and B as the default, admission reads y and cleanup runs with x |
| PolicyDefaults.PositionalOnlyDiffers | tools/quality-host/evidence_pins.py:423-428 | with positional-only parameters the two differ |
| PolicyDefaults.DefaultsAgreeExactly | tools/quality-host/evidence_pins.py:423-428 | the two pair every name with the same default iff no positional-only parameter has one |
| Budget.MergeIsJoin | apps/server/src/budget.rs:77-85 | merge is idempotent, commutative, associative and the least usage above both |
| Budget.OrderAndDuplicatesDoNotMatter | apps/server/src/budget.rs:77-85 | the same reports in any order and number merge to the same usage |
| Budget.MergeKeepsValid | apps/server/src/budget.rs:67-76 | valid reports that count input whenever they count cached input merge to a valid usage |
| Budget.CachedAloneMayConflict | apps/server/src/budget.rs:67-76 | without that, two valid reports may merge to an invalid usage |
| Budget.MergesExactly | apps/server/src/budget.rs:67-85 | a valid usage merges validly with every report that counts input beside cached iff it does so itself or its cached count is zero |
| Budget.ChargeCovers | apps/server/src/budget.rs:92-119 | a call is charged one turn, at least its known use, and at least its reservation until settled |
| Budget.ChargeExactly | apps/server/src/budget.rs:86-119 | a complete call with input, output and seconds known costs exactly these; every other one, however final, at least its reservation and what is known, and no third amount |
| BudgetTransactions.AddRows | apps/server/src/budget_store.rs:240-259 | the checked running sums are the totals over the rows, and fail only if a total exceeds 64 bits |
| BudgetTransactions.Store.ReadBalance | apps/server/src/budget_store.rs:222-248 | balance() answers iff the account exists and its totals fit 64 bits, with exactly those totals |
| BudgetTransactions.Store.ReserveCall | apps/server/src/budget_store.rs:138-205 | the reservation transaction, refusals and stops included, is the step of the state machine |
| BudgetTransactions.Store.SettleReport | apps/server/src/budget_store.rs:277-344 | the settlement transaction, rolled back on overflow or conflict, is the step of the state machine |
| BudgetTransactions.Store.RaiseLimits | apps/server/src/budget_store.rs:60-120 | the increase transaction, replay included, is the step of the state machine |
| BudgetTransactions.Store.FreezeLimits | apps/server/src/budget_store.rs:33-46 | freezing leaves existing rows alone |
| BudgetStore.ReservedFits | apps/server/src/budget_store.rs:159-193 | every answer Reserved leaves the exposure within all three limits; a repair hold is taken over without changing it |
| BudgetStore.ExposureCoversUse | apps/server/src/budget_store.rs:249-260 | the exposure counts one turn per call besides repair holds, and covers known use in every dimension |
| BudgetStore.EveryTurnIsAccounted | apps/server/src/budget_store.rs:138-301 | in every reachable store turns equal calls plus holds, stay within the turn limit once a call exists, and use never exceeds exposure |
| BudgetStore.SettleStops | apps/server/src/budget_store.rs:291-301 | after a settlement an account over its limits is exhausted |
| BudgetStore.ExhaustedAdmitsNothing | apps/server/src/budget_store.rs:175-193 | an exhausted account admits no call through any run without an increase |
| BudgetStore.LimitsAreAuthorized | apps/server/src/budget_store.rs:82-108 | limits are the limits first frozen plus every grant once, at every version |
| BudgetStore.RaiseIsRetriable | apps/server/src/budget_store.rs:109-120 | a repeated increase changes nothing and succeeds; its identity with other content is refused |
| BudgetStore.ReserveIsRetriable | apps/server/src/budget_store.rs:194-206 | a repeated reservation is recognised and never admitted twice; its identity with another intent is refused |
| BudgetAnswers.ReservesExactly | apps/server/src/budget_store.rs:138-205 | a call is reserved iff it is well asked, its totals can be counted and what is exposed and reserved fits all limits, and is then the one new row; otherwise a countable account that cannot afford it is stopped, and nothing else changes |
| BudgetAnswers.SettlesExactly | apps/server/src/budget_store.rs:277-344 | a report is taken iff it is acceptable, contradicts no counter and the totals with it fit 64 bits; then its call knows the larger of each counter, and an open account is stopped iff that overdraws it or its group is exhausted |
| BudgetAnswers.RaisesExactly | apps/server/src/budget_store.rs:60-108 | a new increase is done iff it is meant, of an ungrouped account at the expected version, with sums of 64 bits; then limits grow by its delta, the version by one, and the account is open |
| BudgetAnswers.FreezesExactly | apps/server/src/budget_store.rs:33-47 | freezing opens a missing account under the reviewed limits at version 1, leaves every other alone, and records the first authorization once |
| LateSettlement.SettleIsTaken | apps/server/src/budget_store.rs:302-325 | with room in 64 bits a plausible report is always taken |
| LateSettlement.OrderDoesNotMatter | apps/server/src/budget_store.rs:277-344 | any order and repetition of the same reports is accepted and ends in the same usage and archive |
| LateSettlement.UsedOnlyGrows | apps/server/src/budget_store.rs:302-325 | through any run known use never shrinks |
| LateSettlement.ReportIsRetriable | apps/server/src/budget_store.rs:326-344 | a repeated report changes no usage and no archive |
| LateSettlement.StopDependsOnOrder | apps/server/src/budget_store.rs:291-301 | at two reserved calls whether the account is stopped on the way depends on the order of their reports |
| StopOrders.UndecidedIsReached | apps/server/src/budget_store.rs:138-205 | freezing an account and reserving two calls leads to such a state |
| StopConditions.NoOrderStopsExactly | apps/server/src/budget_store.rs:277-301 | no order or repetition of the reports stops an open account iff no report says its group is exhausted, the final use does not exhaust it, and the peaks of its calls (reservation until settled, final use) and holds fit the limits: from the start, or, when it starts over them, after whichever of its reports comes first |
| StopConditions.EveryOrderStopsExactly | apps/server/src/budget_store.rs:277-301 | every order stops an open account iff it is reported on and a report of it says its group is exhausted, or the final balance is over, or whichever of its reports comes first leaves it over; provided no reservation is too large in one dimension and too small in another |
| StopConditions.FinalOverAlwaysStops | apps/server/src/budget_store.rs:277-301 | without that proviso, a final balance over the limits stops the account in every order iff any report is of it |
| Requirements.Database.ReadRequirement | apps/server/src/business.rs:353-360 | reads the row, the authorization test and the snapshots in revision order |
| Requirements.Database.Configure | apps/server/src/business.rs:284-330 | saving a repository is accepted iff the document is valid, the expected version is the current one (0 when unknown), its identity is the old one and no other repository has its GitHub id; then exactly that row is stored under the next version, revoked_through moving only on a revoking update and to its own version |
| Requirements.Database.EditDraft | apps/server/src/business.rs:388-407 | editing is a compare-and-set on a Draft that keeps revision, snapshots and repositories |
| Requirements.Database.MakeReady | apps/server/src/business.rs:408-480 | a review adds one snapshot of contract and policy as the next revision, keeps the others, is authorized afterwards, and refuses a revoked or changed repository |
| Requirements.Database.WithdrawReady | apps/server/src/business.rs:481-495 | withdrawing returns a Ready requirement to Draft, no longer authorized, and keeps all snapshots |
| Requirements.Database.ExecuteCommand | apps/server/src/business.rs:222-277 | an accepted request is stored with its result, a refused one changes nothing |
| Requirements.NumbersTellHistory | apps/server/src/business.rs:303-304 | comparing reviewed version and revoked_through says exactly whether a revoking save followed the review |
| Requirements.AuthorizationIsHistory | apps/server/src/business.rs:353-360 | authorization_valid holds iff the requirement is Ready and its repository had no revoking save since the current revision was reviewed |
| Requirements.NeverRevived | api/README.md:65-67 | a lapsed authorization comes back only under a later revision |
| Requirements.ReviewedIsFrozen | apps/server/src/business.rs:408-445 | outside Draft a requirement shows exactly what its current revision froze, and no command rewrites a frozen revision |
| Requirements.RequestIsRetriable | apps/server/src/business.rs:222-268 | a repeated request is answered as the first time, other input under its identity is refused, and neither changes anything |
| Requirements.StaleIsRefused | apps/server/src/business.rs:278-283 | of two requests on a requirement expecting the same version at most one is accepted |
| Requirements.StaleSaveIsRefused | apps/server/src/business.rs:284-313 | of two saves of a repository expecting the same version at most one is accepted, whatever happens between them |
| Notifier.Ledger.Synchronize | apps/notifier/bark.py:179-188 | the three updates leave each row as one rule says: inserted, obsolete, failed or unchanged |
| Notifier.SyncedExactly | apps/notifier/bark.py:179-188 | a new action has ten minutes and three attempts; an unfinished row without an action is obsolete, one whose time or attempts are up failed, every other as it was |
| Notifier.Ledger.SelectDue | apps/notifier/bark.py:227-228 | takes the due rows in the order they were first seen, by key among those seen at once, and leaves one out only for a hundred earlier ones |
| Notifier.Ledger.TryRow | apps/notifier/bark.py:191-211 | an attempt is on disk before anything is sent and concluded after |
| Notifier.Ledger.Tick | apps/notifier/bark.py:214-237 | an uninterrupted tick is a run of the steps that takes a batch of due rows and gives each its one turn: tried and sent when still an action and in time, passed over otherwise |
| Notifier.AttemptsAreBounded | apps/notifier/bark.py:191-200 | with kills anywhere: at most three attempts, numbered without gaps, 30 and then 120 seconds apart, each after the deadline check |
| Notifier.SendsAreBounded | apps/notifier/bark.py:191-211 | every send has an attempt of its own |
| Notifier.ClosedForGood | apps/notifier/bark.py:179-188 | accepted, failed and obsolete are final |
| Notifier.StartMayMissTheDeadline | apps/notifier/bark.py:233-234 | the check and the start read the clock separately, so a start may lie after the deadline |
| Notifier.StartsInTimeExactly | apps/notifier/bark.py:191-234 | in every run attempts that start at most this long after their check start before the deadline iff that is at most the timeout |
| Sessions.SessionsAreCurrent | apps/server/src/auth_store.rs:75-169 | in every interleaving under the account row lock, a valid session was issued by a login that verified the current hash |
| Sessions.ChangeRevokesAll | apps/server/src/auth_store.rs:150-169 | when a password change commits every session of the user is revoked |
| Sessions.RevokedForGood | apps/server/src/auth_store.rs:30-58 | a revoked session is never valid again |
| Sessions.Accounts.LogIn | apps/server/src/auth_store.rs:105-148 | a login that nothing interrupts verifies, ends the old session and starts a new one, or changes nothing |
| Sessions.Accounts.ChangePassword | apps/server/src/auth_store.rs:150-169 | a change that nothing interrupts replaces the hash and revokes every session of the user |
| Sessions.Accounts.FindSession | apps/server/src/auth_store.rs:30-42 | finds the user of a session that is neither revoked nor expired |
| Sessions.SessionsExpire | apps/server/src/auth_store.rs:30-58 | a login session is found for the time it was given, an anonymous one for ten minutes, neither afterwards nor when revoked |
| Sessions.RotationIsForEightHours | apps/server/src/auth_store.rs:120-148 | the session a login issues ends eight hours later |
| LoginLimits.Limits.Count | apps/server/src/auth_store.rs:59-69 | the upsert counts in the current window or starts a new one, and saturates |
| LoginLimits.Limits.Admit | apps/server/src/auth_store.rs:94-104 | both dimensions count every attempt |
| LoginLimits.AnyWindowAdmitsTwice | apps/server/src/auth_store.rs:59-104 | any 900 seconds admit at most 20 logins of an account and 100 of a source |
| LoginLimits.TwiceIsReached | apps/server/src/auth_store.rs:59-104 | the bound of an account is met |
| LoginLimits.SourceTwiceIsReached | apps/server/src/auth_store.rs:59-104 | the bound of a source is met |
| HttpScenarios.UnescapeInvertsEscape | tools/quality-host/http_scenarios.py:26 | the two replacements invert the escaping of every name |
| HttpScenarios.OrderOfReplacementsMatters | tools/quality-host/http_scenarios.py:26 | in the other order they do not |
| HttpScenarios.FollowPointer | tools/quality-host/http_scenarios.py:25-28 | the loop over the parts walks the value step by step |
| HttpScenarios.ReferenceResolves | tools/quality-host/http_scenarios.py:16-28 | a reference built from any existing path resolves to exactly the value there |
| HttpScenarios.PlainStays | tools/quality-host/http_scenarios.py:29-32 | a value without references resolves to itself |
| HttpScenarios.ResolvesInside | tools/quality-host/http_scenarios.py:16-32 | however deep a value lies in objects and lists, resolving the whole gives there what resolving it alone gives |
| HttpScenarios.ResolvesExactly | tools/quality-host/http_scenarios.py:16-32 | a value resolves iff no reference in it is misplaced or leads nowhere |
| HttpScenarios.ReferenceExactly | tools/quality-host/http_scenarios.py:16-28 | a reference resolves iff it is alone in its object and names a value of a recorded response, and then to that value |
| HttpScenarios.StricterExactly | tools/quality-host/http_scenarios.py:25-28 | it evaluates everything the standard evaluates, to the same value, and more only for badly written tokens |

## Left out

- Evidence files replaced by symbolic links or special files, canonical path checks, foreign mounts and the modes of lock files.
- GitHub, systemd, leases, the Gate itself, SQL and file-system errors: their answers are free inputs of the steps.
- JSON parsing and encoding of ledger records, tar and gzip, SHA-256, Argon2; the shape checks of equivalence audits (`evidence_admission.py` lines 254-428).
- The categories of a refused merge source (`evidence_admission.py` lines 474-496): each is one branch.
- PublicationGate.AtMostOneUnconcluded: two issues announcing the same inputs at once, which the fixed workspace binding excludes.
- PublicationGate, RetentionProtocol and the interleavings of Sessions are modelled on values, as steps, because a process may be killed or another may run between any two of them.
- TornIndex.RecoverLeavesNothingOpen: a torn index is repaired by hand or not at all; such a repair is not a step.
- PublicationGate.ReceiptIsBacked: a receipt is replaced as a whole, because `atomic` renames a synced file; a cut within that file is not a state.
- EvidencePins.ReservationHolds: the files of the pinned runs and the current record are fixed over the run of operations; record maintenance measures them again.
- EvidencePins: integers are unbounded as in Python; the pin root's installation and a state file of another schema are not part of this model.
- BoundedRecords.Records.Maintain: rewriting the capture registry either succeeds or stops the pass; malformed index rows and the fields of an expiry row other than its run, time and length are not modelled.
- EndangeredEvidence.LostExactly: in an entangled state, where another report the evidence depends on is about to be written in place, or the record or archive that decides whether a linked pending record is saved is itself such a link, endangered evidence can be lost but not only that; UnsharedLostExactly says when there is no such state.
- EndangeredEvidence.LostExactly: an archive or record that compaction writes has arbitrary bytes, but unlike those of any file there, because it carries the time it was made; a run captured while something is pinned brings no hard links to files that exist; evidence changed by hand is not modelled.
- EndangeredEvidence.LostExactly: any pass may come to any run, to compact it and to walk its reports; when age and the payload budget make it do so is Compaction.ChooseKept, that pins and current record fit first is BoundedRecords.Records.Maintain, and a fault in another run that stops every pass before it comes to this one is not considered.
- CleanupOutcomes.CompactionIsCompleted: for a run without temporary files of a killed compaction; those are the subject of Compaction.LinkIsWrittenOver and EndangeredEvidence.LostExactly.
- RetentionProtocol: the order of the steps of a pass within compaction, resumption, deduplication and retirement is free; which runs a pass chooses is BoundedRecords and Compaction; a pin root installed while a pass without one runs is not modelled.
- MergeWindow: GitHub's answers about one pull request are the same value throughout one sweep.
- PolicyDefaults.ReassignmentDiffersExactly: exact where the default is a name or leads to one through names; arithmetic over several names assigned again can agree by chance.
- PolicyDefaults: statements that change a name other than by assigning it at the top level are only the names they bind; keyword-only parameters are not modelled.
- BudgetStore: group budgets, run admission and the creation of repair holds are inputs; the repair limit that freezing also stores is not modelled.
- BudgetStore: a turn identity is a string of bytes, so its length is the byte length the code checks.
- LateSettlement.OrderDoesNotMatter: the condition that totals fit 64 bits is sufficient, not necessary; a report that would overflow is refused whole.
- StopConditions.EveryOrderStopsExactly: where a reservation is too large in one dimension and too small in another, each of the three conditions still stops every order; whether every order stops without them is not characterised there.
- Requirements: draft imports, groups, delivery states beyond leaving Ready, model selection and the event table; the rules for documents and contracts are parameters.
- Notifier.AttemptsAreBounded: the spacing is of the recorded starts; the child process that sends may begin later. `tick_events`, which does not look at the clock again, and the HTTP answer codes are not modelled.
- LoginLimits: the attempts of one key run one after another with a clock that does not go back.
- Sessions: passwords and hashes are strings with an arbitrary verifier; login limits are a separate module because a limited login ends before the account is read.
- HttpScenarios: `int()` takes ASCII digits only; capture variables, headers, cookies and the request loop are not modelled.
