# Evidence and verification toolchain: a Dafny model

The repository records evidence that a project's claims hold, decides whether
stored evidence may still be believed, and migrates older trees into the
current layout. This project models the parts of it whose correctness is not
visible in any one function, and proves the properties those parts exist for.

| file | models |
|---|---|
| `Migration.dfy`, `MigrationReports.dfy` | preflight and the transactional apply of the migration: staging, moving originals aside, landing new bytes, rollback and reporting, under every schedule of file-system failures |
| `History.dfy`, `StoredHistory.dfy`, `Receipts.dfy`, `AcceptedEvents.dfy` | the append-only, hash-linked event history, the eligibility of a stored execution, and the receipts behind events as one run checks and remembers them |
| `Assess.dfy`, `Verdicts.dfy`, `SlotStates.dfy`, `Failures.dfy`, `MaskedFailures.dfy` | the v4 assessment: slot states, claim rows, the second history read, dependency propagation, the verdict, exactly which recorded failures reach it, and stored histories whose failures do not |
| `Records.dfy`, `GateB.dfy`, `Dashboard.dfy`, `Acceptance.dfy`, `RunVerdicts.dfy`, `Agreement.dfy`, `GateFacts.dfy`, `Manifests.dfy`, `LoadedManifests.dfy` | the two evidence judges and the obligation manifest they load, what each accepts and concludes exactly, the simulation between them, and what a VERIFIED run implies |
| `Json.dfy`, `JsonTokens.dfy`, `JsonGrammar.dfy`, `Utf8.dfy`, `Snapshot.dfy` | the canonical JSON codec (sections 6 and 7 of RFC 8259), strict UTF-8 (section 3 of RFC 3629), canonical ordering and the snapshot byte stream |
| `Graph.dfy`, `ToolGraph.dfy`, `LinkGraph.dfy`, `RootBytes.dfy` | depth-first searches over tool identities and recorded file trees |
| `Ownership.dfy` | the process-ownership control log |
| `Policy.dfy`, `PolicyText.dfy`, `PolicyRoundTrip.dfy` | the verified-input policy: selection, parser and printer |
| `RunManifest.dfy`, `RunInterleavings.dfy`, `RunAsides.dfy` | the locked read-modify-write run manifest, all interleavings of its commands, and the outputs that resets move aside |
| `Capture.dfy` | the bounded head-and-tail output capture |
| `TrustChain.dfy` | the trust-chain block scanner and the code-span tokenizer |
| `ClaimIds.dfy`, `Obligations.dfy`, `ObligationManifest.dfy`, `WrittenManifest.dfy` | the obligation migration and the manifest it writes |
| `Basics.dfy`, `Chars.dfy` | shared vocabulary |

Three kinds of things are parameters. The outside world is a schedule: a
boolean for each file-system call (`Migration.Faults`), an arbitrary sequence
of process steps, crashes and writes (`RunInterleavings.Step`). SHA-256 is an
uninterpreted function, and statements that need more say so (an injective
digest, or no collision among the files compared); everything else is stated
on the bytes that are hashed. Reading artifacts, matching pass markers and
validating whole event files are predicates; what validating a receipt's files
gives may differ at every event.

The two judges are compared on one set of records and one manifest, over the
same required claims, with no value pinned by the operator and each claim
required once at the gate (`Agreement.SameRun`); what only the gate can see,
the repository's files and bindings, is arbitrary.

Code that updates state is a class or a method with a loop (`Migration.Migrator`,
`Assess.Report`, `Receipts.Reader`, `GateB.Cohort`, the searches, `RunManifest.RunDirectory`,
`Capture.StreamCapture`, `Obligations.Translation`), proved equal to a
specification function or to a declarative statement, about which the lemmas
then speak.

## Where the code and its documentation differ

The model follows the code. Each difference is stated as an exact condition.

- A failed migration that reports nothing stranded or lost is meant to leave
  every destination as it was. It does, for every fault schedule, exactly when
  no FIFO, socket or device stands where an earlier-than-last write would land:
  such a destination is overwritten without being saved
  (`Migration.CleanFailureRestoresIffNotExposed`). Over the destinations that
  preflight saw, a create stands over nothing and an adoption over something that
  could be read: an unreadable socket becomes a conflict, and reading a FIFO
  blocks. There the exception is an adoption, other than the last write, over a
  special file that gave bytes, as a readable device does
  (`Migration.PreflightedRestoresIff`); any other special file has to appear
  between preflight and the apply.
- The assessment's salvage handler is meant to keep every validated failure when
  a later member is corrupt. Both passes over the rows call the eligibility check
  outside any slot's own handler, and it raises on an execution with two recorded
  PASSes. So each pass finds the failures it gets to before a slot that cites an
  execution doubled in the history it reads, and a later claim's only FAIL ends
  as an ERROR, in the first pass (`Failures.FailureShowsIffReached`,
  `MaskedFailures.DuplicateMasksFailure`) as in the second
  (`Failures.LastFailureShowsIffReached`,
  `MaskedFailures.LastDuplicateMasksFailure`, where the store only grew and the
  first read shows no doubled execution). `Failures.FailedIff` states the whole
  condition.
- The second history read never raises a policy row and keeps its FAIL. Rows
  outside the policy are computed afresh, so a second read without the failing
  events clears their FAIL (`Failures.OutsideFailureShowsIff`). The files have to
  shrink for that. One run keeps the receipts it has accepted and refuses a
  history file that has changed, so it reads an accepted execution or observation
  again whatever has become of the receipts (`Receipts.OneRunRemembers`); only
  the owner of an indeterminate event is read afresh, and such an event is never
  a FAIL. In a store that only grew no FAIL is cleared
  (`Failures.OutsideFailureInGrownStore`); in general one is lost exactly if the
  store has shrunk past every file that fails the claim and nothing newly
  accepted fails it (`Failures.OutsideFailureShowsInOneRunIff`,
  `MaskedFailures.LostFileMasksFailure`).
- `render_policy` promises text that parses back to an equal policy. It does
  exactly when the structural prefixes are the defaults and the entries are
  distinct and unchanged by reading (`PolicyRoundTrip.RoundTripIff`). The
  parser itself yields others: `././x` is read as `./x`
  (`PolicyRoundTrip.ParsedNeedNotRoundTrip`).
- The obligation migration means to block whenever two legacy ids would share
  an evidence record. Its owner map takes equal spellings for one owner, so a
  claim spelled exactly like a target some claim lists passes, and that alone makes
  the written manifest unloadable (`ObligationManifest.MigratedLoadsIff`,
  `ObligationManifest.EqualSpellingEscapes`). Its separate check for a target
  that is both invariant and witness can never fire
  (`ObligationManifest.NeverBothKinds`).
- `reset` is meant to retain every earlier output. It does in every interleaving
  exactly when no two voices share a file and no voice's file is a name that
  another voice's resets have used or will use
  (`RunAsides.AsidesKeptIffNamesSafe`; the outputs that resets before the run
  moved aside count too), and only
  if no reset dies between the renaming and the save (`RunAsides.TornResetLoses`).
- The dashboard's list of waived claims equals the gate's exactly when each
  waived claim was asked for once; the rest of the verdict always agrees
  (`Agreement.VerifiedForcesVerified`).

## Model

| member | source | states |
|---|---|---|
| `Migration.ApplyIsAllOrNothing` | scripts/fv_migrate.py:2416-2528 | for every fault schedule and every set of pending writes with distinct paths: success leaves each destination with its new bytes and mode and nothing else changed; failure reports each write truthfully (`written`, `rolled-back`, `lost`, `failed`, `pending`), names exactly the stranded and lost ones, touches no other destination, and keeps every original at its destination or saved |
| `Migration.NoStepLosesAnOriginal` | scripts/fv_migrate.py:2453-2528 | every intermediate state of the disk, rollback included, still holds each original, except the last state of a completed apply, where every destination holds its new bytes; so a kill at any moment loses nothing |
| `Migration.FailureKeepsOriginals` | scripts/fv_migrate.py:2498-2517 | throughout a failed apply, recovery included, no original leaves both its destination and the saved area, so staging is discarded only when no original is in it |
| `Migration.CleanFailureRestoresIffNotExposed` | scripts/fv_migrate.py:2442-2528 | a failure that reports nothing stranded or lost restores every destination, for all fault schedules, if and only if no earlier-than-last landable write replaces a special file |
| `Migration.ExposedCanLose` | scripts/fv_migrate.py:2477-2496 | for every exposed set of writes a single fault makes the apply fail cleanly and leave a destination gone |
| `Migration.RestoresUnlessExposed` | scripts/fv_migrate.py:2625-2648 | a clean failure that does not restore everything can only come from an exposed special file |
| `Migration.PreflightedRestoresIff` | scripts/fv_migrate.py:2167-2256 | preflight followed by the apply: over the destinations preflight saw, every failure that reports nothing stranded or lost restores them, for all fault schedules, if and only if no adoption before the last write stands on a special file that could be read |
| `Migration.PendingIsVetted` | scripts/fv_migrate.py:2167-2256 | what preflight leaves pending is a create over nothing or an adoption of something readable, and every one of them can land |
| `Migration.PreflightCases` | scripts/fv_migrate.py:2167-2256 | the action and mode preflight gives a planned write, each exactly by what stands at its destination and what the write allows |
| `Migration.PreflightBlocksIff` | scripts/fv_migrate.py:2167-2294 | preflight blocks exactly if some destination is obstructed, or holds other bytes that the write neither adopts nor keeps, or there is something to stage and the staging prefix cannot be used |
| `Migration.MigratedHoldsPlan` | scripts/fv_migrate.py:2167-2528 | preflight and apply together: if neither refuses, every planned byte is readable at its destination, except that kept files stay as they were; created files have the planned mode, adopted ones the mode they had, and nothing outside the plan changed |
| `MigrationReports.FailureReport` | scripts/fv_migrate.py:2425-2528 | the action reported of every write of a failed migration: without a run directory all are pending; otherwise the write it stopped at failed or is lost, and in the moves the earlier ones are rolled back unless stranded and the later ones pending |
| `MigrationReports.FaultlessIff` | scripts/fv_migrate.py:2416-2528 | without faults an apply goes through exactly if no destination is a directory or a link or is kept and already there |
| `MigrationReports.PreflightedGoesThrough` | scripts/fv_migrate.py:2167-2528 | without faults a migration goes through whatever preflight left pending |
| `Migration.Migrator.Preflight` | scripts/fv_migrate.py:2167-2294 | the loop that sets each planned write's action and mode in place, and blocks on a conflict or an unusable staging prefix; `Migration.PreflightCases` and `Migration.PreflightBlocksIff` say which |
| `Migration.MoveAllSpec` | scripts/fv_migrate.py:2464-2497 | wherever the moving loop stops, each touched destination has its original saved or in place and its new bytes landed or not, exactly as its record says, and nothing outside the writes changed |
| `Migration.RollbackSpec` | scripts/fv_migrate.py:2625-2648 | rollback changes only touched destinations, and each ends restored unless it is reported stranded (new bytes still there, original saved) or lost (nothing there, original saved) |
| `Migration.PendingAreDistinct` | scripts/fv_migrate.py:2413-2416 | planned writes under distinct paths give distinct pending writes, and these are exactly the creates and adoptions |
| `Migration.Migrator.Run` | scripts/fv_migrate.py:2416-2528 | the method over the migration's fields: refused when blocked, otherwise the new disk, the result and every write's final action are those of the specification |
| `Migration.Migrator.RollBack` | scripts/fv_migrate.py:2625-2648 | the rollback loop over the touched writes, last first, gives the specified disk, stranded and lost sets |
| `Migration.Migrator.MoveEach` | scripts/fv_migrate.py:2464-2497 | the moving loop records each write before touching it and stops at the first failure |
| `Migration.Migrator.FailWith` | scripts/fv_migrate.py:2498-2517 | recovery: rollback, final actions, and staging discarded only if nothing was stranded or lost |
| `History.EligibleIff` | scripts/fv_evidence_v4.py:1994-2026 | an execution is eligible if and only if it has a pass later than every barrier and then a matching observation pass; `History.EligibleOnFields` says so on event fields |
| `History.EligibleOnFields` | scripts/fv_evidence_v4.py:1924-2026 | the same on the fields of events: one PASS of the execution, a later observation PASS of it for the claim, slot and tool, and nothing against the association at or after the PASS, where what counts against it is a FAIL or an indeterminate event of any result |
| `History.ShutOutForGood` | scripts/fv_evidence_v4.py:1924-2026 | on event fields: a FAIL of either kind, or an indeterminate event of any result, claimed or not, after the PASS of an execution makes it ineligible whatever events follow |
| `History.OnlyTheseEventsCount` | scripts/fv_evidence_v4.py:1924-2026 | an event of none of these forms, that is no pass or confirmation of the execution either, can be removed anywhere without changing eligibility |
| `History.FailsOnFields` | scripts/fv_evidence_v4.py:1924-1943 | an association fails exactly by an execution or observation FAIL or an indeterminate FAIL of its claim and tool, on event fields |
| `History.DuplicateIff` | scripts/fv_evidence_v4.py:1994-2010 | eligibility is refused outright exactly when two events pass the same execution |
| `History.RemainingExactly` | scripts/fv_evidence_v4.py:2010-2026 | an eligible execution has no barriers left; an ineligible one keeps all of them |
| `History.BarrierIsPermanent` | scripts/fv_evidence_v4.py:1924-1943 | once a barrier follows an execution's pass, the execution is ineligible after any further events |
| `History.BarrierHoldsInLaterReading` | scripts/fv_evidence_v4.py:1994-2026 | a barrier past an execution's pass shuts the execution out in every later reading that keeps the events, whatever else it holds |
| `History.BarrierHoldsWhenRechecked` | scripts/fv_evidence_v4.py:1836-1943 | so it does in a store that grew, read by a reader that checks every receipt afresh, as long as what was accepted still checks |
| `History.RecheckedStoreKeepsEvents` | scripts/fv_evidence_v4.py:1746-1887 | across runs: a grown store read again keeps every event of the first read if the receipts accepted then still check and one execution's events agree on a PASS, although an event refused before may now be accepted |
| `History.RememberedIsKept` | scripts/fv_evidence_v4.py:1836-1887 | within one run: of two reads one's references are a prefix of the other's, and every execution and observation event of the first is read again as long as its file is there |
| `History.RememberedFailures` | scripts/fv_evidence_v4.py:1836-1887 | within one run a FAIL of the first read is in the second exactly if its file is still there |
| `Receipts.AcceptedAgain` | scripts/fv_evidence_v4.py:1746-1834 | an execution or observation event accepted once is accepted again from whatever the run has come to remember and whatever the files hold by then, and nothing new is remembered for it |
| `AcceptedEvents.AcceptedIff` | scripts/fv_evidence_v4.py:1746-1834 | the events a run accepts, condition by condition: what execution backs an event and under which key, attempt and members, what each kind may say, and for an observation the one member and the one requested slot that its receipt tells of, with every requested slot holding a fitting PASS |
| `Receipts.JudgesOneResult` | scripts/fv_evidence_v4.py:1747-1781 | the execution events one run accepts in a store agree on whether an execution passed |
| `Receipts.OneRunRemembers` | scripts/fv_evidence_v4.py:887-891 | the second of two reads by one run accepts what the first accepted, for all contents of the receipts' files at every event of either read and all that is accepted in between |
| `Receipts.SecondReadIsIntact` | scripts/fv_evidence_v4.py:123-128 | the second read is refused for a changed file exactly if a file both reads have hashes differently |
| `Receipts.Reader.FindExecution` | scripts/fv_evidence_v4.py:887-1083 | the remembered artifact of the path, or a refusal if it was remembered for another reference, or a newly validated one, which is remembered |
| `Receipts.Reader.FindObservation` | scripts/fv_evidence_v4.py:1556-1673 | the same for observation receipts, whose loop over the requested slots remembers the artifacts it finds even where the receipt is then refused |
| `Receipts.Reader.CheckEvent` | scripts/fv_evidence_v4.py:1746-1834 | the checks of one event by kind, with what is remembered after them |
| `Receipts.Reader.Load` | scripts/fv_evidence_v4.py:1836-1887 | the loop over the history directory, on the reader's own caches, gives the reading of a reader that finds sound what is accepted at its place, or a refusal if a file read before has changed |
| `History.BarrierHoldsInEveryGrowth` | scripts/fv_evidence_v4.py:1836-1943 | for stores of files whose receipts are judged alike: a barrier read from a store holds in every longer store that is accepted |
| `History.ForeignEventsChangeNothing` | scripts/fv_evidence_v4.py:1924-1943 | observation events of other claims can be removed without changing eligibility |
| `History.LoadHistory` | scripts/fv_evidence_v4.py:1836-1921 | the loop that reads event files, links, sequences and the captured prefix, and then the scan for committed attempts that no event accounts for, give the specified reading, error count or refusal |
| `StoredHistory.KeptIff` | scripts/fv_evidence_v4.py:1836-1887 | a file of an accepted store becomes an event exactly if it is sound and, for an observation, the last execution event of its attempt before it is a PASS |
| `StoredHistory.EventsAreFiles` | scripts/fv_evidence_v4.py:1836-1887 | every event is a file's, at the place its sequence number says |
| `StoredHistory.ErrorsCount` | scripts/fv_evidence_v4.py:1836-1887 | the error count of a reading is the number of files that became no event |
| `StoredHistory.UnaccountedIs` | scripts/fv_evidence_v4.py:1893-1921 | a history counts one more error for each committed attempt, by key directory and attempt, without an execution or indeterminate event of it |
| `History.CleanHistoryAccounts` | scripts/fv_evidence_v4.py:1899-1920 | a history read without errors has an event for every file and accounts for every committed attempt of a readable index |
| `History.PrefixReads` | scripts/fv_evidence_v4.py:1836-1887 | a refused prefix refuses the store, and an accepted store's prefixes read as prefixes of its reading |
| `History.ReadIsOrdered` | scripts/fv_evidence_v4.py:1846-1887 | an accepted store has contiguous sequence numbers, increasing events and references that hash its files |
| `History.HeadDeterminesStore` | scripts/fv_evidence_v4.py:1846-1887 | without collisions among the files, equal heads mean equal stores: the chain is tamper evident |
| `History.CapturedFilesAreFixed` | scripts/fv_evidence_v4.py:1888-1893 | a captured view fixes the files it was taken over in every store that accepts it |
| `History.CleanReadsAgree` | scripts/fv_evidence_v4.py:1836-1920 | two error-free reads with the same references yield the same events |
| `History.Associate` | scripts/fv_evidence_v4.py:1946-1975 | for one tool outside the policy: blockers, cutoff and state (FAIL if an applicable failure exists, MISSING if nothing blocks) |
| `History.OutsidePolicy` | scripts/fv_evidence_v4.py:1946-1991 | a claim outside the policy is FAIL or INCOMPLETE, never a pass, with the blocking sequences of all its tools |
| `History.OutsideFailureIsPermanent` | scripts/fv_evidence_v4.py:1946-1991 | a failure outside the policy survives every later reading that keeps the earlier one's FAILs |
| `Assess.SlotPassesIff` | scripts/fv_evidence_v4.py:2745-2890 | a slot passes exactly when its receipts support it and its execution is eligible in the history |
| `Verdicts.SlotFailsIff` | scripts/fv_evidence_v4.py:2749-2940 | a slot is FAIL exactly by an unanswered failure in the history, by a failed artifact that its record owns up to and nothing blocks, or by an observation that fails when rechecked |
| `Verdicts.SlotRaisesIff` | scripts/fv_evidence_v4.py:2774-2950 | judging a slot reports an error exactly where one of the checks, in its place, does not hold |
| `SlotStates.SlotStateIs` | scripts/fv_evidence_v4.py:2749-2950 | the state of every slot: FAIL under an unanswered failure, else ERROR where a check raises, else its saved, observed, blocked, missing or rechecked state; a blocked one is CANCELLED exactly if the last event against it is a cancellation |
| `SlotStates.RereadSlotIs` | scripts/fv_evidence_v4.py:2989-3015 | the same after the second read |
| `Failures.PhysicalFailureSticks` | scripts/fv_evidence_v4.py:2745-2890 | a slot with an unanswered FAIL event is FAIL whatever its receipts say |
| `Assess.SecondReadOnlyWorsens` | scripts/fv_evidence_v4.py:2990-3028 | the second history read never raises a slot or a row, keeps every failed policy row failed, and leaves only slots eligible in the new history passing |
| `Assess.SecondReadKeepsFailures` | scripts/fv_evidence_v4.py:2990-3028 | when the second read still has every FAIL of the first, no row's FAIL is cleared, in the policy or outside it |
| `Assess.OutsideFailsIff` | scripts/fv_evidence_v4.py:1946-1991 | a claim outside the policy is FAIL exactly when some event read fails it for one of its canonical tools, or for any tool if it has none |
| `Assess.LostEventsClearFailure` | scripts/fv_evidence_v4.py:2990-3000 | a second read without failing events for it turns a row outside the policy from FAIL to INCOMPLETE |
| `Assess.PropagationOnlyLowers` | scripts/fv_evidence_v4.py:3031-3045 | dependency propagation can only turn a pass into incomplete, changes no slots, and what still passes had every dependency passing in the rows before propagation |
| `Assess.PropagationSettles` | scripts/fv_evidence_v4.py:3031-3045 | where no dependency has dependencies of its own, every dependency of a row that passes in the final rows passes in them |
| `Assess.PropagationExact` | scripts/fv_evidence_v4.py:3031-3045 | where no dependency has dependencies of its own, a row passes after propagation exactly if it passed before and a passing row of each of its dependencies did, and no row changes otherwise |
| `Assess.ManifestDependenciesAreLeaves` | scripts/check_evidence_records.py:793-852 | in every manifest Gate B loads, no dependency has dependencies, so one propagation pass settles |
| `Assess.PassingRowIsDischarged` | scripts/fv_evidence_v4.py:2736-3045 | a row passing after both reads is a policy claim whose every slot is supported and eligible in the last history |
| `Assess.VerdictIsSound` | scripts/fv_evidence_v4.py:2736-3088 | for two reads of stores without collisions among their files, code 0 implies that every required claim and each of its dependencies is discharged in the last history read |
| `Verdicts.ExitCode` | scripts/fv_evidence_v4.py:2736-3103 | the exit code of every run: 1 exactly for the failures that either pass or the outside rows show, else 2 if the run stops, drifts or reports any error of the run, its preflight, the histories, the slots or the records, else 0 exactly if something is required, the run was not cancelled and every required claim and dependency is discharged, else 3 |
| `Verdicts.ExitCodeOfStores` | scripts/fv_evidence_v4.py:1836-3103 | the same for a run over history stores and a manifest that Gate B loads |
| `Failures.FailedIff` | scripts/fv_evidence_v4.py:2736-3103 | of every run that judges rows: the code is 1 if and only if the first pass shows a required slot as FAIL, the second pass finds one with an unanswered FAIL in the last history, or the history in which claims outside the policy were last looked up fails a required one |
| `Verdicts.ShownFailIff` | scripts/fv_evidence_v4.py:2749-3015 | a failed row of the first pass, on the receipts and the history |
| `Verdicts.CapturedIff` | scripts/fv_evidence_v4.py:1939-1943 | the captured barriers are exactly the sequences of the captured events against the association |
| `Verdicts.ConfirmedIff` | scripts/fv_evidence_v4.py:2010-2018 | an eligible slot's observation is confirmed exactly by a later observation PASS event that names it |
| `Failures.StoppedIff` | scripts/fv_evidence_v4.py:2736-3009 | what stops a run before its rows are final: a slot citing an execution doubled in the first history, a refused second read, or, where that read gave other references, a slot citing an execution doubled in it |
| `Failures.StoppedRunFailsIff` | scripts/fv_evidence_v4.py:3089-3103 | a run stopped in the first pass, at the second read or in the second pass ends with code 1 exactly if a slot reached in the first pass, a slot reached in the second, or a claim outside the policy had failed by then, and with code 2 otherwise |
| `Failures.FailureIsNeverMasked` | scripts/fv_evidence_v4.py:3089-3103 | once a required claim's slot has an unanswered FAIL in the first read, and no slot up to it cites an execution with two PASSes, the code is 1, whatever raises afterwards |
| `Failures.LastFailureIsNeverMasked` | scripts/fv_evidence_v4.py:3001-3103 | the same for an unanswered FAIL in the last history and the executions doubled there |
| `Failures.FailureShowsIffReached` | scripts/fv_evidence_v4.py:2736-3103 | when such a slot is all that could fail the run in its first pass, the code is 1 exactly if no slot up to it cites an execution with two PASSes, and 2 if one does |
| `Failures.LastFailureShowsIffReached` | scripts/fv_evidence_v4.py:3001-3103 | when the first pass finds nothing and a slot with an unanswered FAIL in the last history is all the second could find, the code is 1 exactly if no slot up to it cites an execution doubled in the last history, and 2 if one does |
| `MaskedFailures.DuplicateMasksFailure` | scripts/fv_evidence_v4.py:1994-2010 | three retained files, and two claims of which the first cites the execution they record two PASSes of: the second's recorded FAIL ends as code 2 |
| `MaskedFailures.LastDuplicateMasksFailure` | scripts/fv_evidence_v4.py:3001-3009 | the same when the second PASS and the FAIL are appended between the two reads: the first read has no doubled execution, the last history holds the FAIL, and the code is 2 |
| `Failures.OutsideFailureIsNeverMasked` | scripts/fv_evidence_v4.py:2990-3103 | a required claim outside the policy that the first read fails gives code 1, whatever raises afterwards, if a differing second read keeps the first one's FAILs |
| `Failures.OneRunReads` | scripts/fv_evidence_v4.py:2651-2990 | the two reads an assessment makes with its one reader, with nothing assumed of the receipts' files, meet what the next two rows ask of the reads of one run |
| `Failures.OutsideFailureInGrownStore` | scripts/fv_evidence_v4.py:2990-3103 | so it does in every run whose retained files only grew between its two reads |
| `Failures.OutsideFailureShowsInOneRunIff` | scripts/fv_evidence_v4.py:2990-3103 | by the files of one run, when such a failure is all that fails it: the code is 1 exactly if the run stops, a file that fails the claim is still there at the second read, or something the second read newly accepts fails it |
| `Failures.ReportedOutsideRow` | scripts/fv_evidence_v4.py:2990-3000 | a row outside the policy is reported as the last history says if the second pass went through, and as the first one said otherwise |
| `Failures.OutsideFailureShowsIff` | scripts/fv_evidence_v4.py:2990-3103 | when a required claim outside the policy that the first read fails is all that fails the run, the code is 1 exactly if the run stops, the second read changes nothing, or the second read fails the claim too |
| `MaskedFailures.LostFileMasksFailure` | scripts/fv_evidence_v4.py:2990-3000 | one run over a store whose only file, a FAIL outside the policy, is gone at its second read: the FAIL ends as code 2 |
| `Assess.Report.FoldRows` | scripts/fv_evidence_v4.py:2700-2973 | the loop that writes each claim's row in place, stopping where judging raises, gives the specified rows and error count |
| `Assess.Report.Reread` | scripts/fv_evidence_v4.py:2990-3028 | the in-place second pass over the rows gives the specified rows |
| `Assess.Report.PropagateGaps` | scripts/fv_evidence_v4.py:3031-3045 | the in-place propagation gives the specified rows |
| `Assess.Report.Run` | scripts/fv_evidence_v4.py:2397-3110 | the report object's whole run ends with the specified rows and exit code |
| `Records.CitedArtifactIndex` | scripts/check_evidence_records.py:884-892 | the index maps each cited artifact to exactly the required claims that cite it |
| `Records.IndexIff` | scripts/check_evidence_records.py:1122-1144 | a claim is a duplicate exactly if two records carry it, is indexed exactly if one does, and its record is then the last that carries it |
| `Records.ExpandCloses` | scripts/check_evidence_records.py:1081-1092 | naming claims pulls in every dependency of each named system claim |
| `Records.ExpandIff` | scripts/check_evidence_records.py:1081-1092 | the expanded list begins with what was named, and adds exactly the dependencies of the named system claims, each once |
| `GateB.Cohort.Check` | scripts/check_evidence_records.py:277-359 | the entry's checks update the seen tools and paths in place: nothing taken is given up, and an entry found defect free has a tool and an artifact path that nobody had taken and that are its own from then on; which defects are found is as specified |
| `GateB.Cohort.CheckAll` | scripts/check_evidence_records.py:362-410 | the loop over a cohort carries the seen sets through and collects every defect |
| `GateB.Judge` | scripts/check_evidence_records.py:1138-1240 | FAILED if some required claim fails, INCOMPLETE if none is required or one does not pass, otherwise VERIFIED with profiles, waived claims and binding |
| `Acceptance.GateAccepts` | scripts/check_evidence_records.py:131-720 | Gate B finds no defect in a record exactly if its text is well formed, it is of the snapshot, intent, intent path and manifest the terms want, every artifact of it resolves by path and hash and carries the pass marks of its class where a PASS is claimed, and a passing one covers the required tools |
| `Acceptance.GateCohortIff` | scripts/check_evidence_records.py:277-411 | a cohort has no defect exactly if every entry is well formed, no two share a tool or an artifact, and each is backed by its artifact |
| `RunVerdicts.GateVerdictIff` | scripts/check_evidence_records.py:1101-1260 | FAILED exactly if some required claim's one, accepted record says FAIL; VERIFIED exactly if something is required and every required claim has one record, accepted, sharing no artifact, PASS, and waived where it assumes |
| `RunVerdicts.GateScope` | scripts/check_evidence_records.py:1200-1260 | a VERIFIED verdict names exactly the profiles of the discharging records, each waived claim as often as it is required, and the binding |
| `Dashboard.ApplyDependencyCoverage` | scripts/coverage_dashboard.py:728-752 | the in-place pass over the rows lowers each row by the gaps that the rows before the pass show |
| `Acceptance.DashboardAccepts` | scripts/coverage_dashboard.py:238-440 | the dashboard finds no defect in a record exactly if its text is well formed, which asks nothing of the files it names |
| `Acceptance.DashboardCohortIff` | scripts/coverage_dashboard.py:238-325 | a cohort has no defect for the dashboard exactly if every entry is well formed and no two share a tool or an artifact |
| `RunVerdicts.FinalRowsAre` | scripts/coverage_dashboard.py:613-753 | the final status of each claim: PASS exactly if its one record discharges it and no judged dependency falls short, a dependency gap exactly if one does, FAIL exactly if its record says so |
| `RunVerdicts.BoardVerdictIff` | scripts/coverage_dashboard.py:613-864 | FAILED exactly if some required claim's one, accepted record says FAIL; VERIFIED exactly if something is required and every required claim has one accepted PASS record, waived where it assumes, with every cohort entry PASS and, for a system claim, a PASS for each required tool |
| `Agreement.EntryAgrees` | scripts/coverage_dashboard.py:238-323 | an execution entry the gate finds no defect in has none for the dashboard, which then has seen the same tools and paths |
| `Agreement.CohortAgrees` | scripts/coverage_dashboard.py:238-323 | a defect-free cohort at the gate is defect free at the dashboard |
| `Agreement.CohortIsSound` | scripts/check_evidence_records.py:277-410 | a defect-free cohort has well-formed entries with pairwise distinct tools and pairwise distinct artifact paths, none of them taken before |
| `Agreement.RecordAgrees` | scripts/coverage_dashboard.py:361-440 | a record the gate accepts is accepted by the dashboard, and a passing one covers the required evidence |
| `Agreement.DefectFreeAgrees` | scripts/coverage_dashboard.py:613-725 | no gate defects implies no dashboard defects, no non-passing execution and no coverage gap |
| `Agreement.FailAgrees` | scripts/coverage_dashboard.py:613-725 | a claim the gate fails is failed by the dashboard |
| `Agreement.PassAgrees` | scripts/coverage_dashboard.py:613-725 | a claim the gate passes is passed by the dashboard with the same waiver |
| `Agreement.FailedForcesFailed` | scripts/coverage_dashboard.py:844-915 | gate FAILED forces dashboard FAILED |
| `Agreement.VerifiedForcesVerified` | scripts/coverage_dashboard.py:844-915 | gate VERIFIED forces dashboard VERIFIED over the same profiles, with the same waived list exactly when each waived claim was required once |
| `GateFacts.PassingRecord` | scripts/check_evidence_records.py:1138-1232 | what a claim that passes the gate has: a sound record of its own, PASS, unshared artifacts, a waiver where it rests on an assumption, and a passing tool for all required evidence |
| `GateFacts.ArtifactsAreInjective` | scripts/check_evidence_records.py:333-347 | in a VERIFIED run no two executions of required cohort-schema records share a raw artifact path |
| `GateFacts.SystemClaimsAreComposed` | scripts/check_evidence_records.py:793-852 | in a VERIFIED run every required system claim has a PASS execution for each required tool, and its dependencies are all judged and pass |
| `GateFacts.AssumptionsAreWaived` | scripts/check_evidence_records.py:919-944 | in a VERIFIED run every claim resting on an assumed class carries an attributable waiver and is listed as waived |
| `Manifests.LoadsAgree` | scripts/coverage_dashboard.py:482-536 | a manifest the gate loads is loaded by the dashboard to the same thing |
| `Manifests.LoadedIsWellFounded` | scripts/check_evidence_records.py:793-852 | a loaded manifest has unrepeated ids, resolves every system claim, and lets claims depend only on declared invariants and witnesses |
| `LoadedManifests.GateLoadsIff` | scripts/check_evidence_records.py:750-852 | Gate B loads a document exactly if every item is listed with a usable id of its own and every system claim lists well-formed, unrepeated evidence and dependencies that are invariants or witnesses of the document; what it loads holds just what is declared |
| `LoadedManifests.BoardLoadsIff` | scripts/coverage_dashboard.py:463-536 | the dashboard loads a document exactly if the ids are so and every system claim's lists are of nonblank strings, and holds each string of a list once |
| `Utf8.RoundTrip` | scripts/fv_evidence_v4_schema.py:33-36 | decoding what was encoded gives the text back, for every sequence of scalar values |
| `Utf8.DecodeIsStrict` | scripts/fv_evidence_v4_schema.py:58-95 | bytes that decode are the encoding of the result: no overlong form, surrogate or stray byte is accepted |
| `Utf8.ByteOrderIsPointOrder` | scripts/fv_project.py:486-495 | comparing encodings byte by byte is comparing texts code point by code point |
| `Utf8.EncodingIsInjective` | scripts/fv_project.py:486-495 | different texts have different encodings |
| `Snapshot.SortFixes` | scripts/fv_evidence_v4_schema.py:167-176 | a list is its own sort exactly when no pair is out of order |
| `Snapshot.SortedUniqueIff` | scripts/fv_evidence_v4_schema.py:167-176 | `sorted_unique` accepts exactly the strictly increasing key sequences, for single and tuple keys |
| `Snapshot.OneAcceptedOrdering` | scripts/fv_evidence_v4_schema.py:167-176 | a set of keys has one accepted ordering |
| `Snapshot.StreamDecodes` | scripts/fv_project.py:545-557 | the snapshot byte stream decodes to the (path, digest) entries it was made of |
| `Snapshot.SnapshotIsInjective` | scripts/fv_project.py:545-557 | equal streams come from equal inventories |
| `Snapshot.SnapshotsAgree` | scripts/fv_evidence_v4.py:192-196 | the scanner's ordering and a stored file list accepted as sorted and unique hash the same bytes when they hold the same entries |
| `Json.Pairs` | scripts/fv_evidence_v4_schema.py:72-80 | the object hook's loop refuses exactly the member lists with a repeated name, and otherwise collects them |
| `Json.ValueReads` | scripts/fv_evidence_v4_schema.py:58-141 | the parser reads back each written value and leaves what followed it |
| `JsonGrammar.ParsesIff` | scripts/fv_evidence_v4_schema.py:58-95 | `parse_json` accepts exactly the UTF-8 of one value of the grammar of RFC 8259 with white space around its tokens, integers in their one spelling, no repeated names and scalar strings, and reads that value |
| `JsonGrammar.StringIff` | scripts/fv_evidence_v4_schema.py:82-88 | a string is read exactly as it is spelled: each short escape, each `\u` unit, surrogate pairs as one character and a lone surrogate as itself, and nothing else |
| `JsonTokens.NumberIff` | scripts/fv_evidence_v4_schema.py:59-68 | an integer is read exactly from its canonical spelling: no plus, no leading zero, no minus zero, no fraction and nothing beyond the safe range |
| `JsonTokens.ShortEscapeReads` | scripts/fv_evidence_v4_schema.py:82-88 | the character each short escape stands for |
| `JsonTokens.PairReads` | scripts/fv_evidence_v4_schema.py:82-88 | two escapes that spell a high and then a low surrogate stand for one character |
| `Json.CodecRoundTrip` | scripts/fv_evidence_v4_schema.py:39-141 | `parse_json(C(v))` is `v` for every value the grammar accepts |
| `Json.CanonicalIsInjective` | scripts/fv_evidence_v4_schema.py:97-141 | equal canonical bytes, equal values |
| `Json.AcceptedHasCanonicalForm` | scripts/fv_evidence_v4_schema.py:58-95 | whatever the parser accepts satisfies the grammar and has a canonical form that parses to it |
| `Json.CanonicalHasNoNul` | scripts/fv_evidence_v4_schema.py:97-141 | canonical bytes hold no NUL |
| `Json.PreimageIsInjective` | scripts/fv_evidence_v4_schema.py:143-148 | what `D` hashes determines the label and the value, for NUL-free labels |
| `Graph.OrderedIsWellFounded` | scripts/fv_evidence_v4.py:547-567 | a finishing order that holds the roots shows all they reach to be present and free of cycles |
| `ToolGraph.Search.Visit` | scripts/fv_evidence_v4.py:547-555 | a visit finishes its node and everything below it in dependency order, or shows the graph to be open or cyclic; it terminates on unvisited nodes |
| `ToolGraph.CheckTools` | scripts/fv_evidence_v4.py:519-567 | accepted if and only if the identities are strictly increasing and well formed and the roots reach a closed, acyclic graph that is exactly the supplied identities |
| `ToolGraph.AcceptedTools` | scripts/fv_evidence_v4.py:519-567 | the accepted identities one by one: rising, sound, declared where they are pinned, and the producer's with its own locator and nothing it needs |
| `ToolGraph.VisitAll` | scripts/fv_evidence_v4.py:557-567 | succeeds if and only if what the roots reach is closed and acyclic, and the finished nodes are then exactly the reached ones |
| `ToolGraph.EveryToolReached` | scripts/fv_evidence_v4.py:565-567 | with no reviewed identities, being closed and acyclic is the whole condition |
| `LinkGraph.LinkCheck.Check` | scripts/fv_evidence_v4_schema.py:884-931 | one link's check finishes it and the links below it, or shows a link that does not match or leads back to itself |
| `LinkGraph.CheckLinks` | scripts/fv_evidence_v4_schema.py:884-934 | accepted if and only if every link carries its target's hash (for directories, of the relative, byte-ordered listing) and no chain of directory links returns to a link |
| `LinkGraph.LinksAcceptedIff` | scripts/fv_evidence_v4_schema.py:884-934 | each link is recorded as the entry it stands for: a file link with the file's hash, size and mode, a directory link with the hash of the directory's listing |
| `LinkGraph.NoLinkHoldsItself` | scripts/fv_evidence_v4_schema.py:884-934 | in an accepted tree no directory link lies inside its own target |
| `LinkGraph.HashSettlesWalks` | scripts/fv_evidence_v4_schema.py:918-929 | with an injective digest, directory links of two accepted trees with equal hashes lead through the same chains of links, hash by hash, at every depth |
| `RootBytes.RootHasBytes` | scripts/fv_evidence_v4.py:256-282 | true if and only if containment and directory links lead from the root to a qualifying non-empty file, although a name visited before counts as a dead end |
| `RootBytes.FindsContent` | scripts/fv_evidence_v4.py:244-282 | what is found is a file, or a link to one, with content by its size and by its digest, executable where that is asked |
| `RootBytes.ExploredFindsNothing` | scripts/fv_evidence_v4.py:256-282 | once every visited name is explored, no walk from any of them reaches such a file |
| `Ownership.CheckMessages` | scripts/fv_evidence_v4.py:841-862 | accepted if and only if each hosted group is owned once and then released once, and no other group appears |
| `Ownership.CheckLog` | scripts/fv_evidence_v4.py:837-862 | the same for the raw log, whose lines must be complete, of legal length and decodable |
| `Ownership.GroupsInterleaveFreely` | scripts/fv_evidence_v4.py:837-862 | exchanging neighbouring messages of different groups changes no verdict |
| `Policy.CoversWholeComponents` | scripts/fv_project.py:265-279 | an entry covers a path exactly when its components are a prefix of the path's: `build` never covers `buildout.bin` |
| `Policy.SelectionByComponents` | scripts/fv_project.py:265-345 | what a policy selects, stated in path components: nothing a structural entry holds; beyond that, what an entry or the policy file holds in include mode, and what no entry holds in exclude mode |
| `PolicyRoundTrip.NoTextSelectsOutput` | scripts/fv_project.py:334-408 | no policy text that parses, in either mode, selects a path inside an output directory |
| `PolicyRoundTrip.OutputsAreExcluded` | scripts/fv_project.py:334-408 | the same for the nine output directories by name |
| `Policy.ExclusionsDecide` | scripts/fv_project.py:325-345 | in exclusion mode a path is selected exactly when the exclusion list does not match it |
| `Policy.PolicySelectsItself` | scripts/fv_project.py:317-345 | in include mode the policy file is selected unless a structural prefix covers it, and never is covered by the default ones |
| `Policy.ListExclusions` | scripts/fv_project.py:325-332 | the accumulating loop gives the exclusion list |
| `Policy.Parse` | scripts/fv_project.py:367-408 | the line loop, with its mode and prefixes, gives the specified policy or the specified refusal |
| `PolicyText.ParsedIff` | scripts/fv_project.py:215-408 | a policy text is accepted exactly if it is clean, only its first telling line sets the mode, its other telling lines are entries inside the project and an include policy has one; it then states that mode and these entries in the order they first appear |
| `PolicyText.LinesRejoin` | scripts/fv_project.py:383-386 | the lines read, with their endings, make up the text again |
| `PolicyRoundTrip.RoundTripIff` | scripts/fv_project.py:352-408 | a rendered policy parses back to itself if and only if its structural prefixes are the defaults and its entries are distinct and stable; any comment header may precede it |
| `PolicyRoundTrip.ParsedIsContained` | scripts/fv_project.py:215-241 | whatever parses has distinct entries that are relative, never climb out, name less than the whole project and hold no refused character |
| `PolicyRoundTrip.ParsedNeedNotRoundTrip` | scripts/fv_project.py:396-397 | `././x` parses to a policy that does not survive rendering |
| `RunManifest.AsideIsInjective` | scripts/fv_run.py:354-357 | no two files are moved aside to one name, nor one file twice |
| `RunManifest.CompleteNeedsFreshOutput` | scripts/fv_run.py:297-311 | `complete` goes through exactly for a voice whose output exists, is not empty, and is no older, to a second, than the run and every reset |
| `RunManifest.RefusedIff` | scripts/fv_run.py:291-350 | the commands that change nothing, exactly: those on a manifest that does not load, those for an unknown voice, and a completion without fresh output |
| `RunManifest.CompletedVoice` | scripts/fv_run.py:309-318 | status, detail, elapsed and finish of the saved voice after `complete`, and every other voice as it was |
| `RunManifest.ErroredVoice` | scripts/fv_run.py:326-334 | the same after `error` |
| `RunManifest.ResetVoiceIs` | scripts/fv_run.py:338-369 | the same after `reset`, with the attempt that was recorded |
| `RunManifest.FoldGrows` | scripts/fv_run.py:291-370 | no sequence of commands changes a voice's id or file or shortens its history |
| `RunManifest.RunDirectory.LoadManifest` | scripts/fv_run.py:99-112 | loads exactly the manifests with voices and unrepeated ids |
| `RunManifest.RunDirectory.FloorOf` | scripts/fv_run.py:305-308 | the loop computes the latest of the run's creation and its resets |
| `RunManifest.RunDirectory.CmdComplete` | scripts/fv_run.py:291-320 | saves the completed entry when the checks pass, and otherwise changes nothing |
| `RunManifest.RunDirectory.CmdError` | scripts/fv_run.py:323-335 | saves the errored entry, and changes no file |
| `RunManifest.RunDirectory.CmdReset` | scripts/fv_run.py:338-369 | appends the attempt to the history, moves the output aside and saves the voice as pending |
| `RunInterleavings.NoLostUpdates` | scripts/fv_run.py:131-143 | in every interleaving, crashes included, the saved manifest is the initial one with the saved updates applied in lock order; each is what its command asks for, and each process that reports success has exactly one |
| `RunInterleavings.UnlockedWritersLose` | scripts/fv_run.py:131-137 | with steps that take no lock, resets of any two different voices of any loadable manifest can both load before either saves; both report success, the first one's attempt is gone, and no order of the two saved updates gives the result |
| `RunInterleavings.HistoriesOnlyGrow` | scripts/fv_run.py:291-370 | at any two moments of a run the later manifest has the same voices and files and every history the earlier had |
| `RunAsides.AsidesKeptIffNamesSafe` | scripts/fv_run.py:344-361 | every output moved aside, during the run or before it, survives all runs in which no reset is torn, if and only if no two voices share a file and no voice's file is a name another voice's resets have used or will use |
| `RunAsides.TornResetLoses` | scripts/fv_run.py:349-364 | for every manifest, a reset that dies between renaming and saving lets the next one overwrite what it moved |
| `Capture.StreamCapture.Feed` | mcp/_shared/runproc.py:55-66 | after each chunk the head, the tail and the counters summarise the whole stream so far |
| `Capture.OneSummary` | mcp/_shared/runproc.py:44-66 | a stream has one summary, so two chunkings of it leave the same state |
| `Capture.HeadIsLongest` | mcp/_shared/runproc.py:57-60 | every prefix of the stream that fits the head is within it |
| `Capture.TailIsLongest` | mcp/_shared/runproc.py:61-66 | every ending of the rest that fits the tail is within it |
| `Capture.VerbatimIffItFits` | mcp/_shared/runproc.py:68-72 | nothing was dropped exactly when head and tail are the stream, which is exactly when it fits |
| `Capture.Drain` | mcp/_shared/runproc.py:94-102 | draining any chunks summarises their concatenation |
| `Capture.CapText` | mcp/_shared/runproc.py:82-91 | text that fits is returned whole; otherwise both ends and the number of bytes between them |
| `TrustChain.FindLinks` | scripts/check_ledger_references.py:505-584 | a line is returned if and only if it is a list entry under a latest header, with only entries and blanks between, each blank run leading to an entry deeper than the header, or flush with it before the first entry |
| `TrustChain.SameRun` | scripts/check_ledger_references.py:562-577 | every line of a blank run decides as the run's first line does |
| `TrustChain.SplitCodeSpans` | scripts/check_ledger_references.py:272-285 | the segments alternate plain and code, hold no backtick except one unterminated in the last, and join to the line |
| `TrustChain.OneSplitting` | scripts/check_ledger_references.py:272-285 | a line has one such splitting |
| `ClaimIds.IdExistsIffPartsSurvive` | scripts/fv_migrate.py:803-830 | a legacy id maps to an evidence id exactly when each of its parts keeps a character; the final alphabet check never fails |
| `ClaimIds.IdIsStable` | scripts/fv_migrate.py:803-830 | a migrated id is in the producer's alphabet and migrates to itself |
| `ClaimIds.IdsMeet` | scripts/fv_migrate.py:791-830 | any unsafe run of a name after the layer may be exchanged for a dash without changing the id |
| `Obligations.Translation.TranslateClaim` | scripts/fv_migrate.py:1657-1756 | the checks in their order, the recorded targets and owners, and the converted claim |
| `Obligations.Translation.Translate` | scripts/fv_migrate.py:1657-1756 | the loop over the claims gives the specified translation |
| `Obligations.Translation.Own` | scripts/fv_migrate.py:833-842 | records an owner once, in first-seen order |
| `Obligations.MigrateTargets` | scripts/fv_migrate.py:1696-1703 | all targets map, and then to these ids, or some do not |
| `ObligationManifest.TranslatedIsSound` | scripts/fv_migrate.py:1657-1756 | targets are recorded once, under one kind, with the id they migrate to; claims depend only on recorded targets; without problems there is a claim for each id in order |
| `ObligationManifest.NeverBothKinds` | scripts/fv_migrate.py:1757-1762 | no target is ever both an invariant and a witness |
| `ObligationManifest.TargetsAreListed` | scripts/fv_migrate.py:1721-1727 | the recorded targets are exactly those the converted claims list |
| `WrittenManifest.CheckedIff` | scripts/fv_migrate.py:1657-1720 | a legacy claim that passes the checks converts, to its id, its targets with theirs and its tools, each once; one that does not pass them converts to nothing |
| `WrittenManifest.UnsupportedIff` | scripts/fv_migrate.py:1757-1775 | the migration of obligations is refused exactly if some claim does not convert or two different spellings in use migrate to one id |
| `WrittenManifest.WrittenTargets` | scripts/fv_migrate.py:1721-1826 | each target a converted claim lists has one entry, under `witnesses` exactly if its prefix is `proptest` or `proptests` or begins with `test`, otherwise under `invariants` |
| `WrittenManifest.WrittenInOrder` | scripts/fv_migrate.py:1811-1822 | the entries stand in the order of their ids |
| `WrittenManifest.WrittenClaims` | scripts/fv_migrate.py:1728-1756 | one written claim for each legacy claim, in order, with its id, legacy spelling, dependencies, tools, and the class, scope and waiver it carried |
| `ObligationManifest.MigratedLoadsIff` | scripts/fv_migrate.py:1763-1826 | a translation that is not refused writes a manifest Gate B loads (distinct ids, dependencies declared) if and only if no legacy claim is spelled like a target that a convertible claim lists, which the legacy files already show |
| `ObligationManifest.EqualSpellingEscapes` | scripts/fv_migrate.py:833-842 | two claims, one spelled like the other's target, pass every check and yield a manifest that does not load |

## Left out

- Directory creation and clean-up in the migration, the choice of a run directory, and another process touching the tree during an apply: the model is of files, with an arbitrary failure at every call.
- `Migration.Migrator.Stage`: a staged file's metadata beyond its mode is not modelled.
- `Migration.Migrator.Preflight`: how a symlinked component, an unwritable ancestor and an unusable staging prefix are recognised, and what reading a file or a special file gives, are parameters; a read that never returns is not modelled.
- File-system metadata, git, signals, process groups, locking system calls, asynchronous draining, clocks: parameters or abstract steps.
- SHA-256 itself: an uninterpreted function; injectivity or absence of collisions is an explicit hypothesis where a statement needs it.
- Reading artifacts, pass markers, tool-identity field checks and the validation of a whole event file: predicates, so what each of them accepts is not modelled.
- `Receipts.Reader.Load`: the checks on one file's path, links and stability while it is read belong to what parsing it or validating a receipt gives.
- `_current_inputs`, `_effective_closure`, `_physical_expansion`, `_raw` and the re-run of observations in the v4 assessment: what they compute enters the assessment as inputs.
- Line numbers and wording in refusals, the order of defect lists where no rule depends on it, and Python's exceptions on unhashable or mistyped values that earlier validation rules out.
- `Json.CodecRoundTrip`: Python's recursion limit on deeply nested values and its limit on the length of decimal integers are not modelled.
- `Manifests.LoadManifest`: modelled on values; the loops that fill its dictionaries are a recursion.
- `Obligations.TranslateOne`: statement texts, `legacy_fields` and the document-level `migration` entry are not modelled; the manifest loader does not read them.
- The `load_manifest`/`save_manifest` temporary file of the run manifest: the replacement is one atomic step, so a crash before it leaves the old manifest.
- Two spellings of one path in voice files (`a` and `./a`) are different names here.
- `Capture.CapText`: the decoding of head and tail to text, which happens separately for each, is left at byte level.
- `cmd_init`, `cmd_status`, `cmd_wait`, `cmd_synthesize`: reading and formatting only.
- Citation, axiom and kani annotation bodies in ledgers: enumerations of spellings.
- Path resolution and target lookup in `scripts/fv_project.py`: thin wrappers over the file system.
- Gate A invocation, diagnostic capping, text and JSON rendering, command-line parsing, the plan, dispatch and intent parts of the migration, the MCP servers and the scoring scripts: plumbing, or easy members only.
